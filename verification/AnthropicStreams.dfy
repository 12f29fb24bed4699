/** What one-pass reassembly of an Anthropic stream guarantees: independence of the interleaving and of how
    deltas are cut, and agreement with the single-message form on every legal chunking of a message. */
module AnthropicStreams {
  import opened Options
  import opened Anthropic
  import opened Sequences

  // ----- projections of a concatenation -----

  lemma {:induction false} ProjectionsConcat(x: seq<Event>, y: seq<Event>, i: int)
    ensures BlockEvents(x + y, i) == BlockEvents(x, i) + BlockEvents(y, i)
    ensures MessageEvents(x + y) == MessageEvents(x) + MessageEvents(y)
    ensures Starts(x + y) == Starts(x) + Starts(y)
  {
    if y == [] {
      assert x + y == x;
    } else {
      var y', e := y[..|y| - 1], y[|y| - 1];
      assert (x + y)[..|x + y| - 1] == x + y';
      ProjectionsConcat(x, y', i);
    }
  }

  // ----- confluence -----

  /** Only the order of block starts, each block's own events and the message-level events matter. */
  lemma ReassemblyIsConfluent(x: seq<Event>, y: seq<Event>, valid: string -> bool)
    requires Starts(x) == Starts(y) && MessageEvents(x) == MessageEvents(y)
    requires forall i :: BlockEvents(x, i) == BlockEvents(y, i)
    ensures Reassembled(x, valid) == Reassembled(y, valid)
  {
    assert forall k :: 0 <= k < |Starts(x)| ==> BlockOf(x, Starts(x)[k], valid) == BlockOf(y, Starts(x)[k], valid);
    assert BlocksOf(x, Starts(x), valid) == BlocksOf(y, Starts(y), valid);
  }

  /** Neither both starts, nor both of one block, nor both of the message level. */
  ghost predicate Independent(a: Event, b: Event) {
    && !(a.BlockStart? && b.BlockStart?)
    && !(IsForMessage(a) && IsForMessage(b))
    && forall i :: !(IsForBlock(a, i) && IsForBlock(b, i))
  }

  lemma PairProjections(a: Event, b: Event, i: int)
    ensures BlockEvents([a, b], i) ==
            if IsForBlock(a, i) then (if IsForBlock(b, i) then [a, b] else [a]) else if IsForBlock(b, i) then [b] else []
    ensures MessageEvents([a, b]) ==
            if IsForMessage(a) then (if IsForMessage(b) then [a, b] else [a]) else if IsForMessage(b) then [b] else []
    ensures Starts([a, b]) ==
            if a.BlockStart? then (if b.BlockStart? then [a.index, b.index] else [a.index]) else if b.BlockStart? then [b.index] else []
  {
    AccumulatedFrame([], a, i);
    AccumulatedFrame([a], b, i);
    assert [] + [a] == [a] && [a] + [b] == [a, b];
  }

  /** Surrounding two segments by the same events keeps equal projections equal. */
  lemma InContext(p: seq<Event>, m: seq<Event>, n: seq<Event>, q: seq<Event>, i: int)
    ensures BlockEvents(m, i) == BlockEvents(n, i) ==> BlockEvents(p + m + q, i) == BlockEvents(p + n + q, i)
    ensures MessageEvents(m) == MessageEvents(n) ==> MessageEvents(p + m + q) == MessageEvents(p + n + q)
    ensures Starts(m) == Starts(n) ==> Starts(p + m + q) == Starts(p + n + q)
  {
    ProjectionsConcat(p + m, q, i);
    ProjectionsConcat(p, m, i);
    ProjectionsConcat(p + n, q, i);
    ProjectionsConcat(p, n, i);
  }

  /** Independent neighbours may arrive in either order, in any stream. */
  lemma NeighboursCommute(p: seq<Event>, a: Event, b: Event, q: seq<Event>, valid: string -> bool)
    requires Independent(a, b)
    ensures Reassembled(p + [a, b] + q, valid) == Reassembled(p + [b, a] + q, valid)
  {
    forall i ensures BlockEvents(p + [a, b] + q, i) == BlockEvents(p + [b, a] + q, i) {
      PairProjections(a, b, i);
      PairProjections(b, a, i);
      InContext(p, [a, b], [b, a], q, i);
    }
    PairProjections(a, b, 0);
    PairProjections(b, a, 0);
    InContext(p, [a, b], [b, a], q, 0);
    ReassemblyIsConfluent(p + [a, b] + q, p + [b, a] + q, valid);
  }

  // ----- cutting a delta in two -----

  /** `d` cut into `d1` and `d2`: the same kind of delta, its text split. */
  predicate IsCut(d: Delta, d1: Delta, d2: Delta) {
    match (d, d1, d2)
    case (TextDelta(t), TextDelta(t1), TextDelta(t2)) => t == t1 + t2
    case (ThinkingDelta(t), ThinkingDelta(t1), ThinkingDelta(t2)) => t == t1 + t2
    case (InputJsonDelta(t), InputJsonDelta(t1), InputJsonDelta(t2)) => t == t1 + t2
    case _ => false
  }

  lemma CutDeltaApplies(a: BlockAcc, d: Delta, d1: Delta, d2: Delta)
    requires IsCut(d, d1, d2)
    ensures ApplyDelta(ApplyDelta(a, d1), d2) == ApplyDelta(a, d)
  {
    match (d, d1, d2)
    case (TextDelta(t), TextDelta(t1), TextDelta(t2)) => assert (a.block.text + t1) + t2 == a.block.text + (t1 + t2);
    case (ThinkingDelta(t), ThinkingDelta(t1), ThinkingDelta(t2)) => assert (a.block.text + t1) + t2 == a.block.text + (t1 + t2);
    case (InputJsonDelta(t), InputJsonDelta(t1), InputJsonDelta(t2)) => assert (a.json + t1) + t2 == a.json + (t1 + t2);
  }

  lemma AccumulatedSnoc(sub: seq<Event>, e: Event)
    ensures Accumulated(sub + [e]) ==
            match e
            case BlockStart(_, b) => Some(BlockAcc(MapBlock(b), ""))
            case BlockDelta(_, d) =>
              (match Accumulated(sub)
               case None => None
               case Some(a) => Some(ApplyDelta(a, d)))
            case _ => Accumulated(sub)
  {
    assert (sub + [e])[..|sub|] == sub;
  }

  lemma {:induction false} EqualPrefixesAccumulateAlike(u: seq<Event>, v: seq<Event>, tail: seq<Event>)
    requires Accumulated(u) == Accumulated(v)
    ensures Accumulated(u + tail) == Accumulated(v + tail)
  {
    if tail == [] {
      assert u + tail == u && v + tail == v;
    } else {
      var t, e := tail[..|tail| - 1], tail[|tail| - 1];
      EqualPrefixesAccumulateAlike(u, v, t);
      AccumulatedSnoc(u + t, e);
      AccumulatedSnoc(v + t, e);
      LastOf(u, tail);
      LastOf(v, tail);
    }
  }

  lemma CutBlockAccumulates(p: seq<Event>, i: int, d: Delta, d1: Delta, d2: Delta, q: seq<Event>)
    requires IsCut(d, d1, d2)
    ensures Accumulated(BlockEvents(p + [BlockDelta(i, d)] + q, i))
         == Accumulated(BlockEvents(p + [BlockDelta(i, d1), BlockDelta(i, d2)] + q, i))
  {
    var e, e1, e2 := BlockDelta(i, d), BlockDelta(i, d1), BlockDelta(i, d2);
    var sub := BlockEvents(p, i);
    AccumulatedSnoc(sub, e);
    AccumulatedSnoc(sub, e1);
    AccumulatedSnoc(sub + [e1], e2);
    if Accumulated(sub).Some? { CutDeltaApplies(Accumulated(sub).value, d, d1, d2); }
    EqualPrefixesAccumulateAlike(sub + [e], sub + [e1] + [e2], BlockEvents(q, i));
    AccumulatedFrame(p, e, i);
    ProjectionsConcat(p + [e], q, i);
    AccumulatedFrame(p, e1, i);
    AccumulatedFrame(p + [e1], e2, i);
    assert p + [e1] + [e2] == p + [e1, e2];
    ProjectionsConcat(p + [e1, e2], q, i);
  }

  lemma CutOnlyTouchesItsBlock(p: seq<Event>, i: int, d: Delta, d1: Delta, d2: Delta, q: seq<Event>, k: int)
    ensures var x, y := p + [BlockDelta(i, d)] + q, p + [BlockDelta(i, d1), BlockDelta(i, d2)] + q;
            && Starts(x) == Starts(y) && MessageEvents(x) == MessageEvents(y)
            && (k != i ==> BlockEvents(x, k) == BlockEvents(y, k))
  {
    var e, e1, e2 := BlockDelta(i, d), BlockDelta(i, d1), BlockDelta(i, d2);
    SingleProjections(e, k);
    PairProjections(e1, e2, k);
    InContext(p, [e], [e1, e2], q, k);
  }

  /** Cutting one text, thinking or partial-JSON delta in two changes nothing, in any stream. */
  lemma CutsAreInvisible(p: seq<Event>, i: int, d: Delta, d1: Delta, d2: Delta, q: seq<Event>, valid: string -> bool)
    requires IsCut(d, d1, d2)
    ensures Reassembled(p + [BlockDelta(i, d)] + q, valid) == Reassembled(p + [BlockDelta(i, d1), BlockDelta(i, d2)] + q, valid)
  {
    var x, y := p + [BlockDelta(i, d)] + q, p + [BlockDelta(i, d1), BlockDelta(i, d2)] + q;
    CutOnlyTouchesItsBlock(p, i, d, d1, d2, q, i);
    forall k ensures BlockOf(x, k, valid) == BlockOf(y, k, valid) {
      CutOnlyTouchesItsBlock(p, i, d, d1, d2, q, k);
      CutBlockAccumulates(p, i, d, d1, d2, q);
    }
    assert BlocksOf(x, Starts(x), valid) == BlocksOf(y, Starts(y), valid);
  }

  lemma SingleProjections(e: Event, i: int)
    ensures BlockEvents([e], i) == if IsForBlock(e, i) then [e] else []
    ensures MessageEvents([e]) == if IsForMessage(e) then [e] else []
    ensures Starts([e]) == if e.BlockStart? then [e.index] else []
  {
    AccumulatedFrame([], e, i);
    assert [] + [e] == [e];
  }
}
