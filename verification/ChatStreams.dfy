/** What one-pass reassembly of a Chat stream guarantees: only the joined text, each tool's own deltas and the
    order in which tools first appear matter, and a streamed reply means what the single reply means. */
module ChatStreams {
  import opened Options
  import opened Neutral
  import opened Chat
  import opened Sequences
  import Sse

  function AllDeltas(chunks: seq<Chunk>): seq<ToolDelta> {
    Deltas(Choices(chunks))
  }

  // ----- what a stream consists of -----

  function Given(s: string): seq<string> {
    if s == "" then [] else [s]
  }

  function LastGiven(given: seq<string>): string {
    if given == [] then "" else given[|given| - 1]
  }

  function LastReported(us: seq<ChatUsage>): Option<Usage> {
    if us == [] then None else us[|us| - 1].ToNeutral()
  }

  function Reported(u: Option<ChatUsage>): seq<ChatUsage> {
    if u == None then [] else [u.value]
  }

  /** The text pieces that say something, in order. */
  function TextPieces(cs: seq<ChunkChoice>): seq<string> {
    if cs == [] then []
    else TextPieces(cs[..|cs| - 1]) + Given(cs[|cs| - 1].content)
  }

  /** The finish reasons given, in order. */
  function Finishes(cs: seq<ChunkChoice>): seq<string> {
    if cs == [] then []
    else Finishes(cs[..|cs| - 1]) + Given(cs[|cs| - 1].finishReason)
  }

  /** The models named, in order. */
  function Models(chunks: seq<Chunk>): seq<string> {
    if chunks == [] then []
    else Models(chunks[..|chunks| - 1]) + Given(chunks[|chunks| - 1].model)
  }

  /** The usages reported, in order. */
  function Usages(chunks: seq<Chunk>): seq<ChatUsage> {
    if chunks == [] then []
    else Usages(chunks[..|chunks| - 1]) + Reported(chunks[|chunks| - 1].usage)
  }

  lemma ChoicePiecesSnoc(cs: seq<ChunkChoice>, c: ChunkChoice)
    ensures TextPieces(cs + [c]) == TextPieces(cs) + Given(c.content)
    ensures Finishes(cs + [c]) == Finishes(cs) + Given(c.finishReason)
    ensures Deltas(cs + [c]) == Deltas(cs) + c.toolCalls
  {
    assert (cs + [c])[..|cs|] == cs;
  }

  lemma {:induction false} ChoicePiecesConcat(x: seq<ChunkChoice>, y: seq<ChunkChoice>)
    ensures TextPieces(x + y) == TextPieces(x) + TextPieces(y)
    ensures Finishes(x + y) == Finishes(x) + Finishes(y)
    ensures Deltas(x + y) == Deltas(x) + Deltas(y)
  {
    if y == [] {
      assert x + y == x;
    } else {
      var y', c := y[..|y| - 1], y[|y| - 1];
      ChoicePiecesConcat(x, y');
      ChoicePiecesSnoc(x + y', c);
      LastOf(x, y);
      Assoc(TextPieces(x), TextPieces(y'), Given(c.content));
      Assoc(Finishes(x), Finishes(y'), Given(c.finishReason));
      Assoc(Deltas(x), Deltas(y'), c.toolCalls);
    }
  }

  lemma ChunkPiecesSnoc(chunks: seq<Chunk>, c: Chunk)
    ensures Choices(chunks + [c]) == Choices(chunks) + c.choices
    ensures Models(chunks + [c]) == Models(chunks) + Given(c.model)
    ensures Usages(chunks + [c]) == Usages(chunks) + Reported(c.usage)
  {
    assert (chunks + [c])[..|chunks|] == chunks;
  }

  lemma {:induction false} ChunkPiecesConcat(x: seq<Chunk>, y: seq<Chunk>)
    ensures Choices(x + y) == Choices(x) + Choices(y)
    ensures Models(x + y) == Models(x) + Models(y)
    ensures Usages(x + y) == Usages(x) + Usages(y)
  {
    if y == [] {
      assert x + y == x;
    } else {
      var y', c := y[..|y| - 1], y[|y| - 1];
      ChunkPiecesConcat(x, y');
      ChunkPiecesSnoc(x + y', c);
      LastOf(x, y);
      Assoc(Choices(x), Choices(y'), c.choices);
      Assoc(Models(x), Models(y'), Given(c.model));
      Assoc(Usages(x), Usages(y'), Reported(c.usage));
    }
  }

  lemma {:induction false} PiecesJoinToText(cs: seq<ChunkChoice>)
    ensures TextOf(cs) == Concat(TextPieces(cs))
  {
    if cs != [] {
      var pieces, t := TextPieces(cs[..|cs| - 1]), cs[|cs| - 1].content;
      PiecesJoinToText(cs[..|cs| - 1]);
      ConcatSnoc(pieces, t);
      assert Concat(pieces) + "" == Concat(pieces) && pieces + [] == pieces;
    }
  }

  lemma {:induction false} LastFinishCounts(cs: seq<ChunkChoice>)
    ensures FinishOf(cs) == LastGiven(Finishes(cs))
  {
    if cs != [] {
      LastFinishCounts(cs[..|cs| - 1]);
    }
  }

  lemma {:induction false} LastModelCounts(chunks: seq<Chunk>)
    ensures ModelOf(chunks) == LastGiven(Models(chunks))
  {
    if chunks != [] {
      LastModelCounts(chunks[..|chunks| - 1]);
    }
  }

  lemma {:induction false} LastUsageCounts(chunks: seq<Chunk>)
    ensures UsageOf(chunks) == LastReported(Usages(chunks))
  {
    if chunks != [] {
      LastUsageCounts(chunks[..|chunks| - 1]);
    }
  }

  lemma {:induction false} ConcatSnoc(parts: seq<string>, t: string)
    ensures Concat(parts + [t]) == Concat(parts) + t
  {
    if parts == [] {
      assert parts + [t] == [t] && t + "" == t && "" + t == t;
    } else {
      assert (parts + [t])[1..] == parts[1..] + [t];
      ConcatSnoc(parts[1..], t);
      Assoc(parts[0], Concat(parts[1..]), t);
    }
  }

  // ----- confluence -----

  /** What a tool's deltas amount to. */
  function Amounts(ds: seq<ToolDelta>): (string, string, string) {
    (IdOf(ds), NameOf(ds), ArgumentsOf(ds))
  }

  /** Two tool-delta sequences with the same tools in the same order of first appearance,
      each tool's own deltas amounting to the same. */
  ghost predicate SameTools(x: seq<ToolDelta>, y: seq<ToolDelta>) {
    FirstSeen(x) == FirstSeen(y) && forall i :: Amounts(OfTool(x, i)) == Amounts(OfTool(y, i))
  }

  /** The same models and usages reported. */
  ghost predicate SameEnvelope(x: seq<Chunk>, y: seq<Chunk>) {
    Models(x) == Models(y) && Usages(x) == Usages(y)
  }

  lemma EnvelopeDecides(x: seq<Chunk>, y: seq<Chunk>)
    requires SameEnvelope(x, y) && Finishes(Choices(x)) == Finishes(Choices(y))
    ensures ModelOf(x) == ModelOf(y) && UsageOf(x) == UsageOf(y) && FinishOf(Choices(x)) == FinishOf(Choices(y))
  {
    LastModelCounts(x);
    LastModelCounts(y);
    LastUsageCounts(x);
    LastUsageCounts(y);
    LastFinishCounts(Choices(x));
    LastFinishCounts(Choices(y));
  }

  lemma EqualCallsReassembleAlike(x: seq<Chunk>, y: seq<Chunk>, valid: string -> bool)
    requires SameEnvelope(x, y) && Finishes(Choices(x)) == Finishes(Choices(y)) && TextOf(Choices(x)) == TextOf(Choices(y))
    requires CallsOf(AllDeltas(x), FirstSeen(AllDeltas(x)), valid) == CallsOf(AllDeltas(y), FirstSeen(AllDeltas(y)), valid)
    ensures Reassembled(x, valid) == Reassembled(y, valid)
  {
    EnvelopeDecides(x, y);
  }

  lemma EqualAmountsReassembleAlike(x: seq<Chunk>, y: seq<Chunk>, valid: string -> bool)
    requires SameEnvelope(x, y) && Finishes(Choices(x)) == Finishes(Choices(y)) && TextOf(Choices(x)) == TextOf(Choices(y))
    requires SameTools(AllDeltas(x), AllDeltas(y))
    ensures Reassembled(x, valid) == Reassembled(y, valid)
  {
    var order := FirstSeen(AllDeltas(x));
    forall k | 0 <= k < |order| ensures CallOf(AllDeltas(x), order[k], valid) == CallOf(AllDeltas(y), order[k], valid) {
      assert Amounts(OfTool(AllDeltas(x), order[k])) == Amounts(OfTool(AllDeltas(y), order[k]));
    }
    assert CallsOf(AllDeltas(x), order, valid) == CallsOf(AllDeltas(y), order, valid);
    EqualCallsReassembleAlike(x, y, valid);
  }

  /** Only the order of the text pieces, of the finish reasons, of the models, of the usages, of each tool's own deltas
      and of the tools' first appearances matters, in any stream.  How these are interleaved, and how they are packed
      into chunks and choices, plays no part. */
  lemma ReassemblyIsConfluent(x: seq<Chunk>, y: seq<Chunk>, valid: string -> bool)
    requires TextPieces(Choices(x)) == TextPieces(Choices(y)) && Finishes(Choices(x)) == Finishes(Choices(y))
    requires SameEnvelope(x, y)
    requires FirstSeen(AllDeltas(x)) == FirstSeen(AllDeltas(y)) && forall i :: OfTool(AllDeltas(x), i) == OfTool(AllDeltas(y), i)
    ensures Reassembled(x, valid) == Reassembled(y, valid)
  {
    PiecesJoinToText(Choices(x));
    PiecesJoinToText(Choices(y));
    EqualAmountsReassembleAlike(x, y, valid);
  }

  // ----- swapping neighbours -----

  lemma {:induction false} FirstSeenConcat(x: seq<ToolDelta>, y: seq<ToolDelta>, q: seq<ToolDelta>)
    requires FirstSeen(x) == FirstSeen(y)
    ensures FirstSeen(x + q) == FirstSeen(y + q)
  {
    if q == [] {
      assert x + q == x && y + q == y;
    } else {
      var q', d := q[..|q| - 1], q[|q| - 1];
      FirstSeenConcat(x, y, q');
      ToolSnoc(x + q', d, 0);
      ToolSnoc(y + q', d, 0);
      LastOf(x, q);
      LastOf(y, q);
    }
  }

  lemma {:induction false} FirstSeenGrows(x: seq<ToolDelta>, q: seq<ToolDelta>)
    ensures FirstSeen(x) <= FirstSeen(x + q)
  {
    if q == [] {
      assert x + q == x;
    } else {
      var q', d := q[..|q| - 1], q[|q| - 1];
      FirstSeenGrows(x, q');
      ToolSnoc(x + q', d, 0);
      LastOf(x, q);
    }
  }

  /** All tools of `ds` are among `seen`. */
  predicate AreKnown(ds: seq<ToolDelta>, seen: seq<int>) {
    ds == [] || (AreKnown(ds[..|ds| - 1], seen) && ds[|ds| - 1].index in seen)
  }

  lemma {:induction false} KnownStayKnown(ds: seq<ToolDelta>, u: seq<int>, v: seq<int>)
    requires AreKnown(ds, u) && u <= v
    ensures AreKnown(ds, v)
  {
    if ds != [] {
      KnownStayKnown(ds[..|ds| - 1], u, v);
    }
  }

  /** `ds` starts no tool after `x` exactly when its tools are known there. */
  lemma {:induction false} NothingNewIff(x: seq<ToolDelta>, ds: seq<ToolDelta>)
    ensures FirstSeen(x + ds) == FirstSeen(x) <==> AreKnown(ds, FirstSeen(x))
  {
    if ds == [] {
      assert x + ds == x;
    } else {
      var p, d := ds[..|ds| - 1], ds[|ds| - 1];
      NothingNewIff(x, p);
      ToolSnoc(x + p, d, 0);
      LastOf(x, ds);
      FirstSeenGrows(x, p);
    }
  }

  /** Deltas that start no tool after `p` may stand before or after others. */
  lemma OldToolsMove(p: seq<ToolDelta>, a: seq<ToolDelta>, b: seq<ToolDelta>)
    requires FirstSeen(p + a) == FirstSeen(p)
    ensures FirstSeen((p + a) + b) == FirstSeen(p + b) == FirstSeen((p + b) + a)
  {
    FirstSeenConcat(p + a, p, b);
    NothingNewIff(p, a);
    FirstSeenGrows(p, b);
    KnownStayKnown(a, FirstSeen(p), FirstSeen(p + b));
    NothingNewIff(p + b, a);
  }

  lemma {:induction false} OfToolConcat(x: seq<ToolDelta>, q: seq<ToolDelta>, i: int)
    ensures OfTool(x + q, i) == OfTool(x, i) + OfTool(q, i)
  {
    if q == [] {
      assert x + q == x;
    } else {
      var q', d := q[..|q| - 1], q[|q| - 1];
      OfToolConcat(x, q', i);
      ToolSnoc(x + q', d, i);
      LastOf(x, q);
      if d.index == i { Assoc(OfTool(x, i), OfTool(q', i), [d]); }
    }
  }

  /** No tool has deltas in both, and at most one of them starts new tools after `p`. */
  ghost predicate IndependentTools(p: seq<ToolDelta>, a: seq<ToolDelta>, b: seq<ToolDelta>) {
    && (forall i :: OfTool(a, i) == [] || OfTool(b, i) == [])
    && (FirstSeen(p + a) == FirstSeen(p) || FirstSeen(p + b) == FirstSeen(p))
  }

  lemma OfToolCommutes(p: seq<ToolDelta>, a: seq<ToolDelta>, b: seq<ToolDelta>, q: seq<ToolDelta>, i: int)
    requires OfTool(a, i) == [] || OfTool(b, i) == []
    ensures OfTool(((p + a) + b) + q, i) == OfTool(((p + b) + a) + q, i)
  {
    OfToolConcat((p + a) + b, q, i);
    OfToolConcat(p + a, b, i);
    OfToolConcat(p, a, i);
    OfToolConcat((p + b) + a, q, i);
    OfToolConcat(p + b, a, i);
    OfToolConcat(p, b, i);
    EmptyOneCommutes(OfTool(p, i), OfTool(a, i), OfTool(b, i));
  }

  lemma IndependentToolsCommute(p: seq<ToolDelta>, a: seq<ToolDelta>, b: seq<ToolDelta>, q: seq<ToolDelta>)
    requires IndependentTools(p, a, b)
    ensures FirstSeen(((p + a) + b) + q) == FirstSeen(((p + b) + a) + q)
    ensures forall i :: OfTool(((p + a) + b) + q, i) == OfTool(((p + b) + a) + q, i)
  {
    forall i ensures OfTool(((p + a) + b) + q, i) == OfTool(((p + b) + a) + q, i) {
      OfToolCommutes(p, a, b, q, i);
    }
    if FirstSeen(p + a) == FirstSeen(p) {
      OldToolsMove(p, a, b);
    } else {
      OldToolsMove(p, b, a);
    }
    FirstSeenConcat((p + a) + b, (p + b) + a, q);
  }

  /** Not both with text, not both with a finish reason, and with independent tools. */
  ghost predicate Independent(p: seq<ChunkChoice>, a: seq<ChunkChoice>, b: seq<ChunkChoice>) {
    && (TextPieces(a) == [] || TextPieces(b) == [])
    && (Finishes(a) == [] || Finishes(b) == [])
    && IndependentTools(Deltas(p), Deltas(a), Deltas(b))
  }

  lemma FourPieces(p: seq<ChunkChoice>, a: seq<ChunkChoice>, b: seq<ChunkChoice>, q: seq<ChunkChoice>)
    ensures var all := ((p + a) + b) + q;
            && TextPieces(all) == ((TextPieces(p) + TextPieces(a)) + TextPieces(b)) + TextPieces(q)
            && Finishes(all) == ((Finishes(p) + Finishes(a)) + Finishes(b)) + Finishes(q)
            && Deltas(all) == ((Deltas(p) + Deltas(a)) + Deltas(b)) + Deltas(q)
  {
    ChoicePiecesConcat((p + a) + b, q);
    ChoicePiecesConcat(p + a, b);
    ChoicePiecesConcat(p, a);
  }

  /** Independent neighbouring choices may arrive in either order, in any stream and however packed into chunks. */
  lemma ChoicesCommute(x: seq<Chunk>, y: seq<Chunk>, p: seq<ChunkChoice>, a: seq<ChunkChoice>, b: seq<ChunkChoice>,
                       q: seq<ChunkChoice>, valid: string -> bool)
    requires SameEnvelope(x, y) && Independent(p, a, b)
    requires Choices(x) == ((p + a) + b) + q && Choices(y) == ((p + b) + a) + q
    ensures Reassembled(x, valid) == Reassembled(y, valid)
  {
    FourPieces(p, a, b, q);
    FourPieces(p, b, a, q);
    EmptyOneCommutes(TextPieces(p), TextPieces(a), TextPieces(b));
    EmptyOneCommutes(Finishes(p), Finishes(a), Finishes(b));
    IndependentToolsCommute(Deltas(p), Deltas(a), Deltas(b), Deltas(q));
    ReassemblyIsConfluent(x, y, valid);
  }

  lemma EmptyOneCommutes<T>(p: seq<T>, a: seq<T>, b: seq<T>)
    requires a == [] || b == []
    ensures (p + a) + b == (p + b) + a
  {
  }

  /** Neighbouring chunks may arrive in either order, in any stream, when their choices are independent and not both
      name a model or report usage. */
  lemma NeighboursCommute(p: seq<Chunk>, a: Chunk, b: Chunk, q: seq<Chunk>, valid: string -> bool)
    requires Independent(Choices(p), a.choices, b.choices)
    requires (a.model == "" || b.model == "") && (a.usage == None || b.usage == None)
    ensures Reassembled(((p + [a]) + [b]) + q, valid) == Reassembled(((p + [b]) + [a]) + q, valid)
  {
    ChunksInContext(p, a, b, q);
    ChunksInContext(p, b, a, q);
    EmptyOneCommutes(Models(p), Given(a.model), Given(b.model));
    EmptyOneCommutes(Usages(p), Reported(a.usage), Reported(b.usage));
    ChoicesCommute(((p + [a]) + [b]) + q, ((p + [b]) + [a]) + q, Choices(p), a.choices, b.choices, Choices(q), valid);
  }

  lemma ChunksInContext(p: seq<Chunk>, a: Chunk, b: Chunk, q: seq<Chunk>)
    ensures var all := ((p + [a]) + [b]) + q;
            && Choices(all) == ((Choices(p) + a.choices) + b.choices) + Choices(q)
            && Models(all) == ((Models(p) + Given(a.model)) + Given(b.model)) + Models(q)
            && Usages(all) == ((Usages(p) + Reported(a.usage)) + Reported(b.usage)) + Usages(q)
  {
    ChunkPiecesSnoc(p, a);
    ChunkPiecesSnoc(p + [a], b);
    ChunkPiecesConcat((p + [a]) + [b], q);
  }

  // ----- swapping two tool deltas, exactly -----

  /** A chunk that carries one tool delta and nothing else. */
  function ToolChunk(d: ToolDelta): Chunk {
    Chunk("", [ChunkChoice("", [d], "")], None)
  }

  lemma ToolChunkPieces(d: ToolDelta)
    ensures var cs := ToolChunk(d).choices;
            TextPieces(cs) == [] && Finishes(cs) == [] && Deltas(cs) == [d]
  {
    ChoicePiecesSnoc([], ToolChunk(d).choices[0]);
    assert [] + ToolChunk(d).choices == ToolChunk(d).choices && [] + [d] == [d];
  }

  lemma PairOfDeltas(p: seq<Chunk>, a: ToolDelta, b: ToolDelta, q: seq<Chunk>)
    ensures AllDeltas(((p + [ToolChunk(a)]) + [ToolChunk(b)]) + q) == ((AllDeltas(p) + [a]) + [b]) + AllDeltas(q)
  {
    ChunksInContext(p, ToolChunk(a), ToolChunk(b), q);
    FourPieces(Choices(p), ToolChunk(a).choices, ToolChunk(b).choices, Choices(q));
    ToolChunkPieces(a);
    ToolChunkPieces(b);
  }

  lemma OneDeltaOfTool(d: ToolDelta, i: int)
    ensures OfTool([d], i) == if d.index == i then [d] else []
  {
    ToolSnoc([], d, i);
    assert [] + [d] == [d];
  }

  lemma DifferentToolsAreDisjoint(a: ToolDelta, b: ToolDelta)
    requires a.index != b.index
    ensures forall i :: OfTool([a], i) == [] || OfTool([b], i) == []
  {
    forall i ensures OfTool([a], i) == [] || OfTool([b], i) == [] {
      OneDeltaOfTool(a, i);
      OneDeltaOfTool(b, i);
    }
  }

  /** Where two new tools stand when both start at once. */
  lemma NewToolsInOrder(p: seq<ToolDelta>, a: ToolDelta, b: ToolDelta, q: seq<ToolDelta>)
    requires a.index != b.index && a.index !in FirstSeen(p) && b.index !in FirstSeen(p)
    ensures FirstSeen((p + [a]) + [b]) == (FirstSeen(p) + [a.index]) + [b.index] <= FirstSeen(((p + [a]) + [b]) + q)
  {
    ToolSnoc(p, a, 0);
    ToolSnoc(p + [a], b, 0);
    FirstSeenGrows((p + [a]) + [b], q);
  }

  lemma ResponseHoldsCalls(chunks: seq<Chunk>, valid: string -> bool)
    ensures Reassembled(chunks, valid).0.toolCalls == CallsOf(AllDeltas(chunks), FirstSeen(AllDeltas(chunks)), valid)
  {
    var text, calls := TextOf(Choices(chunks)), CallsOf(AllDeltas(chunks), FirstSeen(AllDeltas(chunks)), valid);
    CallBlocksCarryCalls(TextBlocks(text), calls);
    TextBlocksJoin(text);
    assert [] + calls == calls;
  }

  /** Neighbouring deltas of two tools may arrive in either order, in any stream, exactly when one of the tools was seen
      before or both tools' calls come out equal: two first deltas decide which call comes first. */
  lemma ToolDeltasCommuteIff(p: seq<Chunk>, a: ToolDelta, b: ToolDelta, q: seq<Chunk>, valid: string -> bool)
    requires a.index != b.index
    ensures var x, y := ((p + [ToolChunk(a)]) + [ToolChunk(b)]) + q, ((p + [ToolChunk(b)]) + [ToolChunk(a)]) + q;
            Reassembled(x, valid) == Reassembled(y, valid) <==>
              || a.index in FirstSeen(AllDeltas(p)) || b.index in FirstSeen(AllDeltas(p))
              || CallOf(AllDeltas(x), a.index, valid) == CallOf(AllDeltas(x), b.index, valid)
  {
    var seen := FirstSeen(AllDeltas(p));
    if a.index in seen || b.index in seen {
      OldDeltasCommute(p, a, b, q, valid);
    } else {
      NewDeltasCommuteIff(p, a, b, q, valid);
    }
  }

  lemma OldDeltasCommute(p: seq<Chunk>, a: ToolDelta, b: ToolDelta, q: seq<Chunk>, valid: string -> bool)
    requires a.index != b.index && (a.index in FirstSeen(AllDeltas(p)) || b.index in FirstSeen(AllDeltas(p)))
    ensures Reassembled(((p + [ToolChunk(a)]) + [ToolChunk(b)]) + q, valid)
         == Reassembled(((p + [ToolChunk(b)]) + [ToolChunk(a)]) + q, valid)
  {
    ToolChunkPieces(a);
    ToolChunkPieces(b);
    DifferentToolsAreDisjoint(a, b);
    ToolSnoc(AllDeltas(p), a, 0);
    ToolSnoc(AllDeltas(p), b, 0);
    NeighboursCommute(p, ToolChunk(a), ToolChunk(b), q, valid);
  }

  /** Two first deltas: both streams have the same tools, and only the two places where they stand are exchanged. */
  lemma NewDeltasSwapPlaces(p: seq<ToolDelta>, a: ToolDelta, b: ToolDelta, q: seq<ToolDelta>)
    requires a.index != b.index && a.index !in FirstSeen(p) && b.index !in FirstSeen(p)
    ensures IsSwap(FirstSeen(((p + [a]) + [b]) + q), FirstSeen(((p + [b]) + [a]) + q), |FirstSeen(p)|, a.index, b.index)
  {
    var x, y := (p + [a]) + [b], (p + [b]) + [a];
    NewToolsInOrder(p, a, b, q);
    NewToolsInOrder(p, b, a, q);
    SwapHasSameElements(FirstSeen(p), a.index, b.index);
    LaterToolsAlike(x, y, q, |FirstSeen(p)| + 2);
  }

  /** `v` is `u` with the elements `i` and `j` at `n` exchanged. */
  ghost predicate IsSwap(u: seq<int>, v: seq<int>, n: nat, i: int, j: int) {
    && n + 2 <= |u| == |v|
    && u[n] == v[n + 1] == i && u[n + 1] == v[n] == j
    && forall k :: 0 <= k < |u| && k != n && k != n + 1 ==> u[k] == v[k]
  }

  lemma SwapHasSameElements(s: seq<int>, i: int, j: int)
    ensures forall e :: e in (s + [i]) + [j] <==> e in (s + [j]) + [i]
  {
  }

  /** The same elements, and from `n` on in the same places. */
  ghost predicate AlikeFrom(u: seq<int>, v: seq<int>, n: nat) {
    && |u| == |v| && (forall e :: e in u <==> e in v)
    && forall k :: n <= k < |u| ==> u[k] == v[k]
  }

  lemma AlikeSnoc(u: seq<int>, v: seq<int>, n: nat, i: int)
    requires AlikeFrom(u, v, n)
    ensures AlikeFrom(u + [i], v + [i], n)
  {
  }

  lemma {:induction false} LaterToolsAlike(x: seq<ToolDelta>, y: seq<ToolDelta>, q: seq<ToolDelta>, n: nat)
    requires AlikeFrom(FirstSeen(x), FirstSeen(y), n)
    ensures AlikeFrom(FirstSeen(x + q), FirstSeen(y + q), n)
  {
    if q == [] {
      assert x + q == x && y + q == y;
    } else {
      var q', d := q[..|q| - 1], q[|q| - 1];
      LaterToolsAlike(x, y, q', n);
      ToolSnoc(x + q', d, 0);
      ToolSnoc(y + q', d, 0);
      LastOf(x, q);
      LastOf(y, q);
      AlikeSnoc(FirstSeen(x + q'), FirstSeen(y + q'), n, d.index);
    }
  }

  lemma SwappedCalls(x: seq<ToolDelta>, y: seq<ToolDelta>, n: nat, i: int, j: int, valid: string -> bool)
    requires forall k :: OfTool(x, k) == OfTool(y, k)
    requires IsSwap(FirstSeen(x), FirstSeen(y), n, i, j)
    ensures CallsOf(x, FirstSeen(x), valid) == CallsOf(y, FirstSeen(y), valid) <==> CallOf(x, i, valid) == CallOf(x, j, valid)
  {
    var cx, cy := CallsOf(x, FirstSeen(x), valid), CallsOf(y, FirstSeen(y), valid);
    forall k ensures CallOf(x, k, valid) == CallOf(y, k, valid) {
      assert OfTool(x, k) == OfTool(y, k);
    }
    assert cx[n] == CallOf(x, i, valid) && cy[n] == CallOf(x, j, valid);
    if CallOf(x, i, valid) == CallOf(x, j, valid) {
      forall k | 0 <= k < |cx| ensures cx[k] == cy[k] {
      }
    }
  }

  lemma NewDeltasCommuteIff(p: seq<Chunk>, a: ToolDelta, b: ToolDelta, q: seq<Chunk>, valid: string -> bool)
    requires a.index != b.index && a.index !in FirstSeen(AllDeltas(p)) && b.index !in FirstSeen(AllDeltas(p))
    ensures var x, y := ((p + [ToolChunk(a)]) + [ToolChunk(b)]) + q, ((p + [ToolChunk(b)]) + [ToolChunk(a)]) + q;
            Reassembled(x, valid) == Reassembled(y, valid) <==>
            CallOf(AllDeltas(x), a.index, valid) == CallOf(AllDeltas(x), b.index, valid)
  {
    var x, y := ((p + [ToolChunk(a)]) + [ToolChunk(b)]) + q, ((p + [ToolChunk(b)]) + [ToolChunk(a)]) + q;
    PairOfDeltas(p, a, b, q);
    PairOfDeltas(p, b, a, q);
    NewDeltasSwapPlaces(AllDeltas(p), a, b, AllDeltas(q));
    DifferentToolsAreDisjoint(a, b);
    forall k ensures OfTool(AllDeltas(x), k) == OfTool(AllDeltas(y), k) {
      OfToolCommutes(AllDeltas(p), [a], [b], AllDeltas(q), k);
    }
    SwappedCalls(AllDeltas(x), AllDeltas(y), |FirstSeen(AllDeltas(p))|, a.index, b.index, valid);
    if CallOf(AllDeltas(x), a.index, valid) == CallOf(AllDeltas(x), b.index, valid) {
      ToolChunksSayNothingElse(p, a, b, q);
      ToolChunksSayNothingElse(p, b, a, q);
      PiecesJoinToText(Choices(x));
      PiecesJoinToText(Choices(y));
      EqualCallsReassembleAlike(x, y, valid);
    } else {
      ResponseHoldsCalls(x, valid);
      ResponseHoldsCalls(y, valid);
    }
  }

  lemma ToolChunksSayNothingElse(p: seq<Chunk>, a: ToolDelta, b: ToolDelta, q: seq<Chunk>)
    ensures var x := ((p + [ToolChunk(a)]) + [ToolChunk(b)]) + q;
            && Models(x) == Models(p) + Models(q) && Usages(x) == Usages(p) + Usages(q)
            && TextPieces(Choices(x)) == TextPieces(Choices(p)) + TextPieces(Choices(q))
            && Finishes(Choices(x)) == Finishes(Choices(p)) + Finishes(Choices(q))
  {
    ChunksInContext(p, ToolChunk(a), ToolChunk(b), q);
    FourPieces(Choices(p), ToolChunk(a).choices, ToolChunk(b).choices, Choices(q));
    ToolChunkPieces(a);
    ToolChunkPieces(b);
    NothingBetween(Models(p));
    NothingBetween(Usages(p));
    NothingBetween(TextPieces(Choices(p)));
    NothingBetween(Finishes(Choices(p)));
  }

  lemma NothingBetween<T>(s: seq<T>)
    ensures (s + []) + [] == s
  {
  }

  /** Two tools that start at once: which comes first is the order of the calls. */
  lemma FirstDeltasDecideTheOrder(a: ToolDelta, b: ToolDelta, valid: string -> bool)
    requires a.index != b.index && a.id != "" && b.id != "" && a.id != b.id
    ensures Reassembled((([] + [ToolChunk(a)]) + [ToolChunk(b)]) + [], valid)
         != Reassembled((([] + [ToolChunk(b)]) + [ToolChunk(a)]) + [], valid)
  {
    NewDeltasCommuteIff([], a, b, [], valid);
    PairOfDeltas([], a, b, []);
    var ds := (([] + [a]) + [b]) + [];
    assert ds == ([] + [a]) + [b] && AllDeltas([]) == [];
    ToolSnoc([], a, a.index);
    ToolSnoc([] + [a], b, a.index);
    ToolSnoc([], a, b.index);
    ToolSnoc([] + [a], b, b.index);
    PartsSnoc([], a);
    PartsSnoc([], b);
  }

  // ----- cutting a delta in two -----

  lemma {:induction false} AmountsConcat(x: seq<ToolDelta>, y: seq<ToolDelta>, q: seq<ToolDelta>)
    requires Amounts(x) == Amounts(y)
    ensures Amounts(x + q) == Amounts(y + q)
  {
    if q == [] {
      assert x + q == x && y + q == y;
    } else {
      var q', d := q[..|q| - 1], q[|q| - 1];
      AmountsConcat(x, y, q');
      PartsSnoc(x + q', d);
      PartsSnoc(y + q', d);
      LastOf(x, q);
      LastOf(y, q);
    }
  }

  lemma CutAmounts(p: seq<ToolDelta>, piece: ToolDelta, rest: string, q: seq<ToolDelta>, i: int)
    ensures var whole, tail := piece.(arguments := piece.arguments + rest), ToolDelta(piece.index, "", "", rest);
            && FirstSeen(p + [whole] + q) == FirstSeen(p + [piece] + [tail] + q)
            && Amounts(OfTool(p + [whole] + q, i)) == Amounts(OfTool(p + [piece] + [tail] + q, i))
  {
    var whole, tail := piece.(arguments := piece.arguments + rest), ToolDelta(piece.index, "", "", rest);
    ToolSnoc(p, whole, i);
    ToolSnoc(p, piece, i);
    ToolSnoc(p + [piece], tail, i);
    FirstSeenConcat(p + [whole], p + [piece] + [tail], q);
    OfToolConcat(p + [whole], q, i);
    OfToolConcat(p + [piece] + [tail], q, i);
    var sub := OfTool(p, i);
    PartsSnoc(sub, whole);
    PartsSnoc(sub, piece);
    PartsSnoc(sub + [piece], tail);
    Assoc(ArgumentsOf(sub), piece.arguments, rest);
    AmountsConcat(OfTool(p + [whole], i), OfTool(p + [piece] + [tail], i), OfTool(q, i));
  }

  /** `ds` is `x` and `y` in one, where the first delta of `y` may go on with the arguments of the last of `x`. */
  predicate IsToolCut(ds: seq<ToolDelta>, x: seq<ToolDelta>, y: seq<ToolDelta>) {
    || ds == x + y
    || (&& x != [] && y != []
        && var piece := x[|x| - 1];
        && y[0] == ToolDelta(piece.index, "", "", y[0].arguments)
        && ds == (x[..|x| - 1] + [piece.(arguments := piece.arguments + y[0].arguments)]) + y[1..])
  }

  lemma CutToolsAmountAlike(p: seq<ToolDelta>, ds: seq<ToolDelta>, x: seq<ToolDelta>, y: seq<ToolDelta>, q: seq<ToolDelta>)
    requires IsToolCut(ds, x, y)
    ensures SameTools((p + ds) + q, ((p + x) + y) + q)
  {
    if ds == x + y {
      Assoc(p, x, y);
    } else {
      var u, piece, rest, v := p + x[..|x| - 1], x[|x| - 1], y[0].arguments, y[1..] + q;
      var whole := piece.(arguments := piece.arguments + rest);
      assert (p + ds) + q == u + [whole] + v;
      assert ((p + x) + y) + q == u + [piece] + [y[0]] + v by {
        ConsTail(y);
        LastOf(p, x);
        assert x == x[..|x| - 1] + [piece];
      }
      forall i ensures Amounts(OfTool(u + [whole] + v, i)) == Amounts(OfTool(u + [piece] + [y[0]] + v, i)) {
        CutAmounts(u, piece, rest, v, i);
      }
      CutAmounts(u, piece, rest, v, 0);
    }
  }

  /** `whole` cut into `first` and `second`: text, tool deltas and the arguments of one tool delta may be cut anywhere,
      and the finish reason stays with one of them. */
  predicate IsCut(whole: ChunkChoice, first: ChunkChoice, second: ChunkChoice) {
    && whole.content == first.content + second.content
    && IsToolCut(whole.toolCalls, first.toolCalls, second.toolCalls)
    && (first.finishReason == "" || second.finishReason == "") && whole.finishReason == first.finishReason + second.finishReason
  }

  lemma {:induction false} TextConcat(x: seq<ChunkChoice>, y: seq<ChunkChoice>)
    ensures TextOf(x + y) == TextOf(x) + TextOf(y)
  {
    if y == [] {
      assert x + y == x && TextOf(x) + "" == TextOf(x);
    } else {
      var y', c := y[..|y| - 1], y[|y| - 1];
      TextConcat(x, y');
      ChoiceSnoc(x + y', c);
      LastOf(x, y);
      Assoc(TextOf(x), TextOf(y'), c.content);
    }
  }

  lemma CutText(p: seq<ChunkChoice>, whole: ChunkChoice, first: ChunkChoice, second: ChunkChoice, q: seq<ChunkChoice>)
    requires IsCut(whole, first, second)
    ensures TextOf((p + [whole]) + q) == TextOf(((p + [first]) + [second]) + q)
  {
    ChoiceSnoc(p, whole);
    ChoiceSnoc(p, first);
    ChoiceSnoc(p + [first], second);
    Assoc(TextOf(p), first.content, second.content);
    TextConcat(p + [whole], q);
    TextConcat((p + [first]) + [second], q);
  }

  lemma CutFinishes(p: seq<ChunkChoice>, whole: ChunkChoice, first: ChunkChoice, second: ChunkChoice, q: seq<ChunkChoice>)
    requires IsCut(whole, first, second)
    ensures Finishes((p + [whole]) + q) == Finishes(((p + [first]) + [second]) + q)
  {
    ChoicePiecesSnoc(p, whole);
    ChoicePiecesSnoc(p, first);
    ChoicePiecesSnoc(p + [first], second);
    GivenOnce(Finishes(p), first.finishReason, second.finishReason);
    ChoicePiecesConcat(p + [whole], q);
    ChoicePiecesConcat((p + [first]) + [second], q);
  }

  lemma GivenOnce(before: seq<string>, s: string, t: string)
    requires s == "" || t == ""
    ensures before + Given(s + t) == (before + Given(s)) + Given(t)
  {
    assert s + "" == s && "" + t == t;
  }

  lemma CutDeltas(p: seq<ChunkChoice>, whole: ChunkChoice, first: ChunkChoice, second: ChunkChoice, q: seq<ChunkChoice>)
    ensures Deltas((p + [whole]) + q) == (Deltas(p) + whole.toolCalls) + Deltas(q)
    ensures Deltas(((p + [first]) + [second]) + q) == ((Deltas(p) + first.toolCalls) + second.toolCalls) + Deltas(q)
  {
    ChoicePiecesSnoc(p, whole);
    ChoicePiecesConcat(p + [whole], q);
    ChoicePiecesSnoc(p, first);
    ChoicePiecesSnoc(p + [first], second);
    ChoicePiecesConcat((p + [first]) + [second], q);
  }

  /** Cutting a choice in two changes nothing, in any stream and however packed into chunks: neither between its parts,
      nor inside its text, nor inside the arguments of one of its tool deltas. */
  lemma CutsAreInvisible(x: seq<Chunk>, y: seq<Chunk>, p: seq<ChunkChoice>, whole: ChunkChoice, first: ChunkChoice,
                         second: ChunkChoice, q: seq<ChunkChoice>, valid: string -> bool)
    requires SameEnvelope(x, y) && IsCut(whole, first, second)
    requires Choices(x) == (p + [whole]) + q && Choices(y) == ((p + [first]) + [second]) + q
    ensures Reassembled(x, valid) == Reassembled(y, valid)
  {
    CutText(p, whole, first, second, q);
    CutFinishes(p, whole, first, second, q);
    CutDeltas(p, whole, first, second, q);
    CutToolsAmountAlike(Deltas(p), whole.toolCalls, first.toolCalls, second.toolCalls, Deltas(q));
    EqualAmountsReassembleAlike(x, y, valid);
  }

  // ----- agreement with the single reply -----

  /** `chunks` is a legal chunking of `reply`: one choice, its text delivered in pieces, its finish reason, model and usage
      given last, and each tool call's id, name and arguments delivered under the index `order` gives it. */
  predicate IsChunking(chunks: seq<Chunk>, reply: ChatReply, order: seq<int>) {
    && |reply.choices| == 1
    && var ch, cs, ds := reply.choices[0], Choices(chunks), AllDeltas(chunks);
    && ch.message.role != "tool"
    && Concat(TextPieces(cs)) == Concat(Texts(MapContent(ch.message.content)))
    && LastGiven(Finishes(cs)) == ch.finishReason
    && LastGiven(Models(chunks)) == reply.model && LastReported(Usages(chunks)) == reply.usage.ToNeutral()
    && FirstSeen(ds) == order && |order| == |ch.message.toolCalls|
    && forall k :: 0 <= k < |order| ==>
         var tc := ch.message.toolCalls[k];
         Amounts(OfTool(ds, order[k])) == (tc.id, tc.name, tc.arguments)
  }

  lemma {:induction false} CallBlocksCarryCalls(blocks: seq<ContentBlock>, cs: seq<ToolCall>)
    ensures Texts(blocks + CallBlocks(cs)) == Texts(blocks)
    ensures Calls(blocks + CallBlocks(cs)) == Calls(blocks) + cs
    decreases |cs|
  {
    if cs == [] {
      assert blocks + CallBlocks(cs) == blocks && Calls(blocks) + cs == Calls(blocks);
    } else {
      var c := CallBlock(cs[0]);
      CallBlocksCarryCalls(blocks + [c], cs[1..]);
      TextsAndCallsSnoc(blocks, c);
      Assoc(blocks, [c], CallBlocks(cs[1..]));
      Assoc(Calls(blocks), [cs[0]], cs[1..]);
      ConsTail(cs);
    }
  }

  lemma {:induction false} PartsCarryNoCalls(parts: seq<ContentPart>)
    ensures Calls(MapParts(parts)) == []
  {
    if parts != [] {
      PartsCarryNoCalls(parts[1..]);
    }
  }

  lemma ContentCarriesNoCalls(content: ChatContent)
    ensures Calls(MapContent(content)) == []
  {
    if content.Parts? { PartsCarryNoCalls(content.parts); }
  }

  lemma ChunkedPieces(chunks: seq<Chunk>, reply: ChatReply, order: seq<int>)
    requires IsChunking(chunks, reply, order)
    ensures var ch, cs := reply.choices[0], Choices(chunks);
            && TextOf(cs) == Concat(Texts(MapContent(ch.message.content))) && FinishOf(cs) == ch.finishReason
            && ModelOf(chunks) == reply.model && UsageOf(chunks) == reply.usage.ToNeutral()
  {
    PiecesJoinToText(Choices(chunks));
    LastFinishCounts(Choices(chunks));
    LastModelCounts(chunks);
    LastUsageCounts(chunks);
  }

  lemma ChunkedCalls(chunks: seq<Chunk>, reply: ChatReply, order: seq<int>, valid: string -> bool)
    requires IsChunking(chunks, reply, order)
    ensures CallsOf(AllDeltas(chunks), order, valid) == MapCalls(reply.choices[0].message.toolCalls, valid)
  {
    var tcs := reply.choices[0].message.toolCalls;
    forall k | 0 <= k < |order|
      ensures CallOf(AllDeltas(chunks), order[k], valid) == ToolCall(tcs[k].id, tcs[k].name, SafeRawJSON(tcs[k].arguments, valid))
    {
      assert Amounts(OfTool(AllDeltas(chunks), order[k])) == (tcs[k].id, tcs[k].name, tcs[k].arguments);
    }
  }

  /** Content that the stream's one text block can express: nothing, or one text that is not empty. */
  predicate IsOneText(content: ChatContent) {
    match content
    case Missing => true
    case Null => false
    case Str(s) => s != ""
    case Parts(parts) => parts == [] || (|parts| == 1 && MapPart(parts[0]).kind == Text && parts[0].text != "")
    case Other => false
  }

  lemma OneTextIff(content: ChatContent)
    ensures MapContent(content) == TextBlocks(Concat(Texts(MapContent(content)))) <==> IsOneText(content)
  {
    var blocks := MapContent(content);
    if |blocks| == 1 {
      assert blocks == [blocks[0]] && blocks[1..] == [];
      assert blocks[0].text + "" == blocks[0].text;
    }
    if content.Parts? { MapPartsShape(content.parts); }
  }

  lemma MapPartsShape(parts: seq<ContentPart>)
    ensures |MapParts(parts)| == |parts|
    ensures |parts| >= 1 ==> MapParts(parts)[0] == MapPart(parts[0])
  {
  }

  /** The stream has the reply's final text, tool calls, stop reason, usage and model. The output message is
      also the same exactly when the reply's content is nothing or one text that is not empty. */
  lemma StreamRefinesReply(chunks: seq<Chunk>, reply: ChatReply, order: seq<int>, valid: string -> bool)
    requires IsChunking(chunks, reply, order)
    ensures var (streamed, model) := Reassembled(chunks, valid);
            var (single, model') := ParseChatReply(reply, valid).value;
            && streamed.finalText == single.finalText && streamed.toolCalls == single.toolCalls
            && streamed.stopReason == single.stopReason && streamed.usage == single.usage && model == model'
            && (streamed.output == single.output <==> IsOneText(reply.choices[0].message.content))
  {
    var msg := reply.choices[0].message;
    var text, calls := TextOf(Choices(chunks)), MapCalls(msg.toolCalls, valid);
    ChunkedPieces(chunks, reply, order);
    ChunkedCalls(chunks, reply, order, valid);
    CallBlocksCarryCalls(TextBlocks(text), calls);
    CallBlocksCarryCalls(MapContent(msg.content), calls);
    ContentCarriesNoCalls(msg.content);
    assert [] + calls == calls;
    TextBlocksJoin(text);
    OneTextIff(msg.content);
    AppendIsInjective(TextBlocks(text), MapContent(msg.content), CallBlocks(calls));
  }

  /** The everyday case in which they differ: content null beside tool calls.  The single form has an empty text block
      before the calls, the stream has the calls alone. */
  lemma NullContentAddsABlock(chunks: seq<Chunk>, reply: ChatReply, order: seq<int>, valid: string -> bool)
    requires IsChunking(chunks, reply, order) && reply.choices[0].message.content == Null
    ensures var streamed, single := Reassembled(chunks, valid).0, ParseChatReply(reply, valid).value.0;
            |streamed.output| == |single.output| == 1
            && single.output[0].content == [Plain(Text, "")] + streamed.output[0].content
  {
    var calls := MapCalls(reply.choices[0].message.toolCalls, valid);
    ChunkedPieces(chunks, reply, order);
    ChunkedCalls(chunks, reply, order, valid);
    var none: seq<ContentBlock> := [];
    assert [Plain(Text, "")][1..] == none && Texts([Plain(Text, "")]) == [""] && [""][1..] == [];
    assert TextOf(Choices(chunks)) == "";
    assert [] + CallBlocks(calls) == CallBlocks(calls);
  }

  lemma TextBlocksJoin(text: string)
    ensures Concat(Texts(TextBlocks(text))) == text && Calls(TextBlocks(text)) == []
  {
    var none: seq<ContentBlock> := [];
    if text != "" {
      assert TextBlocks(text)[1..] == none;
      assert text + "" == text;
    }
  }

  lemma AppendIsInjective<T>(a: seq<T>, b: seq<T>, c: seq<T>)
    ensures a + c == b + c <==> a == b
  {
    if a + c == b + c {
      assert a == (a + c)[..|a|] && b == (b + c)[..|b|];
    }
  }

  /** From bytes to meaning: printing events whose payloads decode to a legal chunking loses nothing. */
  lemma BodyRefinesReply(evs: seq<Sse.SSEEvent>, decode: string -> Option<Chunk>, reply: ChatReply, order: seq<int>,
                         valid: string -> bool)
    requires forall e :: e in evs ==> Sse.IsPrintable(e)
    requires IsChunking(Sse.Decoded(evs, decode), reply, order)
    ensures var (streamed, model) := Reassembled(Sse.Decoded(Sse.Parsed(Sse.Render(evs)), decode), valid);
            var (single, model') := ParseChatReply(reply, valid).value;
            && streamed.finalText == single.finalText && streamed.toolCalls == single.toolCalls
            && streamed.stopReason == single.stopReason && streamed.usage == single.usage && model == model'
    ensures Sse.IsSSE(Sse.Render(evs)) <==> evs != []
  {
    Sse.ParseUndoesRender(evs);
    Sse.RenderedIsSSEIff(evs);
    StreamRefinesReply(Sse.Decoded(evs, decode), reply, order, valid);
  }

  // ----- every reply has a legal chunking -----

  /** First deltas of all tools, then all arguments: the most interleaved order there is. */
  function Heads(tcs: seq<ChatToolCall>): seq<ToolDelta> {
    if tcs == [] then []
    else Heads(tcs[..|tcs| - 1]) + [ToolDelta(|tcs| - 1, tcs[|tcs| - 1].id, tcs[|tcs| - 1].name, "")]
  }

  function Tails(tcs: seq<ChatToolCall>): seq<ToolDelta> {
    if tcs == [] then [] else Tails(tcs[..|tcs| - 1]) + [ToolDelta(|tcs| - 1, "", "", tcs[|tcs| - 1].arguments)]
  }

  function Streamed(reply: ChatReply): seq<Chunk>
    requires |reply.choices| == 1
  {
    var ch := reply.choices[0];
    var text := Concat(Texts(MapContent(ch.message.content)));
    [Chunk(reply.model, [ChunkChoice("", Heads(ch.message.toolCalls), "")], None),
     Chunk("", [ChunkChoice(text, Tails(ch.message.toolCalls), ch.finishReason)], Some(reply.usage))]
  }

  lemma {:induction false} HeadsInOrder(tcs: seq<ChatToolCall>)
    ensures FirstSeen(Heads(tcs)) == UpTo(|tcs|)
  {
    if tcs != [] {
      var p, n := tcs[..|tcs| - 1], |tcs| - 1;
      HeadsInOrder(p);
      assert n !in UpTo(n);
      ToolSnoc(Heads(p), ToolDelta(n, tcs[n].id, tcs[n].name, ""), n);
    }
  }

  lemma {:induction false} HeadsOfTools(tcs: seq<ChatToolCall>, i: int)
    ensures OfTool(Heads(tcs), i) == if 0 <= i < |tcs| then [ToolDelta(i, tcs[i].id, tcs[i].name, "")] else []
  {
    if tcs != [] {
      var p, n := tcs[..|tcs| - 1], |tcs| - 1;
      HeadsOfTools(p, i);
      ToolSnoc(Heads(p), ToolDelta(n, tcs[n].id, tcs[n].name, ""), i);
    }
  }

  lemma {:induction false} TailsOfTools(tcs: seq<ChatToolCall>, i: int)
    ensures OfTool(Tails(tcs), i) == if 0 <= i < |tcs| then [ToolDelta(i, "", "", tcs[i].arguments)] else []
  {
    if tcs != [] {
      var p, n := tcs[..|tcs| - 1], |tcs| - 1;
      TailsOfTools(p, i);
      ToolSnoc(Tails(p), ToolDelta(n, "", "", tcs[n].arguments), i);
    }
  }

  lemma {:induction false} TailsAreKnown(tcs: seq<ChatToolCall>, seen: seq<int>)
    requires forall i :: 0 <= i < |tcs| ==> i in seen
    ensures AreKnown(Tails(tcs), seen)
  {
    if tcs != [] {
      TailsAreKnown(tcs[..|tcs| - 1], seen);
    }
  }

  lemma TwoChunks(c1: Chunk, c2: Chunk)
    ensures Choices([c1, c2]) == c1.choices + c2.choices
    ensures ModelOf([c1, c2]) == if c2.model != "" then c2.model else c1.model
    ensures UsageOf([c1, c2]) == if c2.usage.Some? then c2.usage.value.ToNeutral() else if c1.usage.Some? then c1.usage.value.ToNeutral() else None
  {
    ChoicesSnoc([], c1);
    ChoicesSnoc([c1], c2);
    assert [] + [c1] == [c1] && [c1] + [c2] == [c1, c2] && [] + c1.choices == c1.choices;
  }

  lemma TwoChoices(c1: ChunkChoice, c2: ChunkChoice)
    ensures TextOf([c1, c2]) == c1.content + c2.content
    ensures FinishOf([c1, c2]) == if c2.finishReason != "" then c2.finishReason else c1.finishReason
    ensures Deltas([c1, c2]) == c1.toolCalls + c2.toolCalls
  {
    ChoiceSnoc([], c1);
    ChoiceSnoc([c1], c2);
    assert [] + [c1] == [c1] && [c1] + [c2] == [c1, c2];
    assert "" + c1.content == c1.content && [] + c1.toolCalls == c1.toolCalls;
  }

  lemma StreamedPieces(reply: ChatReply)
    requires |reply.choices| == 1
    ensures var ch, chunks := reply.choices[0], Streamed(reply);
            && AllDeltas(chunks) == Heads(ch.message.toolCalls) + Tails(ch.message.toolCalls)
            && TextOf(Choices(chunks)) == Concat(Texts(MapContent(ch.message.content)))
            && FinishOf(Choices(chunks)) == ch.finishReason
            && ModelOf(chunks) == reply.model && UsageOf(chunks) == reply.usage.ToNeutral()
  {
    var chunks := Streamed(reply);
    var c1, c2 := chunks[0].choices[0], chunks[1].choices[0];
    TwoChunks(chunks[0], chunks[1]);
    TwoChoices(c1, c2);
    assert [c1] + [c2] == [c1, c2] && chunks == [chunks[0], chunks[1]];
    assert "" + c2.content == c2.content;
  }

  /** The same, in terms of what the stream gives last. */
  lemma StreamedEnvelope(reply: ChatReply)
    requires |reply.choices| == 1
    ensures var ch, chunks := reply.choices[0], Streamed(reply);
            && Concat(TextPieces(Choices(chunks))) == Concat(Texts(MapContent(ch.message.content)))
            && LastGiven(Finishes(Choices(chunks))) == ch.finishReason
            && LastGiven(Models(chunks)) == reply.model && LastReported(Usages(chunks)) == reply.usage.ToNeutral()
  {
    var chunks := Streamed(reply);
    StreamedPieces(reply);
    PiecesJoinToText(Choices(chunks));
    LastFinishCounts(Choices(chunks));
    LastModelCounts(chunks);
    LastUsageCounts(chunks);
  }

  lemma StreamedOrder(tcs: seq<ChatToolCall>)
    ensures FirstSeen(Heads(tcs) + Tails(tcs)) == UpTo(|tcs|)
  {
    HeadsInOrder(tcs);
    forall i | 0 <= i < |tcs| ensures i in UpTo(|tcs|) {
      assert UpTo(|tcs|)[i] == i;
    }
    TailsAreKnown(tcs, UpTo(|tcs|));
    NothingNewIff(Heads(tcs), Tails(tcs));
  }

  lemma StreamedTool(tcs: seq<ChatToolCall>, k: nat)
    requires k < |tcs|
    ensures Amounts(OfTool(Heads(tcs) + Tails(tcs), k)) == (tcs[k].id, tcs[k].name, tcs[k].arguments)
  {
    HeadsOfTools(tcs, k);
    TailsOfTools(tcs, k);
    OfToolConcat(Heads(tcs), Tails(tcs), k);
    var h, t := ToolDelta(k, tcs[k].id, tcs[k].name, ""), ToolDelta(k, "", "", tcs[k].arguments);
    PartsSnoc([], h);
    PartsSnoc([h], t);
    assert [] + [h] == [h] && "" + "" == "" && "" + t.arguments == t.arguments;
  }

  /** Every single-choice reply of an assistant has a stream. */
  lemma StreamingIsLegal(reply: ChatReply)
    requires |reply.choices| == 1 && reply.choices[0].message.role != "tool"
    ensures IsChunking(Streamed(reply), reply, UpTo(|reply.choices[0].message.toolCalls|))
  {
    hide Streamed, Heads, Tails, OfTool, FirstSeen, TextPieces, Finishes, Models, Usages;
    var tcs := reply.choices[0].message.toolCalls;
    StreamedPieces(reply);
    StreamedEnvelope(reply);
    StreamedOrder(tcs);
    forall k | 0 <= k < |tcs| ensures Amounts(OfTool(Heads(tcs) + Tails(tcs), k)) == (tcs[k].id, tcs[k].name, tcs[k].arguments) {
      StreamedTool(tcs, k);
    }
  }
}
