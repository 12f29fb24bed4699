/** Turns of a session and the hook-first flow of one turn (frontend/src/viewmodel/detail.ts).

    `GroupIntoTurns` and `BuildTurnFlow` scan the events in time order.  The grouping is characterised by what a
    turn is, and there is only one such grouping; the flow's references are characterised by counting. */
module TurnFlow {
  import opened Options
  import opened Sequences
  import opened Sorting

  /** `startedAt` is a totally ordered key; an empty `toolCallId` means there is none. */
  datatype Event = Event(id: string, kind: string, startedAt: int, hookEvent: string, toolCallId: string, isCompletion: bool)

  predicate IsHook(e: Event) { e.kind == "hook_event" }
  predicate IsPrompt(e: Event) { IsHook(e) && e.hookEvent == "UserPromptSubmit" }
  predicate IsTarget(e: Event) { e.kind == "http_exchange" && e.isCompletion }

  // ----- the stable sort by time -----

  predicate NotAfter(a: Event, b: Event) {
    a.startedAt <= b.startedAt
  }

  predicate IsSorted(es: seq<Event>) {
    IsSortedBy(es, NotAfter)
  }

  function SortByTime(es: seq<Event>): (r: seq<Event>)
    ensures multiset(r) == multiset(es)
  {
    Sort(es, NotAfter)
  }

  lemma SortSortsByTime(es: seq<Event>)
    ensures IsSorted(SortByTime(es))
  {
    SortSorts(es, NotAfter);
  }

  function AtTime(es: seq<Event>, t: int): seq<Event> {
    if es == [] then [] else if es[0].startedAt == t then [es[0]] + AtTime(es[1..], t) else AtTime(es[1..], t)
  }

  lemma {:induction false} InsertIsStable(e: Event, es: seq<Event>, t: int)
    ensures AtTime(Insert(e, es, NotAfter), t) == AtTime([e] + es, t)
  {
    assert ([e] + es)[1..] == es;
    if es != [] && e.startedAt > es[0].startedAt {
      InsertIsStable(e, es[1..], t);
      assert ([e] + es[1..])[1..] == es[1..];
      assert Insert(e, es, NotAfter)[1..] == Insert(e, es[1..], NotAfter);
    }
  }

  /** Events of one time keep their order. */
  lemma {:induction false} SortIsStable(es: seq<Event>, t: int)
    ensures AtTime(SortByTime(es), t) == AtTime(es, t)
  {
    if es != [] {
      SortIsStable(es[1..], t);
      InsertIsStable(es[0], SortByTime(es[1..]), t);
      assert ([es[0]] + SortByTime(es[1..]))[1..] == SortByTime(es[1..]);
    }
  }

  // ----- turns -----

  datatype Turn = Turn(key: string, index: nat, events: seq<Event>, httpCount: nat, hookCount: nat, startedAt: int)

  function HookCount(es: seq<Event>): (n: nat)
    ensures n <= |es|
  {
    if es == [] then 0 else HookCount(es[..|es| - 1]) + if IsHook(es[|es| - 1]) then 1 else 0
  }

  /** A non-empty run of events with no prompt but perhaps at its head, described by its head and its counts. */
  ghost predicate IsTurn(t: Turn) {
    && t.events != [] && t.key == "t-" + t.events[0].id && t.startedAt == t.events[0].startedAt
    && (forall i :: 1 <= i < |t.events| ==> !IsPrompt(t.events[i]))
    && t.hookCount == HookCount(t.events) && t.httpCount + t.hookCount == |t.events|
  }

  function Flatten(turns: seq<Turn>): seq<Event> {
    if turns == [] then [] else turns[0].events + Flatten(turns[1..])
  }

  /** The turns partition the events in order, every turn but the first starts at a prompt, and the turns are
      numbered from `first`. */
  ghost predicate IsGroupingFrom(turns: seq<Turn>, asc: seq<Event>, first: nat) {
    && Flatten(turns) == asc
    && (forall k :: 0 <= k < |turns| ==> IsTurn(turns[k]) && turns[k].index == k + first)
    && (forall k :: 1 <= k < |turns| ==> IsPrompt(turns[k].events[0]))
  }

  /** Turns are numbered from 1, or from 0 when the events do not start with a prompt. */
  function FirstIndex(asc: seq<Event>): nat {
    if asc != [] && IsPrompt(asc[0]) then 1 else 0
  }

  ghost predicate IsGrouping(turns: seq<Turn>, asc: seq<Event>) {
    IsGroupingFrom(turns, asc, FirstIndex(asc))
  }

  lemma {:induction false} FlattenSnoc(turns: seq<Turn>, t: Turn)
    ensures Flatten(turns + [t]) == Flatten(turns) + t.events
  {
    if turns == [] {
      assert turns + [t] == [t] && t.events + [] == t.events;
    } else {
      assert (turns + [t])[1..] == turns[1..] + [t];
      FlattenSnoc(turns[1..], t);
      Assoc(turns[0].events, Flatten(turns[1..]), t.events);
    }
  }

  /** The loop's state after `seen`: the turns before the current one, the current one, its index. */
  ghost predicate Groups(done: seq<Turn>, cur: Option<Turn>, idx: nat, seen: seq<Event>) {
    if cur == None then done == [] && idx == 0 && seen == []
    else IsGrouping(done + [cur.value], seen) && idx == cur.value.index
  }

  method GroupIntoTurns(events: seq<Event>) returns (turns: Option<seq<Turn>>)
    ensures turns == None <==> forall i :: 0 <= i < |events| ==> !IsPrompt(events[i])
    ensures turns.Some? ==> IsGrouping(turns.value, SortByTime(events))
  {
    var hasPrompt := exists i :: 0 <= i < |events| && IsPrompt(events[i]);
    if !hasPrompt {
      return None;
    }
    var asc := SortByTime(events);
    var done: seq<Turn> := [];
    var cur: Option<Turn> := None;
    var idx := 0;
    for k := 0 to |asc|
      invariant Groups(done, cur, idx, asc[..k])
    {
      TakeSnoc([], asc, k);
      done, cur, idx := OnEvent(done, cur, idx, asc[k], asc[..k]);
    }
    TakeEnds([], asc);
    turns := Some(if cur == None then done else done + [cur.value]);
  }

  /** The loop body: a prompt starts a turn, as does the very first event; every event joins the current turn. */
  method OnEvent(done: seq<Turn>, cur: Option<Turn>, idx: nat, e: Event, ghost seen: seq<Event>)
    returns (done': seq<Turn>, cur': Option<Turn>, idx': nat)
    requires Groups(done, cur, idx, seen)
    ensures Groups(done', cur', idx', seen + [e])
  {
    hide IsGroupingFrom, HookCount;
    done', cur', idx' := done, cur, idx;
    if IsPrompt(e) {
      idx' := idx' + 1;
    }
    if IsPrompt(e) || cur == None {
      if cur.Some? {
        StartTurn(done + [cur.value], seen, e);
        done' := done + [cur.value];
      } else {
        FirstTurn(e);
      }
      cur' := Some(NewTurn(e, idx'));
    } else {
      var t := cur.value.(events := cur.value.events + [e]);
      if IsHook(e) {
        t := t.(hookCount := t.hookCount + 1);
      } else {
        t := t.(httpCount := t.httpCount + 1);
      }
      GrowTurn(done, cur.value, seen, e);
      cur' := Some(t);
    }
  }

  /** A turn just started with its first event counted. */
  function NewTurn(e: Event, idx: nat): (t: Turn)
    ensures IsTurn(t)
  {
    assert [e][..0] == [];
    Turn("t-" + e.id, idx, [e], if IsHook(e) then 0 else 1, if IsHook(e) then 1 else 0, e.startedAt)
  }

  /** A turn with one more event. */
  function Grown(t: Turn, e: Event): Turn {
    t.(events := t.events + [e], hookCount := t.hookCount + (if IsHook(e) then 1 else 0),
       httpCount := t.httpCount + (if IsHook(e) then 0 else 1))
  }

  lemma FirstTurn(e: Event)
    ensures IsGrouping([] + [NewTurn(e, if IsPrompt(e) then 1 else 0)], [] + [e])
  {
    FlattenSnoc([], NewTurn(e, if IsPrompt(e) then 1 else 0));
  }

  lemma StartTurn(turns: seq<Turn>, seen: seq<Event>, e: Event)
    requires turns != [] && IsGrouping(turns, seen) && IsPrompt(e)
    ensures IsGrouping(turns + [NewTurn(e, turns[|turns| - 1].index + 1)], seen + [e])
  {
    FlattenSnoc(turns, NewTurn(e, turns[|turns| - 1].index + 1));
    assert IsTurn(turns[0]);
    assert seen != [];
  }

  lemma GrownIsTurn(t: Turn, e: Event)
    requires IsTurn(t) && !IsPrompt(e)
    ensures IsTurn(Grown(t, e)) && Grown(t, e).events[0] == t.events[0]
  {
    assert (t.events + [e])[..|t.events|] == t.events;
  }

  lemma GrowTurn(done: seq<Turn>, t: Turn, seen: seq<Event>, e: Event)
    requires IsGrouping(done + [t], seen) && !IsPrompt(e)
    ensures IsGrouping(done + [Grown(t, e)], seen + [e])
  {
    hide HookCount, Flatten;
    var x, y := done + [t], done + [Grown(t, e)];
    FlattenSnoc(done, t);
    FlattenSnoc(done, Grown(t, e));
    Assoc(Flatten(done), t.events, [e]);
    assert x[|done|] == t && IsTurn(t);
    GrownIsTurn(t, e);
    assert seen != [] && FirstIndex(seen + [e]) == FirstIndex(seen);
    forall k | 0 <= k < |y| ensures IsTurn(y[k]) && y[k].index == k + FirstIndex(seen) {
      assert IsTurn(x[k]) && x[k].index == k + FirstIndex(seen);
    }
    forall k | 1 <= k < |y| ensures IsPrompt(y[k].events[0]) {
      assert IsPrompt(x[k].events[0]);
    }
  }

  /** There is only one grouping of the events into turns. */
  lemma GroupingIsUnique(x: seq<Turn>, y: seq<Turn>, asc: seq<Event>)
    requires IsGrouping(x, asc) && IsGrouping(y, asc)
    ensures x == y
  {
    SameTurns(x, y, asc, FirstIndex(asc));
  }

  lemma {:induction false} SameTurns(x: seq<Turn>, y: seq<Turn>, asc: seq<Event>, first: nat)
    requires IsGroupingFrom(x, asc, first) && IsGroupingFrom(y, asc, first)
    ensures x == y
    decreases |x|
  {
    if x == [] || y == [] {
      assert x != [] ==> IsTurn(x[0]);
      assert y != [] ==> IsTurn(y[0]);
    } else {
      SameFirst(x, y, asc, first);
      var rest := Flatten(x[1..]);
      assert x[0] == y[0];
      TailGrouping(x, asc, first);
      TailGrouping(y, asc, first);
      assert Flatten(y[1..]) == asc[|y[0].events|..] == asc[|x[0].events|..] == rest;
      SameTurns(x[1..], y[1..], rest, first + 1);
      ConsTail(x);
      ConsTail(y);
    }
  }

  lemma TailGrouping(x: seq<Turn>, asc: seq<Event>, first: nat)
    requires x != [] && IsGroupingFrom(x, asc, first)
    ensures IsGroupingFrom(x[1..], Flatten(x[1..]), first + 1)
    ensures asc[|x[0].events|..] == Flatten(x[1..])
    ensures |x| > 1 ==> Flatten(x[1..]) != [] && IsPrompt(Flatten(x[1..])[0])
  {
    PrefixCut(x[0].events, Flatten(x[1..]));
    if |x| > 1 {
      assert IsTurn(x[1]) && IsPrompt(x[1].events[0]);
    }
  }

  lemma FirstIsLonger(x: seq<Turn>, y: seq<Turn>, asc: seq<Event>, first: nat)
    requires x != [] && y != [] && IsGroupingFrom(x, asc, first) && IsGroupingFrom(y, asc, first)
    ensures |x[0].events| >= |y[0].events|
  {
    TailGrouping(x, asc, first);
    TailGrouping(y, asc, first);
    var n := |x[0].events|;
    assert IsTurn(x[0]) && IsTurn(y[0]);
    assert y[0].events == asc[..|y[0].events|];
    assert n < |asc| ==> asc[n..][0] == asc[n] && |x| > 1;
  }

  lemma SameFirst(x: seq<Turn>, y: seq<Turn>, asc: seq<Event>, first: nat)
    requires x != [] && y != [] && IsGroupingFrom(x, asc, first) && IsGroupingFrom(y, asc, first)
    ensures x[0] == y[0]
  {
    FirstIsLonger(x, y, asc, first);
    FirstIsLonger(y, x, asc, first);
    assert IsTurn(x[0]) && IsTurn(y[0]);
    assert x[0].events == asc[..|x[0].events|] && y[0].events == asc[..|y[0].events|];
  }

  // ----- the flow of one turn -----

  datatype HttpRef = HttpRef(id: string, index: nat)
  datatype FlowNode = FlowNode(event: Event, httpRef: Option<HttpRef>)

  /** The completions among the events. */
  function Targets(es: seq<Event>): seq<Event> {
    if es == [] then []
    else if IsTarget(es[|es| - 1]) then Targets(es[..|es| - 1]) + [es[|es| - 1]] else Targets(es[..|es| - 1])
  }

  /** How many of the events are at or before `t`. */
  function AtOrBefore(es: seq<Event>, t: int): (n: nat)
    ensures n <= |es|
  {
    if es == [] then 0 else AtOrBefore(es[..|es| - 1], t) + if es[|es| - 1].startedAt <= t then 1 else 0
  }

  /** How many of the events are strictly before `t`. */
  function Before(es: seq<Event>, t: int): nat {
    AtOrBefore(es, t - 1)
  }

  /** The ordinal a completion's id stands for: its last position, counted from 1. */
  function OrdinalOf(completions: seq<Event>, id: string): (n: nat)
    ensures n <= |completions| && (n > 0 <==> exists k :: 0 <= k < |completions| && completions[k].id == id)
  {
    if completions == [] then 0
    else if completions[|completions| - 1].id == id then |completions|
    else
      var p := completions[..|completions| - 1];
      assert forall k :: 0 <= k < |p| ==> completions[k] == p[k];
      OrdinalOf(p, id)
  }

  function RefTo(c: Event, completions: seq<Event>): HttpRef {
    HttpRef(c.id, OrdinalOf(completions, c.id))
  }

  /** A tool hook refers to the last completion at or before it; a prompt to the first one at or after it.  Both
      positions are given by counting. */
  function RefOf(e: Event, completions: seq<Event>): Option<HttpRef> {
    if e.toolCallId != "" then
      var n := AtOrBefore(completions, e.startedAt);
      if n == 0 then None else Some(RefTo(completions[n - 1], completions))
    else if e.hookEvent == "UserPromptSubmit" then
      var n := Before(completions, e.startedAt);
      if n < |completions| then Some(RefTo(completions[n], completions)) else None
    else None
  }

  function FlowOf(es: seq<Event>, completions: seq<Event>): seq<FlowNode> {
    if es == [] then []
    else
      var e, rest := es[|es| - 1], FlowOf(es[..|es| - 1], completions);
      if IsHook(e) then rest + [FlowNode(e, RefOf(e, completions))] else rest
  }

  /** The completions of a turn in time order. */
  function Requests(events: seq<Event>): seq<Event> {
    Targets(SortByTime(events))
  }

  /** The nodes of a turn. */
  function Flow(events: seq<Event>): seq<FlowNode> {
    FlowOf(SortByTime(events), Requests(events))
  }

  /** In time order the count is a position: everything before it is at or before `t`, nothing after. */
  lemma {:induction false} CountIsPosition(es: seq<Event>, t: int, k: nat)
    requires IsSorted(es) && k < |es|
    ensures es[k].startedAt <= t <==> k < AtOrBefore(es, t)
  {
    var p, last := es[..|es| - 1], |es| - 1;
    if k < last {
      CountIsPosition(p, t, k);
    } else if last > 0 {
      CountIsPosition(p, t, last - 1);
      assert p[last - 1].startedAt <= es[last].startedAt;
      AllBefore(p, t);
    }
  }

  lemma {:induction false} AllBefore(es: seq<Event>, t: int)
    ensures (forall k :: 0 <= k < |es| ==> es[k].startedAt <= t) <==> AtOrBefore(es, t) == |es|
  {
    if es != [] {
      AllBefore(es[..|es| - 1], t);
      assert forall k :: 0 <= k < |es| - 1 ==> es[..|es| - 1][k] == es[k];
    }
  }

  lemma {:induction false} TargetsAreSorted(es: seq<Event>)
    requires IsSorted(es)
    ensures IsSorted(Targets(es)) && forall c :: c in Targets(es) ==> c in es
  {
    if es != [] {
      TargetsAreSorted(es[..|es| - 1]);
      var p := Targets(es[..|es| - 1]);
      forall i | 0 <= i < |p| ensures p[i].startedAt <= es[|es| - 1].startedAt {
        assert p[i] in p;
      }
    }
  }

  method CollectTargets(asc: seq<Event>) returns (completions: seq<Event>)
    ensures completions == Targets(asc)
  {
    completions := [];
    for k := 0 to |asc|
      invariant completions == Targets(asc[..k])
    {
      assert asc[..k + 1][..k] == asc[..k];
      if IsTarget(asc[k]) {
        completions := completions + [asc[k]];
      }
    }
    assert asc[..|asc|] == asc;
  }

  /** Each completion's ordinal: the map filled by the numbering loop. */
  method NumberCompletions(completions: seq<Event>) returns (ordinal: map<string, nat>)
    ensures forall id :: id in ordinal <==> OrdinalOf(completions, id) > 0
    ensures forall id :: id in ordinal ==> ordinal[id] == OrdinalOf(completions, id)
  {
    ordinal := map[];
    var n := 0;
    for k := 0 to |completions|
      invariant n == k
      invariant forall id :: id in ordinal <==> OrdinalOf(completions[..k], id) > 0
      invariant forall id :: id in ordinal ==> ordinal[id] == OrdinalOf(completions[..k], id)
    {
      assert completions[..k + 1][..k] == completions[..k];
      n := n + 1;
      ordinal := ordinal[completions[k].id := n];
    }
    assert completions[..|completions|] == completions;
  }

  /** The scan for a tool hook's producer: the last completion before the first later one. */
  method FindProducer(completions: seq<Event>, t: int) returns (producer: Option<Event>)
    requires IsSorted(completions)
    ensures var n := AtOrBefore(completions, t);
            producer == if n == 0 then None else Some(completions[n - 1])
  {
    producer := None;
    var k := 0;
    while k < |completions|
      invariant 0 <= k <= |completions| && k <= AtOrBefore(completions, t)
      invariant producer == if k == 0 then None else Some(completions[k - 1])
    {
      CountIsPosition(completions, t, k);
      if completions[k].startedAt <= t {
        producer := Some(completions[k]);
      } else {
        break;
      }
      k := k + 1;
    }
  }

  /** The search for the request a prompt triggered: the first completion at or after it. */
  method FindTriggered(completions: seq<Event>, t: int) returns (triggered: Option<Event>)
    requires IsSorted(completions)
    ensures var n := Before(completions, t);
            triggered == if n < |completions| then Some(completions[n]) else None
  {
    for k := 0 to |completions|
      invariant k <= Before(completions, t)
    {
      CountIsPosition(completions, t - 1, k);
      if completions[k].startedAt >= t {
        return Some(completions[k]);
      }
    }
    triggered := None;
  }

  lemma FlowSnoc(asc: seq<Event>, k: nat, cs: seq<Event>)
    requires k < |asc|
    ensures FlowOf(asc[..k + 1], cs) == FlowOf(asc[..k], cs) + if IsHook(asc[k]) then [FlowNode(asc[k], RefOf(asc[k], cs))] else []
  {
    assert asc[..k + 1][..k] == asc[..k];
  }

  lemma MemberHasOrdinal(completions: seq<Event>, k: nat)
    requires k < |completions|
    ensures OrdinalOf(completions, completions[k].id) > 0
  {
  }

  /** The reference of one hook: a scan or a search over the completions, then their numbering. */
  method FindReference(e: Event, completions: seq<Event>, ordinal: map<string, nat>) returns (httpRef: Option<HttpRef>)
    requires IsSorted(completions)
    requires forall id :: id in ordinal <==> OrdinalOf(completions, id) > 0
    requires forall id :: id in ordinal ==> ordinal[id] == OrdinalOf(completions, id)
    ensures httpRef == RefOf(e, completions)
  {
    hide OrdinalOf, AtOrBefore, IsSorted;
    httpRef := None;
    if e.toolCallId != "" {
      var producer := FindProducer(completions, e.startedAt);
      if producer.Some? {
        MemberHasOrdinal(completions, AtOrBefore(completions, e.startedAt) - 1);
        httpRef := Some(HttpRef(producer.value.id, ordinal[producer.value.id]));
      }
    } else if e.hookEvent == "UserPromptSubmit" {
      var trig := FindTriggered(completions, e.startedAt);
      if trig.Some? {
        MemberHasOrdinal(completions, Before(completions, e.startedAt));
        httpRef := Some(HttpRef(trig.value.id, ordinal[trig.value.id]));
      }
    }
  }

  method BuildTurnFlow(events: seq<Event>) returns (nodes: seq<FlowNode>)
    ensures nodes == Flow(events)
  {
    var asc := SortByTime(events);
    SortSortsByTime(events);
    TargetsAreSorted(asc);
    var completions := CollectTargets(asc);
    var ordinal := NumberCompletions(completions);
    nodes := [];
    for k := 0 to |asc|
      invariant nodes == FlowOf(asc[..k], completions)
    {
      var e := asc[k];
      FlowSnoc(asc, k, completions);
      if !IsHook(e) {
        continue;
      }
      var httpRef := FindReference(e, completions, ordinal);
      nodes := nodes + [FlowNode(e, httpRef)];
    }
    assert asc[..|asc|] == asc;
  }

  // ----- what the references say -----

  lemma {:induction false} AtOrBeforeGrows(es: seq<Event>, t: int, u: int)
    requires t <= u
    ensures AtOrBefore(es, t) <= AtOrBefore(es, u)
  {
    if es != [] {
      AtOrBeforeGrows(es[..|es| - 1], t, u);
    }
  }

  /** A node is a hook of the turn with its own reference. */
  lemma {:induction false} NodeAt(es: seq<Event>, cs: seq<Event>, k: nat)
    requires k < |FlowOf(es, cs)|
    ensures var n := FlowOf(es, cs)[k];
            n.event in es && IsHook(n.event) && n.httpRef == RefOf(n.event, cs)
  {
    var p := es[..|es| - 1];
    if k < |FlowOf(p, cs)| {
      NodeAt(p, cs, k);
    }
  }

  lemma {:induction false} NodesInOrder(es: seq<Event>, cs: seq<Event>, i: nat, j: nat)
    requires IsSorted(es) && i < j < |FlowOf(es, cs)|
    ensures FlowOf(es, cs)[i].event.startedAt <= FlowOf(es, cs)[j].event.startedAt
  {
    var p := es[..|es| - 1];
    if j < |FlowOf(p, cs)| {
      NodesInOrder(p, cs, i, j);
    } else {
      NodeAt(p, cs, i);
    }
  }

  predicate DistinctIds(es: seq<Event>) {
    forall i, j :: 0 <= i < j < |es| ==> es[i].id != es[j].id
  }

  lemma {:induction false} OrdinalIsPosition(cs: seq<Event>, k: nat)
    requires DistinctIds(cs) && k < |cs|
    ensures OrdinalOf(cs, cs[k].id) == k + 1
  {
    if k < |cs| - 1 {
      OrdinalIsPosition(cs[..|cs| - 1], k);
    }
  }

  lemma ToolRefIsACount(e: Event, cs: seq<Event>, n: nat)
    requires DistinctIds(cs) && e.toolCallId != "" && n == AtOrBefore(cs, e.startedAt)
    ensures RefOf(e, cs) == if n == 0 then None else Some(HttpRef(cs[n - 1].id, n))
  {
    if n > 0 { OrdinalIsPosition(cs, n - 1); }
  }

  lemma PromptRefIsACount(e: Event, cs: seq<Event>, n: nat)
    requires DistinctIds(cs) && e.toolCallId == "" && e.hookEvent == "UserPromptSubmit" && n == Before(cs, e.startedAt)
    ensures RefOf(e, cs) == if n == |cs| then None else Some(HttpRef(cs[n].id, n + 1))
  {
    if n < |cs| { OrdinalIsPosition(cs, n); }
  }

  lemma {:induction false} InsertKeepsIdsDistinct(e: Event, es: seq<Event>)
    requires DistinctIds(es) && forall x :: x in es ==> x.id != e.id
    ensures DistinctIds(Insert(e, es, NotAfter))
  {
    if es != [] && e.startedAt > es[0].startedAt {
      InsertKeepsIdsDistinct(e, es[1..]);
      var r := Insert(e, es[1..], NotAfter);
      forall i | 0 <= i < |r| ensures es[0].id != r[i].id {
        assert r[i] in multiset(r);
        assert r[i] == e || r[i] in es[1..];
      }
    }
  }

  lemma {:induction false} SortKeepsIdsDistinct(es: seq<Event>)
    requires DistinctIds(es)
    ensures DistinctIds(SortByTime(es))
  {
    if es != [] {
      SortKeepsIdsDistinct(es[1..]);
      var r := SortByTime(es[1..]);
      forall x | x in r ensures x.id != es[0].id {
        assert x in multiset(r) && x in multiset(es[1..]);
      }
      InsertKeepsIdsDistinct(es[0], r);
    }
  }

  lemma {:induction false} TargetsKeepIdsDistinct(es: seq<Event>)
    requires DistinctIds(es)
    ensures DistinctIds(Targets(es)) && forall c :: c in Targets(es) ==> c in es
  {
    if es != [] {
      TargetsKeepIdsDistinct(es[..|es| - 1]);
      var p := Targets(es[..|es| - 1]);
      forall i | 0 <= i < |p| ensures p[i].id != es[|es| - 1].id {
        assert p[i] in p;
      }
    }
  }

  /** What the lemmas below need of a turn whose events have distinct ids. */
  lemma TurnIsWellFormed(events: seq<Event>)
    requires DistinctIds(events)
    ensures IsSorted(SortByTime(events)) && IsSorted(Requests(events)) && DistinctIds(Requests(events))
  {
    SortSortsByTime(events);
    TargetsAreSorted(SortByTime(events));
    SortKeepsIdsDistinct(events);
    TargetsKeepIdsDistinct(SortByTime(events));
  }

  /** In the flow of events with distinct ids, as primary keys are, a tool hook's index is the number of completions at or
      before it, and there is none if and only if that is zero; a prompt's is one plus the number strictly before it, when
      there are more. */
  lemma IndexIsACount(events: seq<Event>, k: nat)
    requires DistinctIds(events) && k < |Flow(events)|
    ensures var node, cs := Flow(events)[k], Requests(events);
            var e, atOrBefore, before := node.event, AtOrBefore(cs, node.event.startedAt), Before(cs, node.event.startedAt);
            if e.toolCallId != "" then
              node.httpRef == if atOrBefore == 0 then None else Some(HttpRef(cs[atOrBefore - 1].id, atOrBefore))
            else if e.hookEvent == "UserPromptSubmit" then
              node.httpRef == if before == |cs| then None else Some(HttpRef(cs[before].id, before + 1))
            else node.httpRef == None
  {
    TurnIsWellFormed(events);
    NodeAt(SortByTime(events), Requests(events), k);
    var e, cs := Flow(events)[k].event, Requests(events);
    if e.toolCallId != "" {
      ToolRefIsACount(e, cs, AtOrBefore(cs, e.startedAt));
    } else if e.hookEvent == "UserPromptSubmit" {
      PromptRefIsACount(e, cs, Before(cs, e.startedAt));
    }
  }

  function RefIndex(n: FlowNode): nat {
    match n.httpRef case None => 0 case Some(r) => r.index
  }

  /** Tool hooks' references never cross: in the flow, a later tool hook refers to the same completion or a later one. */
  lemma ToolReferencesNeverCross(events: seq<Event>, i: nat, j: nat)
    requires DistinctIds(events) && i < j < |Flow(events)|
    requires Flow(events)[i].event.toolCallId != "" && Flow(events)[j].event.toolCallId != ""
    ensures RefIndex(Flow(events)[i]) <= RefIndex(Flow(events)[j])
  {
    TurnIsWellFormed(events);
    NodesInOrder(SortByTime(events), Requests(events), i, j);
    AtOrBeforeGrows(Requests(events), Flow(events)[i].event.startedAt, Flow(events)[j].event.startedAt);
    IndexIsACount(events, i);
    IndexIsACount(events, j);
  }

  /** In the flow, a tool hook's completion is the latest that is not after it; a prompt's is the earliest that is not
      before it: completion `k` of the turn is numbered accordingly. */
  lemma ReferencesAreCausal(events: seq<Event>, i: nat, k: nat)
    requires DistinctIds(events) && i < |Flow(events)| && k < |Requests(events)|
    ensures var e, ref, c := Flow(events)[i].event, Flow(events)[i].httpRef, Requests(events)[k];
            && (e.toolCallId != "" ==> (c.startedAt <= e.startedAt <==> ref.Some? && k < ref.value.index))
            && (e.toolCallId == "" && e.hookEvent == "UserPromptSubmit" ==>
                  (c.startedAt >= e.startedAt <==> ref.Some? && ref.value.index <= k + 1))
  {
    TurnIsWellFormed(events);
    CountIsPosition(Requests(events), Flow(events)[i].event.startedAt, k);
    CountIsPosition(Requests(events), Flow(events)[i].event.startedAt - 1, k);
    IndexIsACount(events, i);
  }

  // ----- which events -----

  predicate IsHookEvent(e: Event) {
    e.kind == "hook_event"
  }

  predicate IsCompletion(e: Event) {
    e.kind == "http_exchange" && e.isCompletion
  }

  function Only(es: seq<Event>, p: Event -> bool): seq<Event> {
    if es == [] then [] else (if p(es[0]) then [es[0]] else []) + Only(es[1..], p)
  }

  lemma {:induction false} OnlySnoc(es: seq<Event>, e: Event, p: Event -> bool)
    ensures Only(es + [e], p) == Only(es, p) + if p(e) then [e] else []
  {
    if es == [] {
      assert es + [e] == [e] && [e][1..] == [];
    } else {
      assert (es + [e])[0] == es[0] && (es + [e])[1..] == es[1..] + [e];
      OnlySnoc(es[1..], e, p);
      var first, last := if p(es[0]) then [es[0]] else [], if p(e) then [e] else [];
      Assoc(first, Only(es[1..], p), last);
    }
  }

  lemma {:induction false} TargetsAreCompletions(es: seq<Event>)
    ensures Targets(es) == Only(es, IsCompletion)
  {
    if es != [] {
      TargetsAreCompletions(es[..|es| - 1]);
      OnlySnoc(es[..|es| - 1], es[|es| - 1], IsCompletion);
      assert es[..|es| - 1] + [es[|es| - 1]] == es;
    }
  }

  function NodeEvents(nodes: seq<FlowNode>): seq<Event> {
    if nodes == [] then [] else NodeEvents(nodes[..|nodes| - 1]) + [nodes[|nodes| - 1].event]
  }

  lemma {:induction false} NodesAreHooks(es: seq<Event>, cs: seq<Event>)
    ensures NodeEvents(FlowOf(es, cs)) == Only(es, IsHookEvent)
  {
    if es != [] {
      var p, e := es[..|es| - 1], es[|es| - 1];
      NodesAreHooks(p, cs);
      OnlySnoc(p, e, IsHookEvent);
      assert p + [e] == es;
      var rest, node := FlowOf(p, cs), FlowNode(e, RefOf(e, cs));
      assert (rest + [node])[..|rest|] == rest;
    }
  }

  lemma {:induction false} OnlyKeeps(es: seq<Event>, p: Event -> bool, e: Event)
    ensures e in Only(es, p) <==> e in es && p(e)
  {
    if es != [] {
      OnlyKeeps(es[1..], p, e);
      ConsTail(es);
    }
  }

  /** The flow has one node per hook event and refers to completions, each kind in time order; requests that are no
      completions take no part. */
  lemma FlowIsOfHooks(events: seq<Event>)
    ensures NodeEvents(Flow(events)) == Only(SortByTime(events), IsHookEvent)
    ensures Requests(events) == Only(SortByTime(events), IsCompletion)
  {
    NodesAreHooks(SortByTime(events), Requests(events));
    TargetsAreCompletions(SortByTime(events));
  }

  /** Whatever a node refers to is the id of a completion of the turn; other hooks than tool hooks and prompts refer to none. */
  lemma ReferenceIsToACompletion(events: seq<Event>, k: nat)
    requires k < |Flow(events)| && Flow(events)[k].httpRef.Some?
    ensures exists c :: c in events && c.kind == "http_exchange" && c.isCompletion && c.id == Flow(events)[k].httpRef.value.id
    ensures Flow(events)[k].event.toolCallId != "" || Flow(events)[k].event.hookEvent == "UserPromptSubmit"
  {
    var cs, node := Requests(events), Flow(events)[k];
    NodeAt(SortByTime(events), cs, k);
    var e := node.event;
    var c := if e.toolCallId != "" then cs[AtOrBefore(cs, e.startedAt) - 1] else cs[Before(cs, e.startedAt)];
    assert c in cs && c.id == node.httpRef.value.id;
    TargetsAreCompletions(SortByTime(events));
    OnlyKeeps(SortByTime(events), IsCompletion, c);
    assert c in multiset(SortByTime(events)) && c in multiset(events);
  }

  /** The hook count of a turn is the number of its hook events; later turns begin at a prompt, a hook event of its own kind. */
  lemma {:induction false} HookCountIs(es: seq<Event>)
    ensures HookCount(es) == |Only(es, IsHookEvent)|
  {
    if es != [] {
      HookCountIs(es[..|es| - 1]);
      OnlySnoc(es[..|es| - 1], es[|es| - 1], IsHookEvent);
      assert es[..|es| - 1] + [es[|es| - 1]] == es;
    }
  }

  lemma TurnFields(turns: seq<Turn>, asc: seq<Event>, k: nat)
    requires IsGrouping(turns, asc) && k < |turns|
    ensures var t := turns[k];
            && t.events != [] && t.key == "t-" + t.events[0].id && t.startedAt == t.events[0].startedAt
            && t.hookCount == |Only(t.events, IsHookEvent)| && t.httpCount == |t.events| - t.hookCount
            && (k > 0 ==> t.events[0].kind == "hook_event" && t.events[0].hookEvent == "UserPromptSubmit")
            && (forall i :: 1 <= i < |t.events| ==> t.events[i].kind != "hook_event" || t.events[i].hookEvent != "UserPromptSubmit")
            && t.index == k + if asc[0].kind == "hook_event" && asc[0].hookEvent == "UserPromptSubmit" then 1 else 0
  {
    HookCountIs(turns[k].events);
    assert IsTurn(turns[k]) && IsTurn(turns[0]);
    GroupingStarts(turns, asc);
  }

  lemma GroupingStarts(turns: seq<Turn>, asc: seq<Event>)
    requires IsGrouping(turns, asc) && turns != []
    ensures asc != []
  {
    assert IsTurn(turns[0]);
  }
}
