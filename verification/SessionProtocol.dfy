/** Every interleaving of registering, saving, removing and restarting (internal/source/httpcap/session.go).

    Register publishes under the lock and saves after releasing it; Remove forgets and deletes under the lock.
    A restart loses the memory and the saves still pending, and rehydrates from the database. */
module SessionProtocol {
  import opened Options
  import opened Sessions

  datatype Step =
    | DoPublish(r: Record)
    | DoSave(id: string, ok: bool)       // the save of a published session, which may fail
    | DoRemove(id: string, ok: bool)     // Remove; `ok` says whether the row was deleted
    | DoInject(id: string, h: Header)
    | DoHeaders(id: string, h: Header)
    | DoRestart

  /** `pending` holds the sessions published but not yet saved, `issued` every session ever published. */
  datatype State = State(mem: Memory, saved: map<string, Record>, pending: map<string, Record>, issued: map<string, Record>)

  const INITIAL := State(EMPTY, map[], map[], map[])

  /** Ids and tokens are fresh; a save follows its publish. */
  ghost predicate Enabled(s: State, step: Step) {
    match step
    case DoPublish(r) => r.id !in s.issued && forall id :: id in s.issued ==> s.issued[id].token != r.token
    case DoSave(id, _) => id in s.pending
    case _ => true
  }

  ghost function Apply(s: State, step: Step): State {
    match step
    case DoPublish(r) => s.(mem := Publish(s.mem, r), pending := s.pending[r.id := r], issued := s.issued[r.id := r])
    case DoSave(id, ok) =>
      if id !in s.pending then s
      else s.(saved := if ok then s.saved[id := s.pending[id]] else s.saved, pending := s.pending - {id})
    case DoRemove(id, ok) =>
      s.(mem := Forget(s.mem, id), saved := if ok && id in s.mem.byID then s.saved - {id} else s.saved)
    case DoInject(id, h) => s.(mem := s.mem.(inject := s.mem.inject[id := h]))
    case DoHeaders(id, h) => s.(mem := s.mem.(headers := s.mem.headers[id := h]))
    case DoRestart => s.(mem := Rehydrate(EMPTY, s.saved), pending := map[])
  }

  ghost function After(steps: seq<Step>): State {
    if steps == [] then INITIAL else Apply(After(steps[..|steps| - 1]), steps[|steps| - 1])
  }

  ghost predicate IsRun(steps: seq<Step>) {
    steps == [] ||
    (IsRun(steps[..|steps| - 1]) && Enabled(After(steps[..|steps| - 1]), steps[|steps| - 1]))
  }

  // ----- what happened in a run -----

  ghost predicate PublishedAt(steps: seq<Step>, id: string, i: nat) {
    i < |steps| && steps[i].DoPublish? && steps[i].r.id == id
  }

  ghost predicate SavedAt(steps: seq<Step>, id: string, ok: bool, i: nat) {
    i < |steps| && steps[i] == DoSave(id, ok)
  }

  ghost predicate RemovedAt(steps: seq<Step>, id: string, i: nat) {
    i < |steps| && steps[i].DoRemove? && steps[i].id == id
  }

  ghost predicate WasPublished(steps: seq<Step>, id: string) {
    exists i :: PublishedAt(steps, id, i)
  }

  ghost predicate WasRemoved(steps: seq<Step>, id: string) {
    exists i: nat, j: nat :: i < j && PublishedAt(steps, id, i) && RemovedAt(steps, id, j)
  }

  /** The session's remove ran between its publish and its save. */
  ghost predicate WasOvertaken(steps: seq<Step>, id: string) {
    exists i: nat, j: nat, k: nat :: i < j < k && PublishedAt(steps, id, i) && RemovedAt(steps, id, j) && SavedAt(steps, id, true, k)
  }

  ghost predicate SaveFailed(steps: seq<Step>, id: string) {
    exists i :: SavedAt(steps, id, false, i)
  }

  ghost predicate DeleteFailed(steps: seq<Step>, id: string) {
    exists i: nat :: i < |steps| && steps[i] == DoRemove(id, false)
  }

  /** What happened stays true of longer runs. */
  lemma HistoryGrows(p: seq<Step>, step: Step, id: string)
    ensures var steps := p + [step];
            && (WasPublished(p, id) ==> WasPublished(steps, id))
            && (WasRemoved(p, id) ==> WasRemoved(steps, id))
            && (WasOvertaken(p, id) ==> WasOvertaken(steps, id))
            && (SaveFailed(p, id) ==> SaveFailed(steps, id))
            && (DeleteFailed(p, id) ==> DeleteFailed(steps, id))
  {
    var steps := p + [step];
    assert forall i: nat :: i < |p| ==> steps[i] == p[i];
    if WasPublished(p, id) {
      var i :| PublishedAt(p, id, i);
      assert PublishedAt(steps, id, i);
    }
    if WasRemoved(p, id) {
      var i: nat, j: nat :| i < j && PublishedAt(p, id, i) && RemovedAt(p, id, j);
      assert PublishedAt(steps, id, i) && RemovedAt(steps, id, j);
    }
    if WasOvertaken(p, id) {
      var i: nat, j: nat, k: nat :| i < j < k && PublishedAt(p, id, i) && RemovedAt(p, id, j) && SavedAt(p, id, true, k);
      assert PublishedAt(steps, id, i) && RemovedAt(steps, id, j) && SavedAt(steps, id, true, k);
    }
    if SaveFailed(p, id) {
      var i :| SavedAt(p, id, false, i);
      assert SavedAt(steps, id, false, i);
    }
  }

  /** The step just taken is part of the history. */
  lemma HistoryRecords(p: seq<Step>, step: Step, id: string)
    ensures var steps := p + [step];
            && (step.DoPublish? && step.r.id == id ==> WasPublished(steps, id))
            && (step.DoRemove? && step.id == id && WasPublished(p, id) ==> WasRemoved(steps, id))
            && (step == DoSave(id, true) && WasRemoved(p, id) ==> WasOvertaken(steps, id))
            && (step == DoSave(id, false) ==> SaveFailed(steps, id))
            && (step == DoRemove(id, false) ==> DeleteFailed(steps, id))
  {
    var steps := p + [step];
    assert forall i: nat :: i < |p| ==> steps[i] == p[i];
    assert steps[|p|] == step;
    if step.DoPublish? && step.r.id == id {
      assert PublishedAt(steps, id, |p|);
    }
    if step.DoRemove? && step.id == id && WasPublished(p, id) {
      var i :| PublishedAt(p, id, i);
      assert PublishedAt(steps, id, i) && RemovedAt(steps, id, |p|);
    }
    if step == DoSave(id, true) && WasRemoved(p, id) {
      var i: nat, j: nat :| i < j && PublishedAt(p, id, i) && RemovedAt(p, id, j);
      assert PublishedAt(steps, id, i) && RemovedAt(steps, id, j) && SavedAt(steps, id, true, |p|);
    }
    if step == DoSave(id, false) {
      assert SavedAt(steps, id, false, |p|);
    }
  }

  // ----- the invariant -----

  ghost predicate PartOf(part: map<string, Record>, all: map<string, Record>) {
    forall id :: id in part ==> id in all && part[id] == all[id]
  }

  ghost predicate RecordsAreIssued(s: State) {
    WellKeyed(s.issued) && PartOf(s.mem.byID, s.issued) && PartOf(s.saved, s.issued) && PartOf(s.pending, s.issued)
  }

  /** Where one session may be, given what happened to it. */
  ghost predicate Accounted(s: State, steps: seq<Step>, id: string) {
    && (id in s.mem.byID ==> id in s.saved || id in s.pending || SaveFailed(steps, id))
    && (id in s.saved && id !in s.mem.byID ==> WasOvertaken(steps, id) || DeleteFailed(steps, id))
    && (id in s.pending ==> WasPublished(steps, id))
    && (id in s.pending && id !in s.mem.byID ==> WasRemoved(steps, id))
  }

  lemma PartIsWellKeyed(part: map<string, Record>, all: map<string, Record>)
    requires WellKeyed(all) && PartOf(part, all)
    ensures WellKeyed(part)
  {
  }

  lemma PublishKeepsRecords(s: State, r: Record)
    requires RecordsAreIssued(s) && Enabled(s, DoPublish(r))
    ensures RecordsAreIssued(Apply(s, DoPublish(r)))
  {
    var issued := s.issued[r.id := r];
    assert WellKeyed(issued);
    assert PartOf(s.mem.byID[r.id := r], issued) && PartOf(s.pending[r.id := r], issued) && PartOf(s.saved, issued);
  }

  lemma StepKeepsRecords(s: State, step: Step)
    requires RecordsAreIssued(s) && Enabled(s, step)
    ensures RecordsAreIssued(Apply(s, step))
  {
    var s' := Apply(s, step);
    match step {
      case DoPublish(r) =>
        PublishKeepsRecords(s, r);
      case DoSave(id, ok) =>
        assert PartOf(s'.saved, s.issued) && PartOf(s'.pending, s.issued);
      case DoRestart =>
        assert s'.mem.byID == s.saved;
      case _ =>
        assert PartOf(s'.mem.byID, s.issued) && PartOf(s'.saved, s.issued);
    }
  }

  lemma RehydratedIndexesAgree(saved: map<string, Record>)
    requires WellKeyed(saved)
    ensures IndexesAgree(Rehydrate(EMPTY, saved)) && Rehydrate(EMPTY, saved).byID == saved
  {
    var m := Rehydrate(EMPTY, saved);
    assert m.byID == saved && m.byToken == TokenIndex(saved);
    forall id | id in saved ensures saved[id].token in m.byToken && m.byToken[saved[id].token] == saved[id] {
      TokenIndexed(saved, id);
    }
    forall t | t in m.byToken ensures m.byToken[t].token == t && m.byToken[t].id in saved && saved[m.byToken[t].id] == m.byToken[t] {
      var id :| id in saved && saved[id].token == t;
      TokenIndexed(saved, id);
    }
  }

  lemma StepKeepsIndexes(s: State, step: Step)
    requires RecordsAreIssued(s) && Enabled(s, step) && IndexesAgree(s.mem)
    ensures IndexesAgree(Apply(s, step).mem)
  {
    match step {
      case DoRestart =>
        PartIsWellKeyed(s.saved, s.issued);
        RehydratedIndexesAgree(s.saved);
      case DoRemove(id, ok) =>
        if id in s.mem.byID {
          var m, m' := s.mem, Forget(s.mem, id);
          assert forall t :: t in m'.byToken <==> t in m.byToken && t != m.byID[id].token;
          assert forall i :: i in m'.byID <==> i in m.byID && i != id;
        }
      case _ =>
    }
  }

  lemma StepKeepsAccounts(s: State, steps: seq<Step>, step: Step, id: string)
    requires RecordsAreIssued(s) && Enabled(s, step) && Accounted(s, steps, id)
    ensures Accounted(Apply(s, step), steps + [step], id)
  {
    HistoryGrows(steps, step, id);
    HistoryRecords(steps, step, id);
    if step.DoRestart? {
      PartIsWellKeyed(s.saved, s.issued);
      RehydratedIndexesAgree(s.saved);
    }
  }

  /** In every run: the indexes agree, every live session is saved, has its save pending or had it fail, and a saved
      session that is not live was removed between its publish and its save, or its deletion failed. */
  lemma {:induction false} EveryRunIsAccounted(steps: seq<Step>)
    requires IsRun(steps)
    ensures RecordsAreIssued(After(steps)) && IndexesAgree(After(steps).mem)
    ensures forall id :: Accounted(After(steps), steps, id)
  {
    if steps != [] {
      var p, step := steps[..|steps| - 1], steps[|steps| - 1];
      EveryRunIsAccounted(p);
      StepKeepsRecords(After(p), step);
      StepKeepsIndexes(After(p), step);
      assert steps == p + [step];
      forall id ensures Accounted(After(steps), steps, id) {
        StepKeepsAccounts(After(p), p, step, id);
      }
    }
  }

  // ----- restarts -----

  /** Two memories with agreeing indexes route every token alike exactly when they hold the same sessions. */
  lemma SameRoutesIff(m: Memory, m': Memory)
    requires IndexesAgree(m) && IndexesAgree(m')
    ensures (forall t :: Route(m, t) == Route(m', t)) <==> m.byID == m'.byID
  {
    if forall t :: Route(m, t) == Route(m', t) {
      SameRoutesSameSessions(m, m');
      SameRoutesSameSessions(m', m);
    }
  }

  lemma SameRoutesSameSessions(m: Memory, m': Memory)
    requires IndexesAgree(m) && IndexesAgree(m') && forall t :: Route(m, t) == Route(m', t)
    ensures forall id :: id in m.byID ==> id in m'.byID && m'.byID[id] == m.byID[id]
  {
    forall id | id in m.byID ensures id in m'.byID && m'.byID[id] == m.byID[id] {
      assert Route(m, m.byID[id].token) == Route(m', m.byID[id].token);
    }
  }

  /** A restart leaves every token's route unchanged exactly when the saved records are the live sessions. */
  lemma RestartKeepsRoutesIff(steps: seq<Step>)
    requires IsRun(steps)
    ensures var s := After(steps);
            (forall t :: Route(After(steps + [DoRestart]).mem, t) == Route(s.mem, t)) <==> s.saved == s.mem.byID
  {
    var s := After(steps);
    assert (steps + [DoRestart])[..|steps|] == steps;
    EveryRunIsAccounted(steps);
    PartIsWellKeyed(s.saved, s.issued);
    RehydratedIndexesAgree(s.saved);
    SameRoutesIff(Rehydrate(EMPTY, s.saved), s.mem);
  }

  /** With no save pending, no failed save or delete, and no remove that overtook its session's save, a restart
      changes no route. */
  lemma QuietRestartKeepsRoutes(steps: seq<Step>)
    requires IsRun(steps) && After(steps).pending == map[]
    requires forall id :: !WasOvertaken(steps, id) && !SaveFailed(steps, id) && !DeleteFailed(steps, id)
    ensures forall t :: Route(After(steps + [DoRestart]).mem, t) == Route(After(steps).mem, t)
  {
    var s := After(steps);
    EveryRunIsAccounted(steps);
    forall id ensures id in s.saved <==> id in s.mem.byID {
      assert Accounted(s, steps, id);
    }
    assert s.saved == s.mem.byID;
    RestartKeepsRoutesIff(steps);
  }

  /** After a restart exactly the saved key-mode sessions need their key again: no key survives. */
  lemma KeysDoNotSurviveRestart(steps: seq<Step>, id: string)
    requires IsRun(steps)
    ensures var s, m := After(steps), After(steps + [DoRestart]).mem;
            && (NeedsKeyIn(m, id) <==> id in s.saved && s.saved[id].mode == "key")
            && forall h :: !NeedsKeyIn(Apply(After(steps + [DoRestart]), DoInject(id, h)).mem, id)
  {
    var s := After(steps);
    assert (steps + [DoRestart])[..|steps|] == steps;
    EveryRunIsAccounted(steps);
    PartIsWellKeyed(s.saved, s.issued);
    RehydratedIndexesAgree(s.saved);
  }

  /** The race is real: a session removed before its save comes back with the next restart. */
  lemma RemovedSessionMayReturn(r: Record)
    ensures var steps := [DoPublish(r), DoRemove(r.id, true), DoSave(r.id, true), DoRestart];
            IsRun(steps) && Route(After(steps[..3]).mem, r.token) == None && Route(After(steps).mem, r.token) == Some(r)
  {
    var steps := [DoPublish(r), DoRemove(r.id, true), DoSave(r.id, true), DoRestart];
    var p1, p2, p3 := [DoPublish(r)], [DoPublish(r), DoRemove(r.id, true)], steps[..3];
    assert [] + [DoPublish(r)] == p1 && p1 + [DoRemove(r.id, true)] == p2;
    assert p2 + [DoSave(r.id, true)] == p3 && p3 + [DoRestart] == steps;
    RunSnoc([], DoPublish(r));
    RunSnoc(p1, DoRemove(r.id, true));
    RunSnoc(p2, DoSave(r.id, true));
    RunSnoc(p3, DoRestart);
    var s3 := After(p3);
    assert s3.saved == map[r.id := r];
    TokenIndexed(s3.saved, r.id);
  }

  lemma RunSnoc(p: seq<Step>, step: Step)
    requires IsRun(p) && Enabled(After(p), step)
    ensures IsRun(p + [step]) && After(p + [step]) == Apply(After(p), step)
  {
    assert (p + [step])[..|p|] == p;
  }
}
