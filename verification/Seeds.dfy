/** Seeding the replay library (`seedCases` in internal/store/cases.go).

    Every open of the database installs the embedded cases unless the stored digest is that of the embedded set.  The
    rows are written first and the digest last, one statement each; an open may stop after any statement. */
module Seeds {
  import opened Options
  import opened SeedDigest

  datatype Database = Database(rows: map<string, ReplayCase>, digest: Option<string>, legacyFlag: bool)

  function Embedded(c: ReplayCase, now: string): ReplayCase {
    c.(createdAt := now)
  }

  /** INSERT OR REPLACE of each seed in turn. */
  function InstallRows(rows: map<string, ReplayCase>, seeds: seq<ReplayCase>, now: string): map<string, ReplayCase> {
    if seeds == [] then rows
    else InstallRows(rows, seeds[..|seeds| - 1], now)[seeds[|seeds| - 1].id := Embedded(seeds[|seeds| - 1], now)]
  }

  lemma InstallNext(rows: map<string, ReplayCase>, seeds: seq<ReplayCase>, i: nat, now: string)
    requires i < |seeds|
    ensures InstallRows(rows, seeds[..i + 1], now) == InstallRows(rows, seeds[..i], now)[seeds[i].id := Embedded(seeds[i], now)]
  {
    assert seeds[..i + 1][..i] == seeds[..i];
  }

  /** An open that carries out at most `stop` statements: one per seed, then the digest, then the old flag's removal. */
  function Seed(db: Database, seeds: seq<ReplayCase>, now: string, hash: string -> string, stop: nat): Database {
    var digest := Digest(seeds, hash);
    if db.digest == Some(digest) then db
    else
      var rows := InstallRows(db.rows, seeds[..if stop < |seeds| then stop else |seeds|], now);
      Database(rows, if stop > |seeds| then Some(digest) else db.digest, if stop > |seeds| + 1 then false else db.legacyFlag)
  }

  class CaseTable {
    var rows: map<string, ReplayCase>
    var digest: Option<string>
    var legacyFlag: bool

    function Contents(): Database
      reads this
    {
      Database(rows, digest, legacyFlag)
    }

    constructor ()
      ensures Contents() == Database(map[], None, false)
    {
      rows, digest, legacyFlag := map[], None, false;
    }

    /** `completed` is false when a statement failed or the process died. */
    method SeedCases(seeds: seq<ReplayCase>, now: string, hash: string -> string, stop: nat) returns (completed: bool)
      modifies this
      ensures Contents() == Seed(old(Contents()), seeds, now, hash, stop)
      ensures completed <==> old(digest) == Some(Digest(seeds, hash)) || stop >= |seeds| + 2
    {
      hide Digest;
      var current := ComputeDigest(seeds, hash);
      if digest == Some(current) {
        return true;
      }
      var i := 0;
      while i < |seeds|
        invariant 0 <= i <= |seeds| && i <= stop
        invariant rows == InstallRows(old(rows), seeds[..i], now)
        invariant digest == old(digest) && legacyFlag == old(legacyFlag)
      {
        if stop == i {
          return false;
        }
        InstallNext(old(rows), seeds, i, now);
        rows := rows[seeds[i].id := seeds[i].(createdAt := now)];
        i := i + 1;
      }
      assert seeds[..|seeds|] == seeds;
      if stop == |seeds| {
        return false;
      }
      digest := Some(current);
      if stop == |seeds| + 1 {
        return false;
      }
      legacyFlag := false;
      return true;
    }

    method AddCase(c: ReplayCase)
      modifies this
      ensures Contents() == old(Contents()).(rows := old(rows)[c.id := c])
    {
      rows := rows[c.id := c];
    }

    method DeleteCase(id: string)
      modifies this
      ensures Contents() == old(Contents()).(rows := old(rows) - {id})
    {
      rows := rows - {id};
    }
  }

  // ----- one open -----

  ghost predicate HasId(seeds: seq<ReplayCase>, id: string) {
    exists i :: 0 <= i < |seeds| && seeds[i].id == id
  }

  lemma PrefixHasNoOtherIds(seeds: seq<ReplayCase>, n: nat, id: string)
    requires n <= |seeds|
    ensures HasId(seeds[..n], id) ==> HasId(seeds, id)
  {
    if HasId(seeds[..n], id) {
      var i :| 0 <= i < n && seeds[..n][i].id == id;
      assert seeds[i].id == id;
    }
  }

  predicate DistinctIds(seeds: seq<ReplayCase>) {
    forall i, j :: 0 <= i < j < |seeds| ==> seeds[i].id != seeds[j].id
  }

  /** Every seed's row is exactly as embedded, up to its creation time. */
  ghost predicate AreInstalled(rows: map<string, ReplayCase>, seeds: seq<ReplayCase>) {
    forall i :: 0 <= i < |seeds| ==> seeds[i].id in rows && rows[seeds[i].id].(createdAt := "") == seeds[i].(createdAt := "")
  }

  lemma {:induction false} InstallTouchesOnlySeeds(rows: map<string, ReplayCase>, seeds: seq<ReplayCase>, now: string, id: string)
    requires !HasId(seeds, id)
    ensures var r := InstallRows(rows, seeds, now);
            (id in r <==> id in rows) && (id in rows ==> r[id] == rows[id])
  {
    if seeds != [] {
      var p, last := seeds[..|seeds| - 1], |seeds| - 1;
      assert seeds[last].id != id;
      PrefixHasNoOtherIds(seeds, last, id);
      InstallTouchesOnlySeeds(rows, p, now, id);
    }
  }

  lemma {:induction false} InstallInstalls(rows: map<string, ReplayCase>, seeds: seq<ReplayCase>, now: string, k: nat)
    requires DistinctIds(seeds) && k < |seeds|
    ensures var r := InstallRows(rows, seeds, now);
            seeds[k].id in r && r[seeds[k].id] == Embedded(seeds[k], now)
  {
    if k < |seeds| - 1 {
      InstallInstalls(rows, seeds[..|seeds| - 1], now, k);
    }
  }

  /** Rows outside the seed set are never touched, however far an open gets. */
  lemma SeedingLeavesOthersAlone(db: Database, seeds: seq<ReplayCase>, now: string, hash: string -> string, stop: nat, id: string)
    requires !HasId(seeds, id)
    ensures var db' := Seed(db, seeds, now, hash, stop);
            (id in db'.rows <==> id in db.rows) && (id in db.rows ==> db'.rows[id] == db.rows[id])
  {
    var n := if stop < |seeds| then stop else |seeds|;
    PrefixHasNoOtherIds(seeds, n, id);
    InstallTouchesOnlySeeds(db.rows, seeds[..n], now, id);
  }

  /** A completed open leaves every seed as embedded exactly when the stored digest differed or they all were already. */
  lemma CompletedOpenInstallsIff(db: Database, seeds: seq<ReplayCase>, now: string, hash: string -> string, stop: nat)
    requires DistinctIds(seeds) && stop >= |seeds| + 1
    ensures var db' := Seed(db, seeds, now, hash, stop);
            && db'.digest == Some(Digest(seeds, hash))
            && (AreInstalled(db'.rows, seeds) <==> db.digest != Some(Digest(seeds, hash)) || AreInstalled(db.rows, seeds))
            && (db.digest == Some(Digest(seeds, hash)) ==> db'.rows == db.rows)
  {
    if db.digest != Some(Digest(seeds, hash)) {
      assert seeds[..|seeds|] == seeds;
      forall k | 0 <= k < |seeds|
        ensures var r := InstallRows(db.rows, seeds, now);
                seeds[k].id in r && r[seeds[k].id].(createdAt := "") == seeds[k].(createdAt := "")
      {
        InstallInstalls(db.rows, seeds, now, k);
      }
    }
  }

  /** The flag of the old scheme goes with a completed install and with nothing else, and the digest is stored by then. */
  lemma OldFlagGoes(db: Database, seeds: seq<ReplayCase>, now: string, hash: string -> string, stop: nat)
    requires db.legacyFlag
    ensures var db' := Seed(db, seeds, now, hash, stop);
            && (!db'.legacyFlag <==> db.digest != Some(Digest(seeds, hash)) && stop >= |seeds| + 2)
            && (!db'.legacyFlag ==> db'.digest == Some(Digest(seeds, hash)))
  {
  }

  // ----- histories -----

  datatype Step =
    | UserAdds(c: ReplayCase)
    | UserDeletes(id: string)
    | Opens(seeds: seq<ReplayCase>, now: string, stop: nat)

  function Apply(db: Database, step: Step, hash: string -> string): Database {
    match step
    case UserAdds(c) => db.(rows := db.rows[c.id := c])
    case UserDeletes(id) => db.(rows := db.rows - {id})
    case Opens(seeds, now, stop) => Seed(db, seeds, now, hash, stop)
  }

  function After(steps: seq<Step>, hash: string -> string): Database {
    if steps == [] then Database(map[], None, false)
    else Apply(After(steps[..|steps| - 1], hash), steps[|steps| - 1], hash)
  }

  /** The seed sets of all opens have distinct ids. */
  predicate AreOpens(steps: seq<Step>) {
    forall i :: 0 <= i < |steps| && steps[i].Opens? ==> DistinctIds(steps[i].seeds)
  }

  /** Step `i` was an open of a seed set with this digest that installed all of it. */
  ghost predicate InstalledAt(steps: seq<Step>, digest: string, hash: string -> string, i: nat) {
    && i < |steps| && steps[i].Opens? && Digest(steps[i].seeds, hash) == digest && steps[i].stop > |steps[i].seeds|
    && AreInstalled(After(steps[..i + 1], hash).rows, steps[i].seeds)
  }

  /** A stored digest means that an install of all of a seed set with that digest was completed. */
  lemma {:induction false} StoredDigestMeansInstalled(steps: seq<Step>, hash: string -> string)
    requires AreOpens(steps) && After(steps, hash).digest.Some?
    ensures exists i :: InstalledAt(steps, After(steps, hash).digest.value, hash, i)
  {
    var p, last := steps[..|steps| - 1], |steps| - 1;
    var digest := After(steps, hash).digest.value;
    if After(p, hash).digest == Some(digest) {
      StoredDigestMeansInstalled(p, hash);
      var i :| InstalledAt(p, digest, hash, i);
      InstalledStays(steps, digest, hash, i);
    } else {
      NewDigestMeansInstalled(After(p, hash), steps[last], hash);
      assert steps[..last + 1] == steps;
      assert InstalledAt(steps, digest, hash, last);
    }
  }

  lemma InstalledStays(steps: seq<Step>, digest: string, hash: string -> string, i: nat)
    requires steps != [] && InstalledAt(steps[..|steps| - 1], digest, hash, i)
    ensures InstalledAt(steps, digest, hash, i)
  {
    assert steps[..|steps| - 1][..i + 1] == steps[..i + 1];
  }

  lemma NewDigestMeansInstalled(db: Database, step: Step, hash: string -> string)
    requires step.Opens? ==> DistinctIds(step.seeds)
    requires Apply(db, step, hash).digest != db.digest
    ensures step.Opens? && step.stop > |step.seeds| && Apply(db, step, hash).digest == Some(Digest(step.seeds, hash))
    ensures AreInstalled(Apply(db, step, hash).rows, step.seeds)
  {
    CompletedOpenInstallsIff(db, step.seeds, step.now, hash, step.stop);
  }

  /** Over any history, a row outside every seed set is what the user last made of it. */
  function UserRow(steps: seq<Step>, id: string): Option<ReplayCase> {
    if steps == [] then None
    else match steps[|steps| - 1]
      case UserAdds(c) => if c.id == id then Some(c) else UserRow(steps[..|steps| - 1], id)
      case UserDeletes(d) => if d == id then None else UserRow(steps[..|steps| - 1], id)
      case Opens(_, _, _) => UserRow(steps[..|steps| - 1], id)
  }

  lemma {:induction false} UserRowsAreTheUsers(steps: seq<Step>, id: string, hash: string -> string)
    requires forall i :: 0 <= i < |steps| && steps[i].Opens? ==> !HasId(steps[i].seeds, id)
    ensures var rows := After(steps, hash).rows;
            UserRow(steps, id) == if id in rows then Some(rows[id]) else None
  {
    if steps != [] {
      var p, step := steps[..|steps| - 1], steps[|steps| - 1];
      UserRowsAreTheUsers(p, id, hash);
      if step.Opens? {
        SeedingLeavesOthersAlone(After(p, hash), step.seeds, step.now, hash, step.stop, id);
      }
    }
  }

  // ----- the last write -----

  /** What the first `n` statements write to row `id`: the last of these seeds that has it. */
  function SeedWrite(seeds: seq<ReplayCase>, n: nat, id: string): Option<ReplayCase>
    requires n <= |seeds|
  {
    if n == 0 then None else if seeds[n - 1].id == id then Some(seeds[n - 1]) else SeedWrite(seeds, n - 1, id)
  }

  /** The digest of the last open that got as far as writing one, or found it written. */
  function LastDigest(steps: seq<Step>, hash: string -> string): Option<string> {
    if steps == [] then None
    else
      var step := steps[|steps| - 1];
      if step.Opens? && step.stop > |step.seeds| then Some(Digest(step.seeds, hash)) else LastDigest(steps[..|steps| - 1], hash)
  }

  /** The last write to row `id` in a history: by the user, or by a statement that an open reached whose digest was not
      the one stored then. */
  function LastWrite(steps: seq<Step>, id: string, hash: string -> string): Option<ReplayCase> {
    if steps == [] then None
    else
      var p := steps[..|steps| - 1];
      match steps[|steps| - 1]
      case UserAdds(c) => if c.id == id then Some(c) else LastWrite(p, id, hash)
      case UserDeletes(d) => if d == id then None else LastWrite(p, id, hash)
      case Opens(seeds, now, stop) =>
        if LastDigest(p, hash) == Some(Digest(seeds, hash)) then LastWrite(p, id, hash)
        else match SeedWrite(seeds, if stop < |seeds| then stop else |seeds|, id)
          case Some(c) => Some(Embedded(c, now))
          case None => LastWrite(p, id, hash)
  }

  function RowOf(rows: map<string, ReplayCase>, id: string): Option<ReplayCase> {
    if id in rows then Some(rows[id]) else None
  }

  lemma {:induction false} InstallWrites(rows: map<string, ReplayCase>, seeds: seq<ReplayCase>, n: nat, now: string, id: string)
    requires n <= |seeds|
    ensures RowOf(InstallRows(rows, seeds[..n], now), id) ==
            match SeedWrite(seeds, n, id) case Some(c) => Some(Embedded(c, now)) case None => RowOf(rows, id)
  {
    if n > 0 {
      InstallWrites(rows, seeds, n - 1, now, id);
      assert seeds[..n][..n - 1] == seeds[..n - 1];
    }
  }

  lemma {:induction false} LastDigestIsStored(steps: seq<Step>, hash: string -> string)
    ensures After(steps, hash).digest == LastDigest(steps, hash)
  {
    if steps != [] {
      LastDigestIsStored(steps[..|steps| - 1], hash);
    }
  }

  /** Over every history, whatever stopped in it, each row is what was last written to it. */
  lemma {:induction false} RowsAreLastWrites(steps: seq<Step>, id: string, hash: string -> string)
    ensures RowOf(After(steps, hash).rows, id) == LastWrite(steps, id, hash)
  {
    if steps != [] {
      var p, step := steps[..|steps| - 1], steps[|steps| - 1];
      RowsAreLastWrites(p, id, hash);
      LastDigestIsStored(p, hash);
      if step.Opens? {
        InstallWrites(After(p, hash).rows, step.seeds, if step.stop < |step.seeds| then step.stop else |step.seeds|, step.now, id);
      }
    }
  }

  /** Equal but for the creation time, which is not part of the embedded case. */
  predicate IsAsEmbedded(row: Option<ReplayCase>, c: ReplayCase) {
    row.Some? && row.value.(createdAt := "") == c.(createdAt := "")
  }

  /** After every history the seeds are as embedded if and only if the last write to each one's row was that seed. */
  lemma SeedsAreInstalledIff(steps: seq<Step>, seeds: seq<ReplayCase>, hash: string -> string)
    ensures AreInstalled(After(steps, hash).rows, seeds) <==>
            forall k :: 0 <= k < |seeds| ==> IsAsEmbedded(LastWrite(steps, seeds[k].id, hash), seeds[k])
  {
    var rows := After(steps, hash).rows;
    forall k | 0 <= k < |seeds|
      ensures IsAsEmbedded(LastWrite(steps, seeds[k].id, hash), seeds[k]) <==>
              seeds[k].id in rows && rows[seeds[k].id].(createdAt := "") == seeds[k].(createdAt := "")
    {
      RowsAreLastWrites(steps, seeds[k].id, hash);
    }
  }

  /** A stored digest does not mean that the rows still are as embedded, even if the user changes nothing: an open of
      another seed set that stops before its digest leaves its rows behind, and going back to the first set
      finds its own digest and reinstalls nothing. */
  lemma InterruptedUpgradeMayStick(a: ReplayCase, b: ReplayCase, hash: string -> string)
    requires a.id == b.id && a.body != b.body && Digest([a], hash) != Digest([b], hash)
    ensures var db := After([Opens([a], "t1", 3), Opens([b], "t2", 1), Opens([a], "t3", 3)], hash);
            db.digest == Some(Digest([a], hash)) && !AreInstalled(db.rows, [a])
  {
    var s1, s2, s3 := Opens([a], "t1", 3), Opens([b], "t2", 1), Opens([a], "t3", 3);
    assert [s1, s2, s3][..2] == [s1, s2] && [s1, s2][..1] == [s1] && [s1][..0] == [];
    assert [a][..1] == [a] && [a][..0] == [] && [b][..1] == [b] && [b][..0] == [];
    var d0 := Database(map[], None, false);
    var d1 := Seed(d0, [a], "t1", hash, 3);
    var d2 := Seed(d1, [b], "t2", hash, 1);
    assert After([s1], hash) == d1 && After([s1, s2], hash) == d2;
    assert d1.digest == Some(Digest([a], hash));
    assert InstallRows(d1.rows, [b], "t2") == InstallRows(d1.rows, [], "t2")[b.id := Embedded(b, "t2")];
    assert d2.rows[a.id] == Embedded(b, "t2") && d2.digest == d1.digest;
    assert After([s1, s2, s3], hash) == d2;
    assert [a][0] == a;
  }
}
