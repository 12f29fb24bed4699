/** Installing and restoring the Codex desktop routing (internal/server/codex_desktop_api.go).

    Each handler performs a fixed sequence of file writes and removes.  An operation may succeed or fail, and the
    process may die before any of them; `Fate` says which.  Reading the config may fail although it exists. */
module CodexDesktop {
  import opened Options
  import opened CodexConfig
  import opened Text

  /** The state file's content. */
  datatype DesktopState = DesktopState(hadOriginal: bool, sessionID: string)

  /** The three files the handlers touch. */
  datatype Disk = Disk(config: Option<string>, backup: Option<string>, state: Option<DesktopState>)

  /** What becomes of one file operation: carried out, refused by the system, or never reached. */
  datatype Outcome = Done | Failed | Crashed

  /** The outcomes of a handler's three file operations, in order. */
  datatype Fate = Fate(first: Outcome, second: Outcome, third: Outcome)

  const SMOOTH := Fate(Done, Done, Done)

  /** What one install injects: session, quoted base URL, hook tables. */
  datatype Injection = Injection(sessionID: string, base: string, hooks: string)

  function Injected(original: Option<string>, inj: Injection): string {
    Merged(AGENTTAPE, if original == None then "" else original.value, TableBody(inj.base, inj.hooks))
  }

  predicate IsMarked(config: Option<string>) {
    config.Some? && HasCodexMarker(AGENTTAPE, config.value)
  }

  // ----- what the handlers do to the disk -----

  /** `readable` is false when the config cannot be read although it exists. */
  function Install(d: Disk, inj: Injection, readable: bool, fate: Fate): Disk {
    var original := if readable then d.config else None;
    if d.state.Some? || IsMarked(original) then d
    else if original.Some? && fate.first != Done then d
    else
      var d1 := if original.Some? then d.(backup := original) else d;
      if fate.second != Done then d1
      else
        var d2 := d1.(config := Some(Injected(original, inj)));
        if fate.third != Done then d2 else d2.(state := Some(DesktopState(original.Some?, inj.sessionID)))
  }

  function Restore(d: Disk, fate: Fate): Disk {
    if d.state == None then d
    else if d.state.value.hadOriginal then
      if d.backup == None || fate.first != Done then d
      else
        var d1 := d.(config := d.backup);
        if fate.second == Crashed then d1
        else
          var d2 := if fate.second == Done then d1.(backup := None) else d1;
          if fate.third == Done then d2.(state := None) else d2
    else
      if fate.first == Crashed then d
      else
        var d1 := if fate.first == Done then d.(config := None) else d;
        if fate.third == Done then d1.(state := None) else d1
  }

  /** What the caller sees; a handler that dies does not reply. */
  datatype Reply = Ok | Conflict | Error | NoReply

  class Desktop {
    var config: Option<string>
    var backup: Option<string>
    var state: Option<DesktopState>

    function Contents(): Disk
      reads this
    {
      Disk(config, backup, state)
    }

    constructor (d: Disk)
      ensures Contents() == d
    {
      config, backup, state := d.config, d.backup, d.state;
    }

    /** `made` says whether the directory could be made, `known` whether the enabled hook events could be read. */
    method HandleInstall(inj: Injection, made: bool, readable: bool, known: bool, fate: Fate) returns (reply: Reply)
      modifies this
      ensures Contents() == if made && known then Install(old(Contents()), inj, readable, fate) else old(Contents())
      ensures reply == Conflict <==> old(state).Some? || (made && readable && IsMarked(old(config)))
      ensures !made || !known ==> reply == Conflict || reply == Error
      ensures reply == Ok ==> IsMarked(config) && (readable && old(config).Some? ==> backup == old(config))
    {
      if state.Some? {
        return Conflict;
      }
      if !made {
        return Error;
      }
      var original := if readable then config else None;
      var hadOriginal := original.Some?;
      if hadOriginal && HasCodexMarker(AGENTTAPE, original.value) {
        return Conflict;
      }
      if !known {
        return Error;
      }
      var merged := MergeCodexDesktopConfig(if hadOriginal then original.value else "", inj.base, inj.hooks);
      if hadOriginal {
        if fate.first != Done {
          return if fate.first == Failed then Error else NoReply;
        }
        backup := original;
      }
      if fate.second != Done {
        return if fate.second == Failed then Error else NoReply;
      }
      config := Some(merged);
      MergedHasMarker(AGENTTAPE, if hadOriginal then original.value else "", TableBody(inj.base, inj.hooks));
      // a failure to write the state file is ignored
      if fate.third == Crashed {
        return NoReply;
      }
      if fate.third == Done {
        state := Some(DesktopState(hadOriginal, inj.sessionID));
      }
      return Ok;
    }

    method HandleRestore(fate: Fate) returns (reply: Reply)
      modifies this
      ensures Contents() == Restore(old(Contents()), fate)
      ensures reply != Conflict && (IsStuck(old(Contents())) ==> reply == Error)
      ensures reply == Ok && old(state).Some? && old(state).value.hadOriginal ==> config == old(backup)
    {
      if state == None {
        return Ok;
      }
      if state.value.hadOriginal {
        if backup == None {
          return Error;
        }
        if fate.first != Done {
          return if fate.first == Failed then Error else NoReply;
        }
        config := backup;
        // failures of the two removes are ignored
        if fate.second == Crashed {
          return NoReply;
        }
        if fate.second == Done {
          backup := None;
        }
      } else {
        if fate.first == Crashed {
          return NoReply;
        }
        if fate.first == Done {
          config := None;
        }
      }
      if fate.third == Crashed {
        return NoReply;
      }
      if fate.third == Done {
        state := None;
      }
      return Ok;
    }
  }

  /** A recorded injection whose backup is gone. */
  predicate IsStuck(d: Disk) {
    d.state.Some? && d.state.value.hadOriginal && d.backup == None
  }

  // ----- runs -----

  datatype Step =
    | DoInstall(inj: Injection, readable: bool, fate: Fate)
    | DoRestore(fate: Fate)
    | DoEdit(content: Option<string>)   // the user writes or deletes the config while nothing is injected into it

  /** The disk, and the user's own config: the bytes last written by the user, or that there is none. */
  datatype World = World(disk: Disk, own: Option<string>)

  predicate IsClean(d: Disk) {
    d.state == None && !IsMarked(d.config)
  }

  function Apply(w: World, step: Step): World {
    match step
    case DoInstall(inj, readable, fate) => w.(disk := Install(w.disk, inj, readable, fate))
    case DoRestore(fate) => w.(disk := Restore(w.disk, fate))
    case DoEdit(c) => if !IsMarked(w.disk.config) then World(w.disk.(config := c), c) else w
  }

  function After(start: Option<string>, steps: seq<Step>): World {
    if steps == [] then World(Disk(start, None, None), start)
    else Apply(After(start, steps[..|steps| - 1]), steps[|steps| - 1])
  }

  /** The config is `own` merged with exactly one injection. */
  ghost predicate IsInjected(config: Option<string>, own: Option<string>) {
    exists inj :: config == Some(Injected(own, inj))
  }

  lemma InjectedIsMarked(config: Option<string>, own: Option<string>)
    requires IsInjected(config, own)
    ensures IsMarked(config)
  {
    var inj :| config == Some(Injected(own, inj));
    MergedHasMarker(AGENTTAPE, if own == None then "" else own.value, TableBody(inj.base, inj.hooks));
  }

  /** What a restore would put in place of the config, if it would do anything about it. */
  function Target(d: Disk): Option<Option<string>> {
    if d.state == None then None
    else if d.state.value.hadOriginal then (if d.backup == None then None else Some(d.backup))
    else Some(None)
  }

  /** The record contradicts the user: a restore would put something else in place of the user's own config. */
  predicate IsStale(w: World) {
    Target(w.disk).Some? && Target(w.disk).value != w.own
  }

  /** The user's bytes are in the config or in the backup; without any, there is no config that is not injected. */
  predicate Survives(w: World) {
    if w.own.Some? then w.disk.config == w.own || w.disk.backup == w.own
    else w.disk.config == None || IsMarked(w.disk.config)
  }

  ghost predicate Inv(w: World) {
    var d := w.disk;
    && Survives(w) && !IsMarked(d.backup)
    && (d.config == w.own || d.config == None || IsInjected(d.config, None) || (IsInjected(d.config, w.own) && !IsMarked(w.own)))
    && (d.state.Some? && d.state.value.hadOriginal && (d.backup == None || d.backup != w.own) ==> d.config == w.own)
  }

  /** The steps that lose the user's config: an install that cannot read it and has no backup of it, and a restore from
      a stale record whose backup is not it. */
  predicate Loses(w: World, step: Step) {
    && w.disk.backup != w.own
    && match step
       case DoInstall(inj, readable, fate) =>
         !readable && w.disk.state == None && w.own.Some? && fate.second == Done && w.own != Some(Injected(None, inj))
       case DoRestore(fate) => IsStale(w) && fate.first == Done
       case DoEdit(_) => false
  }

  lemma InstallKeepsInvIff(w: World, inj: Injection, readable: bool, fate: Fate)
    requires Inv(w)
    ensures var step := DoInstall(inj, readable, fate);
            && (Survives(Apply(w, step)) <==> !Loses(w, step))
            && (!Loses(w, step) ==> Inv(Apply(w, step)))
  {
    hide HasCodexMarker, Merged, TableBody;
    var d, d' := w.disk, Install(w.disk, inj, readable, fate);
    var original := if readable then d.config else None;
    InjectedIsMarkedAnyway(d.config, w.own);
    MergedHasMarker(AGENTTAPE, if original == None then "" else original.value, TableBody(inj.base, inj.hooks));
    if d'.config != d.config {
      assert d'.config == Some(Injected(original, inj)) && IsInjected(d'.config, original);
    }
  }

  lemma InjectedIsMarkedAnyway(config: Option<string>, own: Option<string>)
    ensures IsInjected(config, None) || IsInjected(config, own) ==> IsMarked(config)
  {
    if IsInjected(config, None) { InjectedIsMarked(config, None); }
    if IsInjected(config, own) { InjectedIsMarked(config, own); }
  }

  lemma RestoreKeepsInvIff(w: World, fate: Fate)
    requires Inv(w)
    ensures (Survives(Apply(w, DoRestore(fate))) <==> !Loses(w, DoRestore(fate)))
    ensures !Loses(w, DoRestore(fate)) ==> Inv(Apply(w, DoRestore(fate)))
  {
    hide HasCodexMarker, Merged, TableBody;
    InjectedIsMarkedAnyway(w.disk.config, w.own);
  }

  /** Exactly the losing steps lose the user's config, and all others keep the invariant. */
  lemma StepKeepsInvIff(w: World, step: Step)
    requires Inv(w)
    ensures Survives(Apply(w, step)) <==> !Loses(w, step)
    ensures !Loses(w, step) ==> Inv(Apply(w, step))
  {
    match step {
      case DoInstall(inj, readable, fate) => InstallKeepsInvIff(w, inj, readable, fate);
      case DoRestore(fate) => RestoreKeepsInvIff(w, fate);
      case DoEdit(c) =>
    }
  }

  /** No step of the run is a losing one. */
  predicate NeverLoses(start: Option<string>, steps: seq<Step>) {
    steps == [] || (NeverLoses(start, steps[..|steps| - 1]) && !Loses(After(start, steps[..|steps| - 1]), steps[|steps| - 1]))
  }

  /** As long as no step is a losing one, whatever crashes, fails or cannot be read, the user's own bytes are in the
      config or in the backup, or there are none, and the config never carries more than one injection.  The first
      losing step does lose them. */
  lemma {:induction false} OriginalSurvivesIff(start: Option<string>, steps: seq<Step>)
    requires steps != [] ==> NeverLoses(start, steps[..|steps| - 1])
    ensures NeverLoses(start, steps) <==> Survives(After(start, steps))
    ensures NeverLoses(start, steps) ==> Inv(After(start, steps))
  {
    if steps != [] {
      OriginalSurvivesIff(start, steps[..|steps| - 1]);
      StepKeepsInvIff(After(start, steps[..|steps| - 1]), steps[|steps| - 1]);
    }
  }

  // ----- what the record remembers -----

  /** The record as a history tells it: what the install that wrote it saw, none if the config was absent or could not be
      read, and whether a restore has used up the backup since. */
  datatype History = Unrecorded | Recorded(saw: Option<string>, spent: bool)

  function AfterInstall(h: History, saw: Option<string>, fate: Fate): History {
    if h == Unrecorded && !IsMarked(saw) && (saw.Some? ==> fate.first == Done) && fate.second == Done && fate.third == Done
    then Recorded(saw, false)
    else h
  }

  function AfterRestore(h: History, fate: Fate): History {
    if h == Unrecorded then h
    else if h.saw.Some? then
      if h.spent || fate.first != Done || fate.second == Crashed then h
      else if fate.third == Done then Unrecorded
      else h.(spent := fate.second == Done)
    else if fate.first != Crashed && fate.third == Done then Unrecorded
    else h
  }

  function HistoryOf(start: Option<string>, steps: seq<Step>): History {
    if steps == [] then Unrecorded
    else
      var p := steps[..|steps| - 1];
      var h := HistoryOf(start, p);
      match steps[|steps| - 1]
      case DoInstall(_, readable, fate) => AfterInstall(h, if readable then After(start, p).disk.config else None, fate)
      case DoRestore(fate) => AfterRestore(h, fate)
      case DoEdit(_) => h
  }

  /** The record and the backup on disk are as the history tells. */
  predicate Tells(h: History, d: Disk) {
    match h
    case Unrecorded => d.state == None
    case Recorded(saw, spent) =>
      && d.state.Some? && d.state.value.hadOriginal == saw.Some?
      && (saw.Some? ==> d.backup == if spent then None else saw)
  }

  /** In every run, whatever is lost or edited in it. */
  lemma {:induction false} HistoryTells(start: Option<string>, steps: seq<Step>)
    ensures Tells(HistoryOf(start, steps), After(start, steps).disk)
  {
    hide HasCodexMarker, Merged, TableBody;
    if steps != [] {
      HistoryTells(start, steps[..|steps| - 1]);
    }
  }

  /** A record is stale exactly when the install that wrote it saw something else than the user last wrote, unless a
      restore has put that back already and used up the backup. */
  lemma StaleIff(start: Option<string>, steps: seq<Step>)
    ensures var h, w := HistoryOf(start, steps), After(start, steps);
            IsStale(w) <==> h.Recorded? && h.saw != w.own && !(h.saw.Some? && h.spent)
  {
    HistoryTells(start, steps);
  }

  /** A record is without its backup exactly when a restore has used that up and left the record. */
  lemma StuckIff(start: Option<string>, steps: seq<Step>)
    ensures var h := HistoryOf(start, steps);
            IsStuck(After(start, steps).disk) <==> h.Recorded? && h.saw.Some? && h.spent
  {
    HistoryTells(start, steps);
  }

  /** After a run that has lost nothing, a restore that is carried out gives back the user's own config, same bytes or
      same absence, exactly when the install on record saw it, or an earlier restore has used up the backup. */
  lemma RestoreGivesBackTheOriginalIff(start: Option<string>, steps: seq<Step>)
    requires NeverLoses(start, steps) && After(start, steps).disk.state.Some?
    ensures var h, w := HistoryOf(start, steps), After(start, steps);
            h.Recorded? && (Restore(w.disk, SMOOTH).config == w.own <==> h.saw == w.own || (h.saw.Some? && h.spent))
  {
    hide HasCodexMarker, Merged, TableBody;
    LosslessPrefix(start, steps);
    OriginalSurvivesIff(start, steps);
    HistoryTells(start, steps);
  }

  lemma LosslessPrefix(start: Option<string>, steps: seq<Step>)
    requires NeverLoses(start, steps)
    ensures steps != [] ==> NeverLoses(start, steps[..|steps| - 1])
  {
  }

  /** The steps that cannot make a record stale: the install reads the config if there is one, and the user does not
      edit against a record. */
  predicate IsFair(w: World, step: Step) {
    match step
    case DoInstall(_, readable, _) => readable || w.disk.config == None
    case DoRestore(_) => true
    case DoEdit(c) => Target(w.disk) == None || Target(w.disk) == Some(c)
  }

  predicate AllFair(start: Option<string>, steps: seq<Step>) {
    steps == [] || (AllFair(start, steps[..|steps| - 1]) && IsFair(After(start, steps[..|steps| - 1]), steps[|steps| - 1]))
  }

  ghost predicate FairInv(w: World) {
    Inv(w) && !IsStale(w) && (w.disk.config == w.own || (IsInjected(w.disk.config, w.own) && (w.own.Some? ==> w.disk.backup == w.own)))
  }

  lemma FairInstall(w: World, inj: Injection, readable: bool, fate: Fate)
    requires FairInv(w) && (readable || w.disk.config == None)
    ensures !Loses(w, DoInstall(inj, readable, fate)) && FairInv(Apply(w, DoInstall(inj, readable, fate)))
  {
    hide HasCodexMarker, Merged, TableBody;
    var d, d' := w.disk, Install(w.disk, inj, readable, fate);
    InjectedIsMarkedAnyway(d.config, w.own);
    InstallKeepsInvIff(w, inj, readable, fate);
    if d'.config != d.config {
      assert d'.config == Some(Injected(w.own, inj));
    }
  }

  lemma FairRestore(w: World, fate: Fate)
    requires FairInv(w)
    ensures !Loses(w, DoRestore(fate)) && FairInv(Apply(w, DoRestore(fate)))
  {
    hide HasCodexMarker, Merged, TableBody;
    RestoreKeepsInvIff(w, fate);
    var d' := Restore(w.disk, fate);
    assert d'.config == w.disk.config || d'.config == w.own;
  }

  lemma FairStep(w: World, step: Step)
    requires FairInv(w) && IsFair(w, step)
    ensures !Loses(w, step) && FairInv(Apply(w, step))
  {
    match step {
      case DoInstall(inj, readable, fate) => FairInstall(w, inj, readable, fate);
      case DoRestore(fate) => FairRestore(w, fate);
      case DoEdit(c) => StepKeepsInvIff(w, step);
    }
  }

  /** In every run of fair steps, whatever crashes or fails, nothing is lost: the config is the user's own or that
      merged with exactly one injection, and then the backup is the user's own. */
  lemma {:induction false} OriginalIsNeverLost(start: Option<string>, steps: seq<Step>)
    requires AllFair(start, steps)
    ensures NeverLoses(start, steps) && FairInv(After(start, steps))
  {
    if steps != [] {
      OriginalIsNeverLost(start, steps[..|steps| - 1]);
      FairStep(After(start, steps[..|steps| - 1]), steps[|steps| - 1]);
    }
  }

  /** After any run of fair steps, whatever crashed or failed in it, a restore that is carried out gives back the user's
      own config, same bytes or same absence, whenever an injection is recorded. */
  lemma RestoreGivesBackTheOriginal(start: Option<string>, steps: seq<Step>)
    requires AllFair(start, steps) && After(start, steps).disk.state.Some?
    ensures var w := After(start, steps);
            Restore(w.disk, SMOOTH).config == w.own
  {
    OriginalIsNeverLost(start, steps);
    RestoreGivesBackTheOriginalIff(start, steps);
    StaleIff(start, steps);
  }

  /** A completed install followed by a completed restore leaves config and state as they were. */
  lemma InstallThenRestore(d: Disk, inj: Injection)
    ensures IsClean(d) ==> IsMarked(Install(d, inj, true, SMOOTH).config)
    ensures var r := Restore(Install(d, inj, true, SMOOTH), SMOOTH);
            IsClean(d) ==> r.config == d.config && r.state == None
  {
    MergedHasMarker(AGENTTAPE, if d.config == None then "" else d.config.value, TableBody(inj.base, inj.hooks));
  }

  /** After an injection into a clean disk a further install changes nothing, unless the first is not on record and the
      second cannot read the config: then it writes another injection, of no original, or a record. */
  lemma InstallDoesNotStackIff(d: Disk, inj: Injection, readable: bool, fate: Fate, inj2: Injection, readable2: bool, fate2: Fate)
    requires IsClean(d) && Install(d, inj, readable, fate).config != d.config
    ensures var d' := Install(d, inj, readable, fate);
            var d'' := Install(d', inj2, readable2, fate2);
            && (d'' == d' <==> || fate.third == Done || readable2 || fate2.second != Done
                               || (fate2.third != Done && d'.config == Some(Injected(None, inj2))))
            && (d''.config == d'.config || d''.config == Some(Injected(None, inj2)))
  {
    hide HasCodexMarker, Merged, TableBody;
    var original := if readable then d.config else None;
    MergedHasMarker(AGENTTAPE, if original == None then "" else original.value, TableBody(inj.base, inj.hooks));
  }

  /** An injection that is not on record may be replaced by an install that cannot read it; a restore then removes the
      config, and only the backup still holds the original. */
  lemma UnrecordedInjectionMayBeReplaced(d: Disk, inj: Injection, inj2: Injection)
    requires IsClean(d) && d.config.Some?
    ensures var d' := Install(Install(d, inj, true, Fate(Done, Done, Failed)), inj2, false, SMOOTH);
            && d'.config == Some(Injected(None, inj2)) && d'.state == Some(DesktopState(false, inj2.sessionID))
            && Restore(d', SMOOTH) == Disk(None, d.config, None)
  {
    hide HasCodexMarker, Merged, TableBody;
  }

  /** An injection in the config that is not on record. */
  predicate IsUnrecorded(d: Disk) {
    d.state == None && IsMarked(d.config)
  }

  predicate ChangesNothing(d: Disk, inj: Injection, readable: bool, fate: Fate) {
    Install(d, inj, readable, fate) == d && Restore(d, fate) == d
  }

  /** Neither handler changes anything on such a disk, whatever is injected and however it ends. */
  ghost predicate IsFrozen(d: Disk) {
    forall inj, readable, fate :: ChangesNothing(d, inj, readable, fate)
  }

  /** The same as long as the config can be read. */
  ghost predicate IsFrozenWhenRead(d: Disk) {
    forall inj, fate :: ChangesNothing(d, inj, true, fate)
  }

  /** The handlers can do nothing any more exactly about a record without its backup; and, as long as the config can be
      read, about an injection without its record. */
  lemma HandlersAreHelplessIff(d: Disk)
    ensures IsFrozen(d) <==> IsStuck(d)
    ensures IsFrozenWhenRead(d) <==> IsStuck(d) || IsUnrecorded(d)
  {
    hide HasCodexMarker, Merged, TableBody;
    var inj := Injection("", "", "");
    InstallThenRestore(d, inj);
    if !IsStuck(d) {
      assert !ChangesNothing(d, inj, false, SMOOTH);
      if !IsUnrecorded(d) {
        assert !ChangesNothing(d, inj, true, SMOOTH);
      }
    }
  }

  /** A crash between the last two removes of a restore leaves a record without its backup; the config is the user's own. */
  lemma CrashMayLeaveTheRecord(content: string, inj: Injection)
    requires !HasCodexMarker(AGENTTAPE, content)
    ensures var w := After(Some(content), [DoInstall(inj, true, SMOOTH), DoRestore(Fate(Done, Done, Crashed))]);
            IsStuck(w.disk) && w.disk.config == Some(content)
  {
    var i, r := DoInstall(inj, true, SMOOTH), DoRestore(Fate(Done, Done, Crashed));
    assert [i, r][..1] == [i] && [i][..0] == [];
    assert After(Some(content), [i]) == Apply(After(Some(content), []), i);
    assert After(Some(content), [i, r]) == Apply(After(Some(content), [i]), r);
  }

  /** An install on a clean disk leaves an injection without its record exactly when it gets to write the config but does
      not write the record, although a failure to do so is not reported; what it read is then in the backup. */
  lemma InstallGoesUnrecordedIff(d: Disk, inj: Injection, readable: bool, fate: Fate)
    requires IsClean(d)
    ensures var d', original := Install(d, inj, readable, fate), if readable then d.config else None;
            && (IsUnrecorded(d') <==> (original.Some? ==> fate.first == Done) && fate.second == Done && fate.third != Done)
            && (IsUnrecorded(d') && original.Some? ==> d'.backup == original)
  {
    hide HasCodexMarker, Merged, TableBody;
    var original := if readable then d.config else None;
    MergedHasMarker(AGENTTAPE, if original == None then "" else original.value, TableBody(inj.base, inj.hooks));
  }

  /** An existing config's bytes are in the config or the backup after an install unless it could not be read, took
      the config for absent and overwrote it without an earlier backup of it. */
  lemma InstallKeepsBytesIff(d: Disk, inj: Injection, readable: bool, fate: Fate)
    requires d.config.Some? && d.config != Some(Injected(None, inj))
    ensures var d' := Install(d, inj, readable, fate);
            d'.config == d.config || d'.backup == d.config <==>
            readable || d.state.Some? || fate.second != Done || d.backup == d.config
    ensures !readable && d.state == None && fate == SMOOTH ==> Restore(Install(d, inj, readable, fate), SMOOTH).config == None
  {
  }

  /** What the user writes while nothing is injected survives the next restore exactly when there is no record, or a
      record that has nothing else to put back. */
  lemma EditSurvivesRestoreIff(d: Disk, c: Option<string>)
    ensures Restore(d.(config := c), SMOOTH).config == c <==> Target(d) == None || Target(d) == Some(c)
  {
  }

  /** After a restore that died between rewriting the config and removing the backup, nothing is injected any more; an
      edit made then is overwritten by the next restore, and with it the last copy. */
  lemma EditMayBeOverwritten(content: string, c: Option<string>, inj: Injection)
    requires !HasCodexMarker(AGENTTAPE, content) && c != Some(content)
    ensures var restore := DoRestore(Fate(Done, Crashed, Crashed));
            var w := After(Some(content), [DoInstall(inj, true, SMOOTH), restore, DoEdit(c), DoRestore(SMOOTH)]);
            w == World(Disk(Some(content), None, None), c)
  {
    hide HasCodexMarker, Merged, TableBody;
    var i, r, e, r' := DoInstall(inj, true, SMOOTH), DoRestore(Fate(Done, Crashed, Crashed)), DoEdit(c), DoRestore(SMOOTH);
    assert [i, r, e, r'][..3] == [i, r, e] && [i, r, e][..2] == [i, r] && [i, r][..1] == [i] && [i][..0] == [];
    MergedHasMarker(AGENTTAPE, content, TableBody(inj.base, inj.hooks));
    assert After(Some(content), [i]) == Apply(After(Some(content), []), i);
    assert After(Some(content), [i, r]) == Apply(After(Some(content), [i]), r);
    assert After(Some(content), [i, r, e]) == Apply(After(Some(content), [i, r]), e);
    assert After(Some(content), [i, r, e, r']) == Apply(After(Some(content), [i, r, e]), r');
  }

  /** Line by line, what a completed install on a clean disk writes: our assignment, what survives of the config that was
      read, and our table with the base URL and the hooks of this injection. */
  lemma InstalledLines(d: Disk, inj: Injection)
    requires IsClean(d)
    ensures var d' := Install(d, inj, true, SMOOTH);
            && d'.config.Some? && d'.state == Some(DesktopState(d.config.Some?, inj.sessionID))
            && Split(d'.config.value, '\n') ==
               [Marker()] + ([KEY + VALUE] + (MiddleLines(if d.config == None then "" else d.config.value)
               + ([""] + ([BLOCK_OPEN] + ([TABLE] + Split(TableBody(inj.base, inj.hooks), '\n'))))))
  {
    hide Merged, TableBody, HasCodexMarker, Split;
    AgenttapeFits();
    MergedLines(AGENTTAPE, if d.config == None then "" else d.config.value, TableBody(inj.base, inj.hooks));
  }
}
