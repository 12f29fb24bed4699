/** What stripping by lines (internal/launcher/codex_desktop.go) does to the TOML a config is written in.

    A small lexer finds the values that span lines: arrays, and strings in triple quotes.  It gives the lines that TOML
    itself counts as top-level assignments of the provider, and the exact condition under which the line-level strip
    drops just these. */
module CodexToml {
  import opened Sequences
  import opened Text
  import opened CodexConfig

  // ----- values that span lines (sections String and Array of TOML v1.0.0) -----

  datatype Mode = Bare | Basic | Literal | MultiBasic | MultiLiteral

  /** Where the lexer is: outside strings or in one, and within so many arrays. */
  datatype LexState = LexState(mode: Mode, depth: nat)

  const START := LexState(Bare, 0)
  const QUOTE: char := '"'
  const TICK: char := '\''

  function Thrice(q: char): string {
    [q, q, q]
  }

  /** Up to two quotes before the closing three belong to the string. */
  function AfterClosing(s: string, q: char): (r: string)
    ensures |r| <= |s|
  {
    if HasPrefix(s, [q, q]) then s[2..] else if HasPrefix(s, [q]) then s[1..] else s
  }

  /** The state after the rest of a line; a string in single quotes ends with its line at the latest. */
  function Scan(s: string, st: LexState): LexState
    decreases |s|
  {
    if s == "" then (if st.mode == Basic || st.mode == Literal then st.(mode := Bare) else st)
    else match st.mode
      case Bare =>
        if HasPrefix(s, Thrice(QUOTE)) then Scan(s[3..], st.(mode := MultiBasic))
        else if HasPrefix(s, Thrice(TICK)) then Scan(s[3..], st.(mode := MultiLiteral))
        else if s[0] == QUOTE then Scan(s[1..], st.(mode := Basic))
        else if s[0] == TICK then Scan(s[1..], st.(mode := Literal))
        else if s[0] == '#' then st
        else if s[0] == '[' then Scan(s[1..], st.(depth := st.depth + 1))
        else if s[0] == ']' && st.depth > 0 then Scan(s[1..], st.(depth := st.depth - 1))
        else Scan(s[1..], st)
      case Basic =>
        if s[0] == '\\' && |s| > 1 then Scan(s[2..], st)
        else Scan(s[1..], if s[0] == QUOTE then st.(mode := Bare) else st)
      case Literal => Scan(s[1..], if s[0] == TICK then st.(mode := Bare) else st)
      case MultiBasic =>
        if s[0] == '\\' && |s| > 1 then Scan(s[2..], st)
        else if HasPrefix(s, Thrice(QUOTE)) then Scan(AfterClosing(s[3..], QUOTE), st.(mode := Bare))
        else Scan(s[1..], st)
      case MultiLiteral =>
        if HasPrefix(s, Thrice(TICK)) then Scan(AfterClosing(s[3..], TICK), st.(mode := Bare))
        else Scan(s[1..], st)
  }

  /** The state at the start of line `k`. */
  function StateAt(ls: seq<string>, k: nat): LexState
    requires k <= |ls|
  {
    if k == 0 then START else Scan(ls[k - 1], StateAt(ls, k - 1))
  }

  /** Line `k` goes on with a value of the line before. */
  predicate IsInside(ls: seq<string>, k: nat)
    requires k <= |ls|
  {
    StateAt(ls, k) != START
  }

  // ----- what a line means in TOML -----

  function SkipBlanks(s: string): string {
    if s != "" && (s[0] == ' ' || s[0] == '\t') then SkipBlanks(s[1..]) else s
  }

  predicate Opens(line: string) {
    HasPrefix(SkipBlanks(line), "[")
  }

  predicate AssignsTo(s: string, key: string) {
    HasPrefix(s, key) && HasPrefix(SkipBlanks(s[|key|..]), "=")
  }

  /** An assignment of the key, which may be written bare or in quotes of either kind. */
  predicate Assigns(line: string) {
    var s := SkipBlanks(line);
    AssignsTo(s, KEY) || AssignsTo(s, [QUOTE] + KEY + [QUOTE]) || AssignsTo(s, [TICK] + KEY + [TICK])
  }

  /** The first line from `k` on that opens a table. */
  function TopFrom(ls: seq<string>, k: nat): (n: nat)
    requires k <= |ls|
    ensures k <= n <= |ls|
    ensures forall j :: k <= j < n ==> IsInside(ls, j) || !Opens(ls[j])
    ensures n < |ls| ==> !IsInside(ls, n) && Opens(ls[n])
    decreases |ls| - k
  {
    if k == |ls| || (!IsInside(ls, k) && Opens(ls[k])) then k else TopFrom(ls, k + 1)
  }

  /** Line `k` is part of a top-level assignment of the key: it starts one, or goes on with the value of one. */
  predicate IsOwned(ls: seq<string>, k: nat)
    requires k < |ls|
  {
    if IsInside(ls, k) then k > 0 && IsOwned(ls, k - 1) else k < TopFrom(ls, 0) && Assigns(ls[k])
  }

  /** The lines that are not marked. */
  function Keep(ls: seq<string>, drops: seq<bool>): seq<string>
    requires |drops| == |ls|
  {
    if ls == [] then [] else if drops[0] then Keep(ls[1..], drops[1..]) else [ls[0]] + Keep(ls[1..], drops[1..])
  }

  function Owned(ls: seq<string>): (r: seq<bool>)
    ensures |r| == |ls| && forall k :: 0 <= k < |ls| ==> r[k] == IsOwned(ls, k)
  {
    seq(|ls|, k requires 0 <= k < |ls| => IsOwned(ls, k))
  }

  /** The config without its top-level assignments of the key, by TOML's own notion. */
  function TomlStrip(ls: seq<string>): seq<string> {
    Keep(ls, Owned(ls))
  }

  // ----- when lines are enough -----

  /** What the line-level strip drops. */
  predicate IsDropped(ls: seq<string>, k: nat)
    requires k < |ls|
  {
    k < TopLength(ls) && IsAssignment(ls[k])
  }

  function OtherCount(ls: seq<string>): nat {
    if ls == [] then 0 else OtherCount(ls[1..]) + if IsAssignment(ls[0]) then 0 else 1
  }

  lemma {:induction false} StripKeepsOthers(ls: seq<string>, atTop: bool)
    ensures OtherCount(StripLines(ls, atTop)) == OtherCount(ls)
  {
    hide IsHeader, IsAssignment;
    if ls != [] {
      var rest := StripLines(ls[1..], atTop && !IsHeader(ls[0]));
      StripKeepsOthers(ls[1..], atTop && !IsHeader(ls[0]));
      assert ([ls[0]] + rest)[1..] == rest;
    }
  }

  lemma {:induction false} KeepHasNoMore(ls: seq<string>, drops: seq<bool>)
    requires |drops| == |ls|
    ensures OtherCount(Keep(ls, drops)) <= OtherCount(ls) && |Keep(ls, drops)| <= |ls|
    ensures Keep(ls, drops) == ls <==> forall k :: 0 <= k < |ls| ==> !drops[k]
  {
    hide IsHeader, IsAssignment;
    if ls != [] {
      var rest := Keep(ls[1..], drops[1..]);
      KeepHasNoMore(ls[1..], drops[1..]);
      assert ([ls[0]] + rest)[1..] == rest;
      ConsTail(ls);
      assert (forall k :: 0 <= k < |ls| ==> !drops[k]) <==> !drops[0] && forall k :: 0 <= k < |ls[1..]| ==> !drops[1..][k];
    }
  }

  lemma {:induction false} StrippedHead(ls: seq<string>)
    ensures var r := StripLines(ls, true);
            r == [] || IsHeader(r[0]) || !IsAssignment(r[0])
  {
    hide IsHeader, IsAssignment;
    if ls != [] && !IsHeader(ls[0]) && IsAssignment(ls[0]) {
      StrippedHead(ls[1..]);
    }
  }

  /** The line-level strip gives what dropping the marked lines gives exactly when it drops the marked lines. */
  lemma {:induction false} StripIsKeepIff(ls: seq<string>, drops: seq<bool>)
    requires |drops| == |ls|
    ensures StripLines(ls, true) == Keep(ls, drops) <==> forall k :: 0 <= k < |ls| ==> (drops[k] <==> IsDropped(ls, k))
  {
    hide IsHeader, IsAssignment;
    if ls == [] {
    } else if IsHeader(ls[0]) {
      StripBelowTop(ls[1..]);
      ConsTail(ls);
      KeepHasNoMore(ls, drops);
    } else {
      var t, ds := ls[1..], drops[1..];
      StripIsKeepIff(t, ds);
      assert forall k :: 0 <= k < |t| ==> ls[k + 1] == t[k] && drops[k + 1] == ds[k] && (IsDropped(ls, k + 1) <==> IsDropped(t, k));
      HeadDecides(ls, drops);
      assert (forall k :: 0 <= k < |ls| ==> (drops[k] <==> IsDropped(ls, k))) <==>
             (drops[0] <==> IsDropped(ls, 0)) && forall k :: 0 <= k < |t| ==> (ds[k] <==> IsDropped(t, k));
    }
  }

  lemma HeadDecides(ls: seq<string>, drops: seq<bool>)
    requires ls != [] && |drops| == |ls| && !IsHeader(ls[0])
    ensures StripLines(ls, true) == Keep(ls, drops) <==>
            (drops[0] <==> IsAssignment(ls[0])) && StripLines(ls[1..], true) == Keep(ls[1..], drops[1..])
  {
    hide IsHeader, IsAssignment;
    var c, m := StripLines(ls[1..], true), Keep(ls[1..], drops[1..]);
    StrippedHead(ls[1..]);
    StripKeepsOthers(ls[1..], true);
    KeepHasNoMore(ls[1..], drops[1..]);
    assert ([ls[0]] + c)[1..] == c && ([ls[0]] + m)[1..] == m;
    assert ([ls[0]] + c)[0] == ls[0] && ([ls[0]] + m)[0] == ls[0];
  }

  /** The line-level strip agrees with TOML if and only if the lines that look like assignments before the first line that
      looks like a header are just those of TOML's top-level assignments. */
  lemma LinesAgreeWithTomlIff(ls: seq<string>)
    ensures StripLines(ls, true) == TomlStrip(ls) <==> forall k :: 0 <= k < |ls| ==> (IsOwned(ls, k) <==> IsDropped(ls, k))
  {
    StripIsKeepIff(ls, Owned(ls));
  }

  /** In plain configs each line means in TOML what it looks like, and no value of the key spans lines. */
  predicate IsPlain(ls: seq<string>) {
    forall k :: 0 <= k < |ls| ==> IsPlainLine(ls, k)
  }

  predicate IsPlainLine(ls: seq<string>, k: nat)
    requires k < |ls|
  {
    && (IsHeader(ls[k]) <==> !IsInside(ls, k) && Opens(ls[k]))
    && (IsAssignment(ls[k]) <==> !IsInside(ls, k) && Assigns(ls[k]))
    && (IsAssignment(ls[k]) ==> !IsInside(ls, k + 1))
  }

  lemma {:induction false} TopLengthIsFirstHeader(ls: seq<string>)
    ensures forall k :: 0 <= k < TopLength(ls) ==> !IsHeader(ls[k])
    ensures TopLength(ls) < |ls| ==> IsHeader(ls[TopLength(ls)])
  {
    hide IsHeader;
    if ls != [] && !IsHeader(ls[0]) {
      TopLengthIsFirstHeader(ls[1..]);
    }
  }

  lemma PlainTop(ls: seq<string>)
    requires IsPlain(ls)
    ensures TopFrom(ls, 0) == TopLength(ls)
  {
    hide Scan, IsHeader, IsAssignment, Opens, Assigns, TopLength;
    TopLengthIsFirstHeader(ls);
    var n, m := TopFrom(ls, 0), TopLength(ls);
    assert n < |ls| ==> IsPlainLine(ls, n);
    assert m < |ls| ==> IsPlainLine(ls, m);
  }

  lemma {:induction false} PlainLineIsOwnedIff(ls: seq<string>, k: nat)
    requires IsPlain(ls) && k < |ls|
    ensures IsOwned(ls, k) <==> IsDropped(ls, k)
  {
    hide Scan, IsHeader, IsAssignment, Opens, Assigns, TopLength;
    PlainTop(ls);
    assert IsPlainLine(ls, k);
    if IsInside(ls, k) && k > 0 {
      assert IsPlainLine(ls, k - 1);
      PlainLineIsOwnedIff(ls, k - 1);
    }
  }

  /** Plain configs lose exactly what they should. */
  lemma PlainConfigsAgree(ls: seq<string>)
    requires IsPlain(ls)
    ensures StripLines(ls, true) == TomlStrip(ls)
  {
    forall k | 0 <= k < |ls| ensures IsOwned(ls, k) <==> IsDropped(ls, k) {
      PlainLineIsOwnedIff(ls, k);
    }
    LinesAgreeWithTomlIff(ls);
  }

  // ----- ways to disagree -----

  lemma OwnedLineIsStripped(ls: seq<string>, k: nat)
    requires k < |ls| && IsOwned(ls, k)
    ensures TomlStrip(ls) != ls
  {
    KeepHasNoMore(ls, Owned(ls));
  }

  /** A key in quotes assigns as well, and is not seen. */
  lemma QuotedKeySurvives(value: string)
    ensures var ls := [[QUOTE] + KEY + [QUOTE] + ("=" + value)];
            IsOwned(ls, 0) && TomlStrip(ls) != ls && StripLines(ls, true) == ls
  {
    var key, line := [QUOTE] + KEY + [QUOTE], [QUOTE] + KEY + [QUOTE] + ("=" + value);
    var ls := [line];
    PrefixCut(key, "=" + value);
    assert line[0] == QUOTE && SkipBlanks(line) == line && Assigns(line);
    assert !Opens(line) && !IsInside(ls, 0) && TopFrom(ls, 0) == 1 && IsOwned(ls, 0);
    OwnedLineIsStripped(ls, 0);
    assert SkipReSpace(line) == line && KEY[0] == 'm' && !IsAssignment(line);
    assert ls[1..] == [] && StripLines(ls[1..], true) == [];
  }

  lemma BareAssignment(value: string)
    ensures var line := KEY + ("=" + value);
            Assigns(line) && !Opens(line) && IsAssignment(line) && !IsHeader(line)
  {
    var line := KEY + ("=" + value);
    PrefixCut(KEY, "=" + value);
    assert KEY[0] == 'm' && line[0] == 'm' && SkipBlanks(line) == line && SkipReSpace(line) == line;
    assert SkipReSpace("=" + value) == "=" + value && SkipBlanks("=" + value) == "=" + value;
    FirstCharDecides(line);
  }

  lemma ArrayStates()
    ensures Scan("x=[", START) == LexState(Bare, 1)
    ensures Scan("[1],", LexState(Bare, 1)) == LexState(Bare, 1)
    ensures Scan("]", LexState(Bare, 1)) == START
  {
  }

  lemma ArrayLines(line: string)
    ensures var ls := ["x=[", "[1],", "]", line];
            && !IsInside(ls, 0) && IsInside(ls, 1) && IsInside(ls, 2) && !IsInside(ls, 3)
            && !Opens(ls[0]) && !IsHeader(ls[0]) && IsHeader(ls[1]) && !IsAssignment(ls[0])
  {
    hide IsHeader, IsAssignment, Opens, Scan;
    var ls := ["x=[", "[1],", "]", line];
    ArrayStates();
    ArrayMarks();
    assert StateAt(ls, 0) == START && StateAt(ls, 1) == LexState(Bare, 1);
    assert StateAt(ls, 2) == LexState(Bare, 1);
    assert StateAt(ls, 3) == START;
  }

  lemma ArrayMarks()
    ensures !Opens("x=[") && !IsHeader("x=[") && !IsAssignment("x=[") && IsHeader("[1],")
  {
    hide IsHeader, IsAssignment, Opens, Assigns;
    LineOfOther("x=[");
    LineOfTable("[1],");
  }

  /** A line that begins with some other letter than the key. */
  lemma LineOfOther(line: string)
    requires line != "" && line[0] == 'x'
    ensures !Opens(line) && !IsHeader(line) && !IsAssignment(line) && !Assigns(line)
  {
    assert SkipBlanks(line) == line && SkipReSpace(line) == line && KEY[0] == 'm';
    FirstCharDecides(line);
  }

  lemma LineOfTable(line: string)
    requires line != "" && line[0] == '['
    ensures IsHeader(line)
  {
    FirstCharDecides(line);
  }

  /** A row of an array looks like a header, and ends the top level too early. */
  lemma ArrayRowEndsTheTop(value: string)
    ensures var ls := ["x=[", "[1],", "]", KEY + ("=" + value)];
            IsOwned(ls, 3) && TomlStrip(ls) != ls && StripLines(ls, true) == ls
  {
    hide Scan, IsHeader, IsAssignment, Opens, Assigns;
    var line := KEY + ("=" + value);
    var ls := ["x=[", "[1],", "]", line];
    ArrayLines(line);
    BareAssignment(value);
    assert TopFrom(ls, 4) == 4 && TopFrom(ls, 3) == 4 && TopFrom(ls, 2) == 4 && TopFrom(ls, 1) == 4 && TopFrom(ls, 0) == 4;
    OwnedLineIsStripped(ls, 3);
    StripBelowTop(ls[2..]);
    assert ls[1..][1..] == ls[2..] && [ls[0]] + ([ls[1]] + ls[2..]) == ls;
  }

  lemma TextStates()
    ensures Scan(KEY + "=" + Thrice(QUOTE), START) == LexState(MultiBasic, 0)
    ensures Scan("x=" + Thrice(QUOTE), START) == LexState(MultiBasic, 0)
  {
    assert Scan(Thrice(QUOTE), START) == Scan("", LexState(MultiBasic, 0)) by { assert Thrice(QUOTE)[3..] == ""; }
    assert ("x=" + Thrice(QUOTE))[1..][1..] == Thrice(QUOTE);
    ScanPlain(KEY + "=", Thrice(QUOTE));
  }

  /** Outside strings, characters that open nothing are skipped. */
  lemma {:induction false} ScanPlain(p: string, s: string)
    requires forall i :: 0 <= i < |p| ==> p[i] != QUOTE && p[i] != TICK && p[i] != '#' && p[i] != '[' && p[i] != ']'
    ensures Scan(p + s, START) == Scan(s, START)
  {
    if p == "" {
      assert p + s == s;
    } else {
      assert (p + s)[0] == p[0] && (p + s)[1..] == p[1..] + s;
      ScanPlain(p[1..], s);
    }
  }

  /** Of a value that spans lines only the first line goes; the rest stays behind. */
  lemma LongValueIsTorn(text: string)
    requires text != "" && !IsHeader(text) && !IsAssignment(text)
    ensures var ls := [KEY + "=" + Thrice(QUOTE), text];
            IsOwned(ls, 0) && IsOwned(ls, 1) && StripLines(ls, true) == [text]
  {
    hide Scan;
    var line := KEY + "=" + Thrice(QUOTE);
    var ls := [line, text];
    TextStates();
    Assoc(KEY, "=", Thrice(QUOTE));
    BareAssignment(Thrice(QUOTE));
    assert StateAt(ls, 1) == LexState(MultiBasic, 0) && !IsInside(ls, 0);
    assert TopFrom(ls, 0) >= 1;
    assert ls[1..] == [text] && [text][1..] == [];
    assert StripLines([text], true) == [text] + StripLines([], true) == [text];
  }

  lemma TopOfTwo(ls: seq<string>)
    requires |ls| >= 2 && !IsHeader(ls[0]) && !IsHeader(ls[1])
    ensures TopLength(ls) >= 2
  {
    hide IsHeader;
    assert ls[1..][0] == ls[1];
  }

  /** A line of a text that looks like an assignment is dropped from it. */
  lemma TextLosesALine(value: string, rest: seq<string>)
    ensures var ls := ["x=" + Thrice(QUOTE), KEY + ("=" + value)] + rest;
            IsInside(ls, 1) && !IsOwned(ls, 1) && IsDropped(ls, 1) && StripLines(ls, true) != TomlStrip(ls)
  {
    hide Scan, IsAssignment, IsHeader, Assigns, Opens;
    var ls := ["x=" + Thrice(QUOTE), KEY + ("=" + value)] + rest;
    TextStates();
    BareAssignment(value);
    assert ls[0] == "x=" + Thrice(QUOTE) && ls[1] == KEY + ("=" + value);
    LineOfOther(ls[0]);
    assert StateAt(ls, 0) == START && StateAt(ls, 1) == Scan(ls[0], START);
    TopOfTwo(ls);
    LinesAgreeWithTomlIff(ls);
  }
}
