/** The line-level merge of the Codex desktop config (internal/launcher/codex_desktop.go). */
module CodexConfig {
  import opened Sequences
  import opened Text

  const KEY := "model_provider"

  // ----- reading one line -----

  /** The class `\s` of Go's regular expressions. */
  predicate IsReSpace(c: char) {
    c == '\t' || c == '\n' || c == (12 as char) || c == '\r' || c == ' '
  }

  function SkipReSpace(s: string): string {
    if s != "" && IsReSpace(s[0]) then SkipReSpace(s[1..]) else s
  }

  /** The line matches `^\s*model_provider\s*=`. */
  predicate IsAssignment(line: string) {
    var s := SkipReSpace(line);
    HasPrefix(s, KEY) && HasPrefix(SkipReSpace(s[|KEY|..]), "=")
  }

  /** The line opens a table. */
  predicate IsHeader(line: string) {
    HasPrefix(Trim(line), "[")
  }

  // ----- stripping -----

  function StripLines(ls: seq<string>, atTop: bool): seq<string> {
    if ls == [] then []
    else
      var top := atTop && !IsHeader(ls[0]);
      if top && IsAssignment(ls[0]) then StripLines(ls[1..], top) else [ls[0]] + StripLines(ls[1..], top)
  }

  function Strip(s: string): string {
    Join(StripLines(Split(s, '\n'), true), "\n")
  }

  lemma StripNext(out: seq<string>, lines: seq<string>, k: nat, atTop: bool)
    requires k < |lines|
    ensures var top := atTop && !IsHeader(lines[k]);
            out + StripLines(lines[k..], atTop) ==
            (if top && IsAssignment(lines[k]) then out else out + [lines[k]]) + StripLines(lines[k + 1..], top)
  {
    var top := atTop && !IsHeader(lines[k]);
    assert lines[k..][0] == lines[k] && lines[k..][1..] == lines[k + 1..];
    Assoc(out, [lines[k]], StripLines(lines[k + 1..], top));
  }

  method StripTopLevelModelProvider(s: string) returns (r: string)
    ensures r == Strip(s)
  {
    var lines := Split(s, '\n');
    var out: seq<string> := [];
    var atTop := true;
    for k := 0 to |lines|
      invariant out + StripLines(lines[k..], atTop) == StripLines(lines, true)
    {
      var ln := lines[k];
      StripNext(out, lines, k, atTop);
      if atTop && HasPrefix(Trim(ln), "[") {
        atTop := false;
      }
      if atTop && IsAssignment(ln) {
        continue;
      }
      out := out + [ln];
    }
    assert out + [] == out;
    r := Join(out, "\n");
  }

  // ----- what stripping means: positions -----

  /** The number of lines before the first table header. */
  function TopLength(ls: seq<string>): (n: nat)
    ensures n <= |ls|
  {
    if ls == [] || IsHeader(ls[0]) then 0 else 1 + TopLength(ls[1..])
  }

  function Assignments(ls: seq<string>): seq<string> {
    if ls == [] then []
    else if IsAssignment(ls[0]) then [ls[0]] + Assignments(ls[1..]) else Assignments(ls[1..])
  }

  function Others(ls: seq<string>): seq<string> {
    if ls == [] then []
    else if IsAssignment(ls[0]) then Others(ls[1..]) else [ls[0]] + Others(ls[1..])
  }

  /** The assignments of the key at top level. */
  function TopAssignments(ls: seq<string>): seq<string> {
    Assignments(ls[..TopLength(ls)])
  }

  lemma StripBelowTop(ls: seq<string>)
    ensures StripLines(ls, false) == ls
  {
    if ls != [] {
      StripBelowTop(ls[1..]);
      ConsTail(ls);
    }
  }

  lemma TopUnfolds(ls: seq<string>)
    requires ls != [] && !IsHeader(ls[0])
    ensures ls[..TopLength(ls)] == [ls[0]] + ls[1..][..TopLength(ls[1..])]
    ensures ls[TopLength(ls)..] == ls[1..][TopLength(ls[1..])..]
  {
    var n := TopLength(ls[1..]);
    assert TopLength(ls) == n + 1;
    CutAfterFirst(ls, n);
  }

  /** Stripping drops exactly the assignments before the first header: every other line survives, in
      order, and everything from the first header on is untouched. */
  lemma {:induction false} StripKeepsTheRest(ls: seq<string>)
    ensures StripLines(ls, true) == Others(ls[..TopLength(ls)]) + ls[TopLength(ls)..]
  {
    if ls == [] {
    } else if IsHeader(ls[0]) {
      StripBelowTop(ls[1..]);
      ConsTail(ls);
      assert Others(ls[..0]) + ls[0..] == ls;
    } else {
      StripKeepsTheRest(ls[1..]);
      TopUnfolds(ls);
      var top, rest := ls[1..][..TopLength(ls[1..])], ls[TopLength(ls)..];
      assert ([ls[0]] + top)[1..] == top;
      Assoc([ls[0]], Others(top), rest);
    }
  }

  lemma {:induction false} StrippedTopHasNoAssignment(ls: seq<string>)
    ensures TopAssignments(StripLines(ls, true)) == []
    ensures StripLines(StripLines(ls, true), true) == StripLines(ls, true)
  {
    if ls == [] {
    } else if IsHeader(ls[0]) {
      StripBelowTop(ls[1..]);
      ConsTail(ls);
    } else {
      StrippedTopHasNoAssignment(ls[1..]);
      var rest := StripLines(ls[1..], true);
      if !IsAssignment(ls[0]) {
        var r := [ls[0]] + rest;
        assert r[1..] == rest;
        TopUnfolds(r);
        assert ([ls[0]] + rest[..TopLength(rest)])[1..] == rest[..TopLength(rest)];
      }
    }
  }

  /** Stripping twice is stripping once. */
  lemma StripIsIdempotent(s: string)
    ensures Strip(Strip(s)) == Strip(s)
  {
    var ls := Split(s, '\n');
    var out := StripLines(ls, true);
    StrippedTopHasNoAssignment(ls);
    if out == [] {
      assert Split("", '\n') == [""];
      assert StripLines([""], true) == [""] + StripLines([], true);
    } else {
      StripLinesAreLines(ls, true);
      SplitOfJoin(out, '\n');
    }
  }

  lemma AreLinesCons(l: string, ls: seq<string>)
    requires '\n' !in l && AreLines(ls)
    ensures AreLines([l] + ls)
  {
  }

  lemma {:induction false} StripLinesAreLines(ls: seq<string>, atTop: bool)
    requires AreLines(ls)
    ensures AreLines(StripLines(ls, atTop))
  {
    if ls != [] {
      var top := atTop && !IsHeader(ls[0]);
      assert AreLines(ls[1..]);
      StripLinesAreLines(ls[1..], top);
      AreLinesCons(ls[0], StripLines(ls[1..], top));
    }
  }

  // ----- merging -----

  function TrimRightNewlines(s: string): string {
    if s != "" && s[|s| - 1] == '\n' then TrimRightNewlines(s[..|s| - 1]) else s
  }

  /** The fixed texts of the injection. */
  datatype Wording = Wording(marker: string, ours: string, blockOpen: string, table: string)

  /** Two comment lines, one top-level assignment of the key, one table header. */
  predicate Fits(w: Wording) {
    && IsComment(w.marker) && IsComment(w.blockOpen)
    && '\n' !in w.ours && IsAssignment(w.ours) && !IsHeader(w.ours)
    && w.table != "" && w.table[0] == '[' && '\n' !in w.table
  }

  predicate IsComment(line: string) {
    line != "" && line[0] == '#' && '\n' !in line
  }

  function Preamble(w: Wording): string {
    w.marker + ['\n'] + (w.ours + ['\n'])
  }

  function Epilogue(w: Wording, body: string): string {
    [] + ['\n'] + (w.blockOpen + ['\n'] + (w.table + ['\n'] + body))
  }

  /** The merged file; `body` is what follows our table's header. */
  function Merged(w: Wording, original: string, body: string): string {
    var stripped := TrimRightNewlines(Strip(original));
    Preamble(w) + ((if stripped != "" then "\n" + stripped + "\n" else "") + Epilogue(w, body))
  }

  method MergeConfig(w: Wording, original: string, body: string) returns (r: string)
    ensures r == Merged(w, original, body)
  {
    var stripped := StripTopLevelModelProvider(original);
    stripped := TrimRightNewlines(stripped);
    var b := w.marker + "\n";
    b := b + (w.ours + "\n");
    if stripped != "" {
      b := b + ("\n" + stripped + "\n");
      Assoc(Preamble(w), "\n" + stripped + "\n", Epilogue(w, body));
    } else {
      assert "" + Epilogue(w, body) == Epilogue(w, body);
    }
    EpilogueIs(w, body);
    r := b + ("\n" + w.blockOpen + "\n" + (w.table + "\n" + body));
  }

  lemma EpilogueIs(w: Wording, body: string)
    ensures "\n" + w.blockOpen + "\n" + (w.table + "\n" + body) == Epilogue(w, body)
  {
  }

  predicate HasCodexMarker(w: Wording, content: string) {
    Contains(content, w.marker)
  }

  /** What is injected is recognised, so that it is never injected again. */
  lemma MergedHasMarker(w: Wording, original: string, body: string)
    ensures HasCodexMarker(w, Merged(w, original, body))
  {
    var m := Merged(w, original, body);
    var rest := m[|Preamble(w)|..];
    assert m == Preamble(w) + rest;
    Assoc(w.marker, ['\n'], w.ours + ['\n']);
    Assoc(w.marker, ['\n'] + (w.ours + ['\n']), rest);
    PrefixCut(w.marker, ['\n'] + (w.ours + ['\n']) + rest);
    assert OccursAt(m, w.marker, 0);
  }

  // ----- the merged file, line by line -----

  function DropTrailingBlank(ls: seq<string>): seq<string> {
    if ls != [] && ls[|ls| - 1] == "" then DropTrailingBlank(ls[..|ls| - 1]) else ls
  }

  lemma {:induction false} JoinSnoc(ls: seq<string>, l: string)
    requires ls != []
    ensures Join(ls + [l], "\n") == Join(ls, "\n") + ("\n" + l)
  {
    if |ls| == 1 {
      assert (ls + [l])[1..] == [l];
      Assoc(ls[0], "\n", l);
    } else {
      assert (ls + [l])[1..] == ls[1..] + [l];
      JoinSnoc(ls[1..], l);
      Assoc(ls[0] + "\n", Join(ls[1..], "\n"), "\n" + l);
    }
  }

  lemma {:induction false} TrimmingDropsBlankLines(ls: seq<string>)
    requires AreLines(ls)
    ensures TrimRightNewlines(Join(ls, "\n")) == Join(DropTrailingBlank(ls), "\n")
  {
    if ls == [] {
    } else {
      var p, l := ls[..|ls| - 1], ls[|ls| - 1];
      var s := Join(ls, "\n");
      assert ls == p + [l];
      if p == [] {
        assert s == l;
      } else {
        JoinSnoc(p, l);
      }
      if l == "" {
        TrimmingDropsBlankLines(p);
        if p != [] {
          assert s == Join(p, "\n") + "\n";
          assert s[..|s| - 1] == Join(p, "\n");
        }
      } else {
        assert s[|s| - 1] == l[|l| - 1];
      }
    }
  }

  /** The original's lines that survive: all but its top-level assignments and its trailing blank lines. */
  function Surviving(original: string): seq<string> {
    DropTrailingBlank(StripLines(Split(original, '\n'), true))
  }

  lemma SurvivingText(original: string)
    ensures TrimRightNewlines(Strip(original)) == Join(Surviving(original), "\n")
    ensures Surviving(original) != [] ==>
            Join(Surviving(original), "\n") != "" && Split(Join(Surviving(original), "\n"), '\n') == Surviving(original)
  {
    var ls := StripLines(Split(original, '\n'), true);
    StripLinesAreLines(Split(original, '\n'), true);
    TrimmingDropsBlankLines(ls);
    var kept := Surviving(original);
    DropTrailingBlankIsPrefix(ls);
    if kept != [] {
      SplitOfJoin(kept, '\n');
      SplitFirst("", '\n', "");
    }
  }

  lemma {:induction false} DropTrailingBlankIsPrefix(ls: seq<string>)
    ensures var r := DropTrailingBlank(ls);
            r <= ls && (r == [] || r[|r| - 1] != "") && forall i :: |r| <= i < |ls| ==> ls[i] == ""
  {
    if ls != [] && ls[|ls| - 1] == "" {
      DropTrailingBlankIsPrefix(ls[..|ls| - 1]);
    }
  }

  /** What is kept of the original: its lines but for the top-level assignments and blank lines at the end. */
  lemma OriginalLinesSurvive(original: string)
    ensures var ls := Split(original, '\n');
            var all, kept := Others(ls[..TopLength(ls)]) + ls[TopLength(ls)..], Surviving(original);
            kept <= all && forall i :: |kept| <= i < |all| ==> all[i] == ""
  {
    StripKeepsTheRest(Split(original, '\n'));
    DropTrailingBlankIsPrefix(StripLines(Split(original, '\n'), true));
  }

  function MiddleLines(original: string): seq<string> {
    if Surviving(original) == [] then [] else [""] + Surviving(original)
  }

  function EndLines(w: Wording, body: string): seq<string> {
    [""] + ([w.blockOpen] + ([w.table] + Split(body, '\n')))
  }

  function MiddleText(original: string): string {
    var stripped := TrimRightNewlines(Strip(original));
    if stripped != "" then "\n" + stripped + "\n" else ""
  }

  lemma MiddleAndEndLines(w: Wording, original: string, body: string)
    requires Fits(w)
    ensures Split(MiddleText(original) + Epilogue(w, body), '\n') == MiddleLines(original) + EndLines(w, body)
  {
    var ep := Epilogue(w, body);
    EpilogueLines(w, body);
    SurvivingText(original);
    if Surviving(original) == [] {
      assert "" + ep == ep;
      assert MiddleLines(original) + EndLines(w, body) == EndLines(w, body);
    } else {
      FramedText(Join(Surviving(original), "\n"), ep);
    }
  }

  /** The merged file is our two lines, the surviving lines, our table. */
  lemma MergedLines(w: Wording, original: string, body: string)
    requires Fits(w)
    ensures Split(Merged(w, original, body), '\n') == [w.marker] + ([w.ours] + (MiddleLines(original) + EndLines(w, body)))
  {
    MiddleAndEndLines(w, original, body);
    PreambleLines(w, MiddleText(original) + Epilogue(w, body));
  }

  lemma FramedText(text: string, ep: string)
    ensures Split("\n" + text + "\n" + ep, '\n') == [""] + Split(text, '\n') + Split(ep, '\n')
  {
    SplitConcat("\n" + text, '\n', ep);
    assert "" + ['\n'] + text == "\n" + text;
    SplitFirst("", '\n', text);
  }

  lemma PreambleLines(w: Wording, rest: string)
    requires Fits(w)
    ensures Split(Preamble(w) + rest, '\n') == [w.marker] + ([w.ours] + Split(rest, '\n'))
  {
    Assoc(w.marker + ['\n'], w.ours + ['\n'], rest);
    SplitFirst(w.marker, '\n', w.ours + ['\n'] + rest);
    SplitFirst(w.ours, '\n', rest);
  }

  lemma EpilogueLines(w: Wording, body: string)
    requires Fits(w)
    ensures Split(Epilogue(w, body), '\n') == EndLines(w, body)
  {
    var last := w.table + ['\n'] + body;
    SplitFirst("", '\n', w.blockOpen + ['\n'] + last);
    SplitFirst(w.blockOpen, '\n', last);
    SplitFirst(w.table, '\n', body);
  }

  // ----- exactly one assignment at top level -----

  lemma {:induction false} TrimKeepsFirst(s: string)
    requires s != "" && !IsSpace(s[0])
    ensures TrimRight(s) != "" && TrimRight(s)[0] == s[0] && Trim(s) == TrimRight(s)
  {
    if IsSpace(s[|s| - 1]) {
      TrimKeepsFirst(s[..|s| - 1]);
    }
  }

  lemma FirstCharDecides(s: string)
    requires s != "" && !IsSpace(s[0])
    ensures IsHeader(s) <==> s[0] == '['
    ensures s[0] == '#' ==> !IsAssignment(s)
  {
    TrimKeepsFirst(s);
  }

  lemma TopAssignmentsCons(l: string, ls: seq<string>)
    ensures TopAssignments([l] + ls) ==
            if IsHeader(l) then [] else if IsAssignment(l) then [l] + TopAssignments(ls) else TopAssignments(ls)
  {
    var all := [l] + ls;
    assert all[1..] == ls;
    if !IsHeader(l) {
      TopUnfolds(all);
      assert ([l] + ls[..TopLength(ls)])[1..] == ls[..TopLength(ls)];
    } else {
      assert all[..0] == [];
    }
  }

  /** Lines put before a part without top-level assignments, when they have none either. */
  lemma {:induction false} NoAssignmentConcat(a: seq<string>, b: seq<string>)
    requires TopAssignments(a) == [] && TopAssignments(b) == []
    ensures TopAssignments(a + b) == []
  {
    if a == [] {
      assert a + b == b;
    } else {
      ConsTail(a);
      TopAssignmentsCons(a[0], a[1..]);
      Assoc([a[0]], a[1..], b);
      TopAssignmentsCons(a[0], a[1..] + b);
      if !IsHeader(a[0]) {
        NoAssignmentConcat(a[1..], b);
      }
    }
  }

  lemma {:induction false} PrefixHasNoAssignment(p: seq<string>, ls: seq<string>)
    requires p <= ls && TopAssignments(ls) == []
    ensures TopAssignments(p) == []
  {
    if p != [] {
      ConsTail(p);
      ConsTail(ls);
      TopAssignmentsCons(p[0], p[1..]);
      TopAssignmentsCons(ls[0], ls[1..]);
      if !IsHeader(p[0]) {
        assert p[1..] <= ls[1..];
        PrefixHasNoAssignment(p[1..], ls[1..]);
      }
    }
  }

  /** The merged file assigns the provider once before its first table header, and that assignment is ours. */
  lemma MergedAssignsOnce(w: Wording, original: string, body: string)
    requires Fits(w)
    ensures TopAssignments(Split(Merged(w, original, body), '\n')) == [w.ours]
  {
    MergedLines(w, original, body);
    EndAssignsNothing(w, body);
    MiddleAssignsNothing(original);
    var rest := MiddleLines(original) + EndLines(w, body);
    NoAssignmentConcat(MiddleLines(original), EndLines(w, body));
    FirstCharDecides(w.marker);
    TopAssignmentsCons(w.ours, rest);
    TopAssignmentsCons(w.marker, [w.ours] + rest);
  }

  lemma EndAssignsNothing(w: Wording, body: string)
    requires Fits(w)
    ensures TopAssignments(EndLines(w, body)) == []
  {
    hide TopAssignments, Split;
    var ls := Split(body, '\n');
    FirstCharDecides(w.table);
    FirstCharDecides(w.blockOpen);
    TopAssignmentsCons(w.table, ls);
    TopAssignmentsCons(w.blockOpen, [w.table] + ls);
    TopAssignmentsCons("", [w.blockOpen] + ([w.table] + ls));
  }

  lemma MiddleAssignsNothing(original: string)
    ensures TopAssignments(MiddleLines(original)) == []
  {
    var ls := StripLines(Split(original, '\n'), true);
    StrippedTopHasNoAssignment(Split(original, '\n'));
    DropTrailingBlankIsPrefix(ls);
    PrefixHasNoAssignment(Surviving(original), ls);
    TopAssignmentsCons("", Surviving(original));
  }

  // ----- agenttape's own texts -----

  const VALUE := " = \"agenttape\""
  const BLOCK_OPEN := "# >>> agenttape capture (auto-injected) >>>"
  const BLOCK_END := "# <<< agenttape capture <<<"
  const TABLE := "[model_providers.agenttape]"

  const NAME_LINE := "name = \"agenttape capture\""
  const WIRE_LINE := "wire_api = \"responses\""
  const AUTH_LINE := "requires_openai_auth = true"

  const AGENTTAPE := Wording(Marker(), KEY + VALUE, BLOCK_OPEN, TABLE)

  function Marker(): string {
    "# agenttape: Codex " + ("desktop capture (auto" + ("-injected — restore via" + " the agenttape launch page)"))
  }

  /** Our provider table after its header; `base` is the quoted base URL, `hooks` the hook tables. */
  function TableBody(base: string, hooks: string): string {
    NAME_LINE + ['\n'] + (("base_url = " + base) + ['\n'] + (WIRE_LINE + ['\n'] + (AUTH_LINE + ['\n']
    + ((if hooks != "" then ['\n'] + hooks else "") + (BLOCK_END + ['\n'])))))
  }

  method MergeCodexDesktopConfig(original: string, base: string, hooks: string) returns (r: string)
    ensures r == Merged(AGENTTAPE, original, TableBody(base, hooks))
  {
    r := MergeConfig(AGENTTAPE, original, TableBody(base, hooks));
  }

  lemma OursIsAnAssignment()
    ensures IsAssignment(KEY + VALUE) && !IsHeader(KEY + VALUE) && '\n' !in KEY + VALUE
  {
    assert VALUE[0] == ' ' && VALUE[1] == '=' && '\n' !in VALUE;
    SpacedAssignment(VALUE);
  }

  lemma SpacedAssignment(v: string)
    requires |v| >= 2 && v[0] == ' ' && v[1] == '=' && '\n' !in v
    ensures IsAssignment(KEY + v) && !IsHeader(KEY + v) && '\n' !in KEY + v
  {
    PrefixCut(KEY, v);
    assert KEY[0] == 'm' && '\n' !in KEY;
    assert v[1..][0] == '=';
    FirstCharDecides(KEY + v);
  }

  lemma MarkerFront()
    ensures '\n' !in "# agenttape: Codex " && '\n' !in "desktop capture (auto"
  {
  }

  lemma MarkerBack()
    ensures '\n' !in "-injected — restore via" && '\n' !in " the agenttape launch page)"
  {
  }

  lemma MarkerIsComment()
    ensures IsComment(Marker())
  {
    MarkerFront();
    MarkerBack();
  }

  lemma BlockOpenIsComment()
    ensures IsComment(BLOCK_OPEN)
  {
  }

  lemma TableIsHeader()
    ensures TABLE != "" && TABLE[0] == '[' && '\n' !in TABLE
  {
  }

  lemma AgenttapeFits()
    ensures Fits(AGENTTAPE)
  {
    OursIsAnAssignment();
    MarkerIsComment();
    BlockOpenIsComment();
    TableIsHeader();
  }

  /** For every original config and whatever the table holds, our provider assignment is the only one at top level. */
  lemma MergeAssignsOurProviderOnly(original: string, base: string, hooks: string)
    ensures TopAssignments(Split(Merged(AGENTTAPE, original, TableBody(base, hooks)), '\n')) == [KEY + VALUE]
  {
    AgenttapeFits();
    MergedAssignsOnce(AGENTTAPE, original, TableBody(base, hooks));
  }

  // ----- lines and texts spelled out -----

  /** Tab, newline, form feed, carriage return and blank. */
  lemma ReSpacesAre(c: char)
    ensures IsReSpace(c) <==> c as int in {9, 10, 12, 13, 32}
  {
  }

  predicate AreReSpaces(s: string) {
    forall i :: 0 <= i < |s| ==> IsReSpace(s[i])
  }

  lemma {:induction false} ReSpacesAreSkipped(a: string, rest: string)
    requires AreReSpaces(a) && (rest == "" || !IsReSpace(rest[0]))
    ensures SkipReSpace(a + rest) == rest
  {
    if a == "" {
      assert a + rest == rest;
    } else {
      assert (a + rest)[0] == a[0] && (a + rest)[1..] == a[1..] + rest;
      ReSpacesAreSkipped(a[1..], rest);
    }
  }

  lemma {:induction false} SkipSplits(s: string) returns (a: string)
    ensures s == a + SkipReSpace(s) && AreReSpaces(a) && (SkipReSpace(s) == "" || !IsReSpace(SkipReSpace(s)[0]))
  {
    if s != "" && IsReSpace(s[0]) {
      a := SkipSplits(s[1..]);
      a := [s[0]] + a;
      ConsTail(s);
    } else {
      a := "";
    }
  }

  /** White space, the key, white space, an equals sign. */
  ghost predicate IsAssignmentText(line: string, a: string, b: string, rest: string) {
    AreReSpaces(a) && AreReSpaces(b) && line == a + ("model_provider" + (b + ("=" + rest)))
  }

  lemma AssignmentIff(line: string)
    ensures IsAssignment(line) <==> exists a, b, rest :: IsAssignmentText(line, a, b, rest)
  {
    if IsAssignment(line) {
      var a, b, rest := AssignmentParts(line);
    }
    if a, b, rest :| IsAssignmentText(line, a, b, rest) {
      PartsAssign(line, a, b, rest);
    }
  }

  lemma AssignmentParts(line: string) returns (a: string, b: string, rest: string)
    requires IsAssignment(line)
    ensures IsAssignmentText(line, a, b, rest)
  {
    hide SkipReSpace, AreReSpaces;
    var s := SkipReSpace(line);
    var v := SkipReSpace(s[|KEY|..]);
    a := SkipSplits(line);
    b := SkipSplits(s[|KEY|..]);
    rest := v[1..];
    assert s == KEY + s[|KEY|..] && v == "=" + rest;
  }

  lemma PartsAssign(line: string, a: string, b: string, rest: string)
    requires IsAssignmentText(line, a, b, rest)
    ensures IsAssignment(line)
  {
    hide SkipReSpace, AreReSpaces;
    var v := "=" + rest;
    ReSpacesAreSkipped(a, KEY + (b + v));
    PrefixCut(KEY, b + v);
    ReSpacesAreSkipped(b, v);
  }

  /** A line opens a table exactly when a bracket is the first of its characters that is no white space. */
  lemma HeaderIff(a: string, rest: string)
    requires AreSpaces(a) && (rest == "" || !IsSpace(rest[0]))
    ensures IsHeader(a + rest) <==> rest != "" && rest[0] == '['
  {
    TrimLeftStrips(a, rest);
    var t := TrimRight(rest);
    if rest != "" {
      TrimRightKeepsFirst(rest);
    }
  }

  lemma {:induction false} TrimRightKeepsFirst(s: string)
    requires s != "" && !IsSpace(s[0])
    ensures TrimRight(s) != "" && TrimRight(s)[0] == s[0]
  {
    if |s| > 1 && IsSpace(s[|s| - 1]) {
      TrimRightKeepsFirst(s[..|s| - 1]);
    }
  }

  /** The provider that our assignment names is the one our table defines. */
  lemma OurProviderIsDefined()
    ensures var name := "agenttape";
            AGENTTAPE.ours == "model_provider = \"" + name + "\"" && AGENTTAPE.table == "[model_providers." + name + "]"
  {
  }

  lemma FourLines(a: string, b: string, c: string, d: string, rest: string)
    requires '\n' !in a && '\n' !in b && '\n' !in c && '\n' !in d
    ensures Split(a + ['\n'] + (b + ['\n'] + (c + ['\n'] + (d + ['\n'] + rest))), '\n') == [a] + ([b] + ([c] + ([d] + Split(rest, '\n'))))
  {
    SplitFirst(a, '\n', b + ['\n'] + (c + ['\n'] + (d + ['\n'] + rest)));
    SplitFirst(b, '\n', c + ['\n'] + (d + ['\n'] + rest));
    SplitFirst(c, '\n', d + ['\n'] + rest);
    SplitFirst(d, '\n', rest);
  }

  lemma FixedLines()
    ensures '\n' !in NAME_LINE && '\n' !in WIRE_LINE && '\n' !in AUTH_LINE && '\n' !in "base_url = "
  {
  }

  /** Our table, line by line: the four settings, the hook tables behind a blank line when there are any, the closing mark. */
  lemma TableBodyLines(base: string, hooks: string)
    requires '\n' !in base
    ensures Split(TableBody(base, hooks), '\n') ==
            ["name = \"agenttape capture\""] + (["base_url = " + base] + (["wire_api = \"responses\""] + (["requires_openai_auth = true"]
            + if hooks == "" then Split(BLOCK_END + ['\n'], '\n') else [""] + Split(hooks + (BLOCK_END + ['\n']), '\n'))))
  {
    hide Split;
    var rest := (if hooks != "" then ['\n'] + hooks else "") + (BLOCK_END + ['\n']);
    FixedLines();
    FourLines(NAME_LINE, "base_url = " + base, WIRE_LINE, AUTH_LINE, rest);
    if hooks == "" {
      assert rest == BLOCK_END + ['\n'];
    } else {
      assert "" + ['\n'] + (hooks + (BLOCK_END + ['\n'])) == rest;
      SplitFirst("", '\n', hooks + (BLOCK_END + ['\n']));
    }
  }
}
