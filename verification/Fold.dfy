/** Bracket folding in the JSON editor (frontend/src/ui/CodeEditor.tsx, the three scanning functions).

    `JsonBracketFold` counts a single kind of bracket, line by line.  The reference is a matcher over the whole
    text that keeps a stack of both kinds.  On well-nested text the two agree on every line. */
module Fold {
  import opened Options
  import opened Sequences
  import opened Text

  datatype Bracket = Bracket(ch: char, pos: nat)
  datatype Opener = Opener(open: char, close: char, index: nat)
  datatype Range = Range(from: nat, to: nat)

  predicate IsOpen(c: char) { c == '{' || c == '[' }
  predicate IsClose(c: char) { c == '}' || c == ']' }
  predicate IsBracket(c: char) { IsOpen(c) || IsClose(c) }
  function CloserOf(c: char): char { if c == '{' then '}' else ']' }

  // ----- lexing: strings as in section 7 of RFC 8259 -----

  datatype LexState = Plain | InString | AfterBackslash

  function Next(st: LexState, c: char): LexState {
    match st
    case AfterBackslash => InString
    case InString => if c == '\\' then AfterBackslash else if c == '"' then Plain else InString
    case Plain => if c == '"' then InString else Plain
  }

  function EndState(text: string, st: LexState): LexState {
    if text == "" then st else EndState(text[1..], Next(st, text[0]))
  }

  /** The brackets outside strings, with their positions counted from `base`. */
  function Lex(text: string, base: nat, st: LexState): seq<Bracket> {
    if text == "" then []
    else if st == Plain && IsBracket(text[0]) then [Bracket(text[0], base)] + Lex(text[1..], base + 1, Next(st, text[0]))
    else Lex(text[1..], base + 1, Next(st, text[0]))
  }

  // ----- the reference: a two-kind stack matcher over the whole text -----

  /** One step of the matcher at bracket `j`: the new stack and pairs, or nothing on a mismatch. */
  function Step(ts: seq<Bracket>, j: nat, stack: seq<nat>, pairs: map<nat, nat>): (r: Option<(seq<nat>, map<nat, nat>)>)
    requires j < |ts| && Below(stack, j)
    ensures r.Some? ==> Below(r.value.0, j + 1)
  {
    if IsOpen(ts[j].ch) then Some((stack + [j], pairs))
    else if stack != [] && ts[j].ch == CloserOf(ts[Top(stack)].ch) then Some((Pop(stack), pairs[Top(stack) := j]))
    else None
  }

  predicate Below(stack: seq<nat>, j: nat) {
    forall i :: 0 <= i < |stack| ==> stack[i] < j
  }

  function Top(stack: seq<nat>): nat
    requires stack != []
  {
    stack[|stack| - 1]
  }

  function Pop(stack: seq<nat>): seq<nat>
    requires stack != []
  {
    stack[..|stack| - 1]
  }

  function MatchFrom(ts: seq<Bracket>, j: nat, stack: seq<nat>, pairs: map<nat, nat>): Option<map<nat, nat>>
    requires j <= |ts| && Below(stack, j)
    decreases |ts| - j
  {
    if j == |ts| then (if stack == [] then Some(pairs) else None)
    else match Step(ts, j, stack, pairs)
      case None => None
      case Some((stack', pairs')) => MatchFrom(ts, j + 1, stack', pairs')
  }

  /** The closer of every opener, or nothing when the text is not well nested. */
  function Matching(ts: seq<Bracket>): Option<map<nat, nat>> {
    MatchFrom(ts, 0, [], map[])
  }

  // ----- the implementation and its specification -----

  function StateOf(inString: bool, escaped: bool): LexState {
    if escaped then AfterBackslash else if inString then InString else Plain
  }

  lemma LexNext(out: seq<Bracket>, text: string, i: nat, st: LexState)
    requires i < |text|
    ensures var rest := Lex(text[i + 1..], i + 1, Next(st, text[i]));
            out + Lex(text[i..], i, st) == (if st == Plain && IsBracket(text[i]) then out + [Bracket(text[i], i)] else out) + rest
  {
    assert text[i..][0] == text[i] && text[i..][1..] == text[i + 1..];
  }

  method BracketTokens(text: string) returns (out: seq<Bracket>)
    ensures out == Lex(text, 0, Plain)
  {
    out := [];
    var inString, escaped := false, false;
    for i := 0 to |text|
      invariant escaped ==> inString
      invariant out + Lex(text[i..], i, StateOf(inString, escaped)) == Lex(text, 0, Plain)
    {
      var ch := text[i];
      LexNext(out, text, i, StateOf(inString, escaped));
      if escaped {
        escaped := false;
        continue;
      }
      if ch == '\\' {
        escaped := inString;
        continue;
      }
      if ch == '"' {
        inString := !inString;
        continue;
      }
      if !inString && (ch == '{' || ch == '}' || ch == '[' || ch == ']') {
        out := out + [Bracket(ch, i)];
      }
    }
  }

  function OpenerOf(b: Bracket): Opener {
    Opener(b.ch, CloserOf(b.ch), b.pos)
  }

  /** The line's opener: its last bracket, when that is an opening one. */
  method LastOpenerOnLine(text: string) returns (found: Option<Opener>)
    ensures var ts := Lex(text, 0, Plain);
            found == if ts != [] && IsOpen(ts[|ts| - 1].ch) then Some(OpenerOf(ts[|ts| - 1])) else None
  {
    found := None;
    var tokens := BracketTokens(text);
    LexFindsBrackets(text, 0, Plain);
    for k := 0 to |tokens|
      invariant found == if k > 0 && IsOpen(tokens[k - 1].ch) then Some(OpenerOf(tokens[k - 1])) else None
    {
      var token := tokens[k];
      if token.ch == '{' {
        found := Some(Opener('{', '}', token.pos));
      }
      if token.ch == '[' {
        found := Some(Opener('[', ']', token.pos));
      }
      if token.ch == '}' || token.ch == ']' {
        found := None;
      }
    }
  }

  /** Position of the start of line `n` in the document, one newline per line break. */
  function LineFrom(lines: seq<string>, n: nat): nat
    requires n <= |lines|
  {
    if n == 0 then 0 else LineFrom(lines, n - 1) + |lines[n - 1]| + 1
  }

  /** The brackets of lines `n` and on, lexed line by line, with document positions. */
  function TokensFrom(lines: seq<string>, n: nat): seq<Bracket>
    requires n <= |lines|
    decreases |lines| - n
  {
    if n == |lines| then [] else Lex(lines[n], LineFrom(lines, n), Plain) + TokensFrom(lines, n + 1)
  }

  /** The one-kind count: the first bracket that brings `depth` to zero, or what depth is left. */
  datatype Count = Found(pos: nat) | Left(depth: int)

  function DepthAfter(ch: char, open: char, close: char, depth: int): int {
    if ch == open then depth + 1 else if ch == close then depth - 1 else depth
  }

  function CountKind(ts: seq<Bracket>, open: char, close: char, depth: int): Count {
    if ts == [] then Left(depth)
    else
      var d := DepthAfter(ts[0].ch, open, close, depth);
      if d == 0 then Found(ts[0].pos) else CountKind(ts[1..], open, close, d)
  }

  function FoldOf(lines: seq<string>, n: nat): Option<Range>
    requires n < |lines|
  {
    var ts := Lex(lines[n], 0, Plain);
    if ts == [] || !IsOpen(ts[|ts| - 1].ch) then None
    else
      var opener := ts[|ts| - 1];
      match CountKind(TokensFrom(lines, n + 1), opener.ch, CloserOf(opener.ch), 1)
      case Left(_) => None
      case Found(pos) => Some(Range(LineFrom(lines, n) + opener.pos + 1, pos))
  }

  method JsonBracketFold(lines: seq<string>, n: nat) returns (r: Option<Range>)
    requires n < |lines|
    ensures r == FoldOf(lines, n)
  {
    var opener := LastOpenerOnLine(lines[n]);
    if opener == None {
      return None;
    }
    var o := opener.value;
    var from := LineFrom(lines, n);
    LexFindsBrackets(lines[n], 0, Plain);
    var depth := 1;
    ghost var count := CountKind(TokensFrom(lines, n + 1), o.open, o.close, 1);
    for lineNo := n + 1 to |lines|
      invariant CountKind(TokensFrom(lines, lineNo), o.open, o.close, depth) == count
    {
      var curFrom := LineFrom(lines, lineNo);
      var tokens := BracketTokens(lines[lineNo]);
      ghost var here, rest := Lex(lines[lineNo], curFrom, Plain), TokensFrom(lines, lineNo + 1);
      LexShifts(lines[lineNo], 0, curFrom, Plain);
      for k := 0 to |tokens|
        invariant CountKind(here[k..] + rest, o.open, o.close, depth) == count
      {
        var token := tokens[k];
        CountStep(here, k, rest);
        if token.ch == o.open {
          depth := depth + 1;
        }
        if token.ch == o.close {
          depth := depth - 1;
        }
        if depth == 0 {
          return Some(Range(from + o.index + 1, curFrom + token.pos));
        }
      }
      assert here[|here|..] + rest == rest;
    }
    r := None;
  }

  lemma CountStep(here: seq<Bracket>, k: nat, rest: seq<Bracket>)
    requires k < |here|
    ensures (here[k..] + rest)[0] == here[k] && (here[k..] + rest)[1..] == here[k + 1..] + rest
  {
  }

  /** Brackets, at increasing positions between `lo` and `hi`. */
  ghost predicate InOrder(ts: seq<Bracket>, lo: nat, hi: nat) {
    && (forall k :: 0 <= k < |ts| ==> IsBracket(ts[k].ch) && lo <= ts[k].pos < hi)
    && (forall j, k :: 0 <= j < k < |ts| ==> ts[j].pos < ts[k].pos)
  }

  lemma {:induction false} LexFindsBrackets(text: string, base: nat, st: LexState)
    ensures InOrder(Lex(text, base, st), base, base + |text|)
  {
    if text != "" {
      LexFindsBrackets(text[1..], base + 1, Next(st, text[0]));
      var rest := Lex(text[1..], base + 1, Next(st, text[0]));
      assert InOrder(rest, base + 1, base + |text|);
      if st == Plain && IsBracket(text[0]) {
        assert InOrder([Bracket(text[0], base)] + rest, base, base + |text|);
      }
    }
  }

  lemma {:induction false} LexShifts(text: string, base: nat, shift: nat, st: LexState)
    ensures var ts, moved := Lex(text, base, st), Lex(text, base + shift, st);
            |ts| == |moved| && forall k :: 0 <= k < |ts| ==> moved[k] == Bracket(ts[k].ch, ts[k].pos + shift)
  {
    if text != "" {
      LexShifts(text[1..], base + 1, shift, Next(st, text[0]));
    }
  }

  // ----- line by line is the same as the whole text -----

  predicate StringsEndOnTheirLine(lines: seq<string>) {
    forall k :: 0 <= k < |lines| ==> EndState(lines[k], Plain) == Plain
  }

  lemma {:induction false} LexConcat(a: string, b: string, base: nat, st: LexState)
    ensures Lex(a + b, base, st) == Lex(a, base, st) + Lex(b, base + |a|, EndState(a, st))
  {
    if a == "" {
      assert a + b == b;
    } else {
      assert (a + b)[1..] == a[1..] + b;
      LexConcat(a[1..], b, base + 1, Next(st, a[0]));
      if st == Plain && IsBracket(a[0]) {
        Assoc([Bracket(a[0], base)], Lex(a[1..], base + 1, Next(st, a[0])), Lex(b, base + |a|, EndState(a, st)));
      }
    }
  }

  /** Lexing the joined document gives the lines' brackets when no string crosses a line. */
  lemma {:induction false} LinesLexLikeTheDocument(lines: seq<string>, n: nat)
    requires StringsEndOnTheirLine(lines) && n < |lines|
    ensures Lex(Join(lines[n..], "\n"), LineFrom(lines, n), Plain) == TokensFrom(lines, n)
    decreases |lines| - n
  {
    var rest := lines[n..];
    if n + 1 == |lines| {
      assert Join(rest, "\n") == lines[n];
      assert TokensFrom(lines, n) == Lex(lines[n], LineFrom(lines, n), Plain) + [];
    } else {
      assert rest[1..] == lines[n + 1..];
      var tail := Join(lines[n + 1..], "\n");
      Assoc(lines[n], "\n", tail);
      LexConcat(lines[n], "\n" + tail, LineFrom(lines, n), Plain);
      PrefixCut("\n", tail);
      LinesLexLikeTheDocument(lines, n + 1);
    }
  }

  // ----- one kind is enough -----

  /** What the matcher makes of one opener, started on that opener alone: the bracket that closes it, no closer at
      all, or a bracket that fits no open one, with so many of the opener's kind still open. */
  datatype Outcome = Closed(at: nat) | Unclosed | Mismatched(at: nat, pending: nat)

  /** The matcher's steps at `j` and on, until the stack is empty. */
  function Run(ts: seq<Bracket>, j: nat, stack: seq<nat>): (r: Outcome)
    requires IsStack(ts, j, stack) && stack != []
    ensures r.Closed? ==> j <= r.at < |ts| && !IsOpen(ts[r.at].ch)
    ensures r.Mismatched? ==> j <= r.at < |ts| && r.pending >= 1
    decreases |ts| - j
  {
    if j == |ts| then Unclosed
    else match Step(ts, j, stack, map[])
      case None =>
        PendingIsPositive(ts, stack);
        Mismatched(j, Pending(ts, stack, ts[stack[0]].ch))
      case Some((stack', _)) => if stack' == [] then Closed(j) else Run(ts, j + 1, stack')
  }

  /** Openers below `j`. */
  predicate IsStack(ts: seq<Bracket>, j: nat, stack: seq<nat>) {
    j <= |ts| && Below(stack, j) && forall i :: 0 <= i < |stack| ==> IsOpen(ts[stack[i]].ch)
  }

  /** How many of the open brackets on the stack are of kind `open`. */
  function Pending(ts: seq<Bracket>, stack: seq<nat>, open: char): nat
    requires Below(stack, |ts|)
    decreases |stack|
  {
    if stack == [] then 0 else Pending(ts, Pop(stack), open) + if ts[Top(stack)].ch == open then 1 else 0
  }

  lemma {:induction false} PendingIsPositive(ts: seq<Bracket>, stack: seq<nat>)
    requires stack != [] && Below(stack, |ts|)
    ensures Pending(ts, stack, ts[stack[0]].ch) >= 1
    decreases |stack|
  {
    if |stack| > 1 {
      PendingIsPositive(ts, Pop(stack));
    }
  }

  /** How the one-kind count moves with one step of the matcher. */
  lemma PendingStep(ts: seq<Bracket>, j: nat, stack: seq<nat>, open: char)
    requires IsStack(ts, j, stack) && j < |ts| && IsOpen(open) && Step(ts, j, stack, map[]).Some?
    ensures Pending(ts, Step(ts, j, stack, map[]).value.0, open) == DepthAfter(ts[j].ch, open, CloserOf(open), Pending(ts, stack, open))
  {
    if IsOpen(ts[j].ch) {
      assert Pop(stack + [j]) == stack;
    }
  }

  lemma CountNext(ts: seq<Bracket>, j: nat, open: char, close: char, depth: int)
    requires j < |ts|
    ensures var d := DepthAfter(ts[j].ch, open, close, depth);
            CountKind(ts[j..], open, close, depth) == if d == 0 then Found(ts[j].pos) else CountKind(ts[j + 1..], open, close, d)
  {
    assert ts[j..][0] == ts[j] && ts[j..][1..] == ts[j + 1..];
  }

  /** The one-kind count, started with the pending brackets of the outermost one's kind, finds exactly the bracket that
      closes it, and nothing when nothing does; after a mismatch it goes on as if nothing had happened. */
  lemma {:induction false} CountFollowsTheRun(ts: seq<Bracket>, j: nat, stack: seq<nat>)
    requires IsStack(ts, j, stack) && stack != []
    ensures var open := ts[stack[0]].ch;
            var count := CountKind(ts[j..], open, CloserOf(open), Pending(ts, stack, open));
            match Run(ts, j, stack)
            case Closed(c) => count == Found(ts[c].pos)
            case Unclosed => count.Left?
            case Mismatched(m, d) => count == CountKind(ts[m..], open, CloserOf(open), d)
    decreases |ts| - j
  {
    if j < |ts| && Step(ts, j, stack, map[]).Some? {
      var open, stack' := ts[stack[0]].ch, Step(ts, j, stack, map[]).value.0;
      PendingStep(ts, j, stack, open);
      CountNext(ts, j, open, CloserOf(open), Pending(ts, stack, open));
      if stack' != [] {
        assert stack'[0] == stack[0];
        PendingIsPositive(ts, stack');
        CountFollowsTheRun(ts, j + 1, stack');
      }
    }
  }

  /** By how much brackets `close` outnumber brackets `open`. */
  function Surplus(ts: seq<Bracket>, open: char, close: char): int {
    if ts == [] then 0 else Surplus(ts[1..], open, close) - DepthAfter(ts[0].ch, open, close, 0)
  }

  /** The count ends exactly when the closers of its kind outnumber the openers by its depth at some point. */
  lemma {:induction false} CountEndsIff(ts: seq<Bracket>, open: char, close: char, depth: nat)
    requires depth >= 1
    ensures CountKind(ts, open, close, depth).Found? <==> exists e :: 0 <= e <= |ts| && Surplus(ts[..e], open, close) >= depth
  {
    if ts == [] {
      assert ts[..0] == [];
    } else {
      var d := DepthAfter(ts[0].ch, open, close, depth);
      forall e | 0 <= e < |ts| ensures Surplus(ts[..e + 1], open, close) == Surplus(ts[1..][..e], open, close) + depth - d {
        assert ts[..e + 1][0] == ts[0] && ts[..e + 1][1..] == ts[1..][..e];
      }
      if d == 0 {
        assert ts[1..][..0] == [];
        assert Surplus(ts[..0 + 1], open, close) >= depth;
      } else {
        CountEndsIff(ts[1..], open, close, d);
        if CountKind(ts, open, close, depth).Found? {
          var e :| 0 <= e <= |ts[1..]| && Surplus(ts[1..][..e], open, close) >= d;
          assert Surplus(ts[..e + 1], open, close) >= depth;
        } else {
          forall e | 0 <= e <= |ts| ensures Surplus(ts[..e], open, close) < depth {
            if e > 0 {
              assert Surplus(ts[..(e - 1) + 1], open, close) == Surplus(ts[1..][..e - 1], open, close) + depth - d;
            }
          }
        }
      }
    }
  }

  // ----- one opener and the whole text -----

  /** Pairs already made are kept. */
  lemma {:induction false} PairsStay(ts: seq<Bracket>, j: nat, stack: seq<nat>, pairs: map<nat, nat>, k: nat)
    requires j <= |ts| && Below(stack, j) && MatchFrom(ts, j, stack, pairs).Some? && k in pairs && k !in stack && k < j
    ensures var m := MatchFrom(ts, j, stack, pairs).value;
            k in m && m[k] == pairs[k]
    decreases |ts| - j
  {
    if j < |ts| {
      var (stack', pairs') := Step(ts, j, stack, pairs).value;
      PairsStay(ts, j + 1, stack', pairs', k);
    }
  }

  /** The matcher's step looks at the upper part of the stack only. */
  lemma StepOnUpper(ts: seq<Bracket>, j: nat, base: seq<nat>, upper: seq<nat>, pairs: map<nat, nat>)
    requires IsStack(ts, j, base + upper) && IsStack(ts, j, upper) && upper != [] && j < |ts|
    ensures var r, u := Step(ts, j, base + upper, pairs), Step(ts, j, upper, map[]);
            && (r.Some? <==> u.Some?)
            && (r.Some? ==> r.value == (base + u.value.0, if IsOpen(ts[j].ch) then pairs else pairs[Top(upper) := j])
                            && IsStack(ts, j + 1, u.value.0) && IsStack(ts, j + 1, base + u.value.0))
  {
    assert Top(base + upper) == Top(upper) && Pop(base + upper) == base + Pop(upper);
    Assoc(base, upper, [j]);
  }

  /** Inside a successful match, the run of the upper part of the stack ends where the match pairs its lowest bracket. */
  lemma {:induction false} RunInsideMatch(ts: seq<Bracket>, j: nat, base: seq<nat>, upper: seq<nat>, pairs: map<nat, nat>)
    requires IsStack(ts, j, base + upper) && IsStack(ts, j, upper) && upper != [] && upper[0] !in base
    requires forall i :: 0 < i < |upper| ==> upper[i] != upper[0]
    requires MatchFrom(ts, j, base + upper, pairs).Some?
    ensures var m := MatchFrom(ts, j, base + upper, pairs).value;
            upper[0] in m && Run(ts, j, upper) == Closed(m[upper[0]])
    decreases |ts| - j
  {
    StepOnUpper(ts, j, base, upper, pairs);
    var pairs' := Step(ts, j, base + upper, pairs).value.1;
    var upper' := Step(ts, j, upper, map[]).value.0;
    if upper' != [] {
      assert upper'[0] == upper[0];
      RunInsideMatch(ts, j + 1, base, upper', pairs');
    } else {
      assert base + upper' == base;
      PairsStay(ts, j + 1, base, pairs', upper[0]);
    }
  }

  /** On well-nested text every opener's run ends at the bracket the matcher pairs with it. */
  lemma {:induction false} RunAgreesWithMatcher(ts: seq<Bracket>, j: nat, stack: seq<nat>, pairs: map<nat, nat>, k: nat)
    requires IsStack(ts, j, stack) && MatchFrom(ts, j, stack, pairs).Some?
    requires j <= k < |ts| && IsOpen(ts[k].ch)
    ensures var m := MatchFrom(ts, j, stack, pairs).value;
            k in m && Run(ts, k + 1, [k]) == Closed(m[k])
    decreases k - j
  {
    var (stack', pairs') := Step(ts, j, stack, pairs).value;
    if j == k {
      RunInsideMatch(ts, j + 1, stack, [k], pairs');
    } else {
      RunAgreesWithMatcher(ts, j + 1, stack', pairs', k);
    }
  }

  /** When a run ends, the upper part of its stack was closed before. */
  lemma {:induction false} UpperClosesFirst(ts: seq<Bracket>, j: nat, base: seq<nat>, upper: seq<nat>)
    requires IsStack(ts, j, base + upper) && IsStack(ts, j, upper) && base != [] && upper != []
    requires Run(ts, j, base + upper).Closed?
    ensures Run(ts, j, upper).Closed? && Run(ts, j, upper).at < Run(ts, j, base + upper).at
    decreases |ts| - j
  {
    StepOnUpper(ts, j, base, upper, map[]);
    if Step(ts, j, upper, map[]).value.0 != [] {
      assert (base + Step(ts, j, upper, map[]).value.0)[0] == base[0];
      UpperClosesFirst(ts, j + 1, base, Step(ts, j, upper, map[]).value.0);
    }
  }

  /** An opener between a bracket and its closer is closed before that. */
  lemma {:induction false} InnerRunEndsInside(ts: seq<Bracket>, j: nat, stack: seq<nat>, k: nat)
    requires IsStack(ts, j, stack) && stack != [] && Run(ts, j, stack).Closed?
    requires j <= k < Run(ts, j, stack).at && IsOpen(ts[k].ch)
    ensures Run(ts, k + 1, [k]).Closed? && Run(ts, k + 1, [k]).at < Run(ts, j, stack).at
    decreases k - j
  {
    if j == k {
      UpperClosesFirst(ts, j + 1, stack, [k]);
    } else {
      InnerRunEndsInside(ts, j + 1, Step(ts, j, stack, map[]).value.0, k);
    }
  }

  // ----- main results -----

  /** The whole document's brackets and their matching. */
  function DocumentTokens(lines: seq<string>): seq<Bracket> {
    Lex(Join(lines, "\n"), 0, Plain)
  }

  /** How many brackets the first `n` lines have. */
  function TokensBefore(lines: seq<string>, n: nat): nat
    requires n <= |lines|
  {
    if n == 0 then 0 else TokensBefore(lines, n - 1) + |Lex(lines[n - 1], 0, Plain)|
  }

  lemma {:induction false} TokensFromIsSuffix(lines: seq<string>, n: nat)
    requires n <= |lines|
    ensures TokensBefore(lines, n) + |TokensFrom(lines, n)| == |TokensFrom(lines, 0)|
    ensures TokensFrom(lines, 0)[TokensBefore(lines, n)..] == TokensFrom(lines, n)
  {
    if n > 0 {
      TokensFromIsSuffix(lines, n - 1);
      var here := Lex(lines[n - 1], LineFrom(lines, n - 1), Plain);
      LexShifts(lines[n - 1], 0, LineFrom(lines, n - 1), Plain);
      PrefixCut(here, TokensFrom(lines, n));
      DropDrop(TokensFrom(lines, 0), TokensBefore(lines, n - 1), |here|);
    }
  }

  lemma DropDrop<T>(s: seq<T>, i: nat, j: nat)
    requires i + j <= |s|
    ensures s[i..][j..] == s[i + j..]
  {
  }

  /** All brackets as the editor finds them, each line lexed on its own. */
  function LineTokens(lines: seq<string>): seq<Bracket> {
    TokensFrom(lines, 0)
  }

  /** They are the document's when no string crosses a line. */
  lemma DocumentLexesByLine(lines: seq<string>)
    requires StringsEndOnTheirLine(lines) && lines != []
    ensures DocumentTokens(lines) == LineTokens(lines)
  {
    LinesLexLikeTheDocument(lines, 0);
    assert lines[0..] == lines;
  }

  /** Where the brackets of line `n` sit among all. */
  lemma LineInDocument(lines: seq<string>, n: nat)
    requires n < |lines|
    ensures var ts, own := LineTokens(lines), Lex(lines[n], 0, Plain);
            var end := TokensBefore(lines, n + 1);
            && end == TokensBefore(lines, n) + |own| <= |ts|
            && ts[end..] == TokensFrom(lines, n + 1)
            && (own != [] ==> ts[end - 1] == Bracket(own[|own| - 1].ch, LineFrom(lines, n) + own[|own| - 1].pos))
  {
    LineAmongTokens(lines, n);
    LastOfLine(lines, n);
  }

  lemma LineAmongTokens(lines: seq<string>, n: nat)
    requires n < |lines|
    ensures var ts, end := TokensFrom(lines, 0), TokensBefore(lines, n + 1);
            && end == TokensBefore(lines, n) + |Lex(lines[n], 0, Plain)| <= |ts|
            && ts[end..] == TokensFrom(lines, n + 1)
  {
    TokensFromIsSuffix(lines, n + 1);
  }

  lemma LastOfLine(lines: seq<string>, n: nat)
    requires n < |lines|
    ensures var ts, own, start := TokensFrom(lines, 0), Lex(lines[n], 0, Plain), TokensBefore(lines, n);
            own != [] ==> start + |own| <= |ts| && ts[start + |own| - 1] == Bracket(own[|own| - 1].ch, LineFrom(lines, n) + own[|own| - 1].pos)
  {
    TokensFromIsSuffix(lines, n);
    LexShifts(lines[n], 0, LineFrom(lines, n), Plain);
    var own, moved := Lex(lines[n], 0, Plain), Lex(lines[n], LineFrom(lines, n), Plain);
    if own != [] {
      SuffixAt(TokensFrom(lines, 0), TokensBefore(lines, n), moved, TokensFrom(lines, n + 1), |own| - 1);
    }
  }

  lemma SuffixAt<T>(s: seq<T>, at: nat, a: seq<T>, b: seq<T>, k: nat)
    requires at <= |s| && s[at..] == a + b && k < |a|
    ensures at + k < |s| && s[at + k] == a[k]
  {
    assert s[at..][k] == s[at + k];
  }

  /** The line's last bracket, as a position in the document's brackets, when it is an opener. */
  function LineOpener(lines: seq<string>, n: nat): Option<nat>
    requires n < |lines|
  {
    var own := Lex(lines[n], 0, Plain);
    if own != [] && IsOpen(own[|own| - 1].ch) then Some(TokensBefore(lines, n) + |own| - 1) else None
  }

  /** What the matcher makes of the line's opener. */
  function LineRun(lines: seq<string>, n: nat): (r: Option<Outcome>)
    requires n < |lines|
    ensures r.Some? <==> LineOpener(lines, n).Some?
  {
    match LineOpener(lines, n)
    case None => None
    case Some(k) =>
      LineInDocument(lines, n);
      Some(Run(LineTokens(lines), k + 1, [k]))
  }

  /** The fold the matcher calls for: from the line's opener to the bracket that closes it, if there is one. */
  function MatcherFold(lines: seq<string>, n: nat): Option<Range>
    requires n < |lines|
  {
    match LineRun(lines, n)
    case Some(Closed(c)) =>
      LineInDocument(lines, n);
      var ts := LineTokens(lines);
      Some(Range(ts[LineOpener(lines, n).value].pos + 1, ts[c].pos))
    case _ => None
  }

  /** After a bracket that fits no open one, closers of the line's kind still outnumber its openers by as many as are pending. */
  ghost predicate IsMisled(lines: seq<string>, n: nat)
    requires n < |lines|
  {
    match LineRun(lines, n)
    case Some(Mismatched(m, d)) =>
      LineInDocument(lines, n);
      var ts := LineTokens(lines);
      var open := ts[LineOpener(lines, n).value].ch;
      exists e :: 0 <= e <= |ts[m..]| && Surplus(ts[m..][..e], open, CloserOf(open)) >= d
    case _ => false
  }

  lemma FoldCountsFrom(lines: seq<string>, n: nat, k: nat)
    requires n < |lines| && LineOpener(lines, n) == Some(k)
    ensures var ts := LineTokens(lines);
            && k < |ts| && IsOpen(ts[k].ch)
            && FoldOf(lines, n) == match CountKind(ts[k + 1..], ts[k].ch, CloserOf(ts[k].ch), 1)
                                   case Left(_) => None
                                   case Found(pos) => Some(Range(ts[k].pos + 1, pos))
  {
    LineInDocument(lines, n);
  }

  /** Whatever the rest of the document looks like, a line folds as the matcher calls for unless it is misled, and then it
      folds where there is nothing to fold. */
  lemma FoldIsRightIff(lines: seq<string>, n: nat)
    requires n < |lines|
    ensures FoldOf(lines, n) == MatcherFold(lines, n) <==> !IsMisled(lines, n)
    ensures IsMisled(lines, n) ==> FoldOf(lines, n).Some? && MatcherFold(lines, n) == None
  {
    if LineOpener(lines, n).Some? {
      var ts, k := LineTokens(lines), LineOpener(lines, n).value;
      FoldCountsFrom(lines, n, k);
      var open := ts[k].ch;
      assert Pop([k]) == [];
      CountFollowsTheRun(ts, k + 1, [k]);
      if Run(ts, k + 1, [k]).Mismatched? {
        CountEndsIff(ts[Run(ts, k + 1, [k]).at..], open, CloserOf(open), Run(ts, k + 1, [k]).pending);
      }
    }
  }

  /** Every line of a well-nested document folds exactly to the closer the two-kind matcher pairs with the
      line's last bracket, when that is an opener, and does not fold otherwise. */
  lemma FoldAgreesWithMatcher(lines: seq<string>, n: nat)
    requires StringsEndOnTheirLine(lines) && Matching(DocumentTokens(lines)).Some? && n < |lines|
    ensures var ts, m := DocumentTokens(lines), Matching(DocumentTokens(lines)).value;
            match LineOpener(lines, n)
            case None => FoldOf(lines, n) == None
            case Some(k) =>
              && k < |ts| && IsOpen(ts[k].ch) && k in m && k < m[k] < |ts|
              && FoldOf(lines, n) == Some(Range(ts[k].pos + 1, ts[m[k]].pos))
    ensures !IsMisled(lines, n)
  {
    DocumentLexesByLine(lines);
    LineInDocument(lines, n);
    FoldIsRightIff(lines, n);
    if LineOpener(lines, n).Some? {
      RunAgreesWithMatcher(DocumentTokens(lines), 0, [], map[], LineOpener(lines, n).value);
    }
  }

  predicate NestedOrDisjoint(a: Range, b: Range) {
    a.to <= b.from || b.to <= a.from || (a.from <= b.from && b.to <= a.to) || (b.from <= a.from && a.to <= b.to)
  }

  /** Brackets `k` and `c` open and close a run. */
  ghost predicate IsPair(ts: seq<Bracket>, k: nat, c: nat) {
    k < c < |ts| && IsOpen(ts[k].ch) && Run(ts, k + 1, [k]) == Closed(c)
  }

  lemma PairsNest(ts: seq<Bracket>, k1: nat, c1: nat, k2: nat, c2: nat)
    requires IsPair(ts, k1, c1) && IsPair(ts, k2, c2) && k1 < k2
    ensures c1 < k2 || c2 < c1
  {
    if k2 < c1 {
      InnerRunEndsInside(ts, k1 + 1, [k1], k2);
    }
  }

  lemma FoldIsPair(lines: seq<string>, n: nat) returns (k: nat, c: nat)
    requires n < |lines| && FoldOf(lines, n).Some? && !IsMisled(lines, n)
    ensures TokensBefore(lines, n) <= k < TokensBefore(lines, n + 1)
    ensures var ts := LineTokens(lines);
            IsPair(ts, k, c) && FoldOf(lines, n).value == Range(ts[k].pos + 1, ts[c].pos)
  {
    LineInDocument(lines, n);
    FoldIsRightIff(lines, n);
    k := LineOpener(lines, n).value;
    c := Run(LineTokens(lines), k + 1, [k]).at;
  }

  lemma {:induction false} TokensInOrder(lines: seq<string>, n: nat)
    requires n <= |lines|
    ensures InOrder(TokensFrom(lines, n), LineFrom(lines, n), LineFrom(lines, |lines|))
    ensures LineFrom(lines, n) <= LineFrom(lines, |lines|)
    decreases |lines| - n
  {
    if n < |lines| {
      TokensInOrder(lines, n + 1);
      LexFindsBrackets(lines[n], LineFrom(lines, n), Plain);
      InOrderConcat(Lex(lines[n], LineFrom(lines, n), Plain), TokensFrom(lines, n + 1), LineFrom(lines, n),
                    LineFrom(lines, n) + |lines[n]|, LineFrom(lines, n + 1), LineFrom(lines, |lines|));
    }
  }

  lemma InOrderConcat(x: seq<Bracket>, y: seq<Bracket>, lo: nat, a: nat, b: nat, hi: nat)
    requires InOrder(x, lo, a) && InOrder(y, b, hi) && lo <= a <= b <= hi
    ensures InOrder(x + y, lo, hi)
  {
  }

  lemma PositionsNest(ts: seq<Bracket>, lo: nat, hi: nat, k1: nat, c1: nat, k2: nat, c2: nat)
    requires InOrder(ts, lo, hi) && k1 < c1 < |ts| && k1 < k2 < c2 < |ts| && (c1 < k2 || c2 < c1)
    ensures NestedOrDisjoint(Range(ts[k1].pos + 1, ts[c1].pos), Range(ts[k2].pos + 1, ts[c2].pos))
  {
  }

  /** Two folds never overlap partially, unless one of them is misled. */
  lemma FoldsAreNestedOrDisjoint(lines: seq<string>, n1: nat, n2: nat)
    requires n1 < n2 < |lines|
    requires FoldOf(lines, n1).Some? && FoldOf(lines, n2).Some? && !IsMisled(lines, n1) && !IsMisled(lines, n2)
    ensures NestedOrDisjoint(FoldOf(lines, n1).value, FoldOf(lines, n2).value)
  {
    var ts := LineTokens(lines);
    var k1, c1 := FoldIsPair(lines, n1);
    var k2, c2 := FoldIsPair(lines, n2);
    TokensBeforeGrows(lines, n1 + 1, n2);
    PairsNest(ts, k1, c1, k2, c2);
    TokensInOrder(lines, 0);
    PositionsNest(ts, 0, LineFrom(lines, |lines|), k1, c1, k2, c2);
  }

  lemma {:induction false} TokensBeforeGrows(lines: seq<string>, a: nat, b: nat)
    requires a <= b <= |lines|
    ensures TokensBefore(lines, a) <= TokensBefore(lines, b)
  {
    if a < b {
      TokensBeforeGrows(lines, a, b - 1);
    }
  }

  /** Without proper nesting the count may close a bracket the matcher rejects. */
  lemma MismatchedTextMayStillFold()
    ensures var lines := ["{", "]", "}"];
            Matching(DocumentTokens(lines)) == None && FoldOf(lines, 0) == Some(Range(1, 4))
  {
    var lines := ["{", "]", "}"];
    assert Join(lines, "\n") == "{\n]\n}" by {
      assert lines[1..] == ["]", "}"] && lines[1..][1..] == ["}"];
    }
    var text := "{\n]\n}";
    assert text[1..] == "\n]\n}" && text[1..][1..] == "]\n}" && text[1..][1..][1..] == "\n}" && text[1..][1..][1..][1..] == "}";
    var ts := Lex(text, 0, Plain);
    assert ts == [Bracket('{', 0), Bracket(']', 2), Bracket('}', 4)];
    assert Matching(ts) == MatchFrom(ts, 1, [] + [0], map[]) == None;
    assert Lex(lines[0], 0, Plain) == [Bracket('{', 0)];
    assert LineFrom(lines, 1) == 2 && LineFrom(lines, 2) == 4;
    assert TokensFrom(lines, 2) == [Bracket('}', 4)] + TokensFrom(lines, 3);
    assert TokensFrom(lines, 1) == [Bracket(']', 2)] + TokensFrom(lines, 2);
    assert TokensFrom(lines, 1)[1..] == TokensFrom(lines, 2);
  }
}
