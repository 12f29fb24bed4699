/** What the folding functions see of the text itself: brackets stand where the text has them, strings hide theirs, and a
    fold runs from behind an opening bracket to its closing one. */
module FoldText {
  import opened Fold
  import opened Options
  import opened Sequences
  import opened Text

  // ----- strings hide their brackets (section 7 of RFC 8259) -----

  /** The inside of a string: characters other than the quotation mark and the backslash, and escapes, a backslash with
      any character behind it. */
  predicate IsStringBody(t: string) {
    t == "" ||
    (if t[0] == '\\' then |t| > 1 && IsStringBody(t[2..]) else t[0] != '"' && IsStringBody(t[1..]))
  }

  lemma {:induction false} BodyIsHidden(t: string, rest: string, base: nat)
    requires IsStringBody(t)
    ensures Lex(t + rest, base, InString) == Lex(rest, base + |t|, InString)
    decreases |t|
  {
    if t == "" {
      assert t + rest == rest;
    } else if t[0] == '\\' {
      var s := t + rest;
      assert s[0] == t[0] && s[1..][0] == t[1] && s[1..][1..] == t[2..] + rest;
      BodyIsHidden(t[2..], rest, base + 2);
    } else {
      assert (t + rest)[0] == t[0] && (t + rest)[1..] == t[1..] + rest;
      BodyIsHidden(t[1..], rest, base + 1);
    }
  }

  /** Whatever a string holds, escaped quotation marks included, none of its brackets is seen. */
  lemma StringIsHidden(t: string, rest: string, base: nat)
    requires IsStringBody(t)
    ensures Lex("\"" + (t + ("\"" + rest)), base, Plain) == Lex(rest, base + |t| + 2, Plain)
  {
    var tail := "\"" + rest;
    assert ("\"" + (t + tail))[1..] == t + tail && tail[1..] == rest;
    BodyIsHidden(t, tail, base + 1);
  }

  /** A text as a JSON string. */
  function Escaped(s: string): string {
    if s == "" then "" else (if s[0] == '"' || s[0] == '\\' then ['\\', s[0]] else [s[0]]) + Escaped(s[1..])
  }

  function Quote(s: string): string {
    "\"" + (Escaped(s) + "\"")
  }

  lemma {:induction false} EscapedIsBody(s: string)
    ensures IsStringBody(Escaped(s))
  {
    if s != "" {
      EscapedIsBody(s[1..]);
      var t := Escaped(s);
      if s[0] == '"' || s[0] == '\\' {
        assert t[2..] == Escaped(s[1..]);
      } else {
        assert t[1..] == Escaped(s[1..]);
      }
    }
  }

  lemma QuoteIsHidden(s: string, rest: string, base: nat)
    ensures Lex(Quote(s) + rest, base, Plain) == Lex(rest, base + |Quote(s)|, Plain)
  {
    EscapedIsBody(s);
    StringIsHidden(Escaped(s), rest, base);
    Assoc("\"", Escaped(s) + "\"", rest);
    Assoc(Escaped(s), "\"", rest);
  }

  // ----- brackets stand where the text has them -----

  /** The character is one of the four brackets. */
  predicate IsOneOfFour(c: char) {
    c in {'{', '}', '[', ']'}
  }

  /** Every bracket found is in the text, at its position. */
  lemma {:induction false} FoundIsThere(text: string, base: nat, st: LexState, k: nat)
    requires k < |Lex(text, base, st)|
    ensures var b := Lex(text, base, st)[k];
            base <= b.pos < base + |text| && text[b.pos - base] == b.ch && IsOneOfFour(b.ch)
  {
    var here := st == Plain && IsBracket(text[0]);
    if !here {
      FoundIsThere(text[1..], base + 1, Next(st, text[0]), k);
    } else if k > 0 {
      FoundIsThere(text[1..], base + 1, Next(st, text[0]), k - 1);
    }
  }

  /** In text without quotation marks every bracket is found. */
  lemma {:induction false} AllAreFound(text: string, base: nat, p: nat)
    requires '"' !in text && p < |text| && IsOneOfFour(text[p])
    ensures Bracket(text[p], base + p) in Lex(text, base, Plain)
  {
    if p > 0 {
      AllAreFound(text[1..], base + 1, p - 1);
    }
  }

  /** Without quotation marks the brackets found are exactly those of the text, with their positions. */
  lemma PlainTextTokens(text: string, base: nat, b: Bracket)
    requires '"' !in text
    ensures b in Lex(text, base, Plain) <==> base <= b.pos < base + |text| && text[b.pos - base] == b.ch && IsOneOfFour(b.ch)
  {
    if b in Lex(text, base, Plain) {
      var k :| 0 <= k < |Lex(text, base, Plain)| && Lex(text, base, Plain)[k] == b;
      FoundIsThere(text, base, Plain, k);
    }
    if base <= b.pos < base + |text| && text[b.pos - base] == b.ch && IsOneOfFour(b.ch) {
      AllAreFound(text, base, b.pos - base);
    }
  }

  // ----- a fold in the document's own text -----

  lemma {:induction false} LineLength(lines: seq<string>, n: nat)
    requires n < |lines|
    ensures LineFrom(lines, n) + |Join(lines[n..], "\n")| == |Join(lines, "\n")|
    ensures Join(lines, "\n")[LineFrom(lines, n)..] == Join(lines[n..], "\n")
  {
    if n == 0 {
      assert lines[0..] == lines;
    } else {
      LineLength(lines, n - 1);
      var rest := lines[n - 1..];
      assert rest[1..] == lines[n..];
      var doc, from := Join(lines, "\n"), LineFrom(lines, n - 1);
      PrefixCut(lines[n - 1] + "\n", Join(lines[n..], "\n"));
      assert doc[from..][|lines[n - 1]| + 1..] == doc[from + |lines[n - 1]| + 1..];
    }
  }

  /** Character `p` of line `n`, seen in the document. */
  lemma LineInText(lines: seq<string>, n: nat, p: nat)
    requires n < |lines| && p < |lines[n]|
    ensures var doc := Join(lines, "\n");
            LineFrom(lines, n) + p < |doc| && doc[LineFrom(lines, n) + p] == lines[n][p]
  {
    var doc, from, rest := Join(lines, "\n"), LineFrom(lines, n), lines[n..];
    LineLength(lines, n);
    assert Join(rest, "\n")[p] == lines[n][p] by {
      if |rest| == 1 { assert Join(rest, "\n") == lines[n]; }
    }
    assert doc[from..][p] == doc[from + p];
  }

  lemma {:induction false} TokenInText(lines: seq<string>, n: nat, k: nat)
    requires n <= |lines| && k < |TokensFrom(lines, n)|
    ensures var b, doc := TokensFrom(lines, n)[k], Join(lines, "\n");
            b.pos < |doc| && doc[b.pos] == b.ch
    decreases |lines| - n
  {
    var here := Lex(lines[n], LineFrom(lines, n), Plain);
    if k < |here| {
      FoundIsThere(lines[n], LineFrom(lines, n), Plain, k);
      LineInText(lines, n, here[k].pos - LineFrom(lines, n));
    } else {
      TokenInText(lines, n + 1, k - |here|);
    }
  }

  lemma {:induction false} FoundEndsAtCloser(ts: seq<Bracket>, open: char, close: char, depth: int) returns (k: nat)
    requires depth >= 1 && CountKind(ts, open, close, depth).Found? && open != close
    ensures k < |ts| && ts[k].ch == close && CountKind(ts, open, close, depth) == Found(ts[k].pos)
  {
    if DepthAfter(ts[0].ch, open, close, depth) == 0 {
      k := 0;
    } else {
      k := FoundEndsAtCloser(ts[1..], open, close, DepthAfter(ts[0].ch, open, close, depth));
      k := k + 1;
    }
  }

  /** In the document's text a fold begins right behind an opening bracket and ends right before a closing one of its kind. */
  lemma FoldIsInText(lines: seq<string>, n: nat)
    requires n < |lines| && FoldOf(lines, n).Some?
    ensures var doc, r := Join(lines, "\n"), FoldOf(lines, n).value;
            && 1 <= r.from <= |doc| && r.to < |doc|
            && ((doc[r.from - 1] == '{' && doc[r.to] == '}') || (doc[r.from - 1] == '[' && doc[r.to] == ']'))
  {
    var own := Lex(lines[n], 0, Plain);
    var opener := own[|own| - 1];
    FoundIsThere(lines[n], 0, Plain, |own| - 1);
    LineInText(lines, n, opener.pos);
    var k := FoundEndsAtCloser(TokensFrom(lines, n + 1), opener.ch, CloserOf(opener.ch), 1);
    TokenInText(lines, n + 1, k);
  }

  /** A bracket in a string between two others does not count, whatever else the string holds. */
  lemma FoldSkipsStrings(s: string)
    ensures FoldOf(["[", Quote(s), "]"], 0) == Some(Range(1, |Quote(s)| + 3))
  {
    var lines := ["[", Quote(s), "]"];
    QuoteIsHidden(s, "", 2);
    assert Quote(s) + "" == Quote(s) && Lex("", 2 + |Quote(s)|, Plain) == [];
    assert LineFrom(lines, 1) == 2 && LineFrom(lines, 2) == |Quote(s)| + 3;
    var close := Bracket(']', |Quote(s)| + 3);
    assert Lex("]", |Quote(s)| + 3, Plain) == [close];
    assert TokensFrom(lines, 3) == [] && TokensFrom(lines, 2) == [close] + TokensFrom(lines, 3);
    assert TokensFrom(lines, 1) == [] + TokensFrom(lines, 2);
    assert TokensFrom(lines, 1) == [close];
    assert Lex("[", 0, Plain) == [Bracket('[', 0)];
  }
}
