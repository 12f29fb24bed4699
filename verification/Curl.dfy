/** The curl commands of the replay library (internal/server/case_curl.go and `shellQuote` of launch_api.go).

    A printed command is read back by a tokenizer written from sections 2.2.1, 2.2.2 and 2.3 of the Shell Command
    Language (POSIX.1-2017, XCU): it yields exactly the intended argument vector. */
module Curl {
  import opened Options
  import opened Sequences
  import opened Text


  // ----- the shell's reading of a simple command -----

  /** Characters that stand for themselves outside quotes. */
  predicate IsPlainChar(c: char) {
    'a' <= c <= 'z' || 'A' <= c <= 'Z' || '0' <= c <= '9' || c == '-' || c == '_' || c == '.'
  }

  predicate IsPlainWord(w: string) {
    w != "" && forall i :: 0 <= i < |w| ==> IsPlainChar(w[i])
  }

  datatype Mode = Unquoted | SingleQuoted

  function Complete(cur: Option<string>, rest: Option<seq<string>>): Option<seq<string>> {
    if cur == None || rest == None then rest else Some([cur.value] + rest.value)
  }

  function Extend(cur: Option<string>, s: string): Option<string> {
    Some((if cur == None then "" else cur.value) + s)
  }

  /** The words of `s`, given the word begun so far.  Nothing for an unclosed quote, a NUL, and every unquoted
      character that would be an operator, a newline or the start of an expansion. */
  function Words(s: string, mode: Mode, cur: Option<string>): Option<seq<string>>
    decreases |s|
  {
    if s == "" then
      if mode == SingleQuoted then None else Complete(cur, Some([]))
    else if mode == SingleQuoted then
      // 2.2.2: everything up to the next single-quote is literal
      if s[0] == NUL then None
      else if s[0] == '\'' then Words(s[1..], Unquoted, cur)
      else Words(s[1..], SingleQuoted, Extend(cur, [s[0]]))
    else if s[0] == '\\' then
      // 2.2.1: the next character is literal, except that an escaped newline disappears
      if |s| == 1 || s[1] == NUL then None
      else if s[1] == '\n' then Words(s[2..], Unquoted, cur)
      else Words(s[2..], Unquoted, Extend(cur, [s[1]]))
    else if s[0] == '\'' then Words(s[1..], SingleQuoted, Extend(cur, ""))
    // 2.3: a blank delimits the current word
    else if s[0] == ' ' || s[0] == '\t' then Complete(cur, Words(s[1..], Unquoted, None))
    else if IsPlainChar(s[0]) then Words(s[1..], Unquoted, Extend(cur, [s[0]]))
    else None
  }

  function Tokenize(s: string): Option<seq<string>> {
    Words(s, Unquoted, None)
  }

  // ----- quoting -----

  /** `strings.ReplaceAll(s, "'", "'\\''")`. */
  function Escape(s: string): string {
    if s == "" then "" else (if s[0] == '\'' then "'\\''" else [s[0]]) + Escape(s[1..])
  }

  function ShellQuote(s: string): string {
    "'" + Escape(s) + "'"
  }

  predicate NulFree(s: string) {
    NUL !in s
  }

  lemma {:induction false} NulIsRejected(s: string, mode: Mode, cur: Option<string>)
    requires !NulFree(s)
    ensures Words(s, mode, cur) == None
    decreases |s|
  {
    assert NUL in s[1..] || s[0] == NUL;
    if |s| >= 2 { assert NUL in s[2..] || s[1] == NUL || s[0] == NUL; }
    if s[0] != NUL {
      if mode == Unquoted && s[0] == '\\' {
        if |s| >= 2 && s[1] != NUL {
          NulIsRejected(s[2..], Unquoted, if s[1] == '\n' then cur else Extend(cur, [s[1]]));
        }
      } else if mode == SingleQuoted {
        NulIsRejected(s[1..], if s[0] == '\'' then Unquoted else mode, if s[0] == '\'' then cur else Extend(cur, [s[0]]));
      } else if s[0] == '\'' {
        NulIsRejected(s[1..], SingleQuoted, Extend(cur, ""));
      } else if s[0] == ' ' || s[0] == '\t' {
        NulIsRejected(s[1..], Unquoted, None);
      } else if IsPlainChar(s[0]) {
        NulIsRejected(s[1..], Unquoted, Extend(cur, [s[0]]));
      }
    }
  }

  lemma OneLiteral(c: char, rest: string, cur: string)
    requires c != NUL
    ensures Words((if c == '\'' then "'\\''" else [c]) + rest, SingleQuoted, Some(cur)) == Words(rest, SingleQuoted, Some(cur + [c]))
  {
    if c == '\'' {
      var s := "'\\''" + rest;
      var s1, s3 := s[1..], s[1..][2..];
      assert s[0] == '\'' && s1[0] == '\\' && s1[1] == '\'' && s3[0] == '\'' && s3[1..] == rest;
      assert Words(s, SingleQuoted, Some(cur)) == Words(s1, Unquoted, Some(cur));
      assert Words(s1, Unquoted, Some(cur)) == Words(s3, Unquoted, Some(cur + [c]));
      assert cur + [c] + "" == cur + [c];
    } else {
      assert ([c] + rest)[1..] == rest;
    }
  }

  lemma {:induction false} EscapedReadsBack(s: string, rest: string, cur: string)
    requires NulFree(s)
    ensures Words(Escape(s) + ("'" + rest), SingleQuoted, Some(cur)) == Words(rest, Unquoted, Some(cur + s))
  {
    if s == "" {
      assert Escape(s) + ("'" + rest) == "'" + rest && ("'" + rest)[1..] == rest && cur + s == cur;
    } else {
      var first := if s[0] == '\'' then "'\\''" else [s[0]];
      Assoc(first, Escape(s[1..]), "'" + rest);
      OneLiteral(s[0], Escape(s[1..]) + ("'" + rest), cur);
      EscapedReadsBack(s[1..], rest, cur + [s[0]]);
      Assoc(cur, [s[0]], s[1..]);
      ConsTail(s);
    }
  }

  /** A quoted string is read back as one word, whatever it contains. */
  lemma QuotedReadsBack(s: string, rest: string)
    requires NulFree(s)
    ensures Words(ShellQuote(s) + rest, Unquoted, None) == Words(rest, Unquoted, Some(s))
  {
    var body := Escape(s) + ("'" + rest);
    Assoc("'" + Escape(s), "'", rest);
    Assoc("'", Escape(s), "'" + rest);
    PrefixCut("'", body);
    EscapedReadsBack(s, rest, "");
    assert "" + s == s;
    assert "" + "" == "";
  }

  lemma {:induction false} PlainReadsBack(w: string, rest: string, cur: Option<string>)
    requires forall i :: 0 <= i < |w| ==> IsPlainChar(w[i])
    ensures w != "" || cur.Some? ==> Words(w + rest, Unquoted, cur) == Words(rest, Unquoted, Extend(cur, w))
  {
    if w == "" {
      assert w + rest == rest;
      if cur.Some? { assert cur.value + w == cur.value; }
    } else {
      assert (w + rest)[1..] == w[1..] + rest;
      var cur' := Extend(cur, [w[0]]);
      PlainReadsBack(w[1..], rest, cur');
      Assoc(if cur == None then "" else cur.value, [w[0]], w[1..]);
      ConsTail(w);
    }
  }

  // ----- the printed text and its argument vector -----

  const BREAK := " \\\n  "

  /** An option with its quoted operand on a continuation line. */
  function OptionText(flag: string, operand: string): string {
    BREAK + (flag + (" " + ShellQuote(operand)))
  }

  function HeadersText(headers: seq<string>): string {
    if headers == [] then "" else OptionText("-H", headers[0]) + HeadersText(headers[1..])
  }

  function BodyText(body: string): string {
    if body == "" then "" else OptionText("--data-raw", body)
  }

  function CommandText(method_: string, target: string, headers: seq<string>, body: string): string {
    "curl -X " + (method_ + (" " + (ShellQuote(target) + (HeadersText(headers) + BodyText(body)))))
  }

  function HeaderArgs(headers: seq<string>): seq<string> {
    if headers == [] then [] else ["-H", headers[0]] + HeaderArgs(headers[1..])
  }

  function BodyArgs(body: string): seq<string> {
    if body == "" then [] else ["--data-raw", body]
  }

  function Argv(method_: string, target: string, headers: seq<string>, body: string): seq<string> {
    ["curl", "-X", method_, target] + (HeaderArgs(headers) + BodyArgs(body))
  }

  lemma BreakDelimits(w: string, rest: string)
    ensures Words(BREAK + rest, Unquoted, Some(w)) == Complete(Some(w), Words(rest, Unquoted, None))
  {
    var s := BREAK + rest;
    var s1, s3 := s[1..], s[1..][2..];
    var s4 := s3[1..];
    assert s[0] == ' ' && s1[0] == '\\' && s1[1] == '\n' && s3[0] == ' ' && s4[0] == ' ' && s4[1..] == rest;
    assert Words(s1, Unquoted, None) == Words(s3, Unquoted, None);
    assert Words(s4, Unquoted, None) == Words(rest, Unquoted, None);
  }

  lemma SpaceDelimits(w: string, rest: string)
    ensures Words(" " + rest, Unquoted, Some(w)) == Complete(Some(w), Words(rest, Unquoted, None))
  {
    PrefixCut(" ", rest);
  }

  lemma OptionReadsBack(w: string, flag: string, operand: string, rest: string)
    requires IsPlainWord(flag) && NulFree(operand)
    ensures Words(OptionText(flag, operand) + rest, Unquoted, Some(w))
         == Complete(Some(w), Complete(Some(flag), Words(rest, Unquoted, Some(operand))))
  {
    var q := ShellQuote(operand);
    Assoc(BREAK, flag + (" " + q), rest);
    BreakDelimits(w, (flag + (" " + q)) + rest);
    Assoc(flag, " " + q, rest);
    PlainReadsBack(flag, (" " + q) + rest, None);
    assert "" + flag == flag;
    Assoc(" ", q, rest);
    SpaceDelimits(flag, q + rest);
    QuotedReadsBack(operand, rest);
  }

  lemma BodyReadsBack(w: string, body: string)
    requires NulFree(body)
    ensures Words(BodyText(body), Unquoted, Some(w)) == Some([w] + BodyArgs(body))
  {
    if body != "" {
      DataRawIsPlain();
      OptionReadsBack(w, "--data-raw", body, "");
      assert OptionText("--data-raw", body) + "" == OptionText("--data-raw", body);
      assert Words("", Unquoted, Some(body)) == Some([body] + []);
      assert ["--data-raw"] + ([body] + []) == ["--data-raw", body];
    } else {
      assert [w] + [] == [w];
    }
  }

  lemma DataRawIsPlain()
    ensures IsPlainWord("--data-raw") && IsPlainWord("-H") && IsPlainWord("curl") && IsPlainWord("-X")
  {
  }

  lemma {:induction false} HeadersReadBack(w: string, headers: seq<string>, body: string)
    requires (forall i :: 0 <= i < |headers| ==> NulFree(headers[i])) && NulFree(body)
    ensures Words(HeadersText(headers) + BodyText(body), Unquoted, Some(w)) == Some([w] + (HeaderArgs(headers) + BodyArgs(body)))
    decreases |headers|
  {
    if headers == [] {
      BodyReadsBack(w, body);
      assert HeadersText(headers) + BodyText(body) == BodyText(body);
      assert HeaderArgs(headers) + BodyArgs(body) == BodyArgs(body);
    } else {
      var rest := HeadersText(headers[1..]) + BodyText(body);
      Assoc(OptionText("-H", headers[0]), HeadersText(headers[1..]), BodyText(body));
      DataRawIsPlain();
      OptionReadsBack(w, "-H", headers[0], rest);
      HeadersReadBack(headers[0], headers[1..], body);
      var args := HeaderArgs(headers[1..]) + BodyArgs(body);
      Assoc(["-H", headers[0]], HeaderArgs(headers[1..]), BodyArgs(body));
      assert ["-H"] + ([headers[0]] + args) == ["-H", headers[0]] + args;
    }
  }

  predicate AllNulFree(target: string, headers: seq<string>, body: string) {
    NulFree(target) && NulFree(body) && forall i :: 0 <= i < |headers| ==> NulFree(headers[i])
  }

  lemma CurlReadsBack(rest: string)
    ensures Words("curl -X " + rest, Unquoted, None) == Complete(Some("curl"), Complete(Some("-X"), Words(rest, Unquoted, None)))
  {
    DataRawIsPlain();
    assert "curl -X " + rest == "curl" + (" " + ("-X" + (" " + rest)));
    PlainReadsBack("curl", " " + ("-X" + (" " + rest)), None);
    SpaceDelimits("curl", "-X" + (" " + rest));
    PlainReadsBack("-X", " " + rest, None);
    SpaceDelimits("-X", rest);
    assert "" + "curl" == "curl" && "" + "-X" == "-X";
  }

  lemma CommandReadsBack(method_: string, target: string, headers: seq<string>, body: string)
    requires IsPlainWord(method_) && AllNulFree(target, headers, body)
    ensures Tokenize(CommandText(method_, target, headers, body)) == Some(Argv(method_, target, headers, body))
  {
    var tail := HeadersText(headers) + BodyText(body);
    CurlReadsBack(method_ + (" " + (ShellQuote(target) + tail)));
    MethodAndTargetReadBack(method_, target, tail);
    HeadersReadBack(target, headers, body);
    FourWords("curl", "-X", method_, target, HeaderArgs(headers) + BodyArgs(body));
  }

  lemma MethodAndTargetReadBack(method_: string, target: string, tail: string)
    requires IsPlainWord(method_) && NulFree(target)
    ensures Words(method_ + (" " + (ShellQuote(target) + tail)), Unquoted, None)
         == Complete(Some(method_), Words(tail, Unquoted, Some(target)))
  {
    PlainReadsBack(method_, " " + (ShellQuote(target) + tail), None);
    assert "" + method_ == method_;
    SpaceDelimits(method_, ShellQuote(target) + tail);
    QuotedReadsBack(target, tail);
  }

  lemma FourWords(a: string, b: string, c: string, d: string, rest: seq<string>)
    ensures [a] + ([b] + ([c] + ([d] + rest))) == [a, b, c, d] + rest
  {
  }

  lemma {:induction false} NulSurvivesEscape(s: string)
    ensures NulFree(Escape(s)) ==> NulFree(s)
  {
    if s != "" {
      NulSurvivesEscape(s[1..]);
      ConsTail(s);
    }
  }

  lemma NulSurvivesQuote(s: string)
    ensures NulFree(ShellQuote(s)) ==> NulFree(s)
  {
    NulSurvivesEscape(s);
  }

  lemma {:induction false} NulSurvivesHeaders(headers: seq<string>)
    ensures NulFree(HeadersText(headers)) ==> forall i :: 0 <= i < |headers| ==> NulFree(headers[i])
  {
    if headers != [] {
      NulSurvivesHeaders(headers[1..]);
      NulSurvivesQuote(headers[0]);
      ConsTail(headers);
    }
  }

  /** The command reads back as its argument vector exactly when no part contains a NUL, which no
      argument of a process can. */
  lemma CommandReadsBackIff(method_: string, target: string, headers: seq<string>, body: string)
    requires IsPlainWord(method_)
    ensures Tokenize(CommandText(method_, target, headers, body)) ==
            if AllNulFree(target, headers, body) then Some(Argv(method_, target, headers, body)) else None
  {
    if AllNulFree(target, headers, body) {
      CommandReadsBack(method_, target, headers, body);
    } else {
      var s := CommandText(method_, target, headers, body);
      NulSurvivesQuote(target);
      NulSurvivesHeaders(headers);
      NulSurvivesQuote(body);
      assert !NulFree(s);
      NulIsRejected(s, Unquoted, None);
    }
  }

  /** The argument vector, place by place. */
  lemma {:induction false} HeaderArgsAre(headers: seq<string>, k: nat)
    requires k < |headers|
    ensures |HeaderArgs(headers)| == 2 * |headers| && HeaderArgs(headers)[2 * k] == "-H" && HeaderArgs(headers)[2 * k + 1] == headers[k]
  {
    HeaderArgsLength(headers);
    if k > 0 {
      HeaderArgsAre(headers[1..], k - 1);
    }
  }

  lemma {:induction false} HeaderArgsLength(headers: seq<string>)
    ensures |HeaderArgs(headers)| == 2 * |headers|
  {
    if headers != [] {
      HeaderArgsLength(headers[1..]);
    }
  }

  lemma ArgvIs(method_: string, target: string, headers: seq<string>, body: string, k: nat)
    requires k < |headers|
    ensures var argv, n := Argv(method_, target, headers, body), 4 + 2 * |headers|;
            && |argv| == n + (if body == "" then 0 else 2) && argv[..4] == ["curl", "-X", method_, target]
            && argv[4 + 2 * k] == "-H" && argv[5 + 2 * k] == headers[k]
            && (body != "" ==> argv[n] == "--data-raw" && argv[n + 1] == body)
  {
    HeaderArgsAre(headers, k);
  }
}
