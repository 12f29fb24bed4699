/** What each line of a server-sent-event stream contributes, for any way a server may write it: a blank after the colon
    or none, blanks around a name, several names, comments, and lines that end in a carriage return. */
module SseFields {
  import opened Sequences
  import opened Sse
  import opened Text

  /** A line, as its writer means it. */
  datatype Field =
    | Name(before: string, name: string, behind: string)
    | Data(blank: bool, value: string)
    | Comment(text: string)

  predicate AreBlanks(s: string) {
    forall i :: 0 <= i < |s| ==> s[i] == ' ' || s[i] == '\t'
  }

  /** A value that does not end in a carriage return, and begins with a blank only behind a further blank. */
  predicate IsField(f: Field) {
    match f
    case Name(before, name, behind) => AreBlanks(before) && IsTrimmed(name) && AreBlanks(behind) && '\n' !in name
    case Data(blank, v) => '\n' !in v && (v != "" ==> v[|v| - 1] != '\r') && (blank || v == "" || v[0] != ' ')
    case Comment(text) => '\n' !in text
  }

  predicate AreFields(fs: seq<Field>) {
    forall k :: 0 <= k < |fs| ==> IsField(fs[k])
  }

  function LineOf(f: Field): string {
    match f
    case Name(before, name, behind) => "event:" + (before + (name + behind))
    case Data(blank, v) => "data:" + (if blank then " " + v else v)
    case Comment(text) => ":" + text
  }

  function LinesOf(fs: seq<Field>): seq<string> {
    if fs == [] then [] else [LineOf(fs[0])] + LinesOf(fs[1..])
  }

  /** The name given last, or `name`. */
  function LastName(fs: seq<Field>, name: string): string {
    if fs == [] then name else LastName(fs[1..], if fs[0].Name? then fs[0].name else name)
  }

  /** The values given, in order. */
  function Values(fs: seq<Field>): seq<string> {
    if fs == [] then [] else (if fs[0].Data? then [fs[0].value] else []) + Values(fs[1..])
  }

  /** The event of one group of lines: its last name and its values, a newline between; none if it has neither, or is the
      end marker. */
  function EventOf(fs: seq<Field>): seq<SSEEvent> {
    var name, data := LastName(fs, ""), Join(Values(fs), "\n");
    if (name == "" && Values(fs) == []) || data == "[DONE]" then [] else [SSEEvent(name, data)]
  }

  lemma KeepsItsEnd(prefix: string, w: string)
    requires prefix != "" && prefix[|prefix| - 1] != '\r' && (w == "" || w[|w| - 1] != '\r')
    ensures DropCR(prefix + w) == prefix + w && prefix + w != ""
  {
    if w == "" { assert prefix + w == prefix; }
  }

  lemma NameEnd(before: string, name: string, behind: string)
    requires AreBlanks(before) && IsTrimmed(name) && AreBlanks(behind)
    ensures var v := before + (name + behind);
            v == "" || v[|v| - 1] != '\r'
  {
  }

  lemma NameLine(before: string, name: string, behind: string, p: Pending)
    requires IsField(Name(before, name, behind))
    ensures var line := DropCR(LineOf(Name(before, name, behind)));
            line != "" && Collect(p, line) == p.(name := name)
  {
    hide Trim, IsTrimmed;
    var v := before + (name + behind);
    PrefixCut("event:", v);
    NameEnd(before, name, behind);
    KeepsItsEnd("event:", v);
    TrimStrips(before, name, behind);
    assert !HasPrefix("event:" + v, ":");
  }

  lemma DataLineOf(blank: bool, v: string, p: Pending)
    requires IsField(Data(blank, v))
    ensures var line := DropCR(LineOf(Data(blank, v)));
            line != "" && Collect(p, line) == p.(data := p.data + [v])
  {
    var w := if blank then " " + v else v;
    PrefixCut("data:", w);
    PrefixCut(" ", v);
    KeepsItsEnd("data:", w);
    assert ("data:" + w)[0] == 'd';
  }

  lemma CommentLine(text: string, p: Pending)
    ensures var line := DropCR(LineOf(Comment(text)));
            line != "" && Collect(p, line) == p
  {
    assert (":" + text)[0] == ':' && DropCR(":" + text)[0] == ':';
  }

  lemma FieldLine(f: Field, p: Pending)
    requires IsField(f)
    ensures var line := DropCR(LineOf(f));
            line != "" && Collect(p, line) == Pending(if f.Name? then f.name else p.name, p.data + if f.Data? then [f.value] else [])
  {
    match f {
      case Name(before, name, behind) => NameLine(before, name, behind, p);
      case Data(blank, v) => DataLineOf(blank, v, p);
      case Comment(text) => CommentLine(text, p);
    }
    assert p.data + [] == p.data;
  }

  lemma {:induction false} GroupEvents(fs: seq<Field>, p: Pending, rest: seq<string>)
    requires AreFields(fs)
    ensures Events(DropCRs(LinesOf(fs)) + ([""] + rest), p)
         == Emit(Pending(LastName(fs, p.name), p.data + Values(fs))) + Events(rest, FRESH)
  {
    if fs == [] {
      EventsOfCons("", rest, p);
      assert DropCRs(LinesOf(fs)) + ([""] + rest) == [""] + rest && p.data + Values(fs) == p.data;
    } else {
      var line, tail := DropCR(LineOf(fs[0])), DropCRs(LinesOf(fs[1..]));
      var value := if fs[0].Data? then [fs[0].value] else [];
      FieldLine(fs[0], p);
      PrefixCut([LineOf(fs[0])], LinesOf(fs[1..]));
      assert DropCRs(LinesOf(fs)) == [line] + tail;
      Assoc([line], tail, [""] + rest);
      EventsOfCons(line, tail + ([""] + rest), p);
      GroupEvents(fs[1..], Collect(p, line), rest);
      Assoc(p.data, value, Values(fs[1..]));
    }
  }

  /** The lines of groups, each closed by a blank line. */
  function GroupLines(groups: seq<seq<Field>>): seq<string> {
    if groups == [] then [] else LinesOf(groups[0]) + ([""] + GroupLines(groups[1..]))
  }

  function EventsOf(groups: seq<seq<Field>>): seq<SSEEvent> {
    if groups == [] then [] else EventOf(groups[0]) + EventsOf(groups[1..])
  }

  lemma {:induction false} GroupsEvents(groups: seq<seq<Field>>)
    requires forall k :: 0 <= k < |groups| ==> AreFields(groups[k])
    ensures Events(DropCRs(GroupLines(groups)), FRESH) == EventsOf(groups)
  {
    if groups != [] {
      var fs, rest := groups[0], GroupLines(groups[1..]);
      GroupsEvents(groups[1..]);
      DropCRsConcat(LinesOf(fs), [""] + rest);
      DropCRsConcat([""], rest);
      assert DropCRs([""]) == [""];
      GroupEvents(fs, FRESH, DropCRs(rest));
      assert [] + Values(fs) == Values(fs);
    }
  }

  lemma {:induction false} LinesOfAreLines(fs: seq<Field>)
    requires AreFields(fs)
    ensures AreLines(LinesOf(fs))
  {
    if fs != [] {
      LinesOfAreLines(fs[1..]);
    }
  }

  lemma {:induction false} GroupLinesAreLines(groups: seq<seq<Field>>)
    requires forall k :: 0 <= k < |groups| ==> AreFields(groups[k])
    ensures AreLines(GroupLines(groups))
  {
    if groups != [] {
      GroupLinesAreLines(groups[1..]);
      LinesOfAreLines(groups[0]);
    }
  }

  /** Every stream means what its writer means, however each line is written. */
  lemma WrittenStreamParses(groups: seq<seq<Field>>)
    requires forall k :: 0 <= k < |groups| ==> AreFields(groups[k])
    ensures Parsed(Unlines(GroupLines(groups))) == EventsOf(groups)
  {
    GroupLinesAreLines(groups);
    UnlinesRoundTrip(GroupLines(groups));
    GroupsEvents(groups);
  }

  // ----- line ends -----

  /** The lines, each ended by a carriage return and a newline. */
  function UnlinesCRLF(ls: seq<string>): string {
    if ls == [] then "" else (ls[0] + "\r") + "\n" + UnlinesCRLF(ls[1..])
  }

  lemma {:induction false} CRLFLines(ls: seq<string>)
    requires AreLines(ls)
    ensures Lines(UnlinesCRLF(ls)) == ls
  {
    if ls != [] {
      var l := ls[0] + "\r";
      CRLFLines(ls[1..]);
      FirstLine(l, UnlinesCRLF(ls[1..]));
      assert DropCR(l) == ls[0];
      ConsTail(ls);
    }
  }

  lemma {:induction false} PlainLinesStay(ls: seq<string>)
    requires forall k :: 0 <= k < |ls| ==> ls[k] == "" || ls[k][|ls[k]| - 1] != '\r'
    ensures DropCRs(ls) == ls
  {
    if ls != [] {
      PlainLinesStay(ls[1..]);
      ConsTail(ls);
    }
  }

  /** Carriage returns before the newlines change nothing. */
  lemma CRLFIsLF(ls: seq<string>)
    requires AreLines(ls) && forall k :: 0 <= k < |ls| ==> ls[k] == "" || ls[k][|ls[k]| - 1] != '\r'
    ensures Parsed(UnlinesCRLF(ls)) == Parsed(Unlines(ls))
  {
    CRLFLines(ls);
    UnlinesRoundTrip(ls);
    PlainLinesStay(ls);
  }

  // ----- detection -----

  /** A blank, tab, carriage return or newline. */
  predicate IsLayout(c: char) {
    c in {' ', '\t', '\r', '\n'}
  }

  lemma {:induction false} LayoutIsSkipped(a: string, rest: string)
    requires (forall i :: 0 <= i < |a| ==> IsLayout(a[i])) && (rest == "" || !IsLayout(rest[0]))
    ensures SkipBlanks(a + rest) == rest
  {
    if a == "" {
      assert a + rest == rest;
    } else {
      assert (a + rest)[0] == a[0] && (a + rest)[1..] == a[1..] + rest;
      LayoutIsSkipped(a[1..], rest);
    }
  }

  /** A body is taken for a stream exactly when, after layout, it begins with an event or a data field. */
  lemma IsSSEIff(a: string, rest: string)
    requires (forall i :: 0 <= i < |a| ==> IsLayout(a[i])) && (rest == "" || !IsLayout(rest[0]))
    ensures IsSSE(a + rest) <==> "event:" <= rest || "data:" <= rest
  {
    LayoutIsSkipped(a, rest);
  }
}
