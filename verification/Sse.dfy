/** Server-sent-event parsing (internal/normalize/shared/sse.go).

    `ParseSSE` is a one-pass scan; `Events` is what it computes, stated on the lines still to come.
    The lemmas relate it to a renderer of event streams and to editing the stream at line boundaries. */
module Sse {
  import opened Options
  import opened Text
  import opened Sequences

  datatype SSEEvent = SSEEvent(name: string, data: string)

  const DONE := "[DONE]"
  const EVENT := "event:"
  const DATA := "data:"

  // ----- lines, as bufio.ScanLines delivers them -----

  function DropCR(line: string): string {
    if line != "" && line[|line| - 1] == '\r' then line[..|line| - 1] else line
  }

  function Lines(raw: string): (ls: seq<string>)
    ensures forall i :: 0 <= i < |ls| ==> '\n' !in ls[i]
    decreases |raw|
  {
    if raw == "" then []
    else
      var k := IndexOf(raw, '\n');
      if k == |raw| then assert raw[..k] == raw; [DropCR(raw)]
      else [DropCR(raw[..k])] + Lines(raw[k + 1..])
  }

  // ----- specification -----

  /** The event being collected: its name and its data lines so far. */
  datatype Pending = Pending(name: string, data: seq<string>)

  const FRESH := Pending("", [])

  /** The event a blank line or the end of input completes, if any. */
  function Emit(p: Pending): seq<SSEEvent> {
    if p == FRESH then []
    else if Join(p.data, "\n") != DONE then [SSEEvent(p.name, Join(p.data, "\n"))]
    else []
  }

  function FieldName(line: string): string
    requires HasPrefix(line, EVENT)
  {
    Trim(line[|EVENT|..])
  }

  function FieldData(line: string): string
    requires HasPrefix(line, DATA)
  {
    var v := line[|DATA|..];
    if HasPrefix(v, " ") then v[1..] else v
  }

  /** What a line that is not blank does to the event being collected. */
  function Collect(p: Pending, line: string): Pending {
    if HasPrefix(line, ":") then p
    else if HasPrefix(line, EVENT) then p.(name := FieldName(line))
    else if HasPrefix(line, DATA) then p.(data := p.data + [FieldData(line)])
    else p
  }

  /** The events of the remaining lines. */
  function Events(ls: seq<string>, p: Pending): seq<SSEEvent> {
    if ls == [] then Emit(p)
    else if ls[0] == "" then Emit(p) + Events(ls[1..], FRESH)
    else Events(ls[1..], Collect(p, ls[0]))
  }

  function Parsed(raw: string): seq<SSEEvent> {
    Events(Lines(raw), FRESH)
  }

  lemma EventsAt(events: seq<SSEEvent>, lines: seq<string>, i: nat, p: Pending)
    requires i < |lines|
    ensures events + Events(lines[i..], p) ==
            if lines[i] == "" then (events + Emit(p)) + Events(lines[i + 1..], FRESH)
            else events + Events(lines[i + 1..], Collect(p, lines[i]))
  {
    assert lines[i..][0] == lines[i] && lines[i..][1..] == lines[i + 1..];
    Assoc(events, Emit(p), Events(lines[i + 1..], FRESH));
  }

  method ParseSSE(raw: string) returns (events: seq<SSEEvent>)
    ensures events == Parsed(raw)
  {
    events := [];
    var name := "";
    var data: seq<string> := [];
    var lines := Lines(raw);
    for i := 0 to |lines|
      invariant events + Events(lines[i..], Pending(name, data)) == Parsed(raw)
    {
      var line := lines[i];
      EventsAt(events, lines, i, Pending(name, data));
      if line == "" {
        events, name, data := Flush(events, name, data);
      } else if HasPrefix(line, ":") {
      } else if HasPrefix(line, EVENT) {
        name := Trim(line[|EVENT|..]);
      } else if HasPrefix(line, DATA) {
        data := data + [FieldData(line)];
      }
    }
    events, name, data := Flush(events, name, data);
  }

  /** The `flush` closure, with the variables it captures passed in and out. */
  method Flush(events: seq<SSEEvent>, name: string, data: seq<string>)
    returns (events': seq<SSEEvent>, name': string, data': seq<string>)
    ensures events' == events + Emit(Pending(name, data))
    ensures name' == "" && data' == []
  {
    events', name', data' := events, name, data;
    if data == [] && name == "" {
      return;
    }
    var joined := Join(data, "\n");
    if joined != DONE {
      events' := events + [SSEEvent(name, joined)];
    }
    name', data' := "", [];
  }

  // ----- editing a stream at line boundaries -----

  predicate EndsLine(x: string) {
    x == "" || x[|x| - 1] == '\n'
  }

  predicate EndsWithBlankLine(x: string) {
    x != "" && x[|x| - 1] == '\n' && Lines(x) != [] && Lines(x)[|Lines(x)| - 1] == ""
  }

  lemma FirstLine(l: string, rest: string)
    requires '\n' !in l
    ensures Lines(l + "\n" + rest) == [DropCR(l)] + Lines(rest)
  {
    var raw := l + ['\n'] + rest;
    IndexOfPrefix(l, '\n', rest);
    assert raw[..|l|] == l && raw[|l| + 1..] == rest;
  }

  lemma {:induction false} LinesConcat(x: string, y: string)
    requires EndsLine(x)
    ensures Lines(x + y) == Lines(x) + Lines(y)
    decreases |x|
  {
    if x == "" {
      assert x + y == y;
    } else {
      var k := IndexOf(x, '\n');
      var l, rest := x[..k], x[k + 1..];
      Cut(x, k, y);
      FirstLine(l, rest);
      FirstLine(l, rest + y);
      LinesConcat(rest, y);
      Assoc([DropCR(l)], Lines(rest), Lines(y));
    }
  }

  lemma {:induction false} EventsAfterBlank(a: seq<string>, b: seq<string>, p: Pending)
    requires a != [] && a[|a| - 1] == ""
    ensures Events(a + b, p) == Events(a, p) + Events(b, FRESH)
  {
    assert (a + b)[1..] == a[1..] + b;
    if |a| == 1 {
      assert a[1..] + b == b;
    } else {
      EventsAfterBlank(a[1..], b, if a[0] == "" then FRESH else Collect(p, a[0]));
    }
  }

  /** Streams may be cut at any blank line and parsed in pieces. */
  lemma ParseIsAdditive(x: string, y: string)
    requires EndsWithBlankLine(x)
    ensures Parsed(x + y) == Parsed(x) + Parsed(y)
  {
    LinesConcat(x, y);
    EventsAfterBlank(Lines(x), Lines(y), FRESH);
  }

  // ----- the end of the input -----

  /** The events that a blank line completes; an event still being collected at the end is discarded. */
  function Dispatched(ls: seq<string>, p: Pending): seq<SSEEvent> {
    if ls == [] then []
    else if ls[0] == "" then Emit(p) + Dispatched(ls[1..], FRESH)
    else Dispatched(ls[1..], Collect(p, ls[0]))
  }

  /** What is being collected when the lines end. */
  function PendingAtEnd(ls: seq<string>, p: Pending): Pending {
    if ls == [] then p
    else PendingAtEnd(ls[1..], if ls[0] == "" then FRESH else Collect(p, ls[0]))
  }

  lemma {:induction false} FlushComesLast(ls: seq<string>, p: Pending)
    ensures Events(ls, p) == Dispatched(ls, p) + Emit(PendingAtEnd(ls, p))
  {
    if ls != [] {
      FlushComesLast(ls[1..], if ls[0] == "" then FRESH else Collect(p, ls[0]));
    }
  }

  lemma {:induction false} BlankLineLeavesNothing(ls: seq<string>, p: Pending)
    requires ls != [] && ls[|ls| - 1] == ""
    ensures PendingAtEnd(ls, p) == FRESH
  {
    if |ls| > 1 {
      BlankLineLeavesNothing(ls[1..], if ls[0] == "" then FRESH else Collect(p, ls[0]));
    }
  }

  /** The flush at the end of input delivers an event the stream has not finished, unless nothing is being collected
      then or only the end marker is. */
  lemma FlushIsSilentIff(raw: string)
    ensures var p := PendingAtEnd(Lines(raw), FRESH);
            Parsed(raw) == Dispatched(Lines(raw), FRESH) <==> p == FRESH || Join(p.data, "\n") == DONE
    ensures EndsWithBlankLine(raw) ==> PendingAtEnd(Lines(raw), FRESH) == FRESH
  {
    FlushComesLast(Lines(raw), FRESH);
    if EndsWithBlankLine(raw) {
      BlankLineLeavesNothing(Lines(raw), FRESH);
    }
  }

  /** A stream that breaks off after a data line: its event is delivered all the same. */
  lemma UnfinishedEventIsDelivered(part: string)
    requires '\n' !in part && DropCR(part) == part && part != DONE
    ensures Parsed(DataLine(part) + "\n") == [SSEEvent("", part)] && Dispatched(Lines(DataLine(part) + "\n"), FRESH) == []
  {
    var line := DataLine(part);
    CollectData(FRESH, part);
    FirstLine(line, "");
    assert line + "\n" + "" == line + "\n" && Lines("") == [] && [line] + [] == [line];
    FlushComesLast([line], FRESH);
    assert Collect(FRESH, line) == Pending("", [part]) by {
      assert FRESH.data + [part] == [part];
    }
    assert [line][1..] == [] && PendingAtEnd([], Pending("", [part])) == Pending("", [part]);
  }

  /** A line that is neither blank nor an event or data field. */
  predicate IsIgnored(line: string) {
    line != "" && !HasPrefix(line, EVENT) && !HasPrefix(line, DATA)
  }

  lemma {:induction false} EventsSkipIgnored(a: seq<string>, line: string, b: seq<string>, p: Pending)
    requires IsIgnored(line)
    ensures Events(a + ([line] + b), p) == Events(a + b, p)
  {
    if a == [] {
      assert a + ([line] + b) == [line] + b && a + b == b;
    } else {
      assert (a + ([line] + b))[1..] == a[1..] + ([line] + b) && (a + b)[1..] == a[1..] + b;
      EventsSkipIgnored(a[1..], line, b, if a[0] == "" then FRESH else Collect(p, a[0]));
    }
  }

  /** A comment line inserted at any line boundary changes nothing. */
  lemma CommentsAreInvisible(x: string, comment: string, y: string)
    requires EndsLine(x) && '\n' !in comment
    ensures Parsed(x + (":" + comment + "\n" + y)) == Parsed(x + y)
  {
    var line := ":" + comment;
    assert DropCR(line) != "" && DropCR(line)[0] == ':';
    FirstLine(line, y);
    LinesConcat(x, line + "\n" + y);
    LinesConcat(x, y);
    EventsSkipIgnored(Lines(x), DropCR(line), Lines(y), FRESH);
  }

  // ----- printing and parsing back -----

  function Unlines(ls: seq<string>): string {
    if ls == [] then "" else ls[0] + "\n" + Unlines(ls[1..])
  }

  function DropCRs(ls: seq<string>): (r: seq<string>)
    ensures |r| == |ls| && forall i :: 0 <= i < |ls| ==> r[i] == DropCR(ls[i])
  {
    if ls == [] then [] else [DropCR(ls[0])] + DropCRs(ls[1..])
  }

  lemma {:induction false} UnlinesRoundTrip(ls: seq<string>)
    requires AreLines(ls)
    ensures Lines(Unlines(ls)) == DropCRs(ls)
  {
    if ls == [] {
    } else {
      UnlinesRoundTrip(ls[1..]);
      FirstLine(ls[0], Unlines(ls[1..]));
    }
  }

  function DataLine(part: string): string {
    DATA + ([' '] + part)
  }

  function DataLines(parts: seq<string>): seq<string> {
    if parts == [] then [] else [DataLine(parts[0])] + DataLines(parts[1..])
  }

  function NameLines(name: string): seq<string> {
    if name == "" then [] else [EVENT + ([' '] + name)]
  }

  /** One event as lines: its name when it has one, one data line per line of data, a blank line. */
  function EventLines(e: SSEEvent): seq<string> {
    NameLines(e.name) + (DataLines(Split(e.data, '\n')) + [""])
  }

  function StreamLines(es: seq<SSEEvent>): seq<string> {
    if es == [] then [] else EventLines(es[0]) + StreamLines(es[1..])
  }

  function Render(es: seq<SSEEvent>): string {
    Unlines(StreamLines(es))
  }

  predicate NameIsPlain(e: SSEEvent) {
    IsTrimmed(e.name) && '\n' !in e.name
  }

  predicate NoLineEndsInCR(s: string) {
    var parts := Split(s, '\n');
    forall i :: 0 <= i < |parts| ==> DropCR(parts[i]) == parts[i]
  }

  /** The events that survive a trip through text. */
  predicate IsPrintable(e: SSEEvent) {
    NameIsPlain(e) && NoLineEndsInCR(e.data) && e.data != DONE
  }

  /** What comes back for an event with a plain name. */
  function Echo(e: SSEEvent): seq<SSEEvent> {
    var data := Join(DropCRs(Split(e.data, '\n')), "\n");
    if data == DONE then [] else [SSEEvent(e.name, data)]
  }

  function Echoes(es: seq<SSEEvent>): seq<SSEEvent> {
    if es == [] then [] else Echo(es[0]) + Echoes(es[1..])
  }

  lemma DropCRsConcat(a: seq<string>, b: seq<string>)
    ensures DropCRs(a + b) == DropCRs(a) + DropCRs(b)
  {
  }

  lemma EventsOfCons(line: string, rest: seq<string>, p: Pending)
    ensures Events([line] + rest, p)
         == if line == "" then Emit(p) + Events(rest, FRESH) else Events(rest, Collect(p, line))
  {
    assert ([line] + rest)[1..] == rest;
  }

  lemma CollectData(p: Pending, part: string)
    ensures var line := DataLine(part);
            && DropCR(line) == DataLine(DropCR(part)) && '\n' !in DATA
            && line != "" && Collect(p, line) == p.(data := p.data + [part])
  {
    var line := DATA + ([' '] + part);
    PrefixCut(DATA, [' '] + part);
    PrefixCut([' '], part);
    assert line[0] == 'd';
    if part != "" {
      assert line[|line| - 1] == part[|part| - 1];
      assert line[..|line| - 1] == DATA + ([' '] + part[..|part| - 1]);
    }
  }

  lemma TrimAfterSpace(s: string)
    requires IsTrimmed(s)
    ensures Trim([' '] + s) == s
  {
    assert ([' '] + s)[1..] == s;
  }

  lemma CollectName(name: string)
    requires IsTrimmed(name) && name != ""
    ensures var line := EVENT + ([' '] + name);
            DropCR(line) == line && line != "" && Collect(FRESH, line) == Pending(name, [])
  {
    var line := EVENT + ([' '] + name);
    PrefixCut(EVENT, [' '] + name);
    TrimAfterSpace(name);
    NameLineKeepsItsEnd(name);
  }

  lemma NameLineKeepsItsEnd(name: string)
    requires IsTrimmed(name) && name != ""
    ensures var line := EVENT + ([' '] + name);
            DropCR(line) == line && line != "" && line[0] == 'e'
  {
    var line := EVENT + ([' '] + name);
    assert line[0] == 'e' && line[|line| - 1] == name[|name| - 1];
  }

  lemma DataLinesCons(parts: seq<string>)
    requires parts != []
    ensures DropCRs(parts) == [DropCR(parts[0])] + DropCRs(parts[1..])
    ensures DropCRs(DataLines(parts)) == [DataLine(DropCR(parts[0]))] + DropCRs(DataLines(parts[1..]))
  {
    CollectData(FRESH, parts[0]);
    PrefixCut([DataLine(parts[0])], DataLines(parts[1..]));
  }

  lemma {:induction false} EventsOfDataLines(parts: seq<string>, p: Pending, rest: seq<string>)
    ensures Events(DropCRs(DataLines(parts)) + ([""] + rest), p)
         == Emit(p.(data := p.data + DropCRs(parts))) + Events(rest, FRESH)
  {
    if parts == [] {
      EventsOfCons("", rest, p);
      assert DropCRs(DataLines(parts)) + ([""] + rest) == [""] + rest && p.data + DropCRs(parts) == p.data;
    } else {
      var part := DropCR(parts[0]);
      var line, tail := DataLine(part), DropCRs(DataLines(parts[1..]));
      DataLinesCons(parts);
      CollectData(p, part);
      Assoc([line], tail, [""] + rest);
      EventsOfCons(line, tail + ([""] + rest), p);
      EventsOfDataLines(parts[1..], p.(data := p.data + [part]), rest);
      Assoc(p.data, [part], DropCRs(parts[1..]));
    }
  }

  lemma EventLinesSplit(e: SSEEvent, rest: seq<string>)
    ensures DropCRs(EventLines(e)) + rest
         == DropCRs(NameLines(e.name)) + (DropCRs(DataLines(Split(e.data, '\n'))) + ([""] + rest))
  {
    var names, datas := NameLines(e.name), DataLines(Split(e.data, '\n'));
    DropCRsConcat(names, datas + [""]);
    DropCRsConcat(datas, [""]);
    assert DropCRs([""]) == [""];
    Assoc(DropCRs(names), DropCRs(datas) + [""], rest);
    Assoc(DropCRs(datas), [""], rest);
  }

  lemma EventsOfNameLines(name: string, body: seq<string>)
    requires IsTrimmed(name)
    ensures Events(DropCRs(NameLines(name)) + body, FRESH) == Events(body, Pending(name, []))
  {
    if name == "" {
      assert [] + body == body;
    } else {
      CollectName(name);
      var line := EVENT + ([' '] + name);
      assert DropCRs([line]) == [line];
      EventsOfCons(line, body, FRESH);
    }
  }

  /** With data lines to join, an event is never empty. */
  lemma EmitOfEcho(e: SSEEvent)
    ensures Emit(Pending(e.name, [] + DropCRs(Split(e.data, '\n')))) == Echo(e)
  {
    assert [] + DropCRs(Split(e.data, '\n')) == DropCRs(Split(e.data, '\n'));
  }

  lemma EventsOfEventLines(e: SSEEvent, rest: seq<string>)
    requires NameIsPlain(e)
    ensures Events(DropCRs(EventLines(e)) + rest, FRESH) == Echo(e) + Events(rest, FRESH)
  {
    var parts := Split(e.data, '\n');
    var body := DropCRs(DataLines(parts)) + ([""] + rest);
    calc {
      Events(DropCRs(EventLines(e)) + rest, FRESH);
    == { EventLinesSplit(e, rest); }
      Events(DropCRs(NameLines(e.name)) + body, FRESH);
    == { EventsOfNameLines(e.name, body); }
      Events(body, Pending(e.name, []));
    == { EventsOfDataLines(parts, Pending(e.name, []), rest); }
      Emit(Pending(e.name, [] + DropCRs(parts))) + Events(rest, FRESH);
    == { EmitOfEcho(e); }
      Echo(e) + Events(rest, FRESH);
    }
  }

  lemma {:induction false} StreamParsesToEchoes(es: seq<SSEEvent>)
    requires forall i :: 0 <= i < |es| ==> NameIsPlain(es[i])
    ensures Events(DropCRs(StreamLines(es)), FRESH) == Echoes(es)
  {
    if es == [] {
    } else {
      StreamParsesToEchoes(es[1..]);
      DropCRsConcat(EventLines(es[0]), StreamLines(es[1..]));
      EventsOfEventLines(es[0], DropCRs(StreamLines(es[1..])));
    }
  }

  lemma {:induction false} DataLinesAreLines(parts: seq<string>)
    requires AreLines(parts)
    ensures AreLines(DataLines(parts))
  {
    if parts != [] {
      DataLinesAreLines(parts[1..]);
    }
  }

  lemma {:induction false} StreamLinesAreLines(es: seq<SSEEvent>)
    requires forall i :: 0 <= i < |es| ==> NameIsPlain(es[i])
    ensures AreLines(StreamLines(es))
  {
    if es == [] {
    } else {
      StreamLinesAreLines(es[1..]);
      DataLinesAreLines(Split(es[0].data, '\n'));
    }
  }

  lemma EchoIsFaithful(e: SSEEvent)
    ensures Echo(e) == [e] <==> NoLineEndsInCR(e.data) && e.data != DONE
  {
    var parts := Split(e.data, '\n');
    JoinOfSplit(e.data, '\n');
    SplitOfJoin(DropCRs(parts), '\n');
    if NoLineEndsInCR(e.data) {
      assert DropCRs(parts) == parts;
    }
  }

  lemma {:induction false} EchoesAreFaithful(es: seq<SSEEvent>)
    ensures |Echoes(es)| <= |es|
    ensures Echoes(es) == es <==> forall e :: e in es ==> NoLineEndsInCR(e.data) && e.data != DONE
  {
    if es == [] {
    } else {
      EchoesAreFaithful(es[1..]);
      EchoIsFaithful(es[0]);
      assert es == [es[0]] + es[1..];
      if Echoes(es) == es {
        assert Echo(es[0]) == [es[0]];
        assert Echoes(es[1..]) == es[1..];
      }
    }
  }

  lemma {:induction false} ParsedNamesArePlain(ls: seq<string>, p: Pending)
    requires forall i :: 0 <= i < |ls| ==> '\n' !in ls[i]
    requires IsTrimmed(p.name) && '\n' !in p.name
    ensures forall e :: e in Events(ls, p) ==> NameIsPlain(e)
  {
    if ls == [] {
    } else {
      ParsedNamesArePlain(ls[1..], if ls[0] == "" then FRESH else Collect(p, ls[0]));
    }
  }

  /** Parsing undoes printing exactly for lists of printable events. */
  lemma ParseUndoesRender(es: seq<SSEEvent>)
    ensures Parsed(Render(es)) == es <==> forall e :: e in es ==> IsPrintable(e)
  {
    ParsedNamesArePlain(Lines(Render(es)), FRESH);
    if forall e :: e in es ==> NameIsPlain(e) {
      StreamParsesToEchoes(es);
      StreamLinesAreLines(es);
      UnlinesRoundTrip(StreamLines(es));
      EchoesAreFaithful(es);
    }
  }

  lemma OneLineData(s: string)
    requires '\n' !in s && DropCR(s) == s
    ensures Join(DropCRs(Split(s, '\n')), "\n") == s
  {
    SplitFirst(s, '\n', "");
    assert DropCRs([s]) == [s];
  }

  lemma OneEventParses(e: SSEEvent)
    requires NameIsPlain(e)
    ensures Parsed(Render([e])) == Echo(e)
  {
    StreamParsesToEchoes([e]);
    StreamLinesAreLines([e]);
    UnlinesRoundTrip(StreamLines([e]));
    assert [e][1..] == [] && Echo(e) + [] == Echo(e);
  }

  /** The end marker as an event's data is taken for the end. */
  lemma EndMarkerIsSwallowed(name: string)
    requires IsTrimmed(name) && '\n' !in name
    ensures Parsed(Render([SSEEvent(name, DONE)])) == []
  {
    hide Parsed, Render, Split, Join;
    OneEventParses(SSEEvent(name, DONE));
    OneLineData(DONE);
  }

  // ----- telling a stream from a JSON document -----

  function SkipBlanks(s: string): string {
    if s != "" && (s[0] == ' ' || s[0] == '\t' || s[0] == '\r' || s[0] == '\n') then SkipBlanks(s[1..]) else s
  }

  predicate IsSSE(body: string) {
    HasPrefix(SkipBlanks(body), EVENT) || HasPrefix(SkipBlanks(body), DATA)
  }

  /** A rendered stream is recognised as a stream exactly when it has an event. */
  lemma RenderedIsSSEIff(es: seq<SSEEvent>)
    ensures IsSSE(Render(es)) <==> es != []
  {
    if es != [] {
      var e := es[0];
      var parts := Split(e.data, '\n');
      var first := if e.name == "" then DataLine(parts[0]) else EVENT + ([' '] + e.name);
      PrefixCut(EVENT, [' '] + e.name);
      PrefixCut(DATA, [' '] + parts[0]);
      assert StreamLines(es)[0] == EventLines(e)[0] == first;
      PrefixCut(first, "\n" + Unlines(StreamLines(es)[1..]));
      Assoc(first, "\n", Unlines(StreamLines(es)[1..]));
    }
  }

  // ----- decoding the payloads -----

  /** The payloads that decode, in order; the others are skipped. */
  function Decoded<E>(evs: seq<SSEEvent>, decode: string -> Option<E>): seq<E> {
    if evs == [] then []
    else match decode(evs[0].data)
      case Some(e) => [e] + Decoded(evs[1..], decode)
      case None => Decoded(evs[1..], decode)
  }

  lemma DecodedStep<E>(seen: seq<E>, evs: seq<SSEEvent>, k: nat, decode: string -> Option<E>)
    requires k < |evs|
    ensures match decode(evs[k].data)
            case Some(e) => seen + Decoded(evs[k..], decode) == (seen + [e]) + Decoded(evs[k + 1..], decode)
            case None => Decoded(evs[k..], decode) == Decoded(evs[k + 1..], decode)
  {
    assert evs[k..][0] == evs[k] && evs[k..][1..] == evs[k + 1..];
  }
}
