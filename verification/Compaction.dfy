/** The compaction detector (internal/server/compaction.go).

    Adjacent completions are graded by evidence: a compact hook between them, a shrunken history, and the first
    one's answer carried into the second one's request. */
module Compaction {
  import opened Options
  import opened Sequences
  import opened Text

  // ----- inputs -----

  datatype Block = Block(isText: bool, text: string)
  datatype Message = Message(content: seq<Block>)
  datatype Usage = Usage(inputTokens: int, outputTokens: int, cacheRead: int, cacheCreation: int)
  datatype Response = Response(finalText: string, usage: Option<Usage>)
  datatype Envelope = Envelope(request: Option<seq<Message>>, response: Option<Response>)

  /** `startedAt` is a totally ordered key. */
  datatype CompletionRec = CompletionRec(eventID: string, startedAt: int, env: Option<Envelope>)
  datatype CompactHookRec = CompactHookRec(startedAt: int)

  datatype Grade = Weak | Strong | Confirmed
  datatype Episode = Episode(grade: Grade, beforeEvent: string, afterEvent: string, contextIn: int, summaryOut: int)

  // ----- whitespace normalisation -----

  /** The run of non-space characters at the front. */
  function Word(s: string): (w: string)
    ensures |w| <= |s| && s[..|w|] == w
    ensures s != "" && !IsSpace(s[0]) ==> w != ""
  {
    if s == "" || IsSpace(s[0]) then "" else [s[0]] + Word(s[1..])
  }

  /** Go's strings.Fields. */
  function Fields(s: string): seq<string>
    decreases |s|
  {
    if s == "" then []
    else if IsSpace(s[0]) then Fields(s[1..])
    else [Word(s)] + Fields(s[|Word(s)|..])
  }

  function NormalizeWS(s: string): string {
    Join(Fields(s), " ")
  }

  /** The normalised text of `s` when it follows a word: a space first, unless nothing follows. */
  function After(s: string): string {
    if Fields(s) == [] then "" else " " + NormalizeWS(s)
  }

  lemma NormalizeUnfolds(s: string)
    ensures NormalizeWS("") == ""
    ensures s != "" && IsSpace(s[0]) ==> NormalizeWS(s) == NormalizeWS(s[1..]) && Fields(s) == Fields(s[1..])
    ensures s != "" && !IsSpace(s[0]) ==> NormalizeWS(s) == Word(s) + After(s[|Word(s)|..]) && Fields(s) != []
  {
    if s != "" && !IsSpace(s[0]) {
      var w, rest := Word(s), s[|Word(s)|..];
      PrefixCut([w], Fields(rest));
      if Fields(rest) != [] {
        Assoc(w, " ", NormalizeWS(rest));
      } else {
        assert w + "" == w;
      }
    }
  }

  lemma {:induction false} EmptyMeansNoWords(s: string)
    ensures NormalizeWS(s) == "" <==> Fields(s) == []
    decreases |s|
  {
    NormalizeUnfolds(s);
    if s != "" && IsSpace(s[0]) {
      EmptyMeansNoWords(s[1..]);
    }
  }

  lemma {:induction false} WordOfConcat(a: string, b: string)
    ensures Word(a + b) == if |Word(a)| < |a| then Word(a) else a + Word(b)
  {
    if a == "" {
      assert a + b == b && a + Word(b) == Word(b);
    } else if !IsSpace(a[0]) {
      assert (a + b)[1..] == a[1..] + b;
      WordOfConcat(a[1..], b);
      if |Word(a)| == |a| { Assoc([a[0]], a[1..], Word(b)); ConsTail(a); }
    }
  }

  /** What separates the normalised halves of a text: nothing, or one space. */
  ghost predicate IsJoint(a: string, sep: string, b: string, ab: string) {
    && ab == a + sep + b && (sep == "" || sep == " ")
    && (a == "" || b == "" ==> sep == "")
  }

  /** Normalising a concatenation normalises both halves in place. */
  lemma {:induction false} NormalizeConcat(a: string, b: string) returns (sep: string)
    ensures IsJoint(NormalizeWS(a), sep, NormalizeWS(b), NormalizeWS(a + b))
    decreases |a|
  {
    if a == "" {
      NormalizeUnfolds(a);
      assert a + b == b;
      sep := "";
    } else if IsSpace(a[0]) {
      NormalizeUnfolds(a);
      NormalizeUnfolds(a + b);
      assert (a + b)[1..] == a[1..] + b;
      sep := NormalizeConcat(a[1..], b);
    } else if |Word(a)| == |a| {
      sep := WholeWordConcat(a, b);
    } else {
      var inner := NormalizeConcat(a[|Word(a)|..], b);
      sep := FirstWordConcat(a, b, inner);
    }
  }

  lemma FirstWordConcat(a: string, b: string, inner: string) returns (sep: string)
    requires a != "" && !IsSpace(a[0]) && |Word(a)| < |a|
    requires IsJoint(NormalizeWS(a[|Word(a)|..]), inner, NormalizeWS(b), NormalizeWS(a[|Word(a)|..] + b))
    ensures IsJoint(NormalizeWS(a), sep, NormalizeWS(b), NormalizeWS(a + b))
  {
    var w, rest := Word(a), a[|Word(a)|..];
    NormalizeUnfolds(a);
    NormalizeUnfolds(a + b);
    WordOfConcat(a, b);
    DropConcat(a, b, |w|);
    EmptyMeansNoWords(rest);
    EmptyMeansNoWords(rest + b);
    sep := if NormalizeWS(b) == "" then "" else if NormalizeWS(rest) == "" then " " else inner;
    WordPrefixConcat(w, NormalizeWS(rest), inner, NormalizeWS(b), NormalizeWS(rest + b));
  }

  lemma DropConcat(a: string, b: string, k: nat)
    requires k <= |a|
    ensures (a + b)[k..] == a[k..] + b
  {
  }

  lemma WholeWordConcat(a: string, b: string) returns (sep: string)
    requires a != "" && !IsSpace(a[0]) && Word(a) == a
    ensures IsJoint(NormalizeWS(a), sep, NormalizeWS(b), NormalizeWS(a + b))
  {
    NormalizeUnfolds(a);
    NormalizeUnfolds(a + b);
    NormalizeUnfolds(b);
    EmptyMeansNoWords(b);
    WordOfConcat(a, b);
    assert a[|a|..] == "";
    assert NormalizeWS(a) == a;
    var w := Word(b);
    assert (a + b)[|a + w|..] == b[|w|..];
    if b == "" || IsSpace(b[0]) {
      sep := if NormalizeWS(b) == "" then "" else " ";
      assert w == "" && a + w == a;
      assert b[|w|..] == b;
      Assoc(a, " ", NormalizeWS(b));
    } else {
      sep := "";
      Assoc(a, w, After(b[|w|..]));
      assert a + "" == a;
    }
  }

  lemma WordPrefixConcat(w: string, n: string, inner: string, m: string, nm: string)
    requires w != "" && IsJoint(n, inner, m, nm)
    ensures var sep := if m == "" then "" else if n == "" then " " else inner;
            IsJoint(w + (if n == "" then "" else " " + n), sep, m, w + (if nm == "" then "" else " " + nm))
  {
    if m == "" {
      assert nm == n;
    } else if n == "" {
      assert nm == m;
      assert w + "" == w;
      Assoc(w, " ", m);
    } else {
      assert (w + (" " + n)) + inner + m == w + (" " + (n + inner + m));
    }
  }

  /** The normalised form of any text around `s` contains the normalised form of `s`. */
  lemma SurroundingTextKeepsContent(x: string, s: string, y: string)
    ensures Contains(NormalizeWS(x + s + y), NormalizeWS(s))
  {
    var sep1 := NormalizeConcat(x, s + y);
    var sep2 := NormalizeConcat(s, y);
    Assoc(x, s, y);
    var before, n, after := NormalizeWS(x) + sep1, NormalizeWS(s), sep2 + NormalizeWS(y);
    Assoc(n, sep2, NormalizeWS(y));
    Infix(before, n, after);
    assert OccursAt(NormalizeWS(x + s + y), n, |before|);
  }

  lemma Infix(a: string, b: string, c: string)
    ensures (a + (b + c))[|a|..|a| + |b|] == b
  {
  }

  lemma ContainsIsTransitive(a: string, b: string, c: string)
    requires Contains(a, b) && Contains(b, c)
    ensures Contains(a, c)
  {
    var i :| 0 <= i <= |a| && OccursAt(a, b, i);
    var j :| 0 <= j <= |b| && OccursAt(b, c, j);
    SliceSlice(a, i, |b|, j, |c|);
    assert OccursAt(a, c, i + j);
  }

  lemma SliceSlice(a: string, i: nat, n: nat, j: nat, m: nat)
    requires i + n <= |a| && j + m <= n
    ensures a[i..i + n][j..j + m] == a[i + j..i + j + m]
  {
    var u := a[i..i + n];
    var v, t := u[j..j + m], a[i + j..i + j + m];
    forall k | 0 <= k < m ensures v[k] == t[k] {
      assert v[k] == u[j + k];
    }
  }

  // ----- anchors -----

  function Start(len: nat, chunkLen: nat, n: nat, i: nat): int
    requires chunkLen <= len
  {
    if n > 1 then (len - chunkLen) * i / (n - 1) else 0
  }

  /** Windows start in bounds, from the first rune to the last window, in order. */
  lemma StartsAreInOrder(len: nat, chunkLen: nat, n: nat, i: nat)
    requires chunkLen <= len && i < n
    ensures 0 <= Start(len, chunkLen, n, i) <= len - chunkLen
    ensures i == 0 ==> Start(len, chunkLen, n, i) == 0
    ensures n > 1 && i == n - 1 ==> Start(len, chunkLen, n, i) == len - chunkLen
    ensures i + 1 < n ==> Start(len, chunkLen, n, i) <= Start(len, chunkLen, n, i + 1)
  {
    if n > 1 {
      var m, d := len - chunkLen, n - 1;
      MulMono(m, i, d);
      DivBounds(m * i, d, m);
      if i + 1 < n {
        assert m * (i + 1) == m * i + m;
        DivMono(m * i, m * (i + 1), d);
      }
      if i == d { DivExact(m, d); }
      if i == 0 { DivExact(0, d); }
    }
  }

  lemma MulMono(m: nat, i: nat, d: nat)
    requires i <= d
    ensures 0 <= m * i <= m * d
  {
    assert m * d == m * i + m * (d - i);
  }

  lemma DivBounds(x: nat, d: nat, m: nat)
    requires d > 0 && x <= m * d
    ensures 0 <= x / d <= m
  {
    var q := x / d;
    assert x == d * q + x % d && d * (m + 1) == m * d + d;
    MulMono(d, if q > m then m + 1 else 0, q);
  }

  lemma DivMono(x: nat, y: nat, d: nat)
    requires d > 0 && x <= y
    ensures x / d <= y / d
  {
    var q, p := x / d, y / d;
    assert x == d * q + x % d && y == d * p + y % d && d * (p + 1) == d * p + d;
    MulMono(d, if q > p then p + 1 else 0, q);
  }

  lemma DivExact(m: nat, d: nat)
    requires d > 0
    ensures m * d / d == m && 0 / d == 0
  {
    var q := m * d / d;
    assert m * d == d * q + m * d % d && d * (q + 1) == d * q + d && d * m == m * d;
    DivBounds(m * d, d, m);
    MulMono(d, if q < m then q + 1 else 0, m);
  }

  function Window(s: string, chunkLen: nat, n: nat, i: nat): string
    requires chunkLen <= |s| && i < n
  {
    StartsAreInOrder(|s|, chunkLen, n, i);
    s[Start(|s|, chunkLen, n, i)..Start(|s|, chunkLen, n, i) + chunkLen]
  }

  method AnchorChunks(s: string, chunkLen: nat, n: nat) returns (out: seq<string>)
    ensures |s| < chunkLen ==> out == []
    ensures |s| >= chunkLen ==> |out| == n && forall i :: 0 <= i < n ==> out[i] == Window(s, chunkLen, n, i) && |out[i]| == chunkLen
  {
    out := [];
    if |s| < chunkLen {
      return;
    }
    var maxStart := |s| - chunkLen;
    for i := 0 to n
      invariant |out| == i && forall k :: 0 <= k < i ==> out[k] == Window(s, chunkLen, n, k) && |out[k]| == chunkLen
    {
      var start := 0;
      if n > 1 {
        start := maxStart * i / (n - 1);
      }
      StartsAreInOrder(|s|, chunkLen, n, i);
      out := out + [s[start..start + chunkLen]];
    }
  }

  const CHUNK := 80
  const ANCHORS := 5

  ghost predicate Covered(len: nat, r: nat)
    requires CHUNK <= len
  {
    exists i :: 0 <= i < ANCHORS && Start(len, CHUNK, ANCHORS, i) <= r < Start(len, CHUNK, ANCHORS, i) + CHUNK
  }

  lemma FiveStarts(len: nat)
    requires CHUNK <= len
    ensures Start(len, CHUNK, ANCHORS, 0) == 0
    ensures Start(len, CHUNK, ANCHORS, 1) == (len - CHUNK) / 4
    ensures Start(len, CHUNK, ANCHORS, 2) == (len - CHUNK) * 2 / 4
    ensures Start(len, CHUNK, ANCHORS, 3) == (len - CHUNK) * 3 / 4
    ensures Start(len, CHUNK, ANCHORS, 4) == len - CHUNK
  {
  }

  /** The five windows cover every rune exactly when the text has at most 400. */
  lemma WindowsCover(len: nat)
    requires CHUNK <= len
    ensures (forall r :: 0 <= r < len ==> Covered(len, r)) <==> len <= 400
  {
    FiveStarts(len);
    if len > 400 {
      // the first gap of more than 80 between neighbouring starts
      var r := if len >= 404 then 80 else if len >= 402 then 160 else 320;
      assert !Covered(len, r);
    } else {
      forall r | 0 <= r < len ensures Covered(len, r) {
        var m := len - CHUNK;
        var i := if r < CHUNK then 0 else if r < m / 4 + CHUNK then 1 else if r < m * 2 / 4 + CHUNK then 2
                 else if r < m * 3 / 4 + CHUNK then 3 else 4;
        assert Start(len, CHUNK, ANCHORS, i) <= r < Start(len, CHUNK, ANCHORS, i) + CHUNK;
      }
    }
  }

  // ----- carried responses -----

  function Utf8Len(c: char): nat {
    var u := c as int;
    if u < 0x80 then 1 else if u < 0x800 then 2 else if u < 0x10000 then 3 else 4
  }

  /** Go's len of a string counts bytes. */
  function ByteLen(s: string): (n: nat)
    ensures |s| <= n
  {
    if s == "" then 0 else Utf8Len(s[0]) + ByteLen(s[1..])
  }

  function BlocksText(blocks: seq<Block>): string {
    if blocks == [] then ""
    else BlocksText(blocks[..|blocks| - 1]) +
         (var b := blocks[|blocks| - 1]; if b.isText && b.text != "" then b.text + "\n" else "")
  }

  function TextOf(msgs: seq<Message>): string {
    if msgs == [] then "" else TextOf(msgs[..|msgs| - 1]) + BlocksText(msgs[|msgs| - 1].content)
  }

  method MessagesText(msgs: seq<Message>) returns (sb: string)
    ensures sb == TextOf(msgs)
  {
    sb := "";
    for k := 0 to |msgs|
      invariant sb == TextOf(msgs[..k])
    {
      var m := msgs[k];
      assert msgs[..k + 1][..k] == msgs[..k];
      ghost var before := sb;
      assert before + "" == before;
      for j := 0 to |m.content|
        invariant sb == before + BlocksText(m.content[..j])
      {
        assert m.content[..j + 1][..j] == m.content[..j];
        var blk := m.content[j];
        if blk.isText && blk.text != "" {
          Assoc(before, BlocksText(m.content[..j]), blk.text + "\n");
          Assoc(sb, blk.text, "\n");
          sb := sb + blk.text;
          sb := sb + "\n";
        } else {
          assert BlocksText(m.content[..j]) + "" == BlocksText(m.content[..j]);
        }
      }
      assert m.content[..|m.content|] == m.content;
    }
    assert msgs[..|msgs|] == msgs;
  }

  /** How many of the first `k` windows of `s` occur in `haystack`. */
  function Hits(haystack: string, s: string, k: nat): nat
    requires CHUNK <= |s| && k <= ANCHORS
  {
    if k == 0 then 0
    else Hits(haystack, s, k - 1) + if Contains(haystack, Window(s, CHUNK, ANCHORS, k - 1)) then 1 else 0
  }

  /** The summary is long enough and at least three of its five windows occur verbatim in the request. */
  predicate IsCarried(summary: string, b: seq<Message>) {
    var s := NormalizeWS(summary);
    |s| >= CHUNK && Hits(NormalizeWS(TextOf(b)), s, ANCHORS) >= 3
  }

  method ResponseCarried(summary: string, b: seq<Message>) returns (carried: bool)
    ensures carried <==> IsCarried(summary, b)
  {
    var s := NormalizeWS(summary);
    if ByteLen(s) < 80 {
      return false;
    }
    var text := MessagesText(b);
    var haystack := NormalizeWS(text);
    var anchors := AnchorChunks(s, 80, 5);
    if |anchors| == 0 {
      return false;
    }
    var hits := 0;
    for k := 0 to |anchors|
      invariant 0 <= hits == Hits(haystack, s, k)
    {
      if Contains(haystack, anchors[k]) {
        hits := hits + 1;
      }
    }
    return hits * 2 >= |anchors|;
  }

  lemma WindowOccurs(s: string, i: nat)
    requires CHUNK <= |s| && i < ANCHORS
    ensures Contains(s, Window(s, CHUNK, ANCHORS, i))
  {
    StartsAreInOrder(|s|, CHUNK, ANCHORS, i);
    assert OccursAt(s, Window(s, CHUNK, ANCHORS, i), Start(|s|, CHUNK, ANCHORS, i));
  }

  lemma {:induction false} AllWindowsHit(haystack: string, s: string, k: nat)
    requires CHUNK <= |s| && k <= ANCHORS && Contains(haystack, s)
    ensures Hits(haystack, s, k) == k
  {
    if k > 0 {
      AllWindowsHit(haystack, s, k - 1);
      WindowOccurs(s, k - 1);
      ContainsIsTransitive(haystack, s, Window(s, CHUNK, ANCHORS, k - 1));
    }
  }

  /** Where a block's text sits in the text of the whole request. */
  lemma {:induction false} BlockInRequest(msgs: seq<Message>, k: nat, j: nat) returns (x: string, y: string)
    requires k < |msgs| && j < |msgs[k].content| && msgs[k].content[j].isText && msgs[k].content[j].text != ""
    ensures TextOf(msgs) == x + msgs[k].content[j].text + y
  {
    var last := |msgs| - 1;
    if k < last {
      x, y := BlockInRequest(msgs[..last], k, j);
      var t := BlocksText(msgs[last].content);
      Assoc(x + msgs[k].content[j].text, y, t);
      y := y + t;
    } else {
      x, y := BlockInMessage(msgs[k].content, j);
      Assoc(TextOf(msgs[..last]), x, msgs[k].content[j].text + y);
      Assoc(x, msgs[k].content[j].text, y);
      Assoc(TextOf(msgs[..last]) + x, msgs[k].content[j].text, y);
      x := TextOf(msgs[..last]) + x;
    }
  }

  lemma {:induction false} BlockInMessage(blocks: seq<Block>, j: nat) returns (x: string, y: string)
    requires j < |blocks| && blocks[j].isText && blocks[j].text != ""
    ensures BlocksText(blocks) == x + blocks[j].text + y
  {
    var last := |blocks| - 1;
    if j < last {
      x, y := BlockInMessage(blocks[..last], j);
      var t := if blocks[last].isText && blocks[last].text != "" then blocks[last].text + "\n" else "";
      Assoc(x + blocks[j].text, y, t);
      y := y + t;
    } else {
      x, y := BlocksText(blocks[..last]), "\n";
      Assoc(x, blocks[j].text, y);
    }
  }

  /** A text block with the summary's words in order, re-wrapped in any way and with any text around it,
      is recognised as carrying the summary once that has 80 runes. */
  lemma CarriedSummaryIsRecognised(summary: string, rewrapped: string, before: string, after: string, b: seq<Message>, k: nat, j: nat)
    requires |NormalizeWS(summary)| >= CHUNK && Fields(rewrapped) == Fields(summary)
    requires k < |b| && j < |b[k].content| && b[k].content[j].isText && b[k].content[j].text == before + rewrapped + after
    ensures IsCarried(summary, b)
  {
    NormalizeUnfolds("");
    assert rewrapped != "";
    var x, y := BlockInRequest(b, k, j);
    var s := NormalizeWS(summary);
    assert x + (before + rewrapped + after) + y == (x + before) + rewrapped + (after + y);
    SurroundingTextKeepsContent(x + before, rewrapped, after + y);
    AllWindowsHit(NormalizeWS(TextOf(b)), s, ANCHORS);
  }

  // ----- grading and episodes -----

  const MIN_HISTORY_FOR_SHRINK := 6

  predicate HistoryShrank(a: seq<Message>, b: seq<Message>) {
    |a| >= MIN_HISTORY_FOR_SHRINK && |a| - |b| >= 4 && |b| * 2 <= |a|
  }

  function GradeCompaction(hook: bool, shrank: bool, carried: bool): Option<Grade> {
    if hook then Some(Confirmed)
    else if shrank && carried then Some(Strong)
    else if shrank then Some(Weak)
    else None
  }

  predicate HookIn(h: CompactHookRec, aTime: int, bTime: int) {
    aTime < h.startedAt <= bTime
  }

  predicate HookBetween(hooks: seq<CompactHookRec>, aTime: int, bTime: int) {
    exists k :: 0 <= k < |hooks| && HookIn(hooks[k], aTime, bTime)
  }

  method CompactHookBetween(hooks: seq<CompactHookRec>, aTime: int, bTime: int) returns (found: bool)
    ensures found <==> HookBetween(hooks, aTime, bTime)
  {
    for k := 0 to |hooks|
      invariant forall i :: 0 <= i < k ==> !HookIn(hooks[i], aTime, bTime)
    {
      if hooks[k].startedAt > aTime && hooks[k].startedAt <= bTime {
        assert HookIn(hooks[k], aTime, bTime);
        return true;
      }
    }
    return false;
  }

  function CompactionTokens(env: Envelope): (int, int) {
    if env.response == None || env.response.value.usage == None then (0, 0)
    else
      var u := env.response.value.usage.value;
      (u.inputTokens + u.cacheRead + u.cacheCreation, u.outputTokens)
  }

  predicate HasRequest(c: CompletionRec) {
    c.env.Some? && c.env.value.request.Some?
  }

  /** The episode at the boundary of two adjacent completions, if any. */
  function Boundary(a: CompletionRec, b: CompletionRec, hooks: seq<CompactHookRec>): Option<Episode> {
    if !HasRequest(a) || !HasRequest(b) then None
    else
      var ra, rb := a.env.value.request.value, b.env.value.request.value;
      var carried := a.env.value.response.Some? && IsCarried(a.env.value.response.value.finalText, rb);
      match GradeCompaction(HookBetween(hooks, a.startedAt, b.startedAt), HistoryShrank(ra, rb), carried)
      case None => None
      case Some(g) =>
        var (ctx, out) := CompactionTokens(a.env.value);
        Some(Episode(g, a.eventID, b.eventID, ctx, out))
  }

  /** The episodes of the boundaries within the first `n` completions. */
  function Episodes(comps: seq<CompletionRec>, hooks: seq<CompactHookRec>, n: nat): seq<Episode>
    requires n <= |comps|
  {
    if n < 2 then []
    else match Boundary(comps[n - 2], comps[n - 1], hooks)
      case None => Episodes(comps, hooks, n - 1)
      case Some(e) => Episodes(comps, hooks, n - 1) + [e]
  }

  method DetectCompactionEpisodes(comps: seq<CompletionRec>, hooks: seq<CompactHookRec>) returns (out: seq<Episode>)
    ensures out == Episodes(comps, hooks, |comps|)
  {
    out := [];
    var i := 0;
    while i + 1 < |comps|
      invariant 0 <= i && (|comps| > 0 ==> i < |comps|)
      invariant out == Episodes(comps, hooks, if |comps| == 0 then 0 else i + 1)
    {
      var a, b := comps[i], comps[i + 1];
      i := i + 1;
      if a.env == None || b.env == None || a.env.value.request == None || b.env.value.request == None {
        continue;
      }
      var ra, rb := a.env.value.request.value, b.env.value.request.value;
      var shrank := HistoryShrank(ra, rb);
      var hook := CompactHookBetween(hooks, a.startedAt, b.startedAt);
      if !shrank && !hook {
        continue;
      }
      var carried := false;
      if a.env.value.response.Some? {
        carried := ResponseCarried(a.env.value.response.value.finalText, rb);
      }
      var grade := GradeCompaction(hook, shrank, carried);
      if grade == None {
        continue;
      }
      var (ctx, summary) := CompactionTokens(a.env.value);
      out := out + [Episode(grade.value, a.eventID, b.eventID, ctx, summary)];
    }
  }

  // ----- confirmed episodes are backed by distinct hooks -----

  predicate Sorted(comps: seq<CompletionRec>) {
    forall i, j :: 0 <= i < j < |comps| ==> comps[i].startedAt <= comps[j].startedAt
  }

  function ConfirmedCount(es: seq<Episode>): nat {
    if es == [] then 0 else ConfirmedCount(es[..|es| - 1]) + if es[|es| - 1].grade == Confirmed then 1 else 0
  }

  function HooksIn(hooks: seq<CompactHookRec>, lo: int, hi: int): (n: nat)
    ensures n <= |hooks|
  {
    if hooks == [] then 0 else HooksIn(hooks[1..], lo, hi) + if HookIn(hooks[0], lo, hi) then 1 else 0
  }

  lemma {:induction false} IntervalsAdd(hooks: seq<CompactHookRec>, lo: int, mid: int, hi: int)
    requires lo <= mid <= hi
    ensures HooksIn(hooks, lo, hi) == HooksIn(hooks, lo, mid) + HooksIn(hooks, mid, hi)
  {
    if hooks != [] {
      IntervalsAdd(hooks[1..], lo, mid, hi);
    }
  }

  lemma {:induction false} HookCounts(hooks: seq<CompactHookRec>, lo: int, hi: int)
    ensures HookBetween(hooks, lo, hi) <==> HooksIn(hooks, lo, hi) >= 1
  {
    if hooks != [] {
      HookCounts(hooks[1..], lo, hi);
      if HookBetween(hooks, lo, hi) && !HookIn(hooks[0], lo, hi) {
        var k :| 0 <= k < |hooks| && HookIn(hooks[k], lo, hi);
        assert hooks[1..][k - 1] == hooks[k];
      }
      if HookBetween(hooks[1..], lo, hi) {
        var k :| 0 <= k < |hooks[1..]| && HookIn(hooks[1..][k], lo, hi);
        assert hooks[k + 1] == hooks[1..][k];
      }
      if HookIn(hooks[0], lo, hi) {
        assert HookBetween(hooks, lo, hi);
      }
    }
  }

  lemma {:induction false} ConfirmedWithinSpan(comps: seq<CompletionRec>, hooks: seq<CompactHookRec>, n: nat)
    requires Sorted(comps) && 1 <= n <= |comps|
    ensures ConfirmedCount(Episodes(comps, hooks, n)) <= HooksIn(hooks, comps[0].startedAt, comps[n - 1].startedAt)
  {
    if n >= 2 {
      ConfirmedWithinSpan(comps, hooks, n - 1);
      var a, b := comps[n - 2], comps[n - 1];
      IntervalsAdd(hooks, comps[0].startedAt, a.startedAt, b.startedAt);
      HookCounts(hooks, a.startedAt, b.startedAt);
      var es := Episodes(comps, hooks, n - 1);
      if Boundary(a, b, hooks).Some? {
        assert (es + [Boundary(a, b, hooks).value])[..|es|] == es;
      }
    }
  }

  /** There are never more confirmed episodes than compact hooks. */
  lemma ConfirmedNeverExceedHooks(comps: seq<CompletionRec>, hooks: seq<CompactHookRec>)
    requires Sorted(comps)
    ensures ConfirmedCount(Episodes(comps, hooks, |comps|)) <= |hooks|
  {
    if |comps| >= 1 {
      ConfirmedWithinSpan(comps, hooks, |comps|);
    }
  }

  // ----- more hooks never weaken the result -----

  function Rank(g: Grade): nat {
    match g case Weak => 0 case Strong => 1 case Confirmed => 2
  }

  /** The same boundary with the same token counts, graded no lower. */
  predicate AtLeast(e: Episode, f: Episode) {
    f == e.(grade := f.grade) && (f.grade == e.grade || f.grade == Confirmed)
  }

  ghost predicate IsSubset(hooks: seq<CompactHookRec>, more: seq<CompactHookRec>) {
    forall h :: h in hooks ==> h in more
  }

  lemma BoundaryIsMonotone(a: CompletionRec, b: CompletionRec, hooks: seq<CompactHookRec>, more: seq<CompactHookRec>)
    requires IsSubset(hooks, more)
    ensures Boundary(a, b, hooks).Some? ==> Boundary(a, b, more).Some? && AtLeast(Boundary(a, b, hooks).value, Boundary(a, b, more).value)
  {
    if HookBetween(hooks, a.startedAt, b.startedAt) {
      var k :| 0 <= k < |hooks| && HookIn(hooks[k], a.startedAt, b.startedAt);
      assert hooks[k] in more;
      var m :| 0 <= m < |more| && more[m] == hooks[k];
      assert HookIn(more[m], a.startedAt, b.startedAt);
    }
  }

  /** Adding hooks, anywhere in the list, keeps every episode and never lowers its grade. */
  lemma {:induction false} MoreHooksNeverWeaken(comps: seq<CompletionRec>, hooks: seq<CompactHookRec>, more: seq<CompactHookRec>, n: nat)
    requires IsSubset(hooks, more) && n <= |comps|
    ensures forall e :: e in Episodes(comps, hooks, n) ==> exists f :: f in Episodes(comps, more, n) && AtLeast(e, f) && Rank(e.grade) <= Rank(f.grade)
  {
    if n >= 2 {
      MoreHooksNeverWeaken(comps, hooks, more, n - 1);
      BoundaryIsMonotone(comps[n - 2], comps[n - 1], hooks, more);
      var es, fs := Episodes(comps, hooks, n), Episodes(comps, more, n);
      forall e | e in es ensures exists f :: f in fs && AtLeast(e, f) && Rank(e.grade) <= Rank(f.grade) {
        if e in Episodes(comps, hooks, n - 1) {
          var f :| f in Episodes(comps, more, n - 1) && AtLeast(e, f) && Rank(e.grade) <= Rank(f.grade);
          assert f in fs;
        } else {
          var f := Boundary(comps[n - 2], comps[n - 1], more).value;
          assert f in fs;
        }
      }
    }
  }
}
