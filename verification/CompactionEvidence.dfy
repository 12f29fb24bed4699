/** What the compaction detector's answers rest on: the grades on their evidence, the carried summary on words and
    windows of the texts themselves. */
module CompactionEvidence {
  import opened Compaction
  import opened Options
  import opened Sequences
  import opened Text

  // ----- whitespace normalisation, by words -----

  predicate IsWord(w: string) {
    w != "" && forall i :: 0 <= i < |w| ==> !IsSpace(w[i])
  }

  predicate AreWords(words: seq<string>) {
    forall k :: 0 <= k < |words| ==> IsWord(words[k])
  }

  /** A gap before each word and one at the end: white space, of which only the outer two may be empty. */
  predicate AreGaps(gaps: seq<string>) {
    && (forall k :: 0 <= k < |gaps| ==> AreSpaces(gaps[k]))
    && (forall k :: 0 < k < |gaps| - 1 ==> gaps[k] != "")
  }

  function Spread(words: seq<string>, gaps: seq<string>): string
    requires |gaps| == |words| + 1
  {
    if words == [] then gaps[0] else gaps[0] + (words[0] + Spread(words[1..], gaps[1..]))
  }

  lemma {:induction false} GapIsSkipped(gap: string, s: string)
    requires AreSpaces(gap)
    ensures Fields(gap + s) == Fields(s)
  {
    if gap == "" {
      assert gap + s == s;
    } else {
      assert (gap + s)[0] == gap[0] && (gap + s)[1..] == gap[1..] + s;
      GapIsSkipped(gap[1..], s);
    }
  }

  lemma {:induction false} WholeWord(w: string, rest: string)
    requires (forall i :: 0 <= i < |w| ==> !IsSpace(w[i])) && (rest == "" || IsSpace(rest[0]))
    ensures Word(w + rest) == w
  {
    if w == "" {
      assert w + rest == rest;
    } else {
      assert (w + rest)[0] == w[0] && (w + rest)[1..] == w[1..] + rest;
      WholeWord(w[1..], rest);
    }
  }

  lemma WordIsTaken(w: string, rest: string)
    requires IsWord(w) && (rest == "" || IsSpace(rest[0]))
    ensures Fields(w + rest) == [w] + Fields(rest)
  {
    WholeWord(w, rest);
    PrefixCut(w, rest);
    assert (w + rest)[0] == w[0];
  }

  lemma SpreadBegins(words: seq<string>, gaps: seq<string>)
    requires |gaps| == |words| + 1 && AreGaps(gaps) && (words == [] || gaps[0] != "")
    ensures Spread(words, gaps) == "" || IsSpace(Spread(words, gaps)[0])
  {
  }

  /** The words of a text are the words it is spread from, whatever white space stands between them and around. */
  lemma {:induction false} WordsOfSpread(words: seq<string>, gaps: seq<string>)
    requires |gaps| == |words| + 1 && AreWords(words) && AreGaps(gaps)
    ensures Fields(Spread(words, gaps)) == words
    ensures NormalizeWS(Spread(words, gaps)) == Join(words, " ")
  {
    if words == [] {
      GapIsSkipped(gaps[0], "");
      assert gaps[0] + "" == gaps[0];
    } else {
      var rest := Spread(words[1..], gaps[1..]);
      WordsOfSpread(words[1..], gaps[1..]);
      GapIsSkipped(gaps[0], words[0] + rest);
      SpreadBegins(words[1..], gaps[1..]);
      WordIsTaken(words[0], rest);
      ConsTail(words);
    }
  }

  // ----- the text of a request, by words -----

  /** The texts of the text blocks that are not empty, in order. */
  function TextsIn(blocks: seq<Block>): seq<string> {
    if blocks == [] then [] else (if blocks[0].isText && blocks[0].text != "" then [blocks[0].text] else []) + TextsIn(blocks[1..])
  }

  function TextsOf(msgs: seq<Message>): seq<string> {
    if msgs == [] then [] else TextsIn(msgs[0].content) + TextsOf(msgs[1..])
  }

  function WordsOf(texts: seq<string>): seq<string> {
    if texts == [] then [] else Fields(texts[0]) + WordsOf(texts[1..])
  }

  function Lined(texts: seq<string>): string {
    if texts == [] then "" else (texts[0] + "\n") + Lined(texts[1..])
  }

  lemma {:induction false} LinedConcat(a: seq<string>, b: seq<string>)
    ensures Lined(a + b) == Lined(a) + Lined(b)
  {
    if a == [] {
      assert a + b == b && "" + Lined(b) == Lined(b);
    } else {
      assert (a + b)[1..] == a[1..] + b;
      LinedConcat(a[1..], b);
      Assoc(a[0] + "\n", Lined(a[1..]), Lined(b));
    }
  }

  lemma {:induction false} TextsInConcat(a: seq<Block>, b: seq<Block>)
    ensures TextsIn(a + b) == TextsIn(a) + TextsIn(b)
  {
    if a == [] {
      assert a + b == b;
    } else {
      assert (a + b)[1..] == a[1..] + b;
      TextsInConcat(a[1..], b);
    }
  }

  lemma {:induction false} TextsOfConcat(a: seq<Message>, b: seq<Message>)
    ensures TextsOf(a + b) == TextsOf(a) + TextsOf(b)
  {
    if a == [] {
      assert a + b == b;
    } else {
      assert (a + b)[1..] == a[1..] + b;
      TextsOfConcat(a[1..], b);
      Assoc(TextsIn(a[0].content), TextsOf(a[1..]), TextsOf(b));
    }
  }

  lemma {:induction false} BlocksAreLined(blocks: seq<Block>)
    ensures BlocksText(blocks) == Lined(TextsIn(blocks))
  {
    if blocks != [] {
      var p, b := blocks[..|blocks| - 1], blocks[|blocks| - 1];
      var last := TextsIn([b]);
      BlocksAreLined(p);
      TextsInConcat(p, [b]);
      assert p + [b] == blocks;
      LinedConcat(TextsIn(p), last);
      assert [b][1..] == [];
      assert last == if b.isText && b.text != "" then [b.text] else [];
      if b.isText && b.text != "" { assert last[1..] == [] && (b.text + "\n") + "" == b.text + "\n"; }
    }
  }

  /** The text of a request is the texts of its text blocks in order, each on a line of its own. */
  lemma {:induction false} RequestIsLined(msgs: seq<Message>)
    ensures TextOf(msgs) == Lined(TextsOf(msgs))
  {
    if msgs != [] {
      var p, m := msgs[..|msgs| - 1], msgs[|msgs| - 1];
      RequestIsLined(p);
      BlocksAreLined(m.content);
      TextsOfConcat(p, [m]);
      assert p + [m] == msgs && [m][1..] == [] && TextsOf([m]) == TextsIn(m.content) + TextsOf([]);
      assert TextsIn(m.content) + [] == TextsIn(m.content);
      LinedConcat(TextsOf(p), TextsIn(m.content));
    }
  }

  lemma {:induction false} FieldsOfLine(t: string, rest: string)
    ensures Fields((t + "\n") + rest) == Fields(t) + Fields(rest)
    decreases |t|
  {
    var s := (t + "\n") + rest;
    if t == "" {
      assert s == "\n" + rest;
      GapIsSkipped("\n", rest);
    } else if IsSpace(t[0]) {
      assert s[0] == t[0] && s[1..] == (t[1..] + "\n") + rest;
      FieldsOfLine(t[1..], rest);
    } else {
      var w, t' := Word(t), t[|Word(t)|..];
      assert t == w + t' && s == w + ((t' + "\n") + rest);
      WordEnds(t);
      WholeWord(w, (t' + "\n") + rest);
      PrefixCut(w, (t' + "\n") + rest);
      FieldsOfLine(t', rest);
      Assoc([w], Fields(t'), Fields(rest));
    }
  }

  lemma {:induction false} WordEnds(t: string)
    ensures var w := Word(t);
            && (forall i :: 0 <= i < |w| ==> !IsSpace(w[i]))
            && (|w| < |t| ==> IsSpace(t[|w|]))
  {
    if t != "" && !IsSpace(t[0]) {
      WordEnds(t[1..]);
    }
  }

  /** The words looked at are those of the request's text blocks in order: none lost, none joined with another. */
  lemma {:induction false} RequestWords(texts: seq<string>)
    ensures Fields(Lined(texts)) == WordsOf(texts)
  {
    if texts != [] {
      RequestWords(texts[1..]);
      FieldsOfLine(texts[0], Lined(texts[1..]));
    }
  }

  lemma HaystackIsWords(msgs: seq<Message>)
    ensures NormalizeWS(TextOf(msgs)) == Join(WordsOf(TextsOf(msgs)), " ")
  {
    RequestIsLined(msgs);
    RequestWords(TextsOf(msgs));
  }

  // ----- the majority of windows -----

  predicate StandsAt(haystack: string, w: string, at: nat) {
    at + |w| <= |haystack| && forall j :: 0 <= j < |w| ==> haystack[at + j] == w[j]
  }

  ghost predicate StandsIn(haystack: string, w: string) {
    exists at :: StandsAt(haystack, w, at)
  }

  /** The window of 80 runes that starts at the `i`-th quarter of the possible starts occurs in the request. */
  ghost predicate WindowFound(haystack: string, s: string, i: nat)
    requires |s| >= 80 && i < 5
  {
    var start := (|s| - 80) * i / 4;
    StandsIn(haystack, s[start..start + 80])
  }

  lemma WindowFoundIff(haystack: string, s: string, i: nat)
    requires |s| >= 80 && i < 5
    ensures WindowFound(haystack, s, i) <==> Contains(haystack, Window(s, CHUNK, ANCHORS, i))
  {
    var w := Window(s, CHUNK, ANCHORS, i);
    StartsAreInOrder(|s|, CHUNK, ANCHORS, i);
    if WindowFound(haystack, s, i) {
      var at :| StandsAt(haystack, w, at);
      assert OccursAt(haystack, w, at);
    }
    if Contains(haystack, w) {
      var at :| 0 <= at <= |haystack| && OccursAt(haystack, w, at);
      forall j | 0 <= j < |w| ensures haystack[at + j] == w[j] {
        assert haystack[at..at + |w|][j] == haystack[at + j];
      }
      assert StandsAt(haystack, w, at);
    }
  }

  /** Three different windows occur. */
  ghost predicate ThreeFound(haystack: string, s: string)
    requires |s| >= 80
  {
    exists i, j, k :: 0 <= i < j < k < 5 && WindowFound(haystack, s, i) && WindowFound(haystack, s, j) && WindowFound(haystack, s, k)
  }

  /** A summary counts as carried exactly when its words, a space between, have at least 80 runes and three of the five
      windows occur in the words of the request. */
  lemma CarriedIff(summary: string, b: seq<Message>)
    ensures var s, haystack := Join(Fields(summary), " "), Join(WordsOf(TextsOf(b)), " ");
            IsCarried(summary, b) <==> |s| >= 80 && ThreeFound(haystack, s)
  {
    HaystackIsWords(b);
    var s, haystack := NormalizeWS(summary), NormalizeWS(TextOf(b));
    if |s| >= 80 {
      HitsAreFound(haystack, s);
    }
  }

  /** One entry per window, 1 when it occurs. */
  lemma HitsByWindow(haystack: string, s: string) returns (f: seq<nat>)
    requires |s| >= 80
    ensures |f| == 5 && Hits(haystack, s, 5) == f[0] + f[1] + f[2] + f[3] + f[4]
    ensures forall i :: 0 <= i < 5 ==> f[i] == if WindowFound(haystack, s, i) then 1 else 0
  {
    hide WindowFound;
    var f0 := Hit(haystack, s, 0);
    var f1 := Hit(haystack, s, 1);
    var f2 := Hit(haystack, s, 2);
    var f3 := Hit(haystack, s, 3);
    var f4 := Hit(haystack, s, 4);
    f := [f0, f1, f2, f3, f4];
  }

  lemma HitsAreFound(haystack: string, s: string)
    requires |s| >= 80
    ensures Hits(haystack, s, 5) >= 3 <==> ThreeFound(haystack, s)
  {
    hide WindowFound, Hits;
    var f := HitsByWindow(haystack, s);
    if f[0] + f[1] + f[2] + f[3] + f[4] >= 3 {
      var i, j, k := ThreeOfFive(f);
      assert WindowFound(haystack, s, i) && WindowFound(haystack, s, j) && WindowFound(haystack, s, k);
    }
    if ThreeFound(haystack, s) {
      var i, j, k :| 0 <= i < j < k < 5 && WindowFound(haystack, s, i) && WindowFound(haystack, s, j) && WindowFound(haystack, s, k);
      assert f[i] == f[j] == f[k] == 1;
    }
  }

  lemma ThreeOfFive(f: seq<nat>) returns (i: nat, j: nat, k: nat)
    requires |f| == 5 && (forall n :: 0 <= n < 5 ==> f[n] <= 1) && f[0] + f[1] + f[2] + f[3] + f[4] >= 3
    ensures i < j < k < 5 && f[i] == f[j] == f[k] == 1
  {
    i := if f[0] == 1 then 0 else if f[1] == 1 then 1 else 2;
    k := if f[4] == 1 then 4 else if f[3] == 1 then 3 else 2;
    j := if i < 1 < k && f[1] == 1 then 1 else if i < 2 < k && f[2] == 1 then 2 else 3;
  }

  lemma Hit(haystack: string, s: string, i: nat) returns (n: nat)
    requires |s| >= 80 && i < 5
    ensures Hits(haystack, s, i + 1) == Hits(haystack, s, i) + n
    ensures n == if WindowFound(haystack, s, i) then 1 else 0
  {
    WindowFoundIff(haystack, s, i);
    n := if WindowFound(haystack, s, i) then 1 else 0;
  }

  // ----- grades and their evidence -----

  /** A hook after `a` and not after `b`. */
  ghost predicate HasHook(a: CompletionRec, b: CompletionRec, hooks: seq<CompactHookRec>) {
    exists h :: h in hooks && a.startedAt < h.startedAt && h.startedAt <= b.startedAt
  }

  /** From a history of some length at least four messages and at least half have gone. */
  predicate HasCollapsed(a: CompletionRec, b: CompletionRec)
    requires HasRequest(a) && HasRequest(b)
  {
    var n, m := |a.env.value.request.value|, |b.env.value.request.value|;
    n >= 6 && n - m >= 4 && 2 * m <= n
  }

  ghost predicate IsLineage(a: CompletionRec, b: CompletionRec)
    requires HasRequest(a) && HasRequest(b)
  {
    a.env.value.response.Some? && IsCarried(a.env.value.response.value.finalText, b.env.value.request.value)
  }

  ghost predicate IsEvident(a: CompletionRec, b: CompletionRec, hooks: seq<CompactHookRec>) {
    HasRequest(a) && HasRequest(b) && (HasHook(a, b, hooks) || HasCollapsed(a, b))
  }

  ghost function Earned(a: CompletionRec, b: CompletionRec, hooks: seq<CompactHookRec>): Grade
    requires IsEvident(a, b, hooks)
  {
    if HasHook(a, b, hooks) then Confirmed else if IsLineage(a, b) then Strong else Weak
  }

  /** What the episode says about `a` and `b`. */
  ghost predicate Describes(e: Episode, a: CompletionRec, b: CompletionRec) {
    && e.beforeEvent == a.eventID && e.afterEvent == b.eventID
    && (match if a.env == None || a.env.value.response == None then None else a.env.value.response.value.usage
        case None => e.contextIn == 0 && e.summaryOut == 0
        case Some(u) => e.contextIn == u.inputTokens + u.cacheRead + u.cacheCreation && e.summaryOut == u.outputTokens)
  }

  lemma HasHookIff(a: CompletionRec, b: CompletionRec, hooks: seq<CompactHookRec>)
    ensures HasHook(a, b, hooks) <==> HookBetween(hooks, a.startedAt, b.startedAt)
  {
    if HasHook(a, b, hooks) {
      var h :| h in hooks && a.startedAt < h.startedAt && h.startedAt <= b.startedAt;
      var k :| 0 <= k < |hooks| && hooks[k] == h;
      assert HookIn(hooks[k], a.startedAt, b.startedAt);
    }
    if HookBetween(hooks, a.startedAt, b.startedAt) {
      var k :| 0 <= k < |hooks| && HookIn(hooks[k], a.startedAt, b.startedAt);
      assert hooks[k] in hooks;
    }
  }

  /** Each further completion adds one episode or none: one exactly when there is a hook between it and the one before, or
      the history collapsed; confirmed exactly with a hook, strong exactly without one and with lineage, else weak. */
  lemma EpisodesAreEarned(comps: seq<CompletionRec>, hooks: seq<CompactHookRec>, n: nat)
    requires 2 <= n <= |comps|
    ensures var a, b := comps[n - 2], comps[n - 1];
            var es, before := Episodes(comps, hooks, n), Episodes(comps, hooks, n - 1);
            && before <= es
            && (if IsEvident(a, b, hooks) then |es| == |before| + 1 && es[|before|].grade == Earned(a, b, hooks) && Describes(es[|before|], a, b)
                else es == before)
  {
    HasHookIff(comps[n - 2], comps[n - 1], hooks);
  }

  lemma FewHaveNone(comps: seq<CompletionRec>, hooks: seq<CompactHookRec>, n: nat)
    requires n <= |comps| && n < 2
    ensures Episodes(comps, hooks, n) == []
  {
  }

  /** More evidence never lowers the rank of a boundary. */
  lemma MoreEvidenceNeverWeakens(a: CompletionRec, b: CompletionRec, hooks: seq<CompactHookRec>,
                                 c: CompletionRec, d: CompletionRec, more: seq<CompactHookRec>)
    requires IsEvident(a, b, hooks) && HasRequest(c) && HasRequest(d)
    requires HasHook(a, b, hooks) ==> HasHook(c, d, more)
    requires HasCollapsed(a, b) ==> HasCollapsed(c, d)
    requires IsLineage(a, b) ==> IsLineage(c, d)
    ensures var e, f := Episodes([a, b], hooks, 2), Episodes([c, d], more, 2);
            |e| == |f| == 1 && Rank(e[0].grade) <= Rank(f[0].grade)
  {
    FewHaveNone([a, b], hooks, 1);
    FewHaveNone([c, d], more, 1);
    EpisodesAreEarned([a, b], hooks, 2);
    EpisodesAreEarned([c, d], more, 2);
  }
}
