/** Building the curl commands from a session's headers (internal/server/case_curl.go):
    which headers are kept, in which order, what is masked, and that the result reads back. */
module CurlBuilder {
  import opened Options
  import opened Sequences
  import opened Text
  import opened Curl
  import opened Sorting
  import opened StringSort

  /** http.Header: values per name. */
  type Header = map<string, seq<string>>

  // ----- header names and values -----

  /** Lower-casing of header names, which are ASCII tokens. */
  function ToLower(s: string): string {
    if s == "" then "" else [if 'A' <= s[0] <= 'Z' then (s[0] as int + 32) as char else s[0]] + ToLower(s[1..])
  }

  predicate SkipCurlHeader(k: string) {
    ToLower(k) in {"content-length", "host", "accept-encoding", "connection", "transfer-encoding"}
  }

  predicate IsSensitiveHeader(k: string) {
    var l := ToLower(k);
    l in {"authorization", "cookie", "set-cookie", "x-api-key", "api-key", "openai-api-key", "x-goog-api-key"} ||
    Contains(l, "auth") || Contains(l, "key") || Contains(l, "token") || Contains(l, "cookie") || Contains(l, "secret")
  }

  function MaskHeaderValue(v: string): string {
    var k := IndexOf(v, ' ');
    if k + 1 < |v| && IsScheme(v[..k]) then v[..k] + " ****" else "****"
  }

  predicate IsScheme(s: string) {
    s == "Bearer" || s == "Basic" || s == "Token"
  }

  /** A masked value is one of four fixed texts, so it carries nothing of the secret but its scheme. */
  lemma MaskHidesTheValue(v: string)
    ensures MaskHeaderValue(v) == "****" || exists scheme :: IsScheme(scheme) && MaskHeaderValue(v) == scheme + " ****"
  {
    var scheme := v[..IndexOf(v, ' ')];
    assert MaskHeaderValue(v) == "****" || (IsScheme(scheme) && MaskHeaderValue(v) == scheme + " ****");
  }

  predicate IsCredential(v: string, scheme: string, rest: string) {
    rest != "" && v == scheme + [' '] + rest
  }

  /** The scheme is shown exactly when the value is a known scheme, a space and something more. */
  lemma MaskKeepsTheScheme(v: string, scheme: string)
    requires IsScheme(scheme)
    ensures MaskHeaderValue(v) == scheme + " ****" <==> exists rest :: IsCredential(v, scheme, rest)
  {
    var k := IndexOf(v, ' ');
    if MaskHeaderValue(v) == scheme + " ****" {
      var masked := scheme + " ****";
      assert |masked| == |scheme| + 5 > |"****"|;
      assert masked == v[..k] + " ****";
      assert masked[..k] == v[..k] && masked[..|scheme|] == scheme;
      Cut(v, k, "");
      assert IsCredential(v, scheme, v[k + 1..]);
    }
    forall rest | IsCredential(v, scheme, rest) ensures MaskHeaderValue(v) == scheme + " ****" {
      IndexOfPrefix(scheme, ' ', rest);
      assert v[..|scheme|] == scheme;
    }
  }

  /** With a credential of one of three kinds the kind is shown, with any other value nothing is. */
  lemma MaskShowsThreeKinds(v: string, rest: string)
    requires rest != ""
    ensures MaskHeaderValue("Bearer " + rest) == "Bearer ****"
    ensures MaskHeaderValue("Basic " + rest) == "Basic ****"
    ensures MaskHeaderValue("Token " + rest) == "Token ****"
    ensures !HasPrefix(v, "Bearer ") && !HasPrefix(v, "Basic ") && !HasPrefix(v, "Token ") ==> MaskHeaderValue(v) == "****"
  {
    KindIsShown("Bearer", rest);
    KindIsShown("Basic", rest);
    KindIsShown("Token", rest);
    assert "Bearer" + " " == "Bearer " && "Basic" + " " == "Basic " && "Token" + " " == "Token ";
    assert "Bearer" + " ****" == "Bearer ****" && "Basic" + " ****" == "Basic ****" && "Token" + " ****" == "Token ****";
    var k := IndexOf(v, ' ');
    if k + 1 < |v| && IsScheme(v[..k]) {
      assert v[..k + 1] == v[..k] + [' '];
    }
  }

  lemma KindIsShown(scheme: string, rest: string)
    requires rest != "" && IsScheme(scheme)
    ensures MaskHeaderValue(scheme + " " + rest) == scheme + " ****"
  {
    assert IsCredential(scheme + [' '] + rest, scheme, rest);
    MaskKeepsTheScheme(scheme + [' '] + rest, scheme);
  }

  // ----- the header operands -----

  ghost function KeptIn(names: set<string>): set<string> {
    set k | k in names && !SkipCurlHeader(k)
  }

  ghost function KeptKeys(auth: Header): set<string> {
    KeptIn(auth.Keys)
  }

  lemma KeptGrows(names: set<string>, k: string)
    requires k !in names
    ensures multiset(KeptIn(names + {k})) == multiset(KeptIn(names)) + (if SkipCurlHeader(k) then multiset{} else multiset{k})
  {
    assert KeptIn(names + {k}) == KeptIn(names) + (if SkipCurlHeader(k) then {} else {k});
  }

  function ShownValue(k: string, v: string, unmasked: bool): string {
    if !unmasked && IsSensitiveHeader(k) then MaskHeaderValue(v) else v
  }

  function ValueWords(k: string, vs: seq<string>, unmasked: bool): seq<string> {
    if vs == [] then [] else ValueWords(k, vs[..|vs| - 1], unmasked) + [k + ": " + ShownValue(k, vs[|vs| - 1], unmasked)]
  }

  /** Reading a missing name gives no values. */
  function Values(auth: Header, k: string): seq<string> {
    if k in auth then auth[k] else []
  }

  /** The -H operands of the keys in order, one per value. */
  function HeaderWords(keys: seq<string>, auth: Header, unmasked: bool): seq<string> {
    if keys == [] then []
    else HeaderWords(keys[..|keys| - 1], auth, unmasked) + ValueWords(keys[|keys| - 1], Values(auth, keys[|keys| - 1]), unmasked)
  }

  /** `keys` lists the set, each key once, in ascending order. */
  ghost predicate Lists(keys: seq<string>, all: set<string>) {
    IsSorted(keys) && multiset(keys) == multiset(all)
  }

  lemma {:induction false} ListExists(all: set<string>)
    ensures exists keys :: Lists(keys, all)
    decreases |all|
  {
    if all == {} {
      assert Lists([], all);
    } else {
      var k :| k in all;
      ListExists(all - {k});
      var rest :| Lists(rest, all - {k});
      LeqIsPreorder();
      InsertKeepsOrder(k, rest, Leq);
      assert all == (all - {k}) + {k};
      assert Lists(Insert(k, rest, Leq), all);
    }
  }

  /** The operands the command must carry: kept keys in sorted order, values in their own order. */
  ghost function Operands(auth: Header, unmasked: bool): seq<string> {
    ListExists(KeptKeys(auth));
    var keys :| Lists(keys, KeptKeys(auth));
    HeaderWords(keys, auth, unmasked)
  }

  /** Any sorted listing of the kept keys gives them, so the map's iteration order leaves no trace. */
  lemma OperandsOfAnyListing(keys: seq<string>, auth: Header, unmasked: bool)
    requires Lists(keys, KeptKeys(auth))
    ensures Operands(auth, unmasked) == HeaderWords(keys, auth, unmasked)
  {
    ListExists(KeptKeys(auth));
    var ks :| Lists(ks, KeptKeys(auth)) && Operands(auth, unmasked) == HeaderWords(ks, auth, unmasked);
    SortedOrderIsUnique(ks, keys);
  }

  // ----- what the mask hides -----

  /** Both or neither are a credential of each known scheme. */
  ghost predicate SameScheme(v: string, w: string) {
    forall scheme :: IsScheme(scheme) ==>
      ((exists rest :: IsCredential(v, scheme, rest)) <==> (exists rest :: IsCredential(w, scheme, rest)))
  }

  lemma SameSchemeSameMask(v: string, w: string)
    requires SameScheme(v, w)
    ensures MaskHeaderValue(v) == MaskHeaderValue(w)
  {
    MaskHidesTheValue(v);
    MaskHidesTheValue(w);
    forall scheme | IsScheme(scheme) ensures MaskHeaderValue(v) == scheme + " ****" <==> MaskHeaderValue(w) == scheme + " ****" {
      MaskKeepsTheScheme(v, scheme);
      MaskKeepsTheScheme(w, scheme);
    }
  }

  ghost predicate SameSchemes(vs: seq<string>, ws: seq<string>) {
    |vs| == |ws| && forall j :: 0 <= j < |vs| ==> SameScheme(vs[j], ws[j])
  }

  /** The same kept headers with the same values, but for the secrets of the sensitive ones. */
  ghost predicate DifferInSecretsOnly(a: Header, b: Header) {
    && KeptKeys(a) == KeptKeys(b)
    && forall k :: k in KeptKeys(a) ==> if IsSensitiveHeader(k) then SameSchemes(a[k], b[k]) else a[k] == b[k]
  }

  lemma {:induction false} MaskedValuesAlike(k: string, vs: seq<string>, ws: seq<string>)
    requires IsSensitiveHeader(k) && SameSchemes(vs, ws)
    ensures ValueWords(k, vs, false) == ValueWords(k, ws, false)
  {
    if vs != [] {
      MaskedValuesAlike(k, vs[..|vs| - 1], ws[..|ws| - 1]);
      SameSchemeSameMask(vs[|vs| - 1], ws[|ws| - 1]);
    }
  }

  lemma {:induction false} MaskedWordsAlike(keys: seq<string>, a: Header, b: Header)
    requires DifferInSecretsOnly(a, b) && forall k :: k in keys ==> k in KeptKeys(a)
    ensures HeaderWords(keys, a, false) == HeaderWords(keys, b, false)
  {
    if keys != [] {
      var k := keys[|keys| - 1];
      MaskedWordsAlike(keys[..|keys| - 1], a, b);
      if IsSensitiveHeader(k) {
        MaskedValuesAlike(k, a[k], b[k]);
      }
    }
  }

  /** A masked command tells nothing of a secret but its scheme: two header maps that differ only in the secrets of
      sensitive headers, or in skipped headers, give the same command. */
  lemma MaskedCommandHidesSecrets(a: Header, b: Header, method_: string, target: string, body: string)
    requires DifferInSecretsOnly(a, b)
    ensures CommandText(method_, target, Operands(a, false), body) == CommandText(method_, target, Operands(b, false), body)
  {
    ListExists(KeptKeys(a));
    var keys :| Lists(keys, KeptKeys(a));
    OperandsOfAnyListing(keys, a, false);
    OperandsOfAnyListing(keys, b, false);
    forall k | k in keys ensures k in KeptKeys(a) {
      assert k in multiset(keys);
    }
    MaskedWordsAlike(keys, a, b);
  }

  // ----- the builders -----

  lemma {:induction false} HeadersTextSnoc(ws: seq<string>, w: string)
    ensures HeadersText(ws + [w]) == HeadersText(ws) + OptionText("-H", w)
  {
    if ws == [] {
      assert ws + [w] == [w] && [w][1..] == [];
      assert OptionText("-H", w) + "" == OptionText("-H", w) && "" + OptionText("-H", w) == OptionText("-H", w);
    } else {
      assert (ws + [w])[1..] == ws[1..] + [w];
      HeadersTextSnoc(ws[1..], w);
      Assoc(OptionText("-H", ws[0]), HeadersText(ws[1..]), OptionText("-H", w));
    }
  }

  /** The keys of the map that are kept, in the order the map yields them. */
  method CollectKeys(auth: Header) returns (keys: seq<string>)
    ensures multiset(keys) == multiset(KeptKeys(auth))
  {
    keys := [];
    var todo := auth.Keys;
    ghost var done: set<string> := {};
    while todo != {}
      invariant todo + done == auth.Keys && todo !! done
      invariant multiset(keys) == multiset(KeptIn(done))
      decreases todo
    {
      var k :| k in todo;
      KeptGrows(done, k);
      todo, done := todo - {k}, done + {k};
      if SkipCurlHeader(k) {
        continue;
      }
      keys := keys + [k];
    }
    assert done == auth.Keys;
  }

  lemma OptionIsWritten(flag: string, operand: string)
    ensures flag == "-H" ==> OptionText(flag, operand) == " \\\n  -H " + ShellQuote(operand)
    ensures flag == "--data-raw" ==> OptionText(flag, operand) == " \\\n  --data-raw " + ShellQuote(operand)
  {
    Assoc(BREAK, flag, " " + ShellQuote(operand));
    Assoc(BREAK + flag, " ", ShellQuote(operand));
    assert flag == "-H" ==> BREAK + flag + " " == " \\\n  -H ";
    assert flag == "--data-raw" ==> BREAK + flag + " " == " \\\n  --data-raw ";
  }

  /** The inner loop: one option per value of a header. */
  method WriteHeader(b: string, head: string, ghost words: seq<string>, k: string, vs: seq<string>, unmasked: bool)
    returns (b': string, ghost words': seq<string>)
    requires b == head + HeadersText(words)
    ensures words' == words + ValueWords(k, vs, unmasked) && b' == head + HeadersText(words')
  {
    b', words' := b, words;
    assert words + [] == words;
    for j := 0 to |vs|
      invariant words' == words + ValueWords(k, vs[..j], unmasked)
      invariant b' == head + HeadersText(words')
    {
      var v := vs[j];
      if !unmasked && IsSensitiveHeader(k) {
        v := MaskHeaderValue(v);
      }
      var operand := k + ": " + v;
      assert vs[..j + 1][..j] == vs[..j];
      Assoc(words, ValueWords(k, vs[..j], unmasked), [operand]);
      HeadersTextSnoc(words', operand);
      Assoc(head, HeadersText(words'), OptionText("-H", operand));
      OptionIsWritten("-H", operand);
      words' := words' + [operand];
      b' := b' + (" \\\n  -H " + ShellQuote(operand));
    }
    assert vs[..|vs|] == vs;
  }

  /** The outer loop, over the sorted keys. */
  method WriteHeaders(head: string, keys: seq<string>, auth: Header, unmasked: bool) returns (b: string, ghost words: seq<string>)
    ensures words == HeaderWords(keys, auth, unmasked) && b == head + HeadersText(words)
  {
    b, words := head, [];
    assert head + HeadersText(words) == head;
    for i := 0 to |keys|
      invariant words == HeaderWords(keys[..i], auth, unmasked)
      invariant b == head + HeadersText(words)
    {
      assert keys[..i + 1][..i] == keys[..i];
      b, words := WriteHeader(b, head, words, keys[i], Values(auth, keys[i]), unmasked);
    }
    assert keys[..|keys|] == keys;
  }

  /** The direct command; every part is quoted, so it reads back whatever the headers hold. */
  method BuildDirectCurl(method_: string, target: string, body: string, auth: Header, unmasked: bool) returns (out: string)
    ensures out == CommandText(method_, target, Operands(auth, unmasked), body)
    ensures IsPlainWord(method_) ==>
            Tokenize(out) == if AllNulFree(target, Operands(auth, unmasked), body)
                             then Some(Argv(method_, target, Operands(auth, unmasked), body)) else None
  {
    var b := "curl -X " + method_ + " " + ShellQuote(target);
    var keys := CollectKeys(auth);
    SortSortsStrings(keys);
    keys := SortStrings(keys);
    OperandsOfAnyListing(keys, auth, unmasked);
    ghost var words;
    b, words := WriteHeaders(b, keys, auth, unmasked);
    out := FinishCurl(b, method_, target, words, body);
    if IsPlainWord(method_) {
      CommandReadsBackIff(method_, target, words, body);
    }
  }

  /** Adding the body, when there is one. */
  method FinishCurl(b: string, method_: string, target: string, ghost words: seq<string>, body: string) returns (out: string)
    requires b == "curl -X " + method_ + " " + ShellQuote(target) + HeadersText(words)
    ensures out == CommandText(method_, target, words, body)
  {
    out := b;
    OptionIsWritten("--data-raw", body);
    if body != "" {
      out := out + (" \\\n  --data-raw " + ShellQuote(body));
    }
    assert body == "" ==> b + BodyText(body) == b;
    Regroup("curl -X ", method_, " ", ShellQuote(target), HeadersText(words), BodyText(body));
  }

  lemma Regroup(a: string, b: string, c: string, d: string, e: string, f: string)
    ensures a + b + c + d + e + f == a + (b + (c + (d + (e + f))))
  {
    Assoc(a + b + c + d, e, f);
    Assoc(a + b + c, d, e + f);
    Assoc(a + b, c, d + (e + f));
    Assoc(a, b, c + (d + (e + f)));
  }

  /** The through-proxy command: one content-type header. */
  method BuildProxyCurl(method_: string, target: string, contentType: string, body: string) returns (out: string)
    ensures var words := ["content-type: " + contentType];
            && out == CommandText(method_, target, words, body)
            && (IsPlainWord(method_) ==>
                Tokenize(out) == if AllNulFree(target, words, body) then Some(Argv(method_, target, words, body)) else None)
  {
    ghost var words := ["content-type: " + contentType];
    var b := "curl -X " + method_ + " " + ShellQuote(target);
    HeadersTextSnoc([], words[0]);
    assert [] + [words[0]] == words;
    OptionIsWritten("-H", words[0]);
    assert "" + OptionText("-H", words[0]) == OptionText("-H", words[0]);
    b := b + (" \\\n  -H " + ShellQuote("content-type: " + contentType));
    out := FinishCurl(b, method_, target, words, body);
    if IsPlainWord(method_) {
      CommandReadsBackIff(method_, target, words, body);
    }
  }

  // ----- what the operands show -----

  /** One header's operands: the name, a colon and a blank, then each value, behind the mask unless it may be shown. */
  function Shown(k: string, vs: seq<string>, masked: bool): seq<string> {
    if vs == [] then [] else [k + ": " + (if masked then MaskHeaderValue(vs[0]) else vs[0])] + Shown(k, vs[1..], masked)
  }

  function ShownAll(keys: seq<string>, auth: Header, unmasked: bool): seq<string> {
    if keys == [] then []
    else Shown(keys[0], if keys[0] in auth then auth[keys[0]] else [], IsSensitiveHeader(keys[0]) && !unmasked)
         + ShownAll(keys[1..], auth, unmasked)
  }

  lemma {:induction false} ShownSnoc(k: string, vs: seq<string>, v: string, masked: bool)
    ensures Shown(k, vs + [v], masked) == Shown(k, vs, masked) + [k + ": " + (if masked then MaskHeaderValue(v) else v)]
  {
    if vs == [] {
      assert vs + [v] == [v] && [v][1..] == [];
    } else {
      assert (vs + [v])[0] == vs[0] && (vs + [v])[1..] == vs[1..] + [v];
      ShownSnoc(k, vs[1..], v, masked);
    }
  }

  lemma {:induction false} ValueWordsAreShown(k: string, vs: seq<string>, unmasked: bool)
    ensures ValueWords(k, vs, unmasked) == Shown(k, vs, IsSensitiveHeader(k) && !unmasked)
  {
    if vs != [] {
      var p, v := vs[..|vs| - 1], vs[|vs| - 1];
      ValueWordsAreShown(k, p, unmasked);
      ShownSnoc(k, p, v, IsSensitiveHeader(k) && !unmasked);
      assert p + [v] == vs;
    }
  }

  lemma {:induction false} ShownAllConcat(x: seq<string>, y: seq<string>, auth: Header, unmasked: bool)
    ensures ShownAll(x + y, auth, unmasked) == ShownAll(x, auth, unmasked) + ShownAll(y, auth, unmasked)
  {
    if x == [] {
      assert x + y == y;
    } else {
      assert (x + y)[0] == x[0] && (x + y)[1..] == x[1..] + y;
      ShownAllConcat(x[1..], y, auth, unmasked);
      Assoc(Shown(x[0], if x[0] in auth then auth[x[0]] else [], IsSensitiveHeader(x[0]) && !unmasked),
            ShownAll(x[1..], auth, unmasked), ShownAll(y, auth, unmasked));
    }
  }

  lemma {:induction false} HeaderWordsAreShown(keys: seq<string>, auth: Header, unmasked: bool)
    ensures HeaderWords(keys, auth, unmasked) == ShownAll(keys, auth, unmasked)
  {
    if keys != [] {
      var p, k := keys[..|keys| - 1], keys[|keys| - 1];
      HeaderWordsAreShown(p, auth, unmasked);
      ValueWordsAreShown(k, Values(auth, k), unmasked);
      ShownAllConcat(p, [k], auth, unmasked);
      assert p + [k] == keys && [k][1..] == [];
    }
  }

  /** The operands are one per value of each kept header, names in ascending order, values in their own: the value itself
      when the header is not sensitive or secrets are to be shown, its mask otherwise. */
  lemma OperandsAreShown(auth: Header, unmasked: bool) returns (keys: seq<string>)
    ensures IsSorted(keys) && multiset(keys) == multiset(set k | k in auth && !SkipCurlHeader(k))
    ensures Operands(auth, unmasked) == ShownAll(keys, auth, unmasked)
  {
    ListExists(KeptKeys(auth));
    keys :| Lists(keys, KeptKeys(auth));
    OperandsOfAnyListing(keys, auth, unmasked);
    HeaderWordsAreShown(keys, auth, unmasked);
    assert KeptKeys(auth) == set k | k in auth && !SkipCurlHeader(k);
  }

  // ----- which headers -----

  /** Two characters that differ at most in ASCII case. */
  predicate SameLetter(c: char, d: char) {
    c == d || ('A' <= c <= 'Z' && d as int == c as int + 32) || ('A' <= d <= 'Z' && c as int == d as int + 32)
  }

  predicate EqualFold(s: string, t: string) {
    |s| == |t| && forall i :: 0 <= i < |s| ==> SameLetter(s[i], t[i])
  }

  predicate IsLower(s: string) {
    forall i :: 0 <= i < |s| ==> !('A' <= s[i] <= 'Z')
  }

  lemma {:induction false} LowerFolds(s: string)
    ensures EqualFold(s, ToLower(s)) && IsLower(ToLower(s))
  {
    if s != "" {
      LowerFolds(s[1..]);
      assert forall i :: 1 <= i < |s| ==> s[i] == s[1..][i - 1] && ToLower(s)[i] == ToLower(s[1..])[i - 1];
    }
  }

  lemma LowerIff(s: string, t: string)
    requires IsLower(t)
    ensures ToLower(s) == t <==> EqualFold(s, t)
  {
    LowerFolds(s);
    var u := ToLower(s);
    if EqualFold(s, t) {
      forall i | 0 <= i < |s| ensures u[i] == t[i] {
        assert SameLetter(s[i], u[i]) && SameLetter(s[i], t[i]);
      }
    }
  }

  /** The headers left out are the five that curl computes itself, however their names are written. */
  lemma SkippedAre(k: string)
    ensures SkipCurlHeader(k) <==>
            || EqualFold(k, "content-length") || EqualFold(k, "host") || EqualFold(k, "accept-encoding")
            || EqualFold(k, "connection") || EqualFold(k, "transfer-encoding")
  {
    LowerIff(k, "content-length");
    LowerIff(k, "host");
    LowerIff(k, "accept-encoding");
    LowerIff(k, "connection");
    LowerIff(k, "transfer-encoding");
  }

  /** The name holds the word somewhere, in any case of its letters. */
  ghost predicate Holds(k: string, word: string) {
    exists i: nat :: FoldsAt(k, word, i)
  }

  predicate FoldsAt(k: string, word: string, i: nat) {
    i + |word| <= |k| && EqualFold(k[i..i + |word|], word)
  }

  lemma HoldsIff(k: string, word: string)
    requires IsLower(word)
    ensures Holds(k, word) <==> Contains(ToLower(k), word)
  {
    LowerFolds(k);
    var l := ToLower(k);
    if Holds(k, word) {
      var i: nat :| FoldsAt(k, word, i);
      forall j | 0 <= j < |word| ensures l[i..i + |word|][j] == word[j] {
        assert SameLetter(k[i..i + |word|][j], word[j]) && SameLetter(k[i + j], l[i + j]);
      }
      assert OccursAt(l, word, i);
    }
    if Contains(l, word) {
      var i :| 0 <= i <= |l| && OccursAt(l, word, i);
      forall j | 0 <= j < |word| ensures SameLetter(k[i..i + |word|][j], word[j]) {
        assert l[i..i + |word|][j] == l[i + j] && SameLetter(k[i + j], l[i + j]);
      }
      assert FoldsAt(k, word, i);
    }
  }

  /** A header is sensitive exactly when its name holds one of five words; the names listed one by one all do. */
  lemma SensitiveAre(k: string)
    ensures IsSensitiveHeader(k) <==> Holds(k, "auth") || Holds(k, "key") || Holds(k, "token") || Holds(k, "cookie") || Holds(k, "secret")
  {
    HoldsIff(k, "auth");
    HoldsIff(k, "key");
    HoldsIff(k, "token");
    HoldsIff(k, "cookie");
    HoldsIff(k, "secret");
    ListedNamesHoldWords();
  }

  lemma ListedNamesHoldWords()
    ensures Contains("authorization", "auth") && Contains("cookie", "cookie") && Contains("set-cookie", "cookie")
    ensures Contains("x-api-key", "key") && Contains("api-key", "key") && Contains("openai-api-key", "key") && Contains("x-goog-api-key", "key")
  {
    assert OccursAt("authorization", "auth", 0) && OccursAt("cookie", "cookie", 0) && OccursAt("set-cookie", "cookie", 4);
    assert OccursAt("x-api-key", "key", 6) && OccursAt("api-key", "key", 4);
    assert OccursAt("openai-api-key", "key", 11) && OccursAt("x-goog-api-key", "key", 11);
  }
}
