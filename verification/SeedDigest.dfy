/** The fingerprint of the embedded replay cases (`seedDigest` in internal/store/cases.go).

    The digest hashes one line per seed, sorted.  It does not depend on the order of the seeds, and as long as the hash
    itself does not collide it tells any two seed sets apart. */
module SeedDigest {
  import opened Sequences
  import opened Text
  import opened StringSort

  datatype ReplayCase = ReplayCase(id: string, name: string, tags: string, provider: string, method_: string,
                                   target: string, endpoint: string, body: string, source: string, createdAt: string)

  const NL: char := '\n'

  /** The fields that are hashed; source and creation time are not among them. */
  function Hashed(c: ReplayCase): seq<string> {
    [c.id, c.name, c.tags, c.provider, c.method_, c.target, c.endpoint, c.body]
  }

  function Line(fields: seq<string>): string {
    Join(fields, [NUL])
  }

  function Map<A, B>(xs: seq<A>, f: A -> B): (r: seq<B>)
    ensures |r| == |xs|
  {
    if xs == [] then [] else [f(xs[0])] + Map(xs[1..], f)
  }

  function AllFields(seeds: seq<ReplayCase>): seq<seq<string>> {
    Map(seeds, Hashed)
  }

  function LinesOf(seeds: seq<ReplayCase>): seq<string> {
    Map(AllFields(seeds), Line)
  }

  /** What is fed to the hash: every line, each followed by a newline. */
  function Fed(lines: seq<string>): string {
    if lines == [] then "" else lines[0] + ([NL] + Fed(lines[1..]))
  }

  function Digest(seeds: seq<ReplayCase>, hash: string -> string): string {
    hash(Fed(SortStrings(LinesOf(seeds))))
  }

  method ComputeDigest(seeds: seq<ReplayCase>, hash: string -> string) returns (digest: string)
    ensures digest == Digest(seeds, hash)
  {
    var lines: seq<string> := [];
    for i := 0 to |seeds|
      invariant lines + LinesOf(seeds[i..]) == LinesOf(seeds)
    {
      assert seeds[i..][0] == seeds[i] && seeds[i..][1..] == seeds[i + 1..];
      Assoc(lines, [Line(Hashed(seeds[i]))], LinesOf(seeds[i + 1..]));
      MapCons(seeds[i], seeds[i + 1..]);
      lines := lines + [Join([seeds[i].id, seeds[i].name, seeds[i].tags, seeds[i].provider,
                              seeds[i].method_, seeds[i].target, seeds[i].endpoint, seeds[i].body], [NUL])];
    }
    assert lines + [] == lines;
    lines := SortStrings(lines);
    var h := "";
    for i := 0 to |lines|
      invariant h + Fed(lines[i..]) == Fed(lines)
    {
      assert lines[i..][0] == lines[i] && lines[i..][1..] == lines[i + 1..];
      Assoc(h, lines[i], [NL] + Fed(lines[i + 1..]));
      h := h + lines[i];
      Assoc(h, [NL], Fed(lines[i + 1..]));
      h := h + [NL];
    }
    assert h + "" == h;
    digest := hash(h);
  }

  lemma MapCons(c: ReplayCase, rest: seq<ReplayCase>)
    ensures LinesOf([c] + rest) == [Line(Hashed(c))] + LinesOf(rest)
  {
    assert ([c] + rest)[1..] == rest;
    assert AllFields([c] + rest) == [Hashed(c)] + AllFields(rest);
    assert ([Hashed(c)] + AllFields(rest))[1..] == AllFields(rest);
  }

  // ----- order plays no part -----

  lemma {:induction false} MapConcat<A, B>(a: seq<A>, b: seq<A>, f: A -> B)
    ensures Map(a + b, f) == Map(a, f) + Map(b, f)
  {
    if a == [] {
      assert a + b == b;
    } else {
      assert (a + b)[1..] == a[1..] + b;
      MapConcat(a[1..], b, f);
      Assoc([f(a[0])], Map(a[1..], f), Map(b, f));
    }
  }

  lemma Cancel<A>(x: multiset<A>, y: multiset<A>, v: A)
    requires x + multiset{v} == y + multiset{v}
    ensures x == y
  {
    assert x == (x + multiset{v}) - multiset{v} == y;
  }

  /** Taking one occurrence of `v` out of a list, before and after mapping. */
  lemma TakeOut<A, B>(b: seq<A>, v: A, f: A -> B) returns (rest: seq<A>)
    requires v in b
    ensures |rest| == |b| - 1
    ensures multiset(b) == multiset(rest) + multiset{v} && multiset(Map(b, f)) == multiset(Map(rest, f)) + multiset{f(v)}
  {
    var i :| 0 <= i < |b| && b[i] == v;
    rest := b[..i] + b[i + 1..];
    Cut(b, i, []);
    MapConcat(b[..i], b[i + 1..], f);
    MapConcat(b[..i] + [v], b[i + 1..], f);
    MapConcat(b[..i], [v], f);
    assert Map([v], f) == [f(v)];
  }

  lemma {:induction false} MapPermutes<A, B>(a: seq<A>, b: seq<A>, f: A -> B)
    requires multiset(a) == multiset(b)
    ensures multiset(Map(a, f)) == multiset(Map(b, f))
    decreases |a|
  {
    if a == [] {
      assert |b| == |multiset(b)| == 0;
    } else {
      var v := a[0];
      assert v in multiset(a) && v in multiset(b);
      var a' := TakeOut(a, v, f);
      var b' := TakeOut(b, v, f);
      Cancel(multiset(a'), multiset(b'), v);
      MapPermutes(a', b', f);
    }
  }

  /** Reordering the seeds leaves the digest as it is. */
  lemma DigestIgnoresOrder(a: seq<ReplayCase>, b: seq<ReplayCase>, hash: string -> string)
    requires multiset(a) == multiset(b)
    ensures Digest(a, hash) == Digest(b, hash)
  {
    MapPermutes(a, b, Hashed);
    MapPermutes(AllFields(a), AllFields(b), Line);
    SortIgnoresOrder(LinesOf(a), LinesOf(b));
  }

  // ----- every change is noticed -----

  /** No field holds a NUL, the separator, and the id, which comes first, holds no newline. */
  predicate IsEncodable(fields: seq<string>) {
    |fields| == 8 && NL !in fields[0] && forall i :: 0 <= i < 8 ==> NUL !in fields[i]
  }

  predicate AreEncodable(fs: seq<seq<string>>) {
    forall i :: 0 <= i < |fs| ==> IsEncodable(fs[i])
  }

  lemma LineSplits(fields: seq<string>)
    requires IsEncodable(fields)
    ensures Split(Line(fields), NUL) == fields
  {
    SplitOfJoin(fields, NUL);
  }

  /** Two NUL-free texts before a NUL or the end: they are the same when the whole texts are. */
  lemma FirstPart(a: string, x: string, b: string, y: string)
    requires NUL !in a && NUL !in b && a + x == b + y
    requires (x == "" || x[0] == NUL) && (y == "" || y[0] == NUL)
    ensures a == b && x == y
  {
    StopsAtNul(a, x);
    StopsAtNul(b, y);
    assert a == (a + x)[..|a|] && b == (b + y)[..|b|];
    assert x == (a + x)[|a|..] && y == (b + y)[|b|..];
  }

  lemma StopsAtNul(a: string, x: string)
    requires NUL !in a && (x == "" || x[0] == NUL)
    ensures IndexOf(a + x, NUL) == |a|
  {
    IndexOfPrefix(a, NUL, if x == "" then "" else x[1..]);
    if x == "" {
      assert a + x == a;
    } else {
      ConsTail(x);
      Assoc(a, [NUL], x[1..]);
    }
  }

  /** Two newline-free texts after the last newline: they are the same when the whole texts are. */
  lemma LastPart(b: string, i: string, c: string, j: string)
    requires NL !in i && NL !in j && b + ([NL] + i) == c + ([NL] + j)
    ensures b == c && i == j
  {
    Assoc(b, [NL], i);
    Assoc(c, [NL], j);
    SplitConcat(b, NL, i);
    SplitConcat(c, NL, j);
    SplitFirst(i, NL, "");
    SplitFirst(j, NL, "");
    var parts := Split(b + [NL] + i, NL);
    assert parts[|parts| - 1] == i && parts[|parts| - 1] == j;
    assert |b| == |c|;
    assert b == (b + ([NL] + i))[..|b|] && c == (c + ([NL] + j))[..|c|];
  }

  /** Peeling off the fields before the last one: `Join` of the same number of NUL-free fields. */
  lemma {:induction false} SameFields(f: seq<string>, x: string, g: seq<string>, y: string)
    requires |f| == |g| >= 1 && (forall i :: 0 <= i < |f| ==> NUL !in f[i] && NUL !in g[i])
    requires Line(f) + x == Line(g) + y
    ensures f[..|f| - 1] == g[..|g| - 1] && f[|f| - 1] + x == g[|g| - 1] + y
  {
    if |f| > 1 {
      var ft, gt := Line(f[1..]), Line(g[1..]);
      Assoc(f[0] + [NUL], ft, x);
      Assoc(f[0], [NUL], ft + x);
      Assoc(g[0] + [NUL], gt, y);
      Assoc(g[0], [NUL], gt + y);
      FirstPart(f[0], [NUL] + (ft + x), g[0], [NUL] + (gt + y));
      PrefixCut([NUL], ft + x);
      PrefixCut([NUL], gt + y);
      SameFields(f[1..], x, g[1..], y);
      assert f[..|f| - 1] == [f[0]] + f[1..][..|f| - 2];
      assert g[..|g| - 1] == [g[0]] + g[1..][..|g| - 2];
    }
  }

  /** The text after the first field of a fed list begins with the separator. */
  lemma FedStart(f: seq<string>, rest: string) returns (after: string)
    requires IsEncodable(f)
    ensures Line(f) + rest == f[0] + ([NUL] + after)
  {
    after := Line(f[1..]) + rest;
    Assoc(f[0] + [NUL], Line(f[1..]), rest);
    Assoc(f[0], [NUL], after);
  }

  /** The fed text determines the list of lines. */
  lemma {:induction false} FedIsInjective(fs: seq<seq<string>>, gs: seq<seq<string>>)
    requires AreEncodable(fs) && AreEncodable(gs)
    requires Fed(Map(fs, Line)) == Fed(Map(gs, Line))
    ensures fs == gs
    decreases |fs|
  {
    if fs == [] || gs == [] {
      FedIsEmptyIff(fs);
      FedIsEmptyIff(gs);
    } else {
      var f, g := fs[0], gs[0];
      var x, y := Fed(Map(fs[1..], Line)), Fed(Map(gs[1..], Line));
      FedCons(fs);
      FedCons(gs);
      SameFields(f, [NL] + x, g, [NL] + y);
      SameBody(f[7], fs[1..], g[7], gs[1..]);
      assert f == f[..7] + [f[7]] && g == g[..7] + [g[7]];
      FedIsInjective(fs[1..], gs[1..]);
      ConsTail(fs);
      ConsTail(gs);
    }
  }

  lemma FedCons(fs: seq<seq<string>>)
    requires fs != []
    ensures Fed(Map(fs, Line)) == Line(fs[0]) + ([NL] + Fed(Map(fs[1..], Line)))
  {
    PrefixCut([Line(fs[0])], Map(fs[1..], Line));
  }

  lemma FedIsEmptyIff(fs: seq<seq<string>>)
    ensures Fed(Map(fs, Line)) == "" <==> fs == []
  {
    if fs != [] { FedCons(fs); }
  }

  /** Two last fields followed by the same rest of the feed are the same field before the same rest. */
  lemma SameBody(b: string, fs: seq<seq<string>>, c: string, gs: seq<seq<string>>)
    requires NUL !in b && NUL !in c && AreEncodable(fs) && AreEncodable(gs)
    requires b + ([NL] + Fed(Map(fs, Line))) == c + ([NL] + Fed(Map(gs, Line)))
    ensures b == c && Fed(Map(fs, Line)) == Fed(Map(gs, Line))
  {
    var bx := BodyStart(b, fs);
    var cy := BodyStart(c, gs);
    FirstPart(b + ([NL] + FirstID(fs)), bx, c + ([NL] + FirstID(gs)), cy);
    LastPart(b, FirstID(fs), c, FirstID(gs));
    assert (b + ([NL] + Fed(Map(fs, Line))))[|b| + 1..] == Fed(Map(fs, Line));
    assert (c + ([NL] + Fed(Map(gs, Line))))[|c| + 1..] == Fed(Map(gs, Line));
  }

  function FirstID(fs: seq<seq<string>>): string
    requires AreEncodable(fs)
  {
    if fs == [] then "" else fs[0][0]
  }

  lemma BodyStart(b: string, fs: seq<seq<string>>) returns (after: string)
    requires NUL !in b && AreEncodable(fs)
    ensures NUL !in b + ([NL] + FirstID(fs)) && NL !in FirstID(fs)
    ensures after == "" || after[0] == NUL
    ensures b + ([NL] + Fed(Map(fs, Line))) == b + ([NL] + FirstID(fs)) + after
  {
    if fs == [] {
      after := "";
      assert [NL] + "" == [NL];
      assert b + [NL] + "" == b + [NL];
    } else {
      FedCons(fs);
      var tail := FedStart(fs[0], [NL] + Fed(Map(fs[1..], Line)));
      after := [NUL] + tail;
      Assoc([NL], fs[0][0], after);
      Assoc(b, [NL] + fs[0][0], after);
    }
  }

  lemma {:induction false} UnmapLines(fs: seq<seq<string>>)
    requires AreEncodable(fs)
    ensures Map(Map(fs, Line), (l: string) => Split(l, NUL)) == fs
  {
    if fs != [] {
      var split := (l: string) => Split(l, NUL);
      PrefixCut([Line(fs[0])], Map(fs[1..], Line));
      LineSplits(fs[0]);
      UnmapLines(fs[1..]);
      ConsTail(fs);
    }
  }

  /** A sorted list of lines comes from a list of encodable field lists. */
  lemma SortedFields(seeds: seq<ReplayCase>) returns (fs: seq<seq<string>>)
    requires AreEncodable(AllFields(seeds))
    ensures AreEncodable(fs) && Map(fs, Line) == SortStrings(LinesOf(seeds)) && multiset(fs) == multiset(AllFields(seeds))
  {
    var all := AllFields(seeds);
    var split := (l: string) => Split(l, NUL);
    fs := Map(SortStrings(LinesOf(seeds)), split);
    MapPermutes(SortStrings(LinesOf(seeds)), LinesOf(seeds), split);
    UnmapLines(all);
    forall i | 0 <= i < |fs| ensures IsEncodable(fs[i]) {
      assert fs[i] in multiset(all);
      var k :| 0 <= k < |all| && all[k] == fs[i];
    }
    RemapLines(SortStrings(LinesOf(seeds)), fs);
  }

  lemma {:induction false} RemapLines(ls: seq<string>, fs: seq<seq<string>>)
    requires fs == Map(ls, (l: string) => Split(l, NUL))
    ensures Map(fs, Line) == ls
  {
    if ls != [] {
      JoinOfSplit(ls[0], NUL);
      PrefixCut([Split(ls[0], NUL)], Map(ls[1..], (l: string) => Split(l, NUL)));
      RemapLines(ls[1..], fs[1..]);
      ConsTail(ls);
    }
  }

  ghost predicate NoCollision(hash: string -> string, a: seq<ReplayCase>, b: seq<ReplayCase>) {
    var x, y := Fed(SortStrings(LinesOf(a))), Fed(SortStrings(LinesOf(b)));
    hash(x) == hash(y) ==> x == y
  }

  /** Two seed sets have the same digest exactly when they hash the same fields, in whatever order. */
  lemma DigestDetectsEveryChange(a: seq<ReplayCase>, b: seq<ReplayCase>, hash: string -> string)
    requires AreEncodable(AllFields(a)) && AreEncodable(AllFields(b)) && NoCollision(hash, a, b)
    ensures Digest(a, hash) == Digest(b, hash) <==> multiset(AllFields(a)) == multiset(AllFields(b))
  {
    if Digest(a, hash) == Digest(b, hash) {
      var fa := SortedFields(a);
      var fb := SortedFields(b);
      FedIsInjective(fa, fb);
    }
    if multiset(AllFields(a)) == multiset(AllFields(b)) {
      MapPermutes(AllFields(a), AllFields(b), Line);
      SortIgnoresOrder(LinesOf(a), LinesOf(b));
    }
  }

  // ----- why NULs and newlines are excluded -----

  /** Joining pieces that were joined before. */
  lemma {:induction false} JoinJoinedFront(a: seq<string>, b: seq<string>, sep: string)
    requires a != [] && b != []
    ensures Join([Join(a, sep)] + b, sep) == Join(a + b, sep)
  {
    assert ([Join(a, sep)] + b)[1..] == b && (a + b)[1..] == a[1..] + b;
    if |a| == 1 {
      assert a[1..] + b == b;
    } else {
      JoinJoinedFront(a[1..], b, sep);
      assert ([Join(a[1..], sep)] + b)[1..] == b;
      Assoc(a[0] + sep, Join(a[1..], sep), sep + Join(b, sep));
      Assoc(Join(a[1..], sep), sep, Join(b, sep));
      Assoc(Join(a, sep), sep, Join(b, sep));
    }
  }

  lemma {:induction false} JoinJoinedBack(a: seq<string>, b: seq<string>, sep: string)
    requires b != []
    ensures Join(a + [Join(b, sep)], sep) == Join(a + b, sep)
  {
    if a == [] {
      assert [] + [Join(b, sep)] == [Join(b, sep)] && [] + b == b;
    } else {
      assert (a + [Join(b, sep)])[1..] == a[1..] + [Join(b, sep)] && (a + b)[1..] == a[1..] + b;
      JoinJoinedBack(a[1..], b, sep);
    }
  }

  /** A line has at least as many parts as it has fields, and more exactly when a field holds the separator. */
  lemma {:induction false} PartsOfLine(f: seq<string>)
    requires f != []
    ensures |Split(Line(f), NUL)| >= |f|
    ensures |Split(Line(f), NUL)| > |f| <==> exists i :: 0 <= i < |f| && NUL in f[i]
  {
    PartsOfText(f[0]);
    if |f| > 1 {
      PartsOfLine(f[1..]);
      SplitConcat(f[0], NUL, Line(f[1..]));
      assert (exists i :: 0 <= i < |f| && NUL in f[i]) <==> NUL in f[0] || exists i :: 0 <= i < |f[1..]| && NUL in f[1..][i] by {
        if i :| 1 <= i < |f| && NUL in f[i] { assert NUL in f[1..][i - 1]; }
        if i :| 0 <= i < |f[1..]| && NUL in f[1..][i] { assert NUL in f[i + 1]; }
      }
    }
  }

  lemma PartsOfText(s: string)
    ensures |Split(s, NUL)| > 1 <==> NUL in s
  {
    var k := IndexOf(s, NUL);
    if k == |s| { assert s[..k] == s; }
  }

  /** A line with too many parts can be divided into fields so that the last holds the separators, and so that the first does. */
  lemma TwoReadings(parts: seq<string>, n: nat) returns (g: seq<string>, h: seq<string>)
    requires n >= 2 && |parts| > n && forall i :: 0 <= i < |parts| ==> NUL !in parts[i]
    ensures |g| == |h| == n && g[0] != h[0] && Line(g) == Line(h) == Line(parts)
  {
    var k := |parts| - n + 1;
    g := parts[..n - 1] + [Line(parts[n - 1..])];
    h := [Line(parts[..k])] + parts[k..];
    JoinJoinedBack(parts[..n - 1], parts[n - 1..], [NUL]);
    JoinJoinedFront(parts[..k], parts[k..], [NUL]);
    assert parts[..n - 1] + parts[n - 1..] == parts == parts[..k] + parts[k..];
    SplitOfJoin(parts[..k], NUL);
    PartsOfText(Line(parts[..k]));
  }

  /** Eight fields can be recovered from their line if and only if none of them holds the separator. */
  lemma LineIsAmbiguousIff(f: seq<string>)
    requires |f| == 8
    ensures (exists g: seq<string> :: |g| == 8 && g != f && Line(g) == Line(f)) <==> exists i :: 0 <= i < 8 && NUL in f[i]
  {
    PartsOfLine(f);
    if exists i :: 0 <= i < 8 && NUL in f[i] {
      var parts := Split(Line(f), NUL);
      var g, h := TwoReadings(parts, 8);
      JoinOfSplit(Line(f), NUL);
      assert (g != f && Line(g) == Line(f)) || (h != f && Line(h) == Line(f));
    } else {
      forall g: seq<string> | |g| == 8 && Line(g) == Line(f) ensures g == f {
        PartsOfLine(g);
        SplitOfJoin(f, NUL);
        SplitOfJoin(g, NUL);
      }
    }
  }

  /** So two seeds with a NUL may have the same digest, whatever the hash. */
  lemma NulsMayCollide(c: ReplayCase, x: string, y: string, z: string, hash: string -> string)
    ensures Digest([c.(id := x + ([NUL] + y), name := z)], hash) == Digest([c.(id := x, name := y + ([NUL] + z))], hash)
  {
    var c1, c2 := c.(id := x + ([NUL] + y), name := z), c.(id := x, name := y + ([NUL] + z));
    var rest := Hashed(c)[2..];
    var tail := [NUL] + Line(rest);
    LineOfTwo(c1.id, c1.name, rest);
    LineOfTwo(c2.id, c2.name, rest);
    Assoc(x, [NUL] + y, [NUL] + (z + tail));
    Assoc([NUL], y, [NUL] + (z + tail));
    Assoc(y, [NUL] + z, tail);
    Assoc([NUL], z, tail);
    assert Hashed(c1) == [c1.id, c1.name] + rest && Hashed(c2) == [c2.id, c2.name] + rest;
    OneLine(c1);
    OneLine(c2);
  }

  lemma LineOfTwo(a: string, b: string, rest: seq<string>)
    requires rest != []
    ensures Line([a, b] + rest) == a + ([NUL] + (b + ([NUL] + Line(rest))))
  {
    var f := [a, b] + rest;
    assert f[1..] == [b] + rest && f[1..][1..] == rest;
    assert Line(f) == a + [NUL] + Line(f[1..]) && Line(f[1..]) == b + [NUL] + Line(f[1..][1..]);
    Assoc(b, [NUL], Line(rest));
    Assoc(a, [NUL], b + ([NUL] + Line(rest)));
  }

  lemma OneLine(c: ReplayCase)
    ensures LinesOf([c]) == [Line(Hashed(c))]
  {
    MapCons(c, []);
    assert [c] + [] == [c] && LinesOf([]) == [];
  }

  lemma SortKeepsTwo(a: string, b: string)
    requires Leq(a, b)
    ensures SortStrings([a, b]) == [a, b]
  {
    assert [a, b][1..] == [b] && [b][1..] == [];
    assert SortStrings([b]) == [b];
  }

  lemma TwoLines(c1: ReplayCase, c2: ReplayCase)
    ensures LinesOf([c1, c2]) == [Line(Hashed(c1)), Line(Hashed(c2))]
  {
    OneLine(c2);
    MapCons(c1, [c2]);
    assert [c1] + [c2] == [c1, c2];
  }

  /** A line begins with its id and ends with its body. */
  lemma LineEnds(c: ReplayCase) returns (rest: string)
    ensures Line(Hashed(c)) == c.id + ([NUL] + rest)
    ensures forall id: string :: Line(Hashed(c.(id := id))) == id + ([NUL] + rest)
  {
    rest := Line(Hashed(c)[1..]);
    forall id: string ensures Line(Hashed(c.(id := id))) == id + ([NUL] + rest) {
      assert Hashed(c.(id := id))[1..] == Hashed(c)[1..];
      Assoc(id, [NUL], rest);
    }
    assert c.(id := c.id) == c;
  }

  lemma LineBody(c: ReplayCase, front: string, body: string)
    requires front == Line(Hashed(c)[..7])
    ensures Line(Hashed(c.(body := body))) == front + ([NUL] + body)
  {
    var f := Hashed(c.(body := body));
    assert f == Hashed(c)[..7] + [body] && [body][1..] == [];
    JoinSnoc(Hashed(c)[..7], body, [NUL]);
  }

  lemma {:induction false} JoinSnoc(a: seq<string>, b: string, sep: string)
    requires a != []
    ensures Join(a + [b], sep) == Join(a, sep) + (sep + b)
  {
    assert (a + [b])[1..] == a[1..] + [b];
    if |a| == 1 {
      assert a[1..] + [b] == [b];
      Assoc(a[0], sep, b);
    } else {
      JoinSnoc(a[1..], b, sep);
      Assoc(a[0] + sep, Join(a[1..], sep), sep + b);
    }
  }

  /** A newline in an id may stand for the end of the line before: what follows it there belongs to the body here. */
  lemma NewlinesMayCollide(c1: ReplayCase, c2: ReplayCase, x: string, y: string, hash: string -> string)
    requires c1.id == "a" && x != "" && y != "" && x[0] == y[0] == 'b'
    ensures Digest([c1, c2.(id := x + ([NL] + y))], hash) == Digest([c1.(body := c1.body + ([NL] + x)), c2.(id := y)], hash)
  {
    var d1, d2, e1, e2 := c1, c2.(id := x + ([NL] + y)), c1.(body := c1.body + ([NL] + x)), c2.(id := y);
    var rest := LineEnds(c2);
    var front := Line(Hashed(c1)[..7]);
    LineBody(c1, front, c1.body);
    LineBody(c1, front, e1.body);
    assert c1.(body := c1.body) == c1;
    var l1, l2, m1, m2 := Line(Hashed(d1)), Line(Hashed(d2)), Line(Hashed(e1)), Line(Hashed(e2));
    FirstIsA(c1);
    FirstIsA(e1);
    assert l2[0] == 'b' && m2[0] == 'b';
    TwoLines(d1, d2);
    TwoLines(e1, e2);
    SortKeepsTwo(l1, l2);
    SortKeepsTwo(m1, m2);
    FedTwo(l1, l2);
    FedTwo(m1, m2);
    var u, tail := front + ([NUL] + c1.body), [NUL] + rest;
    BodyThenLine(front, c1.body, x);
    NewlineMoves(u, x, y, tail);
  }

  lemma BodyThenLine(front: string, body: string, x: string)
    ensures front + ([NUL] + (body + ([NL] + x))) == (front + ([NUL] + body)) + ([NL] + x)
  {
    Assoc([NUL], body, [NL] + x);
    Assoc(front, [NUL] + body, [NL] + x);
  }

  lemma NewlineMoves(u: string, x: string, y: string, tail: string)
    ensures u + ([NL] + (((x + ([NL] + y)) + tail) + [NL])) == (u + ([NL] + x)) + ([NL] + ((y + tail) + [NL]))
  {
    Assoc(x, [NL] + y, tail);
    Assoc([NL], y, tail);
    Assoc(x, [NL] + (y + tail), [NL]);
    Assoc([NL], y + tail, [NL]);
    var z := [NL] + ((y + tail) + [NL]);
    Assoc([NL], x, z);
    Assoc(u, [NL] + x, z);
  }

  lemma FirstIsA(c: ReplayCase)
    requires c.id == "a"
    ensures Line(Hashed(c)) != "" && Line(Hashed(c))[0] == 'a'
  {
    var rest := LineEnds(c);
  }

  lemma FedTwo(a: string, b: string)
    ensures Fed([a, b]) == a + ([NL] + (b + [NL]))
  {
    assert [a, b][1..] == [b] && [b][1..] == [];
    assert Fed([b]) == b + ([NL] + Fed([])) && [NL] + Fed([]) == [NL];
    assert Fed([a, b]) == a + ([NL] + Fed([a, b][1..]));
  }

  // ----- over the cases themselves -----

  /** The case without the two fields that are not hashed. */
  function Blanked(c: ReplayCase): ReplayCase {
    c.(source := "", createdAt := "")
  }

  /** No NUL in any of the eight fields that are written from the seed, no newline in the id. */
  predicate IsClean(c: ReplayCase) {
    && NL !in c.id && NUL !in c.id && NUL !in c.name && NUL !in c.tags && NUL !in c.provider && NUL !in c.method_
    && NUL !in c.target && NUL !in c.endpoint && NUL !in c.body
  }

  predicate AreClean(seeds: seq<ReplayCase>) {
    forall k :: 0 <= k < |seeds| ==> IsClean(seeds[k])
  }

  function Blankeds(seeds: seq<ReplayCase>): seq<ReplayCase> {
    Map(seeds, Blanked)
  }

  /** The case with these eight fields. */
  function Rebuilt(f: seq<string>): ReplayCase {
    if |f| == 8 then ReplayCase(f[0], f[1], f[2], f[3], f[4], f[5], f[6], f[7], "", "")
    else ReplayCase("", "", "", "", "", "", "", "", "", "")
  }

  lemma {:induction false} FieldsRebuild(seeds: seq<ReplayCase>)
    ensures Map(AllFields(seeds), Rebuilt) == Blankeds(seeds) && AllFields(Blankeds(seeds)) == AllFields(seeds)
  {
    if seeds != [] {
      FieldsRebuild(seeds[1..]);
      PrefixCut([Hashed(seeds[0])], AllFields(seeds[1..]));
      PrefixCut([Blanked(seeds[0])], Blankeds(seeds[1..]));
    }
  }

  lemma {:induction false} CleanIsEncodable(seeds: seq<ReplayCase>)
    requires AreClean(seeds)
    ensures AreEncodable(AllFields(seeds))
  {
    if seeds != [] {
      CleanIsEncodable(seeds[1..]);
      assert IsEncodable(Hashed(seeds[0]));
    }
  }

  lemma SameFieldsIffSameCases(a: seq<ReplayCase>, b: seq<ReplayCase>)
    ensures multiset(AllFields(a)) == multiset(AllFields(b)) <==> multiset(Blankeds(a)) == multiset(Blankeds(b))
  {
    FieldsRebuild(a);
    FieldsRebuild(b);
    if multiset(AllFields(a)) == multiset(AllFields(b)) {
      MapPermutes(AllFields(a), AllFields(b), Rebuilt);
    }
    if multiset(Blankeds(a)) == multiset(Blankeds(b)) {
      MapPermutes(Blankeds(a), Blankeds(b), Hashed);
    }
  }

  /** Two seed sets have the same digest exactly when they are the same cases, in whatever order, but for source and
      creation time: any change of any other field is noticed. */
  lemma DigestDetectsEveryField(a: seq<ReplayCase>, b: seq<ReplayCase>, hash: string -> string)
    requires AreClean(a) && AreClean(b) && NoCollision(hash, a, b)
    ensures Digest(a, hash) == Digest(b, hash) <==> multiset(Blankeds(a)) == multiset(Blankeds(b))
  {
    CleanIsEncodable(a);
    CleanIsEncodable(b);
    DigestDetectsEveryChange(a, b, hash);
    SameFieldsIffSameCases(a, b);
  }
}
