/** Text helpers behind the program's string handling.  A string is a sequence of code points. */
module Text {
  import opened Sequences

  /** Unicode's White_Space property, which Go's TrimSpace and Fields split on. */
  predicate IsSpace(c: char) {
    var u := c as int;
    (9 <= u <= 13) || u == 0x20 || u == 0x85 || u == 0xA0 || u == 0x1680 || (0x2000 <= u <= 0x200A) ||
    u == 0x2028 || u == 0x2029 || u == 0x202F || u == 0x205F || u == 0x3000
  }

  const NUL: char := 0 as char

  /** No line holds a line break. */
  predicate AreLines(ls: seq<string>) {
    forall i :: 0 <= i < |ls| ==> '\n' !in ls[i]
  }

  predicate HasPrefix(s: string, p: string) {
    p <= s
  }

  predicate OccursAt(haystack: string, needle: string, i: nat) {
    i + |needle| <= |haystack| && haystack[i..i + |needle|] == needle
  }

  /** Go's strings.Contains. */
  predicate Contains(haystack: string, needle: string) {
    exists i | 0 <= i <= |haystack| :: OccursAt(haystack, needle, i)
  }

  // ----- trimming -----

  predicate IsTrimmed(s: string) {
    s == "" || (!IsSpace(s[0]) && !IsSpace(s[|s| - 1]))
  }

  function TrimLeft(s: string): (t: string)
    ensures t == "" || !IsSpace(t[0])
    ensures t == s || (s != "" && IsSpace(s[0]))
    ensures exists k :: 0 <= k <= |s| && t == s[k..]
    ensures forall c :: c in t ==> c in s
  {
    if s != "" && IsSpace(s[0]) then
      var t := TrimLeft(s[1..]);
      assert forall k :: 0 <= k <= |s[1..]| ==> s[1..][k..] == s[k + 1..];
      t
    else assert s == s[0..]; s
  }

  function TrimRight(s: string): (t: string)
    ensures t <= s && (t == "" || !IsSpace(t[|t| - 1]))
    ensures forall c :: c in t ==> c in s
    ensures t == s || (s != "" && IsSpace(s[|s| - 1]))
  {
    if s != "" && IsSpace(s[|s| - 1]) then TrimRight(s[..|s| - 1]) else s
  }

  function Trim(s: string): (t: string)
    ensures IsTrimmed(t)
    ensures IsTrimmed(s) ==> t == s
    ensures forall c :: c in t ==> c in s
  {
    TrimRight(TrimLeft(s))
  }

  predicate AreSpaces(s: string) {
    forall i :: 0 <= i < |s| ==> IsSpace(s[i])
  }

  /** The 25 code points that Unicode counts as white space. */
  lemma SpacesAre(c: char)
    ensures IsSpace(c) <==> c as int in {9, 10, 11, 12, 13, 32, 133, 160, 5760, 8192, 8193, 8194, 8195, 8196, 8197, 8198, 8199,
                                         8200, 8201, 8202, 8232, 8233, 8239, 8287, 12288}
  {
  }

  lemma {:induction false} TrimLeftStrips(a: string, t: string)
    requires AreSpaces(a) && (t == "" || !IsSpace(t[0]))
    ensures TrimLeft(a + t) == t
  {
    if a == "" {
      assert a + t == t;
    } else {
      assert (a + t)[0] == a[0] && (a + t)[1..] == a[1..] + t;
      TrimLeftStrips(a[1..], t);
    }
  }

  lemma {:induction false} TrimRightStrips(t: string, b: string)
    requires AreSpaces(b) && (t == "" || !IsSpace(t[|t| - 1]))
    ensures TrimRight(t + b) == t
  {
    if b == "" {
      assert t + b == t;
    } else {
      var b' := b[..|b| - 1];
      assert (t + b)[|t + b| - 1] == b[|b| - 1] && (t + b)[..|t + b| - 1] == t + b';
      TrimRightStrips(t, b');
    }
  }

  /** Trimming takes away exactly the white space around a text. */
  lemma TrimStrips(a: string, t: string, b: string)
    requires AreSpaces(a) && IsTrimmed(t) && AreSpaces(b)
    ensures Trim(a + (t + b)) == t
  {
    if t == "" {
      assert t + b == b && AreSpaces(a + b);
      assert a + b == (a + b) + "";
      TrimLeftStrips(a + b, "");
    } else {
      assert (t + b)[0] == t[0];
      TrimLeftStrips(a, t + b);
      TrimRightStrips(t, b);
    }
  }

  // ----- splitting at one character and joining -----

  /** The first position of `c`, or the length when there is none. */
  function IndexOf(s: string, c: char): (k: nat)
    ensures k <= |s| && c !in s[..k]
    ensures k < |s| ==> s[k] == c
  {
    if s == "" || s[0] == c then 0
    else
      var k := IndexOf(s[1..], c) + 1;
      assert s[..k] == [s[0]] + s[1..][..k - 1];
      k
  }

  lemma {:induction false} IndexOfPrefix(s: string, c: char, rest: string)
    requires c !in s
    ensures IndexOf(s + [c] + rest, c) == |s| && IndexOf(s, c) == |s|
  {
    if s == "" {
    } else {
      IndexOfPrefix(s[1..], c, rest);
      assert (s + [c] + rest)[1..] == s[1..] + [c] + rest;
    }
  }

  function Split(s: string, sep: char): (parts: seq<string>)
    ensures parts != [] && forall i :: 0 <= i < |parts| ==> sep !in parts[i]
    decreases |s|
  {
    var k := IndexOf(s, sep);
    if k == |s| then assert s[..k] == s; [s] else [s[..k]] + Split(s[k + 1..], sep)
  }

  function Join(parts: seq<string>, sep: string): string {
    if parts == [] then ""
    else if |parts| == 1 then parts[0]
    else parts[0] + sep + Join(parts[1..], sep)
  }

  lemma {:induction false} JoinOfSplit(s: string, sep: char)
    ensures Join(Split(s, sep), [sep]) == s
    decreases |s|
  {
    var k := IndexOf(s, sep);
    if k < |s| {
      JoinOfSplit(s[k + 1..], sep);
      assert Split(s, sep)[1..] == Split(s[k + 1..], sep);
      Cut(s, k, "");
    }
  }

  lemma SplitFirst(l: string, sep: char, rest: string)
    requires sep !in l
    ensures Split(l + [sep] + rest, sep) == [l] + Split(rest, sep)
    ensures Split(l, sep) == [l]
  {
    var s := l + [sep] + rest;
    IndexOfPrefix(l, sep, rest);
    assert s[..|l|] == l && s[|l| + 1..] == rest;
  }

  lemma {:induction false} SplitConcat(a: string, sep: char, b: string)
    ensures Split(a + [sep] + b, sep) == Split(a, sep) + Split(b, sep)
    decreases |a|
  {
    var k := IndexOf(a, sep);
    if k == |a| {
      SplitFirst(a, sep, b);
    } else {
      var l, rest := a[..k], a[k + 1..];
      Cut(a, k, [sep] + b);
      Assoc(a, [sep], b);
      Assoc(rest, [sep], b);
      SplitFirst(l, sep, rest);
      SplitFirst(l, sep, rest + [sep] + b);
      SplitConcat(rest, sep, b);
      Assoc([l], Split(rest, sep), Split(b, sep));
    }
  }

  lemma {:induction false} SplitOfJoin(parts: seq<string>, sep: char)
    requires parts != [] && forall i :: 0 <= i < |parts| ==> sep !in parts[i]
    ensures Split(Join(parts, [sep]), sep) == parts
  {
    if |parts| == 1 {
      SplitFirst(parts[0], sep, "");
    } else {
      SplitOfJoin(parts[1..], sep);
      SplitFirst(parts[0], sep, Join(parts[1..], [sep]));
      ConsTail(parts);
    }
  }
}
