/** The alignment of two message sequences (frontend/src/viewmodel/diff.ts).

    `DiffMessages` fills a table of longest-common-subsequence lengths from the back and walks it
    from the front.  It is proved equal to `EditScript`, and the lemmas say what that script is: a sound
    edit script, with as many unchanged operations as any common subsequence has elements, and with
    removals before additions in every changed stretch. */
module Diff {
  import opened Sequences

  datatype DiffKind = Unchanged | Added | Removed

  datatype DiffOp<M> = DiffOp(kind: DiffKind, message: M)

  function Keys<M, K>(ms: seq<M>, key: M -> K): (ks: seq<K>)
    ensures |ks| == |ms|
    ensures forall i :: 0 <= i < |ms| ==> ks[i] == key(ms[i])
  {
    seq(|ms|, i requires 0 <= i < |ms| => key(ms[i]))
  }

  // ----- reference notions: subsequences and edit scripts -----

  /** `c` can be obtained from `s` by deleting elements. */
  predicate IsSubsequence<K(==)>(c: seq<K>, s: seq<K>) {
    c == [] ||
    (s != [] && ((c[0] == s[0] && IsSubsequence(c[1..], s[1..])) || IsSubsequence(c, s[1..])))
  }

  ghost predicate IsCommon<K>(c: seq<K>, a: seq<K>, b: seq<K>) {
    IsSubsequence(c, a) && IsSubsequence(c, b)
  }

  /** The messages of all operations whose kind is not `k`, in order. */
  function Without<M>(ops: seq<DiffOp<M>>, k: DiffKind): seq<M> {
    if ops == [] then []
    else if ops[0].kind == k then Without(ops[1..], k)
    else [ops[0].message] + Without(ops[1..], k)
  }

  /** The messages of the unchanged operations, in order. */
  function Kept<M>(ops: seq<DiffOp<M>>): seq<M> {
    if ops == [] then []
    else if ops[0].kind == Unchanged then [ops[0].message] + Kept(ops[1..])
    else Kept(ops[1..])
  }

  /** `ops` turns `left` into `right`: undoing the additions gives left's keys,
      carrying out the removals gives right's keys. */
  ghost predicate IsScript<M, K>(ops: seq<DiffOp<M>>, left: seq<M>, right: seq<M>, key: M -> K) {
    Keys(Without(ops, Added), key) == Keys(left, key) && Keys(Without(ops, Removed), key) == Keys(right, key)
  }

  function Cost<M>(ops: seq<DiffOp<M>>): nat {
    if ops == [] then 0 else (if ops[0].kind == Unchanged then 0 else 1) + Cost(ops[1..])
  }

  // ----- what the table holds and what the walk emits -----

  function Max(x: int, y: int): int { if x >= y then x else y }

  function LCS<K(==)>(a: seq<K>, b: seq<K>): nat {
    if a == [] || b == [] then 0
    else if a[0] == b[0] then LCS(a[1..], b[1..]) + 1
    else Max(LCS(a[1..], b), LCS(a, b[1..]))
  }

  /** What the walk emits next. */
  function NextKind<M, K(==)>(left: seq<M>, right: seq<M>, key: M -> K): DiffKind
    requires left != [] || right != []
  {
    if right == [] then Removed
    else if left == [] then Added
    else if key(left[0]) == key(right[0]) then Unchanged
    else if LCS(Keys(left[1..], key), Keys(right, key)) >= LCS(Keys(left, key), Keys(right[1..], key)) then Removed
    else Added
  }

  function EditScript<M, K(==)>(left: seq<M>, right: seq<M>, key: M -> K): seq<DiffOp<M>>
    decreases |left| + |right|
  {
    if left == [] && right == [] then []
    else match NextKind(left, right, key)
      case Unchanged => [DiffOp(Unchanged, right[0])] + EditScript(left[1..], right[1..], key)
      case Removed => [DiffOp(Removed, left[0])] + EditScript(left[1..], right, key)
      case Added => [DiffOp(Added, right[0])] + EditScript(left, right[1..], key)
  }

  // ----- optimality -----

  lemma {:induction false} SubsequenceTail<K>(c: seq<K>, s: seq<K>)
    requires c != [] && IsSubsequence(c, s)
    ensures s != [] && IsSubsequence(c[1..], s[1..]) && IsSubsequence(c[1..], s)
  {
    if !(c[0] == s[0] && IsSubsequence(c[1..], s[1..])) {
      SubsequenceTail(c, s[1..]);
    }
    if c[1..] != [] && s[1..] != [] {
      assert IsSubsequence(c[1..], s);
    }
  }

  /** No common subsequence is longer than the table's entry. */
  lemma {:induction false} LcsIsUpperBound<K>(c: seq<K>, a: seq<K>, b: seq<K>)
    requires IsCommon(c, a, b)
    ensures |c| <= LCS(a, b)
    decreases |a| + |b|
  {
    if c == [] || a == [] || b == [] {
    } else if a[0] == b[0] {
      if c[0] == a[0] {
        SubsequenceTail(c, a);
        SubsequenceTail(c, b);
        LcsIsUpperBound(c[1..], a[1..], b[1..]);
      } else {
        LcsIsUpperBound(c, a[1..], b[1..]);
      }
    } else if c[0] != a[0] {
      LcsIsUpperBound(c, a[1..], b);
    } else {
      LcsIsUpperBound(c, a, b[1..]);
    }
  }

  /** In any script the number of changes is what the two lengths leave over. */
  lemma {:induction false} ScriptCost<M>(ops: seq<DiffOp<M>>)
    ensures |Without(ops, Added)| + |Without(ops, Removed)| == 2 * |Kept(ops)| + Cost(ops)
    ensures |ops| == |Kept(ops)| + Cost(ops)
  {
    if ops == [] {
    } else {
      ScriptCost(ops[1..]);
    }
  }

  /** In any script the kept keys are a common subsequence of both sides. */
  lemma {:induction false} ScriptKeepsCommon<M, K>(ops: seq<DiffOp<M>>, key: M -> K)
    ensures IsCommon(Keys(Kept(ops), key), Keys(Without(ops, Added), key), Keys(Without(ops, Removed), key))
  {
    if ops == [] {
    } else {
      ScriptKeepsCommon(ops[1..], key);
      var t, x := ops[1..], key(ops[0].message);
      var c, a, b := Keys(Kept(t), key), Keys(Without(t, Added), key), Keys(Without(t, Removed), key);
      KeysCons(ops[0].message, Kept(t), key);
      KeysCons(ops[0].message, Without(t, Added), key);
      KeysCons(ops[0].message, Without(t, Removed), key);
      SubsequenceCons(c, a, x);
      SubsequenceCons(c, b, x);
    }
  }

  lemma SubsequenceCons<K>(c: seq<K>, s: seq<K>, x: K)
    requires IsSubsequence(c, s)
    ensures IsSubsequence(c, [x] + s) && IsSubsequence([x] + c, [x] + s)
  {
    assert ([x] + s)[1..] == s && ([x] + c)[1..] == c;
  }

  lemma KeysCons<M, K>(m: M, ms: seq<M>, key: M -> K)
    ensures Keys([m] + ms, key) == [key(m)] + Keys(ms, key)
  {
  }

  lemma KeysStep<M, K>(ms: seq<M>, key: M -> K)
    requires ms != []
    ensures Keys(ms, key) == [key(ms[0])] + Keys(ms[1..], key)
    ensures Keys(ms, key)[1..] == Keys(ms[1..], key)
  {
  }

  lemma WithoutCons<M>(op: DiffOp<M>, rest: seq<DiffOp<M>>, k: DiffKind)
    ensures Without([op] + rest, k) == if op.kind == k then Without(rest, k) else [op.message] + Without(rest, k)
  {
    assert ([op] + rest)[1..] == rest;
  }

  /** Carrying out the script's removals gives right's messages themselves, not only their keys. */
  lemma {:induction false} EditScriptYieldsRight<M, K>(left: seq<M>, right: seq<M>, key: M -> K)
    ensures Without(EditScript(left, right, key), Removed) == right
    decreases |left| + |right|
  {
    if left == [] && right == [] {
    } else {
      if right != [] { ConsTail(right); }
      match NextKind(left, right, key) {
        case Unchanged =>
          EditScriptYieldsRight(left[1..], right[1..], key);
          WithoutCons(DiffOp(Unchanged, right[0]), EditScript(left[1..], right[1..], key), Removed);
        case Removed =>
          EditScriptYieldsRight(left[1..], right, key);
          WithoutCons(DiffOp(Removed, left[0]), EditScript(left[1..], right, key), Removed);
        case Added =>
          EditScriptYieldsRight(left, right[1..], key);
          WithoutCons(DiffOp(Added, right[0]), EditScript(left, right[1..], key), Removed);
      }
    }
  }

  /** Undoing the script's additions gives left's keys. */
  lemma {:induction false} EditScriptYieldsLeft<M, K>(left: seq<M>, right: seq<M>, key: M -> K)
    ensures Keys(Without(EditScript(left, right, key), Added), key) == Keys(left, key)
    decreases |left| + |right|
  {
    if left == [] && right == [] {
    } else {
      match NextKind(left, right, key) {
        case Unchanged =>
          var rest := EditScript(left[1..], right[1..], key);
          EditScriptYieldsLeft(left[1..], right[1..], key);
          WithoutCons(DiffOp(Unchanged, right[0]), rest, Added);
          KeysCons(right[0], Without(rest, Added), key);
          KeysStep(left, key);
        case Removed =>
          var rest := EditScript(left[1..], right, key);
          EditScriptYieldsLeft(left[1..], right, key);
          WithoutCons(DiffOp(Removed, left[0]), rest, Added);
          KeysCons(left[0], Without(rest, Added), key);
          KeysStep(left, key);
        case Added =>
          EditScriptYieldsLeft(left, right[1..], key);
          WithoutCons(DiffOp(Added, right[0]), EditScript(left, right[1..], key), Added);
      }
    }
  }

  /** The greedy walk keeps as much as the table promises. */
  lemma {:induction false} EditScriptKeepsLcs<M, K>(left: seq<M>, right: seq<M>, key: M -> K)
    ensures |Kept(EditScript(left, right, key))| == LCS(Keys(left, key), Keys(right, key))
    decreases |left| + |right|
  {
    if left == [] && right == [] {
    } else {
      if left != [] { KeysStep(left, key); }
      if right != [] { KeysStep(right, key); }
      match NextKind(left, right, key) {
        case Unchanged => EditScriptKeepsLcs(left[1..], right[1..], key);
        case Removed => EditScriptKeepsLcs(left[1..], right, key);
        case Added => EditScriptKeepsLcs(left, right[1..], key);
      }
    }
  }

  /** The kept operations are a longest common subsequence, and no sound script changes less. */
  lemma EditScriptIsOptimal<M(!new), K(!new)>(left: seq<M>, right: seq<M>, key: M -> K)
    ensures var ops := EditScript(left, right, key);
            IsCommon(Keys(Kept(ops), key), Keys(left, key), Keys(right, key))
    ensures forall c :: IsCommon(c, Keys(left, key), Keys(right, key)) ==> |c| <= |Kept(EditScript(left, right, key))|
    ensures IsScript(EditScript(left, right, key), left, right, key)
    ensures |EditScript(left, right, key)| == |left| + |right| - |Kept(EditScript(left, right, key))|
    ensures forall other :: IsScript(other, left, right, key) ==> Cost(EditScript(left, right, key)) <= Cost(other)
  {
    var ops := EditScript(left, right, key);
    var a, b := Keys(left, key), Keys(right, key);
    EditScriptYieldsLeft(left, right, key);
    EditScriptYieldsRight(left, right, key);
    EditScriptKeepsLcs(left, right, key);
    ScriptKeepsCommon(ops, key);
    ScriptCost(ops);
    forall c | IsCommon(c, a, b) ensures |c| <= |Kept(ops)| {
      LcsIsUpperBound(c, a, b);
    }
    forall other | IsScript(other, left, right, key) ensures Cost(ops) <= Cost(other) {
      ScriptKeepsCommon(other, key);
      ScriptCost(other);
      LcsIsUpperBound(Keys(Kept(other), key), a, b);
      assert |Without(other, Added)| == |a| && |Without(other, Removed)| == |b|;
      assert |Without(ops, Added)| == |a| && |Without(ops, Removed)| == |b|;
    }
  }

  // ----- the shape a reader sees -----

  lemma {:induction false} LcsDropsSlowly<K>(a: seq<K>, b: seq<K>)
    requires b != []
    ensures LCS(a, b[1..]) <= LCS(a, b)
    decreases |a| + |b|
  {
    if a != [] && a[0] == b[0] && b[1..] != [] {
      if a[0] == b[1] {
        LcsDropsSlowly(a[1..], b[1..]);
      } else {
        LcsDropsSlowly(a, b[1..]);
        SkipCostsAtMostOne(a, b[1..]);
      }
    }
  }

  lemma {:induction false} SkipCostsAtMostOne<K>(a: seq<K>, b: seq<K>)
    requires a != []
    ensures LCS(a, b) <= LCS(a[1..], b) + 1
    decreases |a| + |b|, 0
  {
    if b != [] {
      if a[0] == b[0] {
        LcsDropsSlowly(a[1..], b);
      } else {
        SkipCostsAtMostOne(a, b[1..]);
        LcsDropsSlowly(a[1..], b);
      }
    }
  }

  lemma AddedThenNotRemoved<M, K>(left: seq<M>, right: seq<M>, key: M -> K)
    requires left != [] && right != [] && NextKind(left, right, key) == Added
    ensures NextKind(left, right[1..], key) != Removed
  {
    KeysStep(left, key);
    KeysStep(right, key);
    if right[1..] != [] { KeysStep(right[1..], key); }
    LcsDropsSlowly(Keys(left[1..], key), Keys(right, key));
  }

  /** In every changed stretch the removals come before the additions: no added operation is
      directly followed by a removed one. */
  lemma {:induction false} RemovalsComeFirst<M, K>(left: seq<M>, right: seq<M>, key: M -> K, k: nat)
    requires k + 1 < |EditScript(left, right, key)|
    ensures var ops := EditScript(left, right, key);
            ops[k].kind == Added ==> ops[k + 1].kind != Removed
    decreases |left| + |right|
  {
    var kind := NextKind(left, right, key);
    if k == 0 && kind == Added {
      if left != [] { AddedThenNotRemoved(left, right, key); }
    } else if k > 0 {
      match kind {
        case Unchanged => RemovalsComeFirst(left[1..], right[1..], key, k - 1);
        case Removed => RemovalsComeFirst(left[1..], right, key, k - 1);
        case Added => RemovalsComeFirst(left, right[1..], key, k - 1);
      }
    }
  }

  /** Appending to a conversation shows exactly the appended messages: the shared prefix is unchanged. */
  lemma {:induction false} AppendShowsTheTail<M, K>(left: seq<M>, right: seq<M>, key: M -> K, k: nat)
    requires Keys(left, key) <= Keys(right, key)
    requires k < |right|
    ensures |EditScript(left, right, key)| == |right|
    ensures EditScript(left, right, key)[k] == DiffOp(if k < |left| then Unchanged else Added, right[k])
    decreases |right|
  {
    KeysStep(right, key);
    if left != [] { KeysStep(left, key); }
    var l' := if left == [] then left else left[1..];
    if right[1..] == [] {
    } else {
      AppendShowsTheTail(l', right[1..], key, if k == 0 then 0 else k - 1);
    }
  }

  // ----- the implementation -----

  lemma LcsAt<K>(a: seq<K>, b: seq<K>, i: nat, j: nat)
    requires i < |a| && j < |b|
    ensures LCS(a[i..], b[j..]) == if a[i] == b[j] then LCS(a[i + 1..], b[j + 1..]) + 1
                                   else Max(LCS(a[i + 1..], b[j..]), LCS(a[i..], b[j + 1..]))
  {
    assert a[i..][1..] == a[i + 1..] && b[j..][1..] == b[j + 1..];
  }

  /** The table holds the LCS lengths from row `i`, column `j` on, and the zeros of its last column. */
  ghost predicate IsFilled<K>(dp: array2<int>, a: seq<K>, b: seq<K>, i: nat, j: nat)
    reads dp
  {
    && dp.Length0 == |a| + 1 && dp.Length1 == |b| + 1
    && (forall r, c :: 0 <= r <= |a| && 0 <= c <= |b| && (i < r || (i == r && j <= c)) ==> dp[r, c] == LCS(a[r..], b[c..]))
    && forall r :: 0 <= r <= |a| ==> dp[r, |b|] == 0
  }

  lemma LastRow<K>(dp: array2<int>, a: seq<K>, b: seq<K>)
    requires dp.Length0 == |a| + 1 && dp.Length1 == |b| + 1
    requires forall r, c :: 0 <= r <= |a| && 0 <= c <= |b| ==> dp[r, c] == 0
    ensures IsFilled(dp, a, b, |a|, 0)
  {
    assert a[|a|..] == [];
  }

  lemma NextRow<K>(dp: array2<int>, a: seq<K>, b: seq<K>, i: nat)
    requires i < |a| && IsFilled(dp, a, b, i + 1, 0)
    ensures IsFilled(dp, a, b, i, |b|)
  {
    assert b[|b|..] == [];
  }

  /** The assignment of one entry. */
  method FillEntry<K(==)>(dp: array2<int>, a: seq<K>, b: seq<K>, i: nat, j: nat)
    requires i < |a| && j < |b| && IsFilled(dp, a, b, i, j + 1)
    modifies dp
    ensures IsFilled(dp, a, b, i, j)
  {
    LcsAt(a, b, i, j);
    dp[i, j] := if a[i] == b[j] then dp[i + 1, j + 1] + 1 else Max(dp[i + 1, j], dp[i, j + 1]);
  }

  /** The table filled backwards in place: `dp[r, c]` is the LCS length of the suffixes at `r` and `c`. */
  method FillTable<K(==)>(a: seq<K>, b: seq<K>) returns (dp: array2<int>)
    ensures fresh(dp) && dp.Length0 == |a| + 1 && dp.Length1 == |b| + 1
    ensures forall r, c :: 0 <= r <= |a| && 0 <= c <= |b| ==> dp[r, c] == LCS(a[r..], b[c..])
  {
    var n, m := |a|, |b|;
    dp := new int[n + 1, m + 1]((_, _) => 0);
    LastRow(dp, a, b);
    for i := n downto 0
      invariant IsFilled(dp, a, b, i, 0)
    {
      NextRow(dp, a, b, i);
      for j := m downto 0
        invariant IsFilled(dp, a, b, i, j)
      {
        FillEntry(dp, a, b, i, j);
      }
    }
  }

  /** `ops` is the script up to position `(i, j)`. */
  ghost predicate Emitted<M, K>(ops: seq<DiffOp<M>>, left: seq<M>, right: seq<M>, key: M -> K, i: nat, j: nat)
    requires i <= |left| && j <= |right|
  {
    ops + EditScript(left[i..], right[j..], key) == EditScript(left, right, key)
  }

  /** What the walk may emit at `(i, j)`, in terms of the keys and the table's entries. */
  ghost predicate MayEmit<M, K>(kind: DiffKind, left: seq<M>, right: seq<M>, key: M -> K, i: nat, j: nat) {
    var a, b := Keys(left, key), Keys(right, key);
    match kind
    case Unchanged => i < |a| && j < |b| && a[i] == b[j]
    case Removed => i < |a| && j <= |b| && (j < |b| ==> a[i] != b[j] && LCS(a[i + 1..], b[j..]) >= LCS(a[i..], b[j + 1..]))
    case Added => j < |b| && i <= |a| && (i < |a| ==> a[i] != b[j] && LCS(a[i + 1..], b[j..]) < LCS(a[i..], b[j + 1..]))
  }

  lemma Emit<M, K>(ops: seq<DiffOp<M>>, kind: DiffKind, left: seq<M>, right: seq<M>, key: M -> K, i: nat, j: nat)
    requires MayEmit(kind, left, right, key, i, j)
    requires Emitted(ops, left, right, key, i, j)
    ensures Emitted(ops + [DiffOp(kind, if kind == Removed then left[i] else right[j])], left, right, key,
                    if kind == Added then i else i + 1, if kind == Removed then j else j + 1)
  {
    var a, b := Keys(left, key), Keys(right, key);
    var l, r := left[i..], right[j..];
    assert Keys(l, key) == a[i..] && Keys(r, key) == b[j..];
    if i < |left| { assert l[1..] == left[i + 1..] && Keys(l[1..], key) == a[i + 1..]; }
    if j < |right| { assert r[1..] == right[j + 1..] && Keys(r[1..], key) == b[j + 1..]; }
    assert NextKind(l, r, key) == kind;
    var op := DiffOp(kind, if kind == Removed then l[0] else r[0]);
    var rest := EditScript(if kind == Added then l else l[1..], if kind == Removed then r else r[1..], key);
    assert EditScript(l, r, key) == [op] + rest;
    assert ops + ([op] + rest) == (ops + [op]) + rest;
  }

  method DiffMessages<M(!new), K(==, !new)>(left: seq<M>, right: seq<M>, key: M -> K) returns (ops: seq<DiffOp<M>>)
    ensures ops == EditScript(left, right, key)
  {
    var a, b := Keys(left, key), Keys(right, key);
    var n, m := |a|, |b|;
    var dp := FillTable(a, b);

    ops := [];
    var i, j := 0, 0;
    while i < n && j < m
      invariant 0 <= i <= n && 0 <= j <= m
      invariant Emitted(ops, left, right, key, i, j)
      invariant forall r, c :: 0 <= r <= n && 0 <= c <= m ==> dp[r, c] == LCS(a[r..], b[c..])
      decreases n - i + m - j
    {
      if a[i] == b[j] {
        Emit(ops, Unchanged, left, right, key, i, j);
        ops := ops + [DiffOp(Unchanged, right[j])];
        i, j := i + 1, j + 1;
      } else if dp[i + 1, j] >= dp[i, j + 1] {
        Emit(ops, Removed, left, right, key, i, j);
        ops := ops + [DiffOp(Removed, left[i])];
        i := i + 1;
      } else {
        Emit(ops, Added, left, right, key, i, j);
        ops := ops + [DiffOp(Added, right[j])];
        j := j + 1;
      }
    }
    ops := EmitRest(ops, left, right, key, i, j);
  }

  /** The two closing loops: what is left of either side. */
  method EmitRest<M(!new), K(==, !new)>(start: seq<DiffOp<M>>, left: seq<M>, right: seq<M>, key: M -> K, i0: nat, j0: nat)
    returns (ops: seq<DiffOp<M>>)
    requires i0 <= |left| && j0 <= |right| && (i0 == |left| || j0 == |right|)
    requires Emitted(start, left, right, key, i0, j0)
    ensures ops == EditScript(left, right, key)
  {
    var i, j := i0, j0;
    ops := start;
    while i < |left|
      invariant i0 <= i <= |left| && (i == |left| || j == |right|)
      invariant Emitted(ops, left, right, key, i, j)
    {
      Emit(ops, Removed, left, right, key, i, j);
      ops := ops + [DiffOp(Removed, left[i])];
      i := i + 1;
    }
    while j < |right|
      invariant j0 <= j <= |right|
      invariant Emitted(ops, left, right, key, i, j)
    {
      Emit(ops, Added, left, right, key, i, j);
      ops := ops + [DiffOp(Added, right[j])];
      j := j + 1;
    }
    assert left[i..] == [] && right[j..] == [];
    assert ops + [] == ops;
  }

  // ----- the compaction hint over the script -----

  ghost predicate ThreeRemoved<M>(ops: seq<DiffOp<M>>, k: int) {
    0 <= k && k + 3 <= |ops| && forall i :: k <= i < k + 3 ==> ops[i].kind == Removed
  }

  /** The summary suspects a compaction exactly when some three consecutive operations are removals. */
  method CompactionSuspected<M>(ops: seq<DiffOp<M>>) returns (suspected: bool)
    ensures suspected <==> exists k :: ThreeRemoved(ops, k)
  {
    var maxRemovedRun, run := 0, 0;
    for k := 0 to |ops|
      invariant 0 <= run <= k && run <= maxRemovedRun
      invariant forall i :: k - run <= i < k ==> ops[i].kind == Removed
      invariant run < k ==> ops[k - run - 1].kind != Removed
      invariant maxRemovedRun >= 3 ==> exists i :: ThreeRemoved(ops, i)
      invariant maxRemovedRun < 3 ==> forall i :: ThreeRemoved(ops, i) ==> i + 3 > k
    {
      if ops[k].kind == Removed {
        run := run + 1;
        maxRemovedRun := Max(maxRemovedRun, run);
        if run >= 3 {
          assert ThreeRemoved(ops, k - 2);
        }
      } else {
        run := 0;
      }
    }
    suspected := maxRemovedRun >= 3;
  }
}
