/** Sorting as Python's `sorted` does it, and why the order in which records arrive stops mattering. */
module Sorting {

  /** Code-point order on strings. */
  predicate StringLe(a: string, b: string) {
    if a == "" then true
    else if b == "" then false
    else if a[0] != b[0] then a[0] < b[0]
    else StringLe(a[1..], b[1..])
  }

  predicate StringLt(a: string, b: string) {
    StringLe(a, b) && a != b
  }

  lemma StringLeIsPreorder()
    ensures Preorder(StringLe)
  {
    forall a, b ensures StringLe(a, b) || StringLe(b, a) {
      StringLeTotal(a, b);
    }
    forall a, b, c | StringLe(a, b) && StringLe(b, c) ensures StringLe(a, c) {
      StringLeTransitive(a, b, c);
    }
  }

  /** Sorting strings forgets their order of arrival. */
  lemma SortedStringsForgetOrder(a: seq<string>, b: seq<string>)
    requires Permutation(a, b)
    ensures Sort(a, StringLe) == Sort(b, StringLe)
  {
    StringLeIsPreorder();
    forall x, y | x in a && y in a && StringLe(x, y) && StringLe(y, x) ensures x == y {
      StringLeTotal(x, y);
    }
    SortForgetsOrder(a, b, StringLe);
  }

  lemma StringLeTotal(a: string, b: string)
    ensures StringLe(a, b) || StringLe(b, a)
    ensures StringLe(a, b) && StringLe(b, a) ==> a == b
  {
  }

  lemma {:induction false} StringLeTransitive(a: string, b: string, c: string)
    requires StringLe(a, b) && StringLe(b, c)
    ensures StringLe(a, c)
  {
    if a != "" && a[0] == b[0] && b[0] == c[0] {
      StringLeTransitive(a[1..], b[1..], c[1..]);
    }
  }

  lemma {:induction false} StringLtTransitive(a: string, b: string, c: string)
    requires StringLt(a, b) && StringLt(b, c)
    ensures StringLt(a, c)
  {
    if a != "" && a[0] == b[0] && b[0] == c[0] {
      assert a == [a[0]] + a[1..] && b == [b[0]] + b[1..] && c == [c[0]] + c[1..];
      StringLtTransitive(a[1..], b[1..], c[1..]);
    }
  }

  /** `le` is a total preorder. */
  ghost predicate Preorder<T(!new)>(le: (T, T) -> bool) {
    && (forall x, y :: le(x, y) || le(y, x))
    && forall x, y, z :: le(x, y) && le(y, z) ==> le(x, z)
  }

  /** No two different elements of `s` are tied. */
  ghost predicate NoTies<T>(s: seq<T>, le: (T, T) -> bool) {
    forall x, y :: x in s && y in s && le(x, y) && le(y, x) ==> x == y
  }

  ghost predicate Sorted<T>(s: seq<T>, le: (T, T) -> bool) {
    forall i, j :: 0 <= i < j < |s| ==> le(s[i], s[j])
  }

  ghost predicate Permutation<T>(a: seq<T>, b: seq<T>) {
    multiset(a) == multiset(b)
  }

  /** Insert after every element not above `x`. */
  function Insert<T>(s: seq<T>, x: T, le: (T, T) -> bool): seq<T> {
    if s == [] || le(s[|s| - 1], x) then s + [x]
    else Insert(s[..|s| - 1], x, le) + [s[|s| - 1]]
  }

  function Sort<T>(s: seq<T>, le: (T, T) -> bool): seq<T> {
    if s == [] then [] else Insert(Sort(s[..|s| - 1], le), s[|s| - 1], le)
  }

  lemma InsertBelow<T(!new)>(s: seq<T>, x: T, bound: T, le: (T, T) -> bool)
    requires multiset(Insert(s, x, le)) == multiset(s) + multiset{x}
    requires le(x, bound) && forall i :: 0 <= i < |s| ==> le(s[i], bound)
    ensures forall i :: 0 <= i < |Insert(s, x, le)| ==> le(Insert(s, x, le)[i], bound)
  {
    var r := Insert(s, x, le);
    forall i | 0 <= i < |r| ensures le(r[i], bound) {
      assert r[i] in multiset(r);
      assert r[i] in s || r[i] == x;
    }
  }

  lemma {:induction false} InsertKeeps<T(!new)>(s: seq<T>, x: T, le: (T, T) -> bool)
    requires Preorder(le) && Sorted(s, le)
    ensures Sorted(Insert(s, x, le), le)
    ensures multiset(Insert(s, x, le)) == multiset(s) + multiset{x}
  {
    if s != [] {
      var init, last := s[..|s| - 1], s[|s| - 1];
      assert s == init + [last];
      if !le(last, x) {
        InsertKeeps(init, x, le);
        InsertBelow(init, x, last, le);
      } else {
        assert forall i :: 0 <= i < |s| - 1 ==> le(s[i], last);
      }
    }
  }

  lemma {:induction false} SortSorts<T(!new)>(s: seq<T>, le: (T, T) -> bool)
    requires Preorder(le)
    ensures Sorted(Sort(s, le), le) && Permutation(Sort(s, le), s)
  {
    if s != [] {
      SortSorts(s[..|s| - 1], le);
      InsertKeeps(Sort(s[..|s| - 1], le), s[|s| - 1], le);
      assert s == s[..|s| - 1] + [s[|s| - 1]];
    }
  }

  lemma PermutationLength<T>(a: seq<T>, b: seq<T>)
    requires Permutation(a, b)
    ensures |a| == |b|
  {
    assert |multiset(a)| == |a| && |multiset(b)| == |b|;
  }

  lemma PermutationMembers<T>(a: seq<T>, b: seq<T>, x: T)
    requires Permutation(a, b)
    ensures x in a <==> x in b
  {
    assert x in a <==> x in multiset(a);
    assert x in b <==> x in multiset(b);
  }

  lemma Without<T>(s: seq<T>, i: nat)
    requires i < |s|
    ensures multiset(s[..i] + s[i + 1..]) == multiset(s) - multiset{s[i]}
    ensures multiset(s) == multiset(s[..i] + s[i + 1..]) + multiset{s[i]}
  {
    assert s == s[..i] + [s[i]] + s[i + 1..];
  }

  /** The last elements of two sorted arrangements of one multiset are the same. */
  lemma LastUnique<T(!new)>(a: seq<T>, b: seq<T>, n: nat, le: (T, T) -> bool)
    requires Preorder(le) && Sorted(a, le) && Sorted(b, le) && NoTies(a, le)
    requires n < |a| && n < |b| && Permutation(a[..n + 1], b[..n + 1])
    ensures a[n] == b[n]
  {
    PermutationMembers(a[..n + 1], b[..n + 1], a[n]);
    PermutationMembers(a[..n + 1], b[..n + 1], b[n]);
    assert a[..n + 1][n] == a[n] && b[..n + 1][n] == b[n];
    var i :| 0 <= i <= n && b[i] == a[n];
    var j :| 0 <= j <= n && a[j] == b[n];
    assert le(a[n], a[n]) && le(b[n], b[n]);
    assert le(b[i], b[n]) && le(a[j], a[n]);
  }

  lemma DropSame<T>(a: seq<T>, b: seq<T>, n: nat)
    requires n < |a| && n < |b| && a[n] == b[n] && Permutation(a[..n + 1], b[..n + 1])
    ensures Permutation(a[..n], b[..n])
  {
    assert a[..n + 1] == a[..n] + [a[n]] && b[..n + 1] == b[..n] + [b[n]];
    assert multiset(a[..n]) == multiset(a[..n + 1]) - multiset{a[n]};
    assert multiset(b[..n]) == multiset(b[..n + 1]) - multiset{b[n]};
  }

  lemma AddSame<T>(a: seq<T>, b: seq<T>, n: nat)
    requires n < |a| && n < |b| && a[n] == b[n] && a[..n] == b[..n]
    ensures a[..n + 1] == b[..n + 1]
  {
    assert a[..n + 1] == a[..n] + [a[n]] && b[..n + 1] == b[..n] + [b[n]];
  }

  lemma {:induction false} PrefixUnique<T(!new)>(a: seq<T>, b: seq<T>, n: nat, le: (T, T) -> bool)
    requires Preorder(le) && Sorted(a, le) && Sorted(b, le) && NoTies(a, le)
    requires n <= |a| && n <= |b| && Permutation(a[..n], b[..n])
    ensures a[..n] == b[..n]
  {
    if n > 0 {
      LastUnique(a, b, n - 1, le);
      DropSame(a, b, n - 1);
      PrefixUnique(a, b, n - 1, le);
      AddSame(a, b, n - 1);
    }
  }

  lemma SortedUnique<T(!new)>(a: seq<T>, b: seq<T>, le: (T, T) -> bool)
    requires Preorder(le) && Sorted(a, le) && Sorted(b, le) && Permutation(a, b) && NoTies(a, le)
    ensures a == b
  {
    PermutationLength(a, b);
    assert a[..|a|] == a && b[..|b|] == b;
    PrefixUnique(a, b, |a|, le);
  }

  /** When nothing is tied, sorting forgets the order of arrival. */
  lemma SortForgetsOrder<T(!new)>(a: seq<T>, b: seq<T>, le: (T, T) -> bool)
    requires Preorder(le) && Permutation(a, b) && NoTies(a, le)
    ensures Sort(a, le) == Sort(b, le)
  {
    SortSorts(a, le);
    SortSorts(b, le);
    forall x, y | x in Sort(a, le) && y in Sort(a, le) && le(x, y) && le(y, x) ensures x == y {
      PermutationMembers(Sort(a, le), a, x);
      PermutationMembers(Sort(a, le), a, y);
    }
    SortedUnique(Sort(a, le), Sort(b, le), le);
  }

  /** Permuting records permutes what is computed from each of them. */
  function Map<S, T>(s: seq<S>, f: S -> T): (r: seq<T>)
    ensures |r| == |s| && forall i :: 0 <= i < |s| ==> r[i] == f(s[i])
  {
    seq(|s|, i requires 0 <= i < |s| => f(s[i]))
  }

  /** No two elements share a key. */
  ghost predicate DistinctBy<T, K>(s: seq<T>, key: T -> K) {
    forall i, j :: 0 <= i < j < |s| ==> key(s[i]) != key(s[j])
  }

  method CheckDistinct<T, K(==)>(s: seq<T>, key: T -> K) returns (ok: bool)
    ensures ok <==> DistinctBy(s, key)
  {
    var seen: set<K> := {};
    for i := 0 to |s|
      invariant forall j, k :: 0 <= j < k < i ==> key(s[j]) != key(s[k])
      invariant seen == set k | 0 <= k < i :: key(s[k])
    {
      if key(s[i]) in seen {
        return false;
      }
      seen := seen + {key(s[i])};
    }
    return true;
  }

  lemma SameKeySameIndex<T, K>(s: seq<T>, key: T -> K, i: nat, j: nat)
    requires DistinctBy(s, key) && i < |s| && j < |s|
    ensures key(s[i]) == key(s[j]) <==> i == j
  {
  }

  lemma SameKeySameElement<T, K>(s: seq<T>, key: T -> K, x: T, y: T)
    requires DistinctBy(s, key) && x in s && y in s && key(x) == key(y)
    ensures x == y
  {
    var i :| 0 <= i < |s| && s[i] == x;
    var j :| 0 <= j < |s| && s[j] == y;
    SameKeySameIndex(s, key, i, j);
  }

  lemma {:induction false} DistinctCounts<K>(s: seq<K>)
    ensures (forall i, j :: 0 <= i < j < |s| ==> s[i] != s[j]) ==> forall x :: multiset(s)[x] <= 1
    ensures (forall x :: multiset(s)[x] <= 1) ==> forall i, j :: 0 <= i < j < |s| ==> s[i] != s[j]
  {
    if s != [] {
      var before, last := s[..|s| - 1], s[|s| - 1];
      DistinctCounts(before);
      assert s == before + [last];
      assert multiset(s) == multiset(before) + multiset{last};
      assert last in before <==> multiset(before)[last] > 0;
      if forall x :: multiset(s)[x] <= 1 {
        assert forall x :: multiset(before)[x] <= multiset(s)[x];
        assert forall i :: 0 <= i < |before| ==> before[i] in before;
      }
    }
  }

  lemma PermutationKeepsDistinct<T(!new), K>(a: seq<T>, b: seq<T>, key: T -> K)
    requires Permutation(a, b) && DistinctBy(a, key)
    ensures DistinctBy(b, key)
  {
    MapPermutes(a, b, key);
    DistinctCounts(Map(a, key));
    DistinctCounts(Map(b, key));
    forall i, j | 0 <= i < j < |b| ensures key(b[i]) != key(b[j]) {
      assert Map(b, key)[i] != Map(b, key)[j];
    }
  }

  /** What each of the first `n` elements gives, one after the other. */
  function FlatMapTo<S, T>(s: seq<S>, f: S -> seq<T>, n: nat): seq<T>
    requires n <= |s|
  {
    if n == 0 then [] else FlatMapTo(s, f, n - 1) + f(s[n - 1])
  }

  function FlatMap<S, T>(s: seq<S>, f: S -> seq<T>): seq<T> {
    FlatMapTo(s, f, |s|)
  }

  lemma {:induction false} FlatMapPrefix<S, T>(s: seq<S>, t: seq<S>, f: S -> seq<T>, n: nat)
    requires n <= |s| && n <= |t| && forall i :: 0 <= i < n ==> s[i] == t[i]
    ensures FlatMapTo(s, f, n) == FlatMapTo(t, f, n)
  {
    if n > 0 {
      FlatMapPrefix(s, t, f, n - 1);
    }
  }

  lemma FlatMapSnoc<S, T>(s: seq<S>, x: S, f: S -> seq<T>)
    ensures FlatMap(s + [x], f) == FlatMap(s, f) + f(x)
  {
    FlatMapPrefix(s + [x], s, f, |s|);
  }

  lemma {:induction false} FlatMapRemove<S, T>(s: seq<S>, i: nat, f: S -> seq<T>)
    requires i < |s|
    ensures multiset(FlatMap(s, f)) == multiset(FlatMap(s[..i] + s[i + 1..], f)) + multiset(f(s[i]))
  {
    var init, last := s[..|s| - 1], s[|s| - 1];
    assert s == init + [last];
    FlatMapSnoc(init, last, f);
    if i < |s| - 1 {
      FlatMapRemove(init, i, f);
      assert s[..i] + s[i + 1..] == init[..i] + init[i + 1..] + [last];
      FlatMapSnoc(init[..i] + init[i + 1..], last, f);
    } else {
      assert s[..i] + s[i + 1..] == init;
    }
  }

  lemma {:induction false} FlatMapPermutes<S, T>(a: seq<S>, b: seq<S>, f: S -> seq<T>)
    requires Permutation(a, b)
    ensures Permutation(FlatMap(a, f), FlatMap(b, f))
  {
    PermutationLength(a, b);
    if a != [] {
      var x := a[|a| - 1];
      PermutationMembers(a, b, x);
      var i :| 0 <= i < |b| && b[i] == x;
      Without(a, |a| - 1);
      Without(b, i);
      FlatMapPermutes(a[..|a| - 1] + a[|a|..], b[..i] + b[i + 1..], f);
      FlatMapRemove(a, |a| - 1, f);
      FlatMapRemove(b, i, f);
    }
  }

  lemma {:induction false} FlatMapToAlike<S, T>(s: seq<S>, f: S -> seq<T>, g: S -> seq<T>, n: nat)
    requires n <= |s| && forall x :: x in s ==> Permutation(f(x), g(x))
    ensures Permutation(FlatMapTo(s, f, n), FlatMapTo(s, g, n))
  {
    if n > 0 {
      FlatMapToAlike(s, f, g, n - 1);
      assert s[n - 1] in s;
    }
  }

  lemma {:induction false} FlatMapToMembers<S, T>(s: seq<S>, f: S -> seq<T>, n: nat, y: T)
    requires n <= |s|
    ensures y in FlatMapTo(s, f, n) <==> exists i :: 0 <= i < n && y in f(s[i])
  {
    if n > 0 {
      FlatMapToMembers(s, f, n - 1, y);
    }
  }

  lemma FlatMapMembers<S, T>(s: seq<S>, f: S -> seq<T>, y: T)
    ensures y in FlatMap(s, f) <==> exists x :: x in s && y in f(x)
  {
    FlatMapToMembers(s, f, |s|, y);
    if x :| x in s && y in f(x) {
      var i :| 0 <= i < |s| && s[i] == x;
    }
  }

  lemma {:induction false} FlatMapToIsEmptyIff<S, T>(s: seq<S>, f: S -> seq<T>, n: nat)
    requires n <= |s|
    ensures FlatMapTo(s, f, n) == [] <==> forall i :: 0 <= i < n ==> f(s[i]) == []
  {
    if n > 0 {
      FlatMapToIsEmptyIff(s, f, n - 1);
    }
  }

  lemma FlatMapIsEmptyIff<S, T>(s: seq<S>, f: S -> seq<T>)
    ensures FlatMap(s, f) == [] <==> forall x :: x in s ==> f(x) == []
  {
    FlatMapToIsEmptyIff(s, f, |s|);
    if FlatMap(s, f) == [] {
      forall x | x in s ensures f(x) == [] {
        var i :| 0 <= i < |s| && s[i] == x;
      }
    }
  }

  lemma {:induction false} MapIsFlatMap<S(!new), T>(s: seq<S>, f: S -> T, g: S -> seq<T>, n: nat)
    requires n <= |s| && forall x :: g(x) == [f(x)]
    ensures FlatMapTo(s, g, n) == Map(s, f)[..n]
  {
    if n > 0 {
      MapIsFlatMap(s, f, g, n - 1);
    }
  }

  lemma MapPermutes<S(!new), T>(a: seq<S>, b: seq<S>, f: S -> T)
    requires Permutation(a, b)
    ensures Permutation(Map(a, f), Map(b, f))
  {
    var g := x => [f(x)];
    FlatMapPermutes(a, b, g);
    MapIsFlatMap(a, f, g, |a|);
    MapIsFlatMap(b, f, g, |b|);
    assert Map(a, f)[..|a|] == Map(a, f) && Map(b, f)[..|b|] == Map(b, f);
  }

  /** The elements that satisfy `p`, in order. */
  function Where<T>(s: seq<T>, p: T -> bool): seq<T> {
    FlatMap(s, x => if p(x) then [x] else [])
  }

  lemma WhereMembers<T>(s: seq<T>, p: T -> bool)
    ensures forall x :: x in Where(s, p) <==> x in s && p(x)
  {
    forall x ensures x in Where(s, p) <==> x in s && p(x) {
      FlatMapMembers(s, x => if p(x) then [x] else [], x);
    }
  }

  lemma WherePermutes<T>(a: seq<T>, b: seq<T>, p: T -> bool)
    requires Permutation(a, b)
    ensures Permutation(Where(a, p), Where(b, p))
  {
    FlatMapPermutes(a, b, x => if p(x) then [x] else []);
  }

  /** Append to `start` what each element gives. */
  method Flatten<S, T>(s: seq<S>, f: S -> seq<T>, start: seq<T>) returns (all: seq<T>)
    ensures all == start + FlatMap(s, f)
  {
    all := start;
    for i := 0 to |s|
      invariant all == start + FlatMapTo(s, f, i)
    {
      all := all + f(s[i]);
    }
  }
}
