/**
 An injective coding of finite trees over two symbols. It shows that encoders with the laws the round
 trips rely on exist, whatever the alphabet.
 */
module Encodings {
  import opened Prelude

  datatype Tree = Leaf(n: nat) | Pair(left: Tree, right: Tree)

  /** The tree in prefix order. */
  function Code(t: Tree): seq<nat> {
    match t
    case Leaf(n) => [0, n]
    case Pair(l, r) => [1] + Code(l) + Code(r)
  }

  lemma {:induction false} CodeIsPrefixFree(a: Tree, b: Tree, x: seq<nat>, y: seq<nat>)
    requires Code(a) + x == Code(b) + y
    ensures a == b && x == y
  {
    assert (Code(a) + x)[0] == (Code(b) + y)[0];
    match a
    case Leaf(n) =>
      assert (Code(a) + x)[1] == (Code(b) + y)[1];
      assert (Code(a) + x)[2..] == x && (Code(b) + y)[2..] == y;
    case Pair(l, r) =>
      assert (Code(a) + x)[1..] == Code(l) + (Code(r) + x);
      assert (Code(b) + y)[1..] == Code(b.left) + (Code(b.right) + y);
      CodeIsPrefixFree(l, b.left, Code(r) + x, Code(b.right) + y);
      CodeIsPrefixFree(r, b.right, x, y);
  }

  /** `n` times the first symbol, then the second. */
  function Unary<C>(n: nat, zero: C, one: C): seq<C> {
    if n == 0 then [one] else [zero] + Unary(n - 1, zero, one)
  }

  lemma {:induction false} UnaryIsPrefixFree<C>(n: nat, m: nat, x: seq<C>, y: seq<C>, zero: C, one: C)
    requires zero != one && Unary(n, zero, one) + x == Unary(m, zero, one) + y
    ensures n == m && x == y
  {
    var s, t := Unary(n, zero, one) + x, Unary(m, zero, one) + y;
    assert s[0] == t[0];
    if n == 0 {
      assert s[1..] == x && t[1..] == y;
    } else {
      assert s[1..] == Unary(n - 1, zero, one) + x && t[1..] == Unary(m - 1, zero, one) + y;
      UnaryIsPrefixFree(n - 1, m - 1, x, y, zero, one);
    }
  }

  function Spell<C>(ns: seq<nat>, zero: C, one: C): (r: seq<C>)
    ensures forall i :: 0 <= i < |r| ==> r[i] == zero || r[i] == one
  {
    if ns == [] then [] else UnarySymbols(ns[0], zero, one) + Spell(ns[1..], zero, one)
  }

  function UnarySymbols<C>(n: nat, zero: C, one: C): (r: seq<C>)
    ensures r == Unary(n, zero, one) && r != []
    ensures forall i :: 0 <= i < |r| ==> r[i] == zero || r[i] == one
  {
    if n == 0 then [one] else [zero] + UnarySymbols(n - 1, zero, one)
  }

  lemma {:induction false} SpellIsInjective<C>(a: seq<nat>, b: seq<nat>, zero: C, one: C)
    requires zero != one && Spell(a, zero, one) == Spell(b, zero, one)
    ensures a == b
  {
    if a != [] && b != [] {
      UnaryIsPrefixFree(a[0], b[0], Spell(a[1..], zero, one), Spell(b[1..], zero, one), zero, one);
      SpellIsInjective(a[1..], b[1..], zero, one);
      assert a == [a[0]] + a[1..] && b == [b[0]] + b[1..];
    }
  }

  /** The text of a tree over two symbols. */
  function Text<C>(t: Tree, zero: C, one: C): (r: seq<C>)
    ensures forall i :: 0 <= i < |r| ==> r[i] == zero || r[i] == one
  {
    Spell(Code(t), zero, one)
  }

  lemma TextIsInjective<C>(a: Tree, b: Tree, zero: C, one: C)
    requires zero != one && Text(a, zero, one) == Text(b, zero, one)
    ensures a == b
  {
    SpellIsInjective(Code(a), Code(b), zero, one);
    assert Code(a) + [] == Code(a) && Code(b) + [] == Code(b);
    CodeIsPrefixFree(a, b, [], []);
  }

  // ---------------------------------------------------------------- values as trees

  function OfInt(i: int): Tree {
    Pair(Leaf(if i < 0 then 1 else 0), Leaf(Abs(i)))
  }

  function OfSeq<T>(s: seq<T>, f: T -> Tree): Tree {
    if s == [] then Leaf(0) else Pair(f(s[0]), OfSeq(s[1..], f))
  }

  lemma {:induction false} OfSeqIsInjective<T(!new)>(a: seq<T>, b: seq<T>, f: T -> Tree)
    requires forall x, y :: f(x) == f(y) ==> x == y
    requires OfSeq(a, f) == OfSeq(b, f)
    ensures a == b
  {
    if a != [] && b != [] {
      OfSeqIsInjective(a[1..], b[1..], f);
      assert a == [a[0]] + a[1..] && b == [b[0]] + b[1..];
    }
  }

  function OfString(s: string): Tree {
    OfSeq(s, (c: char) => Leaf(c as int))
  }

  lemma OfStringIsInjective(a: string, b: string)
    ensures OfString(a) == OfString(b) ==> a == b
  {
    if OfString(a) == OfString(b) {
      OfSeqIsInjective(a, b, (c: char) => Leaf(c as int));
    }
  }
}
