/** Weighted sums over sequences, concatenations of numbered sequences, and sizes of sets. */
module Sums {
  function Sum<T>(weight: T -> nat, s: seq<T>): nat {
    if s == [] then 0 else weight(s[0]) + Sum(weight, s[1..])
  }

  lemma {:induction false} SumAppend<T>(weight: T -> nat, a: seq<T>, b: seq<T>)
    ensures Sum(weight, a + b) == Sum(weight, a) + Sum(weight, b)
  {
    if a == [] {
      assert a + b == b;
    } else {
      SumAppend(weight, a[1..], b);
      assert (a + b)[1..] == a[1..] + b;
    }
  }

  lemma SumOne<T>(weight: T -> nat, x: T)
    ensures Sum(weight, [x]) == weight(x)
  {
    assert [x][1..] == [];
  }

  lemma {:induction false} SumBound<T>(weight: T -> nat, s: seq<T>, c: nat)
    requires forall i :: 0 <= i < |s| ==> weight(s[i]) <= c
    ensures Sum(weight, s) <= |s| * c
  {
    if s != [] {
      SumBound(weight, s[1..], c);
      assert |s| * c == c + (|s| - 1) * c;
    }
  }

  /** The sum does not depend on the order. */
  lemma {:induction false} SumPermuted<T>(weight: T -> nat, a: seq<T>, b: seq<T>)
    requires multiset(a) == multiset(b)
    ensures Sum(weight, a) == Sum(weight, b)
  {
    if a == [] {
      assert |multiset(b)| == |b|;
    } else {
      assert a[0] in multiset(b);
      var i :| 0 <= i < |b| && b[i] == a[0];
      assert a == [a[0]] + a[1..];
      assert b == b[..i] + [b[i]] + b[i + 1..];
      assert multiset(a[1..]) == multiset(a) - multiset{a[0]};
      assert multiset(b[..i] + b[i + 1..]) == multiset(b) - multiset{b[i]};
      SumPermuted(weight, a[1..], b[..i] + b[i + 1..]);
      SumAppend(weight, b[..i] + [b[i]], b[i + 1..]);
      SumAppend(weight, b[..i], [b[i]]);
      SumAppend(weight, b[..i], b[i + 1..]);
      SumOne(weight, b[i]);
    }
  }

  function Concat<T>(part: nat -> seq<T>, lo: nat, hi: nat): seq<T> {
    if hi <= lo then [] else Concat(part, lo, hi - 1) + part(hi - 1)
  }

  lemma {:induction false} ConcatMembers<T>(part: nat -> seq<T>, lo: nat, hi: nat, x: T)
    ensures x in Concat(part, lo, hi) <==> exists h: nat :: lo <= h < hi && x in part(h)
  {
    if hi > lo {
      ConcatMembers(part, lo, hi - 1, x);
    }
  }

  lemma {:induction false} ConcatSplit<T>(part: nat -> seq<T>, lo: nat, mid: nat, hi: nat)
    requires lo <= mid <= hi
    ensures Concat(part, lo, hi) == Concat(part, lo, mid) + Concat(part, mid, hi)
  {
    if mid < hi {
      ConcatSplit(part, lo, mid, hi - 1);
    }
  }

  lemma {:induction false} ConcatSame<T>(part: nat -> seq<T>, other: nat -> seq<T>, lo: nat, hi: nat)
    requires forall h: nat :: lo <= h < hi ==> part(h) == other(h)
    ensures Concat(part, lo, hi) == Concat(other, lo, hi)
  {
    if hi > lo {
      ConcatSame(part, other, lo, hi - 1);
    }
  }

  lemma SubsetSize<T>(a: set<T>, b: set<T>)
    requires a <= b
    ensures |a| <= |b|
  {
    assert b == a + (b - a);
  }
}
