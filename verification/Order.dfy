/** Python's ordering of `str` by code point, and `sorted` with a key. */
module Order {
  predicate Less(a: string, b: string) {
    if b == "" then false
    else if a == "" then true
    else if a[0] != b[0] then a[0] < b[0]
    else Less(a[1..], b[1..])
  }

  lemma {:induction false} LessTotal(a: string, b: string)
    ensures Less(a, b) || Less(b, a) || a == b
  {
    if a != "" && b != "" && a[0] == b[0] {
      LessTotal(a[1..], b[1..]);
      assert a == [a[0]] + a[1..] && b == [b[0]] + b[1..];
    }
  }

  lemma {:induction false} LessTransitive(a: string, b: string, c: string)
    requires Less(a, b) && Less(b, c)
    ensures Less(a, c)
  {
    if a != "" && a[0] == b[0] == c[0] {
      LessTransitive(a[1..], b[1..], c[1..]);
    }
  }

  lemma {:induction false} LessIrreflexive(a: string)
    ensures !Less(a, a)
  {
    if a != "" {
      LessIrreflexive(a[1..]);
    }
  }

  lemma LessAsymmetric(a: string, b: string)
    requires Less(a, b)
    ensures !Less(b, a) && a != b
  {
    LessIrreflexive(a);
    if Less(b, a) {
      LessTransitive(a, b, a);
    }
  }

  function Insert<T>(key: T -> string, x: T, s: seq<T>): (r: seq<T>)
    ensures multiset(r) == multiset(s) + multiset{x}
    ensures |r| == |s| + 1
  {
    if s == [] then [x]
    else if Less(key(s[0]), key(x)) then
      assert s == [s[0]] + s[1..];
      [s[0]] + Insert(key, x, s[1..])
    else [x] + s
  }

  function SortBy<T>(key: T -> string, s: seq<T>): (r: seq<T>)
    ensures multiset(r) == multiset(s)
    ensures |r| == |s|
  {
    if s == [] then []
    else
      assert s == [s[0]] + s[1..];
      Insert(key, s[0], SortBy(key, s[1..]))
  }

  ghost predicate Ascending<T>(key: T -> string, s: seq<T>) {
    forall i, j :: 0 <= i < j < |s| ==> !Less(key(s[j]), key(s[i]))
  }

  ghost predicate StrictlyAscending<T>(key: T -> string, s: seq<T>) {
    forall i, j :: 0 <= i < j < |s| ==> Less(key(s[i]), key(s[j]))
  }

  lemma SameElements<T>(r: seq<T>, s: seq<T>)
    requires multiset(r) == multiset(s)
    ensures forall x :: x in r <==> x in s
  {
    forall x
      ensures x in r <==> x in s
    {
      assert x in r <==> x in multiset(r);
      assert x in s <==> x in multiset(s);
    }
  }

  lemma {:induction false} InsertAscending<T>(key: T -> string, x: T, s: seq<T>)
    requires Ascending(key, s)
    ensures Ascending(key, Insert(key, x, s))
  {
    if s == [] {
    } else if Less(key(s[0]), key(x)) {
      InsertAscending(key, x, s[1..]);
      var tail := Insert(key, x, s[1..]);
      LessAsymmetric(key(s[0]), key(x));
      forall y | y in tail
        ensures !Less(key(y), key(s[0]))
      {
        assert y in multiset(tail);
        assert y == x || y in s[1..];
      }
    } else {
      forall j | 0 <= j < |s|
        ensures !Less(key(s[j]), key(x))
      {
        if Less(key(s[j]), key(x)) {
          LessTotal(key(s[0]), key(x));
          LessTotal(key(s[0]), key(s[j]));
          if j > 0 && key(s[0]) != key(x) && key(s[0]) != key(s[j]) {
            LessTransitive(key(s[0]), key(s[j]), key(x));
          }
        }
      }
    }
  }

  lemma {:induction false} SortAscending<T>(key: T -> string, s: seq<T>)
    ensures Ascending(key, SortBy(key, s))
  {
    if s != [] {
      SortAscending(key, s[1..]);
      InsertAscending(key, s[0], SortBy(key, s[1..]));
    }
  }

  predicate DistinctKeys<T>(key: T -> string, s: seq<T>) {
    forall i, j :: 0 <= i < j < |s| ==> key(s[i]) != key(s[j])
  }

  lemma Unrepeated<T>(r: seq<T>, i: nat, j: nat)
    requires i < j < |r| && multiset(r)[r[i]] <= 1
    ensures r[i] != r[j]
  {
    assert r == r[..j] + [r[j]] + r[j+1..];
    assert r[i] in r[..j];
  }

  lemma CountedOnce<T>(key: T -> string, s: seq<T>, m: nat)
    requires DistinctKeys(key, s) && m < |s|
    ensures multiset(s)[s[m]] == 1
  {
    assert s == s[..m] + [s[m]] + s[m+1..];
    assert s[m] !in s[..m] && s[m] !in s[m+1..];
  }

  /** Distinct keys survive any rearrangement. */
  lemma DistinctKeysPermuted<T>(key: T -> string, r: seq<T>, s: seq<T>)
    requires multiset(r) == multiset(s) && DistinctKeys(key, s)
    ensures DistinctKeys(key, r)
  {
    SameElements(r, s);
    forall i, j | 0 <= i < j < |r|
      ensures key(r[i]) != key(r[j])
    {
      assert r[i] in s && r[j] in s;
      var m :| 0 <= m < |s| && s[m] == r[i];
      var n :| 0 <= n < |s| && s[n] == r[j];
      CountedOnce(key, s, m);
      Unrepeated(r, i, j);
      assert m != n;
    }
  }

  lemma SortStrict<T>(key: T -> string, s: seq<T>)
    requires DistinctKeys(key, s)
    ensures StrictlyAscending(key, SortBy(key, s))
  {
    var r := SortBy(key, s);
    SortAscending(key, s);
    DistinctKeysPermuted(key, r, s);
    forall i, j | 0 <= i < j < |r|
      ensures Less(key(r[i]), key(r[j]))
    {
      LessTotal(key(r[i]), key(r[j]));
    }
  }

  /** A strictly sorted list is determined by its elements. */
  lemma {:induction false} StrictUnique<T>(key: T -> string, a: seq<T>, b: seq<T>)
    requires StrictlyAscending(key, a) && StrictlyAscending(key, b)
    requires forall x :: x in a <==> x in b
    ensures a == b
  {
    if a != [] {
      assert a[0] in b;
    }
    if b != [] {
      assert b[0] in a;
    }
    if a != [] {
      HeadsAgree(key, a, b);
      forall x
        ensures x in a[1..] <==> x in b[1..]
      {
        LessIrreflexive(key(a[0]));
        assert x in a <==> x == a[0] || x in a[1..];
        assert x in b <==> x == b[0] || x in b[1..];
      }
      StrictUnique(key, a[1..], b[1..]);
      assert a == [a[0]] + a[1..] && b == [b[0]] + b[1..];
    }
  }

  lemma HeadsAgree<T>(key: T -> string, a: seq<T>, b: seq<T>)
    requires StrictlyAscending(key, a) && StrictlyAscending(key, b)
    requires forall x :: x in a <==> x in b
    requires a != [] && b != []
    ensures a[0] == b[0]
  {
    assert a[0] in b && b[0] in a;
    var i :| 0 <= i < |b| && b[i] == a[0];
    var j :| 0 <= j < |a| && a[j] == b[0];
    if i > 0 && j > 0 {
      LessAsymmetric(key(b[0]), key(b[i]));
    }
  }

  /** `sorted` leaves a strictly sorted list alone. */
  lemma SortOfStrict<T>(key: T -> string, s: seq<T>)
    requires StrictlyAscending(key, s)
    ensures SortBy(key, s) == s
  {
    forall i, j | 0 <= i < j < |s|
      ensures key(s[i]) != key(s[j])
    {
      LessAsymmetric(key(s[i]), key(s[j]));
    }
    SortStrict(key, s);
    SameElements(SortBy(key, s), s);
    StrictUnique(key, SortBy(key, s), s);
  }
}
