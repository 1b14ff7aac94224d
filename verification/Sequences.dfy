/** Facts about sequences that several components share. */
module Sequences {

  /** The sum of `f` over all elements of `s`. */
  function Sum<T>(s: seq<T>, f: T -> int): int
  {
    if s == [] then 0 else f(s[0]) + Sum(s[1..], f)
  }

  lemma {:induction false} SumConcat<T>(a: seq<T>, b: seq<T>, f: T -> int)
    ensures Sum(a + b, f) == Sum(a, f) + Sum(b, f)
  {
    if a == [] {
      assert a + b == b;
    } else {
      SumConcat(a[1..], b, f);
      assert (a + b)[1..] == a[1..] + b;
    }
  }

  /** Replacing one element changes the sum by the difference of the two elements. */
  lemma {:induction false} SumUpdate<T>(s: seq<T>, k: nat, x: T, f: T -> int)
    requires k < |s|
    ensures Sum(s[k := x], f) == Sum(s, f) - f(s[k]) + f(x)
  {
    if k == 0 {
      assert s[k := x][1..] == s[1..];
    } else {
      SumUpdate(s[1..], k - 1, x, f);
      assert s[k := x][1..] == s[1..][k - 1 := x];
    }
  }

  lemma {:induction false} SumInsert<T>(s: seq<T>, k: nat, x: T, f: T -> int)
    requires k <= |s|
    ensures Sum(s[..k] + [x] + s[k..], f) == Sum(s, f) + f(x)
  {
    SumConcat(s[..k] + [x], s[k..], f);
    SumConcat(s[..k], [x], f);
    SumConcat(s[..k], s[k..], f);
    assert s[..k] + s[k..] == s;
  }

  lemma {:induction false} SumRemove<T>(s: seq<T>, k: nat, f: T -> int)
    requires k < |s|
    ensures Sum(s[..k] + s[k + 1..], f) == Sum(s, f) - f(s[k])
  {
    SumInsert(s[..k] + s[k + 1..], k, s[k], f);
    var rest := s[..k] + s[k + 1..];
    assert rest[..k] + [s[k]] + rest[k..] == s;
  }

  lemma {:induction false} SumNonNegative<T>(s: seq<T>, f: T -> int)
    requires forall x :: x in s ==> f(x) >= 0
    ensures Sum(s, f) >= 0
    ensures forall x :: x in s ==> f(x) <= Sum(s, f)
  {
    if s == [] {
    } else {
      SumNonNegative(s[1..], f);
      assert forall x :: x in s ==> x == s[0] || x in s[1..];
    }
  }

  /** A sum of non-negative terms is zero exactly when every term is. */
  lemma {:induction false} SumZero<T>(s: seq<T>, f: T -> int)
    requires forall x :: x in s ==> f(x) >= 0
    ensures Sum(s, f) == 0 <==> forall x :: x in s ==> f(x) == 0
  {
    SumNonNegative(s, f);
    if s == [] {
    } else {
      SumZero(s[1..], f);
      assert forall x :: x in s <==> x == s[0] || x in s[1..];
    }
  }

  /** Two functions that agree on the elements have the same sum. */
  lemma {:induction false} SumCongruent<T>(s: seq<T>, f: T -> int, g: T -> int)
    requires forall x :: x in s ==> f(x) == g(x)
    ensures Sum(s, f) == Sum(s, g)
  {
    if s == [] {
    } else {
      SumCongruent(s[1..], f, g);
    }
  }

  lemma {:induction false} SumSameValues<T>(s: seq<T>, t: seq<T>, f: T -> int)
    requires |s| == |t| && forall i :: 0 <= i < |s| ==> f(s[i]) == f(t[i])
    ensures Sum(s, f) == Sum(t, f)
  {
    if s == [] {
    } else {
      assert forall i :: 0 <= i < |s[1..]| ==> f(s[1..][i]) == f(s[i + 1]) && f(t[1..][i]) == f(t[i + 1]);
      SumSameValues(s[1..], t[1..], f);
    }
  }

  ghost predicate StrictlyIncreasing<T>(s: seq<T>, key: T -> int)
  {
    forall i, j :: 0 <= i < j < |s| ==> key(s[i]) < key(s[j])
  }

  lemma TailIncreasing<T>(a: seq<T>, key: T -> int)
    requires a != [] && StrictlyIncreasing(a, key)
    ensures StrictlyIncreasing(a[1..], key)
  {
    forall i, j | 0 <= i < j < |a[1..]| ensures key(a[1..][i]) < key(a[1..][j]) {
      assert key(a[i + 1]) < key(a[j + 1]);
    }
  }

  lemma SameHead<T>(a: seq<T>, b: seq<T>, key: T -> int)
    requires a != [] && b != []
    requires StrictlyIncreasing(a, key) && StrictlyIncreasing(b, key)
    requires multiset(a) == multiset(b)
    ensures a[0] == b[0]
  {
    assert a[0] in multiset(b) && b[0] in multiset(a);
    var i :| 0 <= i < |b| && b[i] == a[0];
    var j :| 0 <= j < |a| && a[j] == b[0];
    assert key(b[0]) <= key(b[i]) && key(a[0]) <= key(a[j]);
  }

  /** There is only one strictly increasing arrangement of a multiset. */
  lemma {:induction false} SortedUnique<T>(a: seq<T>, b: seq<T>, key: T -> int)
    requires StrictlyIncreasing(a, key) && StrictlyIncreasing(b, key)
    requires multiset(a) == multiset(b)
    ensures a == b
  {
    assert |a| == |multiset(a)| && |b| == |multiset(b)|;
    if a == [] {
    } else {
      SameHead(a, b, key);
      assert a == [a[0]] + a[1..] && b == [b[0]] + b[1..];
      assert multiset(a[1..]) == multiset(a) - multiset{a[0]};
      assert multiset(b[1..]) == multiset(b) - multiset{b[0]};
      TailIncreasing(a, key);
      TailIncreasing(b, key);
      SortedUnique(a[1..], b[1..], key);
    }
  }

  /** Inserting an element where it belongs keeps a sequence strictly increasing. */
  lemma InsertKeepsIncreasing<T>(s: seq<T>, j: nat, x: T, key: T -> int)
    requires StrictlyIncreasing(s, key) && j <= |s|
    requires j > 0 ==> key(s[j - 1]) < key(x)
    requires j < |s| ==> key(x) < key(s[j])
    ensures StrictlyIncreasing(s[..j] + [x] + s[j..], key)
  {
    var t := s[..j] + [x] + s[j..];
    forall a, b | 0 <= a < b < |t| ensures key(t[a]) < key(t[b]) {
      assert t[a] == if a < j then s[a] else if a == j then x else s[a - 1];
      assert t[b] == if b < j then s[b] else if b == j then x else s[b - 1];
      if b == j {
        assert a == j - 1 || key(s[a]) < key(s[j - 1]);
      } else if a == j {
        assert b == j + 1 || key(s[j]) < key(s[b - 1]);
      } else {
        assert key(s[if a < j then a else a - 1]) < key(s[if b < j then b else b - 1]);
      }
    }
  }

  lemma Regroup<T>(a: seq<T>, b: seq<T>, c: seq<T>)
    ensures a + (b + c) == (a + b) + c
  {
  }

  lemma SameRest<T>(whole: multiset<T>, a: multiset<T>, b: multiset<T>, x: T)
    requires whole == a + multiset{x} && whole == b + multiset{x}
    ensures a == b
  {
    forall y ensures a[y] == b[y] {
      assert (a + multiset{x})[y] == (b + multiset{x})[y];
    }
  }

  lemma LastInMultiset<T>(s: seq<T>)
    requires s != []
    ensures multiset(s) == multiset(s[..|s| - 1]) + multiset{s[|s| - 1]}
  {
    assert s == s[..|s| - 1] + [s[|s| - 1]];
  }
}
