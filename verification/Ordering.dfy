// Lexicographic comparison, and sorting by a total order.
module Ordering {
  // `cmp` is negative, zero or positive, as the comparison functions of the
  // program are.
  ghost predicate TotalOrder<T(!new)>(cmp: (T, T) -> int) {
    && (forall x, y :: cmp(x, y) == 0 <==> x == y)
    && (forall x, y :: cmp(x, y) < 0 <==> cmp(y, x) > 0)
    && (forall x, y, z :: cmp(x, y) <= 0 && cmp(y, z) <= 0 ==> cmp(x, z) <= 0)
  }

  function CompareBy<T>(cmp: (T, T) -> int, a: seq<T>, b: seq<T>): int
    decreases |a|
  {
    if a == [] then (if b == [] then 0 else -1)
    else if b == [] then 1
    else if cmp(a[0], b[0]) != 0 then cmp(a[0], b[0])
    else CompareBy(cmp, a[1..], b[1..])
  }

  lemma {:induction false} CompareZero<T(!new)>(cmp: (T, T) -> int, a: seq<T>, b: seq<T>)
    requires TotalOrder(cmp)
    ensures CompareBy(cmp, a, b) == 0 <==> a == b
    decreases |a|
  {
    if a != [] && b != [] {
      CompareZero(cmp, a[1..], b[1..]);
      assert a == [a[0]] + a[1..] && b == [b[0]] + b[1..];
    }
  }

  lemma {:induction false} CompareFlip<T(!new)>(cmp: (T, T) -> int, a: seq<T>, b: seq<T>)
    requires TotalOrder(cmp)
    ensures CompareBy(cmp, a, b) < 0 <==> CompareBy(cmp, b, a) > 0
    decreases |a|
  {
    if a != [] && b != [] { CompareFlip(cmp, a[1..], b[1..]); }
  }

  lemma {:induction false} CompareTransitive<T(!new)>(cmp: (T, T) -> int, a: seq<T>, b: seq<T>, c: seq<T>)
    requires TotalOrder(cmp)
    requires CompareBy(cmp, a, b) <= 0 && CompareBy(cmp, b, c) <= 0
    ensures CompareBy(cmp, a, c) <= 0
    decreases |a|
  {
    if a != [] && b != [] && c != [] {
      assert cmp(a[0], b[0]) <= 0 && cmp(b[0], c[0]) <= 0;
      if cmp(a[0], c[0]) == 0 {
        assert cmp(b[0], a[0]) <= 0;
        CompareTransitive(cmp, a[1..], b[1..], c[1..]);
      }
    }
  }

  function CompareChars(x: char, y: char): int { x as int - y as int }

  // Strings compare by code point, which is how both Go and the C collation
  // order UTF-8 text.
  function Compare(a: string, b: string): int { CompareBy(CompareChars, a, b) }

  lemma CharsAreOrdered()
    ensures TotalOrder(CompareChars)
  {}

  lemma StringsAreOrdered()
    ensures TotalOrder(Compare)
  {
    CharsAreOrdered();
    forall a, b: string ensures Compare(a, b) == 0 <==> a == b { CompareZero(CompareChars, a, b); }
    forall a, b: string ensures Compare(a, b) < 0 <==> Compare(b, a) > 0 { CompareFlip(CompareChars, a, b); }
    forall a, b, c: string | Compare(a, b) <= 0 && Compare(b, c) <= 0 ensures Compare(a, c) <= 0 {
      CompareTransitive(CompareChars, a, b, c);
    }
  }

  ghost predicate Ascending<T>(cmp: (T, T) -> int, s: seq<T>) {
    forall i, j :: 0 <= i < j < |s| ==> cmp(s[i], s[j]) < 0
  }

  // The elements of a set in ascending order.
  ghost predicate SortedFrom<T(!new)>(cmp: (T, T) -> int, s: set<T>, r: seq<T>) {
    Ascending(cmp, r) && (forall x :: x in r <==> x in s)
  }

  ghost predicate Least<T(!new)>(cmp: (T, T) -> int, s: set<T>, x: T) {
    x in s && forall y <- s :: cmp(x, y) <= 0
  }

  lemma {:induction false} LeastExists<T(!new)>(cmp: (T, T) -> int, s: set<T>)
    requires TotalOrder(cmp) && s != {}
    ensures exists x :: Least(cmp, s, x)
    decreases |s|
  {
    var x :| x in s;
    if s == {x} {
      assert Least(cmp, s, x);
    } else {
      assert s == {x} + (s - {x});
      LeastExists(cmp, s - {x});
      var l :| Least(cmp, s - {x}, l);
      var least := if cmp(x, l) <= 0 then x else l;
      forall y <- s ensures cmp(least, y) <= 0 {
        if y != x { assert cmp(l, y) <= 0; }
      }
      assert Least(cmp, s, least);
    }
  }

  lemma LeastUnique<T(!new)>(cmp: (T, T) -> int, x: T, y: T)
    requires TotalOrder(cmp) && cmp(x, y) <= 0 && cmp(y, x) <= 0
    ensures x == y
  {}

  ghost function Sorted<T(!new)>(cmp: (T, T) -> int, s: set<T>): (r: seq<T>)
    requires TotalOrder(cmp)
    ensures SortedFrom(cmp, s, r) && |r| == |s|
    decreases |s|
  {
    if s == {} then []
    else
      LeastExists(cmp, s);
      var x :| Least(cmp, s, x);
      var rest := Sorted(cmp, s - {x});
      SortedCons(cmp, s, x, rest);
      [x] + rest
  }

  lemma SortedCons<T(!new)>(cmp: (T, T) -> int, s: set<T>, x: T, rest: seq<T>)
    requires TotalOrder(cmp) && Least(cmp, s, x) && SortedFrom(cmp, s - {x}, rest)
    ensures SortedFrom(cmp, s, [x] + rest)
  {
    forall i, j | 0 <= i < j < |[x] + rest| ensures cmp(([x] + rest)[i], ([x] + rest)[j]) < 0 {
      if i == 0 {
        var y := rest[j - 1];
        assert y in s - {x};
        if cmp(x, y) == 0 { LeastUnique(cmp, x, y); }
      }
    }
  }

  lemma HeadIsLeast<T(!new)>(cmp: (T, T) -> int, s: set<T>, a: seq<T>)
    requires TotalOrder(cmp) && SortedFrom(cmp, s, a) && a != []
    ensures Least(cmp, s, a[0])
    ensures SortedFrom(cmp, s - {a[0]}, a[1..])
  {
    assert a[0] in a;
    forall y <- s ensures cmp(a[0], y) <= 0 {
      assert y in a;
      var i :| 0 <= i < |a| && a[i] == y;
    }
    assert Ascending(cmp, a[1..]) by {
      forall i, j | 0 <= i < j < |a[1..]| ensures cmp(a[1..][i], a[1..][j]) < 0 {
        assert cmp(a[i + 1], a[j + 1]) < 0;
      }
    }
    forall x | x in a[1..] ensures x in s - {a[0]} {
      assert x in a && cmp(a[0], x) < 0;
    }
    forall x | x in s - {a[0]} ensures x in a[1..] {
      assert x in a && a == [a[0]] + a[1..];
    }
  }

  // Sorting has one answer.
  lemma {:induction false} SortedUnique<T(!new)>(cmp: (T, T) -> int, s: set<T>, a: seq<T>, b: seq<T>)
    requires TotalOrder(cmp) && SortedFrom(cmp, s, a) && SortedFrom(cmp, s, b)
    ensures a == b
    decreases |a|
  {
    assert b != [] ==> b[0] in b;
    if a != [] {
      assert a[0] in a && a[0] in s && a[0] in b;
      HeadIsLeast(cmp, s, a);
      HeadIsLeast(cmp, s, b);
      LeastUnique(cmp, a[0], b[0]);
      SortedUnique(cmp, s - {a[0]}, a[1..], b[1..]);
      assert a == [a[0]] + a[1..] && b == [b[0]] + b[1..];
    }
  }

  // Sorting by insertion, from any order of the elements.
  method Sort<T(!new,==)>(cmp: (T, T) -> int, s: set<T>) returns (r: seq<T>)
    requires TotalOrder(cmp)
    ensures r == Sorted(cmp, s)
  {
    var rest := s;
    r := [];
    while rest != {}
      invariant rest <= s && SortedFrom(cmp, s - rest, r)
      decreases |rest|
    {
      var x :| x in rest;
      assert x !in r;
      var i := 0;
      while i < |r| && cmp(r[i], x) < 0
        invariant 0 <= i <= |r|
        invariant forall j :: 0 <= j < i ==> cmp(r[j], x) < 0
      {
        i := i + 1;
      }
      InsertAt(cmp, s - rest, r, x, i);
      r := r[..i] + [x] + r[i..];
      rest := rest - {x};
      assert s - rest == s - (rest + {x}) + {x};
    }
    assert s - rest == s;
    SortedUnique(cmp, s, r, Sorted(cmp, s));
  }

  lemma IdsCompare(a: string, b: string)
    ensures Compare(a, b) == 0 <==> a == b
    ensures Compare(a, b) < 0 <==> Compare(b, a) > 0
  {
    CharsAreOrdered();
    CompareZero(CompareChars, a, b);
    CompareFlip(CompareChars, a, b);
  }

  lemma IdsTransitive(a: string, b: string, c: string)
    requires Compare(a, b) <= 0 && Compare(b, c) <= 0
    ensures Compare(a, c) <= 0
  {
    CharsAreOrdered();
    CompareTransitive(CompareChars, a, b, c);
  }

  // Ids in code-point order.
  ghost function SortedIds(s: set<string>): (r: seq<string>)
    ensures forall x :: x in r <==> x in s
    ensures forall i, j :: 0 <= i < j < |r| ==> r[i] != r[j]
    ensures |r| == |s|
  {
    StringsAreOrdered();
    SortedDistinct(Compare, s);
    Sorted(Compare, s)
  }

  lemma SortedDistinct<T(!new)>(cmp: (T, T) -> int, s: set<T>)
    requires TotalOrder(cmp)
    ensures forall i, j :: 0 <= i < j < |Sorted(cmp, s)| ==> Sorted(cmp, s)[i] != Sorted(cmp, s)[j]
  {
    var r := Sorted(cmp, s);
    forall i, j | 0 <= i < j < |r| ensures r[i] != r[j] {
      assert cmp(r[i], r[j]) < 0;
    }
  }

  method SortIds(s: set<string>) returns (r: seq<string>)
    ensures r == SortedIds(s)
  {
    StringsAreOrdered();
    r := Sort(Compare, s);
  }

  lemma InsertAt<T(!new)>(cmp: (T, T) -> int, s: set<T>, r: seq<T>, x: T, i: nat)
    requires TotalOrder(cmp) && SortedFrom(cmp, s, r) && i <= |r| && x !in s
    requires forall j :: 0 <= j < i ==> cmp(r[j], x) < 0
    requires i < |r| ==> cmp(r[i], x) >= 0
    ensures SortedFrom(cmp, s + {x}, r[..i] + [x] + r[i..])
  {
    var t := r[..i] + [x] + r[i..];
    forall k | i <= k < |r| ensures cmp(x, r[k]) < 0 {
      assert r[k] in r && r[k] in s;
      assert i < k ==> cmp(r[i], r[k]) < 0;
      assert cmp(x, r[i]) <= 0;
      assert cmp(x, r[k]) <= 0 && cmp(x, r[k]) != 0;
    }
    forall j, k | 0 <= j < k < |t| ensures cmp(t[j], t[k]) < 0 {
      if j < i < k {
        assert cmp(r[j], x) <= 0 && cmp(x, r[k - 1]) <= 0;
        assert cmp(r[j], r[k - 1]) < 0;
      }
    }
    assert r == r[..i] + r[i..];
  }
}
