// When the order of the records decides whether a merge is refused.
module MergeOrders {
  import opened Outcomes
  import opened Merge

  ghost predicate Reordered<T(!new)>(a: seq<T>, b: seq<T>) { multiset(a) == multiset(b) }

  ghost predicate Identified<T(!new)>(f: Shape<T>, records: seq<T>) { forall r <- records :: f.id(r) != "" }

  // Two different records of one id and one time.
  ghost predicate Tied<T(!new)>(f: Shape<T>, records: seq<T>, x: T, y: T) {
    x in records && y in records && x != y && f.id(x) == f.id(y) && f.at(x) == f.at(y)
  }

  // Nothing of its id is newer.
  ghost predicate Latest<T(!new)>(f: Shape<T>, records: seq<T>, x: T) {
    forall z <- records :: f.id(z) == f.id(x) ==> f.at(z) <= f.at(x)
  }

  ghost predicate SomeTie<T(!new)>(f: Shape<T>, records: seq<T>) { exists x, y :: Tied(f, records, x, y) }

  ghost predicate SomeLatestTie<T(!new)>(f: Shape<T>, records: seq<T>) {
    exists x, y :: Tied(f, records, x, y) && Latest(f, records, x)
  }

  lemma SameMembers<T(!new)>(a: seq<T>, b: seq<T>)
    requires Reordered(a, b)
    ensures forall r :: r in a <==> r in b
  {
    forall r ensures r in a <==> r in b {
      assert r in a <==> multiset(a)[r] > 0;
      assert r in b <==> multiset(b)[r] > 0;
    }
  }

  // ---- an order that succeeds: latest records first ----

  function Insert<T(!new)>(f: Shape<T>, r: T, sorted: seq<T>): seq<T> {
    if sorted == [] || f.at(r) >= f.at(sorted[0]) then [r] + sorted else [sorted[0]] + Insert(f, r, sorted[1..])
  }

  function LatestFirst<T(!new)>(f: Shape<T>, records: seq<T>): seq<T> {
    if records == [] then [] else Insert(f, records[0], LatestFirst(f, records[1..]))
  }

  ghost predicate Falls<T(!new)>(f: Shape<T>, s: seq<T>) { forall i, j :: 0 <= i < j < |s| ==> f.at(s[i]) >= f.at(s[j]) }

  lemma {:induction false} InsertFalls<T(!new)>(f: Shape<T>, r: T, s: seq<T>)
    requires Falls(f, s)
    ensures Falls(f, Insert(f, r, s)) && multiset(Insert(f, r, s)) == multiset(s) + multiset{r}
    decreases |s|
  {
    if s != [] && f.at(r) < f.at(s[0]) {
      var rest := Insert(f, r, s[1..]);
      InsertFalls(f, r, s[1..]);
      assert s == [s[0]] + s[1..];
      forall j | 0 <= j < |rest| ensures f.at(s[0]) >= f.at(rest[j]) {
        assert rest[j] in multiset(rest);
        if rest[j] != r { assert rest[j] in s[1..]; }
      }
    }
  }

  lemma {:induction false} LatestFirstFalls<T(!new)>(f: Shape<T>, records: seq<T>)
    ensures Falls(f, LatestFirst(f, records)) && Reordered(records, LatestFirst(f, records))
    decreases |records|
  {
    if records != [] {
      LatestFirstFalls(f, records[1..]);
      InsertFalls(f, records[0], LatestFirst(f, records[1..]));
      assert records == [records[0]] + records[1..];
    }
  }

  // A record tied with an earlier one comes after a later one of its id.
  lemma FallingHasLater<T(!new)>(f: Shape<T>, s: seq<T>, i: nat, x: T)
    requires Falls(f, s) && !SomeLatestTie(f, s) && i < |s|
    requires x in s[..i] && f.id(x) == f.id(s[i]) && f.at(x) == f.at(s[i]) && x != s[i]
    ensures exists z :: z in s[..i] && f.id(z) == f.id(s[i]) && f.at(z) > f.at(s[i])
  {
    assert Tied(f, s, s[i], x) && !Latest(f, s, s[i]);
    var z :| z in s && f.id(z) == f.id(s[i]) && f.at(z) > f.at(s[i]);
    var k :| 0 <= k < |s| && s[k] == z;
    assert z in s[..i];
  }

  lemma FallingSucceeds<T(!new)>(f: Shape<T>, s: seq<T>)
    requires Falls(f, s) && Identified(f, s) && !SomeLatestTie(f, s)
    ensures Merged(f, s).Ok?
  {
    forall i | 0 <= i < |s| ensures !Clashes(f, s[..i], s[i]) {
      assert s[i] in s;
      forall x | x in s[..i] && f.id(x) == f.id(s[i]) && f.at(x) == f.at(s[i]) && x != s[i]
        ensures exists z :: z in s[..i] && f.id(z) == f.id(s[i]) && f.at(z) > f.at(s[i])
      {
        FallingHasLater(f, s, i, x);
      }
    }
    SucceedsIff(f, s);
  }

  // ---- an order that is refused: a tie first ----

  function Front<T(!new)>(s: seq<T>, i: nat): (r: seq<T>)
    requires i < |s|
    ensures |r| == |s| && r[0] == s[i]
  { [s[i]] + s[..i] + s[i + 1..] }

  lemma FrontReorders<T(!new)>(s: seq<T>, i: nat)
    requires i < |s|
    ensures Reordered(s, Front(s, i))
  {
    assert s == s[..i] + [s[i]] + s[i + 1..];
  }

  lemma TieFirstIsRefused<T(!new)>(f: Shape<T>, s: seq<T>, x: T, y: T) returns (r: seq<T>)
    requires Tied(f, s, x, y)
    ensures Reordered(s, r) && Merged(f, r).Err?
  {
    var i :| 0 <= i < |s| && s[i] == y;
    var half := Front(s, i);
    FrontReorders(s, i);
    SameMembers(s, half);
    var k :| 0 <= k < |half| && half[k] == x;
    r := Front(half, k);
    FrontReorders(half, k);
    assert r[0] == x && r[1] == y && r[..1] == [x];
    assert x in r[..1] && Clashes(f, r[..1], r[1]);
    SucceedsIff(f, r);
  }

  // ---- exactly when ----

  lemma SucceedsOnly<T(!new)>(f: Shape<T>, s: seq<T>)
    requires Merged(f, s).Ok?
    ensures Identified(f, s) && !SomeLatestTie(f, s)
  {
    SucceedsIff(f, s);
    forall r <- s ensures f.id(r) != "" {
      var i :| 0 <= i < |s| && s[i] == r;
      assert !Clashes(f, s[..i], s[i]);
    }
    if SomeLatestTie(f, s) {
      var x, y :| Tied(f, s, x, y) && Latest(f, s, x);
      AmbiguityIsRefused(f, s, x, y);
    }
  }

  lemma RefusedOnly<T(!new)>(f: Shape<T>, s: seq<T>)
    requires Merged(f, s).Err?
    ensures !Identified(f, s) || SomeTie(f, s)
  {
    SucceedsIff(f, s);
    var i :| 0 <= i < |s| && Clashes(f, s[..i], s[i]);
    assert s[i] in s;
    if f.id(s[i]) != "" {
      var x :| x in s[..i] && f.id(x) == f.id(s[i]) && f.at(x) == f.at(s[i]) && x != s[i];
      assert Tied(f, s, s[i], x);
    }
  }

  lemma SameTies<T(!new)>(f: Shape<T>, a: seq<T>, b: seq<T>)
    requires Reordered(a, b)
    ensures Identified(f, a) == Identified(f, b) && SomeTie(f, a) == SomeTie(f, b)
    ensures SomeLatestTie(f, a) == SomeLatestTie(f, b)
  {
    SameMembers(a, b);
    forall x, y ensures Tied(f, a, x, y) == Tied(f, b, x, y) && Latest(f, a, x) == Latest(f, b, x) {}
    if SomeTie(f, a) { var x, y :| Tied(f, a, x, y); assert Tied(f, b, x, y); }
    if SomeTie(f, b) { var x, y :| Tied(f, b, x, y); assert Tied(f, a, x, y); }
    if SomeLatestTie(f, a) {
      var x, y :| Tied(f, a, x, y) && Latest(f, a, x);
      assert Tied(f, b, x, y) && Latest(f, b, x);
    }
    if SomeLatestTie(f, b) {
      var x, y :| Tied(f, b, x, y) && Latest(f, b, x);
      assert Tied(f, a, x, y) && Latest(f, a, x);
    }
  }

  ghost predicate SomeOrderSucceeds<T(!new)>(f: Shape<T>, records: seq<T>) {
    exists s :: Reordered(records, s) && Merged(f, s).Ok?
  }

  ghost predicate SomeOrderIsRefused<T(!new)>(f: Shape<T>, records: seq<T>) {
    exists s :: Reordered(records, s) && Merged(f, s).Err?
  }

  // Some order of the records is merged exactly when each has an id and no id has
  // two different latest records.
  lemma SomeOrderSucceedsIff<T(!new)>(f: Shape<T>, records: seq<T>)
    ensures SomeOrderSucceeds(f, records) <==> Identified(f, records) && !SomeLatestTie(f, records)
  {
    if SomeOrderSucceeds(f, records) {
      var s :| Reordered(records, s) && Merged(f, s).Ok?;
      SucceedsOnly(f, s);
      SameTies(f, records, s);
    }
    if Identified(f, records) && !SomeLatestTie(f, records) {
      var s := LatestFirst(f, records);
      LatestFirstFalls(f, records);
      SameTies(f, records, s);
      FallingSucceeds(f, s);
    }
  }

  // Some order is refused exactly when a record has no id or two different ones
  // share their id and time, latest or not.
  lemma SomeOrderIsRefusedIff<T(!new)>(f: Shape<T>, records: seq<T>)
    ensures SomeOrderIsRefused(f, records) <==> !Identified(f, records) || SomeTie(f, records)
  {
    if SomeOrderIsRefused(f, records) {
      var s :| Reordered(records, s) && Merged(f, s).Err?;
      RefusedOnly(f, s);
      SameTies(f, records, s);
    }
    if SomeTie(f, records) {
      var x, y :| Tied(f, records, x, y);
      var s := TieFirstIsRefused(f, records, x, y);
    } else if !Identified(f, records) {
      if Merged(f, records).Ok? { SucceedsOnly(f, records); }
      assert Reordered(records, records);
    }
  }

  // The order decides exactly when all records have ids, every id has one latest
  // record, and two different older ones are of the same id and time.
  lemma OrderDecidesIff<T(!new)>(f: Shape<T>, records: seq<T>)
    ensures SomeOrderSucceeds(f, records) && SomeOrderIsRefused(f, records)
            <==> Identified(f, records) && SomeTie(f, records) && !SomeLatestTie(f, records)
  {
    SomeOrderSucceedsIff(f, records);
    SomeOrderIsRefusedIff(f, records);
  }

  // Otherwise every order gives the same result, up to the reason of a refusal.
  lemma OrdersAgree<T(!new)>(f: Shape<T>, a: seq<T>, b: seq<T>)
    requires Reordered(a, b)
    requires !(Identified(f, a) && SomeTie(f, a) && !SomeLatestTie(f, a))
    ensures Merged(f, a) == Merged(f, b) || (Merged(f, a).Err? && Merged(f, b).Err?)
  {
    OrderDecidesIff(f, a);
    assert Reordered(a, a);
    if Merged(f, a).Ok? && Merged(f, b).Ok? {
      SameMembers(a, b);
      MergesAgree(f, a, b);
    }
  }
}
