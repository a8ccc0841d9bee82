// Newest record wins: how lists of records that devices saved are merged.
module Merge {
  import opened Outcomes

  datatype Refusal = Missing | Ambiguous | Unreadable | TooLarge

  // What a record is about, and when it was written.
  datatype Shape<!T> = Fields(id: T -> string, at: T -> int)

  type Winners<T> = map<string, T>

  function Add<T(==)>(f: Shape<T>, w: Winners<T>, r: T): Result<Winners<T>, Refusal> {
    var id := f.id(r);
    if id == "" then Err(Missing)
    else if id !in w || f.at(r) > f.at(w[id]) then Ok(w[id := r])
    else if f.at(r) == f.at(w[id]) && r != w[id] then Err(Ambiguous)
    else Ok(w)
  }

  function Merged<T(==)>(f: Shape<T>, records: seq<T>): Result<Winners<T>, Refusal>
    decreases |records|
  {
    if records == [] then Ok(map[])
    else
      match Merged(f, records[..|records| - 1])
      case Err(e) => Err(e)
      case Ok(w) => Add(f, w, records[|records| - 1])
  }

  // ---- the winners ----

  // `r` is the one newest record of its id among some.
  ghost predicate Newest<T>(f: Shape<T>, records: seq<T>, r: T) {
    && r in records
    && forall x <- records :: f.id(x) == f.id(r) && x != r ==> f.at(x) < f.at(r)
  }

  ghost predicate AreWinners<T>(f: Shape<T>, records: seq<T>, w: Winners<T>) {
    && (forall id <- w :: f.id(w[id]) == id && Newest(f, records, w[id]))
    && (forall r <- records :: f.id(r) in w)
  }

  // Each id's winner is its unique newest record.
  lemma {:induction false} WinnersAreNewest<T>(f: Shape<T>, records: seq<T>)
    requires Merged(f, records).Ok?
    ensures AreWinners(f, records, Merged(f, records).value)
    decreases |records|
  {
    if records != [] {
      var before, r := records[..|records| - 1], records[|records| - 1];
      WinnersAreNewest(f, before);
      assert records == before + [r];
      AddKeepsWinners(f, before, Merged(f, before).value, r);
    }
  }

  lemma AddKeepsWinners<T>(f: Shape<T>, records: seq<T>, w: Winners<T>, r: T)
    requires AreWinners(f, records, w) && Add(f, w, r).Ok?
    ensures AreWinners(f, records + [r], Add(f, w, r).value)
  {
    var x, all := Add(f, w, r).value, records + [r];
    assert forall y <- all :: y in records || y == r;
    forall id <- x ensures f.id(x[id]) == id && Newest(f, all, x[id]) {
      if id in w { assert Newest(f, records, w[id]); }
    }
  }

  // The records alone decide the winners: two orders that both succeed agree.
  lemma MergesAgree<T>(f: Shape<T>, a: seq<T>, b: seq<T>)
    requires Merged(f, a).Ok? && Merged(f, b).Ok? && forall r :: r in a <==> r in b
    ensures Merged(f, a) == Merged(f, b)
  {
    WinnersAreNewest(f, a);
    WinnersAreNewest(f, b);
    var w, x := Merged(f, a).value, Merged(f, b).value;
    forall id ensures id in w <==> id in x {
      if id in w { assert w[id] in a; }
      if id in x { assert x[id] in b; }
    }
    forall id <- w ensures w[id] == x[id] {
      assert w[id] in a && x[id] in b && Newest(f, a, w[id]) && Newest(f, b, x[id]);
    }
    assert w == x;
  }

  // Two different records that share an id and its newest time are refused in
  // every order.
  lemma AmbiguityIsRefused<T>(f: Shape<T>, records: seq<T>, r: T, s: T)
    requires r in records && s in records && r != s && f.id(r) == f.id(s) && f.at(r) == f.at(s)
    requires forall x <- records :: f.id(x) == f.id(r) ==> f.at(x) <= f.at(r)
    ensures Merged(f, records).Err?
  {
    assert forall x <- records :: f.id(x) == f.id(r) ==> !Newest(f, records, x);
    if Merged(f, records).Ok? { WinnersAreNewest(f, records); }
  }

  // A merge is refused at the first record that has no id, or that has the time
  // of the newest one before it without being that record.
  ghost predicate Clashes<T>(f: Shape<T>, before: seq<T>, r: T) {
    || f.id(r) == ""
    || exists x :: x in before && f.id(x) == f.id(r) && f.at(x) == f.at(r) && x != r
                   && forall y <- before :: f.id(y) == f.id(r) ==> f.at(y) <= f.at(r)
  }

  ghost predicate Clean<T>(f: Shape<T>, records: seq<T>) {
    forall i :: 0 <= i < |records| ==> !Clashes(f, records[..i], records[i])
  }

  lemma CleanSnoc<T>(f: Shape<T>, before: seq<T>, r: T)
    ensures Clean(f, before + [r]) <==> Clean(f, before) && !Clashes(f, before, r)
  {
    var all := before + [r];
    assert all[..|before|] == before && all[|before|] == r;
    forall i | 0 <= i < |before| ensures all[..i] == before[..i] && all[i] == before[i] {}
    if Clean(f, all) { assert !Clashes(f, all[..|before|], all[|before|]); }
  }

  lemma {:induction false} SucceedsIff<T>(f: Shape<T>, records: seq<T>)
    ensures Merged(f, records).Ok? <==> Clean(f, records)
    decreases |records|
  {
    if records != [] {
      var before, r := records[..|records| - 1], records[|records| - 1];
      assert records == before + [r];
      SucceedsIff(f, before);
      CleanSnoc(f, before, r);
      if Merged(f, before).Ok? {
        WinnersAreNewest(f, before);
        AddRefusesClash(f, before, Merged(f, before).value, r);
      }
    }
  }

  lemma AddRefusesClash<T>(f: Shape<T>, before: seq<T>, w: Winners<T>, r: T)
    requires AreWinners(f, before, w)
    ensures Add(f, w, r).Err? <==> Clashes(f, before, r)
  {
    var id := f.id(r);
    if id != "" && id in w { assert Newest(f, before, w[id]); }
  }

  // The first record that cannot be merged.
  ghost predicate FirstClash<T>(f: Shape<T>, records: seq<T>, i: nat) {
    && i < |records| && Clashes(f, records[..i], records[i])
    && forall j :: 0 <= j < i ==> !Clashes(f, records[..j], records[j])
  }

  // It decides the refusal: its id is missing, or the newest record is ambiguous.
  lemma {:induction false} RefusalIs<T>(f: Shape<T>, records: seq<T>) returns (i: nat)
    requires Merged(f, records).Err?
    ensures FirstClash(f, records, i)
    ensures Merged(f, records).error == if f.id(records[i]) == "" then Missing else Ambiguous
    decreases |records|
  {
    var before, r := records[..|records| - 1], records[|records| - 1];
    assert records == before + [r];
    if Merged(f, before).Err? {
      i := RefusalIs(f, before);
      ClashesBefore(f, before, r, i);
    } else {
      i := |before|;
      SucceedsIff(f, before);
      WinnersAreNewest(f, before);
      AddRefusesClash(f, before, Merged(f, before).value, r);
      LastClashes(f, before, r);
    }
  }

  lemma ClashesBefore<T>(f: Shape<T>, before: seq<T>, r: T, i: nat)
    requires FirstClash(f, before, i)
    ensures FirstClash(f, before + [r], i) && (before + [r])[i] == before[i]
  {
    var all := before + [r];
    forall j | 0 <= j <= i ensures all[..j] == before[..j] && all[j] == before[j] {}
  }

  lemma LastClashes<T>(f: Shape<T>, before: seq<T>, r: T)
    requires Clean(f, before) && Clashes(f, before, r)
    ensures FirstClash(f, before + [r], |before|) && (before + [r])[|before|] == r
  {
    var all := before + [r];
    assert all[..|before|] == before;
    forall j | 0 <= j < |before| ensures all[..j] == before[..j] && all[j] == before[j] {}
  }
}
