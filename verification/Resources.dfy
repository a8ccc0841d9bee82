// A notebook's resources and a page's shapes, merged from all saved records.
module Resources {
  import opened Outcomes
  import opened Ordering
  import opened Merge

  datatype Resource = Resource(
    id: string, document: string, title: string, path: string,
    createdAt: int, updatedAt: int, duration: int, kind: int, status: int)

  const REMOVED := 1

  const BY_RESOURCE := Fields((r: Resource) => r.id, (r: Resource) => r.updatedAt)

  // ---- the order of the result ----

  datatype Slot = Slot(createdAt: int, id: string)

  function CompareSlots(a: Slot, b: Slot): int {
    if a.createdAt != b.createdAt then a.createdAt - b.createdAt else Compare(a.id, b.id)
  }

  lemma SlotsAreOrdered()
    ensures TotalOrder(CompareSlots)
  {
    forall a, b: Slot ensures (CompareSlots(a, b) == 0 <==> a == b)
      && (CompareSlots(a, b) < 0 <==> CompareSlots(b, a) > 0)
    {
      IdsCompare(a.id, b.id);
    }
    forall a, b, c: Slot | CompareSlots(a, b) <= 0 && CompareSlots(b, c) <= 0 ensures CompareSlots(a, c) <= 0 {
      if a.createdAt == b.createdAt == c.createdAt { IdsTransitive(a.id, b.id, c.id); }
    }
  }

  function Kept(w: Winners<Resource>): set<Slot> {
    set id | id in w && w[id].status != REMOVED :: Slot(w[id].createdAt, id)
  }

  ghost function SortedSlots(s: set<Slot>): (r: seq<Slot>)
    ensures forall x :: x in r <==> x in s
    ensures forall i, j :: 0 <= i < j < |r| ==> CompareSlots(r[i], r[j]) < 0
  {
    SlotsAreOrdered();
    Sorted(CompareSlots, s)
  }

  method SortSlots(s: set<Slot>) returns (r: seq<Slot>)
    ensures r == SortedSlots(s)
  {
    SlotsAreOrdered();
    r := Sort(CompareSlots, s);
  }

  // ---- the lists ----

  // A saved list as it parsed; some do not.
  type SavedList = Option<seq<Resource>>

  function Flat(lists: seq<seq<Resource>>): seq<Resource> {
    if lists == [] then [] else Flat(lists[..|lists| - 1]) + lists[|lists| - 1]
  }

  function Parsed(lists: seq<SavedList>): Result<seq<Resource>, Refusal>
    decreases |lists|
  {
    if lists == [] then Ok([])
    else
      match Parsed(lists[..|lists| - 1])
      case Err(e) => Err(e)
      case Ok(records) =>
        match lists[|lists| - 1]
        case None => Err(Unreadable)
        case Some(more) => Ok(records + more)
  }

  // The winners of the lists so far; a refusal of a record comes before one of a
  // later list.
  function Winning(lists: seq<SavedList>): Result<Winners<Resource>, Refusal>
    decreases |lists|
  {
    if lists == [] then Ok(map[])
    else
      match Winning(lists[..|lists| - 1])
      case Err(e) => Err(e)
      case Ok(w) =>
        match lists[|lists| - 1]
        case None => Err(Unreadable)
        case Some(records) => AddAll(BY_RESOURCE, w, records)
  }

  function AddAll<T(==)>(f: Shape<T>, w: Winners<T>, records: seq<T>): Result<Winners<T>, Refusal>
    decreases |records|
  {
    if records == [] then Ok(w)
    else
      match AddAll(f, w, records[..|records| - 1])
      case Err(e) => Err(e)
      case Ok(x) => Add(f, x, records[|records| - 1])
  }

  ghost predicate IsCurrent(w: Winners<Resource>, out: seq<Resource>) {
    && |out| == |SortedSlots(Kept(w))|
    && forall i :: 0 <= i < |out| ==> SortedSlots(Kept(w))[i].id in w && out[i] == w[SortedSlots(Kept(w))[i].id]
  }

  method CurrentResources(lists: seq<SavedList>) returns (r: Result<seq<Resource>, Refusal>)
    ensures r.Err? ==> Winning(lists) == Err(r.error)
    ensures r.Ok? ==> Winning(lists).Ok? && IsCurrent(Winning(lists).value, r.value)
  {
    var winners: Winners<Resource> := map[];
    for i := 0 to |lists|
      invariant Winning(lists[..i]) == Ok(winners)
    {
      assert lists[..i + 1][..i] == lists[..i];
      var step := if lists[i].None? then Err(Unreadable) else Ok(lists[i].value);
      if step.Err? {
        WinningStops(lists, i + 1);
        return Err(step.error);
      }
      var more := MergeList(winners, step.value);
      if more.Err? {
        WinningStops(lists, i + 1);
        return Err(more.error);
      }
      winners := more.value;
    }
    assert lists[..|lists|] == lists;
    var slots := SortSlots(Kept(winners));
    var out: seq<Resource> := [];
    for i := 0 to |slots|
      invariant |out| == i && forall k :: 0 <= k < i ==> slots[k].id in winners && out[k] == winners[slots[k].id]
    {
      assert slots[i] in slots;
      out := out + [winners[slots[i].id]];
    }
    return Ok(out);
  }

  method MergeList(winners: Winners<Resource>, records: seq<Resource>) returns (r: Result<Winners<Resource>, Refusal>)
    ensures r == AddAll(BY_RESOURCE, winners, records)
  {
    var w := winners;
    for i := 0 to |records|
      invariant AddAll(BY_RESOURCE, winners, records[..i]) == Ok(w)
    {
      assert records[..i + 1][..i] == records[..i];
      var x := records[i];
      var error: Option<Refusal> := None;
      if x.id == "" {
        error := Some(Missing);
      } else if x.id !in w || x.updatedAt > w[x.id].updatedAt {
        w := w[x.id := x];
      } else if x.updatedAt == w[x.id].updatedAt && x != w[x.id] {
        error := Some(Ambiguous);
      }
      if error.Some? {
        AddAllStops(BY_RESOURCE, winners, records, i + 1);
        return Err(error.value);
      }
    }
    assert records[..|records|] == records;
    return Ok(w);
  }

  lemma {:induction false} AddAllStops<T>(f: Shape<T>, w: Winners<T>, records: seq<T>, k: nat)
    requires k <= |records| && AddAll(f, w, records[..k]).Err?
    ensures AddAll(f, w, records) == AddAll(f, w, records[..k])
    decreases |records| - k
  {
    if k == |records| {
      assert records[..k] == records;
    } else {
      assert records[..k + 1][..k] == records[..k];
      AddAllStops(f, w, records, k + 1);
    }
  }

  lemma {:induction false} WinningStops(lists: seq<SavedList>, k: nat)
    requires k <= |lists| && Winning(lists[..k]).Err?
    ensures Winning(lists) == Winning(lists[..k])
    decreases |lists| - k
  {
    if k == |lists| {
      assert lists[..k] == lists;
    } else {
      assert lists[..k + 1][..k] == lists[..k];
      WinningStops(lists, k + 1);
    }
  }

  // ---- list by list is record by record ----

  lemma {:induction false} AddAllIsMerge<T>(f: Shape<T>, a: seq<T>, b: seq<T>)
    requires Merged(f, a).Ok?
    ensures AddAll(f, Merged(f, a).value, b) == Merged(f, a + b)
    decreases |b|
  {
    if b == [] {
      assert a + b == a;
    } else {
      AddAllIsMerge(f, a, b[..|b| - 1]);
      assert (a + b)[..|a + b| - 1] == a + b[..|b| - 1];
    }
  }

  lemma {:induction false} WinningIsMerge(lists: seq<SavedList>)
    requires Winning(lists).Ok?
    ensures Parsed(lists).Ok? && Merged(BY_RESOURCE, Parsed(lists).value) == Winning(lists)
    decreases |lists|
  {
    if lists != [] {
      WinningIsMerge(lists[..|lists| - 1]);
      AddAllIsMerge(BY_RESOURCE, Parsed(lists[..|lists| - 1]).value, lists[|lists| - 1].value);
    }
  }

  // ---- what the result promises ----

  // The resources of a notebook: for each id its unique newest record, unless
  // that one says removed; in the order they were created.
  lemma CurrentIsNewest(lists: seq<SavedList>, out: seq<Resource>)
    requires Winning(lists).Ok? && IsCurrent(Winning(lists).value, out)
    ensures Parsed(lists).Ok?
    ensures forall x :: x in out <==> Newest(BY_RESOURCE, Parsed(lists).value, x) && x.status != REMOVED
    ensures forall i, j :: 0 <= i < j < |out| ==>
              out[i].id != out[j].id
              && (out[i].createdAt < out[j].createdAt
                  || (out[i].createdAt == out[j].createdAt && Compare(out[i].id, out[j].id) < 0))
  {
    var w := Winning(lists).value;
    WinningIsMerge(lists);
    var records := Parsed(lists).value;
    WinnersAreNewest(BY_RESOURCE, records);
    CurrentHolds(w, out);
    forall x ensures x in out <==> Newest(BY_RESOURCE, records, x) && x.status != REMOVED {
      if Newest(BY_RESOURCE, records, x) { assert x.id in w && Newest(BY_RESOURCE, records, w[x.id]); }
      if x in out { assert x.id in w && w[x.id] == x; }
    }
    CurrentIsSorted(w, out);
  }

  lemma CurrentHolds(w: Winners<Resource>, out: seq<Resource>)
    requires IsCurrent(w, out) && forall id <- w :: w[id].id == id
    ensures forall x :: x in out <==> x.id in w && w[x.id] == x && x.status != REMOVED
  {
    var slots := SortedSlots(Kept(w));
    forall x ensures x in out <==> x.id in w && w[x.id] == x && x.status != REMOVED {
      if x in out {
        var i :| 0 <= i < |out| && out[i] == x;
        assert slots[i] in Kept(w);
      }
      if x.id in w && w[x.id] == x && x.status != REMOVED {
        assert Slot(x.createdAt, x.id) in Kept(w);
        var i :| 0 <= i < |slots| && slots[i] == Slot(x.createdAt, x.id);
        assert out[i] == x;
      }
    }
  }

  lemma CurrentIsSorted(w: Winners<Resource>, out: seq<Resource>)
    requires IsCurrent(w, out) && forall id <- w :: w[id].id == id
    ensures forall i, j :: 0 <= i < j < |out| ==>
              out[i].id != out[j].id
              && (out[i].createdAt < out[j].createdAt
                  || (out[i].createdAt == out[j].createdAt && Compare(out[i].id, out[j].id) < 0))
  {
    var slots := SortedSlots(Kept(w));
    forall i | 0 <= i < |out|
      ensures out[i].id == slots[i].id && out[i].createdAt == slots[i].createdAt && out[i] == w[out[i].id]
    {
      assert slots[i] in Kept(w);
    }
    forall i, j | 0 <= i < j < |out|
      ensures out[i].id != out[j].id
              && (out[i].createdAt < out[j].createdAt
                  || (out[i].createdAt == out[j].createdAt && Compare(out[i].id, out[j].id) < 0))
    {
      assert CompareSlots(slots[i], slots[j]) < 0;
      IdsCompare(out[i].id, out[j].id);
    }
  }

  // ---- when there is a result ----

  ghost predicate AllParse(lists: seq<SavedList>) { forall i :: 0 <= i < |lists| ==> lists[i].Some? }

  function Values(lists: seq<SavedList>): seq<seq<Resource>> {
    seq(|lists|, i requires 0 <= i < |lists| => if lists[i].Some? then lists[i].value else [])
  }

  lemma {:induction false} ParsedIs(lists: seq<SavedList>)
    ensures Parsed(lists) == if AllParse(lists) then Ok(Flat(Values(lists))) else Err(Unreadable)
    decreases |lists|
  {
    if lists != [] {
      var n := |lists| - 1;
      ParsedIs(lists[..n]);
      assert Values(lists)[..n] == Values(lists[..n]);
      assert AllParse(lists) <==> AllParse(lists[..n]) && lists[n].Some?;
    }
  }

  // There is one exactly if every list parses and all their records merge.
  lemma {:induction false} WinningIff(lists: seq<SavedList>)
    ensures Winning(lists).Ok? <==> AllParse(lists) && Merged(BY_RESOURCE, Flat(Values(lists))).Ok?
    decreases |lists|
  {
    if lists != [] {
      var n := |lists| - 1;
      WinningIff(lists[..n]);
      assert Values(lists)[..n] == Values(lists[..n]);
      assert AllParse(lists) <==> AllParse(lists[..n]) && lists[n].Some?;
      if Winning(lists[..n]).Ok? {
        WinningIsMerge(lists[..n]);
        ParsedIs(lists[..n]);
        if lists[n].Some? { AddAllIsMerge(BY_RESOURCE, Flat(Values(lists[..n])), lists[n].value); }
      } else if AllParse(lists) {
        MergedPart(BY_RESOURCE, Flat(Values(lists[..n])), lists[n].value);
      }
    }
  }

  lemma {:induction false} MergedPart<T>(f: Shape<T>, a: seq<T>, b: seq<T>)
    requires Merged(f, a).Err?
    ensures Merged(f, a + b) == Merged(f, a)
    decreases |b|
  {
    if b == [] {
      assert a + b == a;
    } else {
      MergedPart(f, a, b[..|b| - 1]);
      assert (a + b)[..|a + b| - 1] == a + b[..|b| - 1];
    }
  }

  // The first list that fails decides the refusal: it does not parse, or its
  // records do not merge with those before.
  lemma {:induction false} WinningRefusal(lists: seq<SavedList>) returns (k: nat)
    requires Winning(lists).Err?
    ensures k < |lists| && AllParse(lists[..k]) && Merged(BY_RESOURCE, Flat(Values(lists[..k]))).Ok?
    ensures if lists[k].None? then Winning(lists).error == Unreadable
            else Merged(BY_RESOURCE, Flat(Values(lists[..k])) + lists[k].value) == Err(Winning(lists).error)
    decreases |lists|
  {
    var n := |lists| - 1;
    if Winning(lists[..n]).Err? {
      k := WinningRefusal(lists[..n]);
      assert lists[..n][..k] == lists[..k];
    } else {
      k := n;
      WinningIff(lists[..n]);
      WinningIsMerge(lists[..n]);
      ParsedIs(lists[..n]);
      if lists[n].Some? { AddAllIsMerge(BY_RESOURCE, Flat(Values(lists[..n])), lists[n].value); }
    }
  }

  // Whether the merge succeeds can depend on the order: an ambiguity between
  // older records is refused only when they come before the newest one.
  lemma OrderDecidesSuccess()
    ensures exists a: seq<Resource>, b: seq<Resource> ::
              (forall r :: r in a <==> r in b) && Merged(BY_RESOURCE, a).Err? && Merged(BY_RESOURCE, b).Ok?
  {
    var x := Resource("1", "", "x", "", 0, 1, 0, 0, 0);
    var y, z := x.(title := "y"), x.(updatedAt := 2);
    var a, b := [x, y, z], [z, x, y];
    assert Merged(BY_RESOURCE, []) == Ok(map[]);
    assert a[..2][..1][..0] == [] && a[..2][..1] == [x] && a[..2] == [x, y];
    assert Merged(BY_RESOURCE, [x]) == Ok(map["1" := x]);
    assert Merged(BY_RESOURCE, [x, y]) == Err(Ambiguous);
    assert Merged(BY_RESOURCE, a).Err?;
    assert b[..2][..1][..0] == [] && b[..2][..1] == [z] && b[..2] == [z, x];
    assert Merged(BY_RESOURCE, [z]) == Ok(map["1" := z]);
    assert Merged(BY_RESOURCE, [z, x]) == Ok(map["1" := z]);
    assert Merged(BY_RESOURCE, b) == Ok(map["1" := z]);
    forall r ensures r in a <==> r in b {}
  }
}
