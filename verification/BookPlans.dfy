// Putting one book on a shelf, moving it, trashing it and restoring it.
module BookPlans {
  import opened Outcomes
  import opened Ordering
  import opened Library
  import opened LibraryFrames

  // Ids for new memberships, made from the book and the shelf.
  type Mint = (string, string) -> string

  // The shelf a lookup finds.
  predicate Shown(v: Snapshot, shelf: string) { shelf in v.shelves && Visible(v, shelf) }

  predicate LiveBook(v: Snapshot, book: string) { book in v.books && v.books[book].live }

  // Live memberships of a book on shelves that can be seen.
  function Memberships(v: Snapshot, book: string): set<string> {
    set m | m in v.members && v.members[m].live && v.members[m].book == book && Shown(v, v.members[m].shelf)
  }

  function On(v: Snapshot, book: string, shelf: string, live: bool): set<string> {
    set m | m in v.members && v.members[m].book == book && v.members[m].shelf == shelf && v.members[m].live == live
  }

  // The membership of a book on a shelf: live ones first, then the least id.
  ghost function Found(v: Snapshot, book: string, shelf: string): Option<string> {
    var live, gone := SortedIds(On(v, book, shelf, true)), SortedIds(On(v, book, shelf, false));
    if live != [] then Some(live[0]) else if gone != [] then Some(gone[0]) else None
  }

  ghost predicate FoundLive(v: Snapshot, book: string, shelf: string) { On(v, book, shelf, true) != {} }

  function SetLive(live: bool): Action { SetMember(None, Some(live)) }

  function MemberUpdate(v: Snapshot, m: string, action: Action): Op
    requires m in v.members
  { Update(m, v.members[m].revision, v.members[m].head, action) }

  function BookUpdate(v: Snapshot, book: string, live: bool): Op
    requires book in v.books
  { Update(book, v.books[book].revision, v.books[book].head, SetBook(None, Some(live))) }

  lemma FoundIs(v: Snapshot, book: string, shelf: string)
    ensures Found(v, book, shelf).None? <==> On(v, book, shelf, true) == {} && On(v, book, shelf, false) == {}
    ensures Found(v, book, shelf).Some? ==>
              Found(v, book, shelf).value in On(v, book, shelf, FoundLive(v, book, shelf))
  {
    var live, gone := SortedIds(On(v, book, shelf, true)), SortedIds(On(v, book, shelf, false));
    assert live != [] ==> live[0] in live;
    assert gone != [] ==> gone[0] in gone;
  }

  lemma FoundDecides(v: Snapshot, book: string, shelf: string)
    ensures var m := Found(v, book, shelf);
            && (m.Some? ==> m.value in v.members)
            && (FoundLive(v, book, shelf) <==> m.Some? && v.members[m.value].live)
  {
    FoundIs(v, book, shelf);
  }

  // ---- the plans ----

  ghost function Shelve(v: Snapshot, mint: Mint, book: string, shelf: string): seq<Op> {
    FoundDecides(v, book, shelf);
    var m := Found(v, book, shelf);
    if FoundLive(v, book, shelf) then []
    else if m.Some? then [MemberUpdate(v, m.value, SetLive(true))]
    else [Op(mint(book, shelf), "", "", NewMember(Member(book, shelf, "", "", true)))]
  }

  ghost function PlanOnly(v: Snapshot, mint: Mint, book: string, shelf: string): Plan {
    if exists m :: m in Memberships(v, book) && v.members[m].shelf == shelf then Ok([])
    else if Memberships(v, book) != {} then Err(OneShelf)
    else if shelf == "" then Ok([])
    else Ok(Shelve(v, mint, book, shelf))
  }

  ghost function PlanAdd(v: Snapshot, mint: Mint, book: string, shelf: string): Plan {
    if !LiveBook(v, book) || !Shown(v, shelf) then Err(Changed) else PlanOnly(v, mint, book, shelf)
  }

  ghost function MoveOff(v: Snapshot, book: string, from: string, to: string): Plan {
    FoundDecides(v, book, from);
    if !FoundLive(v, book, from) || !Shown(v, from) then Err(Changed)
    else if from == to then Ok([])
    else
      var m := Found(v, book, from).value;
      if to == "" then
        if |Memberships(v, book)| > 1 then Err(OneShelf)
        else Ok([MemberUpdate(v, m, SetMember(Some(""), Some(false)))])
      else if FoundLive(v, book, to) then Ok([MemberUpdate(v, m, SetLive(false))])
      else Ok([MemberUpdate(v, m, SetMember(Some(to), None))])
  }

  ghost function PlanMove(v: Snapshot, mint: Mint, book: string, from: string, to: string): Plan {
    if !LiveBook(v, book) || (to != "" && !Shown(v, to)) then Err(Changed)
    else if from == "" then
      if Memberships(v, book) != {} then Err(Changed)
      else if to == "" then Ok([])
      else Ok(Shelve(v, mint, book, to))
    else MoveOff(v, book, from, to)
  }

  ghost function PlanRemove(v: Snapshot, book: string, from: string): Plan {
    FoundDecides(v, book, from);
    if !LiveBook(v, book) then Err(Changed)
    else if from == "" then
      if Memberships(v, book) != {} then Err(Changed) else Ok([BookUpdate(v, book, false)])
    else if !FoundLive(v, book, from) || !Shown(v, from) then Err(Changed)
    else
      var leave := MemberUpdate(v, Found(v, book, from).value, SetLive(false));
      if |Memberships(v, book)| > 1 then Ok([leave]) else Ok([BookUpdate(v, book, false), leave])
  }

  // Restoring keeps the first visible membership, moved to the shelf asked for,
  // and ends the others.
  function Kept(v: Snapshot, first: string, to: string): seq<Op>
    requires first in v.members
  {
    if v.members[first].shelf == to then []
    else [MemberUpdate(v, first, if to != "" then SetMember(Some(to), None) else SetLive(false))]
  }

  function Ended(v: Snapshot, ids: seq<string>): seq<Op>
    requires forall m <- ids :: m in v.members
    decreases |ids|
  {
    if ids == [] then []
    else Ended(v, ids[..|ids| - 1]) + [MemberUpdate(v, ids[|ids| - 1], SetLive(false))]
  }

  ghost function Regathered(v: Snapshot, mint: Mint, book: string, to: string): seq<Op> {
    var ids := SortedIds(Memberships(v, book));
    if ids != [] then Kept(v, ids[0], to) + Ended(v, ids[1..])
    else if to != "" then Shelve(v, mint, book, to)
    else []
  }

  ghost function PlanRestore(v: Snapshot, mint: Mint, book: string, to: string): Plan {
    if book !in v.books || v.books[book].live || (to != "" && !Shown(v, to)) then Err(Changed)
    else Ok([BookUpdate(v, book, true)] + Regathered(v, mint, book, to))
  }

  // ---- the planners as they run ----

  predicate Better(v: Snapshot, m: string, best: string)
    requires m in v.members && best in v.members
  {
    var live, bestLive := v.members[m].live, v.members[best].live;
    (live && !bestLive) || (live == bestLive && Compare(m, best) < 0)
  }

  lemma LeastIsFirst(s: set<string>, x: string)
    requires x in s && forall y <- s :: Compare(x, y) <= 0
    ensures SortedIds(s) != [] && SortedIds(s)[0] == x
  {
    StringsAreOrdered();
    var ids := SortedIds(s);
    assert x in ids;
    HeadIsLeast(Compare, s, ids);
    LeastUnique(Compare, x, ids[0]);
  }

  // The best of some memberships: no other one is better.
  ghost predicate BestOf(v: Snapshot, ids: set<string>, best: Option<string>) {
    && (best.None? <==> ids == {})
    && (best.Some? ==>
          && best.value in ids && best.value in v.members
          && (forall m <- ids :: m in v.members && (m == best.value || !Better(v, m, best.value))))
  }

  lemma BestIsFound(v: Snapshot, book: string, shelf: string, best: Option<string>)
    requires BestOf(v, On(v, book, shelf, true) + On(v, book, shelf, false), best)
    ensures best == Found(v, book, shelf)
  {
    FoundIs(v, book, shelf);
    if best.Some? { BestIsLeast(v, book, shelf, best.value, v.members[best.value].live); }
  }

  lemma BestIsLeast(v: Snapshot, book: string, shelf: string, best: string, live: bool)
    requires BestOf(v, On(v, book, shelf, true) + On(v, book, shelf, false), Some(best))
    requires live == v.members[best].live
    ensures Found(v, book, shelf) == Some(best)
  {
    var all := On(v, book, shelf, true) + On(v, book, shelf, false);
    forall m <- On(v, book, shelf, live) ensures Compare(best, m) <= 0 {
      assert m in all;
      IdsCompare(m, best);
    }
    LeastIsFirst(On(v, book, shelf, live), best);
    if !live {
      forall m <- On(v, book, shelf, true) ensures Better(v, m, best) && m in all {}
      assert On(v, book, shelf, true) == {};
    }
  }

  method Membership(v: Snapshot, book: string, shelf: string) returns (found: Option<string>)
    ensures found == Found(v, book, shelf)
  {
    var all := set m | m in v.members && v.members[m].book == book && v.members[m].shelf == shelf;
    found := Best(v, all);
    assert all == On(v, book, shelf, true) + On(v, book, shelf, false);
    BestIsFound(v, book, shelf, found);
  }

  method Best(v: Snapshot, all: set<string>) returns (found: Option<string>)
    requires all <= v.members.Keys
    ensures BestOf(v, all, found)
  {
    found := None;
    var rest := all;
    while rest != {}
      invariant rest <= all && BestOf(v, all - rest, found)
      decreases rest
    {
      var m :| m in rest;
      TakeOne(all, rest, m);
      BetterStep(v, all - rest, found, m);
      found := if found.None? || Better(v, m, found.value) then Some(m) else found;
      rest := rest - {m};
    }
    assert all - rest == all;
  }

  lemma TakeOne(all: set<string>, rest: set<string>, m: string)
    requires m in rest && rest <= all
    ensures all - (rest - {m}) == all - rest + {m} && m !in all - rest && rest - {m} < rest
  {}

  lemma BetterStep(v: Snapshot, ids: set<string>, best: Option<string>, m: string)
    requires BestOf(v, ids, best) && m in v.members && m !in ids
    ensures BestOf(v, ids + {m}, if best.None? || Better(v, m, best.value) then Some(m) else best)
  {
    if best.Some? && Better(v, m, best.value) {
      forall x <- ids ensures !Better(v, x, m) {
        BetterOrder(v, x, m, best.value);
      }
    }
  }

  lemma BetterOrder(v: Snapshot, x: string, y: string, z: string)
    requires x in v.members && y in v.members && z in v.members
    ensures !Better(v, x, x)
    ensures Better(v, x, y) && Better(v, y, z) ==> Better(v, x, z) && x != z
  {
    IdsCompare(x, x);
    if Better(v, x, y) && Better(v, y, z) {
      IdsCompare(x, y);
      IdsCompare(x, z);
      if v.members[x].live == v.members[z].live { IdsTransitive(x, y, z); }
    }
  }

  method Restore(v: Snapshot, mint: Mint, book: string, to: string) returns (r: Plan)
    ensures r == PlanRestore(v, mint, book, to)
  {
    if book !in v.books || v.books[book].live { return Err(Changed); }
    if to != "" {
      var shelf := FindShelf(v, to);
      if shelf.None? { return Err(Changed); }
    }
    var ids := SortIds(Memberships(v, book));
    var ops: seq<Op>;
    if to != "" && |ids| == 0 {
      ops := ShelveBook(v, mint, book, to);
    } else {
      ops := Gather(v, ids, to);
    }
    return Ok([BookUpdate(v, book, true)] + ops);
  }

  // The restore loop over the visible memberships, in id order.
  method Gather(v: Snapshot, ids: seq<string>, to: string) returns (ops: seq<Op>)
    requires forall m <- ids :: m in v.members
    ensures ops == if ids == [] then [] else Kept(v, ids[0], to) + Ended(v, ids[1..])
  {
    ops := [];
    for i := 0 to |ids|
      invariant ops == if i == 0 then [] else Kept(v, ids[0], to) + Ended(v, ids[1..i])
    {
      if i == 0 && v.members[ids[i]].shelf == to {
      } else if i == 0 && to != "" {
        ops := ops + [MemberUpdate(v, ids[i], SetMember(Some(to), None))];
      } else {
        ops := ops + [MemberUpdate(v, ids[i], SetLive(false))];
        assert i > 0 ==> ids[1..i + 1][..i - 1] == ids[1..i];
      }
    }
    assert ids != [] ==> ids[1..|ids|] == ids[1..];
  }

  method ShelveBook(v: Snapshot, mint: Mint, book: string, shelf: string) returns (ops: seq<Op>)
    ensures ops == Shelve(v, mint, book, shelf)
  {
    FoundDecides(v, book, shelf);
    var m := Membership(v, book, shelf);
    if m.Some? && v.members[m.value].live { return []; }
    if m.Some? { return [MemberUpdate(v, m.value, SetLive(true))]; }
    return [Op(mint(book, shelf), "", "", NewMember(Member(book, shelf, "", "", true)))];
  }

  method Move(v: Snapshot, mint: Mint, book: string, from: string, to: string) returns (r: Plan)
    ensures r == PlanMove(v, mint, book, from, to)
  {
    if book !in v.books || !v.books[book].live { return Err(Changed); }
    if to != "" {
      var shelf := FindShelf(v, to);
      if shelf.None? { return Err(Changed); }
    }
    var members := Memberships(v, book);
    if from == "" {
      if |members| > 0 { return Err(Changed); }
      if to == "" { return Ok([]); }
      var ops := ShelveBook(v, mint, book, to);
      return Ok(ops);
    }
    r := MoveFrom(v, book, from, to, |members|);
  }

  method HasLive(v: Snapshot, book: string, shelf: string) returns (r: bool)
    ensures r <==> FoundLive(v, book, shelf)
  {
    var t := Membership(v, book, shelf);
    FoundDecides(v, book, shelf);
    return t.Some? && v.members[t.value].live;
  }

  method MoveFrom(v: Snapshot, book: string, from: string, to: string, members: nat) returns (r: Plan)
    requires members == |Memberships(v, book)|
    ensures r == MoveOff(v, book, from, to)
  {
    var m := Membership(v, book, from);
    FoundDecides(v, book, from);
    if m.None? || !v.members[m.value].live { return Err(Changed); }
    var shelf := FindShelf(v, from);
    if shelf.None? { return Err(Changed); }
    if from == to { return Ok([]); }
    if to == "" {
      if members > 1 { return Err(OneShelf); }
      return Ok([MemberUpdate(v, m.value, SetMember(Some(""), Some(false)))]);
    }
    var there := HasLive(v, book, to);
    if there { return Ok([MemberUpdate(v, m.value, SetLive(false))]); }
    return Ok([MemberUpdate(v, m.value, SetMember(Some(to), None))]);
  }

  method Remove(v: Snapshot, book: string, from: string) returns (r: Plan)
    ensures r == PlanRemove(v, book, from)
  {
    FoundDecides(v, book, from);
    if book !in v.books || !v.books[book].live { return Err(Changed); }
    var members := Memberships(v, book);
    var trash := BookUpdate(v, book, false);
    if from == "" {
      if |members| > 0 { return Err(Changed); }
      return Ok([trash]);
    }
    var m := Membership(v, book, from);
    if m.None? || !v.members[m.value].live { return Err(Changed); }
    var shelf := FindShelf(v, from);
    if shelf.None? { return Err(Changed); }
    var leave := MemberUpdate(v, m.value, SetLive(false));
    if |members| > 1 { return Ok([leave]); }
    return Ok([trash, leave]);
  }
}
