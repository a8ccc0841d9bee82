// On how many shelves a book is before and after one change.
module BookCounts {
  import opened Outcomes
  import opened Ordering
  import opened Library
  import opened LibraryFrames
  import opened BookPlans

  // New membership ids of one book are unused.
  ghost predicate Unused(v: Snapshot, mint: Mint, book: string) {
    forall shelf :: mint(book, shelf) !in v.shelves && mint(book, shelf) !in v.books && mint(book, shelf) !in v.members
  }

  // An op on the book itself, on one of its memberships, or making a new one.
  ghost predicate OpOf(v: Snapshot, mint: Mint, book: string, op: Op) {
    match op.action
    case SetBook(_, _) => op.id == book
    case SetMember(_, _) => op.id in v.members && v.members[op.id].book == book
    case NewMember(m) => m.book == book && op.id == mint(book, m.shelf) && m.live
    case _ => false
  }

  lemma {:induction false} ChainSame(v: Snapshot, w: Snapshot, at: string, depth: nat)
    requires v.shelves == w.shelves
    ensures Chain(v, at, depth) == Chain(w, at, depth)
    decreases depth
  {
    if at != "" && depth > 0 && Native(v, at) { ChainSame(v, w, v.shelves[at].parent, depth - 1); }
  }

  lemma ShownSame(v: Snapshot, w: Snapshot)
    requires v.shelves == w.shelves
    ensures forall s :: Shown(v, s) == Shown(w, s)
  {
    forall s ensures Shown(v, s) == Shown(w, s) { ChainSame(v, w, s, MAX_DEPTH); }
  }

  // Where a membership op leaves its membership.
  ghost predicate EndsOn(v: Snapshot, op: Op, shelf: string) {
    match op.action
    case NewMember(m) => m.shelf == shelf
    case SetMember(s, live) =>
      op.id in v.members && Or(live, v.members[op.id].live) && Or(s, v.members[op.id].shelf) == shelf
    case _ => false
  }

  ghost predicate EndsShown(v: Snapshot, op: Op) { exists shelf :: EndsOn(v, op, shelf) && Shown(v, shelf) }

  lemma ChangeMemberships(v: Snapshot, mint: Mint, book: string, op: Op, head: string)
    requires OpOf(v, mint, book, op)
    ensures var w := Change(v, op, head);
            && w.shelves == v.shelves
            && Memberships(w, book) ==
                 (if op.action.SetBook? then Memberships(v, book)
                  else if EndsShown(v, op) then Memberships(v, book) + {op.id}
                  else Memberships(v, book) - {op.id})
            && (forall shelf :: EndsOn(v, op, shelf) ==> op.id in w.members && w.members[op.id].shelf == shelf)
  {
    var w := Change(v, op, head);
    ShownSame(v, w);
    if !op.action.SetBook? {
      assert op.id in w.members;
      var shelf := w.members[op.id].shelf;
      assert w.members[op.id].live ==> EndsOn(v, op, shelf);
      assert forall m :: m != op.id ==> (m in Memberships(w, book) <==> m in Memberships(v, book));
    }
  }

  lemma OneOp(v: Snapshot, mint: Mint, book: string, op: Op, heads: string -> string)
    requires OpOf(v, mint, book, op)
    ensures var w := Apply(v, [op], heads);
            && w.shelves == v.shelves
            && Memberships(w, book) ==
                 (if op.action.SetBook? then Memberships(v, book)
                  else if EndsShown(v, op) then Memberships(v, book) + {op.id}
                  else Memberships(v, book) - {op.id})
            && (forall shelf :: EndsOn(v, op, shelf) ==> op.id in w.members && w.members[op.id].shelf == shelf)
  {
    ApplyOne(v, op, heads);
    ChangeMemberships(v, mint, book, op, heads(op.id));
  }

  // What an op on one membership leaves of the other records.
  ghost predicate OnlyMember(v: Snapshot, w: Snapshot, m: string) {
    && w.shelves == v.shelves && w.books == v.books && w.members.Keys == v.members.Keys
    && m in v.members && w.members[m].book == v.members[m].book
    && (forall x <- v.members :: x != m ==> w.members[x] == v.members[x])
  }

  lemma MemberOnly(v: Snapshot, op: Op, heads: string -> string)
    requires op.action.SetMember? && op.id in v.members
    ensures OnlyMember(v, Apply(v, [op], heads), op.id)
    ensures var r := Apply(v, [op], heads).members[op.id];
            && r.shelf == Or(op.action.onShelf, v.members[op.id].shelf)
            && r.live == Or(op.action.memberLive, v.members[op.id].live)
  {
    ApplyOne(v, op, heads);
  }

  lemma BookOnly(v: Snapshot, op: Op, heads: string -> string)
    requires op.action.SetBook? && op.id in v.books
    ensures var w := Apply(v, [op], heads);
            && w.shelves == v.shelves && w.members == v.members
            && op.id in w.books && w.books[op.id].live == Or(op.action.bookLive, v.books[op.id].live)
  {
    ApplyOne(v, op, heads);
  }

  // Exactly one visible membership, on that shelf.
  ghost predicate JustOn(v: Snapshot, book: string, shelf: string) {
    exists m :: Memberships(v, book) == {m} && m in v.members && v.members[m].shelf == shelf
  }

  ghost predicate IsOn(v: Snapshot, book: string, shelf: string) {
    exists m :: m in Memberships(v, book) && v.members[m].shelf == shelf
  }

  lemma LiveIsShown(v: Snapshot, book: string, shelf: string)
    requires Shown(v, shelf)
    ensures On(v, book, shelf, true) <= Memberships(v, book)
  {}

  lemma ShelvePuts(v: Snapshot, mint: Mint, book: string, shelf: string, heads: string -> string)
    requires Shown(v, shelf) && Memberships(v, book) == {}
    ensures JustOn(Apply(v, Shelve(v, mint, book, shelf), heads), book, shelf)
  {
    LiveIsShown(v, book, shelf);
    FoundIs(v, book, shelf);
    var op := Shelve(v, mint, book, shelf)[0];
    assert EndsOn(v, op, shelf);
    OneOp(v, mint, book, op, heads);
    assert Memberships(Apply(v, [op], heads), book) == {op.id};
  }

  // A move from the top level puts the book on exactly that shelf.
  lemma MoveFromTop(v: Snapshot, mint: Mint, book: string, to: string, heads: string -> string)
    requires PlanMove(v, mint, book, "", to).Ok? && to != ""
    ensures JustOn(Apply(v, PlanMove(v, mint, book, "", to).value, heads), book, to)
  {
    ShelvePuts(v, mint, book, to, heads);
  }

  ghost predicate Leaves(v: Snapshot, w: Snapshot, book: string, from: string, to: string) {
    && FoundLive(v, book, from)
    && Found(v, book, from).Some?
    && var m := Found(v, book, from).value;
       && On(w, book, from, true) == On(v, book, from, true) - {m}
       && Memberships(w, book) ==
            (if to == "" || FoundLive(v, book, to) then Memberships(v, book) - {m} else Memberships(v, book))
  }

  lemma OffShelf(v: Snapshot, w: Snapshot, book: string, from: string, m: string)
    requires OnlyMember(v, w, m) && !(w.members[m].live && w.members[m].shelf == from)
    ensures On(w, book, from, true) == On(v, book, from, true) - {m}
  {}

  // A move from a shelf takes the one membership off it, and the book is on the
  // other shelf afterwards.
  lemma MoveBetween(v: Snapshot, mint: Mint, book: string, from: string, to: string, heads: string -> string)
    requires PlanMove(v, mint, book, from, to).Ok? && from != "" && from != to && "" !in v.shelves
    ensures var w := Apply(v, PlanMove(v, mint, book, from, to).value, heads);
            Leaves(v, w, book, from, to) && (to != "" ==> IsOn(w, book, to))
  {
    FoundIs(v, book, from);
    LiveIsShown(v, book, from);
    var m := Found(v, book, from).value;
    if to == "" {
      TakeOff(v, mint, book, from, MemberUpdate(v, m, SetMember(Some(""), Some(false))), heads);
    } else if FoundLive(v, book, to) {
      TakeOff(v, mint, book, from, MemberUpdate(v, m, SetLive(false)), heads);
      LiveIsShown(v, book, to);
      var t :| t in On(v, book, to, true);
      MemberOnly(v, MemberUpdate(v, m, SetLive(false)), heads);
      assert t in Memberships(Apply(v, [MemberUpdate(v, m, SetLive(false))], heads), book);
    } else {
      PutOn(v, mint, book, from, to, MemberUpdate(v, m, SetMember(Some(to), None)), heads);
    }
  }

  lemma TakeOff(v: Snapshot, mint: Mint, book: string, from: string, op: Op, heads: string -> string)
    requires op.id in On(v, book, from, true) && op.action.SetMember? && op.action.memberLive == Some(false)
    ensures var w := Apply(v, [op], heads);
            On(w, book, from, true) == On(v, book, from, true) - {op.id}
            && Memberships(w, book) == Memberships(v, book) - {op.id}
  {
    MemberOnly(v, op, heads);
    OffShelf(v, Apply(v, [op], heads), book, from, op.id);
    OneOp(v, mint, book, op, heads);
  }

  lemma PutOn(v: Snapshot, mint: Mint, book: string, from: string, to: string, op: Op, heads: string -> string)
    requires op.id in On(v, book, from, true) && op.id in Memberships(v, book) && op.action == SetMember(Some(to), None)
    requires from != to && Shown(v, to)
    ensures var w := Apply(v, [op], heads);
            On(w, book, from, true) == On(v, book, from, true) - {op.id}
            && Memberships(w, book) == Memberships(v, book) && IsOn(w, book, to)
  {
    var w := Apply(v, [op], heads);
    MemberOnly(v, op, heads);
    OffShelf(v, w, book, from, op.id);
    assert EndsOn(v, op, to);
    OneOp(v, mint, book, op, heads);
    assert Memberships(v, book) + {op.id} == Memberships(v, book);
    assert op.id in Memberships(w, book) && w.members[op.id].shelf == to;
  }

  // Trashing a book takes it off its one shelf; a book on several shelves only
  // leaves the one, and stays.
  lemma RemoveLeaves(v: Snapshot, mint: Mint, book: string, from: string, heads: string -> string)
    requires PlanRemove(v, book, from).Ok? && WellFormed(v)
    ensures var w := Apply(v, PlanRemove(v, book, from).value, heads);
            && |Memberships(w, book)| == (if |Memberships(v, book)| == 0 then 0 else |Memberships(v, book)| - 1)
            && LiveBook(w, book) == (|Memberships(v, book)| > 1)
            && (!LiveBook(w, book) ==> Memberships(w, book) == {})
            && (from != "" ==> On(w, book, from, true) == On(v, book, from, true) - {Found(v, book, from).value})
  {
    var trash := BookUpdate(v, book, false);
    if from == "" {
      OneOp(v, mint, book, trash, heads);
      BookOnly(v, trash, heads);
    } else {
      FoundIs(v, book, from);
      LiveIsShown(v, book, from);
      var leave := MemberUpdate(v, Found(v, book, from).value, SetLive(false));
      if |Memberships(v, book)| > 1 {
        LeaveShelf(v, mint, book, from, leave, heads);
      } else {
        ApplyConcat(v, [trash], [leave], heads);
        OneOp(v, mint, book, trash, heads);
        BookOnly(v, trash, heads);
        LeaveShelf(Apply(v, [trash], heads), mint, book, from, leave, heads);
      }
    }
  }

  lemma LeaveShelf(v: Snapshot, mint: Mint, book: string, from: string, leave: Op, heads: string -> string)
    requires leave.id in On(v, book, from, true) && leave.id in Memberships(v, book) && leave.action == SetLive(false)
    ensures var w := Apply(v, [leave], heads);
            && w.books == v.books
            && Memberships(w, book) == Memberships(v, book) - {leave.id}
            && |Memberships(w, book)| == |Memberships(v, book)| - 1
            && On(w, book, from, true) == On(v, book, from, true) - {leave.id}
  {
    TakeOff(v, mint, book, from, leave, heads);
    MemberOnly(v, leave, heads);
  }

  lemma AddLimits(v: Snapshot, mint: Mint, book: string, shelf: string, heads: string -> string)
    requires PlanAdd(v, mint, book, shelf).Ok? && WellFormed(v)
    ensures var w := Apply(v, PlanAdd(v, mint, book, shelf).value, heads);
            IsOn(w, book, shelf) && |Memberships(w, book)| <= Most(|Memberships(v, book)|)
  {
    var ops := PlanAdd(v, mint, book, shelf).value;
    if IsOn(v, book, shelf) {
      assert Apply(v, [], heads) == v;
    } else {
      ShelvePuts(v, mint, book, shelf, heads);
      JustIsOne(Apply(v, ops, heads), book, shelf);
    }
  }

  function Most(n: nat): nat { if n == 0 then 1 else n }

  lemma JustIsOne(v: Snapshot, book: string, shelf: string)
    requires JustOn(v, book, shelf)
    ensures |Memberships(v, book)| == 1 && IsOn(v, book, shelf)
  {
    var m :| Memberships(v, book) == {m} && m in v.members && v.members[m].shelf == shelf;
    assert m in Memberships(v, book);
  }

  // No move raises the number of shelves a book is on above one or what it was.
  lemma MoveLimits(v: Snapshot, mint: Mint, book: string, from: string, to: string, heads: string -> string)
    requires PlanMove(v, mint, book, from, to).Ok? && WellFormed(v)
    ensures |Memberships(Apply(v, PlanMove(v, mint, book, from, to).value, heads), book)|
            <= Most(|Memberships(v, book)|)
  {
    var ops := PlanMove(v, mint, book, from, to).value;
    if ops == [] {
      assert Apply(v, [], heads) == v;
    } else if from == "" {
      MoveFromTop(v, mint, book, to, heads);
      JustIsOne(Apply(v, ops, heads), book, to);
    } else {
      MoveBetween(v, mint, book, from, to, heads);
      FoundIs(v, book, from);
      LiveIsShown(v, book, from);
    }
  }

  // ---- restoring ----

  ghost predicate MembersKept(v: Snapshot, w: Snapshot) {
    && w.shelves == v.shelves && w.books == v.books && w.members.Keys == v.members.Keys
    && (forall m <- v.members :: w.members[m].book == v.members[m].book && w.members[m].shelf == v.members[m].shelf)
  }

  lemma EndOne(v: Snapshot, mint: Mint, book: string, op: Op, heads: string -> string)
    requires op.id in v.members && v.members[op.id].book == book && op.action == SetLive(false)
    ensures var w := Apply(v, [op], heads);
            MembersKept(v, w) && Memberships(w, book) == Memberships(v, book) - {op.id}
  {
    MemberOnly(v, op, heads);
    OneOp(v, mint, book, op, heads);
  }

  lemma {:induction false} EndedEnds(v: Snapshot, u: Snapshot, mint: Mint, book: string, ids: seq<string>,
                                     heads: string -> string)
    requires forall m <- ids :: m in v.members && m in u.members && u.members[m].book == book
    ensures var w := Apply(u, Ended(v, ids), heads);
            MembersKept(u, w) && Memberships(w, book) == Memberships(u, book) - (set m | m in ids)
    decreases |ids|
  {
    if ids == [] {
      assert Apply(u, [], heads) == u;
    } else {
      var before, last := ids[..|ids| - 1], ids[|ids| - 1];
      assert ids == before + [last];
      EndedEnds(v, u, mint, book, before, heads);
      var op := MemberUpdate(v, last, SetLive(false));
      ApplyConcat(u, Ended(v, before), [op], heads);
      EndOne(Apply(u, Ended(v, before), heads), mint, book, op, heads);
      assert (set m | m in ids) == (set m | m in before) + {last};
    }
  }

  lemma KeptKeeps(v: Snapshot, u: Snapshot, mint: Mint, book: string, first: string, to: string,
                  heads: string -> string)
    requires u.shelves == v.shelves && u.members == v.members && first in Memberships(v, book) && "" !in v.shelves
    requires to != "" ==> Shown(v, to)
    ensures var w := Apply(u, Kept(v, first, to), heads);
            && w.shelves == v.shelves && w.books == u.books && w.members.Keys == v.members.Keys
            && Memberships(w, book) == Memberships(v, book) - (if to == "" then {first} else {})
            && (forall m <- v.members :: w.members[m].book == v.members[m].book)
            && (to != "" ==> w.members[first].shelf == to)
  {
    ShownSame(v, u);
    assert Memberships(u, book) == Memberships(v, book);
    if v.members[first].shelf == to {
      assert Apply(u, [], heads) == u;
    } else {
      var op := Kept(v, first, to)[0];
      MemberOnly(u, op, heads);
      OneOp(u, mint, book, op, heads);
      if to != "" { assert EndsOn(u, op, to); }
      assert Memberships(v, book) + {first} == Memberships(v, book);
    }
  }

  lemma RegatheredGathers(v: Snapshot, u: Snapshot, mint: Mint, book: string, to: string, heads: string -> string)
    requires u.shelves == v.shelves && u.members == v.members && Memberships(v, book) != {} && "" !in v.shelves
    requires to != "" ==> Shown(v, to)
    ensures var w := Apply(u, Regathered(v, mint, book, to), heads);
            w.books == u.books && if to == "" then Memberships(w, book) == {} else JustOn(w, book, to)
  {
    var ids := SortedIds(Memberships(v, book));
    AllMemberships(v, book);
    assert Regathered(v, mint, book, to) == Kept(v, ids[0], to) + Ended(v, ids[1..]);
    var w := Gathered(v, u, mint, book, ids, to, heads);
    FirstLeft(v, w, book, ids, to);
  }

  lemma FirstLeft(v: Snapshot, w: Snapshot, book: string, ids: seq<string>, to: string)
    requires ids != [] && Memberships(v, book) - (set m | m in ids[1..]) == {ids[0]}
    requires ids[0] in w.members && (to != "" ==> w.members[ids[0]].shelf == to)
    requires Memberships(w, book) == Memberships(v, book) - (if to == "" then {ids[0]} else {}) - (set m | m in ids[1..])
    ensures if to == "" then Memberships(w, book) == {} else JustOn(w, book, to)
  {
    if to != "" { assert Memberships(w, book) == {ids[0]}; }
  }

  lemma AllMemberships(v: Snapshot, book: string)
    ensures var ids := SortedIds(Memberships(v, book));
            && (forall m <- ids :: m in Memberships(v, book) && m in v.members && v.members[m].book == book)
            && (ids != [] ==> Memberships(v, book) - (set m | m in ids[1..]) == {ids[0]})
  {
    AllButFirst(Memberships(v, book), SortedIds(Memberships(v, book)));
  }

  lemma AllButFirst(all: set<string>, ids: seq<string>)
    requires (forall m :: m in ids <==> m in all) && forall i, j :: 0 <= i < j < |ids| ==> ids[i] != ids[j]
    ensures ids != [] ==> all - (set m | m in ids[1..]) == {ids[0]}
  {
    if ids != [] {
      assert ids == [ids[0]] + ids[1..];
      assert forall m <- ids[1..] :: m != ids[0];
    }
  }

  lemma Gathered(v: Snapshot, u: Snapshot, mint: Mint, book: string, ids: seq<string>, to: string,
                 heads: string -> string) returns (w: Snapshot)
    requires u.shelves == v.shelves && u.members == v.members && "" !in v.shelves && ids != []
    requires forall m <- ids :: m in Memberships(v, book) && m in v.members && v.members[m].book == book
    requires to != "" ==> Shown(v, to)
    ensures w == Apply(u, Kept(v, ids[0], to) + Ended(v, ids[1..]), heads)
    ensures w.books == u.books && ids[0] in w.members && (to != "" ==> w.members[ids[0]].shelf == to)
    ensures Memberships(w, book)
            == Memberships(v, book) - (if to == "" then {ids[0]} else {}) - (set m | m in ids[1..])
  {
    var first, more := ids[0], ids[1..];
    KeptKeeps(v, u, mint, book, first, to, heads);
    var t := Apply(u, Kept(v, first, to), heads);
    ApplyConcat(u, Kept(v, first, to), Ended(v, more), heads);
    EndedEnds(v, t, mint, book, more, heads);
    w := Apply(t, Ended(v, more), heads);
  }

  // A restored book is live, and on exactly the shelf asked for or on none.
  lemma RestorePuts(v: Snapshot, mint: Mint, book: string, to: string, heads: string -> string)
    requires PlanRestore(v, mint, book, to).Ok? && WellFormed(v)
    ensures var w := Apply(v, PlanRestore(v, mint, book, to).value, heads);
            LiveBook(w, book) && if to == "" then Memberships(w, book) == {} else JustOn(w, book, to)
  {
    var back, rest := BookUpdate(v, book, true), Regathered(v, mint, book, to);
    ApplyConcat(v, [back], rest, heads);
    BookOnly(v, back, heads);
    RegatheredPuts(v, Apply(v, [back], heads), mint, book, to, heads);
  }

  lemma RegatheredPuts(v: Snapshot, u: Snapshot, mint: Mint, book: string, to: string, heads: string -> string)
    requires u.shelves == v.shelves && u.members == v.members && "" !in v.shelves && (to != "" ==> Shown(v, to))
    ensures var w := Apply(u, Regathered(v, mint, book, to), heads);
            w.books == u.books && if to == "" then Memberships(w, book) == {} else JustOn(w, book, to)
  {
    if Memberships(v, book) != {} {
      RegatheredGathers(v, u, mint, book, to, heads);
    } else if to == "" {
      ShownSame(v, u);
      assert Apply(u, [], heads) == u;
    } else {
      RestoreShelves(v, u, mint, book, to, heads);
    }
  }

  lemma SameMemberships(v: Snapshot, u: Snapshot, book: string)
    requires u.shelves == v.shelves && u.members == v.members
    ensures Memberships(u, book) == Memberships(v, book)
  {
    ShownSame(v, u);
  }

  lemma SameShelve(v: Snapshot, u: Snapshot, mint: Mint, book: string, shelf: string)
    requires u.members == v.members
    ensures Shelve(u, mint, book, shelf) == Shelve(v, mint, book, shelf)
  {
    assert On(v, book, shelf, true) == On(u, book, shelf, true);
    assert On(v, book, shelf, false) == On(u, book, shelf, false);
  }

  lemma RestoreShelves(v: Snapshot, u: Snapshot, mint: Mint, book: string, to: string, heads: string -> string)
    requires u.shelves == v.shelves && u.members == v.members && Memberships(v, book) == {} && Shown(v, to)
    ensures var w := Apply(u, Shelve(v, mint, book, to), heads);
            w.books == u.books && JustOn(w, book, to)
  {
    ShownSame(v, u);
    SameMemberships(v, u, book);
    SameShelve(v, u, mint, book, to);
    ShelvePuts(u, mint, book, to, heads);
    ShelveKeepsBooks(u, mint, book, to, heads);
  }

  lemma ShelveKeepsBooks(v: Snapshot, mint: Mint, book: string, shelf: string, heads: string -> string)
    requires Shown(v, shelf) && Memberships(v, book) == {}
    ensures Apply(v, Shelve(v, mint, book, shelf), heads).books == v.books
  {
    ShelveIsOne(v, mint, book, shelf);
    ApplyOne(v, Shelve(v, mint, book, shelf)[0], heads);
  }

  lemma ShelveIsOne(v: Snapshot, mint: Mint, book: string, shelf: string)
    requires Shown(v, shelf) && Memberships(v, book) == {}
    ensures var ops := Shelve(v, mint, book, shelf);
            |ops| == 1 && ops == [ops[0]] && (ops[0].action.SetMember? || ops[0].action.NewMember?)
  {
    LiveIsShown(v, book, shelf);
  }
}
