// What the plans for one book write, op by op.
module PlanActions {
  import opened Outcomes
  import opened Ordering
  import opened Library
  import opened BookPlans
  import opened PlanAcceptance

  // ---- one op ----

  predicate Trashes(op: Op, book: string) { op.id == book && op.action == SetBook(None, Some(false)) }

  predicate Recovers(op: Op, book: string) { op.id == book && op.action == SetBook(None, Some(true)) }

  predicate Ends(op: Op, m: string) { op.id == m && op.action == SetMember(None, Some(false)) }

  predicate Revives(op: Op, m: string) { op.id == m && op.action == SetMember(None, Some(true)) }

  predicate Shifts(op: Op, m: string, shelf: string) { op.id == m && op.action == SetMember(Some(shelf), None) }

  // The first membership of the book on the shelf that is live, or is not.
  ghost predicate First(v: Snapshot, book: string, shelf: string, live: bool, m: string) {
    && m in v.members && v.members[m].live == live && v.members[m].book == book && v.members[m].shelf == shelf
    && forall n <- v.members ::
         v.members[n].live == live && v.members[n].book == book && v.members[n].shelf == shelf ==> Compare(m, n) <= 0
  }

  lemma FoundIsFirst(v: Snapshot, book: string, shelf: string)
    ensures var live := LiveOn(v, book, shelf);
            Found(v, book, shelf).Some? ==> First(v, book, shelf, live, Found(v, book, shelf).value)
    ensures FoundLive(v, book, shelf) <==> LiveOn(v, book, shelf)
    ensures LiveOn(v, book, shelf) ==> Found(v, book, shelf).Some?
  {
    LiveIsFound(v, book, shelf);
    FoundIs(v, book, shelf);
    var live := FoundLive(v, book, shelf);
    var s := On(v, book, shelf, live);
    if Found(v, book, shelf).Some? {
      LeastOf(s);
      forall n <- v.members | v.members[n].live == live && v.members[n].book == book && v.members[n].shelf == shelf
        ensures n in s {}
    }
  }

  lemma LeastOf(s: set<string>)
    ensures SortedIds(s) != [] ==> forall n <- s :: Compare(SortedIds(s)[0], n) <= 0
  {
    StringsAreOrdered();
    if SortedIds(s) != [] { HeadIsLeast(Compare, s, SortedIds(s)); }
  }

  // ---- shelving ----

  ghost predicate Shelves(v: Snapshot, mint: Mint, book: string, shelf: string, ops: seq<Op>) {
    if LiveOn(v, book, shelf) then ops == []
    else
      && |ops| == 1
      && (if exists m :: m in v.members && v.members[m].book == book && v.members[m].shelf == shelf then
            First(v, book, shelf, false, ops[0].id) && Revives(ops[0], ops[0].id)
          else
            && ops[0].id == mint(book, shelf) && ops[0].action.NewMember?
            && ops[0].action.member.book == book && ops[0].action.member.shelf == shelf && ops[0].action.member.live)
  }

  // A book is put on a shelf by nothing, if it is on it, by reviving its first
  // former membership, or by a new one.
  lemma ShelveActions(v: Snapshot, mint: Mint, book: string, shelf: string)
    ensures Shelves(v, mint, book, shelf, Shelve(v, mint, book, shelf))
  {
    FoundIsFirst(v, book, shelf);
    FoundIs(v, book, shelf);
    if m :| m in v.members && v.members[m].book == book && v.members[m].shelf == shelf {
      assert m in On(v, book, shelf, v.members[m].live);
    }
  }

  // ---- moving ----

  lemma MoveActions(v: Snapshot, mint: Mint, book: string, from: string, to: string)
    requires PlanMove(v, mint, book, from, to).Ok?
    ensures var ops := PlanMove(v, mint, book, from, to).value;
            && (from == to ==> ops == [])
            && (from == "" && to != "" ==> Shelves(v, mint, book, to, ops))
            && (from != "" && from != to ==>
                  |ops| == 1 && First(v, book, from, true, ops[0].id)
                  && (if to == "" then ops[0].action == SetMember(Some(""), Some(false))
                      else if LiveOn(v, book, to) then Ends(ops[0], ops[0].id)
                      else Shifts(ops[0], ops[0].id, to)))
  {
    ShelveActions(v, mint, book, to);
    FoundIsFirst(v, book, from);
    FoundIsFirst(v, book, to);
  }

  // ---- trashing ----

  // A book on no shelf is trashed; from a shelf its membership there ends, and it
  // is trashed before that if it is on no other.
  lemma RemoveActions(v: Snapshot, book: string, from: string)
    requires PlanRemove(v, book, from).Ok?
    ensures var ops := PlanRemove(v, book, from).value;
            && (from == "" ==> |ops| == 1 && Trashes(ops[0], book))
            && (from != "" && OnOneAtMost(v, book) ==>
                  |ops| == 2 && Trashes(ops[0], book)
                  && First(v, book, from, true, ops[1].id) && Ends(ops[1], ops[1].id))
            && (from != "" && !OnOneAtMost(v, book) ==>
                  |ops| == 1 && First(v, book, from, true, ops[0].id) && Ends(ops[0], ops[0].id))
  {
    MembershipsAre(v, book);
    FoundIsFirst(v, book, from);
  }

  // ---- restoring ----

  lemma {:induction false} EndedActions(v: Snapshot, ids: seq<string>)
    requires forall m <- ids :: m in v.members
    ensures var ops := Ended(v, ids); |ops| == |ids| && forall i :: 0 <= i < |ids| ==> Ends(ops[i], ids[i])
    decreases |ids|
  {
    if ids != [] { EndedActions(v, ids[..|ids| - 1]); }
  }

  // The book's visible memberships in the order of their ids.
  ghost predicate InOrder(v: Snapshot, book: string, ids: seq<string>) {
    && (forall m :: m in ids <==> Puts(v, m, book))
    && forall i, j :: 0 <= i < j < |ids| ==> Compare(ids[i], ids[j]) < 0
  }

  // The first is kept, on the shelf asked for; without one it ends. The others end.
  ghost predicate Regathers(v: Snapshot, mint: Mint, book: string, to: string, ids: seq<string>, ops: seq<Op>) {
    if ids == [] then if to == "" then ops == [] else Shelves(v, mint, book, to, ops)
    else
      && ids[0] in v.members
      && var first := v.members[ids[0]].shelf != to;
         && |ops| == (if first then |ids| else |ids| - 1)
         && (first ==> if to == "" then Ends(ops[0], ids[0]) else Shifts(ops[0], ids[0], to))
         && forall i :: 1 <= i < |ids| ==> Ends(ops[if first then i else i - 1], ids[i])
  }

  lemma IdsInOrder(v: Snapshot, book: string)
    ensures InOrder(v, book, SortedIds(Memberships(v, book)))
  {
    MembershipsAre(v, book);
    StringsAreOrdered();
  }

  // The first membership is kept, and `ended` ends the others.
  lemma KeptThenEnded(v: Snapshot, mint: Mint, book: string, to: string, ids: seq<string>, ended: seq<Op>)
    requires ids != [] && ids[0] in v.members && |ended| == |ids| - 1
    requires forall i :: 0 <= i < |ended| ==> Ends(ended[i], ids[i + 1])
    ensures Regathers(v, mint, book, to, ids, Kept(v, ids[0], to) + ended)
  {
    var ops := Kept(v, ids[0], to) + ended;
    if v.members[ids[0]].shelf != to {
      forall i | 1 <= i < |ids| ensures Ends(ops[i], ids[i]) { EndsAfter(ids, ended, i); }
    } else {
      assert ops == ended;
      forall i | 1 <= i < |ids| ensures Ends(ops[i - 1], ids[i]) { EndsAfter(ids, ended, i); }
    }
  }

  lemma EndsAfter(ids: seq<string>, ended: seq<Op>, i: nat)
    requires 1 <= i < |ids| && |ended| == |ids| - 1 && forall j :: 0 <= j < |ended| ==> Ends(ended[j], ids[j + 1])
    ensures Ends(ended[i - 1], ids[i])
  {}

  lemma RegatheredActions(v: Snapshot, mint: Mint, book: string, to: string)
    ensures Regathers(v, mint, book, to, SortedIds(Memberships(v, book)), Regathered(v, mint, book, to))
  {
    var ids := SortedIds(Memberships(v, book));
    if ids == [] {
      ShelveActions(v, mint, book, to);
    } else {
      assert forall m <- ids :: m in v.members;
      GatheredActions(v, mint, book, to, ids);
    }
  }

  lemma GatheredActions(v: Snapshot, mint: Mint, book: string, to: string, ids: seq<string>)
    requires ids != [] && forall m <- ids :: m in v.members
    ensures ids[0] in v.members && (forall m <- ids[1..] :: m in v.members)
    ensures Regathers(v, mint, book, to, ids, Kept(v, ids[0], to) + Ended(v, ids[1..]))
  {
    assert ids[0] in ids && forall m <- ids[1..] :: m in ids;
    EndedActions(v, ids[1..]);
    KeptThenEnded(v, mint, book, to, ids, Ended(v, ids[1..]));
  }

  // A restored book is live again, and on the shelf asked for alone.
  lemma RestoreActions(v: Snapshot, mint: Mint, book: string, to: string) returns (ids: seq<string>)
    requires PlanRestore(v, mint, book, to).Ok?
    ensures var ops := PlanRestore(v, mint, book, to).value;
            && ops != [] && Recovers(ops[0], book)
            && InOrder(v, book, ids) && Regathers(v, mint, book, to, ids, ops[1..])
  {
    ids := SortedIds(Memberships(v, book));
    IdsInOrder(v, book);
    RegatheredActions(v, mint, book, to);
    var ops := PlanRestore(v, mint, book, to).value;
    assert ops[1..] == Regathered(v, mint, book, to);
  }
}
