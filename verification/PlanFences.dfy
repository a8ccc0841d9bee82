// What every planned write rests on: the operation pending on its record, if
// there is one, or else the record's revision. A record that is made rests on
// nothing.
module PlanFences {
  import opened Outcomes
  import opened Ordering
  import opened Library
  import opened BookPlans
  import ShelfPlans
  import ShelfDelete
  import BookBatch

  predicate RestsOn(op: Op, revision: string, head: string) {
    if head != "" then op.after == head && op.expected == "" else op.after == "" && op.expected == revision
  }

  predicate Fenced(v: Snapshot, op: Op) {
    match op.action
    case NewShelf(_) => op.expected == "" && op.after == ""
    case NewMember(_) => op.expected == "" && op.after == ""
    case SetShelf(_, _, _) => op.id in v.shelves && RestsOn(op, v.shelves[op.id].revision, v.shelves[op.id].head)
    case SetBook(_, _) => op.id in v.books && RestsOn(op, v.books[op.id].revision, v.books[op.id].head)
    case SetMember(_, _) => op.id in v.members && RestsOn(op, v.members[op.id].revision, v.members[op.id].head)
  }

  predicate AllFenced(v: Snapshot, ops: seq<Op>) { forall op <- ops :: Fenced(v, op) }

  predicate PlanFenced(v: Snapshot, r: Plan) { r.Ok? ==> AllFenced(v, r.value) }

  lemma MemberFenced(v: Snapshot, m: string, action: Action)
    requires m in v.members && action.SetMember?
    ensures Fenced(v, MemberUpdate(v, m, action))
  {}

  // ---- shelves ----

  lemma ShelfPlansFenced(v: Snapshot, id: string, parent: string, name: string)
    ensures PlanFenced(v, ShelfPlans.PlanCreate(v, id, parent, name))
    ensures PlanFenced(v, ShelfPlans.PlanRename(v, id, name))
    ensures PlanFenced(v, ShelfPlans.PlanMove(v, id, parent, name))
  {}

  lemma {:induction false} MemberOpsFenced(v: Snapshot, parent: string, ids: seq<string>)
    requires forall m <- ids :: m in v.members
    ensures AllFenced(v, ShelfDelete.MemberOps(v, parent, ids))
    decreases |ids|
  {
    if ids != [] { MemberOpsFenced(v, parent, ids[1..]); }
  }

  lemma {:induction false} ChildOpsFenced(v: Snapshot, parent: string, taken: set<string>, ids: seq<string>)
    requires forall c <- ids :: c in v.shelves
    ensures AllFenced(v, ShelfDelete.ChildOps(v, parent, taken, ids))
    decreases |ids|
  {
    if ids != [] { ChildOpsFenced(v, parent, ShelfDelete.TakenAfter(v, parent, taken, ids[0]), ids[1..]); }
  }

  lemma DeletionFenced(v: Snapshot, shelf: string)
    ensures PlanFenced(v, ShelfDelete.PlanDelete(v, shelf))
  {
    if ShelfDelete.Deletable(v, shelf) {
      var parent := v.shelves[shelf].parent;
      MemberOpsFenced(v, parent, SortedIds(ShelfDelete.MembersOn(v, shelf)));
      ChildOpsFenced(v, parent, ShelfDelete.SiblingNames(v, shelf, parent), SortedIds(ShelfDelete.ChildrenOf(v, shelf)));
      assert Fenced(v, ShelfDelete.ShelfGone(v, shelf));
    }
  }

  // ---- books ----

  lemma ShelveFenced(v: Snapshot, mint: Mint, book: string, shelf: string)
    ensures AllFenced(v, Shelve(v, mint, book, shelf))
  {
    FoundDecides(v, book, shelf);
    if Found(v, book, shelf).Some? { MemberFenced(v, Found(v, book, shelf).value, SetLive(true)); }
  }

  lemma AddFenced(v: Snapshot, mint: Mint, book: string, shelf: string)
    ensures PlanFenced(v, PlanAdd(v, mint, book, shelf))
  {
    ShelveFenced(v, mint, book, shelf);
  }

  lemma MoveFenced(v: Snapshot, mint: Mint, book: string, from: string, to: string)
    ensures PlanFenced(v, PlanMove(v, mint, book, from, to))
  {
    ShelveFenced(v, mint, book, to);
    MoveOffFenced(v, book, from, to);
  }

  lemma MoveOffFenced(v: Snapshot, book: string, from: string, to: string)
    ensures PlanFenced(v, MoveOff(v, book, from, to))
  {
    FoundDecides(v, book, from);
    if FoundLive(v, book, from) {
      var m := Found(v, book, from).value;
      MemberFenced(v, m, SetMember(Some(""), Some(false)));
      MemberFenced(v, m, SetLive(false));
      MemberFenced(v, m, SetMember(Some(to), None));
    }
  }

  lemma BookFenced(v: Snapshot, book: string, live: bool)
    requires book in v.books
    ensures Fenced(v, BookUpdate(v, book, live))
  {}

  lemma OneOrTwo(v: Snapshot, a: Op, b: Op)
    ensures Fenced(v, a) ==> AllFenced(v, [a])
    ensures Fenced(v, a) && Fenced(v, b) ==> AllFenced(v, [a, b])
  {}

  lemma RemoveFenced(v: Snapshot, book: string, from: string)
    ensures PlanFenced(v, PlanRemove(v, book, from))
  {
    FoundDecides(v, book, from);
    if book in v.books {
      var trash := BookUpdate(v, book, false);
      BookFenced(v, book, false);
      OneOrTwo(v, trash, trash);
      if FoundLive(v, book, from) {
        var leave := MemberUpdate(v, Found(v, book, from).value, SetLive(false));
        MemberFenced(v, Found(v, book, from).value, SetLive(false));
        OneOrTwo(v, leave, leave);
        OneOrTwo(v, trash, leave);
      }
    }
  }

  lemma {:induction false} EndedFenced(v: Snapshot, ids: seq<string>)
    requires forall m <- ids :: m in v.members
    ensures AllFenced(v, Ended(v, ids))
    decreases |ids|
  {
    if ids != [] {
      EndedFenced(v, ids[..|ids| - 1]);
      MemberFenced(v, ids[|ids| - 1], SetLive(false));
    }
  }

  lemma KeptFenced(v: Snapshot, first: string, to: string)
    requires first in v.members
    ensures AllFenced(v, Kept(v, first, to))
  {
    MemberFenced(v, first, if to != "" then SetMember(Some(to), None) else SetLive(false));
  }

  lemma RegatheredFenced(v: Snapshot, mint: Mint, book: string, to: string)
    ensures AllFenced(v, Regathered(v, mint, book, to))
  {
    var ids := SortedIds(Memberships(v, book));
    ShelveFenced(v, mint, book, to);
    if ids != [] {
      assert ids[0] in ids;
      EndedFenced(v, ids[1..]);
      KeptFenced(v, ids[0], to);
    }
  }

  lemma RestoreFenced(v: Snapshot, mint: Mint, book: string, to: string)
    ensures PlanFenced(v, PlanRestore(v, mint, book, to))
  {
    if book in v.books { BookFenced(v, book, true); }
    RegatheredFenced(v, mint, book, to);
  }

  // ---- several books at once ----

  lemma {:induction false} BatchFenced(v: Snapshot, mint: Mint, task: BookBatch.Task, books: seq<string>, folder: string)
    ensures PlanFenced(v, BookBatch.PlanBatch(v, mint, task, books, folder))
    decreases |books|
  {
    if books != [] {
      OneFenced(v, mint, task, books[0], folder);
      BatchFenced(v, mint, task, books[1..], folder);
    }
  }

  lemma OneFenced(v: Snapshot, mint: Mint, task: BookBatch.Task, book: string, folder: string)
    ensures PlanFenced(v, BookBatch.PlanOne(v, mint, task, book, folder))
  {
    match task
    case Move => MoveFenced(v, mint, book, BookBatch.ShelfOf(v, book), folder);
    case Trash => RemoveFenced(v, book, BookBatch.ShelfOf(v, book));
    case Restore => RestoreFenced(v, mint, book, folder);
  }
}
