// What a queued change does to the snapshot the next one is planned on: the record
// shows it, and the next change of the record rests on it.
module QueuedChanges {
  import opened Outcomes
  import opened Ordering
  import opened Library
  import opened LibraryFrames
  import opened PlanFences
  import ShelfDelete

  // ---- one change ----

  lemma ShelfMade(v: Snapshot, op: Op, head: string)
    requires op.action.NewShelf?
    ensures var w, f := Change(v, op, head), op.action.shelf;
            w == v.(shelves := w.shelves) && w.shelves.Keys == v.shelves.Keys + {op.id}
            && w.shelves[op.id] == Shelf(f.parent, f.name, "", head, f.live, f.native)
  {}

  lemma MemberMade(v: Snapshot, op: Op, head: string)
    requires op.action.NewMember?
    ensures var w, m := Change(v, op, head), op.action.member;
            w == v.(members := w.members) && w.members.Keys == v.members.Keys + {op.id}
            && w.members[op.id] == Member(m.book, m.shelf, "", head, m.live)
  {}

  // Only the fields given are changed; the revision stays, and the operation that
  // was queued becomes the record's head.
  lemma ShelfChanged(v: Snapshot, op: Op, head: string)
    requires op.action.SetShelf? && op.id in v.shelves
    ensures var w, was, a := Change(v, op, head), v.shelves[op.id], op.action;
            && w == v.(shelves := w.shelves) && w.shelves.Keys == v.shelves.Keys
            && w.shelves[op.id].name == (if a.name.Some? then a.name.value else was.name)
            && w.shelves[op.id].parent == (if a.parent.Some? then a.parent.value else was.parent)
            && w.shelves[op.id].live == (if a.shelfLive.Some? then a.shelfLive.value else was.live)
            && w.shelves[op.id].native == was.native && w.shelves[op.id].revision == was.revision
            && w.shelves[op.id].head == head
  {}

  lemma BookChanged(v: Snapshot, op: Op, head: string)
    requires op.action.SetBook? && op.id in v.books
    ensures var w, was, a := Change(v, op, head), v.books[op.id], op.action;
            && w == v.(books := w.books) && w.books.Keys == v.books.Keys
            && w.books[op.id].name == (if a.bookName.Some? then a.bookName.value else was.name)
            && w.books[op.id].live == (if a.bookLive.Some? then a.bookLive.value else was.live)
            && w.books[op.id].title == was.title && w.books[op.id].kind == was.kind
            && w.books[op.id].revision == was.revision && w.books[op.id].head == head
  {}

  lemma MemberChanged(v: Snapshot, op: Op, head: string)
    requires op.action.SetMember? && op.id in v.members
    ensures var w, was, a := Change(v, op, head), v.members[op.id], op.action;
            && w == v.(members := w.members) && w.members.Keys == v.members.Keys
            && w.members[op.id].shelf == (if a.onShelf.Some? then a.onShelf.value else was.shelf)
            && w.members[op.id].live == (if a.memberLive.Some? then a.memberLive.value else was.live)
            && w.members[op.id].book == was.book && w.members[op.id].revision == was.revision
            && w.members[op.id].head == head
  {}

  // A change of a record that is not there changes nothing.
  lemma MissingKept(v: Snapshot, op: Op, head: string)
    requires op.action.SetShelf? ==> op.id !in v.shelves
    requires op.action.SetBook? ==> op.id !in v.books
    requires op.action.SetMember? ==> op.id !in v.members
    requires Existing(op)
    ensures Change(v, op, head) == v
  {}

  // ---- a plan and the next one ----

  // The record an op is about has `head` as its pending operation.
  predicate HasHead(v: Snapshot, op: Op, head: string) {
    match op.action
    case NewShelf(_) => op.id in v.shelves && v.shelves[op.id].head == head
    case SetShelf(_, _, _) => op.id in v.shelves && v.shelves[op.id].head == head
    case NewMember(_) => op.id in v.members && v.members[op.id].head == head
    case SetMember(_, _) => op.id in v.members && v.members[op.id].head == head
    case SetBook(_, _) => op.id in v.books && v.books[op.id].head == head
  }

  lemma ChangeHasHead(v: Snapshot, op: Op, head: string)
    requires Fenced(v, op)
    ensures HasHead(Change(v, op, head), op, head)
  {
    match op.action
    case NewShelf(_) => ShelfMade(v, op, head);
    case NewMember(_) => MemberMade(v, op, head);
    case SetShelf(_, _, _) => ShelfChanged(v, op, head);
    case SetBook(_, _) => BookChanged(v, op, head);
    case SetMember(_, _) => MemberChanged(v, op, head);
  }

  lemma HeadAgrees(v: Snapshot, w: Snapshot, op: Op, head: string)
    requires Agree(v, w, op.id) && HasHead(w, op, head)
    ensures HasHead(v, op, head)
  {}

  // After a plan is queued each of its records has the operation queued for it as
  // its head.
  lemma QueuedIsHead(v: Snapshot, ops: seq<Op>, heads: string -> string, op: Op)
    requires OncePerRecord(ops) && AllFenced(v, ops) && op in ops
    ensures HasHead(Apply(v, ops, heads), op, heads(op.id))
  {
    assert Fenced(v, op);
    ApplyIn(v, ops, heads, op);
    ChangeHasHead(v, op, heads(op.id));
    HeadAgrees(Apply(v, ops, heads), Change(v, op, heads(op.id)), op, heads(op.id));
  }

  // So the next change planned for a record rests on the one queued before it.
  lemma NextRestsOnQueued(v: Snapshot, ops: seq<Op>, heads: string -> string, op: Op, next: Op)
    requires OncePerRecord(ops) && AllFenced(v, ops) && op in ops && heads(op.id) != ""
    requires Fenced(Apply(v, ops, heads), next) && next.id == op.id
    requires || ((op.action.NewShelf? || op.action.SetShelf?) && next.action.SetShelf?)
             || ((op.action.NewMember? || op.action.SetMember?) && next.action.SetMember?)
             || (op.action.SetBook? && next.action.SetBook?)
    ensures next.after == heads(op.id) && next.expected == ""
  {
    QueuedIsHead(v, ops, heads, op);
  }

  // ---- a deletion ----

  lemma {:induction false} MemberIds(v: Snapshot, parent: string, ids: seq<string>)
    requires forall m <- ids :: m in v.members
    ensures var ops := ShelfDelete.MemberOps(v, parent, ids);
            |ops| == |ids| && forall i :: 0 <= i < |ids| ==> ops[i].id == ids[i]
    decreases |ids|
  {
    if ids != [] { MemberIds(v, parent, ids[1..]); }
  }

  lemma {:induction false} ChildIds(v: Snapshot, parent: string, taken: set<string>, ids: seq<string>)
    requires forall c <- ids :: c in v.shelves
    ensures var ops := ShelfDelete.ChildOps(v, parent, taken, ids);
            |ops| == |ids| && forall i :: 0 <= i < |ids| ==> ops[i].id == ids[i]
    decreases |ids|
  {
    if ids != [] { ChildIds(v, parent, ShelfDelete.TakenAfter(v, parent, taken, ids[0]), ids[1..]); }
  }

  ghost predicate Writes(ops: seq<Op>, ids: seq<string>) {
    |ops| == |ids| && forall i :: 0 <= i < |ids| ==> ops[i].id == ids[i]
  }

  ghost predicate InThreeParts(ops: seq<Op>, first: seq<string>, second: seq<string>, last: string) {
    && |ops| == |first| + |second| + 1
    && Writes(ops[..|first|], first) && Writes(ops[|first|..|first| + |second|], second)
    && ops[|ops| - 1].id == last && ops[|ops| - 1].action == SetShelf(None, None, Some(false))
  }

  lemma PartsInOrder(a: seq<Op>, b: seq<Op>, c: Op, first: seq<string>, second: seq<string>)
    requires Writes(a, first) && Writes(b, second) && c.action == SetShelf(None, None, Some(false))
    ensures InThreeParts(a + b + [c], first, second, c.id)
  {
    var ops := a + b + [c];
    assert ops[..|first|] == a && ops[|first|..|first| + |second|] == b;
  }

  lemma MembersUpWrite(v: Snapshot, shelf: string)
    requires shelf in v.shelves
    ensures Writes(ShelfDelete.MembersUp(v, shelf), SortedIds(ShelfDelete.MembersOn(v, shelf)))
  {
    var members := SortedIds(ShelfDelete.MembersOn(v, shelf));
    assert forall m <- members :: m in ShelfDelete.MembersOn(v, shelf);
    MemberIds(v, v.shelves[shelf].parent, members);
  }

  lemma ChildrenUpWrite(v: Snapshot, shelf: string)
    requires shelf in v.shelves
    ensures Writes(ShelfDelete.ChildrenUp(v, shelf), SortedIds(ShelfDelete.ChildrenOf(v, shelf)))
  {
    var children, parent := SortedIds(ShelfDelete.ChildrenOf(v, shelf)), v.shelves[shelf].parent;
    assert forall c <- children :: c in ShelfDelete.ChildrenOf(v, shelf);
    ChildIds(v, parent, ShelfDelete.SiblingNames(v, shelf, parent), children);
  }

  // A shelf's deletion writes its memberships, then its children, each in the
  // order of their ids, and the shelf last, which ends.
  lemma DeletionOrder(v: Snapshot, shelf: string)
    requires shelf in v.shelves
    ensures InThreeParts(ShelfDelete.Deletion(v, shelf), SortedIds(ShelfDelete.MembersOn(v, shelf)),
                         SortedIds(ShelfDelete.ChildrenOf(v, shelf)), shelf)
  {
    MembersUpWrite(v, shelf);
    ChildrenUpWrite(v, shelf);
    PartsInOrder(ShelfDelete.MembersUp(v, shelf), ShelfDelete.ChildrenUp(v, shelf), ShelfDelete.ShelfGone(v, shelf),
                 SortedIds(ShelfDelete.MembersOn(v, shelf)), SortedIds(ShelfDelete.ChildrenOf(v, shelf)));
  }
}
