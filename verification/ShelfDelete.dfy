// Deleting a shelf without its contents: memberships and non-empty child
// shelves move up one level, empty child shelves go with it.
module ShelfDelete {
  import opened Outcomes
  import opened Ordering
  import opened Library
  import opened LibraryFrames
  import opened ShelfPlans
  import Names

  function MembersOn(v: Snapshot, shelf: string): set<string> {
    set m | m in v.members && v.members[m].live && v.members[m].shelf == shelf
  }

  function ChildrenOf(v: Snapshot, shelf: string): set<string> {
    set c | c in v.shelves && v.shelves[c].live && v.shelves[c].parent == shelf
  }

  predicate Empty(v: Snapshot, shelf: string) { MembersOn(v, shelf) == {} && ChildrenOf(v, shelf) == {} }

  // Some live membership already has the book on this shelf.
  predicate OnShelf(v: Snapshot, book: string, shelf: string) {
    exists m :: m in MembersOn(v, shelf) && v.members[m].book == book
  }

  function MemberOp(v: Snapshot, parent: string, m: string): Op
    requires m in v.members
  {
    var r := v.members[m];
    Update(m, r.revision, r.head,
      if parent != "" && !OnShelf(v, r.book, parent) then SetMember(Some(parent), None)
      else SetMember(None, Some(false)))
  }

  function MemberOps(v: Snapshot, parent: string, ids: seq<string>): seq<Op>
    requires forall m <- ids :: m in v.members
    decreases |ids|
  {
    if ids == [] then [] else [MemberOp(v, parent, ids[0])] + MemberOps(v, parent, ids[1..])
  }

  function Blocked(parent: string, taken: set<string>): set<string> {
    if parent == "" then taken + {Names.TRASH} else taken
  }

  ghost function ChildName(v: Snapshot, parent: string, taken: set<string>, c: string): string
    requires c in v.shelves
  { Names.Free(Blocked(parent, taken), v.shelves[c].name) }

  ghost function ChildOp(v: Snapshot, parent: string, taken: set<string>, c: string): Op
    requires c in v.shelves
  {
    var f := v.shelves[c];
    var name := ChildName(v, parent, taken, c);
    Update(c, f.revision, f.head,
      if Empty(v, c) then SetShelf(None, None, Some(false))
      else SetShelf(if name != f.name then Some(name) else None, Some(parent), None))
  }

  ghost function TakenAfter(v: Snapshot, parent: string, taken: set<string>, c: string): set<string>
    requires c in v.shelves
  { if Empty(v, c) then taken else taken + {ChildName(v, parent, taken, c)} }

  ghost function ChildOps(v: Snapshot, parent: string, taken: set<string>, ids: seq<string>): seq<Op>
    requires forall c <- ids :: c in v.shelves
    decreases |ids|
  {
    if ids == [] then []
    else [ChildOp(v, parent, taken, ids[0])]
         + ChildOps(v, parent, TakenAfter(v, parent, taken, ids[0]), ids[1..])
  }

  // Names of the live shelves beside the deleted one.
  function SiblingNames(v: Snapshot, shelf: string, parent: string): set<string> {
    set c | c in v.shelves && v.shelves[c].live && v.shelves[c].parent == parent && c != shelf :: v.shelves[c].name
  }

  ghost function MembersUp(v: Snapshot, shelf: string): seq<Op>
    requires shelf in v.shelves
  { MemberOps(v, v.shelves[shelf].parent, SortedIds(MembersOn(v, shelf))) }

  ghost function ChildrenUp(v: Snapshot, shelf: string): seq<Op>
    requires shelf in v.shelves
  {
    var parent := v.shelves[shelf].parent;
    ChildOps(v, parent, SiblingNames(v, shelf, parent), SortedIds(ChildrenOf(v, shelf)))
  }

  function ShelfGone(v: Snapshot, shelf: string): Op
    requires shelf in v.shelves
  {
    var f := v.shelves[shelf];
    Update(shelf, f.revision, f.head, SetShelf(None, None, Some(false)))
  }

  // The lookup finds the shelf, which is all a deletion asks for.
  predicate Deletable(v: Snapshot, shelf: string) { shelf in v.shelves && Visible(v, shelf) }

  ghost function Deletion(v: Snapshot, shelf: string): seq<Op>
    requires shelf in v.shelves
  { MembersUp(v, shelf) + ChildrenUp(v, shelf) + [ShelfGone(v, shelf)] }

  ghost function PlanDelete(v: Snapshot, shelf: string): Plan {
    if Deletable(v, shelf) then Ok(Deletion(v, shelf)) else Err(Changed)
  }

  // The planner as it runs: two loops over sorted ids, and the renaming loop.
  method DeletePlan(v: Snapshot, shelf: string) returns (r: Plan)
    ensures r == PlanDelete(v, shelf)
  {
    var found := FindShelf(v, shelf);
    if found.None? { return Err(Changed); }
    var f := found.value;
    var members := SortIds(MembersOn(v, shelf));
    var moved := MoveMembers(v, f.parent, members);
    var children := SortIds(ChildrenOf(v, shelf));
    var risen := MoveChildren(v, f.parent, shelf, children);
    return Ok(moved + risen + [Update(shelf, f.revision, f.head, SetShelf(None, None, Some(false)))]);
  }

  method MoveMembers(v: Snapshot, parent: string, members: seq<string>) returns (ops: seq<Op>)
    requires forall m <- members :: m in v.members
    ensures ops == MemberOps(v, parent, members)
  {
    ops := [];
    var i := 0;
    while i < |members|
      invariant i <= |members|
      invariant MemberOps(v, parent, members) == ops + MemberOps(v, parent, members[i..])
    {
      var op := MemberOp(v, parent, members[i]);
      assert MemberOps(v, parent, members[i..]) == [op] + MemberOps(v, parent, members[i + 1..]) by {
        assert members[i..][1..] == members[i + 1..];
      }
      ops, i := ops + [op], i + 1;
    }
  }

  method MoveChildren(v: Snapshot, parent: string, shelf: string, children: seq<string>) returns (ops: seq<Op>)
    requires forall c <- children :: c in v.shelves
    ensures ops == ChildOps(v, parent, SiblingNames(v, shelf, parent), children)
  {
    var taken := SiblingNames(v, shelf, parent);
    ghost var whole := ChildOps(v, parent, taken, children);
    ops := [];
    assert children[0..] == children;
    for i := 0 to |children|
      invariant whole == ops + ChildOps(v, parent, taken, children[i..])
    {
      var op, more := RaiseChild(v, parent, taken, children[i]);
      assert ChildOps(v, parent, taken, children[i..]) == [op] + ChildOps(v, parent, more, children[i + 1..]) by {
        assert children[i..][1..] == children[i + 1..];
      }
      ops, taken := ops + [op], more;
    }
  }

  method RaiseChild(v: Snapshot, parent: string, taken: set<string>, c: string) returns (op: Op, more: set<string>)
    requires c in v.shelves
    ensures op == ChildOp(v, parent, taken, c) && more == TakenAfter(v, parent, taken, c)
  {
    var child := v.shelves[c];
    if Empty(v, c) {
      return Update(c, child.revision, child.head, SetShelf(None, None, Some(false))), taken;
    }
    var name, k := Names.FreeName(Blocked(parent, taken), child.name);
    Names.FreeIsFirst(Blocked(parent, taken), child.name, k);
    op := Update(c, child.revision, child.head,
                 SetShelf(if name != child.name then Some(name) else None, Some(parent), None));
    more := taken + {name};
  }

  // ---- what the plan achieves ----

  // The name a shelf op leaves its shelf with.
  function FinalName(v: Snapshot, op: Op): string
    requires op.id in v.shelves && op.action.SetShelf?
  { Or(op.action.name, v.shelves[op.id].name) }

  ghost predicate ChildOpFits(v: Snapshot, parent: string, taken: set<string>, c: string, op: Op)
    requires c in v.shelves
  {
    && op.id == c && op.action.SetShelf?
    && (if Empty(v, c) then op.action == SetShelf(None, None, Some(false))
        else op.action.parent == Some(parent) && op.action.shelfLive.None? && FinalName(v, op) !in taken)
  }

  ghost predicate ChildOpsFitAll(v: Snapshot, parent: string, taken: set<string>, ids: seq<string>, ops: seq<Op>) {
    && |ops| == |ids| && (forall c <- ids :: c in v.shelves)
    && (forall i :: 0 <= i < |ids| ==> ChildOpFits(v, parent, taken, ids[i], ops[i]))
    && (forall i, j :: 0 <= i < j < |ids| && !Empty(v, ids[i]) && !Empty(v, ids[j]) ==>
          FinalName(v, ops[i]) != FinalName(v, ops[j]))
  }

  lemma {:induction false} ChildOpsFit(v: Snapshot, parent: string, taken: set<string>, ids: seq<string>)
    requires forall c <- ids :: c in v.shelves
    ensures ChildOpsFitAll(v, parent, taken, ids, ChildOps(v, parent, taken, ids))
    decreases |ids|
  {
    if ids != [] {
      var c, more := ids[0], TakenAfter(v, parent, taken, ids[0]);
      ChildOpsFit(v, parent, more, ids[1..]);
      FirstChildFits(v, parent, taken, c, ids[1..], ChildOps(v, parent, more, ids[1..]));
      assert ids == [c] + ids[1..];
    }
  }

  lemma FirstChildFits(v: Snapshot, parent: string, taken: set<string>, c: string, rest: seq<string>, more: seq<Op>)
    requires c in v.shelves && ChildOpsFitAll(v, parent, TakenAfter(v, parent, taken, c), rest, more)
    ensures ChildOpsFitAll(v, parent, taken, [c] + rest, [ChildOp(v, parent, taken, c)] + more)
  {
    var ids, op, used := [c] + rest, ChildOp(v, parent, taken, c), TakenAfter(v, parent, taken, c);
    var ops := [op] + more;
    assert ChildOpFits(v, parent, taken, c, op) && (!Empty(v, c) ==> FinalName(v, op) in used);
    forall i | 0 <= i < |ids| ensures ChildOpFits(v, parent, taken, ids[i], ops[i]) {
      if i > 0 { assert ChildOpFits(v, parent, used, rest[i - 1], more[i - 1]); }
    }
    forall i, j | 0 <= i < j < |ids| && !Empty(v, ids[i]) && !Empty(v, ids[j])
      ensures FinalName(v, ops[i]) != FinalName(v, ops[j])
    {
      assert ChildOpFits(v, parent, used, rest[j - 1], more[j - 1]);
    }
  }

  lemma {:induction false} MemberOpsAre(v: Snapshot, parent: string, ids: seq<string>)
    requires forall m <- ids :: m in v.members
    ensures var ops := MemberOps(v, parent, ids);
            |ops| == |ids| && forall i :: 0 <= i < |ids| ==> ops[i] == MemberOp(v, parent, ids[i])
    decreases |ids|
  {
    if ids != [] { MemberOpsAre(v, parent, ids[1..]); }
  }

  // One op for each of some different ids, in their order.
  ghost predicate Pairs(ids: seq<string>, ops: seq<Op>) {
    && |ops| == |ids| && (forall i :: 0 <= i < |ids| ==> ops[i].id == ids[i])
    && (forall i, j :: 0 <= i < j < |ids| ==> ids[i] != ids[j])
  }

  lemma PairsOnce(ids: seq<string>, ops: seq<Op>)
    requires Pairs(ids, ops)
    ensures OncePerRecord(ops) && (forall op <- ops :: op.id in ids)
    ensures forall x <- ids :: exists op :: op in ops && op.id == x
  {
    forall x <- ids ensures exists op :: op in ops && op.id == x {
      var i :| 0 <= i < |ids| && ids[i] == x;
      assert ops[i] in ops;
    }
  }

  // The memberships of the plan, one op each.
  lemma MembersUpAre(v: Snapshot, shelf: string)
    requires shelf in v.shelves
    ensures var ops, parent := MembersUp(v, shelf), v.shelves[shelf].parent;
            && OncePerRecord(ops)
            && (forall op <- ops :: op.id in MembersOn(v, shelf) && op == MemberOp(v, parent, op.id))
            && (forall m <- MembersOn(v, shelf) :: MemberOp(v, parent, m) in ops)
  {
    MembersAre(v, v.shelves[shelf].parent, SortedIds(MembersOn(v, shelf)), MembersUp(v, shelf));
  }

  lemma MembersAre(v: Snapshot, parent: string, ids: seq<string>, ops: seq<Op>)
    requires (forall m <- ids :: m in v.members) && ops == MemberOps(v, parent, ids)
    requires forall i, j :: 0 <= i < j < |ids| ==> ids[i] != ids[j]
    ensures OncePerRecord(ops)
    ensures forall op <- ops :: op.id in ids && op == MemberOp(v, parent, op.id)
    ensures forall m <- ids :: MemberOp(v, parent, m) in ops
  {
    MemberOpsAre(v, parent, ids);
    PairsOnce(ids, ops);
    forall m <- ids ensures MemberOp(v, parent, m) in ops {
      var i :| 0 <= i < |ids| && ids[i] == m;
      assert ops[i] == MemberOp(v, parent, m);
    }
  }

  // The child shelves of the plan: who moves up gets a name of its own.
  ghost predicate Apart(v: Snapshot, x: Op, y: Op) {
    && x.id in v.shelves && y.id in v.shelves && x.action.SetShelf? && y.action.SetShelf?
    && (x.id != y.id && !Empty(v, x.id) && !Empty(v, y.id) ==> FinalName(v, x) != FinalName(v, y))
  }

  ghost predicate ChildFits(v: Snapshot, shelf: string, op: Op)
    requires shelf in v.shelves
  {
    && op.id in ChildrenOf(v, shelf)
    && ChildOpFits(v, v.shelves[shelf].parent, SiblingNames(v, shelf, v.shelves[shelf].parent), op.id, op)
  }

  lemma ChildrenUpAre(v: Snapshot, shelf: string)
    requires shelf in v.shelves
    ensures var ops := ChildrenUp(v, shelf);
            && OncePerRecord(ops)
            && (forall op <- ops :: ChildFits(v, shelf, op))
            && (forall c <- ChildrenOf(v, shelf) :: exists op :: op in ops && op.id == c)
            && (forall x <- ops, y <- ops :: Apart(v, x, y))
  {
    var parent := v.shelves[shelf].parent;
    ChildrenAre(v, parent, SiblingNames(v, shelf, parent), SortedIds(ChildrenOf(v, shelf)), ChildrenUp(v, shelf));
  }

  lemma ChildrenAre(v: Snapshot, parent: string, taken: set<string>, ids: seq<string>, ops: seq<Op>)
    requires (forall c <- ids :: c in v.shelves) && ops == ChildOps(v, parent, taken, ids)
    requires forall i, j :: 0 <= i < j < |ids| ==> ids[i] != ids[j]
    ensures OncePerRecord(ops)
    ensures forall op <- ops :: op.id in ids && ChildOpFits(v, parent, taken, op.id, op)
    ensures forall c <- ids :: exists op :: op in ops && op.id == c
    ensures forall x <- ops, y <- ops :: Apart(v, x, y)
  {
    ChildOpsFit(v, parent, taken, ids);
    assert Pairs(ids, ops) by {
      forall i | 0 <= i < |ids| ensures ops[i].id == ids[i] { assert ChildOpFits(v, parent, taken, ids[i], ops[i]); }
    }
    PairsOnce(ids, ops);
    assert forall op <- ops :: op.id in ids && ChildOpFits(v, parent, taken, op.id, op);
    forall x <- ops, y <- ops ensures Apart(v, x, y) {
      var i :| 0 <= i < |ops| && ops[i] == x;
      var j :| 0 <= j < |ops| && ops[j] == y;
      assert i < j || j < i || i == j;
    }
  }

  lemma NotOwnParent(v: Snapshot, shelf: string)
    requires Visible(v, shelf) && shelf in v.shelves && "" !in v.shelves
    ensures v.shelves[shelf].parent != shelf
  {
    if v.shelves[shelf].parent == shelf {
      var ids := [shelf, shelf];
      assert Walk(v, ids) && Repeats(ids, 0);
      CycleIsNoChain(v, ids, 0, 0, MAX_DEPTH);
    }
  }

  // An accepted plan, seen as the set of records it writes.
  ghost predicate Deletes(v: Snapshot, shelf: string, ops: seq<Op>) {
    && shelf in v.shelves && OncePerRecord(ops)
    && (forall op <- ops ::
          || (op.id in MembersOn(v, shelf) && op == MemberOp(v, v.shelves[shelf].parent, op.id))
          || ChildFits(v, shelf, op)
          || op == ShelfGone(v, shelf))
    && (forall m <- MembersOn(v, shelf) :: MemberOp(v, v.shelves[shelf].parent, m) in ops)
    && (forall c <- ChildrenOf(v, shelf) :: exists op :: op in ops && op.id == c)
    && ShelfGone(v, shelf) in ops
  }

  lemma ThreePartsOnce(v: Snapshot, shelf: string, a: seq<Op>, b: seq<Op>, last: Op)
    requires OncePerRecord(a) && OncePerRecord(b) && v.members.Keys !! v.shelves.Keys
    requires forall op <- a :: op.id in v.members
    requires forall op <- b :: op.id in v.shelves && op.id != shelf
    requires last.id == shelf && shelf in v.shelves
    ensures OncePerRecord(a + b + [last])
  {
    OnceConcat(a, b);
    OnceConcat(a + b, [last]);
  }

  lemma PartsDelete(v: Snapshot, shelf: string)
    requires WellFormed(v) && shelf in v.shelves && v.shelves[shelf].parent != shelf
    ensures Deletes(v, shelf, MembersUp(v, shelf) + ChildrenUp(v, shelf) + [ShelfGone(v, shelf)])
    ensures forall x <- ChildrenUp(v, shelf) :: ChildFits(v, shelf, x)
  {
    MembersUpAre(v, shelf);
    ChildrenUpAre(v, shelf);
    var a, b, last := MembersUp(v, shelf), ChildrenUp(v, shelf), ShelfGone(v, shelf);
    PartsJoin(v, shelf, a, b, last);
  }

  lemma PartsJoin(v: Snapshot, shelf: string, a: seq<Op>, b: seq<Op>, last: Op)
    requires WellFormed(v) && shelf in v.shelves && v.shelves[shelf].parent != shelf && last == ShelfGone(v, shelf)
    requires OncePerRecord(a) && OncePerRecord(b)
    requires forall op <- a :: op.id in MembersOn(v, shelf) && op == MemberOp(v, v.shelves[shelf].parent, op.id)
    requires forall m <- MembersOn(v, shelf) :: MemberOp(v, v.shelves[shelf].parent, m) in a
    requires forall op <- b :: ChildFits(v, shelf, op)
    requires forall c <- ChildrenOf(v, shelf) :: exists op :: op in b && op.id == c
    ensures Deletes(v, shelf, a + b + [last])
  {
    var ops := a + b + [last];
    forall op <- b ensures op.id in v.shelves && op.id != shelf {
      assert ChildFits(v, shelf, op);
    }
    ThreePartsOnce(v, shelf, a, b, last);
    forall k <- ChildrenOf(v, shelf) ensures exists op :: op in ops && op.id == k {
      var op :| op in b && op.id == k;
      assert op in ops;
    }
    assert last in ops;
    assert forall op <- ops :: op in a || op in b || op == last;
  }

  // No record is written twice, which the server refuses.
  lemma DeleteWritesOnce(v: Snapshot, shelf: string)
    requires WellFormed(v) && Deletable(v, shelf)
    ensures Deletes(v, shelf, Deletion(v, shelf)) && OncePerRecord(Deletion(v, shelf))
  {
    NotOwnParent(v, shelf);
    PartsDelete(v, shelf);
  }

  // What becomes of the shelf itself, of each child and of each membership;
  // every other record, and every book, stays as it is.
  ghost predicate ChildRisen(v: Snapshot, w: Snapshot, shelf: string, c: string)
    requires c in v.shelves && c in w.shelves && shelf in v.shelves
  {
    && w.shelves[c].live == !Empty(v, c)
    && (!Empty(v, c) ==>
          && w.shelves[c].parent == v.shelves[shelf].parent
          && w.shelves[c].name !in SiblingNames(v, shelf, v.shelves[shelf].parent))
  }

  ghost predicate MemberRisen(v: Snapshot, w: Snapshot, shelf: string, m: string)
    requires m in v.members && m in w.members && shelf in v.shelves
  {
    var parent, book := v.shelves[shelf].parent, v.members[m].book;
    && w.members[m].book == book
    && w.members[m].live == (parent != "" && !OnShelf(v, book, parent))
    && (w.members[m].live ==> w.members[m].shelf == parent)
  }

  ghost predicate SameRecords(v: Snapshot, w: Snapshot, shelf: string) {
    && w.shelves.Keys == v.shelves.Keys && w.members.Keys == v.members.Keys && w.books == v.books
    && (forall s <- v.shelves :: s != shelf && s !in ChildrenOf(v, shelf) ==> w.shelves[s] == v.shelves[s])
    && (forall m <- v.members :: m !in MembersOn(v, shelf) ==> w.members[m] == v.members[m])
  }

  ghost predicate WritesWithin(v: Snapshot, shelf: string, op: Op) {
    Existing(op) && (op.id == shelf || op.id in MembersOn(v, shelf) || op.id in ChildrenOf(v, shelf))
  }

  lemma DeletesWithin(v: Snapshot, shelf: string, ops: seq<Op>)
    requires Deletes(v, shelf, ops)
    ensures forall op <- ops :: WritesWithin(v, shelf, op)
  {}

  lemma KeepsOthers(v: Snapshot, shelf: string, ops: seq<Op>, heads: string -> string)
    requires WellFormed(v) && shelf in v.shelves && forall op <- ops :: WritesWithin(v, shelf, op)
    ensures SameRecords(v, Apply(v, ops, heads), shelf)
  {
    var w := Apply(v, ops, heads);
    ApplyKeepsKeys(v, ops, heads);
    forall b <- v.books ensures w.books[b] == v.books[b] { ApplyOther(v, ops, heads, b); }
    forall s <- v.shelves | s != shelf && s !in ChildrenOf(v, shelf) ensures w.shelves[s] == v.shelves[s] {
      ApplyOther(v, ops, heads, s);
    }
    forall m <- v.members | m !in MembersOn(v, shelf) ensures w.members[m] == v.members[m] {
      ApplyOther(v, ops, heads, m);
    }
  }

  lemma RaisesMember(v: Snapshot, shelf: string, ops: seq<Op>, heads: string -> string, m: string)
    requires Deletes(v, shelf, ops) && m in MembersOn(v, shelf)
    ensures m in Apply(v, ops, heads).members && MemberRisen(v, Apply(v, ops, heads), shelf, m)
  {
    MemberWritten(v, shelf, ops, heads, m);
    MemberRises(v, shelf, m, heads(m));
    RisenAlike(v, Change(v, MemberOp(v, v.shelves[shelf].parent, m), heads(m)), Apply(v, ops, heads), shelf, m);
  }

  lemma MemberWritten(v: Snapshot, shelf: string, ops: seq<Op>, heads: string -> string, m: string)
    requires Deletes(v, shelf, ops) && m in MembersOn(v, shelf)
    ensures Agree(Apply(v, ops, heads), Change(v, MemberOp(v, v.shelves[shelf].parent, m), heads(m)), m)
  {
    ApplyIn(v, ops, heads, MemberOp(v, v.shelves[shelf].parent, m));
  }

  lemma RisenAlike(v: Snapshot, w: Snapshot, u: Snapshot, shelf: string, m: string)
    requires shelf in v.shelves && m in v.members && m in w.members && MemberRisen(v, w, shelf, m) && Agree(u, w, m)
    ensures m in u.members && MemberRisen(v, u, shelf, m)
  {}

  lemma MemberRises(v: Snapshot, shelf: string, m: string, head: string)
    requires shelf in v.shelves && m in MembersOn(v, shelf)
    ensures MemberRisen(v, Change(v, MemberOp(v, v.shelves[shelf].parent, m), head), shelf, m)
  {}

  lemma RaisesChild(v: Snapshot, shelf: string, ops: seq<Op>, heads: string -> string, op: Op)
    requires OncePerRecord(ops) && shelf in v.shelves && op in ops && ChildFits(v, shelf, op)
    ensures op.id in Apply(v, ops, heads).shelves && ChildRisen(v, Apply(v, ops, heads), shelf, op.id)
    ensures Apply(v, ops, heads).shelves[op.id].name == FinalName(v, op)
  {
    ApplyIn(v, ops, heads, op);
  }

  lemma ChildHasOp(v: Snapshot, shelf: string, ops: seq<Op>, c: string) returns (op: Op)
    requires WellFormed(v) && Deletes(v, shelf, ops) && c in ChildrenOf(v, shelf) && c != shelf
    ensures op in ops && op.id == c && ChildFits(v, shelf, op)
  {
    op :| op in ops && op.id == c;
  }

  ghost predicate Risen(v: Snapshot, w: Snapshot, shelf: string) {
    && shelf in v.shelves && SameRecords(v, w, shelf) && !w.shelves[shelf].live
    && (forall c <- ChildrenOf(v, shelf) :: ChildRisen(v, w, shelf, c))
    && (forall m <- MembersOn(v, shelf) :: MemberRisen(v, w, shelf, m))
  }

  lemma DeletesRaise(v: Snapshot, shelf: string, ops: seq<Op>, heads: string -> string)
    requires WellFormed(v) && Deletes(v, shelf, ops) && v.shelves[shelf].parent != shelf
    ensures Risen(v, Apply(v, ops, heads), shelf)
  {
    var w := Apply(v, ops, heads);
    DeletesWithin(v, shelf, ops);
    KeepsOthers(v, shelf, ops, heads);
    ApplyIn(v, ops, heads, ShelfGone(v, shelf));
    forall c <- ChildrenOf(v, shelf) ensures ChildRisen(v, w, shelf, c) {
      var op := ChildHasOp(v, shelf, ops, c);
      RaisesChild(v, shelf, ops, heads, op);
    }
    forall m <- MembersOn(v, shelf) ensures MemberRisen(v, w, shelf, m) {
      RaisesMember(v, shelf, ops, heads, m);
    }
  }

  // The whole effect of an accepted deletion.
  lemma DeleteRaisesContents(v: Snapshot, shelf: string, heads: string -> string)
    requires WellFormed(v) && Deletable(v, shelf)
    ensures Risen(v, Apply(v, Deletion(v, shelf), heads), shelf) && v.shelves[shelf].parent != shelf
  {
    NotOwnParent(v, shelf);
    PartsDelete(v, shelf);
    DeletesRaise(v, shelf, Deletion(v, shelf), heads);
  }

  lemma RisenLeavesNothing(v: Snapshot, w: Snapshot, shelf: string)
    requires Risen(v, w, shelf) && v.shelves[shelf].parent != shelf
    ensures !w.shelves[shelf].live && Empty(w, shelf)
  {
    forall m <- w.members ensures !(w.members[m].live && w.members[m].shelf == shelf) {
      if m in MembersOn(v, shelf) { assert MemberRisen(v, w, shelf, m); }
    }
    forall c <- w.shelves ensures !(w.shelves[c].live && w.shelves[c].parent == shelf) {
      if c in ChildrenOf(v, shelf) { assert ChildRisen(v, w, shelf, c); }
    }
  }

  // Nothing live points at the deleted shelf any more.
  lemma DeleteLeavesNothingBehind(v: Snapshot, shelf: string, heads: string -> string)
    requires WellFormed(v) && Deletable(v, shelf)
    ensures var w := Apply(v, Deletion(v, shelf), heads);
            shelf in w.shelves && !w.shelves[shelf].live && Empty(w, shelf)
  {
    DeleteRaisesContents(v, shelf, heads);
    RisenLeavesNothing(v, Apply(v, Deletion(v, shelf), heads), shelf);
  }

  lemma RisenKeepsShelved(v: Snapshot, w: Snapshot, shelf: string, book: string)
    requires Risen(v, w, shelf) && v.shelves[shelf].parent != shelf
    requires v.shelves[shelf].parent != "" && OnShelf(v, book, shelf)
    ensures OnShelf(w, book, v.shelves[shelf].parent)
  {
    var parent := v.shelves[shelf].parent;
    if OnShelf(v, book, parent) {
      var m :| m in MembersOn(v, parent) && v.members[m].book == book;
      assert m in MembersOn(w, parent);
    } else {
      var m :| m in MembersOn(v, shelf) && v.members[m].book == book;
      assert MemberRisen(v, w, shelf, m);
      assert m in MembersOn(w, parent);
    }
  }

  // A book that was on a nested shelf is on its parent afterwards.
  lemma DeleteKeepsBooksShelved(v: Snapshot, shelf: string, heads: string -> string, book: string)
    requires WellFormed(v) && Deletable(v, shelf)
    requires v.shelves[shelf].parent != "" && OnShelf(v, book, shelf)
    ensures OnShelf(Apply(v, Deletion(v, shelf), heads), book, v.shelves[shelf].parent)
  {
    DeleteRaisesContents(v, shelf, heads);
    RisenKeepsShelved(v, Apply(v, Deletion(v, shelf), heads), shelf, book);
  }

  lemma RisenNamesDiffer(v: Snapshot, shelf: string, ops: seq<Op>, heads: string -> string, a: string, b: string)
    requires WellFormed(v) && shelf in v.shelves && v.shelves[shelf].parent != shelf && a != b
    requires ops == MembersUp(v, shelf) + ChildrenUp(v, shelf) + [ShelfGone(v, shelf)]
    requires a in ChildrenOf(v, shelf) && b in ChildrenOf(v, shelf) && !Empty(v, a) && !Empty(v, b)
    ensures var w := Apply(v, ops, heads); a in w.shelves && b in w.shelves && w.shelves[a].name != w.shelves[b].name
  {
    PartsDelete(v, shelf);
    ChildrenUpAre(v, shelf);
    var x :| x in ChildrenUp(v, shelf) && x.id == a;
    var y :| y in ChildrenUp(v, shelf) && y.id == b;
    assert Apart(v, x, y);
    RaisesChild(v, shelf, ops, heads, x);
    RaisesChild(v, shelf, ops, heads, y);
  }

  // A clash afterwards could only be between two children that moved up.
  lemma DeleteNoClash(v: Snapshot, w: Snapshot, shelf: string, a: string, b: string)
    requires SiblingsDistinct(v) && Clash(w, a, b) && Risen(v, w, shelf) && v.shelves[shelf].parent != shelf
    ensures a in ChildrenOf(v, shelf) && b in ChildrenOf(v, shelf) && !Empty(v, a) && !Empty(v, b)
  {
    var kids, names := ChildrenOf(v, shelf), SiblingNames(v, shelf, v.shelves[shelf].parent);
    forall x | x in v.shelves && x !in kids && x != shelf && w.shelves[x].live
      ensures v.shelves[x].live
      ensures v.shelves[x].parent == v.shelves[shelf].parent ==> v.shelves[x].name in names
    {}
    assert a in kids ==> ChildRisen(v, w, shelf, a);
    assert b in kids ==> ChildRisen(v, w, shelf, b);
    assert !Clash(v, a, b);
  }

  // Live siblings keep pairwise different names.
  lemma DeleteKeepsNames(v: Snapshot, shelf: string, heads: string -> string)
    requires WellFormed(v) && Deletable(v, shelf) && SiblingsDistinct(v)
    ensures SiblingsDistinct(Apply(v, Deletion(v, shelf), heads))
  {
    var w := Apply(v, Deletion(v, shelf), heads);
    DeleteRaisesContents(v, shelf, heads);
    forall a, b ensures !Clash(w, a, b) {
      if Clash(w, a, b) {
        DeleteNoClash(v, w, shelf, a, b);
        RisenNamesDiffer(v, shelf, Deletion(v, shelf), heads, a, b);
        assert false;
      }
    }
  }
}
