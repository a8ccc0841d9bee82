// The names of the shelves that move up when the shelf above them is deleted.
module ShelfRise {
  import opened Outcomes
  import opened Ordering
  import opened Decimal
  import opened Library
  import opened ShelfDelete
  import Names

  // A shelf goes with its parent exactly if nothing live is on it.
  lemma EmptyIff(v: Snapshot, c: string)
    ensures Empty(v, c) <==>
              && (forall m <- v.members :: !(v.members[m].live && v.members[m].shelf == c))
              && (forall s <- v.shelves :: !(v.shelves[s].live && v.shelves[s].parent == c))
  {
    forall m <- v.members | v.members[m].live && v.members[m].shelf == c ensures m in MembersOn(v, c) {}
    forall s <- v.shelves | v.shelves[s].live && v.shelves[s].parent == c ensures s in ChildrenOf(v, c) {}
  }

  // The k-th name tried.
  function Tried(base: string, k: nat): string { if k == 0 then base else base + "-" + Itoa(k) }

  // A name the i-th child cannot have: one of the shelves beside the deleted one
  // has it, one of the children before, or at the top level the trash.
  ghost predicate Used(v: Snapshot, parent: string, taken: set<string>, ids: seq<string>, ops: seq<Op>, i: nat, name: string)
    requires |ops| == |ids| && i <= |ids|
  {
    || name in taken || (parent == "" && name == ".Trash")
    || exists l :: 0 <= l < i && ids[l] in v.shelves && !Empty(v, ids[l])
                   && name == Or(if ops[l].action.SetShelf? then ops[l].action.name else None, v.shelves[ids[l]].name)
  }

  // The i-th child gets the first name that is free when its turn comes.
  ghost predicate NamedFirst(v: Snapshot, parent: string, taken: set<string>, ids: seq<string>, ops: seq<Op>, i: nat)
    requires |ops| == |ids| && i < |ids| && ids[i] in v.shelves
  {
    Empty(v, ids[i]) || exists k: nat :: NamedBy(v, parent, taken, ids, ops, i, k)
  }

  ghost predicate NamedBy(v: Snapshot, parent: string, taken: set<string>, ids: seq<string>, ops: seq<Op>, i: nat, k: nat)
    requires |ops| == |ids| && i < |ids| && ids[i] in v.shelves
  {
    var base := v.shelves[ids[i]].name;
    && ops[i].action == SetShelf(if k == 0 then None else Some(Tried(base, k)), Some(parent), None)
    && !Used(v, parent, taken, ids, ops, i, Tried(base, k))
    && forall j: nat :: j < k ==> Used(v, parent, taken, ids, ops, i, Tried(base, j))
  }

  lemma FirstNamed(v: Snapshot, parent: string, taken: set<string>, ids: seq<string>, ops: seq<Op>)
    requires ids != [] && |ops| == |ids| && ids[0] in v.shelves && ops[0] == ChildOp(v, parent, taken, ids[0])
    ensures NamedFirst(v, parent, taken, ids, ops, 0)
  {
    var base, blocked := v.shelves[ids[0]].name, Blocked(parent, taken);
    Names.FreeExists(blocked, blocked, base, 0);
    var k: nat :| Names.FirstFree(blocked, base, k);
    Names.FreeIsFirst(blocked, base, k);
    forall j: nat ensures Tried(base, j) == Names.Candidate(base, j) {}
    assert k > 0 ==> |Tried(base, k)| > |base|;
    if !Empty(v, ids[0]) { assert NamedBy(v, parent, taken, ids, ops, 0, k); }
  }

  // In use for a later child is in use for it among the rest.
  lemma UsedLater(v: Snapshot, parent: string, taken: set<string>, more: set<string>, ids: seq<string>, ops: seq<Op>,
                  i: nat, name: string)
    requires ids != [] && |ops| == |ids| && i < |ids| && ids[0] in v.shelves && ops[0].action.SetShelf?
    requires more == if Empty(v, ids[0]) then taken else taken + {Or(ops[0].action.name, v.shelves[ids[0]].name)}
    ensures Used(v, parent, taken, ids, ops, i + 1, name) <==> Used(v, parent, more, ids[1..], ops[1..], i, name)
  {
    if Used(v, parent, taken, ids, ops, i + 1, name) && name !in more && !(parent == "" && name == ".Trash") {
      var l :| 0 <= l < i + 1 && ids[l] in v.shelves && !Empty(v, ids[l])
               && name == Or(if ops[l].action.SetShelf? then ops[l].action.name else None, v.shelves[ids[l]].name);
      assert l > 0;
      assert ids[1..][l - 1] == ids[l] && ops[1..][l - 1] == ops[l];
    }
    if Used(v, parent, more, ids[1..], ops[1..], i, name) && name !in taken && !(parent == "" && name == ".Trash") {
      if name !in more {
        var l :| 0 <= l < i && ids[1..][l] in v.shelves && !Empty(v, ids[1..][l])
                 && name == Or(if ops[1..][l].action.SetShelf? then ops[1..][l].action.name else None,
                               v.shelves[ids[1..][l]].name);
        assert ids[1..][l] == ids[l + 1] && ops[1..][l] == ops[l + 1];
      }
    }
  }

  lemma LaterNamed(v: Snapshot, parent: string, taken: set<string>, more: set<string>, ids: seq<string>, ops: seq<Op>,
                   i: nat)
    requires ids != [] && |ops| == |ids| && i + 1 < |ids| && ids[0] in v.shelves && ids[i + 1] in v.shelves
    requires ops[0].action.SetShelf?
    requires more == if Empty(v, ids[0]) then taken else taken + {Or(ops[0].action.name, v.shelves[ids[0]].name)}
    requires NamedFirst(v, parent, more, ids[1..], ops[1..], i)
    ensures NamedFirst(v, parent, taken, ids, ops, i + 1)
  {
    var base := v.shelves[ids[i + 1]].name;
    assert ids[1..][i] == ids[i + 1] && ops[1..][i] == ops[i + 1];
    if !Empty(v, ids[i + 1]) {
      var k: nat :| NamedBy(v, parent, more, ids[1..], ops[1..], i, k);
      forall name ensures Used(v, parent, taken, ids, ops, i + 1, name) <==> Used(v, parent, more, ids[1..], ops[1..], i, name) {
        UsedLater(v, parent, taken, more, ids, ops, i, name);
      }
      assert NamedBy(v, parent, taken, ids, ops, i + 1, k);
    }
  }

  ghost predicate AllNamed(v: Snapshot, parent: string, taken: set<string>, ids: seq<string>, ops: seq<Op>) {
    |ops| == |ids| && forall i :: 0 <= i < |ids| ==> ids[i] in v.shelves && NamedFirst(v, parent, taken, ids, ops, i)
  }

  lemma OneMoreNamed(v: Snapshot, parent: string, taken: set<string>, c: string, rest: seq<string>, ops: seq<Op>)
    requires c in v.shelves && AllNamed(v, parent, TakenAfter(v, parent, taken, c), rest, ops)
    ensures AllNamed(v, parent, taken, [c] + rest, [ChildOp(v, parent, taken, c)] + ops)
  {
    var ids, all := [c] + rest, [ChildOp(v, parent, taken, c)] + ops;
    assert ids[1..] == rest && all[1..] == ops;
    FirstNamed(v, parent, taken, ids, all);
    forall i | 0 <= i < |ids| ensures ids[i] in v.shelves && NamedFirst(v, parent, taken, ids, all, i) {
      if i > 0 { LaterNamed(v, parent, taken, TakenAfter(v, parent, taken, c), ids, all, i - 1); }
    }
  }

  lemma {:induction false} ChildrenAreNamed(v: Snapshot, parent: string, taken: set<string>, ids: seq<string>)
    requires forall c <- ids :: c in v.shelves
    ensures AllNamed(v, parent, taken, ids, ChildOps(v, parent, taken, ids))
    decreases |ids|
  {
    if ids != [] {
      assert ids == [ids[0]] + ids[1..];
      ChildrenAreNamed(v, parent, TakenAfter(v, parent, taken, ids[0]), ids[1..]);
      OneMoreNamed(v, parent, taken, ids[0], ids[1..],
                   ChildOps(v, parent, TakenAfter(v, parent, taken, ids[0]), ids[1..]));
    }
  }

  // Shelves that move up keep their name if it is free, and else get the first
  // free number, in the order of their ids.
  lemma RaisedNames(v: Snapshot, shelf: string)
    requires shelf in v.shelves
    ensures var parent, ids, ops := v.shelves[shelf].parent, SortedIds(ChildrenOf(v, shelf)), ChildrenUp(v, shelf);
            AllNamed(v, parent, SiblingNames(v, shelf, parent), ids, ops)
    ensures forall name :: name in SiblingNames(v, shelf, v.shelves[shelf].parent) <==>
              exists s :: s in v.shelves && v.shelves[s].live && v.shelves[s].parent == v.shelves[shelf].parent
                          && s != shelf && v.shelves[s].name == name
  {
    var parent, ids := v.shelves[shelf].parent, SortedIds(ChildrenOf(v, shelf));
    assert forall c <- ids :: c in ChildrenOf(v, shelf);
    ChildrenAreNamed(v, parent, SiblingNames(v, shelf, parent), ids);
  }
}
