// What a plan's ops do record by record.
module LibraryFrames {
  import opened Outcomes
  import opened Library

  // Two snapshots hold the same under one record id.
  ghost predicate Agree(v: Snapshot, w: Snapshot, id: string) {
    && (id in v.shelves <==> id in w.shelves) && (id in v.shelves ==> v.shelves[id] == w.shelves[id])
    && (id in v.books <==> id in w.books) && (id in v.books ==> v.books[id] == w.books[id])
    && (id in v.members <==> id in w.members) && (id in v.members ==> v.members[id] == w.members[id])
  }

  lemma AgreeEverywhere(v: Snapshot, w: Snapshot)
    requires forall id :: Agree(v, w, id)
    ensures v == w
  {
    assert forall id :: id in v.shelves <==> id in w.shelves by {
      forall id ensures id in v.shelves <==> id in w.shelves { assert Agree(v, w, id); }
    }
    assert forall id :: id in v.books <==> id in w.books by {
      forall id ensures id in v.books <==> id in w.books { assert Agree(v, w, id); }
    }
    assert forall id :: id in v.members <==> id in w.members by {
      forall id ensures id in v.members <==> id in w.members { assert Agree(v, w, id); }
    }
    assert v.shelves == w.shelves by {
      forall id | id in v.shelves ensures v.shelves[id] == w.shelves[id] { assert Agree(v, w, id); }
    }
    assert v.books == w.books by {
      forall id | id in v.books ensures v.books[id] == w.books[id] { assert Agree(v, w, id); }
    }
    assert v.members == w.members by {
      forall id | id in v.members ensures v.members[id] == w.members[id] { assert Agree(v, w, id); }
    }
  }

  lemma ChangeAgrees(v: Snapshot, w: Snapshot, op: Op, head: string)
    requires Agree(v, w, op.id)
    ensures Agree(Change(v, op, head), Change(w, op, head), op.id)
  {}

  lemma ChangeOther(v: Snapshot, op: Op, head: string, id: string)
    requires op.id != id
    ensures Agree(Change(v, op, head), v, id)
  {}

  lemma {:induction false} ApplyOther(v: Snapshot, ops: seq<Op>, heads: string -> string, id: string)
    requires forall op <- ops :: op.id != id
    ensures Agree(Apply(v, ops, heads), v, id)
    decreases |ops|
  {
    if ops != [] {
      var before, last := ops[..|ops| - 1], ops[|ops| - 1];
      assert last in ops;
      ApplyOther(v, before, heads, id);
      ChangeOther(Apply(v, before, heads), last, heads(last.id), id);
    }
  }

  // In a plan that writes each record once, a record ends as its own op left it.
  lemma {:induction false} ApplyAt(v: Snapshot, ops: seq<Op>, heads: string -> string, k: nat)
    requires OncePerRecord(ops) && k < |ops|
    ensures Agree(Apply(v, ops, heads), Change(v, ops[k], heads(ops[k].id)), ops[k].id)
    decreases |ops|
  {
    var before, last := ops[..|ops| - 1], ops[|ops| - 1];
    if k == |ops| - 1 {
      ApplyOther(v, before, heads, ops[k].id);
      ChangeAgrees(Apply(v, before, heads), v, last, heads(last.id));
    } else {
      assert before[k] == ops[k];
      ApplyAt(v, before, heads, k);
      ChangeOther(Apply(v, before, heads), last, heads(last.id), ops[k].id);
    }
  }

  lemma ApplyOne(v: Snapshot, op: Op, heads: string -> string)
    ensures Apply(v, [op], heads) == Change(v, op, heads(op.id))
  {
    assert [op][..0] == [];
    assert Apply(v, [], heads) == v;
  }

  lemma ApplyIn(v: Snapshot, ops: seq<Op>, heads: string -> string, op: Op)
    requires OncePerRecord(ops) && op in ops
    ensures Agree(Apply(v, ops, heads), Change(v, op, heads(op.id)), op.id)
  {
    var k :| 0 <= k < |ops| && ops[k] == op;
    ApplyAt(v, ops, heads, k);
  }

  lemma OnceConcat(a: seq<Op>, b: seq<Op>)
    requires OncePerRecord(a) && OncePerRecord(b)
    requires forall x <- a, y <- b :: x.id != y.id
    ensures OncePerRecord(a + b)
  {
    forall i, j | 0 <= i < j < |a + b| ensures (a + b)[i].id != (a + b)[j].id {
      if i < |a| <= j {
        assert a[i] in a && b[j - |a|] in b;
      }
    }
  }

  lemma {:induction false} ApplyConcat(v: Snapshot, a: seq<Op>, b: seq<Op>, heads: string -> string)
    ensures Apply(v, a + b, heads) == Apply(Apply(v, a, heads), b, heads)
    decreases |b|
  {
    if b == [] {
      assert a + b == a;
    } else {
      assert (a + b)[..|a + b| - 1] == a + b[..|b| - 1];
      ApplyConcat(v, a, b[..|b| - 1], heads);
    }
  }

  // Ops that change existing records only keep the key sets.
  predicate Existing(op: Op) { !op.action.NewShelf? && !op.action.NewMember? }

  lemma {:induction false} ApplyKeepsKeys(v: Snapshot, ops: seq<Op>, heads: string -> string)
    requires forall op <- ops :: Existing(op)
    ensures var w := Apply(v, ops, heads);
            w.shelves.Keys == v.shelves.Keys && w.books.Keys == v.books.Keys && w.members.Keys == v.members.Keys
    decreases |ops|
  {
    if ops != [] {
      assert ops[|ops| - 1] in ops;
      ApplyKeepsKeys(v, ops[..|ops| - 1], heads);
    }
  }
}
