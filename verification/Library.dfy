// The reading library as the server plans changes on it: shelves, stored books
// and the memberships that put books on shelves.
module Library {
  import opened Outcomes
  import opened Ordering

  datatype Shelf = Shelf(parent: string, name: string, revision: string, head: string, live: bool, native: bool)
  datatype Book = Book(name: string, title: string, kind: string, revision: string, head: string, live: bool)
  datatype Member = Member(book: string, shelf: string, revision: string, head: string, live: bool)

  datatype Snapshot = Snapshot(
    shelves: map<string, Shelf>, books: map<string, Book>, members: map<string, Member>)

  // A planned write. It is fenced on the revision in the projection, or on the
  // pending operation that will have written the record before it.
  datatype Action =
    | NewShelf(shelf: Shelf)
    | NewMember(member: Member)
    | SetShelf(name: Option<string>, parent: Option<string>, shelfLive: Option<bool>)
    | SetBook(bookName: Option<string>, bookLive: Option<bool>)
    | SetMember(onShelf: Option<string>, memberLive: Option<bool>)

  datatype Op = Op(id: string, expected: string, after: string, action: Action)

  datatype Refusal = Changed | BadName | Conflict | OneShelf | Cycle

  type Plan = Result<seq<Op>, Refusal>

  function Or<T>(o: Option<T>, was: T): T { if o.Some? then o.value else was }

  function Update(id: string, revision: string, head: string, action: Action): Op {
    if head != "" then Op(id, "", head, action) else Op(id, revision, "", action)
  }

  // What an op means on a snapshot; `head` is the id of the queued operation.
  function Change(v: Snapshot, op: Op, head: string): Snapshot {
    match op.action
    case NewShelf(f) => v.(shelves := v.shelves[op.id := f.(revision := "", head := head)])
    case NewMember(m) => v.(members := v.members[op.id := m.(revision := "", head := head)])
    case SetShelf(name, parent, live) =>
      if op.id !in v.shelves then v
      else
        var f := v.shelves[op.id];
        v.(shelves := v.shelves[op.id := f.(
             name := Or(name, f.name), parent := Or(parent, f.parent), live := Or(live, f.live), head := head)])
    case SetBook(name, live) =>
      if op.id !in v.books then v
      else
        var b := v.books[op.id];
        v.(books := v.books[op.id := b.(name := Or(name, b.name), live := Or(live, b.live), head := head)])
    case SetMember(shelf, live) =>
      if op.id !in v.members then v
      else
        var m := v.members[op.id];
        v.(members := v.members[op.id := m.(shelf := Or(shelf, m.shelf), live := Or(live, m.live), head := head)])
  }

  // A plan's ops in order. `heads` names the operation queued for each record.
  function Apply(v: Snapshot, ops: seq<Op>, heads: string -> string): Snapshot
    decreases |ops|
  {
    if ops == [] then v
    else
      var last := ops[|ops| - 1];
      Change(Apply(v, ops[..|ops| - 1], heads), last, heads(last.id))
  }

  // A planned batch never writes one record twice.
  predicate OncePerRecord(ops: seq<Op>) {
    forall i, j :: 0 <= i < j < |ops| ==> ops[i].id != ops[j].id
  }

  // Ids are not empty, and one document has one mode.
  ghost predicate WellFormed(v: Snapshot) {
    && "" !in v.shelves
    && v.shelves.Keys !! v.books.Keys && v.shelves.Keys !! v.members.Keys && v.books.Keys !! v.members.Keys
  }

  // ---- walks up the tree ----

  const MAX_DEPTH := 33

  predicate Native(v: Snapshot, id: string) {
    id in v.shelves && v.shelves[id].live && v.shelves[id].native
  }

  // The whole ancestry of `at` is live and native, within `depth` shelves.
  predicate Chain(v: Snapshot, at: string, depth: nat)
    decreases depth
  {
    at == "" || (depth > 0 && Native(v, at) && Chain(v, v.shelves[at].parent, depth - 1))
  }

  predicate Visible(v: Snapshot, id: string) {
    if id == "" then "" in v.shelves else Chain(v, id, MAX_DEPTH)
  }

  // `anc` is met within `depth` shelves of a walk from `at`.
  predicate Within(v: Snapshot, at: string, anc: string, depth: nat)
    decreases depth
  {
    && at != "" && depth > 0
    && (at == anc || (at in v.shelves && Within(v, v.shelves[at].parent, anc, depth - 1)))
  }

  // The ids a walk has passed, in order, and the one it is at.
  ghost predicate Walk(v: Snapshot, ids: seq<string>) {
    && ids != []
    && (forall i :: 0 <= i < |ids| - 1 ==> ids[i] in v.shelves && ids[i] != "")
    && (forall i, j :: 0 <= i && j == i + 1 && j < |ids| ==> v.shelves[ids[i]].parent == ids[j])
  }

  ghost predicate Repeats(ids: seq<string>, k: nat) {
    k < |ids| - 1 && ids[k] == ids[|ids| - 1]
  }

  // On a cycle the bounded walk never ends at the top level.
  lemma {:induction false} CycleIsNoChain(v: Snapshot, ids: seq<string>, k: nat, j: nat, depth: nat)
    requires Walk(v, ids) && Repeats(ids, k) && j < |ids| - 1
    ensures !Chain(v, ids[j], depth)
    decreases depth
  {
    if depth > 0 {
      var next := j + 1;
      assert v.shelves[ids[j]].parent == ids[next];
      CycleIsNoChain(v, ids, k, if next < |ids| - 1 then next else k, depth - 1);
    }
  }

  lemma {:induction false} CycleWithout(v: Snapshot, ids: seq<string>, k: nat, j: nat, anc: string, depth: nat)
    requires Walk(v, ids) && Repeats(ids, k) && j < |ids| - 1 && anc !in ids[..|ids| - 1]
    ensures !Within(v, ids[j], anc, depth)
    decreases depth
  {
    if depth > 0 {
      var next := j + 1;
      assert v.shelves[ids[j]].parent == ids[next];
      assert ids[j] in ids[..|ids| - 1];
      CycleWithout(v, ids, k, if next < |ids| - 1 then next else k, anc, depth - 1);
    }
  }

  lemma WalkOn(v: Snapshot, passed: seq<string>, at: string)
    requires Walk(v, passed + [at]) && at in v.shelves && at != ""
    ensures Walk(v, passed + [at] + [v.shelves[at].parent])
  {
    var ids, longer := passed + [at], passed + [at] + [v.shelves[at].parent];
    forall i, j | 0 <= i && j == i + 1 && j < |longer|
      ensures longer[i] in v.shelves && v.shelves[longer[i]].parent == longer[j]
    {
      if j < |ids| { assert v.shelves[ids[i]].parent == ids[j]; }
    }
  }

  lemma BackOnPath(v: Snapshot, passed: seq<string>, at: string, anc: string, depth: nat)
    requires Walk(v, passed + [at]) && at in passed
    ensures !Chain(v, passed[0], depth)
    ensures anc !in passed ==> !Within(v, passed[0], anc, depth)
  {
    var ids := passed + [at];
    var k :| 0 <= k < |passed| && passed[k] == at;
    assert Repeats(ids, k) && ids[..|ids| - 1] == passed;
    CycleIsNoChain(v, ids, k, 0, depth);
    if anc !in passed { CycleWithout(v, ids, k, 0, anc, depth); }
  }

  ghost predicate Passed(v: Snapshot, id: string, passed: seq<string>, at: string, seen: set<string>) {
    && Walk(v, passed + [at])
    && (if passed == [] then at == id else passed[0] == id)
    && |passed| == |seen| <= MAX_DEPTH
    && (forall x :: x in seen <==> x in passed)
  }

  lemma PassOn(v: Snapshot, id: string, passed: seq<string>, at: string, seen: set<string>)
    requires Passed(v, id, passed, at, seen) && at in v.shelves && at != "" && at !in seen && |seen| < MAX_DEPTH
    ensures Passed(v, id, passed + [at], v.shelves[at].parent, seen + {at})
  {
    WalkOn(v, passed, at);
  }

  // The lookup loop, with its set of shelves seen so far.
  method FindShelf(v: Snapshot, id: string) returns (r: Option<Shelf>)
    ensures r == if Visible(v, id) && id in v.shelves then Some(v.shelves[id]) else None
  {
    var seen: set<string> := {};
    ghost var passed: seq<string> := [];
    var at := id;
    while at != ""
      invariant Passed(v, id, passed, at, seen)
      invariant Chain(v, id, MAX_DEPTH) <==> Chain(v, at, MAX_DEPTH - |seen|)
      invariant id == "" ==> at == ""
      decreases MAX_DEPTH + 1 - |seen|
    {
      if !Native(v, at) || at in seen || |seen| > 32 {
        if at in passed { BackOnPath(v, passed, at, at, MAX_DEPTH); }
        return None;
      }
      PassOn(v, id, passed, at, seen);
      passed := passed + [at];
      seen := seen + {at};
      at := v.shelves[at].parent;
    }
    r := if id in v.shelves then Some(v.shelves[id]) else None;
  }

  method IsWithin(v: Snapshot, id: string, ancestor: string) returns (r: bool)
    ensures r <==> Within(v, id, ancestor, MAX_DEPTH)
  {
    var seen: set<string> := {};
    ghost var passed: seq<string> := [];
    var at := id;
    while at != "" && at !in seen && |seen| <= 32
      invariant Passed(v, id, passed, at, seen)
      invariant ancestor !in passed
      invariant Within(v, id, ancestor, MAX_DEPTH) <==> Within(v, at, ancestor, MAX_DEPTH - |seen|)
      decreases MAX_DEPTH + 1 - |seen|
    {
      if at == ancestor { return true; }
      if at !in v.shelves { return false; }
      PassOn(v, id, passed, at, seen);
      passed := passed + [at];
      seen := seen + {at};
      at := v.shelves[at].parent;
    }
    if at in passed { BackOnPath(v, passed, at, ancestor, MAX_DEPTH); }
    return false;
  }

  // ---- the forest ----

  // Walking up from `at` ends, at the top level or at a missing shelf.
  predicate Ends(v: Snapshot, at: string, steps: nat)
    decreases steps
  {
    at == "" || at !in v.shelves || (steps > 0 && Ends(v, v.shelves[at].parent, steps - 1))
  }

  ghost predicate Ancestor(v: Snapshot, at: string, anc: string) {
    exists n: nat :: Within(v, at, anc, n)
  }

  lemma {:induction false} WithinMore(v: Snapshot, at: string, anc: string, m: nat, n: nat)
    requires m <= n && Within(v, at, anc, m)
    ensures Within(v, at, anc, n)
    decreases m
  {
    if at != anc { WithinMore(v, v.shelves[at].parent, anc, m - 1, n - 1); }
  }

  lemma {:induction false} ChainBoundsWithin(v: Snapshot, at: string, anc: string, depth: nat, n: nat)
    requires Chain(v, at, depth) && Within(v, at, anc, n)
    ensures Within(v, at, anc, depth)
    decreases n
  {
    if at != anc { ChainBoundsWithin(v, v.shelves[at].parent, anc, depth - 1, n - 1); }
  }

  // On a parent the lookup accepts, the bounded walk decides ancestry exactly.
  lemma WithinIsAncestry(v: Snapshot, parent: string, shelf: string)
    requires parent != "" && Visible(v, parent)
    ensures Within(v, parent, shelf, MAX_DEPTH) <==> Ancestor(v, parent, shelf)
  {
    if Ancestor(v, parent, shelf) {
      var n: nat :| Within(v, parent, shelf, n);
      ChainBoundsWithin(v, parent, shelf, MAX_DEPTH, n);
    }
  }
}
