// The snapshot as the server holds it: three maps, changed in place.
module LibraryState {
  import opened Outcomes
  import L = Library
  import opened LibraryFrames

  const BATCH_LIMIT := 2000

  datatype Refusal = TooLarge | TwiceWritten

  // The server's last check of a plan before it is queued.
  method Admit(ops: seq<L.Op>) returns (refused: Option<Refusal>)
    ensures refused.None? <==> |ops| <= BATCH_LIMIT && L.OncePerRecord(ops)
    ensures refused == Some(TooLarge) <==> |ops| > BATCH_LIMIT
  {
    if |ops| > BATCH_LIMIT { return Some(TooLarge); }
    var touched: set<string> := {};
    for i := 0 to |ops|
      invariant L.OncePerRecord(ops[..i])
      invariant forall id :: id in touched <==> exists j :: 0 <= j < i && ops[j].id == id
    {
      if ops[i].id in touched { return Some(TwiceWritten); }
      touched := touched + {ops[i].id};
    }
    assert ops[..|ops|] == ops;
    return None;
  }

  class LibrarySnapshot {
    var shelves: map<string, L.Shelf>
    var books: map<string, L.Book>
    var members: map<string, L.Member>

    constructor (v: L.Snapshot)
      ensures View() == v
    {
      shelves, books, members := v.shelves, v.books, v.members;
    }

    function View(): L.Snapshot
      reads this
    { L.Snapshot(shelves, books, members) }

    // One queued change; a change of a record that is gone does nothing.
    method Change(op: L.Op, head: string)
      modifies this
      ensures View() == L.Change(old(View()), op, head)
    {
      match op.action {
        case NewShelf(f) => shelves := shelves[op.id := f.(revision := "", head := head)];
        case NewMember(m) => members := members[op.id := m.(revision := "", head := head)];
        case SetShelf(name, parent, live) =>
          if op.id in shelves {
            var f := shelves[op.id];
            f := f.(name := L.Or(name, f.name), parent := L.Or(parent, f.parent));
            f := f.(live := L.Or(live, f.live), head := head);
            shelves := shelves[op.id := f];
          }
        case SetBook(name, live) =>
          if op.id in books {
            var b := books[op.id];
            b := b.(name := L.Or(name, b.name), live := L.Or(live, b.live), head := head);
            books := books[op.id := b];
          }
        case SetMember(shelf, live) =>
          if op.id in members {
            var m := members[op.id];
            m := m.(shelf := L.Or(shelf, m.shelf), live := L.Or(live, m.live), head := head);
            members := members[op.id := m];
          }
      }
    }

    // The pending changes, in queue order.
    method Replay(ops: seq<L.Op>, heads: string -> string)
      modifies this
      ensures View() == L.Apply(old(View()), ops, heads)
    {
      for i := 0 to |ops|
        invariant View() == L.Apply(old(View()), ops[..i], heads)
      {
        assert ops[..i + 1][..i] == ops[..i];
        Change(ops[i], heads(ops[i].id));
      }
      assert ops[..|ops|] == ops;
    }
  }
}
