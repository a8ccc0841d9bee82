// Exactly which changes of the library are accepted, in terms of the tree and of
// where books are, and why the others are refused.
module PlanAcceptance {
  import opened Outcomes
  import opened Ordering
  import opened Library
  import opened BookPlans
  import ShelfPlans
  import ShelfDelete
  import Names

  // ---- what can be seen ----

  // Live native shelves from `id` up, each the next one's child, up to the top.
  ghost predicate LeadsUp(v: Snapshot, id: string, path: seq<string>) {
    && path != [] && path[0] == id
    && (forall i :: 0 <= i < |path| ==>
          path[i] != "" && path[i] in v.shelves && v.shelves[path[i]].live && v.shelves[path[i]].native)
    && (forall i :: 0 <= i < |path| - 1 ==> v.shelves[path[i]].parent == path[i + 1])
    && v.shelves[path[|path| - 1]].parent == ""
  }

  lemma {:induction false} ChainLeadsUp(v: Snapshot, id: string, depth: nat) returns (path: seq<string>)
    requires id != "" && Chain(v, id, depth)
    ensures LeadsUp(v, id, path) && |path| <= depth
    decreases depth
  {
    var up := v.shelves[id].parent;
    if up == "" {
      path := [id];
    } else {
      var rest := ChainLeadsUp(v, up, depth - 1);
      path := [id] + rest;
    }
  }

  lemma {:induction false} LeadsUpIsChain(v: Snapshot, id: string, path: seq<string>, depth: nat)
    requires LeadsUp(v, id, path) && |path| <= depth
    ensures Chain(v, id, depth)
    decreases |path|
  {
    assert Native(v, path[0]);
    if |path| > 1 {
      assert v.shelves[path[0]].parent == path[1];
      forall i | 0 <= i < |path[1..]| - 1 ensures v.shelves[path[1..][i]].parent == path[1..][i + 1] {
        assert v.shelves[path[i + 1]].parent == path[i + 2];
      }
      LeadsUpIsChain(v, path[1], path[1..], depth - 1);
    }
  }

  // A shelf can be seen exactly if at most 33 live native shelves lead from it to
  // the top.
  lemma ShownIff(v: Snapshot, id: string)
    requires id != ""
    ensures Shown(v, id) <==> exists path :: LeadsUp(v, id, path) && |path| <= 33
  {
    if Shown(v, id) { var path := ChainLeadsUp(v, id, 33); }
    if path :| LeadsUp(v, id, path) && |path| <= 33 { LeadsUpIsChain(v, id, path, 33); }
  }

  // ---- shelves ----

  // A name a shelf may have: not blank, at most 240 bytes, no path and no
  // control character; ".Trash" is taken at the top level.
  ghost predicate GoodName(parent: string, name: string) {
    && (exists c :: c in name && !Names.IsSpace(c)) && Names.Utf8Length(name) <= 240
    && name != "." && name != ".." && '/' !in name && '\\' !in name
    && (forall c :: c in name ==> !Names.IsControl(c))
    && (parent == "" ==> name != ".Trash")
  }

  // No other live shelf beside it has the name.
  ghost predicate NameFree(v: Snapshot, self: string, parent: string, name: string) {
    forall s <- v.shelves :: s != self && v.shelves[s].live && v.shelves[s].parent == parent ==> v.shelves[s].name != name
  }

  ghost predicate Somewhere(v: Snapshot, parent: string) { parent == "" || Shown(v, parent) }

  lemma VisibleIsShown(v: Snapshot, id: string)
    requires id != ""
    ensures Visible(v, id) <==> Shown(v, id)
  {}

  lemma BadNameIs(parent: string, name: string)
    ensures ShelfPlans.BadShelfName(parent, name) <==> !GoodName(parent, name)
  {}

  lemma NameTakenIs(v: Snapshot, parent: string, name: string, self: string)
    ensures ShelfPlans.NameTaken(v, parent, name, self) <==> !NameFree(v, self, parent, name)
  {}

  lemma CreateAcceptedIff(v: Snapshot, id: string, parent: string, name: string)
    requires "" !in v.shelves
    ensures var r := ShelfPlans.PlanCreate(v, id, parent, name);
            && (r.Ok? <==> GoodName(parent, name) && Somewhere(v, parent) && NameFree(v, "", parent, name))
            && (r == Err(BadName) <==> !GoodName(parent, name))
            && (r == Err(Changed) <==> GoodName(parent, name) && !Somewhere(v, parent))
            && (r == Err(Conflict) <==> GoodName(parent, name) && Somewhere(v, parent) && !NameFree(v, "", parent, name))
  {
    BadNameIs(parent, name);
    NameTakenIs(v, parent, name, "");
    if parent != "" { VisibleIsShown(v, parent); }
  }

  lemma RenameAcceptedIff(v: Snapshot, shelf: string, name: string)
    ensures ShelfPlans.PlanRename(v, shelf, name).Ok? <==>
              && Shown(v, shelf) && GoodName(v.shelves[shelf].parent, name)
              && (v.shelves[shelf].name == name || NameFree(v, shelf, v.shelves[shelf].parent, name))
    ensures ShelfPlans.PlanRename(v, shelf, name) == Err(Changed) <==> !Shown(v, shelf)
    ensures ShelfPlans.PlanRename(v, shelf, name) == Err(BadName) <==>
              Shown(v, shelf) && !GoodName(v.shelves[shelf].parent, name)
    ensures ShelfPlans.PlanRename(v, shelf, name) == Err(Conflict) <==>
              && Shown(v, shelf) && GoodName(v.shelves[shelf].parent, name)
              && v.shelves[shelf].name != name && !NameFree(v, shelf, v.shelves[shelf].parent, name)
    ensures ShelfPlans.PlanRename(v, shelf, name) == Ok([]) <==>
              Shown(v, shelf) && v.shelves[shelf].name == name && GoodName(v.shelves[shelf].parent, name)
  {
    if shelf in v.shelves {
      BadNameIs(v.shelves[shelf].parent, name);
      NameTakenIs(v, v.shelves[shelf].parent, name, shelf);
    }
  }

  // The shelf as the move would leave it.
  function MovedName(v: Snapshot, shelf: string, rename: string): string
    requires shelf in v.shelves
  { if rename == "" then v.shelves[shelf].name else rename }

  // A shelf can go anywhere but below itself.
  lemma MoveShelfAcceptedIff(v: Snapshot, shelf: string, parent: string, rename: string)
    ensures ShelfPlans.PlanMove(v, shelf, parent, rename).Ok? <==>
              && Shown(v, shelf) && Somewhere(v, parent) && GoodName(parent, MovedName(v, shelf, rename))
              && (parent != "" ==> !Ancestor(v, parent, shelf))
              && ((v.shelves[shelf].parent == parent && v.shelves[shelf].name == MovedName(v, shelf, rename))
                  || NameFree(v, shelf, parent, MovedName(v, shelf, rename)))
    ensures ShelfPlans.PlanMove(v, shelf, parent, rename) == Err(Changed) <==> !Shown(v, shelf) || !Somewhere(v, parent)
    ensures ShelfPlans.PlanMove(v, shelf, parent, rename) == Err(BadName) <==>
              Shown(v, shelf) && Somewhere(v, parent) && !GoodName(parent, MovedName(v, shelf, rename))
    ensures ShelfPlans.PlanMove(v, shelf, parent, rename).Err? ==>
              ShelfPlans.PlanMove(v, shelf, parent, rename).error in {Changed, BadName, Cycle, Conflict}
    ensures ShelfPlans.PlanMove(v, shelf, parent, rename) == Err(Cycle) <==>
              && Shown(v, shelf) && Somewhere(v, parent) && GoodName(parent, MovedName(v, shelf, rename))
              && parent != "" && Ancestor(v, parent, shelf)
  {
    if shelf in v.shelves && Visible(v, shelf) && (parent == "" || Visible(v, parent)) {
      BadNameIs(parent, MovedName(v, shelf, rename));
      NameTakenIs(v, parent, MovedName(v, shelf, rename), shelf);
      if parent != "" {
        WithinIsAncestry(v, parent, shelf);
        VisibleIsShown(v, parent);
      }
    } else if parent != "" {
      VisibleIsShown(v, parent);
    }
  }

  lemma DeleteAcceptedIff(v: Snapshot, shelf: string)
    ensures ShelfDelete.PlanDelete(v, shelf).Ok? <==> Shown(v, shelf)
    ensures ShelfDelete.PlanDelete(v, shelf).Err? ==> ShelfDelete.PlanDelete(v, shelf).error == Changed
  {}

  // ---- books ----

  ghost predicate LiveOn(v: Snapshot, book: string, shelf: string) {
    exists m :: m in v.members && v.members[m].live && v.members[m].book == book && v.members[m].shelf == shelf
  }

  // Membership `m` puts the book on a shelf that can be seen.
  ghost predicate Puts(v: Snapshot, m: string, book: string) {
    m in v.members && v.members[m].live && v.members[m].book == book && Shown(v, v.members[m].shelf)
  }

  ghost predicate AtTop(v: Snapshot, book: string) { forall m :: !Puts(v, m, book) }

  ghost predicate OnOneAtMost(v: Snapshot, book: string) {
    forall m, n :: Puts(v, m, book) && Puts(v, n, book) ==> m == n
  }

  lemma MembershipsAre(v: Snapshot, book: string)
    ensures forall m :: m in Memberships(v, book) <==> Puts(v, m, book)
    ensures Memberships(v, book) == {} <==> AtTop(v, book)
    ensures |Memberships(v, book)| > 1 <==> !OnOneAtMost(v, book)
  {
    var s := Memberships(v, book);
    forall m ensures m in s <==> Puts(v, m, book) {}
    if m, n :| Puts(v, m, book) && Puts(v, n, book) && m != n {
      assert {m, n} <= s;
      SubsetSize({m, n}, s);
    } else if s != {} {
      var m :| m in s;
      assert s == {m};
    }
  }

  lemma {:induction false} SubsetSize<T>(a: set<T>, b: set<T>)
    requires a <= b
    ensures |a| <= |b|
  {
    assert b == a + (b - a);
  }

  lemma LiveIsFound(v: Snapshot, book: string, shelf: string)
    ensures FoundLive(v, book, shelf) <==> LiveOn(v, book, shelf)
  {
    if LiveOn(v, book, shelf) {
      var m :| m in v.members && v.members[m].live && v.members[m].book == book && v.members[m].shelf == shelf;
      assert m in On(v, book, shelf, true);
    }
    if FoundLive(v, book, shelf) {
      var m :| m in On(v, book, shelf, true);
    }
  }

  ghost predicate InLibrary(v: Snapshot, book: string) { book in v.books && v.books[book].live }

  // A book is added where it is already, or as the first shelf it is on.
  lemma AddAcceptedIff(v: Snapshot, mint: Mint, book: string, shelf: string)
    ensures var r, there := PlanAdd(v, mint, book, shelf), exists m :: Puts(v, m, book) && v.members[m].shelf == shelf;
            && (r.Ok? <==> InLibrary(v, book) && Shown(v, shelf) && (there || AtTop(v, book)))
            && (r.Err? ==> r.error == OneShelf || r.error == Changed)
            && (r == Err(OneShelf) <==> InLibrary(v, book) && Shown(v, shelf) && !there && !AtTop(v, book))
  {
    MembershipsAre(v, book);
  }

  lemma MoveBookAcceptedIff(v: Snapshot, mint: Mint, book: string, from: string, to: string)
    ensures PlanMove(v, mint, book, from, to).Ok? <==>
              && InLibrary(v, book) && (to == "" || Shown(v, to))
              && (if from == "" then AtTop(v, book)
                  else LiveOn(v, book, from) && Shown(v, from) && (from == to || to != "" || OnOneAtMost(v, book)))
    ensures PlanMove(v, mint, book, from, to).Err? ==> PlanMove(v, mint, book, from, to).error in {OneShelf, Changed}
    ensures PlanMove(v, mint, book, from, to) == Err(OneShelf) <==>
              && InLibrary(v, book) && to == "" && from != ""
              && LiveOn(v, book, from) && Shown(v, from) && !OnOneAtMost(v, book)
  {
    MembershipsAre(v, book);
    LiveIsFound(v, book, from);
  }

  lemma RemoveAcceptedIff(v: Snapshot, book: string, from: string)
    ensures PlanRemove(v, book, from).Ok? <==>
              && InLibrary(v, book)
              && (if from == "" then AtTop(v, book) else LiveOn(v, book, from) && Shown(v, from))
    ensures PlanRemove(v, book, from).Err? ==> PlanRemove(v, book, from).error == Changed
  {
    MembershipsAre(v, book);
    LiveIsFound(v, book, from);
  }

  lemma RestoreAcceptedIff(v: Snapshot, mint: Mint, book: string, to: string)
    ensures PlanRestore(v, mint, book, to).Ok? <==>
              book in v.books && !v.books[book].live && (to == "" || Shown(v, to))
    ensures PlanRestore(v, mint, book, to).Err? ==> PlanRestore(v, mint, book, to).error == Changed
  {}
}
