// Creating, renaming and moving shelves.
module ShelfPlans {
  import opened Outcomes
  import opened Library
  import opened LibraryFrames
  import Names

  predicate NameTaken(v: Snapshot, parent: string, name: string, except: string) {
    exists id :: id in v.shelves && v.shelves[id].live && v.shelves[id].parent == parent
                 && v.shelves[id].name == name && id != except
  }

  predicate BadShelfName(parent: string, name: string) {
    !Names.Valid(name) || (parent == "" && name == Names.TRASH)
  }

  function PlanCreate(v: Snapshot, id: string, parent: string, name: string): Plan {
    if BadShelfName(parent, name) then Err(BadName)
    else if parent != "" && !Visible(v, parent) then Err(Changed)
    else if NameTaken(v, parent, name, "") then Err(Conflict)
    else Ok([Op(id, "", "", NewShelf(Shelf(parent, name, "", "", true, true)))])
  }

  function PlanRename(v: Snapshot, shelf: string, name: string): Plan {
    if !Visible(v, shelf) || shelf !in v.shelves then Err(Changed)
    else
      var f := v.shelves[shelf];
      if BadShelfName(f.parent, name) then Err(BadName)
      else if f.name == name then Ok([])
      else if NameTaken(v, f.parent, name, shelf) then Err(Conflict)
      else Ok([Update(shelf, f.revision, f.head, SetShelf(Some(name), None, None))])
  }

  function PlanMove(v: Snapshot, shelf: string, parent: string, rename: string): Plan {
    if !Visible(v, shelf) || shelf !in v.shelves || (parent != "" && !Visible(v, parent)) then Err(Changed)
    else
      var f := v.shelves[shelf];
      var name := if rename == "" then f.name else rename;
      if BadShelfName(parent, name) then Err(BadName)
      else if Within(v, parent, shelf, MAX_DEPTH) then Err(Cycle)
      else if f.parent == parent && f.name == name then Ok([])
      else if NameTaken(v, parent, name, shelf) then Err(Conflict)
      else Ok([Update(shelf, f.revision, f.head,
                      SetShelf(if name != f.name then Some(name) else None, Some(parent), None))])
  }

  // Two live shelves under one parent with the same name.
  predicate Clash(v: Snapshot, a: string, b: string) {
    && a in v.shelves && b in v.shelves && a != b
    && v.shelves[a].live && v.shelves[b].live
    && v.shelves[a].parent == v.shelves[b].parent && v.shelves[a].name == v.shelves[b].name
  }

  ghost predicate SiblingsDistinct(v: Snapshot) { forall a, b :: !Clash(v, a, b) }

  lemma FreeNameKeeps(v: Snapshot, w: Snapshot, id: string, parent: string, name: string)
    requires SiblingsDistinct(v) && !NameTaken(v, parent, name, id)
    requires id in w.shelves && w.shelves[id].parent == parent && w.shelves[id].name == name
    requires forall a <- w.shelves :: a != id ==> a in v.shelves && w.shelves[a] == v.shelves[a]
    ensures SiblingsDistinct(w)
  {
    forall a, b ensures !Clash(w, a, b) {
      assert !Clash(v, a, b);
    }
  }

  // Creating, renaming and moving keep sibling names distinct.
  lemma CreateKeepsNames(v: Snapshot, id: string, parent: string, name: string, heads: string -> string)
    requires SiblingsDistinct(v) && "" !in v.shelves && PlanCreate(v, id, parent, name).Ok? && id !in v.shelves
    ensures SiblingsDistinct(Apply(v, PlanCreate(v, id, parent, name).value, heads))
  {
    var ops := PlanCreate(v, id, parent, name).value;
    ApplyOne(v, ops[0], heads);
    assert !NameTaken(v, parent, name, id);
    FreeNameKeeps(v, Apply(v, ops, heads), id, parent, name);
  }

  lemma RenameKeepsNames(v: Snapshot, shelf: string, name: string, heads: string -> string)
    requires SiblingsDistinct(v) && PlanRename(v, shelf, name).Ok?
    ensures SiblingsDistinct(Apply(v, PlanRename(v, shelf, name).value, heads))
  {
    var ops := PlanRename(v, shelf, name).value;
    if ops != [] {
      ApplyOne(v, ops[0], heads);
      FreeNameKeeps(v, Apply(v, ops, heads), shelf, v.shelves[shelf].parent, name);
    }
  }

  lemma MoveKeepsNames(v: Snapshot, shelf: string, parent: string, rename: string, heads: string -> string)
    requires SiblingsDistinct(v) && PlanMove(v, shelf, parent, rename).Ok?
    ensures SiblingsDistinct(Apply(v, PlanMove(v, shelf, parent, rename).value, heads))
  {
    var ops := PlanMove(v, shelf, parent, rename).value;
    if ops != [] {
      ApplyOne(v, ops[0], heads);
      var name := if rename == "" then v.shelves[shelf].name else rename;
      FreeNameKeeps(v, Apply(v, ops, heads), shelf, parent, name);
    }
  }

  // `w` is `v` with one shelf put under another parent.
  ghost predicate Moved(v: Snapshot, w: Snapshot, shelf: string, parent: string) {
    && shelf in v.shelves && w.shelves.Keys == v.shelves.Keys && w.shelves[shelf].parent == parent
    && (forall id <- v.shelves ::
          && w.shelves[id].live == v.shelves[id].live && w.shelves[id].native == v.shelves[id].native
          && (id != shelf ==> w.shelves[id].parent == v.shelves[id].parent))
  }

  lemma MoveMoves(v: Snapshot, shelf: string, parent: string, rename: string, heads: string -> string)
    requires PlanMove(v, shelf, parent, rename).Ok?
    ensures Moved(v, Apply(v, PlanMove(v, shelf, parent, rename).value, heads), shelf, parent)
  {
    var ops := PlanMove(v, shelf, parent, rename).value;
    if ops != [] { ApplyOne(v, ops[0], heads); }
  }

  lemma {:induction false} ChainEnds(v: Snapshot, at: string, depth: nat)
    requires Chain(v, at, depth)
    ensures Ends(v, at, depth)
    decreases depth
  {
    if at != "" { ChainEnds(v, v.shelves[at].parent, depth - 1); }
  }

  // A walk that never meets the moved shelf is the same before and after.
  lemma {:induction false} WalkAvoids(v: Snapshot, w: Snapshot, shelf: string, parent: string, at: string, n: nat)
    requires Moved(v, w, shelf, parent) && !Ancestor(v, at, shelf)
    ensures Ends(w, at, n) == Ends(v, at, n) && Chain(w, at, n) == Chain(v, at, n)
    decreases n
  {
    assert !Within(v, at, shelf, 1);
    if at != "" && at in v.shelves && n > 0 {
      var up := v.shelves[at].parent;
      if Ancestor(v, up, shelf) {
        var k: nat :| Within(v, up, shelf, k);
        assert Within(v, at, shelf, k + 1);
      }
      WalkAvoids(v, w, shelf, parent, up, n - 1);
    }
  }

  lemma AcceptedParentAvoids(v: Snapshot, shelf: string, parent: string, rename: string)
    requires PlanMove(v, shelf, parent, rename).Ok?
    ensures parent != "" ==> !Ancestor(v, parent, shelf)
  {
    if parent != "" { WithinIsAncestry(v, parent, shelf); }
  }

  // An accepted move strands no shelf: every walk to the top that ended still ends.
  lemma {:induction false} MoveKeepsForest(
      v: Snapshot, shelf: string, parent: string, rename: string, heads: string -> string, at: string, n: nat)
    requires PlanMove(v, shelf, parent, rename).Ok? && Ends(v, at, n)
    ensures exists m: nat :: Ends(Apply(v, PlanMove(v, shelf, parent, rename).value, heads), at, m)
    decreases n
  {
    var w := Apply(v, PlanMove(v, shelf, parent, rename).value, heads);
    MoveMoves(v, shelf, parent, rename, heads);
    AcceptedParentAvoids(v, shelf, parent, rename);
    if at == "" || at !in v.shelves {
      assert Ends(w, at, 0);
    } else if at == shelf {
      if parent != "" {
        ChainEnds(v, parent, MAX_DEPTH);
        WalkAvoids(v, w, shelf, parent, parent, MAX_DEPTH);
      }
      assert Ends(w, parent, MAX_DEPTH);
      assert Ends(w, at, MAX_DEPTH + 1);
    } else {
      var up := v.shelves[at].parent;
      MoveKeepsForest(v, shelf, parent, rename, heads, up, n - 1);
      var m: nat :| Ends(w, up, m);
      assert Ends(w, at, m + 1);
    }
  }

  // Nothing checks the depth the moved shelf ends at: it stays visible exactly
  // when its new parent lies within one shelf less than the limit.
  lemma MovedShelfVisibleIff(v: Snapshot, shelf: string, parent: string, rename: string, heads: string -> string)
    requires PlanMove(v, shelf, parent, rename).Ok? && "" !in v.shelves
    ensures Visible(Apply(v, PlanMove(v, shelf, parent, rename).value, heads), shelf)
            <==> Chain(v, parent, MAX_DEPTH - 1)
  {
    var w := Apply(v, PlanMove(v, shelf, parent, rename).value, heads);
    MoveMoves(v, shelf, parent, rename, heads);
    AcceptedParentAvoids(v, shelf, parent, rename);
    if parent != "" { WalkAvoids(v, w, shelf, parent, parent, MAX_DEPTH - 1); }
    assert Native(v, shelf) && Native(w, shelf);
    assert Chain(w, shelf, MAX_DEPTH) == Chain(w, parent, MAX_DEPTH - 1);
  }

  // A walk through visible shelves never meets a shelf that is not there yet.
  lemma {:induction false} WalkMissesNew(v: Snapshot, w: Snapshot, at: string, m: nat, n: nat)
    requires Chain(v, at, m) && forall id <- v.shelves :: id in w.shelves && w.shelves[id] == v.shelves[id]
    ensures Chain(w, at, n) == Chain(v, at, n)
    decreases m
  {
    if at != "" && n > 0 { WalkMissesNew(v, w, v.shelves[at].parent, m - 1, n - 1); }
  }

  // Creating adds the one shelf; nothing checks its depth, so it is visible
  // exactly when its parent lies within one shelf less than the limit.
  lemma CreatedShelfVisibleIff(v: Snapshot, id: string, parent: string, name: string, heads: string -> string)
    requires PlanCreate(v, id, parent, name).Ok? && id !in v.shelves && id != "" && "" !in v.shelves
    ensures var w := Apply(v, PlanCreate(v, id, parent, name).value, heads);
            && w == v.(shelves := w.shelves) && w.shelves.Keys == v.shelves.Keys + {id}
            && (forall s <- v.shelves :: w.shelves[s] == v.shelves[s])
            && w.shelves[id].parent == parent && w.shelves[id].name == name && w.shelves[id].head == heads(id)
            && (Visible(w, id) <==> Chain(v, parent, MAX_DEPTH - 1))
  {
    var op := PlanCreate(v, id, parent, name).value[0];
    ApplyOne(v, op, heads);
    var w := Change(v, op, heads(id));
    if parent != "" { WalkMissesNew(v, w, parent, MAX_DEPTH, MAX_DEPTH - 1); }
    assert Native(w, id);
  }

  // The same tree, whatever the names.
  ghost predicate SameTree(v: Snapshot, w: Snapshot) {
    && w.shelves.Keys == v.shelves.Keys
    && (forall id <- v.shelves :: w.shelves[id].parent == v.shelves[id].parent
          && w.shelves[id].live == v.shelves[id].live && w.shelves[id].native == v.shelves[id].native)
  }

  lemma {:induction false} TreeDecidesChain(v: Snapshot, w: Snapshot, at: string, depth: nat)
    requires SameTree(v, w)
    ensures Chain(w, at, depth) == Chain(v, at, depth)
    decreases depth
  {
    if at != "" && depth > 0 && at in v.shelves { TreeDecidesChain(v, w, v.shelves[at].parent, depth - 1); }
  }

  // Renaming gives the shelf its name, hides and shows nothing, and leaves every
  // other record as it is.
  lemma RenameKeepsTree(v: Snapshot, shelf: string, name: string, heads: string -> string, at: string)
    requires PlanRename(v, shelf, name).Ok?
    ensures var w := Apply(v, PlanRename(v, shelf, name).value, heads);
            && w.books == v.books && w.members == v.members && SameTree(v, w) && w.shelves[shelf].name == name
            && (forall s <- v.shelves :: s != shelf ==> w.shelves[s] == v.shelves[s])
            && (Visible(w, at) <==> Visible(v, at))
  {
    var ops := PlanRename(v, shelf, name).value;
    if ops != [] { ApplyOne(v, ops[0], heads); } else { assert Apply(v, [], heads) == v; }
    TreeDecidesChain(v, Apply(v, ops, heads), at, MAX_DEPTH);
  }
}
