// Moving, trashing or restoring several books in one plan.
module BookBatch {
  import opened Outcomes
  import opened Ordering
  import opened Library
  import opened LibraryFrames
  import opened BookPlans
  import opened BookCounts

  datatype Task = Move | Trash | Restore

  // The visible shelf a book is on, or the top level.
  ghost function ShelfOf(v: Snapshot, book: string): string {
    var ids := SortedIds(Memberships(v, book));
    if ids == [] then "" else assert ids[0] in ids; v.members[ids[0]].shelf
  }

  ghost function PlanOne(v: Snapshot, mint: Mint, task: Task, book: string, folder: string): Plan {
    if book !in v.books then Err(Changed)
    else match task
      case Move => PlanMove(v, mint, book, ShelfOf(v, book), folder)
      case Trash => PlanRemove(v, book, ShelfOf(v, book))
      case Restore => PlanRestore(v, mint, book, folder)
  }

  // All the books from one snapshot; the first refusal refuses the batch.
  ghost function PlanBatch(v: Snapshot, mint: Mint, task: Task, books: seq<string>, folder: string): Plan
    decreases |books|
  {
    if books == [] then Ok([])
    else
      match PlanOne(v, mint, task, books[0], folder)
      case Err(e) => Err(e)
      case Ok(ops) =>
        match PlanBatch(v, mint, task, books[1..], folder)
        case Err(e) => Err(e)
        case Ok(rest) => Ok(ops + rest)
  }

  // The same, planned and carried out book by book.
  ghost function OneByOne(v: Snapshot, mint: Mint, task: Task, books: seq<string>, folder: string,
                          heads: string -> string): Result<Snapshot, Refusal>
    decreases |books|
  {
    if books == [] then Ok(v)
    else
      match PlanOne(v, mint, task, books[0], folder)
      case Err(e) => Err(e)
      case Ok(ops) => OneByOne(Apply(v, ops, heads), mint, task, books[1..], folder, heads)
  }

  ghost function Then(ops: seq<Op>, r: Plan): Plan {
    match r
    case Err(e) => Err(e)
    case Ok(rest) => Ok(ops + rest)
  }

  lemma ThenMore(ops: seq<Op>, more: seq<Op>, r: Plan)
    ensures Then([], r) == r && Then(ops, Then(more, r)) == Then(ops + more, r)
  {
    if r.Ok? {
      assert [] + r.value == r.value;
      assert ops + (more + r.value) == ops + more + r.value;
    }
  }

  // The batch as the form handler runs it.
  method Batch(v: Snapshot, mint: Mint, task: Task, books: seq<string>, folder: string) returns (r: Plan)
    ensures r == PlanBatch(v, mint, task, books, folder)
  {
    var ops: seq<Op> := [];
    assert books[0..] == books;
    ThenMore([], [], PlanBatch(v, mint, task, books, folder));
    for i := 0 to |books|
      invariant PlanBatch(v, mint, task, books, folder) == Then(ops, PlanBatch(v, mint, task, books[i..], folder))
    {
      assert books[i..][1..] == books[i + 1..];
      var step := PlanNext(v, mint, task, books[i], folder);
      if step.Err? { return step; }
      ThenMore(ops, step.value, PlanBatch(v, mint, task, books[i + 1..], folder));
      ops := ops + step.value;
    }
    assert ops + [] == ops;
    return Ok(ops);
  }

  method PlanNext(v: Snapshot, mint: Mint, task: Task, book: string, folder: string) returns (r: Plan)
    ensures r == PlanOne(v, mint, task, book, folder)
  {
    if book !in v.books { return Err(Changed); }
    var members := SortIds(Memberships(v, book));
    AllMemberships(v, book);
    var shelf := if |members| > 0 then v.members[members[0]].shelf else "";
    match task {
      case Move => r := BookPlans.Move(v, mint, book, shelf, folder);
      case Trash => r := Remove(v, book, shelf);
      case Restore => r := BookPlans.Restore(v, mint, book, folder);
    }
  }

  // ---- what a plan for one book writes ----

  ghost predicate InBook(v: Snapshot, m: string, book: string) { m in v.members && v.members[m].book == book }

  ghost predicate Within1(v: Snapshot, mint: Mint, book: string, ops: seq<Op>) {
    OncePerRecord(ops) && forall op <- ops :: OpOf(v, mint, book, op)
  }

  lemma ShelveWithin(v: Snapshot, mint: Mint, book: string, shelf: string)
    ensures Within1(v, mint, book, Shelve(v, mint, book, shelf))
    ensures forall op <- Shelve(v, mint, book, shelf) :: !op.action.SetBook?
  {
    FoundIs(v, book, shelf);
  }

  lemma MemberWithin(v: Snapshot, mint: Mint, book: string, m: string, action: Action)
    requires InBook(v, m, book) && action.SetMember?
    ensures Within1(v, mint, book, [MemberUpdate(v, m, action)])
  {}

  lemma FoundInBook(v: Snapshot, book: string, shelf: string)
    ensures Found(v, book, shelf).Some? ==> InBook(v, Found(v, book, shelf).value, book)
  {
    FoundIs(v, book, shelf);
  }

  lemma MoveOffWithin(v: Snapshot, mint: Mint, book: string, from: string, to: string)
    requires MoveOff(v, book, from, to).Ok?
    ensures Within1(v, mint, book, MoveOff(v, book, from, to).value)
  {
    FoundDecides(v, book, from);
    FoundInBook(v, book, from);
    if from != to {
      var m := Found(v, book, from).value;
      MemberWithin(v, mint, book, m, SetMember(Some(""), Some(false)));
      MemberWithin(v, mint, book, m, SetLive(false));
      MemberWithin(v, mint, book, m, SetMember(Some(to), None));
    }
  }

  lemma MoveWithin(v: Snapshot, mint: Mint, book: string, from: string, to: string)
    requires PlanMove(v, mint, book, from, to).Ok?
    ensures Within1(v, mint, book, PlanMove(v, mint, book, from, to).value)
  {
    ShelveWithin(v, mint, book, to);
    if from != "" { MoveOffWithin(v, mint, book, from, to); }
  }

  lemma RemoveWithin(v: Snapshot, mint: Mint, book: string, from: string)
    requires PlanRemove(v, book, from).Ok? && WellFormed(v)
    ensures Within1(v, mint, book, PlanRemove(v, book, from).value)
  {
    if from != "" {
      FoundDecides(v, book, from);
      FoundInBook(v, book, from);
      var m := Found(v, book, from).value;
      assert m != book;
      MemberWithin(v, mint, book, m, SetLive(false));
    }
  }

  lemma {:induction false} EndedWithin(v: Snapshot, mint: Mint, book: string, ids: seq<string>)
    requires forall m <- ids :: m in v.members && v.members[m].book == book
    requires forall i, j :: 0 <= i < j < |ids| ==> ids[i] != ids[j]
    ensures Within1(v, mint, book, Ended(v, ids))
    ensures forall op <- Ended(v, ids) :: op.id in ids && op.action.SetMember?
    decreases |ids|
  {
    if ids != [] {
      EndedWithin(v, mint, book, ids[..|ids| - 1]);
      OnceConcat(Ended(v, ids[..|ids| - 1]), [MemberUpdate(v, ids[|ids| - 1], SetLive(false))]);
    }
  }

  lemma KeptWithin(v: Snapshot, mint: Mint, book: string, ids: seq<string>, to: string)
    requires ids != [] && (forall m <- ids :: m in v.members && v.members[m].book == book)
    requires forall i, j :: 0 <= i < j < |ids| ==> ids[i] != ids[j]
    ensures Within1(v, mint, book, Kept(v, ids[0], to) + Ended(v, ids[1..]))
    ensures forall op <- Kept(v, ids[0], to) + Ended(v, ids[1..]) :: op.action.SetMember?
  {
    assert ids[0] !in ids[1..];
    EndedWithin(v, mint, book, ids[1..]);
    OnceConcat(Kept(v, ids[0], to), Ended(v, ids[1..]));
  }

  lemma RegatheredWithin(v: Snapshot, mint: Mint, book: string, to: string)
    ensures Within1(v, mint, book, Regathered(v, mint, book, to))
    ensures forall op <- Regathered(v, mint, book, to) :: !op.action.SetBook?
  {
    var ids := SortedIds(Memberships(v, book));
    AllMemberships(v, book);
    if ids != [] {
      KeptWithin(v, mint, book, ids, to);
    } else {
      ShelveWithin(v, mint, book, to);
    }
  }

  lemma RestoreWithin(v: Snapshot, mint: Mint, book: string, to: string)
    requires PlanRestore(v, mint, book, to).Ok? && WellFormed(v) && Unused(v, mint, book)
    ensures Within1(v, mint, book, PlanRestore(v, mint, book, to).value)
  {
    RegatheredWithin(v, mint, book, to);
    forall op <- Regathered(v, mint, book, to) ensures op.id != book {
      assert OpOf(v, mint, book, op);
    }
    OnceConcat([BookUpdate(v, book, true)], Regathered(v, mint, book, to));
  }

  lemma PlanWithin(v: Snapshot, mint: Mint, task: Task, book: string, folder: string)
    requires PlanOne(v, mint, task, book, folder).Ok? && WellFormed(v) && Unused(v, mint, book)
    ensures Within1(v, mint, book, PlanOne(v, mint, task, book, folder).value)
  {
    match task
    case Move => MoveWithin(v, mint, book, ShelfOf(v, book), folder);
    case Trash => RemoveWithin(v, mint, book, ShelfOf(v, book));
    case Restore => RestoreWithin(v, mint, book, folder);
  }

  // ---- a plan sees only its own book ----

  ghost predicate SameBook(v: Snapshot, w: Snapshot, book: string) {
    && w.shelves == v.shelves
    && (book in v.books <==> book in w.books) && (book in v.books ==> v.books[book] == w.books[book])
    && (forall m :: InBook(v, m, book) <==> InBook(w, m, book))
    && (forall m :: InBook(v, m, book) ==> v.members[m] == w.members[m])
  }

  lemma SameSets(v: Snapshot, w: Snapshot, book: string)
    requires SameBook(v, w, book)
    ensures Memberships(v, book) == Memberships(w, book)
    ensures forall s, l :: On(v, book, s, l) == On(w, book, s, l)
  {
    ShownSame(v, w);
    forall m ensures m in Memberships(v, book) <==> m in Memberships(w, book) {
      assert InBook(v, m, book) <==> InBook(w, m, book);
    }
    forall s, l ensures On(v, book, s, l) == On(w, book, s, l) {
      forall m ensures m in On(v, book, s, l) <==> m in On(w, book, s, l) {
        assert InBook(v, m, book) <==> InBook(w, m, book);
      }
    }
  }

  lemma SameFound(v: Snapshot, w: Snapshot, mint: Mint, book: string, shelf: string)
    requires SameBook(v, w, book)
    ensures Found(v, book, shelf) == Found(w, book, shelf) && FoundLive(v, book, shelf) == FoundLive(w, book, shelf)
    ensures Found(v, book, shelf).Some? ==> InBook(v, Found(v, book, shelf).value, book)
    ensures Shelve(v, mint, book, shelf) == Shelve(w, mint, book, shelf)
  {
    SameSets(v, w, book);
    FoundIs(v, book, shelf);
  }

  lemma {:induction false} SameEnded(v: Snapshot, w: Snapshot, book: string, ids: seq<string>)
    requires SameBook(v, w, book) && forall m <- ids :: InBook(v, m, book)
    ensures (forall m <- ids :: m in w.members) && Ended(v, ids) == Ended(w, ids)
    decreases |ids|
  {
    forall m <- ids ensures m in w.members { assert InBook(w, m, book); }
    if ids != [] {
      assert InBook(v, ids[|ids| - 1], book);
      SameEnded(v, w, book, ids[..|ids| - 1]);
    }
  }

  lemma SameMoveOff(v: Snapshot, w: Snapshot, mint: Mint, book: string, from: string, to: string)
    requires SameBook(v, w, book)
    ensures MoveOff(v, book, from, to) == MoveOff(w, book, from, to)
  {
    SameSets(v, w, book);
    ChainSame(v, w, from, MAX_DEPTH);
    SameFound(v, w, mint, book, from);
  }

  lemma SameMove(v: Snapshot, w: Snapshot, mint: Mint, book: string, from: string, to: string)
    requires SameBook(v, w, book)
    ensures PlanMove(v, mint, book, from, to) == PlanMove(w, mint, book, from, to)
  {
    SameSets(v, w, book);
    ChainSame(v, w, to, MAX_DEPTH);
    SameFound(v, w, mint, book, to);
    SameMoveOff(v, w, mint, book, from, to);
  }

  lemma SameRemove(v: Snapshot, w: Snapshot, mint: Mint, book: string, from: string)
    requires SameBook(v, w, book)
    ensures PlanRemove(v, book, from) == PlanRemove(w, book, from)
  {
    SameSets(v, w, book);
    ShownSame(v, w);
    SameFound(v, w, mint, book, from);
  }

  lemma SameKept(v: Snapshot, w: Snapshot, book: string, ids: seq<string>, to: string)
    requires SameBook(v, w, book) && ids != [] && forall m <- ids :: InBook(v, m, book)
    ensures ids[0] in v.members && ids[0] in w.members && forall m <- ids[1..] :: m in v.members && m in w.members
    ensures Kept(v, ids[0], to) + Ended(v, ids[1..]) == Kept(w, ids[0], to) + Ended(w, ids[1..])
  {
    assert InBook(v, ids[0], book) && InBook(w, ids[0], book);
    SameEnded(v, w, book, ids[1..]);
  }

  lemma SameRegathered(v: Snapshot, w: Snapshot, mint: Mint, book: string, to: string)
    requires SameBook(v, w, book)
    ensures Regathered(v, mint, book, to) == Regathered(w, mint, book, to)
  {
    SameSets(v, w, book);
    var ids := SortedIds(Memberships(v, book));
    if ids != [] {
      AllMemberships(v, book);
      SameKept(v, w, book, ids, to);
    } else {
      SameFound(v, w, mint, book, to);
    }
  }

  lemma SameRestore(v: Snapshot, w: Snapshot, mint: Mint, book: string, to: string)
    requires SameBook(v, w, book)
    ensures PlanRestore(v, mint, book, to) == PlanRestore(w, mint, book, to)
  {
    ChainSame(v, w, to, MAX_DEPTH);
    SameRegathered(v, w, mint, book, to);
  }

  lemma SamePlan(v: Snapshot, w: Snapshot, mint: Mint, task: Task, book: string, folder: string)
    requires SameBook(v, w, book)
    ensures PlanOne(v, mint, task, book, folder) == PlanOne(w, mint, task, book, folder)
  {
    SameSets(v, w, book);
    var shelf := ShelfOf(v, book);
    assert shelf == ShelfOf(w, book) by {
      var ids := SortedIds(Memberships(v, book));
      AllMemberships(v, book);
      if ids != [] { assert InBook(v, ids[0], book); }
    }
    SameMove(v, w, mint, book, shelf, folder);
    SameRemove(v, w, mint, book, shelf);
    SameRestore(v, w, mint, book, folder);
  }

  // ---- carrying out one book's plan leaves the others alone ----

  // Different books never get the same new id.
  ghost predicate Separate(mint: Mint) {
    forall a, s, b, t :: mint(a, s) == mint(b, t) ==> a == b
  }

  lemma OthersOneOp(v: Snapshot, mint: Mint, a: string, op: Op, head: string, b: string)
    requires OpOf(v, mint, a, op) && a != b && Separate(mint) && Unused(v, mint, b)
    requires op.action.NewMember? ==> op.id !in v.members
    ensures SameBook(v, Change(v, op, head), b) && Unused(Change(v, op, head), mint, b)
  {
    var w := Change(v, op, head);
    forall m ensures (InBook(v, m, b) <==> InBook(w, m, b)) && (InBook(v, m, b) ==> v.members[m] == w.members[m]) {}
  }

  lemma OpOfSteady(v: Snapshot, op: Op, head: string, mint: Mint, a: string, later: Op)
    requires OpOf(v, mint, a, op) && OpOf(v, mint, a, later)
    requires op.id != later.id && (later.action.NewMember? ==> later.id !in v.members)
    ensures OpOf(Change(v, op, head), mint, a, later)
    ensures later.action.NewMember? ==> later.id !in Change(v, op, head).members
  {}

  lemma {:induction false} OthersStay(v: Snapshot, mint: Mint, a: string, ops: seq<Op>, heads: string -> string, b: string)
    requires Within1(v, mint, a, ops) && a != b && Separate(mint) && Unused(v, mint, b)
    requires forall op <- ops :: op.action.NewMember? ==> op.id !in v.members
    ensures SameBook(v, Apply(v, ops, heads), b) && Unused(Apply(v, ops, heads), mint, b)
    decreases |ops|
  {
    if ops == [] {
      assert Apply(v, [], heads) == v;
    } else {
      var op, rest := ops[0], ops[1..];
      assert ops == [op] + rest;
      ApplyConcat(v, [op], rest, heads);
      ApplyOne(v, op, heads);
      var u := Change(v, op, heads(op.id));
      OthersOneOp(v, mint, a, op, heads(op.id), b);
      forall later <- rest ensures OpOf(u, mint, a, later)
        && (later.action.NewMember? ==> later.id !in u.members)
      {
        var k :| 0 <= k < |rest| && rest[k] == later;
        assert ops[k + 1] == later && ops[0].id != ops[k + 1].id;
        OpOfSteady(v, op, heads(op.id), mint, a, later);
      }
      assert OncePerRecord(rest) by {
        forall i, j | 0 <= i < j < |rest| ensures rest[i].id != rest[j].id {
          assert ops[i + 1].id != ops[j + 1].id;
        }
      }
      OthersStay(u, mint, a, rest, heads, b);
      SameBookTransitive(v, u, Apply(u, rest, heads), b);
    }
  }

  lemma SameBookTransitive(u: Snapshot, v: Snapshot, w: Snapshot, book: string)
    requires SameBook(u, v, book) && SameBook(v, w, book)
    ensures SameBook(u, w, book)
  {
    forall m ensures (InBook(u, m, book) <==> InBook(w, m, book)) && (InBook(u, m, book) ==> u.members[m] == w.members[m]) {
      assert InBook(v, m, book) <==> InBook(u, m, book);
    }
  }

  // ---- the batch and the runs book by book ----

  ghost predicate Distinct(books: seq<string>) {
    forall i, j :: 0 <= i < j < |books| ==> books[i] != books[j]
  }

  // `u` is how far a run has come from `v`, with `books` still to do.
  ghost predicate Ahead(v: Snapshot, u: Snapshot, mint: Mint, books: seq<string>) {
    forall b <- books :: SameBook(v, u, b) && Unused(v, mint, b) && Unused(u, mint, b)
  }

  lemma {:induction false} RunFollowsBatch(v: Snapshot, u: Snapshot, mint: Mint, task: Task, books: seq<string>,
                                           folder: string, heads: string -> string)
    requires WellFormed(v) && Separate(mint) && Distinct(books) && Ahead(v, u, mint, books)
    ensures OneByOne(u, mint, task, books, folder, heads)
            == match PlanBatch(v, mint, task, books, folder)
               case Err(e) => Err(e)
               case Ok(ops) => Ok(Apply(u, ops, heads))
    decreases |books|
  {
    if books == [] {
      assert Apply(u, [], heads) == u;
    } else {
      var a, rest := books[0], books[1..];
      assert books == [a] + rest;
      SamePlan(v, u, mint, task, a, folder);
      if PlanOne(v, mint, task, a, folder).Ok? {
        var ops := PlanOne(v, mint, task, a, folder).value;
        NextAhead(v, u, mint, task, books, folder, heads);
        RunFollowsBatch(v, Apply(u, ops, heads), mint, task, rest, folder, heads);
        if PlanBatch(v, mint, task, rest, folder).Ok? {
          ApplyConcat(u, ops, PlanBatch(v, mint, task, rest, folder).value, heads);
        }
      }
    }
  }

  lemma OpOfSame(v: Snapshot, u: Snapshot, mint: Mint, a: string, ops: seq<Op>)
    requires Within1(v, mint, a, ops) && SameBook(v, u, a) && Unused(u, mint, a)
    ensures Within1(u, mint, a, ops)
    ensures forall op <- ops :: op.action.NewMember? ==> op.id !in u.members
  {
    forall op <- ops ensures OpOf(u, mint, a, op) && (op.action.NewMember? ==> op.id !in u.members) {
      assert InBook(v, op.id, a) ==> InBook(u, op.id, a);
    }
  }

  lemma NextAhead(v: Snapshot, u: Snapshot, mint: Mint, task: Task, books: seq<string>, folder: string,
                  heads: string -> string)
    requires WellFormed(v) && Separate(mint) && Distinct(books) && Ahead(v, u, mint, books) && books != []
    requires PlanOne(v, mint, task, books[0], folder).Ok?
    ensures Ahead(v, Apply(u, PlanOne(v, mint, task, books[0], folder).value, heads), mint, books[1..])
  {
    var a := books[0];
    var ops := PlanOne(v, mint, task, a, folder).value;
    PlanWithin(v, mint, task, a, folder);
    OpOfSame(v, u, mint, a, ops);
    forall b <- books[1..] ensures SameBook(v, Apply(u, ops, heads), b) && Unused(v, mint, b)
                                   && Unused(Apply(u, ops, heads), mint, b)
    {
      assert b in books;
      OthersStay(u, mint, a, ops, heads, b);
      SameBookTransitive(v, u, Apply(u, ops, heads), b);
    }
  }

  // The batch's ops are those of its books, no record written twice.
  lemma {:induction false} BatchOps(v: Snapshot, mint: Mint, task: Task, books: seq<string>, folder: string)
    requires WellFormed(v) && Separate(mint) && Distinct(books) && forall b <- books :: Unused(v, mint, b)
    ensures var r := PlanBatch(v, mint, task, books, folder);
            && (r.Ok? <==> forall b <- books :: PlanOne(v, mint, task, b, folder).Ok?)
            && (r.Ok? ==>
                  && OncePerRecord(r.value)
                  && (forall op :: op in r.value <==> ByOneOf(v, mint, task, books, folder, op)))
    decreases |books|
  {
    if books != [] {
      var a, rest := books[0], books[1..];
      assert books == [a] + rest;
      BatchOps(v, mint, task, rest, folder);
      var r := PlanBatch(v, mint, task, books, folder);
      if r.Ok? { BatchStep(v, mint, task, a, rest, folder); }
    }
  }

  ghost predicate ByOneOf(v: Snapshot, mint: Mint, task: Task, books: seq<string>, folder: string, op: Op) {
    exists b :: b in books && By(v, mint, task, b, folder, op)
  }

  ghost predicate By(v: Snapshot, mint: Mint, task: Task, b: string, folder: string, op: Op) {
    PlanOne(v, mint, task, b, folder).Ok? && op in PlanOne(v, mint, task, b, folder).value
  }

  lemma BatchStep(v: Snapshot, mint: Mint, task: Task, a: string, rest: seq<string>, folder: string)
    requires WellFormed(v) && Separate(mint) && Unused(v, mint, a) && a !in rest
    requires forall b <- rest :: Unused(v, mint, b)
    requires PlanOne(v, mint, task, a, folder).Ok? && PlanBatch(v, mint, task, rest, folder).Ok?
    requires OncePerRecord(PlanBatch(v, mint, task, rest, folder).value)
    requires forall op :: op in PlanBatch(v, mint, task, rest, folder).value
                          <==> ByOneOf(v, mint, task, rest, folder, op)
    ensures var ops := PlanOne(v, mint, task, a, folder).value + PlanBatch(v, mint, task, rest, folder).value;
            OncePerRecord(ops) && forall op :: op in ops <==> ByOneOf(v, mint, task, [a] + rest, folder, op)
  {
    var mine, others := PlanOne(v, mint, task, a, folder).value, PlanBatch(v, mint, task, rest, folder).value;
    PlanWithin(v, mint, task, a, folder);
    forall x <- mine, y <- others ensures x.id != y.id {
      var b :| b in rest && By(v, mint, task, b, folder, y);
      PlanWithin(v, mint, task, b, folder);
      assert OpOf(v, mint, a, x) && OpOf(v, mint, b, y);
      OpsApart(v, mint, a, x, b, y);
    }
    OnceConcat(mine, others);
    forall op ensures op in mine + others <==> ByOneOf(v, mint, task, [a] + rest, folder, op) {
      if op in mine { assert By(v, mint, task, a, folder, op) && a in [a] + rest; }
      if op in others {
        var b :| b in rest && By(v, mint, task, b, folder, op);
        assert b in [a] + rest;
      }
      if ByOneOf(v, mint, task, [a] + rest, folder, op) {
        var b :| b in [a] + rest && By(v, mint, task, b, folder, op);
        if b != a { assert ByOneOf(v, mint, task, rest, folder, op); }
      }
    }
  }

  lemma OpsApart(v: Snapshot, mint: Mint, a: string, x: Op, b: string, y: Op)
    requires OpOf(v, mint, a, x) && OpOf(v, mint, b, y) && a != b && Separate(mint) && WellFormed(v)
    requires Unused(v, mint, a) && Unused(v, mint, b) && a in v.books && b in v.books
    ensures x.id != y.id
  {}

  // Plans with the same ops do the same, in whatever order they stand.
  lemma SameOps(v: Snapshot, a: seq<Op>, b: seq<Op>, heads: string -> string)
    requires OncePerRecord(a) && OncePerRecord(b) && forall op :: op in a <==> op in b
    ensures Apply(v, a, heads) == Apply(v, b, heads)
  {
    var x, y := Apply(v, a, heads), Apply(v, b, heads);
    forall id ensures Agree(x, y, id) {
      if op :| op in a && op.id == id {
        ApplyIn(v, a, heads, op);
        ApplyIn(v, b, heads, op);
      } else {
        ApplyOther(v, a, heads, id);
        ApplyOther(v, b, heads, id);
      }
    }
    AgreeEverywhere(x, y);
  }

  // A batch planned from one snapshot does what planning and carrying out its
  // books one at a time does, in any order of the books.
  lemma BatchIsOneByOne(v: Snapshot, mint: Mint, task: Task, books: seq<string>, order: seq<string>, folder: string,
                        heads: string -> string)
    requires WellFormed(v) && Separate(mint) && forall b <- books :: Unused(v, mint, b)
    requires Distinct(books) && Distinct(order) && forall b :: b in order <==> b in books
    ensures var batch, run := PlanBatch(v, mint, task, books, folder), OneByOne(v, mint, task, order, folder, heads);
            match batch
            case Err(_) => run.Err? && (order == books ==> run.error == batch.error)
            case Ok(ops) => OncePerRecord(ops) && run == Ok(Apply(v, ops, heads))
  {
    BatchOps(v, mint, task, books, folder);
    BatchOps(v, mint, task, order, folder);
    assert Ahead(v, v, mint, order);
    RunFollowsBatch(v, v, mint, task, order, folder, heads);
    var r, t := PlanBatch(v, mint, task, books, folder), PlanBatch(v, mint, task, order, folder);
    if r.Ok? {
      forall op ensures ByOneOf(v, mint, task, books, folder, op) <==> ByOneOf(v, mint, task, order, folder, op) {}
      SameOps(v, r.value, t.value, heads);
    }
  }
}
