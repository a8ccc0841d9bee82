// Which books a batch can move, trash or restore.
module BatchAcceptance {
  import opened Outcomes
  import opened Ordering
  import opened Library
  import opened BookPlans
  import opened BookBatch
  import opened PlanAcceptance

  // A book is taken from the shelf of its first visible membership, or from the top.
  lemma ShelfOfIs(v: Snapshot, book: string)
    ensures AtTop(v, book) ==> ShelfOf(v, book) == ""
    ensures !AtTop(v, book) ==>
              exists m :: Puts(v, m, book) && ShelfOf(v, book) == v.members[m].shelf
                          && forall n :: Puts(v, n, book) ==> Compare(m, n) <= 0
  {
    MembershipsAre(v, book);
    var ids := SortedIds(Memberships(v, book));
    if Memberships(v, book) != {} {
      var some :| some in Memberships(v, book);
      assert some in ids && ids[0] in ids;
      FirstIsLeast(Memberships(v, book));
      assert Puts(v, ids[0], book);
    }
  }

  lemma FirstIsLeast(s: set<string>)
    requires s != {}
    ensures SortedIds(s) != [] && forall x <- s :: Compare(SortedIds(s)[0], x) <= 0
  {
    StringsAreOrdered();
    var some :| some in s;
    assert some in SortedIds(s);
    HeadIsLeast(Compare, s, SortedIds(s));
  }

  // Any book of the library can be trashed, and moved to a shelf that can be seen;
  // to the top only from one shelf. A book in the trash can be restored.
  ghost predicate CanBe(v: Snapshot, task: Task, book: string, folder: string) {
    match task
    case Move => InLibrary(v, book) && (if folder == "" then OnOneAtMost(v, book) else Shown(v, folder))
    case Trash => InLibrary(v, book)
    case Restore => book in v.books && !v.books[book].live && (folder == "" || Shown(v, folder))
  }

  lemma OneAcceptedIff(v: Snapshot, mint: Mint, task: Task, book: string, folder: string)
    requires "" !in v.shelves
    ensures PlanOne(v, mint, task, book, folder).Ok? <==> CanBe(v, task, book, folder)
    ensures PlanOne(v, mint, task, book, folder).Err? ==>
              PlanOne(v, mint, task, book, folder).error
              == if task == Move && InLibrary(v, book) && folder == "" then OneShelf else Changed
  {
    var from := ShelfOf(v, book);
    ShelfOfIs(v, book);
    if !AtTop(v, book) {
      var m :| Puts(v, m, book) && from == v.members[m].shelf;
      assert LiveOn(v, book, from) && Shown(v, from);
    }
    match task
    case Move => MoveBookAcceptedIff(v, mint, book, from, folder);
    case Trash => RemoveAcceptedIff(v, book, from);
    case Restore => RestoreAcceptedIff(v, mint, book, folder);
  }

  function Why(v: Snapshot, task: Task, book: string, folder: string): Refusal {
    if task == Move && book in v.books && v.books[book].live && folder == "" then OneShelf else Changed
  }

  // Book `i` is the first of the batch that cannot be.
  ghost predicate FirstRefused(v: Snapshot, task: Task, books: seq<string>, folder: string, i: nat) {
    && i < |books| && !CanBe(v, task, books[i], folder)
    && forall j :: 0 <= j < i ==> CanBe(v, task, books[j], folder)
  }

  lemma RefusedLater(v: Snapshot, task: Task, books: seq<string>, folder: string, i: nat)
    requires books != [] && CanBe(v, task, books[0], folder) && FirstRefused(v, task, books[1..], folder, i)
    ensures FirstRefused(v, task, books, folder, i + 1) && books[i + 1] == books[1..][i]
  {
    forall j | 0 <= j < i + 1 ensures CanBe(v, task, books[j], folder) {
      if j > 0 { assert books[j] == books[1..][j - 1]; }
    }
  }

  // A batch is accepted exactly if each of its books is.
  lemma {:induction false} BatchAcceptedIff(v: Snapshot, mint: Mint, task: Task, books: seq<string>, folder: string)
    requires "" !in v.shelves
    ensures PlanBatch(v, mint, task, books, folder).Ok? <==> forall b <- books :: CanBe(v, task, b, folder)
    decreases |books|
  {
    if books != [] {
      OneAcceptedIff(v, mint, task, books[0], folder);
      BatchAcceptedIff(v, mint, task, books[1..], folder);
      assert books == [books[0]] + books[1..];
    }
  }

  // The first book that is not decides the refusal.
  lemma {:induction false} BatchRefusal(v: Snapshot, mint: Mint, task: Task, books: seq<string>, folder: string)
    returns (i: nat)
    requires "" !in v.shelves && PlanBatch(v, mint, task, books, folder).Err?
    ensures FirstRefused(v, task, books, folder, i)
    ensures PlanBatch(v, mint, task, books, folder).error == Why(v, task, books[i], folder)
    decreases |books|
  {
    OneAcceptedIff(v, mint, task, books[0], folder);
    if PlanOne(v, mint, task, books[0], folder).Err? {
      i := 0;
    } else {
      var k := BatchRefusal(v, mint, task, books[1..], folder);
      RefusedLater(v, task, books, folder, k);
      i := k + 1;
    }
  }

  // A plan for the first book, then the others.
  lemma BatchFirst(v: Snapshot, mint: Mint, task: Task, books: seq<string>, folder: string)
    requires books != [] && PlanBatch(v, mint, task, books, folder).Ok?
    ensures PlanOne(v, mint, task, books[0], folder).Ok? && PlanBatch(v, mint, task, books[1..], folder).Ok?
    ensures PlanBatch(v, mint, task, books, folder).value
            == PlanOne(v, mint, task, books[0], folder).value + PlanBatch(v, mint, task, books[1..], folder).value
  {}

  lemma BatchFirstOk(v: Snapshot, mint: Mint, task: Task, book: string, rest: seq<string>, folder: string)
    requires PlanOne(v, mint, task, book, folder).Ok? && PlanBatch(v, mint, task, rest, folder).Ok?
    ensures PlanBatch(v, mint, task, [book] + rest, folder)
            == Ok(PlanOne(v, mint, task, book, folder).value + PlanBatch(v, mint, task, rest, folder).value)
  {
    assert ([book] + rest)[1..] == rest;
  }

  ghost predicate Plans(v: Snapshot, mint: Mint, task: Task, books: seq<string>, folder: string, ops: seq<Op>) {
    PlanBatch(v, mint, task, books, folder) == Ok(ops)
  }

  // A batch writes what its parts write, one after the other; for one book, what
  // the plan for that book writes.
  lemma {:induction false} BatchJoins(
      v: Snapshot, mint: Mint, task: Task, a: seq<string>, x: seq<Op>, b: seq<string>, y: seq<Op>, folder: string)
    requires Plans(v, mint, task, a, folder, x) && Plans(v, mint, task, b, folder, y)
    ensures Plans(v, mint, task, a + b, folder, x + y)
    decreases |a|
  {
    if a == [] {
      assert a + b == b && x + y == y;
    } else {
      BatchFirst(v, mint, task, a, folder);
      var one, rest := PlanOne(v, mint, task, a[0], folder).value, PlanBatch(v, mint, task, a[1..], folder).value;
      BatchJoins(v, mint, task, a[1..], rest, b, y, folder);
      BatchFirstOk(v, mint, task, a[0], a[1..] + b, folder);
      OneMore(v, mint, task, a, b, folder, one, rest, x, y);
    }
  }

  lemma OneMore(v: Snapshot, mint: Mint, task: Task, a: seq<string>, b: seq<string>, folder: string,
                one: seq<Op>, rest: seq<Op>, x: seq<Op>, y: seq<Op>)
    requires a != [] && x == one + rest
    requires Plans(v, mint, task, [a[0]] + (a[1..] + b), folder, one + (rest + y))
    ensures Plans(v, mint, task, a + b, folder, x + y)
  {
    assert a + b == [a[0]] + (a[1..] + b);
    assert x + y == one + (rest + y);
  }

  lemma BatchOfOne(v: Snapshot, mint: Mint, task: Task, book: string, folder: string)
    ensures PlanBatch(v, mint, task, [book], folder) == PlanOne(v, mint, task, book, folder)
  {
    assert [book][1..] == [];
    assert PlanBatch(v, mint, task, [], folder) == Ok([]);
    if PlanOne(v, mint, task, book, folder).Ok? {
      assert PlanOne(v, mint, task, book, folder).value + [] == PlanOne(v, mint, task, book, folder).value;
    }
  }
}
