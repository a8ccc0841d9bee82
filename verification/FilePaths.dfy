// Which entries of the file view the path lookup finds again.
module FilePaths {
  import opened Outcomes
  import opened Ordering
  import opened Library
  import opened BookPlans
  import opened FileNames
  import opened SlashPaths
  import opened FileView
  import Names

  // ---- finding an entry among its folder's children ----

  lemma {:induction false} FindFirst(list: seq<Entry>, i: nat)
    requires i < |list| && forall j :: 0 <= j < i ==> list[j].item.name != list[i].item.name
    ensures Find(list, list[i].item.name) == Some(list[i])
    decreases i
  {
    if i > 0 {
      assert list[0].item.name != list[i].item.name;
      FindFirst(list[1..], i - 1);
    }
  }

  lemma {:induction false} FindKept(list: seq<Entry>, more: seq<Entry>, name: string)
    requires Find(list, name).Some?
    ensures Find(list + more, name) == Find(list, name)
    decreases |list|
  {
    assert list[0] == (list + more)[0];
    if list[0].item.name != name {
      assert (list + more)[1..] == list[1..] + more;
      FindKept(list[1..], more, name);
    }
  }

  lemma {:induction false} PlaceholdersKeep(list: seq<Entry>, key: string, names: seq<string>, name: string)
    requires Find(list, name).Some?
    ensures Find(WithPlaceholders(list, key, names), name) == Find(list, name)
    decreases |names|
  {
    if names != [] {
      FindKept(list, [Placeholder(key, names[0])], name);
      PlaceholdersKeep(if Find(list, names[0]).Some? then list else list + [Placeholder(key, names[0])],
                       key, names[1..], name);
    }
  }

  lemma EntryFound(lower: Fold, key: string, items: seq<Item>, e: Item)
    requires e in items
    requires forall i, j :: 0 <= i < j < |items| ==> Lower(lower, items[i].name) != Lower(lower, items[j].name)
    ensures Find(Entries(key, items), e.name) == Some(Entry(key, e, false))
  {
    var i :| 0 <= i < |items| && items[i] == e;
    var list := Entries(key, items);
    forall j | 0 <= j < i ensures list[j].item.name != list[i].item.name {
      assert Lower(lower, items[j].name) != Lower(lower, items[i].name);
    }
    FindFirst(list, i);
  }

  // A placeholder never hides an entry.
  lemma ChildFound(lower: Fold, v: Snapshot, key: string, e: Item, placeholders: Placeholders)
    requires FixesDigits(lower) && e in Listing(lower, v, key)
    ensures Find(Children(lower, v, key, placeholders), e.name) == Some(Entry(key, e, false))
  {
    NamesAreDistinct(lower, SortedItems(key == "", Items(v, key)));
    EntryFound(lower, key, Listing(lower, v, key), e);
    PlaceholdersKeep(Entries(key, Listing(lower, v, key)), key, placeholders(key), e.name);
  }

  // ---- what is listed where ----

  ghost predicate StandsFor(lower: Fold, v: Snapshot, key: string, item: Item, e: Item)
    requires FixesDigits(lower)
  { e in Listing(lower, v, key) && SameEntry(item, e) }

  lemma ItemIsListed(lower: Fold, v: Snapshot, key: string, item: Item)
    requires FixesDigits(lower) && item in Items(v, key)
    ensures exists e :: StandsFor(lower, v, key, item, e)
  {
    var items := SortedItems(key == "", Items(v, key));
    assert item in items;
    var i :| 0 <= i < |items| && items[i] == item;
    RenamedEntries(lower, items, i);
    assert StandsFor(lower, v, key, item, Listing(lower, v, key)[i]);
  }

  ghost predicate SameEntry(item: Item, e: Item) {
    && e.dir == item.dir && e.id == item.id
    && (Proper(item.name) ==> Proper(e.name)) && ('/' in item.name ==> '/' in e.name)
  }

  lemma ToldFrom(lower: Fold, items: seq<Item>, e: Item) returns (item: Item)
    requires FixesDigits(lower) && e in Disambiguated(lower, items)
    ensures item in items && SameEntry(item, e)
  {
    NamesAreDistinct(lower, items);
    var i :| 0 <= i < |items| && Disambiguated(lower, items)[i] == e;
    RenamedEntries(lower, items, i);
    item := items[i];
  }

  lemma ListedIsItem(lower: Fold, v: Snapshot, key: string, e: Item) returns (item: Item)
    requires FixesDigits(lower) && e in Listing(lower, v, key)
    ensures item in Items(v, key) && SameEntry(item, e)
  {
    item := ToldFrom(lower, SortedItems(key == "", Items(v, key)), e);
  }

  // Every visible shelf and every book is listed.
  lemma ShelfIsListed(lower: Fold, v: Snapshot, id: string)
    requires FixesDigits(lower) && Shown(v, id)
    ensures exists e :: e in Listing(lower, v, v.shelves[id].parent) && e.dir && e.id == id
  {
    var item := Item(ShelfName(v, id), true, id);
    assert item in Items(v, v.shelves[id].parent);
    ItemIsListed(lower, v, v.shelves[id].parent, item);
    var e :| StandsFor(lower, v, v.shelves[id].parent, item, e);
    assert e.dir;
  }

  lemma BookIsListed(lower: Fold, v: Snapshot, book: string)
    requires FixesDigits(lower) && book in v.books
    ensures exists key, e :: Placed(v, book, key) && e in Listing(lower, v, key) && !e.dir && e.id == book
    ensures forall key :: Placed(v, book, key) ==> exists e :: e in Listing(lower, v, key) && !e.dir && e.id == book
  {
    var item := Item(BookFileName(v, book), false, book);
    forall key | Placed(v, book, key) ensures exists e :: e in Listing(lower, v, key) && !e.dir && e.id == book {
      assert item in BookItems(v, key);
      ItemIsListed(lower, v, key, item);
      var e :| StandsFor(lower, v, key, item, e);
      assert !e.dir;
    }
    if v.books[book].live && Memberships(v, book) != {} {
      var m :| m in Memberships(v, book);
      assert Placed(v, book, v.members[m].shelf);
    } else {
      assert Placed(v, book, if v.books[book].live then "" else TRASH_KEY);
    }
  }

  // ---- the path of a folder ----

  lemma {:induction false} ChainMore(v: Snapshot, at: string, m: nat, n: nat)
    requires m <= n && Chain(v, at, m)
    ensures Chain(v, at, n)
    decreases m
  {
    if at != "" { ChainMore(v, v.shelves[at].parent, m - 1, n - 1); }
  }

  ghost function EntryFor(lower: Fold, v: Snapshot, key: string, item: Item): (e: Item)
    requires FixesDigits(lower) && item in Items(v, key)
    ensures StandsFor(lower, v, key, item, e)
  {
    ItemIsListed(lower, v, key, item);
    var e :| StandsFor(lower, v, key, item, e);
    e
  }

  lemma ShelfItem(v: Snapshot, id: string, depth: nat)
    requires id != "" && Chain(v, id, depth) && depth <= MAX_DEPTH
    ensures id in v.shelves && Item(ShelfName(v, id), true, id) in Items(v, v.shelves[id].parent)
  {
    ChainMore(v, id, depth, MAX_DEPTH);
  }

  // The names shown for a shelf and the shelves above it, from the top down.
  ghost function ShelfPath(lower: Fold, v: Snapshot, id: string, depth: nat): (path: seq<string>)
    requires FixesDigits(lower) && Chain(v, id, depth) && depth <= MAX_DEPTH
    ensures |path| <= depth && forall name <- path :: Proper(name)
    decreases depth, id
  {
    if id == "" then []
    else ShelfPath(lower, v, v.shelves[id].parent, depth - 1) + [ShownName(lower, v, id, depth)]
  }

  // The name a listed shelf is shown under.
  ghost function ShownName(lower: Fold, v: Snapshot, id: string, depth: nat): (name: string)
    requires FixesDigits(lower) && id != "" && Chain(v, id, depth) && depth <= MAX_DEPTH
    ensures Proper(name)
  {
    ShelfItem(v, id, depth);
    ShelfNameIsProper(v, id);
    EntryFor(lower, v, v.shelves[id].parent, Item(ShelfName(v, id), true, id)).name
  }

  lemma ShelfNameIsProper(v: Snapshot, id: string)
    requires id in v.shelves
    ensures Proper(ShelfName(v, id))
  {
    DisplayNameIsProper(v.shelves[id].name);
  }

  predicate Folder(v: Snapshot, key: string) { key == "" || key == TRASH_KEY || Shown(v, key) }

  lemma TrashIsItem(v: Snapshot)
    ensures TRASH_ITEM in Items(v, "") && Proper(TRASH_ITEM.name)
  {}

  ghost function FolderPath(lower: Fold, v: Snapshot, key: string): (path: seq<string>)
    requires FixesDigits(lower) && Folder(v, key)
    ensures |path| <= MAX_DEPTH && forall name <- path :: Proper(name)
  {
    TrashIsItem(v);
    if key == TRASH_KEY then [EntryFor(lower, v, "", TRASH_ITEM).name]
    else ShelfPath(lower, v, key, MAX_DEPTH)
  }

  lemma ResolveOn(lower: Fold, v: Snapshot, path: seq<string>, at: Entry, part: string, placeholders: Placeholders)
    requires FixesDigits(lower) && Resolve(lower, v, path, placeholders) == Some(at)
    ensures Resolve(lower, v, path + [part], placeholders) == Enter(lower, v, at, part, placeholders)
  {
    assert (path + [part])[..|path|] == path;
  }

  // A path finds a folder.
  ghost predicate FindsFolder(lower: Fold, v: Snapshot, path: seq<string>, key: string, placeholders: Placeholders)
    requires FixesDigits(lower)
  {
    var r := Resolve(lower, v, path, placeholders);
    r.Some? && Dir(r.value) && r.value.item.id == key
  }

  // One step further down, from a folder that was found to an entry it lists.
  lemma StepDown(lower: Fold, v: Snapshot, path: seq<string>, key: string, e: Item, placeholders: Placeholders)
    requires FixesDigits(lower) && e in Listing(lower, v, key) && FindsFolder(lower, v, path, key, placeholders)
    ensures Resolve(lower, v, path + [e.name], placeholders) == Some(Entry(key, e, false))
  {
    var at := Resolve(lower, v, path, placeholders).value;
    ResolveOn(lower, v, path, at, e.name, placeholders);
    ChildFound(lower, v, key, e, placeholders);
  }

  lemma StepIntoShelf(lower: Fold, v: Snapshot, path: seq<string>, id: string, depth: nat, placeholders: Placeholders)
    requires FixesDigits(lower) && id != "" && Chain(v, id, depth) && depth <= MAX_DEPTH
    requires FindsFolder(lower, v, path, v.shelves[id].parent, placeholders)
    ensures FindsFolder(lower, v, path + [ShownName(lower, v, id, depth)], id, placeholders)
  {
    ShelfItem(v, id, depth);
    var parent, item := v.shelves[id].parent, Item(ShelfName(v, id), true, id);
    var e := EntryFor(lower, v, parent, item);
    assert StandsFor(lower, v, parent, item, e);
    StepDown(lower, v, path, parent, e, placeholders);
  }

  lemma {:induction false} ResolvesShelf(lower: Fold, v: Snapshot, id: string, depth: nat, placeholders: Placeholders)
    requires FixesDigits(lower) && Chain(v, id, depth) && depth <= MAX_DEPTH
    ensures FindsFolder(lower, v, ShelfPath(lower, v, id, depth), id, placeholders)
    decreases depth
  {
    if id != "" {
      var parent := v.shelves[id].parent;
      ResolvesShelf(lower, v, parent, depth - 1, placeholders);
      StepIntoShelf(lower, v, ShelfPath(lower, v, parent, depth - 1), id, depth, placeholders);
    }
  }

  lemma ResolvesTrash(lower: Fold, v: Snapshot, placeholders: Placeholders)
    requires FixesDigits(lower)
    ensures FindsFolder(lower, v, FolderPath(lower, v, TRASH_KEY), TRASH_KEY, placeholders)
  {
    TrashIsItem(v);
    var e := EntryFor(lower, v, "", TRASH_ITEM);
    assert StandsFor(lower, v, "", TRASH_ITEM, e);
    assert FindsFolder(lower, v, [], "", placeholders);
    StepDown(lower, v, [], "", e, placeholders);
    assert [] + [e.name] == [e.name];
  }

  lemma ResolvesFolder(lower: Fold, v: Snapshot, key: string, placeholders: Placeholders)
    requires FixesDigits(lower) && Folder(v, key)
    ensures FindsFolder(lower, v, FolderPath(lower, v, key), key, placeholders)
  {
    if key == TRASH_KEY {
      ResolvesTrash(lower, v, placeholders);
    } else {
      ResolvesShelf(lower, v, key, MAX_DEPTH, placeholders);
    }
  }

  lemma ParentShown(v: Snapshot, id: string)
    requires Shown(v, id) && "" !in v.shelves
    ensures Folder(v, v.shelves[id].parent)
  {
    ChainMore(v, v.shelves[id].parent, MAX_DEPTH - 1, MAX_DEPTH);
  }

  lemma ItemInFolder(v: Snapshot, key: string, item: Item)
    requires item in Items(v, key) && "" !in v.shelves
    ensures Folder(v, key)
  {
    if item in ShelfItems(v, key) {
      var id :| id in v.shelves && Shown(v, id) && v.shelves[id].parent == key && item == Item(ShelfName(v, id), true, id);
      ParentShown(v, id);
    }
  }

  lemma ListedInFolder(lower: Fold, v: Snapshot, key: string, e: Item)
    requires FixesDigits(lower) && e in Listing(lower, v, key) && "" !in v.shelves
    ensures Folder(v, key)
  {
    var item := ListedIsItem(lower, v, key, e);
    ItemInFolder(v, key, item);
  }

  // ---- reachability ----

  ghost function EntryPath(lower: Fold, v: Snapshot, key: string, e: Item): string
    requires FixesDigits(lower) && Folder(v, key)
  { Join(FolderPath(lower, v, key) + [e.name]) }

  ghost predicate Reached(lower: Fold, v: Snapshot, key: string, e: Item, placeholders: Placeholders)
    requires FixesDigits(lower)
  {
    && Folder(v, key)
    && LookupOf(lower, v, EntryPath(lower, v, key, e), placeholders) == Some(Entry(key, e, false))
  }

  // Whatever a lookup finds, other than the root, has a name a path can hold.
  lemma LookupIsProper(lower: Fold, v: Snapshot, p: string, placeholders: Placeholders)
    requires FixesDigits(lower)
    ensures var r := LookupOf(lower, v, p, placeholders);
            r.Some? && r.value != ROOT ==> Proper(r.value.item.name)
  {
    var s := Trim(p);
    TrimRightEnds(TrimLeft(p));
    SplitPlain(s);
    var parts := Split(s);
    if s == "" {
      assert parts == [""];
    } else if parts != [""] && |parts| <= MAX_PARTS {
      var last := parts[|parts| - 1];
      assert last in parts;
      var at := Resolve(lower, v, parts[..|parts| - 1], placeholders);
      if at.Some? && Dir(at.value) {
        FindNamed(Children(lower, v, at.value.item.id, placeholders), last);
      }
    }
  }

  lemma {:induction false} FindNamed(list: seq<Entry>, name: string)
    ensures Find(list, name).Some? ==> Find(list, name).value.item.name == name
    decreases |list|
  {
    if list != [] { FindNamed(list[1..], name); }
  }

  lemma EntryResolves(lower: Fold, v: Snapshot, key: string, e: Item, placeholders: Placeholders)
    requires FixesDigits(lower) && e in Listing(lower, v, key) && Folder(v, key)
    ensures Resolve(lower, v, FolderPath(lower, v, key) + [e.name], placeholders) == Some(Entry(key, e, false))
  {
    ResolvesFolder(lower, v, key, placeholders);
    StepDown(lower, v, FolderPath(lower, v, key), key, e, placeholders);
  }

  lemma ProperIsReached(lower: Fold, v: Snapshot, key: string, e: Item, placeholders: Placeholders)
    requires FixesDigits(lower) && e in Listing(lower, v, key) && Proper(e.name) && Folder(v, key)
    ensures Reached(lower, v, key, e, placeholders)
  {
    EntryResolves(lower, v, key, e, placeholders);
    PathSplits(FolderPath(lower, v, key), e.name);
  }

  lemma PathSplits(path: seq<string>, name: string)
    requires Proper(name) && forall p <- path :: Proper(p)
    ensures Split(Trim(Join(path + [name]))) == path + [name] != [""]
  {
    TrimJoin(path + [name]);
    assert (path + [name])[|path|] == name;
  }

  // Joining the names on an entry's chain gives a path that finds that entry,
  // exactly when the entry's own name is not empty and holds no slash.
  lemma ReachedIffProper(lower: Fold, v: Snapshot, key: string, e: Item, placeholders: Placeholders)
    requires FixesDigits(lower) && "" !in v.shelves && e in Listing(lower, v, key)
    ensures Reached(lower, v, key, e, placeholders) <==> Proper(e.name)
  {
    ListedInFolder(lower, v, key, e);
    if Proper(e.name) {
      ProperIsReached(lower, v, key, e, placeholders);
    } else {
      LookupIsProper(lower, v, EntryPath(lower, v, key, e), placeholders);
      NotRoot(lower, v, key, e);
    }
  }

  lemma NotRoot(lower: Fold, v: Snapshot, key: string, e: Item)
    requires FixesDigits(lower) && "" !in v.shelves && e in Listing(lower, v, key)
    ensures Entry(key, e, false) != ROOT
  {
    var item := ListedIsItem(lower, v, key, e);
  }

  lemma DirIsProper(v: Snapshot, key: string, item: Item)
    requires item in Items(v, key) && item.dir
    ensures Proper(item.name)
  {
    TrashIsItem(v);
    if item in ShelfItems(v, key) { ShelfNameIsProper(v, item.id); }
  }

  // Shelves are always reached, at any depth the server shows them.
  lemma ShelvesAreReached(lower: Fold, v: Snapshot, key: string, e: Item, placeholders: Placeholders)
    requires FixesDigits(lower) && "" !in v.shelves && e in Listing(lower, v, key) && e.dir
    ensures Reached(lower, v, key, e, placeholders)
  {
    var item := ListedIsItem(lower, v, key, e);
    DirIsProper(v, key, item);
    ReachedIffProper(lower, v, key, e, placeholders);
  }

  // A book's printable name or title makes a path; its raw id and file type are
  // used as they are.
  predicate PathName(v: Snapshot, book: string)
    requires book in v.books
  {
    var b := v.books[book];
    || DisplayName(b.name) != ""
    || ('/' !in b.kind && (DisplayName(b.title) != "" || '/' !in book))
  }

  lemma FileNameProper(v: Snapshot, book: string)
    requires book in v.books && book != ""
    ensures Proper(BookFileName(v, book)) <==> PathName(v, book)
    ensures BookFileName(v, book) != ""
  {
    DisplayNameIsProper(v.books[book].name);
    DisplayNameIsProper(v.books[book].title);
  }

  lemma BooksAreReachedIff(lower: Fold, v: Snapshot, key: string, e: Item, placeholders: Placeholders)
    requires FixesDigits(lower) && "" !in v.shelves && "" !in v.books && e in Listing(lower, v, key) && !e.dir
    ensures e.id in v.books
    ensures Reached(lower, v, key, e, placeholders) <==> PathName(v, e.id)
  {
    var item := ListedIsItem(lower, v, key, e);
    FileNameProper(v, item.id);
    ReachedIffProper(lower, v, key, e, placeholders);
  }

  // The condition is needed: a nameless book whose id holds a slash is listed at
  // the top and no path finds it.
  const SLASHED := Snapshot(map[], map["a/b" := Book("", "", "", "1", "", true)], map[])

  lemma SlashedIsPlaced()
    ensures Placed(SLASHED, "a/b", "") && !PathName(SLASHED, "a/b") && "" !in SLASHED.books
  {
    assert Memberships(SLASHED, "a/b") == {};
    assert Mapped("") == "" && DisplayName("") == "";
    assert "a/b"[1] == '/';
  }

  lemma SlashedBookIsLost(lower: Fold, placeholders: Placeholders)
    requires FixesDigits(lower)
    ensures exists e :: e in Listing(lower, SLASHED, "") && e.id == "a/b"
                        && !Reached(lower, SLASHED, "", e, placeholders)
  {
    SlashedIsPlaced();
    BookIsListed(lower, SLASHED, "a/b");
    var e :| e in Listing(lower, SLASHED, "") && !e.dir && e.id == "a/b";
    BooksAreReachedIff(lower, SLASHED, "", e, placeholders);
  }
}
