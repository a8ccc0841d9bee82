// What the file view displays: which text a name becomes, where every shelf and
// book is listed, in which order, and with which number when names repeat.
module FileDisplay {
  import opened Outcomes
  import opened Ordering
  import opened Decimal
  import opened Library
  import opened BookPlans
  import opened PlanAcceptance
  import opened FileNames
  import opened FileView
  import Names

  // ---- printable text ----

  predicate Control(c: char) { c as int < 32 || 127 <= c as int < 160 }

  function Print(c: char): char { if c == '/' || c == '\\' then '_' else c }

  // `out` is what is left at the positions `kept`: all but the control characters.
  ghost predicate PrintsAt(name: string, out: string, kept: seq<int>) {
    && |out| == |kept|
    && (forall k :: 0 <= k < |kept| ==>
          0 <= kept[k] < |name| && !Control(name[kept[k]]) && out[k] == Print(name[kept[k]]))
    && (forall k, l :: 0 <= k < l < |kept| ==> kept[k] < kept[l])
    && (forall i :: 0 <= i < |name| && !Control(name[i]) ==> i in kept)
  }

  ghost predicate Prints(name: string, out: string) { exists kept :: PrintsAt(name, out, kept) }

  // The same from position `from` on.
  ghost predicate PrintsFrom(name: string, from: nat, out: string, kept: seq<int>) {
    && |out| == |kept|
    && (forall k :: 0 <= k < |kept| ==>
          from <= kept[k] < |name| && !Control(name[kept[k]]) && out[k] == Print(name[kept[k]]))
    && (forall k, l :: 0 <= k < l < |kept| ==> kept[k] < kept[l])
    && (forall i :: from <= i < |name| && !Control(name[i]) ==> i in kept)
  }

  lemma MappedStep(s: string)
    requires s != []
    ensures Mapped(s) == if Control(s[0]) then Mapped(s[1..]) else [Print(s[0])] + Mapped(s[1..])
  {}

  lemma {:induction false} MappedPrints(name: string, from: nat) returns (kept: seq<int>)
    requires from <= |name|
    ensures PrintsFrom(name, from, Mapped(name[from..]), kept)
    decreases |name| - from
  {
    if from == |name| {
      kept := [];
    } else {
      var rest := MappedPrints(name, from + 1);
      assert name[from..][1..] == name[from + 1..] && name[from..][0] == name[from];
      MappedStep(name[from..]);
      if Control(name[from]) {
        PrintsNoMore(name, from, Mapped(name[from + 1..]), rest);
        kept := rest;
      } else {
        PrintsOneMore(name, from, Mapped(name[from + 1..]), rest);
        kept := [from] + rest;
      }
    }
  }

  lemma PrintsNoMore(name: string, from: nat, out: string, rest: seq<int>)
    requires from < |name| && Control(name[from]) && PrintsFrom(name, from + 1, out, rest)
    ensures PrintsFrom(name, from, out, rest)
  {}

  lemma PrintsOneMore(name: string, from: nat, out: string, rest: seq<int>)
    requires from < |name| && !Control(name[from]) && PrintsFrom(name, from + 1, out, rest)
    ensures PrintsFrom(name, from, [Print(name[from])] + out, [from] + rest)
  {
    var kept := [from] + rest;
    assert kept[0] == from;
    forall i | from <= i < |name| && !Control(name[i]) ensures i in kept {
      if i > from { assert i in rest; }
    }
  }

  ghost predicate Nameless(s: string) { (forall c :: c in s ==> Names.IsSpace(c)) || s == "." || s == ".." }

  // A name is displayed as it prints, unless nothing one could call it is left.
  lemma DisplayedIs(name: string)
    ensures exists out :: Prints(name, out) && DisplayName(name) == if Nameless(out) then "" else out
  {
    var kept := MappedPrints(name, 0);
    assert name[0..] == name && PrintsAt(name, Mapped(name), kept);
    assert Prints(name, Mapped(name));
  }

  // What a name prints as is determined.
  lemma PrintsOnce(name: string, a: string, b: string)
    requires Prints(name, a) && Prints(name, b)
    ensures a == b
  {
    var j :| PrintsAt(name, a, j);
    var k :| PrintsAt(name, b, k);
    SamePositions(name, j, k);
  }

  // Rising, and all of what satisfies the same condition.
  ghost predicate Positions(name: string, kept: seq<int>) {
    && (forall k :: 0 <= k < |kept| ==> 0 <= kept[k] < |name| && !Control(name[kept[k]]))
    && (forall k, l :: 0 <= k < l < |kept| ==> kept[k] < kept[l])
    && (forall i :: 0 <= i < |name| && !Control(name[i]) ==> i in kept)
  }

  lemma SameLast(name: string, j: seq<int>, k: seq<int>)
    requires Positions(name, j) && Positions(name, k)
    ensures j == [] <==> k == []
    ensures j != [] ==> j[|j| - 1] == k[|k| - 1]
  {
    if j != [] { assert j[|j| - 1] in k; }
    if k != [] { assert k[|k| - 1] in j; }
  }

  lemma {:induction false} SamePositions(name: string, j: seq<int>, k: seq<int>)
    requires Positions(name, j) && Positions(name, k)
    ensures j == k
    decreases |j|
  {
    SameLast(name, j, k);
    if j != [] {
      OneLess(name, j);
      OneLess(name, k);
      SamePositions(name[..j[|j| - 1]], j[..|j| - 1], k[..|k| - 1]);
      assert j == j[..|j| - 1] + [j[|j| - 1]] && k == k[..|k| - 1] + [k[|k| - 1]];
    }
  }

  lemma OneLess(name: string, j: seq<int>)
    requires Positions(name, j) && j != []
    ensures Positions(name[..j[|j| - 1]], j[..|j| - 1])
  {
    var n := j[|j| - 1];
    forall i | 0 <= i < n && !Control(name[i]) ensures i in j[..|j| - 1] {
      assert i in j;
      var k :| 0 <= k < |j| && j[k] == i;
      assert j[..|j| - 1][k] == i;
    }
  }

  // A name that can be displayed as it is.
  ghost predicate Plain(name: string) {
    !Nameless(name) && '/' !in name && '\\' !in name && forall c :: c in name ==> !Control(c)
  }

  lemma {:induction false} PlainIsMapped(name: string)
    requires '/' !in name && '\\' !in name && forall c :: c in name ==> !Control(c)
    ensures Mapped(name) == name
    decreases |name|
  {
    if name != [] {
      assert name[0] in name;
      assert forall c :: c in name[1..] ==> c in name;
      PlainIsMapped(name[1..]);
    }
  }

  lemma PlainIsDisplayed(name: string)
    requires Plain(name)
    ensures DisplayName(name) == name
  {
    PlainIsMapped(name);
  }

  // Shelves and books with such a name are called by it; a book without one by
  // its title, with its type.
  lemma PlainNames(v: Snapshot, id: string)
    ensures id in v.shelves && Plain(v.shelves[id].name) ==> ShelfName(v, id) == v.shelves[id].name
    ensures id in v.shelves && Nameless(v.shelves[id].name) ==> ShelfName(v, id) == "Untitled shelf"
    ensures id in v.books && Plain(v.books[id].name) ==> BookFileName(v, id) == v.books[id].name
    ensures id in v.books && v.books[id].name == "" && Plain(v.books[id].title) ==>
              BookFileName(v, id) == v.books[id].title + (if v.books[id].kind == "" then "" else "." + v.books[id].kind)
    ensures id in v.books && v.books[id].name == "" && v.books[id].title == "" ==>
              BookFileName(v, id) == id + (if v.books[id].kind == "" then "" else "." + v.books[id].kind)
  {
    if id in v.shelves && Plain(v.shelves[id].name) { PlainIsDisplayed(v.shelves[id].name); }
    if id in v.shelves && Nameless(v.shelves[id].name) { NamelessIsHidden(v.shelves[id].name); }
    if id in v.books && Plain(v.books[id].name) { PlainIsDisplayed(v.books[id].name); }
    if id in v.books && Plain(v.books[id].title) { PlainIsDisplayed(v.books[id].title); }
    NamelessIsHidden("");
  }

  lemma NamelessIsHidden(name: string)
    requires Nameless(name)
    ensures DisplayName(name) == ""
  {
    if name == "." || name == ".." {
      PlainIsMapped(name);
    } else {
      SpacePrintsSpace(name);
    }
  }

  lemma {:induction false} SpacePrintsSpace(name: string)
    requires forall c :: c in name ==> Names.IsSpace(c)
    ensures forall c :: c in Mapped(name) ==> Names.IsSpace(c)
    decreases |name|
  {
    if name != [] {
      assert name[0] in name;
      assert forall c :: c in name[1..] ==> c in name;
      SpacePrintsSpace(name[1..]);
    }
  }

  // ---- extensions and numbers ----

  // The extension starts at the last dot, unless a slash follows it.
  lemma {:induction false} ExtIs(name: string)
    ensures var e := Ext(name);
            && |e| <= |name| && name[|name| - |e|..] == e
            && (e != "" ==> e[0] == '.' && '.' !in e[1..] && '/' !in e)
            && (e == "" ==> forall i :: 0 <= i < |name| && name[i] == '.' ==> exists j :: i < j < |name| && name[j] == '/')
    decreases |name|
  {
    if name != [] && name[|name| - 1] != '/' && name[|name| - 1] != '.' {
      var front := name[..|name| - 1];
      ExtIs(front);
      if Ext(front) == "" {
        forall i | 0 <= i < |name| && name[i] == '.' ensures exists j :: i < j < |name| && name[j] == '/' {
          assert front[i] == '.';
          var j :| i < j < |front| && front[j] == '/';
          assert name[j] == '/';
        }
      }
    } else if name != [] && name[|name| - 1] == '/' {
      assert forall i :: 0 <= i < |name| && name[i] == '.' ==> i < |name| - 1 < |name| && name[|name| - 1] == '/';
    }
  }

  // A folder's number comes last, a file's before its extension.
  lemma SuffixedIs(item: Item, n: nat)
    ensures item.dir ==> Suffixed(item, n) == item.name + " (" + Itoa(n) + ")"
    ensures !item.dir ==> exists base :: item.name == base + Ext(item.name)
                                         && Suffixed(item, n) == base + " (" + Itoa(n) + ")" + Ext(item.name)
  {
    ExtIsSuffix(item.name);
    if item.dir {
      assert item.name[..|item.name| - |""|] == item.name;
      assert Suffixed(item, n) == item.name + " (" + Itoa(n) + ")" + "";
    } else {
      var base := item.name[..|item.name| - |Ext(item.name)|];
      assert item.name == base + Ext(item.name);
      assert Suffixed(item, n) == base + " (" + Itoa(n) + ")" + Ext(item.name);
    }
  }

  ghost predicate Fits(again: seq<nat>, n: nat) { forall l :: 0 <= l < |again| ==> again[l] < n }

  // The name is in use when the k-th repeated entry gets its number.
  ghost predicate InUse(lower: Fold, again: seq<nat>, used: set<string>, r: seq<Item>, k: nat, name: string)
    requires Fits(again, |r|)
  {
    name in used || exists l :: 0 <= l < k && l < |again| && name == Lower(lower, r[again[l]].name)
  }

  // The k-th repeated entry has the least free number, from 2 on.
  ghost predicate NumberedAt(lower: Fold, items: seq<Item>, again: seq<nat>, used: set<string>, r: seq<Item>, k: nat)
    requires |r| == |items| && k < |again| && Fits(again, |r|)
  {
    exists n: nat :: Numbered(lower, items[again[k]], again, used, r, k, n)
  }

  ghost predicate Numbered(lower: Fold, item: Item, again: seq<nat>, used: set<string>, r: seq<Item>, k: nat, n: nat)
    requires k < |again| && Fits(again, |r|)
  {
    && n >= 2 && r[again[k]] == item.(name := Suffixed(item, n))
    && !InUse(lower, again, used, r, k, Lower(lower, Suffixed(item, n)))
    && forall m: nat :: 2 <= m < n ==> InUse(lower, again, used, r, k, Lower(lower, Suffixed(item, m)))
  }

  lemma FirstNumbered(lower: Fold, items: seq<Item>, again: seq<nat>, used: set<string>, r: seq<Item>)
    requires FixesDigits(lower) && again != [] && |r| == |items| && Fits(again, |r|)
    requires r[again[0]] == items[again[0]].(name := NewName(lower, used, items[again[0]]))
    ensures NumberedAt(lower, items, again, used, r, 0)
  {
    var item := items[again[0]];
    SuffixExists(lower, used, used, item, 2);
    var n: nat :| FirstSuffix(lower, used, item, n);
    NewNameIs(lower, used, item, n);
    assert Numbered(lower, item, again, used, r, 0, n);
  }

  lemma LaterNumbered(lower: Fold, items: seq<Item>, next: seq<Item>, i: nat, rest: seq<nat>, used: set<string>,
                      r: seq<Item>, k: nat)
    requires |r| == |items| == |next| && i < |r| && k < |rest| && Fits(rest, |r|)
    requires next[rest[k]] == items[rest[k]]
    requires NumberedAt(lower, next, rest, used + {Lower(lower, r[i].name)}, r, k)
    ensures NumberedAt(lower, items, [i] + rest, used, r, k + 1)
  {
    var again, more := [i] + rest, used + {Lower(lower, r[i].name)};
    var item := items[rest[k]];
    forall name ensures InUse(lower, again, used, r, k + 1, name) == InUse(lower, rest, more, r, k, name) {
      if InUse(lower, rest, more, r, k, name) && name !in more {
        var l :| 0 <= l < k && l < |rest| && name == Lower(lower, r[rest[l]].name);
        assert again[l + 1] == rest[l];
      }
      assert again[0] == i;
      if InUse(lower, again, used, r, k + 1, name) && name !in used {
        var l :| 0 <= l < k + 1 && l < |again| && name == Lower(lower, r[again[l]].name);
        if l > 0 { assert rest[l - 1] == again[l]; }
      }
    }
    var n: nat :| Numbered(lower, item, rest, more, r, k, n);
    assert again[k + 1] == rest[k];
    assert Numbered(lower, item, again, used, r, k + 1, n);
  }

  ghost predicate AllNumbered(lower: Fold, items: seq<Item>, again: seq<nat>, used: set<string>, r: seq<Item>) {
    |r| == |items| && Fits(again, |r|) && forall k :: 0 <= k < |again| ==> NumberedAt(lower, items, again, used, r, k)
  }

  // An entry that is not renamed any more stays as it is.
  lemma KeptOut(lower: Fold, items: seq<Item>, again: seq<nat>, used: set<string>, i: nat)
    requires FixesDigits(lower) && (forall j <- again :: j < |items|) && i < |items| && i !in again
    requires forall k, l :: 0 <= k < l < |again| ==> again[k] != again[l]
    ensures |Renamed(lower, items, again, used)| == |items| && Renamed(lower, items, again, used)[i] == items[i]
  {
    RenamedAre(lower, items, again, used);
  }

  lemma {:induction false} RenamedNumbers(lower: Fold, items: seq<Item>, again: seq<nat>, used: set<string>)
    requires FixesDigits(lower) && forall i <- again :: i < |items|
    requires forall k, l :: 0 <= k < l < |again| ==> again[k] != again[l]
    ensures AllNumbered(lower, items, again, used, Renamed(lower, items, again, used))
    decreases |again|
  {
    if again != [] {
      var i, rest := again[0], again[1..];
      assert again == [i] + rest && i in again && forall j <- rest :: j in again;
      var name := NewName(lower, used, items[i]);
      var next := items[i := items[i].(name := name)];
      RenamedNumbers(lower, next, rest, used + {Lower(lower, name)});
      KeptOut(lower, next, rest, used + {Lower(lower, name)}, i);
      AllButFirst(lower, items, i, rest, used, Renamed(lower, next, rest, used + {Lower(lower, name)}));
    }
  }

  lemma AllButFirst(lower: Fold, items: seq<Item>, i: nat, rest: seq<nat>, used: set<string>, r: seq<Item>)
    requires FixesDigits(lower) && i < |items| == |r| && i !in rest
    requires r[i] == items[i].(name := NewName(lower, used, items[i]))
    requires AllNumbered(lower, items[i := r[i]], rest, used + {Lower(lower, r[i].name)}, r)
    ensures AllNumbered(lower, items, [i] + rest, used, r)
  {
    var again := [i] + rest;
    FirstNumbered(lower, items, again, used, r);
    forall k | 0 <= k < |again| ensures NumberedAt(lower, items, again, used, r, k) {
      if k > 0 {
        assert rest[k - 1] in rest;
        LaterNumbered(lower, items, items[i := r[i]], i, rest, used, r, k - 1);
      }
    }
  }

  ghost predicate Ascends(again: seq<nat>) { forall k, l :: 0 <= k < l < |again| ==> again[k] < again[l] }

  lemma AscendsMore(before: seq<nat>, n: nat)
    requires Ascends(before) && forall i <- before :: i < n
    ensures Ascends(before + [n]) && before + [] == before
  {
    assert forall k :: 0 <= k < |before| ==> before[k] in before;
  }

  lemma {:induction false} RepeatedAscends(lower: Fold, items: seq<Item>, n: nat)
    requires n <= |items|
    ensures Ascends(Repeated(lower, items, n))
    decreases n
  {
    if n > 0 {
      RepeatedAscends(lower, items, n - 1);
      AscendsMore(Repeated(lower, items, n - 1), n - 1);
    }
  }

  // Entries that repeat a name, in the order of the list, each get the least
  // number from 2 on whose name no entry has and none before them was given.
  lemma NumbersAreLeast(lower: Fold, items: seq<Item>)
    requires FixesDigits(lower)
    ensures var r, again := Disambiguated(lower, items), Repeated(lower, items, |items|);
            && Ascends(again)
            && AllNumbered(lower, items, again, AllNames(lower, items), r)
  {
    RepeatedAscends(lower, items, |items|);
    RenamedNumbers(lower, items, Repeated(lower, items, |items|), AllNames(lower, items));
  }

  // ---- folders ----

  // The order of a folder: at the top the trash comes first; then names, a
  // shelf before a book of the same name, and ids.
  ghost predicate Before(root: bool, a: Item, b: Item) {
    || (root && IsTrash(a) && !IsTrash(b))
    || ((root ==> IsTrash(a) == IsTrash(b))
        && (Compare(a.name, b.name) < 0
            || (a.name == b.name && ((a.dir && !b.dir) || (a.dir == b.dir && Compare(a.id, b.id) < 0)))))
  }

  lemma ItemsAscend(root: bool, s: set<Item>)
    ensures Ascending(ItemOrder(root), SortedItems(root, s))
  {
    ItemsAreOrdered(root);
  }

  lemma BeforeIs(root: bool, a: Item, b: Item)
    requires CompareItems(root, a, b) < 0
    ensures Before(root, a, b) && a != b
  {
    ItemsFlip(root, a, b);
    IdsCompare(a.name, b.name);
  }

  lemma FolderOrder(v: Snapshot, key: string)
    ensures var items := SortedItems(key == "", Items(v, key));
            forall i, j :: 0 <= i < j < |items| ==> Before(key == "", items[i], items[j]) && items[i] != items[j]
  {
    var root, items := key == "", SortedItems(key == "", Items(v, key));
    ItemsAscend(root, Items(v, key));
    forall i, j | 0 <= i < j < |items| ensures Before(root, items[i], items[j]) && items[i] != items[j] {
      assert ItemOrder(root)(items[i], items[j]) < 0;
      BeforeIs(root, items[i], items[j]);
    }
  }

  // No other entry of the folder would be shown under the name.
  ghost predicate Unclaimed(lower: Fold, v: Snapshot, key: string, item: Item) {
    forall x <- Items(v, key) :: x != item ==> Lower(lower, x.name) != Lower(lower, item.name)
  }

  lemma UnclaimedKeepsName(lower: Fold, v: Snapshot, key: string, item: Item)
    requires FixesDigits(lower) && item in Items(v, key) && Unclaimed(lower, v, key, item)
    ensures item in Listing(lower, v, key)
  {
    FolderOrder(v, key);
    var items := SortedItems(key == "", Items(v, key));
    assert item in items;
    var i :| 0 <= i < |items| && items[i] == item;
    forall j | 0 <= j < i ensures Lower(lower, items[j].name) != Lower(lower, items[i].name) {
      assert items[j] in items && items[j] != items[i];
    }
    RenamedEntries(lower, items, i);
    assert Listing(lower, v, key)[i] == item;
  }

  // A shelf or a book with a plain name that nothing else in its folder claims
  // is listed under exactly that name.
  lemma PlainShelfIsListed(lower: Fold, v: Snapshot, id: string)
    requires FixesDigits(lower) && Shown(v, id) && Plain(v.shelves[id].name)
    requires Unclaimed(lower, v, v.shelves[id].parent, Item(v.shelves[id].name, true, id))
    ensures Item(v.shelves[id].name, true, id) in Listing(lower, v, v.shelves[id].parent)
  {
    PlainNames(v, id);
    assert Item(ShelfName(v, id), true, id) in Items(v, v.shelves[id].parent);
    UnclaimedKeepsName(lower, v, v.shelves[id].parent, Item(v.shelves[id].name, true, id));
  }

  // The folder a book is in: the trash, the shelves it is put on, or the top.
  ghost predicate BelongsIn(v: Snapshot, book: string, key: string) {
    && book in v.books
    && (!v.books[book].live ==> key == TRASH_KEY)
    && (v.books[book].live && AtTop(v, book) ==> key == "")
    && (v.books[book].live && !AtTop(v, book) ==> exists m :: Puts(v, m, book) && v.members[m].shelf == key)
  }

  lemma PlacedIs(v: Snapshot, book: string, key: string)
    ensures Placed(v, book, key) <==> BelongsIn(v, book, key)
  {
    MembershipsAre(v, book);
    if BelongsIn(v, book, key) && v.books[book].live && !AtTop(v, book) {
      var m :| Puts(v, m, book) && v.members[m].shelf == key;
      assert m in Memberships(v, book);
    }
  }

  lemma PlainBookIsListed(lower: Fold, v: Snapshot, book: string, key: string)
    requires FixesDigits(lower) && BelongsIn(v, book, key) && Plain(v.books[book].name)
    requires Unclaimed(lower, v, key, Item(v.books[book].name, false, book))
    ensures Item(v.books[book].name, false, book) in Listing(lower, v, key)
  {
    PlainNames(v, book);
    PlacedIs(v, book, key);
    assert Item(BookFileName(v, book), false, book) in Items(v, key);
    UnclaimedKeepsName(lower, v, key, Item(v.books[book].name, false, book));
  }

  // Told-apart entries are the same shelves and books.
  lemma SameEntries(lower: Fold, items: seq<Item>, id: string, dir: bool)
    requires FixesDigits(lower)
    ensures (exists e :: e in Disambiguated(lower, items) && e.dir == dir && e.id == id)
            <==> (exists x :: x in items && x.dir == dir && x.id == id)
  {
    var list := Disambiguated(lower, items);
    NamesAreDistinct(lower, items);
    if x :| x in items && x.dir == dir && x.id == id {
      var i :| 0 <= i < |items| && items[i] == x;
      RenamedEntries(lower, items, i);
      assert list[i] in list;
    }
    if e :| e in list && e.dir == dir && e.id == id {
      var i :| 0 <= i < |list| && list[i] == e;
      RenamedEntries(lower, items, i);
      assert items[i] in items;
    }
  }

  lemma ListedIff(lower: Fold, v: Snapshot, key: string, id: string, dir: bool)
    requires FixesDigits(lower)
    ensures (exists e :: e in Listing(lower, v, key) && e.dir == dir && e.id == id)
            <==> (exists x :: x in Items(v, key) && x.dir == dir && x.id == id)
  {
    SameEntries(lower, SortedItems(key == "", Items(v, key)), id, dir);
  }

  lemma BookItemIff(v: Snapshot, key: string, book: string)
    ensures (exists x :: x in Items(v, key) && x.dir == false && x.id == book) <==> BelongsIn(v, book, key)
  {
    PlacedIs(v, book, key);
    if BelongsIn(v, book, key) { assert Item(BookFileName(v, book), false, book) in BookItems(v, key); }
  }

  lemma ShelfItemIff(v: Snapshot, key: string, id: string)
    ensures (exists x :: x in Items(v, key) && x.dir == true && x.id == id)
            <==> (Shown(v, id) && v.shelves[id].parent == key) || (key == "" && id == TRASH_KEY)
  {
    if Shown(v, id) && v.shelves[id].parent == key { assert Item(ShelfName(v, id), true, id) in ShelfItems(v, key); }
    if key == "" && id == TRASH_KEY { assert TRASH_ITEM in Items(v, key); }
  }

  // A folder lists a book exactly if it belongs there.
  lemma FolderHoldsBook(lower: Fold, v: Snapshot, key: string, book: string)
    requires FixesDigits(lower)
    ensures (exists e :: e in Listing(lower, v, key) && e.dir == false && e.id == book) <==> BelongsIn(v, book, key)
  {
    ListedIff(lower, v, key, book, false);
    BookItemIff(v, key, book);
  }

  // It lists a shelf exactly if that is visible and the folder is its parent; the
  // trash is listed at the top.
  lemma FolderHoldsShelf(lower: Fold, v: Snapshot, key: string, id: string)
    requires FixesDigits(lower)
    ensures (exists e :: e in Listing(lower, v, key) && e.dir == true && e.id == id)
            <==> (Shown(v, id) && v.shelves[id].parent == key) || (key == "" && id == TRASH_KEY)
  {
    ListedIff(lower, v, key, id, true);
    ShelfItemIff(v, key, id);
  }

  lemma TrashIsFirst(items: seq<Item>)
    requires TRASH_ITEM in items && forall x <- items :: IsTrash(x) ==> x == TRASH_ITEM
    requires forall i, j :: 0 <= i < j < |items| ==> Before(true, items[i], items[j]) && items[i] != items[j]
    ensures items[0] == TRASH_ITEM
  {
    var i :| 0 <= i < |items| && items[i] == TRASH_ITEM;
    assert items[0] in items;
    assert !IsTrash(items[0]) ==> !Before(true, items[0], TRASH_ITEM);
  }

  lemma OneTrash(v: Snapshot, x: Item)
    requires TRASH_KEY !in v.shelves && x in Items(v, "") && IsTrash(x)
    ensures x == TRASH_ITEM
  {}

  // The trash is at the top of the library and always keeps its name.
  lemma TrashIsListed(lower: Fold, v: Snapshot)
    requires FixesDigits(lower) && TRASH_KEY !in v.shelves
    ensures Listing(lower, v, "") != [] && Listing(lower, v, "")[0] == Item(".Trash", true, TRASH_KEY)
  {
    FolderOrder(v, "");
    var items := SortedItems(true, Items(v, ""));
    forall x <- items | IsTrash(x) ensures x == TRASH_ITEM { OneTrash(v, x); }
    assert TRASH_ITEM in Items(v, "") && TRASH_ITEM in items;
    TrashIsFirst(items);
    RenamedEntries(lower, items, 0);
  }
}
