// The library as folders and files, and the paths that lead to its entries.
module FileView {
  import opened Outcomes
  import opened Ordering
  import opened Library
  import opened BookPlans
  import opened FileNames
  import opened SlashPaths
  import Names

  const TRASH_KEY := "\0trash"
  const TRASH_ITEM := Item(Names.TRASH, true, TRASH_KEY)
  const MAX_PARTS := 34

  // ---- what a folder holds ----

  function ShelfName(v: Snapshot, id: string): string
    requires id in v.shelves
  {
    var name := DisplayName(v.shelves[id].name);
    if name == "" then "Untitled shelf" else name
  }

  function BookFileName(v: Snapshot, id: string): string
    requires id in v.books
  {
    var b := v.books[id];
    var ext := if b.kind != "" then "." + b.kind else "";
    if DisplayName(b.name) != "" then DisplayName(b.name)
    else if DisplayName(b.title) != "" then DisplayName(b.title) + ext
    else id + ext
  }

  // The folders a book is shown in.
  predicate Placed(v: Snapshot, book: string, key: string) {
    && book in v.books
    && if !v.books[book].live then key == TRASH_KEY
       else if Memberships(v, book) == {} then key == ""
       else exists m :: m in Memberships(v, book) && v.members[m].shelf == key
  }

  function ShelfItems(v: Snapshot, key: string): set<Item> {
    set id | id in v.shelves && Shown(v, id) && v.shelves[id].parent == key :: Item(ShelfName(v, id), true, id)
  }

  function BookItems(v: Snapshot, key: string): set<Item> {
    set id | id in v.books && Placed(v, id, key) :: Item(BookFileName(v, id), false, id)
  }

  function Items(v: Snapshot, key: string): set<Item> {
    (if key == "" then {TRASH_ITEM} else {}) + ShelfItems(v, key) + BookItems(v, key)
  }

  // ---- their order ----

  predicate IsTrash(a: Item) { a.dir && a.id == TRASH_KEY }

  // Trash first at the top, then by name, folders before books, then by id.
  function CompareItems(root: bool, a: Item, b: Item): int {
    if root && IsTrash(a) != IsTrash(b) then (if IsTrash(a) then -1 else 1)
    else if a.name != b.name then Compare(a.name, b.name)
    else if a.dir != b.dir then (if a.dir then -1 else 1)
    else Compare(a.id, b.id)
  }

  function ItemOrder(root: bool): (Item, Item) -> int { (a, b) => CompareItems(root, a, b) }

  lemma ItemsFlip(root: bool, a: Item, b: Item)
    ensures CompareItems(root, a, b) == 0 <==> a == b
    ensures CompareItems(root, a, b) < 0 <==> CompareItems(root, b, a) > 0
  {
    IdsCompare(a.name, b.name);
    IdsCompare(a.id, b.id);
  }

  lemma ItemsTransitive(root: bool, a: Item, b: Item, c: Item)
    requires CompareItems(root, a, b) <= 0 && CompareItems(root, b, c) <= 0
    ensures CompareItems(root, a, c) <= 0
  {
    IdsCompare(a.name, b.name);
    IdsCompare(b.name, c.name);
    IdsCompare(a.name, c.name);
    IdsCompare(a.name, a.name);
    if Compare(a.name, b.name) <= 0 && Compare(b.name, c.name) <= 0 { IdsTransitive(a.name, b.name, c.name); }
    if a.name == c.name && Compare(a.name, b.name) <= 0 { IdsCompare(b.name, a.name); }
    if Compare(a.id, b.id) <= 0 && Compare(b.id, c.id) <= 0 { IdsTransitive(a.id, b.id, c.id); }
  }

  lemma ItemsAreOrdered(root: bool)
    ensures TotalOrder(ItemOrder(root))
  {
    forall a, b: Item ensures (ItemOrder(root)(a, b) == 0 <==> a == b)
      && (ItemOrder(root)(a, b) < 0 <==> ItemOrder(root)(b, a) > 0)
    {
      ItemsFlip(root, a, b);
    }
    forall a, b, c: Item | ItemOrder(root)(a, b) <= 0 && ItemOrder(root)(b, c) <= 0
      ensures ItemOrder(root)(a, c) <= 0
    {
      ItemsTransitive(root, a, b, c);
    }
  }

  ghost function SortedItems(root: bool, s: set<Item>): (r: seq<Item>)
    ensures forall x :: x in r <==> x in s
  {
    ItemsAreOrdered(root);
    Sorted(ItemOrder(root), s)
  }

  method SortItems(root: bool, s: set<Item>) returns (r: seq<Item>)
    ensures r == SortedItems(root, s)
  {
    ItemsAreOrdered(root);
    r := Sort(ItemOrder(root), s);
  }

  // The sorted and told-apart entries of one folder.
  ghost function Listing(lower: Fold, v: Snapshot, key: string): seq<Item>
    requires FixesDigits(lower)
  { Disambiguated(lower, SortedItems(key == "", Items(v, key))) }

  method List(lower: Fold, v: Snapshot, key: string) returns (list: array<Item>)
    requires FixesDigits(lower)
    ensures fresh(list) && list[..] == Listing(lower, v, key)
  {
    var sorted := SortItems(key == "", Items(v, key));
    list := ToArray(sorted);
    Disambiguate(lower, list);
  }

  method ToArray(s: seq<Item>) returns (a: array<Item>)
    ensures fresh(a) && a[..] == s
  {
    a := new Item[|s|](i requires 0 <= i < |s| => s[i]);
  }

  // ---- looking paths up ----

  datatype Entry = Entry(folder: string, item: Item, placeholder: bool)

  const ROOT := Entry("", Item("", true, ""), false)

  predicate Dir(e: Entry) { e.item.dir && !e.placeholder }

  function Find(list: seq<Entry>, name: string): Option<Entry> {
    if list == [] then None
    else if list[0].item.name == name then Some(list[0])
    else Find(list[1..], name)
  }

  function Placeholder(key: string, name: string): Entry { Entry(key, Item(name, false, ""), true) }

  // A folder's entries, and the placeholders whose names are free.
  function WithPlaceholders(list: seq<Entry>, key: string, names: seq<string>): seq<Entry>
    decreases |names|
  {
    if names == [] then list
    else
      WithPlaceholders(if Find(list, names[0]).Some? then list else list + [Placeholder(key, names[0])],
                       key, names[1..])
  }

  function Entries(key: string, items: seq<Item>): seq<Entry> {
    seq(|items|, i requires 0 <= i < |items| => Entry(key, items[i], false))
  }

  type Placeholders = string -> seq<string>

  ghost function Children(lower: Fold, v: Snapshot, key: string, placeholders: Placeholders): seq<Entry>
    requires FixesDigits(lower)
  { WithPlaceholders(Entries(key, Listing(lower, v, key)), key, placeholders(key)) }

  ghost function Resolve(lower: Fold, v: Snapshot, parts: seq<string>, placeholders: Placeholders): Option<Entry>
    requires FixesDigits(lower)
    decreases |parts|
  {
    if parts == [] then Some(ROOT)
    else
      var at := Resolve(lower, v, parts[..|parts| - 1], placeholders);
      if at.None? then None else Enter(lower, v, at.value, parts[|parts| - 1], placeholders)
  }

  ghost function Enter(lower: Fold, v: Snapshot, at: Entry, part: string, placeholders: Placeholders): Option<Entry>
    requires FixesDigits(lower)
  { if Dir(at) then Find(Children(lower, v, at.item.id, placeholders), part) else None }

  ghost function LookupOf(lower: Fold, v: Snapshot, p: string, placeholders: Placeholders): Option<Entry>
    requires FixesDigits(lower)
  {
    var parts := Split(Trim(p));
    if parts == [""] then Some(ROOT)
    else if |parts| > MAX_PARTS then None
    else Resolve(lower, v, parts, placeholders)
  }

  method FindEntry(list: seq<Entry>, name: string) returns (r: Option<Entry>)
    ensures r == Find(list, name)
  {
    assert list[0..] == list;
    for i := 0 to |list|
      invariant Find(list, name) == Find(list[i..], name)
    {
      assert list[i..][1..] == list[i + 1..];
      if list[i].item.name == name { return Some(list[i]); }
    }
    return None;
  }

  method ListChildren(lower: Fold, v: Snapshot, key: string, placeholders: Placeholders) returns (out: seq<Entry>)
    requires FixesDigits(lower)
    ensures out == Children(lower, v, key, placeholders)
  {
    var list := List(lower, v, key);
    var names := placeholders(key);
    out := Entries(key, list[..]);
    assert names[0..] == names;
    for i := 0 to |names|
      invariant Children(lower, v, key, placeholders) == WithPlaceholders(out, key, names[i..])
    {
      assert names[i..][1..] == names[i + 1..];
      var found := FindEntry(out, names[i]);
      if found.None? { out := out + [Placeholder(key, names[i])]; }
    }
  }

  method EnterEntry(lower: Fold, v: Snapshot, at: Entry, part: string, placeholders: Placeholders)
    returns (r: Option<Entry>)
    requires FixesDigits(lower)
    ensures r == Enter(lower, v, at, part, placeholders)
  {
    if !Dir(at) { return None; }
    var children := ListChildren(lower, v, at.item.id, placeholders);
    r := FindEntry(children, part);
  }

  method Lookup(lower: Fold, v: Snapshot, p: string, placeholders: Placeholders) returns (r: Option<Entry>)
    requires FixesDigits(lower)
    ensures r == LookupOf(lower, v, p, placeholders)
  {
    var at := ROOT;
    var parts := Split(Trim(p));
    if |parts| == 1 && parts[0] == "" { return Some(at); }
    if |parts| > MAX_PARTS { return None; }
    for i := 0 to |parts|
      invariant Resolve(lower, v, parts[..i], placeholders) == Some(at)
    {
      assert parts[..i + 1][..i] == parts[..i];
      var next := EnterEntry(lower, v, at, parts[i], placeholders);
      if next.None? {
        ResolveStops(lower, v, parts, i + 1, placeholders);
        return None;
      }
      at := next.value;
    }
    assert parts[..|parts|] == parts;
    return Some(at);
  }

  lemma {:induction false} ResolveStops(lower: Fold, v: Snapshot, parts: seq<string>, k: nat, placeholders: Placeholders)
    requires FixesDigits(lower) && k <= |parts| && Resolve(lower, v, parts[..k], placeholders).None?
    ensures Resolve(lower, v, parts, placeholders).None?
    decreases |parts| - k
  {
    if k == |parts| {
      assert parts[..k] == parts;
    } else {
      assert parts[..k + 1][..k] == parts[..k];
      ResolveStops(lower, v, parts, k + 1, placeholders);
    }
  }
}
