// Names in the file view: made printable, and told apart within a folder.
module FileNames {
  import opened Ordering
  import opened Decimal
  import Names

  // ---- printable names ----

  function Mapped(name: string): string {
    if name == [] then []
    else
      var c := name[0];
      (if c == '/' || c == '\\' then ['_'] else if Names.IsControl(c) then [] else [c]) + Mapped(name[1..])
  }

  function DisplayName(name: string): string {
    var s := Mapped(name);
    if Names.Blank(s) || s == "." || s == ".." then "" else s
  }

  // A name a path can hold.
  predicate Proper(name: string) { name != "" && '/' !in name }

  lemma {:induction false} MappedIsClean(name: string)
    ensures '/' !in Mapped(name) && '\\' !in Mapped(name) && forall c <- Mapped(name) :: !Names.IsControl(c)
  {
    if name != [] { MappedIsClean(name[1..]); }
  }

  lemma DisplayNameIsProper(name: string)
    ensures DisplayName(name) == "" || Proper(DisplayName(name))
  {
    MappedIsClean(name);
  }

  // The file extension: from the last dot of the last path element.
  function Ext(name: string): string {
    if name == [] || name[|name| - 1] == '/' then ""
    else if name[|name| - 1] == '.' then "."
    else
      var e := Ext(name[..|name| - 1]);
      if e == "" then "" else e + [name[|name| - 1]]
  }

  lemma {:induction false} ExtIsSuffix(name: string)
    ensures |Ext(name)| <= |name| && name[|name| - |Ext(name)|..] == Ext(name)
  {
    if name != [] && name[|name| - 1] != '/' && name[|name| - 1] != '.' {
      ExtIsSuffix(name[..|name| - 1]);
    }
  }

  // ---- telling names apart ----

  // An entry of a folder: a folder with its own key, or a book with its id.
  datatype Item = Item(name: string, dir: bool, id: string)

  // Letter case is folded one character at a time; digits have no case.
  type Fold = char -> char

  ghost predicate FixesDigits(lower: Fold) { forall c :: IsDigit(c) ==> lower(c) == c }

  function Lower(lower: Fold, s: string): (r: string)
    ensures |r| == |s| && forall i :: 0 <= i < |s| ==> r[i] == lower(s[i])
  { seq(|s|, i requires 0 <= i < |s| => lower(s[i])) }

  // "name (2)", and for a file "name (2).ext".
  function Suffixed(item: Item, n: nat): string {
    var ext := if item.dir then "" else Ext(item.name);
    ExtIsSuffix(item.name);
    item.name[..|item.name| - |ext|] + " (" + Itoa(n) + ")" + ext
  }

  lemma SuffixesDiffer(lower: Fold, item: Item, m: nat, n: nat)
    requires FixesDigits(lower) && Lower(lower, Suffixed(item, m)) == Lower(lower, Suffixed(item, n))
    ensures m == n
  {
    ExtIsSuffix(item.name);
    var a, b := Suffixed(item, m), Suffixed(item, n);
    var ext := if item.dir then "" else Ext(item.name);
    var k := |item.name| - |ext| + 2;
    assert |a| == |b| && |Itoa(m)| == |Itoa(n)|;
    forall i | 0 <= i < |Itoa(m)| ensures Itoa(m)[i] == Itoa(n)[i] {
      assert a[k + i] == Itoa(m)[i] && b[k + i] == Itoa(n)[i];
      assert Lower(lower, a)[k + i] == Lower(lower, b)[k + i];
      assert Itoa(m)[i] in Itoa(m) && Itoa(n)[i] in Itoa(n);
    }
    ItoaInjective(m, n);
  }

  // A suffix keeps a name a path can hold, and keeps one it cannot hold.
  lemma SuffixedProper(item: Item, n: nat)
    ensures Suffixed(item, n) != "" && ('/' in Suffixed(item, n) <==> '/' in item.name)
  {
    ExtIsSuffix(item.name);
    var ext := if item.dir then "" else Ext(item.name);
    var base := item.name[..|item.name| - |ext|];
    assert item.name == base + ext;
    assert forall c <- Itoa(n) :: c != '/';
  }

  ghost predicate FirstSuffix(lower: Fold, used: set<string>, item: Item, n: nat) {
    && n >= 2 && Lower(lower, Suffixed(item, n)) !in used
    && forall k: nat :: 2 <= k < n ==> Lower(lower, Suffixed(item, k)) in used
  }

  // Suffixed names from the n-th on that are used are all among `left`.
  ghost predicate Remaining(lower: Fold, used: set<string>, left: set<string>, item: Item, n: nat) {
    && left <= used
    && forall k: nat :: k >= n && Lower(lower, Suffixed(item, k)) in used ==> Lower(lower, Suffixed(item, k)) in left
  }

  lemma NextRemaining(lower: Fold, used: set<string>, left: set<string>, item: Item, n: nat)
    requires FixesDigits(lower) && Remaining(lower, used, left, item, n) && Lower(lower, Suffixed(item, n)) in used
    ensures Remaining(lower, used, left - {Lower(lower, Suffixed(item, n))}, item, n + 1)
    ensures left - {Lower(lower, Suffixed(item, n))} < left
  {
    var gone := Lower(lower, Suffixed(item, n));
    forall k: nat | k >= n + 1 && Lower(lower, Suffixed(item, k)) in used
      ensures Lower(lower, Suffixed(item, k)) in left - {gone}
    {
      if Lower(lower, Suffixed(item, k)) == gone { SuffixesDiffer(lower, item, k, n); }
    }
  }

  // The renaming loop: it ends because only finitely many names are used.
  method FreeSuffix(lower: Fold, used: set<string>, item: Item) returns (n: nat)
    requires FixesDigits(lower)
    ensures FirstSuffix(lower, used, item, n)
  {
    n := 2;
    ghost var left := used;
    while Lower(lower, Suffixed(item, n)) in used
      invariant n >= 2 && Remaining(lower, used, left, item, n)
      invariant forall k: nat :: 2 <= k < n ==> Lower(lower, Suffixed(item, k)) in used
      decreases left
    {
      NextRemaining(lower, used, left, item, n);
      left := left - {Lower(lower, Suffixed(item, n))};
      n := n + 1;
    }
  }

  lemma {:induction false} SuffixExists(lower: Fold, used: set<string>, left: set<string>, item: Item, n: nat)
    requires FixesDigits(lower) && Remaining(lower, used, left, item, n) && n >= 2
    requires forall k: nat :: 2 <= k < n ==> Lower(lower, Suffixed(item, k)) in used
    ensures exists k: nat :: FirstSuffix(lower, used, item, k)
    decreases left
  {
    if Lower(lower, Suffixed(item, n)) in used {
      NextRemaining(lower, used, left, item, n);
      SuffixExists(lower, used, left - {Lower(lower, Suffixed(item, n))}, item, n + 1);
    } else {
      assert FirstSuffix(lower, used, item, n);
    }
  }

  ghost function NewName(lower: Fold, used: set<string>, item: Item): (name: string)
    requires FixesDigits(lower)
    ensures Lower(lower, name) !in used
    ensures exists n: nat :: name == Suffixed(item, n)
  {
    SuffixExists(lower, used, used, item, 2);
    var n: nat :| FirstSuffix(lower, used, item, n);
    Suffixed(item, n)
  }

  lemma NewNameIs(lower: Fold, used: set<string>, item: Item, n: nat)
    requires FixesDigits(lower) && FirstSuffix(lower, used, item, n)
    ensures NewName(lower, used, item) == Suffixed(item, n)
  {
    SuffixExists(lower, used, used, item, 2);
    forall i: nat, j: nat | FirstSuffix(lower, used, item, i) && FirstSuffix(lower, used, item, j) ensures i == j {
      assert !(i < j) && !(j < i);
    }
  }

  // An earlier entry has the name already.
  predicate Repeats(lower: Fold, items: seq<Item>, i: nat)
    requires i < |items|
  { exists j :: 0 <= j < i && Lower(lower, items[j].name) == Lower(lower, items[i].name) }

  // The entries that repeat a name, in their order.
  function Repeated(lower: Fold, items: seq<Item>, n: nat): (r: seq<nat>)
    requires n <= |items|
    ensures forall i :: i in r <==> 0 <= i < n && Repeats(lower, items, i)
    ensures forall k, l :: 0 <= k < l < |r| ==> r[k] != r[l]
  {
    if n == 0 then []
    else Repeated(lower, items, n - 1) + (if Repeats(lower, items, n - 1) then [n - 1] else [])
  }

  function AllNames(lower: Fold, items: seq<Item>): set<string> {
    set i | 0 <= i < |items| :: Lower(lower, items[i].name)
  }

  // Each of those entries gets a new name, in turn.
  ghost function Renamed(lower: Fold, items: seq<Item>, again: seq<nat>, used: set<string>): seq<Item>
    requires FixesDigits(lower) && forall i <- again :: i < |items|
    decreases |again|
  {
    if again == [] then items
    else
      var i := again[0];
      assert i in again && forall j <- again[1..] :: j in again;
      var name := NewName(lower, used, items[i]);
      Renamed(lower, items[i := items[i].(name := name)], again[1..], used + {Lower(lower, name)})
  }

  ghost function Disambiguated(lower: Fold, items: seq<Item>): seq<Item>
    requires FixesDigits(lower)
  { Renamed(lower, items, Repeated(lower, items, |items|), AllNames(lower, items)) }

  // Both passes over the slice: claims first, then the repeated names in place.
  method Disambiguate(lower: Fold, list: array<Item>)
    requires FixesDigits(lower)
    modifies list
    ensures list[..] == Disambiguated(lower, old(list[..]))
  {
    ghost var items := list[..];
    var used, duplicates := Claim(lower, list);
    assert duplicates[0..] == duplicates;
    for d := 0 to |duplicates|
      invariant forall i <- duplicates[d..] :: i in duplicates
      invariant Disambiguated(lower, items) == Renamed(lower, list[..], duplicates[d..], used)
    {
      var i := duplicates[d];
      assert i in duplicates;
      assert duplicates[d..][1..] == duplicates[d + 1..];
      var n := FreeSuffix(lower, used, list[i]);
      NewNameIs(lower, used, list[i], n);
      ghost var before := list[..];
      used := used + {Lower(lower, Suffixed(list[i], n))};
      list[i] := list[i].(name := Suffixed(list[i], n));
      assert list[..] == before[i := list[i]];
    }
  }

  // Which names are used, and which entries repeat one.
  method Claim(lower: Fold, list: array<Item>) returns (used: set<string>, duplicates: seq<nat>)
    ensures used == AllNames(lower, list[..])
    ensures duplicates == Repeated(lower, list[..], list.Length)
  {
    used, duplicates := {}, [];
    for i := 0 to list.Length
      invariant used == set k | 0 <= k < i :: Lower(lower, list[k].name)
      invariant duplicates == Repeated(lower, list[..], i)
    {
      assert |list[..]| == list.Length;
      var name := Lower(lower, list[i].name);
      assert name in used <==> Repeats(lower, list[..], i);
      if name in used {
        duplicates := duplicates + [i];
      } else {
        used := used + {name};
      }
    }
  }

  // ---- what the names promise ----

  ghost predicate Suffixes(was: Item, now: Item) {
    now.dir == was.dir && now.id == was.id && exists n: nat :: now.name == Suffixed(was, n)
  }

  ghost predicate RenamedWell(lower: Fold, items: seq<Item>, again: seq<nat>, used: set<string>, r: seq<Item>) {
    && |r| == |items| && (forall i <- again :: i < |items|)
    && (forall i :: 0 <= i < |r| && i !in again ==> r[i] == items[i])
    && (forall i <- again :: Suffixes(items[i], r[i]) && Lower(lower, r[i].name) !in used)
    && (forall i <- again, j <- again :: i != j ==> Lower(lower, r[i].name) != Lower(lower, r[j].name))
  }

  lemma {:induction false} RenamedAre(lower: Fold, items: seq<Item>, again: seq<nat>, used: set<string>)
    requires FixesDigits(lower) && forall i <- again :: i < |items|
    requires forall k, l :: 0 <= k < l < |again| ==> again[k] != again[l]
    ensures RenamedWell(lower, items, again, used, Renamed(lower, items, again, used))
    decreases |again|
  {
    if again != [] {
      var i, rest := again[0], again[1..];
      assert again == [i] + rest && i in again && forall j <- rest :: j in again;
      var name := NewName(lower, used, items[i]);
      var next := items[i := items[i].(name := name)];
      RenamedAre(lower, next, rest, used + {Lower(lower, name)});
      FirstRenamed(lower, items, i, rest, used, name, Renamed(lower, items, again, used));
    }
  }

  lemma FirstRenamed(lower: Fold, items: seq<Item>, i: nat, rest: seq<nat>, used: set<string>, name: string,
                     r: seq<Item>)
    requires i < |items| && i !in rest && (exists n: nat :: name == Suffixed(items[i], n))
    requires Lower(lower, name) !in used
    requires RenamedWell(lower, items[i := items[i].(name := name)], rest, used + {Lower(lower, name)}, r)
    ensures RenamedWell(lower, items, [i] + rest, used, r)
  {
    var next := items[i := items[i].(name := name)];
    assert r[i] == next[i] && Suffixes(items[i], r[i]);
    assert forall j <- rest :: next[j] == items[j];
  }

  // Within a folder no two names agree, whatever their letter case.
  lemma NamesAreDistinct(lower: Fold, items: seq<Item>)
    requires FixesDigits(lower)
    ensures var r := Disambiguated(lower, items);
            |r| == |items|
            && forall i, j :: 0 <= i < j < |r| ==> Lower(lower, r[i].name) != Lower(lower, r[j].name)
  {
    var r, used, again := Disambiguated(lower, items), AllNames(lower, items), Repeated(lower, items, |items|);
    RenamedAre(lower, items, again, used);
    forall i, j | 0 <= i < j < |r| ensures Lower(lower, r[i].name) != Lower(lower, r[j].name) {
      assert Lower(lower, items[i].name) in used && Lower(lower, items[j].name) in used;
      assert j !in again ==> !Repeats(lower, items, j);
    }
  }

  // Renaming keeps what an entry is, and the first claimant keeps its name.
  lemma RenamedEntries(lower: Fold, items: seq<Item>, i: nat)
    requires FixesDigits(lower) && i < |items|
    ensures var r := Disambiguated(lower, items);
            && |r| == |items| && r[i].dir == items[i].dir && r[i].id == items[i].id
            && (Proper(items[i].name) ==> Proper(r[i].name))
            && ('/' in items[i].name ==> '/' in r[i].name)
            && (!Repeats(lower, items, i) ==> r[i] == items[i])
  {
    var r, again := Disambiguated(lower, items), Repeated(lower, items, |items|);
    RenamedAre(lower, items, again, AllNames(lower, items));
    if i in again {
      assert Suffixes(items[i], r[i]);
      var n: nat :| r[i].name == Suffixed(items[i], n);
      SuffixedProper(items[i], n);
    }
  }
}
