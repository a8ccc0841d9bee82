// What a lookup finds in a folder, and where paths end.
module FileLookups {
  import opened Outcomes
  import opened Ordering
  import opened Library
  import opened FileNames
  import opened SlashPaths
  import opened FileView

  // ---- one folder ----

  lemma {:induction false} FindMore(list: seq<Entry>, more: seq<Entry>, name: string)
    ensures Find(list + more, name) == if Find(list, name).Some? then Find(list, name) else Find(more, name)
    decreases |list|
  {
    if list == [] {
      assert list + more == more;
    } else {
      assert (list + more)[1..] == list[1..] + more;
      FindMore(list[1..], more, name);
    }
  }

  lemma {:induction false} FindPlaceholders(list: seq<Entry>, key: string, names: seq<string>, name: string)
    ensures Find(WithPlaceholders(list, key, names), name)
            == if Find(list, name).Some? then Find(list, name)
               else if name in names then Some(Entry(key, Item(name, false, ""), true))
               else None
    decreases |names|
  {
    if names != [] {
      var first := [Placeholder(key, names[0])];
      FindMore(list, first, name);
      assert first[1..] == [];
      FindPlaceholders(if Find(list, names[0]).Some? then list else list + first, key, names[1..], name);
    }
  }

  lemma {:induction false} FindEntries(key: string, items: seq<Item>, name: string)
    ensures Find(Entries(key, items), name).Some? <==> exists e :: e in items && e.name == name
    ensures Find(Entries(key, items), name).Some? ==>
              exists e :: e in items && e.name == name && Find(Entries(key, items), name) == Some(Entry(key, e, false))
    decreases |items|
  {
    if items != [] {
      assert Entries(key, items)[1..] == Entries(key, items[1..]);
      FindEntries(key, items[1..], name);
      assert items == [items[0]] + items[1..];
    }
  }

  // A folder has the entries that are listed under their names, and for any other
  // name it is given a placeholder, which is no folder; nothing else.
  lemma FolderFinds(lower: Fold, v: Snapshot, key: string, name: string, placeholders: Placeholders)
    requires FixesDigits(lower)
    ensures var r, listed := Find(Children(lower, v, key, placeholders), name), Listing(lower, v, key);
            && ((exists e :: e in listed && e.name == name) ==>
                  exists e :: e in listed && e.name == name && r == Some(Entry(key, e, false)))
            && ((forall e <- listed :: e.name != name) ==>
                  r == if name in placeholders(key) then Some(Entry(key, Item(name, false, ""), true)) else None)
  {
    FindPlaceholders(Entries(key, Listing(lower, v, key)), key, placeholders(key), name);
    FindEntries(key, Listing(lower, v, key), name);
  }

  // ---- paths ----

  // No path leads on from a book or from a placeholder.
  lemma NothingBelow(lower: Fold, v: Snapshot, path: seq<string>, part: string, placeholders: Placeholders)
    requires FixesDigits(lower) && Resolve(lower, v, path, placeholders).Some?
    requires var e := Resolve(lower, v, path, placeholders).value; !e.item.dir || e.placeholder
    ensures Resolve(lower, v, path + [part], placeholders) == None
  {
    assert (path + [part])[..|path|] == path;
  }

  // From a folder it leads to what the folder finds.
  lemma OneBelow(lower: Fold, v: Snapshot, path: seq<string>, part: string, placeholders: Placeholders)
    requires FixesDigits(lower) && Resolve(lower, v, path, placeholders).Some?
    requires var e := Resolve(lower, v, path, placeholders).value; e.item.dir && !e.placeholder
    ensures Resolve(lower, v, path + [part], placeholders)
            == Find(Children(lower, v, Resolve(lower, v, path, placeholders).value.item.id, placeholders), part)
  {
    assert (path + [part])[..|path|] == path;
  }

  // Slashes around a path do not count; without anything else it is the root, and
  // more than 34 parts lead nowhere.
  lemma LookupLimits(lower: Fold, v: Snapshot, p: string, placeholders: Placeholders)
    requires FixesDigits(lower)
    ensures var r, parts := LookupOf(lower, v, p, placeholders), Split(Trim(p));
            && (parts == [""] ==> r == Some(Entry("", Item("", true, ""), false)))
            && (parts != [""] && |parts| > 34 ==> r == None)
            && (parts != [""] && |parts| <= 34 ==> r == Resolve(lower, v, parts, placeholders))
  {}

  ghost predicate Slashes(s: string) { forall c :: c in s ==> c == '/' }

  lemma {:induction false} TrimLeftIs(s: string) returns (a: string)
    ensures Slashes(a) && s == a + TrimLeft(s) && (TrimLeft(s) != "" ==> TrimLeft(s)[0] != '/')
    decreases |s|
  {
    if s != "" && s[0] == '/' {
      var rest := TrimLeftIs(s[1..]);
      a := "/" + rest;
    } else {
      a := "";
    }
  }

  lemma {:induction false} TrimRightIs(s: string) returns (b: string)
    ensures Slashes(b) && s == TrimRight(s) + b
    ensures TrimRight(s) != "" ==> TrimRight(s)[|TrimRight(s)| - 1] != '/' && TrimRight(s)[0] == s[0]
    decreases |s|
  {
    if s != "" && s[|s| - 1] == '/' {
      var rest := TrimRightIs(s[..|s| - 1]);
      b := rest + "/";
      assert s == s[..|s| - 1] + "/";
    } else {
      b := "";
    }
  }

  // Just the slashes around a path are taken off.
  lemma TrimIs(s: string) returns (a: string, b: string)
    ensures Slashes(a) && Slashes(b) && s == a + Trim(s) + b
    ensures Trim(s) != "" ==> Trim(s)[0] != '/' && Trim(s)[|Trim(s)| - 1] != '/'
  {
    a := TrimLeftIs(s);
    b := TrimRightIs(TrimLeft(s));
    assert a + (Trim(s) + b) == a + Trim(s) + b;
  }
}
