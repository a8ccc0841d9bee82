// The bounded cache of page previews, and its fence against purged notebooks.
module PreviewCache {
  import opened Outcomes
  import opened Decimal

  type Bytes = seq<bv8>

  datatype Preview = Preview(png: Bytes, texts: seq<Bytes>, warnings: seq<Bytes>, notices: seq<Bytes>, access: nat)

  type Items = map<string, Preview>

  // Every worker is busy, or the page could not be drawn.
  datatype RenderError = Busy | Undrawn

  const MAX_ENTRY := 0x100_0000  // 16 MiB
  const MAX_BYTES := 0x400_0000  // 64 MiB
  const MAX_ITEMS := 64

  function Total(texts: seq<Bytes>): nat {
    if texts == [] then 0 else Total(texts[..|texts| - 1]) + |texts[|texts| - 1]|
  }

  function Size(v: Preview): nat { |v.png| + Total(v.texts) + Total(v.warnings) + Total(v.notices) }

  function Joined(texts: seq<Bytes>): Bytes { if texts == [] then [] else texts[0] + Joined(texts[1..]) }

  lemma {:induction false} TotalFront(texts: seq<Bytes>)
    requires texts != []
    ensures Total(texts) == |texts[0]| + Total(texts[1..])
    decreases |texts|
  {
    var front := texts[..|texts| - 1];
    if front != [] {
      TotalFront(front);
      assert texts[1..][..|texts[1..]| - 1] == front[1..];
    }
  }

  lemma {:induction false} TotalIs(texts: seq<Bytes>)
    ensures Total(texts) == |Joined(texts)|
    decreases |texts|
  {
    if texts != [] {
      TotalFront(texts);
      TotalIs(texts[1..]);
    }
  }

  // A preview is as large as all it holds, put together.
  lemma SizeIs(v: Preview)
    ensures Size(v) == |v.png + Joined(v.texts) + Joined(v.warnings) + Joined(v.notices)|
  {
    TotalIs(v.texts);
    TotalIs(v.warnings);
    TotalIs(v.notices);
  }

  method PreviewSize(v: Preview) returns (n: nat)
    ensures n == Size(v)
  {
    n := |v.png|;
    var lists := [v.texts, v.warnings, v.notices];
    for i := 0 to |lists|
      invariant n == |v.png| + (if i > 0 then Total(v.texts) else 0) + (if i > 1 then Total(v.warnings) else 0)
                     + (if i > 2 then Total(v.notices) else 0)
    {
      ghost var before := n;
      for j := 0 to |lists[i]|
        invariant n == before + Total(lists[i][..j])
      {
        assert lists[i][..j + 1][..j] == lists[i][..j];
        n := n + |lists[i][j]|;
      }
      assert lists[i][..|lists[i]|] == lists[i];
    }
  }

  // ---- keys ----

  function Key(library: string, id: string, version: string, page: nat): string {
    library + ":" + id + ":" + version + ":" + Itoa(page)
  }

  function Notebook(library: string, id: string): string { library + ":" + id }

  // How far the first colon is.
  function Cut(s: string): (i: nat)
    ensures i <= |s| && (forall k :: 0 <= k < i ==> s[k] != ':') && (i < |s| ==> s[i] == ':')
  {
    if s == "" || s[0] == ':' then 0 else 1 + Cut(s[1..])
  }

  // The notebook a key is taken to belong to: up to its second colon.
  function NotebookOf(key: string): string {
    var i := Cut(key);
    if i == |key| then "" else var rest := key[i + 1..]; key[..i] + ":" + rest[..Cut(rest)]
  }

  predicate HasPrefix(key: string, prefix: string) { |prefix| <= |key| && key[..|prefix|] == prefix }

  lemma CutIs(s: string, i: nat)
    requires i < |s| && s[i] == ':' && forall k :: 0 <= k < i ==> s[k] != ':'
    ensures Cut(s) == i
  {}

  lemma NotebookOfPlain(library: string, id: string, rest: string)
    requires ':' !in library && ':' !in id
    ensures NotebookOf(library + ":" + id + ":" + rest) == Notebook(library, id)
  {
    var key := library + ":" + id + ":" + rest;
    CutIs(key, |library|);
    var tail := key[|library| + 1..];
    assert tail == id + ":" + rest;
    CutIs(tail, |id|);
    assert tail[..|id|] == id && key[..|library|] == library;
  }

  lemma NotebookOfHasOneColon(key: string, library: string, id: string)
    requires ':' in library || ':' in id
    ensures NotebookOf(key) != Notebook(library, id)
  {
    var whole, n, i := Notebook(library, id), NotebookOf(key), Cut(key);
    assert whole[|library|] == ':';
    if ':' in library {
      var k :| 0 <= k < |library| && library[k] == ':';
      assert whole[k] == ':';
    } else {
      var k :| 0 <= k < |id| && id[k] == ':';
      assert whole[|library| + 1 + k] == ':';
    }
    assert exists p :: 0 <= p < |whole| && p != |library| && whole[p] == ':';
    assert i < |key| ==> forall k :: 0 <= k < |n| && k != i ==> n[k] != ':';
  }

  // The purge fence recognises a notebook's keys exactly when neither its id nor
  // the library id holds a colon.
  lemma FenceHoldsIff(library: string, id: string, version: string, page: nat)
    ensures NotebookOf(Key(library, id, version, page)) == Notebook(library, id) <==> ':' !in library && ':' !in id
  {
    if ':' !in library && ':' !in id {
      NotebookOfPlain(library, id, version + ":" + Itoa(page));
      assert Key(library, id, version, page) == library + ":" + id + ":" + (version + ":" + Itoa(page));
    } else {
      NotebookOfHasOneColon(Key(library, id, version, page), library, id);
    }
  }

  // So a preview of a purged notebook whose id holds a colon is kept again.
  lemma ColonSlipsFence(v: Preview)
    requires Size(v) <= MAX_ENTRY
    ensures !Refused({Notebook("library", "a:b")}, Key("library", "a:b", "1", 1), v)
  {
    assert "a:b"[1] == ':';
    FenceHoldsIff("library", "a:b", "1", 1);
  }

  // Its keys under the fence are the ones a purge deletes.
  lemma FencedHasPrefix(key: string, library: string, id: string)
    requires NotebookOf(key) == Notebook(library, id) && key != Notebook(library, id)
    ensures HasPrefix(key, Notebook(library, id) + ":")
  {
    var i := Cut(key);
    var rest := key[i + 1..];
    var j := Cut(rest);
    assert key[..i + 1 + j] == key[..i] + ":" + rest[..j];
    assert key[..i + 1 + j] == Notebook(library, id);
    assert j < |rest| by { assert key[..|key|] == key; }
    assert rest[j] == ':' && key[i + 1 + j] == ':';
  }

  // Every key has all its parts, so the fence can tell the notebook apart from it.
  lemma KeysFit(library: string, id: string, version: string, page: nat)
    ensures var key := Key(library, id, version, page); key != "" && NotebookOf(key) != key
  {
    var key := Key(library, id, version, page);
    var i := Cut(key);
    assert key[|library|] == ':' && key[|library| + 1 + |id|] == ':' && key[|library| + |id| + |version| + 2] == ':';
    var n := NotebookOf(key);
    assert i < |key| && forall k :: 0 <= k < |n| && k != i ==> n[k] != ':';
  }

  // ---- accounting ----

  ghost function Sum(m: Items): nat
    decreases |m|
  {
    if m == map[] then 0
    else
      var k :| k in m;
      Size(m[k]) + Sum(m - {k})
  }

  lemma {:induction false} SumWithout(m: Items, k: string)
    requires k in m
    ensures Sum(m) == Size(m[k]) + Sum(m - {k})
    decreases |m|
  {
    var first :| first in m && Sum(m) == Size(m[first]) + Sum(m - {first});
    if first != k {
      SumWithout(m - {first}, k);
      SumWithout(m - {k}, first);
      assert m - {first} - {k} == m - {k} - {first};
    }
  }

  lemma SumWith(m: Items, k: string, v: Preview)
    requires k !in m
    ensures Sum(m[k := v]) == Sum(m) + Size(v)
  {
    SumWithout(m[k := v], k);
    assert m[k := v] - {k} == m;
  }

  lemma SumTouched(m: Items, k: string, v: Preview)
    requires k in m && Size(v) == Size(m[k])
    ensures Sum(m[k := v]) == Sum(m)
  {
    SumWithout(m, k);
    SumWith(m - {k}, k, v);
    assert (m - {k})[k := v] == m[k := v];
  }

  lemma SumReplaced(m: Items, k: string, v: Preview)
    ensures Sum(m[k := v]) == Sum(m) - (if k in m then Size(m[k]) else 0) + Size(v)
  {
    if k in m {
      SumWithout(m, k);
      SumWith(m - {k}, k, v);
      assert (m - {k})[k := v] == m[k := v];
    } else {
      SumWith(m, k, v);
    }
  }

  predicate TooMuch(bytes: int, count: nat) { bytes > MAX_BYTES || count > MAX_ITEMS }

  // Entries are small, under full keys, and none belongs to a purged notebook.
  ghost predicate Fit(items: Items, purged: set<string>) {
    forall k <- items :: k != "" && NotebookOf(k) != k && NotebookOf(k) !in purged && Size(items[k]) <= MAX_ENTRY
  }

  lemma FitPart(full: Items, left: Items, purged: set<string>)
    requires Fit(full, purged) && Part(full, left)
    ensures Fit(left, purged)
  {}

  lemma FitPut(items: Items, purged: set<string>, key: string, v: Preview)
    requires Fit(items, purged) && key != "" && NotebookOf(key) != key && !Refused(purged, key, v)
    ensures Fit(items[key := v], purged) && "" !in items[key := v]
  {}

  // Deleting by prefix deletes all the fence covers.
  lemma FitPurged(items: Items, left: Items, purged: set<string>, library: string, id: string)
    requires Fit(items, purged) && left == Unprefixed(items, Notebook(library, id) + ":")
    ensures Fit(left, purged + {Notebook(library, id)})
  {
    forall k <- left ensures NotebookOf(k) != Notebook(library, id) {
      if NotebookOf(k) == Notebook(library, id) { FencedHasPrefix(k, library, id); }
    }
  }

  function Unprefixed(items: Items, prefix: string): Items {
    map k | k in items && !HasPrefix(k, prefix) :: items[k]
  }

  // ---- the cache ----

  class Cache {
    const library: string
    var items: Items
    var bytes: int
    var purged: set<string>

    ghost predicate Valid()
      reads this
    {
      bytes == Sum(items) && bytes <= 64 * 1024 * 1024 && |items| <= 64 && Fit(items, purged)
    }

    constructor (library: string)
      ensures Valid() && this.library == library && items == map[] && purged == {}
    {
      this.library, items, bytes, purged := library, map[], 0, {};
    }

    method Cached(key: string, now: nat) returns (v: Option<Preview>)
      requires Valid()
      modifies this`items
      ensures Valid() && items.Keys == old(items).Keys
      ensures v.Some? <==> key in old(items)
      ensures v.Some? ==> v.value == old(items)[key].(access := now) && items == old(items)[key := v.value]
      ensures v.None? ==> items == old(items)
      ensures NotebookOf(key) in purged ==> v.None?
    {
      if NotebookOf(key) in purged { return None; }
      if key !in items { return None; }
      v := Some(items[key].(access := now));
      SumTouched(items, key, v.value);
      items := items[key := v.value];
    }

    // The entry looked at longest ago.
    method Oldest() returns (oldest: string)
      requires items != map[] && "" !in items
      ensures oldest in items && forall k <- items :: items[oldest].access <= items[k].access
    {
      oldest := "";
      var at := 0;
      var rest := items.Keys;
      while rest != {}
        invariant rest <= items.Keys
        invariant oldest == "" ==> rest == items.Keys
        invariant oldest != "" ==> oldest in items && oldest !in rest && at == items[oldest].access
        invariant oldest != "" ==> forall k <- items :: k !in rest ==> items[oldest].access <= items[k].access
        decreases rest
      {
        var k :| k in rest;
        if oldest == "" || items[k].access < at {
          oldest, at := k, items[k].access;
        }
        rest := rest - {k};
      }
    }

    // Entries go, longest unused first, until the cache fits its limits.
    method Evict()
      requires bytes == Sum(items) && "" !in items
      modifies this`items, this`bytes
      ensures bytes == Sum(items) && bytes <= 64 * 1024 * 1024 && |items| <= 64
      ensures Evicted(old(items), items)
    {
      assert items - {} == items;
      while TooMuch(bytes, |items|)
        invariant bytes == Sum(items) && "" !in items
        invariant Evicted(old(items), items)
        decreases |items|
      {
        SomeLeft(items);
        var oldest := Oldest();
        EvictMore(old(items), items, oldest);
        Drop(oldest);
      }
    }

    method Drop(k: string)
      requires bytes == Sum(items) && k in items
      modifies this`items, this`bytes
      ensures bytes == Sum(items) <= old(bytes) && items == old(items) - {k} && |items| < old(|items|)
    {
      SumWithout(items, k);
      WithoutOne(items, k);
      var size := PreviewSize(items[k]);
      bytes := bytes - size;
      items := items - {k};
    }

    method Store(key: string, v: Preview, now: nat)
      requires Valid() && key != "" && NotebookOf(key) != key
      modifies this`items, this`bytes
      ensures Valid()
      ensures Refused(purged, key, v) ==> items == old(items)
      ensures !Refused(purged, key, v) ==> Evicted(old(items)[key := v.(access := now)], items)
      ensures !Refused(purged, key, v) && (forall k <- old(items) :: k != key ==> old(items)[k].access < now) ==>
                key in items && items[key] == v.(access := now)
    {
      var size := PreviewSize(v);
      if size > MAX_ENTRY || NotebookOf(key) in purged { return; }
      FitPut(items, purged, key, v.(access := now));
      Put(key, v.(access := now), size);
      ghost var full := items;
      Evict();
      FitPart(full, items, purged);
      NewestStays(full, items, key);
    }

    method Put(key: string, v: Preview, size: nat)
      requires bytes == Sum(items) && size == Size(v)
      modifies this`items, this`bytes
      ensures bytes == Sum(items) && items == old(items)[key := v]
    {
      SumReplaced(items, key, v);
      if key in items {
        var before := PreviewSize(items[key]);
        bytes := bytes - before;
      }
      items := items[key := v];
      bytes := bytes + size;
    }

    // The preview of a page: the cached one, or the one `drawn` if a worker is
    // free. One with warnings may lack files that arrive later; it is not kept.
    method RenderPreview(id: string, version: string, page: nat, free: bool,
                         drawn: Result<Preview, RenderError>, now: nat)
      returns (r: Result<Preview, RenderError>)
      requires Valid()
      modifies this`items, this`bytes
      ensures Valid()
      ensures var key := Key(library, id, version, page);
              if key in old(items) then
                r == Ok(old(items)[key].(access := now)) && items == old(items)[key := r.value]
              else if !free then r == Err(Busy) && items == old(items)
              else
                && r == drawn
                && (if drawn.Ok? && drawn.value.warnings == [] && !Refused(purged, key, drawn.value) then
                      Evicted(old(items)[key := drawn.value.(access := now)], items)
                    else items == old(items))
      ensures Notebook(library, id) in purged && ':' !in library && ':' !in id ==>
                items == old(items) && r == (if free then drawn else Err(Busy))
    {
      var key := Key(library, id, version, page);
      KeysFit(library, id, version, page);
      FenceHoldsIff(library, id, version, page);
      var hit := Cached(key, now);
      if hit.Some? { return Ok(hit.value); }
      if !free { return Err(Busy); }
      r := drawn;
      if drawn.Ok? && drawn.value.warnings == [] { Store(key, drawn.value, now); }
    }

    // A purge: the notebook's previews go, and its keys are fenced from then on.
    method Forget(id: string)
      requires Valid()
      modifies this`items, this`bytes, this`purged
      ensures Valid() && purged == old(purged) + {Notebook(library, id)}
      ensures items == Unprefixed(old(items), Notebook(library, id) + ":")
    {
      purged := purged + {Notebook(library, id)};
      DropPrefix(Notebook(library, id) + ":");
      FitPurged(old(items), items, old(purged), library, id);
    }

    method DropPrefix(prefix: string)
      requires bytes == Sum(items) && !TooMuch(bytes, |items|)
      modifies this`items, this`bytes
      ensures bytes == Sum(items) && !TooMuch(bytes, |items|) && items == Unprefixed(old(items), prefix)
    {
      var rest := items.Keys;
      while rest != {}
        invariant rest <= items.Keys
        invariant Part(old(items), items)
        invariant forall k <- old(items) :: k in items <==> k in rest || !HasPrefix(k, prefix)
        invariant bytes == Sum(items) && !TooMuch(bytes, |items|)
        decreases rest
      {
        var k :| k in rest;
        if HasPrefix(k, prefix) { Drop(k); }
        rest := rest - {k};
      }
    }
  }

  predicate Refused(purged: set<string>, key: string, v: Preview) { Size(v) > MAX_ENTRY || NotebookOf(key) in purged }

  // What is left after evicting: nothing that goes was used after something that
  // stays, and nothing goes without need.
  ghost predicate Evicted(full: Items, left: Items) {
    Part(full, left) && OldestOut(full, left) && (left == full || exists last :: LastOut(full, left, last))
  }

  ghost predicate Part(full: Items, left: Items) { forall k <- left :: k in full && left[k] == full[k] }

  ghost predicate OldestOut(full: Items, left: Items) {
    forall gone <- full, k <- left :: gone !in left ==> full[gone].access <= left[k].access
  }

  // The last to go: until then the cache held too much.
  ghost predicate LastOut(full: Items, left: Items, last: string) {
    && last in full && last !in left
    && (Sum(left[last := full[last]]) > 64 * 1024 * 1024 || |left| + 1 > 64)
    && (forall gone <- full :: gone !in left ==> full[gone].access <= full[last].access)
  }

  lemma SomeLeft(m: Items)
    requires TooMuch(Sum(m), |m|)
    ensures m != map[]
  {}

  lemma WithoutOne(m: Items, k: string)
    requires k in m
    ensures |m - {k}| + 1 == |m| && (m - {k})[k := m[k]] == m
  {
    assert m.Keys == (m - {k}).Keys + {k};
  }

  lemma EvictMore(full: Items, left: Items, oldest: string)
    requires Evicted(full, left) && oldest in left && TooMuch(Sum(left), |left|)
    requires forall k <- left :: left[oldest].access <= left[k].access
    ensures Evicted(full, left - {oldest})
  {
    WithoutOne(left, oldest);
    EvictOrder(full, left, oldest);
    assert LastOut(full, left - {oldest}, oldest);
  }

  lemma EvictOrder(full: Items, left: Items, oldest: string)
    requires Part(full, left) && OldestOut(full, left) && oldest in left
    requires forall k <- left :: left[oldest].access <= left[k].access
    ensures Part(full, left - {oldest}) && OldestOut(full, left - {oldest})
    ensures forall gone <- full :: gone !in left - {oldest} ==> full[gone].access <= full[oldest].access
  {}

  lemma SumOne(k: string, v: Preview)
    ensures Sum(map[k := v]) == Size(v)
  {
    var none: Items := map[];
    SumWith(none, k, v);
    assert none[k := v] == map[k := v];
  }

  // The entry used last stays, whatever its fellows, when it fits at all.
  lemma NewestStays(full: Items, left: Items, key: string)
    requires Evicted(full, left) && key in full && Size(full[key]) <= MAX_ENTRY
    ensures (forall k <- full :: k != key ==> full[k].access < full[key].access) ==> key in left
  {
    if left != full {
      var last :| LastOut(full, left, last);
      SumOne(key, full[key]);
      assert left == map[] ==> left[last := full[last]] == map[last := full[last]];
      assert left != map[] ==> exists k :: k in left;
    }
  }
}
