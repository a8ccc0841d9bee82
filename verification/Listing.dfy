// Listing the live objects of one account, page by page.
module Listing {
  import opened Outcomes
  import opened Ordering
  import opened Prefix

  datatype Live = Live(etag: string, bytes: nat, published: nat)

  type Table = map<string, Live>

  datatype Page = Page(keys: seq<string>, truncated: bool, next: string)

  datatype Refusal = AccessDenied | InvalidArgument

  const MAX_KEYS := 1000

  // A listing stays inside the account, whatever prefix is asked for.
  function Effective(uid: string, prefix: string): string {
    if prefix == "" || prefix == uid then uid + "/" else prefix
  }

  predicate Allowed(uid: string, prefix: string) { prefix == "" || prefix == uid || StartsWith(prefix, uid + "/") }

  // The rows of the query: a range of the key index, after the marker.
  function RowsIn(t: Table, effective: string, upper: Option<string>, marker: string): set<string> {
    set k | k in t && InRange(k, effective, upper) && StartsWith(k, effective) && Compare(marker, k) < 0
  }

  function Rows(t: Table, effective: string, marker: string): set<string> {
    RowsIn(t, effective, Upper(effective), marker)
  }

  // The first keys, and one more row to tell whether there are others.
  ghost function PageOf(t: Table, effective: string, marker: string, max: nat): Page
    requires max > 0
  {
    FirstOf(SortedIds(Rows(t, effective, marker)), max)
  }

  function FirstOf(ids: seq<string>, max: nat): Page
    requires max > 0
  { if |ids| > max then Page(ids[..max], true, ids[max - 1]) else Page(ids, false, "") }

  method List(t: Table, uid: string, prefix: string, marker: string, maxKeys: Option<int>)
    returns (r: Result<Page, Refusal>)
    ensures r == Err(AccessDenied) <==> !(prefix == "" || prefix == uid || uid + "/" <= prefix)
    ensures r == Err(InvalidArgument) <==>
              Allowed(uid, prefix) && maxKeys.Some? && !(1 <= maxKeys.value <= 1000)
    ensures r.Ok? ==> r.value == PageOf(t, Effective(uid, prefix), marker, if maxKeys.Some? then maxKeys.value else MAX_KEYS)
  {
    if prefix != "" && prefix != uid && !StartsWith(prefix, uid + "/") { return Err(AccessDenied); }
    var max := MAX_KEYS;
    if maxKeys.Some? {
      if maxKeys.value < 1 || maxKeys.value > MAX_KEYS { return Err(InvalidArgument); }
      max := maxKeys.value;
    }
    var effective := prefix;
    if effective == "" || effective == uid { effective := uid + "/"; }
    var page := Fetch(t, effective, marker, max);
    return Ok(page);
  }

  method Fetch(t: Table, effective: string, marker: string, max: nat) returns (page: Page)
    requires max > 0
    ensures page == PageOf(t, effective, marker, max)
  {
    var upper := PrefixUpper(effective);
    var ids := SortIds(RowsIn(t, effective, upper, marker));
    var limit := if |ids| > max + 1 then max + 1 else |ids|;
    page := ReadRows(ids[..limit], max);
    assert ids[..limit][..|page.keys|] == ids[..|page.keys|];
  }

  // The row loop: it stops at the first row beyond the page.
  method ReadRows(rows: seq<string>, max: nat) returns (page: Page)
    requires max > 0
    ensures page == FirstOf(rows, max)
  {
    var keys: seq<string> := [];
    for i := 0 to |rows|
      invariant i <= max && keys == rows[..i]
    {
      if |keys| == max { return Page(keys, true, keys[max - 1]); }
      keys := keys + [rows[i]];
    }
    assert rows[..|rows|] == rows;
    return Page(keys, false, "");
  }

  // The index range and the prefix test select the same rows.
  lemma RowsAre(t: Table, effective: string, marker: string)
    ensures Rows(t, effective, marker) == set k | k in t && StartsWith(k, effective) && Compare(marker, k) < 0
  {
    forall k ensures InRange(k, effective, Upper(effective)) <==> StartsWith(k, effective) {
      PrefixIsRange(effective, k);
    }
  }

  // ---- walking by the next marker, while the table changes ----

  // One table per page fetched.
  ghost function WalkKeys(tables: seq<Table>, effective: string, marker: string, max: nat): seq<string>
    requires max > 0
    decreases |tables|
  {
    if tables == [] then []
    else
      var page := PageOf(tables[0], effective, marker, max);
      page.keys + if page.truncated then WalkKeys(tables[1..], effective, page.next, max) else []
  }

  ghost predicate Finishes(tables: seq<Table>, effective: string, marker: string, max: nat)
    requires max > 0
    decreases |tables|
  {
    && tables != []
    && var page := PageOf(tables[0], effective, marker, max);
       page.truncated ==> Finishes(tables[1..], effective, page.next, max)
  }

  ghost predicate Rising(marker: string, keys: seq<string>) {
    && (forall i :: 0 <= i < |keys| ==> Compare(marker, keys[i]) < 0)
    && (forall i, j :: 0 <= i < j < |keys| ==> Compare(keys[i], keys[j]) < 0)
  }

  lemma PageRises(t: Table, effective: string, marker: string, max: nat)
    requires max > 0
    ensures var page := PageOf(t, effective, marker, max);
            && Rising(marker, page.keys) && (forall k <- page.keys :: k in Rows(t, effective, marker))
            && (page.truncated ==> page.keys != [] && page.next == page.keys[|page.keys| - 1])
            && (forall k <- Rows(t, effective, marker) ::
                  k in page.keys || (page.truncated && Compare(page.next, k) < 0))
  {
    var rows := Rows(t, effective, marker);
    SortedIdsRise(rows);
    RowsFollow(t, effective, marker, SortedIds(rows));
    FirstRises(SortedIds(rows), marker, max);
  }

  lemma RowsFollow(t: Table, effective: string, marker: string, ids: seq<string>)
    requires forall k <- ids :: k in Rows(t, effective, marker)
    ensures forall i :: 0 <= i < |ids| ==> Compare(marker, ids[i]) < 0
  {
    forall i | 0 <= i < |ids| ensures Compare(marker, ids[i]) < 0 {
      assert ids[i] in ids;
    }
  }

  lemma FirstRises(ids: seq<string>, marker: string, max: nat)
    requires max > 0 && Rising(marker, ids)
    ensures var page := FirstOf(ids, max);
            && Rising(marker, page.keys) && (forall k <- page.keys :: k in ids)
            && (page.truncated ==> page.keys != [] && page.next == page.keys[|page.keys| - 1])
            && (forall k <- ids :: k in page.keys || (page.truncated && Compare(page.next, k) < 0))
  {
    var page := FirstOf(ids, max);
    forall k <- ids ensures k in page.keys || (page.truncated && Compare(page.next, k) < 0) {
      var i :| 0 <= i < |ids| && ids[i] == k;
      if i < |page.keys| { assert page.keys[i] == k; }
    }
  }

  lemma SortedIdsRise(s: set<string>)
    ensures forall i, j :: 0 <= i < j < |SortedIds(s)| ==> Compare(SortedIds(s)[i], SortedIds(s)[j]) < 0
  {
    StringsAreOrdered();
    var r := SortedIds(s);
    forall i, j | 0 <= i < j < |r| ensures Compare(r[i], r[j]) < 0 {
      assert Ascending(Compare, r);
    }
  }

  lemma JoinRises(marker: string, a: seq<string>, b: seq<string>)
    requires a != [] && Rising(marker, a) && Rising(a[|a| - 1], b)
    ensures Rising(marker, a + b)
  {
    var keys, last := a + b, a[|a| - 1];
    forall i | 0 <= i < |keys| ensures Compare(marker, keys[i]) < 0 {
      if i >= |a| { Between(marker, last, keys[i]); }
    }
    forall i, j | 0 <= i < j < |keys| ensures Compare(keys[i], keys[j]) < 0 {
      if i < |a| <= j && i != |a| - 1 { Between(keys[i], last, keys[j]); }
    }
  }

  lemma Between(a: string, b: string, c: string)
    requires Compare(a, b) < 0 && Compare(b, c) < 0
    ensures Compare(a, c) < 0
  {
    IdsTransitive(a, b, c);
    IdsCompare(a, c);
    IdsCompare(a, b);
    IdsCompare(b, c);
  }

  // The keys of a walk rise strictly, so none appears twice.
  lemma {:induction false} WalkRises(tables: seq<Table>, effective: string, marker: string, max: nat)
    requires max > 0
    ensures Rising(marker, WalkKeys(tables, effective, marker, max))
    decreases |tables|
  {
    if tables != [] {
      var page := PageOf(tables[0], effective, marker, max);
      PageRises(tables[0], effective, marker, max);
      if page.truncated {
        WalkRises(tables[1..], effective, page.next, max);
        JoinRises(marker, page.keys, WalkKeys(tables[1..], effective, page.next, max));
      } else {
        assert page.keys + [] == page.keys;
      }
    }
  }

  lemma RisingDistinct(marker: string, keys: seq<string>, i: nat, j: nat)
    requires Rising(marker, keys) && i < j < |keys|
    ensures keys[i] != keys[j]
  {
    IdsCompare(keys[i], keys[j]);
  }

  // A key that is there throughout a walk that finishes appears in it, exactly
  // once, whatever else comes and goes between the pages.
  lemma {:induction false} WalkFinds(tables: seq<Table>, effective: string, marker: string, max: nat, k: string)
    requires max > 0 && Finishes(tables, effective, marker, max)
    requires StartsWith(k, effective) && Compare(marker, k) < 0 && forall t <- tables :: k in t
    ensures k in WalkKeys(tables, effective, marker, max)
    decreases |tables|
  {
    var page := PageOf(tables[0], effective, marker, max);
    assert tables[0] in tables;
    RowsAre(tables[0], effective, marker);
    PageRises(tables[0], effective, marker, max);
    if k !in page.keys {
      assert forall t <- tables[1..] :: t in tables;
      WalkFinds(tables[1..], effective, page.next, max, k);
    }
  }

  lemma WalkFindsOnce(tables: seq<Table>, effective: string, marker: string, max: nat, k: string)
    requires max > 0 && Finishes(tables, effective, marker, max)
    requires StartsWith(k, effective) && Compare(marker, k) < 0 && forall t <- tables :: k in t
    ensures var keys := WalkKeys(tables, effective, marker, max);
            exists i :: 0 <= i < |keys| && keys[i] == k && forall j :: 0 <= j < |keys| && keys[j] == k ==> j == i
  {
    var keys := WalkKeys(tables, effective, marker, max);
    WalkFinds(tables, effective, marker, max, k);
    WalkRises(tables, effective, marker, max);
    OnceIn(marker, keys, k);
  }

  lemma OnceIn(marker: string, keys: seq<string>, k: string)
    requires Rising(marker, keys) && k in keys
    ensures exists i :: 0 <= i < |keys| && keys[i] == k && forall j :: 0 <= j < |keys| && keys[j] == k ==> j == i
  {
    var i :| 0 <= i < |keys| && keys[i] == k;
    forall j | 0 <= j < |keys| && keys[j] == k ensures j == i {
      if j < i { RisingDistinct(marker, keys, j, i); }
      if i < j { RisingDistinct(marker, keys, i, j); }
    }
  }

  // And a walk lists nothing but keys under the prefix that were there when
  // their page was fetched.
  lemma {:induction false} WalkListsLive(tables: seq<Table>, effective: string, marker: string, max: nat, k: string)
    requires max > 0 && k in WalkKeys(tables, effective, marker, max)
    ensures StartsWith(k, effective) && exists t :: t in tables && k in t
    decreases |tables|
  {
    var page := PageOf(tables[0], effective, marker, max);
    PageRises(tables[0], effective, marker, max);
    if k in page.keys {
      assert tables[0] in tables && k in tables[0];
    } else {
      WalkListsLive(tables[1..], effective, page.next, max, k);
      var t :| t in tables[1..] && k in t;
      assert t in tables;
    }
  }

  // No listing leaves the account.
  lemma StaysInAccount(uid: string, prefix: string, k: string)
    requires Allowed(uid, prefix) && StartsWith(k, Effective(uid, prefix))
    ensures StartsWith(k, uid + "/")
  {
    var home := uid + "/";
    if StartsWith(prefix, home) && prefix != "" && prefix != uid {
      assert k[..|home|] == k[..|prefix|][..|home|];
    }
  }

  // A page has as many keys as fit, and is cut off exactly when there are more;
  // then the next marker is its last key.
  lemma PageIsExact(t: Table, effective: string, marker: string, max: nat)
    requires max > 0
    ensures var page, rows := PageOf(t, effective, marker, max), Rows(t, effective, marker);
            && (forall k <- page.keys :: k in rows)
            && |page.keys| == (if |rows| < max then |rows| else max)
            && (page.truncated <==> |rows| > max)
            && page.next == (if |rows| > max then page.keys[max - 1] else "")
  {
    var ids := SortedIds(Rows(t, effective, marker));
    assert forall k <- ids[..if |ids| > max then max else |ids|] :: k in ids;
    assert ids[..|ids|] == ids;
  }

  // The keys looked through are those of the account under the prefix asked for.
  lemma EffectiveIs(uid: string, prefix: string, k: string)
    requires prefix == "" || prefix == uid || uid + "/" <= prefix
    ensures StartsWith(k, Effective(uid, prefix)) <==> uid + "/" <= k && prefix <= k
  {
    if uid + "/" <= k { assert k[..|uid|] == (uid + "/")[..|uid|] == uid; }
    if uid + "/" <= prefix && prefix <= k { assert k[..|uid| + 1] == prefix[..|uid| + 1]; }
  }
}
