// A page's shapes, merged across its archives; archives the firmware zeroed are
// counted.
module PageShapes {
  import opened Outcomes
  import opened Ordering
  import opened Merge

  datatype Pen = Pen(id: string, updatedAt: int, body: string)

  // What loading an archive gives: the declared size of each file in it, its
  // bytes and records if they can be read.
  datatype File = Directory | File(declared: nat, bytes: Option<nat>, records: Option<seq<Pen>>)
  datatype Archive = Unavailable | Zeros | Broken | Zip(files: seq<File>)

  const BY_PEN := Fields((r: Pen) => r.id, (r: Pen) => r.updatedAt)

  const MAX_FILE := 0x100_0000   // 16 MiB
  const MAX_DECODED := 0x800_0000  // 128 MiB
  const MAX_RECORDS := 500000
  const MAX_SHAPES := 50000

  // ---- what the archives hold, in reading order ----

  datatype Item = Zeroed(at: int) | Decoded(bytes: nat) | Record(pen: Pen) | Fail(error: Refusal)

  function Recorded(records: seq<Pen>): seq<Item> { seq(|records|, i requires 0 <= i < |records| => Record(records[i])) }

  function FileItems(f: File): seq<Item> {
    match f
    case Directory => []
    case File(declared, bytes, records) =>
      if declared > MAX_FILE then [Fail(TooLarge)]
      else if bytes.None? || bytes.value > MAX_FILE then [Fail(Unreadable)]
      else if records.None? then [Decoded(bytes.value), Fail(Unreadable)]
      else [Decoded(bytes.value)] + Recorded(records.value)
  }

  function FilesItems(files: seq<File>): seq<Item> {
    if files == [] then [] else FilesItems(files[..|files| - 1]) + FileItems(files[|files| - 1])
  }

  function ArchiveItems(a: Archive, at: int): seq<Item> {
    match a
    case Unavailable => [Fail(Unreadable)]
    case Zeros => [Zeroed(at)]
    case Broken => [Fail(Unreadable)]
    case Zip(files) => FilesItems(files)
  }

  predicate OfPage(page: string, key: string) {
    var prefix := "shape/" + page + "#";
    |prefix| <= |key| && key[..|prefix|] == prefix && |key| >= 4 && key[|key| - 4..] == ".zip"
  }

  function PageItems(page: string, keys: seq<string>, load: string -> Archive, stamp: string -> int): seq<Item>
    decreases |keys|
  {
    if keys == [] then []
    else
      var key := keys[|keys| - 1];
      PageItems(page, keys[..|keys| - 1], load, stamp) + KeyItems(page, key, load, stamp)
  }

  function KeyItems(page: string, key: string, load: string -> Archive, stamp: string -> int): seq<Item> {
    if OfPage(page, key) then ArchiveItems(load(key), stamp(key)) else []
  }

  // ---- reading them ----

  datatype Page = Page(winners: Winners<Pen>, count: nat, decoded: nat, empty: nat, emptyAt: int)

  const NOTHING := Page(map[], 0, 0, 0, 0)

  function Earlier(emptyAt: int, at: int): int { if emptyAt == 0 || (at > 0 && at < emptyAt) then at else emptyAt }

  function Read(p: Page, item: Item): Result<Page, Refusal> {
    match item
    case Fail(e) => Err(e)
    case Zeroed(at) => Ok(p.(empty := p.empty + 1, emptyAt := Earlier(p.emptyAt, at)))
    case Decoded(n) => if p.decoded + n > MAX_DECODED then Err(TooLarge) else Ok(p.(decoded := p.decoded + n))
    case Record(r) =>
      if p.count + 1 > MAX_RECORDS then Err(TooLarge)
      else if r.id == "" then Err(Missing)
      else if r.id !in p.winners && |p.winners| >= MAX_SHAPES then Err(TooLarge)
      else
        match Add(BY_PEN, p.winners, r)
        case Err(e) => Err(e)
        case Ok(w) => Ok(p.(winners := w, count := p.count + 1))
  }

  function ReadAll(p: Page, items: seq<Item>): Result<Page, Refusal>
    decreases |items|
  {
    if items == [] then Ok(p)
    else
      match ReadAll(p, items[..|items| - 1])
      case Err(e) => Err(e)
      case Ok(q) => Read(q, items[|items| - 1])
  }

  lemma {:induction false} ReadOn(p: Page, a: seq<Item>, b: seq<Item>)
    ensures ReadAll(p, a + b) == match ReadAll(p, a) case Err(e) => Err(e) case Ok(q) => ReadAll(q, b)
    decreases |b|
  {
    if b == [] {
      assert a + b == a;
    } else {
      ReadOn(p, a, b[..|b| - 1]);
      assert (a + b)[..|a + b| - 1] == a + b[..|b| - 1];
    }
  }

  lemma ReadOne(p: Page, item: Item)
    ensures ReadAll(p, [item]) == Read(p, item)
  {
    assert [item][..0] == [];
  }

  // The loops over archives, files and records.
  method ReadPage(page: string, keys: set<string>, load: string -> Archive, stamp: string -> int)
    returns (r: Result<Page, Refusal>)
    ensures r == ReadAll(NOTHING, PageItems(page, SortedIds(keys), load, stamp))
  {
    var sorted := SortIds(keys);
    r := ReadKeys(NOTHING, page, sorted, load, stamp);
  }

  method ReadKeys(start: Page, page: string, keys: seq<string>, load: string -> Archive, stamp: string -> int)
    returns (r: Result<Page, Refusal>)
    ensures r == ReadAll(start, PageItems(page, keys, load, stamp))
  {
    var p := start;
    for i := 0 to |keys|
      invariant ReadAll(start, PageItems(page, keys[..i], load, stamp)) == Ok(p)
    {
      var next := ReadKey(p, page, keys[i], load, stamp);
      assert ReadAll(start, PageItems(page, keys[..i + 1], load, stamp)) == next by {
        assert keys[..i + 1][..i] == keys[..i];
        ReadOn(start, PageItems(page, keys[..i], load, stamp), KeyItems(page, keys[i], load, stamp));
      }
      if next.Err? {
        PageStops(start, page, keys, load, stamp, i + 1);
        return next;
      }
      p := next.value;
    }
    assert keys[..|keys|] == keys;
    return Ok(p);
  }

  lemma {:induction false} PageStops(
      start: Page, page: string, keys: seq<string>, load: string -> Archive, stamp: string -> int, k: nat)
    requires k <= |keys| && ReadAll(start, PageItems(page, keys[..k], load, stamp)).Err?
    ensures ReadAll(start, PageItems(page, keys, load, stamp))
            == ReadAll(start, PageItems(page, keys[..k], load, stamp))
    decreases |keys| - k
  {
    if k == |keys| {
      assert keys[..k] == keys;
    } else {
      assert keys[..k + 1][..k] == keys[..k];
      ReadOn(start, PageItems(page, keys[..k], load, stamp), KeyItems(page, keys[k], load, stamp));
      PageStops(start, page, keys, load, stamp, k + 1);
    }
  }

  method ReadKey(p: Page, page: string, key: string, load: string -> Archive, stamp: string -> int)
    returns (r: Result<Page, Refusal>)
    ensures r == ReadAll(p, KeyItems(page, key, load, stamp))
  {
    if !OfPage(page, key) { return Ok(p); }
    r := ReadArchive(p, load(key), stamp(key));
  }

  method ReadArchive(p: Page, a: Archive, at: int) returns (r: Result<Page, Refusal>)
    ensures r == ReadAll(p, ArchiveItems(a, at))
  {
    match a {
      case Unavailable => ReadOne(p, Fail(Unreadable)); return Err(Unreadable);
      case Broken => ReadOne(p, Fail(Unreadable)); return Err(Unreadable);
      case Zeros =>
        ReadOne(p, Zeroed(at));
        var emptyAt := p.emptyAt;
        if emptyAt == 0 || (at > 0 && at < emptyAt) { emptyAt := at; }
        return Ok(p.(empty := p.empty + 1, emptyAt := emptyAt));
      case Zip(files) =>
        var q := p;
        for i := 0 to |files|
          invariant ReadAll(p, FilesItems(files[..i])) == Ok(q)
        {
          assert files[..i + 1][..i] == files[..i];
          ReadOn(p, FilesItems(files[..i]), FileItems(files[i]));
          var next := ReadFile(q, files[i]);
          if next.Err? {
            FilesStop(p, files, i + 1);
            return next;
          }
          q := next.value;
        }
        assert files[..|files|] == files;
        return Ok(q);
    }
  }

  lemma {:induction false} FilesStop(p: Page, files: seq<File>, k: nat)
    requires k <= |files| && ReadAll(p, FilesItems(files[..k])).Err?
    ensures ReadAll(p, FilesItems(files)) == ReadAll(p, FilesItems(files[..k]))
    decreases |files| - k
  {
    if k == |files| {
      assert files[..k] == files;
    } else {
      assert files[..k + 1][..k] == files[..k];
      ReadOn(p, FilesItems(files[..k]), FileItems(files[k]));
      FilesStop(p, files, k + 1);
    }
  }

  method ReadFile(p: Page, f: File) returns (r: Result<Page, Refusal>)
    ensures r == ReadAll(p, FileItems(f))
  {
    if f.Directory? { return Ok(p); }
    if f.declared > MAX_FILE { ReadOne(p, Fail(TooLarge)); return Err(TooLarge); }
    if f.bytes.None? || f.bytes.value > MAX_FILE { ReadOne(p, Fail(Unreadable)); return Err(Unreadable); }
    var decoded := p.decoded + f.bytes.value;
    ReadOne(p, Decoded(f.bytes.value));
    if f.records.None? {
      ReadOn(p, [Decoded(f.bytes.value)], [Fail(Unreadable)]);
      if decoded <= MAX_DECODED { ReadOne(p.(decoded := decoded), Fail(Unreadable)); }
      return Err(if decoded > MAX_DECODED then TooLarge else Unreadable);
    }
    ReadOn(p, [Decoded(f.bytes.value)], Recorded(f.records.value));
    if decoded > MAX_DECODED { return Err(TooLarge); }
    r := ReadRecords(p.(decoded := decoded), f.records.value);
  }

  method ReadRecords(p: Page, records: seq<Pen>) returns (r: Result<Page, Refusal>)
    ensures r == ReadAll(p, Recorded(records))
  {
    var q := p;
    for i := 0 to |records|
      invariant ReadAll(p, Recorded(records[..i])) == Ok(q)
    {
      assert Recorded(records[..i + 1])[..i] == Recorded(records[..i]);
      var next := ReadRecord(q, records[i]);
      if next.Err? {
        RecordsStop(p, records, i + 1);
        return next;
      }
      q := next.value;
    }
    assert records[..|records|] == records;
    return Ok(q);
  }

  lemma RecordsStop(p: Page, records: seq<Pen>, k: nat)
    requires k <= |records| && ReadAll(p, Recorded(records[..k])).Err?
    ensures ReadAll(p, Recorded(records)) == ReadAll(p, Recorded(records[..k]))
  {
    assert Recorded(records) == Recorded(records[..k]) + Recorded(records)[k..];
    ReadOn(p, Recorded(records[..k]), Recorded(records)[k..]);
  }

  method ReadRecord(p: Page, r: Pen) returns (next: Result<Page, Refusal>)
    ensures next == Read(p, Record(r))
  {
    if p.count + 1 > MAX_RECORDS { return Err(TooLarge); }
    if r.id == "" { return Err(Missing); }
    if r.id !in p.winners && |p.winners| >= MAX_SHAPES { return Err(TooLarge); }
    var w := p.winners;
    if r.id !in w || r.updatedAt > w[r.id].updatedAt {
      w := w[r.id := r];
    } else if r.updatedAt == w[r.id].updatedAt && r != w[r.id] {
      return Err(Ambiguous);
    }
    return Ok(p.(winners := w, count := p.count + 1));
  }

  // ---- what a page that is read promises ----

  function Pens(items: seq<Item>): seq<Pen> {
    if items == [] then []
    else
      var last := items[|items| - 1];
      Pens(items[..|items| - 1]) + if last.Record? then [last.pen] else []
  }

  function Times(items: seq<Item>): seq<int> {
    if items == [] then []
    else
      var last := items[|items| - 1];
      Times(items[..|items| - 1]) + if last.Zeroed? then [last.at] else []
  }

  function EmptyAt(times: seq<int>): int {
    if times == [] then 0 else Earlier(EmptyAt(times[..|times| - 1]), times[|times| - 1])
  }

  // The shapes are the winners of all records read; the zeroed archives are
  // counted; the limits hold.
  lemma {:induction false} PageIsMerge(items: seq<Item>)
    requires ReadAll(NOTHING, items).Ok?
    ensures var p := ReadAll(NOTHING, items).value;
            && Merged(BY_PEN, Pens(items)) == Ok(p.winners) && p.count == |Pens(items)| <= MAX_RECORDS
            && |p.winners| <= MAX_SHAPES && p.decoded <= MAX_DECODED
            && p.empty == |Times(items)| && p.emptyAt == EmptyAt(Times(items))
    decreases |items|
  {
    if items != [] {
      var before, last := items[..|items| - 1], items[|items| - 1];
      PageIsMerge(before);
      if last.Record? {
        assert (Pens(before) + [last.pen])[..|Pens(before)|] == Pens(before);
      } else {
        assert Pens(before) + [] == Pens(before);
      }
      if last.Zeroed? {
        assert (Times(before) + [last.at])[..|Times(before)|] == Times(before);
      } else {
        assert Times(before) + [] == Times(before);
      }
    }
  }

  // ---- when a page is read ----

  function Bytes(items: seq<Item>): nat {
    if items == [] then 0
    else
      var last := items[|items| - 1];
      Bytes(items[..|items| - 1]) + if last.Decoded? then last.bytes else 0
  }

  function Ids(pens: seq<Pen>): set<string> { set r | r in pens :: r.id }

  // Why an item cannot be taken in after those before it.
  ghost function Fault(before: seq<Item>, item: Item): Option<Refusal> {
    match item
    case Fail(e) => Some(e)
    case Zeroed(_) => None
    case Decoded(n) => if Bytes(before) + n > 128 * 1024 * 1024 then Some(TooLarge) else None
    case Record(r) =>
      if |Pens(before)| >= 500000 then Some(TooLarge)
      else if r.id == "" then Some(Missing)
      else if r.id !in Ids(Pens(before)) && |Ids(Pens(before))| >= 50000 then Some(TooLarge)
      else if Clashes(BY_PEN, Pens(before), r) then Some(Ambiguous)
      else None
  }

  lemma {:induction false} ReadCounts(items: seq<Item>)
    requires ReadAll(NOTHING, items).Ok?
    ensures ReadAll(NOTHING, items).value.decoded == Bytes(items)
    decreases |items|
  {
    if items != [] { ReadCounts(items[..|items| - 1]); }
  }

  lemma WinnerIds(pens: seq<Pen>, w: Winners<Pen>)
    requires AreWinners(BY_PEN, pens, w)
    ensures w.Keys == Ids(pens)
  {
    forall id <- w.Keys ensures id in Ids(pens) { assert w[id] in pens; }
  }

  lemma ReadFaults(before: seq<Item>, item: Item)
    requires ReadAll(NOTHING, before).Ok?
    ensures var r := Read(ReadAll(NOTHING, before).value, item);
            match Fault(before, item) case None => r.Ok? case Some(e) => r == Err(e)
  {
    var p := ReadAll(NOTHING, before).value;
    PageIsMerge(before);
    ReadCounts(before);
    WinnersAreNewest(BY_PEN, Pens(before));
    WinnerIds(Pens(before), p.winners);
    assert |p.winners| == |p.winners.Keys|;
    if item.Record? { AddRefusesClash(BY_PEN, Pens(before), p.winners, item.pen); }
  }

  // A page is read exactly if no item is at fault, and the first one that is
  // decides the refusal.
  lemma {:induction false} PageReadIff(items: seq<Item>)
    ensures ReadAll(NOTHING, items).Ok? <==> forall i :: 0 <= i < |items| ==> Fault(items[..i], items[i]).None?
    ensures ReadAll(NOTHING, items).Err? ==>
              exists i :: 0 <= i < |items| && Fault(items[..i], items[i]) == Some(ReadAll(NOTHING, items).error)
                          && forall j :: 0 <= j < i ==> Fault(items[..j], items[j]).None?
    decreases |items|
  {
    if items != [] {
      var n := |items| - 1;
      PageReadIff(items[..n]);
      forall i | 0 <= i < n ensures items[..n][..i] == items[..i] {}
      if ReadAll(NOTHING, items[..n]).Ok? { ReadFaults(items[..n], items[n]); }
    }
  }

  // ---- what a page's archives hold ----

  ghost predicate Readable(f: File) {
    f.File? ==>
      && f.declared <= 16 * 1024 * 1024 && f.bytes.Some? && f.bytes.value <= 16 * 1024 * 1024
      && f.records.Some?
  }

  ghost predicate Usable(a: Archive) { a.Zeros? || (a.Zip? && forall f <- a.files :: Readable(f)) }

  function FilePens(files: seq<File>): seq<Pen> {
    if files == [] then []
    else
      var f := files[|files| - 1];
      FilePens(files[..|files| - 1]) + if f.File? && f.records.Some? then f.records.value else []
  }

  function KeyPens(page: string, key: string, load: string -> Archive): seq<Pen> {
    if OfPage(page, key) && load(key).Zip? then FilePens(load(key).files) else []
  }

  function PagePens(page: string, keys: seq<string>, load: string -> Archive): seq<Pen> {
    if keys == [] then []
    else PagePens(page, keys[..|keys| - 1], load) + KeyPens(page, keys[|keys| - 1], load)
  }

  ghost predicate Sound(items: seq<Item>) { forall i <- items :: !i.Fail? }

  lemma SoundConcat(a: seq<Item>, b: seq<Item>)
    ensures Sound(a + b) <==> Sound(a) && Sound(b)
  {
    assert forall i <- a :: i in a + b;
    assert forall i <- b :: i in a + b;
  }

  lemma {:induction false} PensConcat(a: seq<Item>, b: seq<Item>)
    ensures Pens(a + b) == Pens(a) + Pens(b)
    decreases |b|
  {
    if b == [] {
      assert a + b == a;
    } else {
      PensConcat(a, b[..|b| - 1]);
      assert (a + b)[..|a + b| - 1] == a + b[..|b| - 1];
    }
  }

  lemma {:induction false} RecordedPens(records: seq<Pen>)
    ensures Pens(Recorded(records)) == records && Sound(Recorded(records))
    decreases |records|
  {
    if records != [] {
      var n := |records| - 1;
      RecordedPens(records[..n]);
      assert Recorded(records)[..n] == Recorded(records[..n]);
    }
  }

  lemma FileHolds(f: File)
    ensures Sound(FileItems(f)) <==> Readable(f)
    ensures Readable(f) ==> Pens(FileItems(f)) == FilePens([f])
  {
    assert [f][..0] == [];
    if Readable(f) && f.File? {
      var decoded, records := [Decoded(f.bytes.value)], Recorded(f.records.value);
      RecordedPens(f.records.value);
      SoundConcat(decoded, records);
      PensConcat(decoded, records);
      assert decoded[..0] == [];
    } else if f.File? {
      var items := FileItems(f);
      assert items[|items| - 1].Fail? && items[|items| - 1] in items;
    }
  }

  lemma {:induction false} FilesReadable(files: seq<File>)
    ensures Sound(FilesItems(files)) <==> forall f <- files :: Readable(f)
    decreases |files|
  {
    if files != [] {
      var before, f := files[..|files| - 1], files[|files| - 1];
      FilesReadable(before);
      FileHolds(f);
      SoundConcat(FilesItems(before), FileItems(f));
      assert files == before + [f];
    }
  }

  lemma {:induction false} FilesHold(files: seq<File>)
    requires Sound(FilesItems(files))
    ensures Pens(FilesItems(files)) == FilePens(files)
    decreases |files|
  {
    if files != [] {
      var before, f := files[..|files| - 1], files[|files| - 1];
      SoundConcat(FilesItems(before), FileItems(f));
      FilesHold(before);
      FileHolds(f);
      OneFilePens(f);
      PensConcat(FilesItems(before), FileItems(f));
    }
  }

  lemma OneFilePens(f: File)
    ensures FilePens([f]) == if f.File? && f.records.Some? then f.records.value else []
  {
    assert [f][..0] == [];
  }

  lemma KeyHolds(page: string, key: string, load: string -> Archive, stamp: string -> int)
    ensures Sound(KeyItems(page, key, load, stamp)) <==> !OfPage(page, key) || Usable(load(key))
    ensures Sound(KeyItems(page, key, load, stamp)) ==> Pens(KeyItems(page, key, load, stamp)) == KeyPens(page, key, load)
  {
    if OfPage(page, key) && load(key).Zip? {
      FilesReadable(load(key).files);
      if Sound(FilesItems(load(key).files)) { FilesHold(load(key).files); }
    }
    if OfPage(page, key) && load(key).Zeros? { assert [Zeroed(stamp(key))][..0] == []; }
    if OfPage(page, key) && (load(key).Unavailable? || load(key).Broken?) {
      assert KeyItems(page, key, load, stamp)[0].Fail?;
    }
  }

  // A page's archives can be had exactly if each is zeroed or all its files can
  // be read within the limits.
  lemma {:induction false} PageUsableIff(page: string, keys: seq<string>, load: string -> Archive, stamp: string -> int)
    ensures Sound(PageItems(page, keys, load, stamp)) <==> forall key <- keys :: OfPage(page, key) ==> Usable(load(key))
    decreases |keys|
  {
    if keys != [] {
      var before, key := keys[..|keys| - 1], keys[|keys| - 1];
      PageUsableIff(page, before, load, stamp);
      KeyHolds(page, key, load, stamp);
      SoundConcat(PageItems(page, before, load, stamp), KeyItems(page, key, load, stamp));
      assert keys == before + [key];
    }
  }

  // Then the records taken in are theirs, in the order of their names.
  lemma {:induction false} PageHolds(page: string, keys: seq<string>, load: string -> Archive, stamp: string -> int)
    requires Sound(PageItems(page, keys, load, stamp))
    ensures Pens(PageItems(page, keys, load, stamp)) == PagePens(page, keys, load)
    decreases |keys|
  {
    if keys != [] {
      var before, key := keys[..|keys| - 1], keys[|keys| - 1];
      SoundConcat(PageItems(page, before, load, stamp), KeyItems(page, key, load, stamp));
      PageHolds(page, before, load, stamp);
      KeyHolds(page, key, load, stamp);
      PensConcat(PageItems(page, before, load, stamp), KeyItems(page, key, load, stamp));
    }
  }

  // All decoded bytes count towards the limit.
  function FileBytes(files: seq<File>): nat {
    if files == [] then 0
    else
      var f := files[|files| - 1];
      FileBytes(files[..|files| - 1]) + if f.File? && f.bytes.Some? then f.bytes.value else 0
  }

  function PageBytes(page: string, keys: seq<string>, load: string -> Archive): nat {
    if keys == [] then 0
    else
      var key := keys[|keys| - 1];
      PageBytes(page, keys[..|keys| - 1], load)
      + if OfPage(page, key) && load(key).Zip? then FileBytes(load(key).files) else 0
  }

  lemma {:induction false} BytesConcat(a: seq<Item>, b: seq<Item>)
    ensures Bytes(a + b) == Bytes(a) + Bytes(b)
    decreases |b|
  {
    if b == [] {
      assert a + b == a;
    } else {
      BytesConcat(a, b[..|b| - 1]);
      assert (a + b)[..|a + b| - 1] == a + b[..|b| - 1];
    }
  }

  lemma {:induction false} RecordsHaveNone(records: seq<Pen>)
    ensures Bytes(Recorded(records)) == 0
    decreases |records|
  {
    if records != [] {
      var n := |records| - 1;
      RecordsHaveNone(records[..n]);
      assert Recorded(records)[..n] == Recorded(records[..n]);
    }
  }

  lemma FileHoldsBytes(f: File)
    requires Readable(f)
    ensures Bytes(FileItems(f)) == if f.File? then f.bytes.value else 0
  {
    if f.File? {
      var decoded, records := [Decoded(f.bytes.value)], Recorded(f.records.value);
      RecordsHaveNone(f.records.value);
      BytesConcat(decoded, records);
      assert decoded[..0] == [];
    }
  }

  lemma {:induction false} FilesHoldBytes(files: seq<File>)
    requires forall f <- files :: Readable(f)
    ensures Bytes(FilesItems(files)) == FileBytes(files)
    decreases |files|
  {
    if files != [] {
      var before, f := files[..|files| - 1], files[|files| - 1];
      FilesHoldBytes(before);
      FileHoldsBytes(f);
      BytesConcat(FilesItems(before), FileItems(f));
    }
  }

  lemma KeyHoldsBytes(page: string, key: string, load: string -> Archive, stamp: string -> int)
    requires Sound(KeyItems(page, key, load, stamp))
    ensures Bytes(KeyItems(page, key, load, stamp))
            == if OfPage(page, key) && load(key).Zip? then FileBytes(load(key).files) else 0
  {
    KeyHolds(page, key, load, stamp);
    if OfPage(page, key) && load(key).Zip? { FilesHoldBytes(load(key).files); }
    if OfPage(page, key) && load(key).Zeros? { assert [Zeroed(stamp(key))][..0] == []; }
  }

  lemma {:induction false} PageHoldsBytes(page: string, keys: seq<string>, load: string -> Archive, stamp: string -> int)
    requires Sound(PageItems(page, keys, load, stamp))
    ensures Bytes(PageItems(page, keys, load, stamp)) == PageBytes(page, keys, load)
    decreases |keys|
  {
    if keys != [] {
      var before, key := keys[..|keys| - 1], keys[|keys| - 1];
      SoundConcat(PageItems(page, before, load, stamp), KeyItems(page, key, load, stamp));
      PageHoldsBytes(page, before, load, stamp);
      KeyHoldsBytes(page, key, load, stamp);
      BytesConcat(PageItems(page, before, load, stamp), KeyItems(page, key, load, stamp));
    }
  }

  // The archives of a page are named after it.
  lemma OfPageIff(page: string, key: string)
    ensures OfPage(page, key) <==> exists session :: key == "shape/" + page + "#" + session + ".zip"
  {
    var prefix := "shape/" + page + "#";
    if OfPage(page, key) {
      forall i | |key| - 4 <= i < |key| ensures key[i] != '#' { assert key[i] == ".zip"[i - (|key| - 4)]; }
      assert key[|prefix| - 1] == prefix[|prefix| - 1] == '#';
      var session := key[|prefix|..|key| - 4];
      assert key == prefix + session + ".zip";
    }
    if session :| key == "shape/" + page + "#" + session + ".zip" {
      assert key == prefix + session + ".zip" && key[..|prefix|] == prefix && key[|key| - 4..] == ".zip";
    }
  }

  // Each shape shown is the unique newest record of its id.
  lemma ShapesAreNewest(page: string, keys: set<string>, load: string -> Archive, stamp: string -> int)
    requires ReadAll(NOTHING, PageItems(page, SortedIds(keys), load, stamp)).Ok?
    ensures var items := PageItems(page, SortedIds(keys), load, stamp);
            AreWinners(BY_PEN, Pens(items), ReadAll(NOTHING, items).value.winners)
  {
    var items := PageItems(page, SortedIds(keys), load, stamp);
    PageIsMerge(items);
    WinnersAreNewest(BY_PEN, Pens(items));
  }

  // ---- the time of the zeroed archives ----

  ghost predicate Earliest(times: seq<int>, at: int) {
    if exists t :: t in times && t > 0 then at in times && at > 0 && forall t <- times :: t > 0 ==> at <= t
    else at == 0
  }

  // The first time that is not zero, if any.
  function FirstStamp(times: seq<int>): int {
    if times == [] then 0 else if times[0] != 0 then times[0] else FirstStamp(times[1..])
  }

  lemma {:induction false} FirstStampSnoc(times: seq<int>, t: int)
    ensures FirstStamp(times + [t]) == if FirstStamp(times) != 0 then FirstStamp(times) else t
    decreases |times|
  {
    if times == [] {
      assert ([t] + [])[1..] == [] && times + [t] == [t];
    } else {
      assert (times + [t])[1..] == times[1..] + [t];
      FirstStampSnoc(times[1..], t);
    }
  }

  lemma {:induction false} EmptyAtFollows(times: seq<int>)
    ensures FirstStamp(times) < 0 ==> EmptyAt(times) == FirstStamp(times)
    ensures FirstStamp(times) == 0 ==> EmptyAt(times) == 0 && forall t <- times :: t == 0
    ensures FirstStamp(times) > 0 ==> EmptyAt(times) > 0 && Earliest(times, EmptyAt(times))
    decreases |times|
  {
    if times != [] {
      var before, t := times[..|times| - 1], times[|times| - 1];
      EmptyAtFollows(before);
      assert times == before + [t];
      FirstStampSnoc(before, t);
      if FirstStamp(before) > 0 { assert EmptyAt(before) in times; }
      if FirstStamp(before) == 0 && t > 0 { assert t in times; }
    }
  }

  // The time kept is the earliest one exactly when the first archive with a time
  // carries no negative one.
  lemma EmptyAtIsEarliestIff(times: seq<int>)
    ensures Earliest(times, EmptyAt(times)) <==> FirstStamp(times) >= 0
  {
    EmptyAtFollows(times);
    if FirstStamp(times) == 0 {
      assert forall t <- times :: !(t > 0);
    }
  }
}
