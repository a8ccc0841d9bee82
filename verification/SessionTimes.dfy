// The times that names of shape archives carry, and what a page makes of them.
module SessionTimes {
  import opened Outcomes
  import opened Decimal
  import opened Ordering
  import opened Merge
  import opened PageShapes

  const LIMIT := 0x8000_0000_0000_0000  // 2^63

  const SUFFIX := ".zip"

  function TrimZip(key: string): string {
    if |key| >= |SUFFIX| && key[|key| - |SUFFIX|..] == SUFFIX then key[..|key| - |SUFFIX|] else key
  }

  // What follows the last '#', or everything if there is none.
  function AfterHash(s: string): string {
    if s == "" || s[|s| - 1] == '#' then "" else AfterHash(s[..|s| - 1]) + [s[|s| - 1]]
  }

  predicate Signed(s: string) { s != "" && (s[0] == '-' || s[0] == '+') }

  // A decimal number of 64 bits.
  function ParseInt(s: string): Option<int> {
    var digits := if Signed(s) then s[1..] else s;
    if digits == "" || exists c <- digits :: !IsDigit(c) then None
    else
      var n: int := Value(digits);
      if s[0] == '-' then if n <= LIMIT then Some(-n) else None
      else if n < LIMIT then Some(n)
      else None
  }

  function SessionTime(key: string): int {
    match ParseInt(AfterHash(TrimZip(key)))
    case None => 0
    case Some(ms) => ms
  }

  // ---- the names of archives ----

  // The archive of one pen session, as the firmware names it.
  function Name(page: string, session: string, ms: int): string {
    "shape/" + page + "#" + session + "#" + Number(ms) + SUFFIX
  }

  lemma {:induction false} AfterHashIs(head: string, tail: string)
    requires '#' !in tail
    ensures AfterHash(head + "#" + tail) == tail
    decreases |tail|
  {
    var s := head + "#" + tail;
    if tail != "" {
      var front := tail[..|tail| - 1];
      assert s[..|s| - 1] == head + "#" + front && s[|s| - 1] == tail[|tail| - 1];
      assert tail[|tail| - 1] in tail;
      AfterHashIs(head, front);
      assert tail == front + [tail[|tail| - 1]];
    }
  }

  function Number(ms: int): string { if ms < 0 then "-" + Itoa(-ms) else Itoa(ms) }

  lemma NumberIsPlain(ms: int)
    ensures '#' !in Number(ms)
  {
    var n: nat := if ms < 0 then -ms else ms;
    forall c <- Number(ms) ensures c == '-' || IsDigit(c) { assert c == '-' || c in Itoa(n); }
  }

  lemma NumberParses(ms: int)
    requires -LIMIT <= ms < LIMIT
    ensures ParseInt(Number(ms)) == Some(ms)
  {
    var n: nat := if ms < 0 then -ms else ms;
    ValueOfItoa(n);
    assert Itoa(n)[0] in Itoa(n);
    if ms < 0 { assert Number(ms)[1..] == Itoa(n); }
  }

  lemma TrimmedName(head: string, number: string)
    ensures TrimZip(head + "#" + number + SUFFIX) == head + "#" + number
  {
    var key := head + "#" + number + SUFFIX;
    assert key[|key| - |SUFFIX|..] == SUFFIX;
    assert key[..|key| - |SUFFIX|] == head + "#" + number;
  }

  lemma NameIsOfPage(page: string, session: string, ms: int)
    ensures OfPage(page, Name(page, session, ms))
  {
    var key, prefix := Name(page, session, ms), "shape/" + page + "#";
    assert key[..|prefix|] == prefix;
    assert key[|key| - 4..] == SUFFIX;
  }

  // The time written into a name is the time read from it.
  lemma NameRoundTrip(page: string, session: string, ms: int)
    requires -LIMIT <= ms < LIMIT
    ensures SessionTime(Name(page, session, ms)) == ms
  {
    var head := "shape/" + page + "#" + session;
    assert Name(page, session, ms) == head + "#" + Number(ms) + SUFFIX;
    TrimmedName(head, Number(ms));
    NumberIsPlain(ms);
    AfterHashIs(head, Number(ms));
    NumberParses(ms);
  }

  // A sign, if any, and digits, for a number of 64 bits.
  ghost predicate Says(s: string, sign: string, digits: string, n: int) {
    && s == sign + digits && sign in {"", "+", "-"} && digits != "" && (forall c <- digits :: IsDigit(c))
    && (if sign == "-" then n + Value(digits) == 0 else n == Value(digits))
    && -0x8000_0000_0000_0000 <= n <= 0x7FFF_FFFF_FFFF_FFFF
  }

  ghost predicate Numeral(s: string, n: int) { exists sign, digits :: Says(s, sign, digits, n) }

  lemma ParseIff(s: string, n: int)
    ensures ParseInt(s) == Some(n) <==> Numeral(s, n)
  {
    if ParseInt(s) == Some(n) {
      var sign, digits := if Signed(s) then [s[0]] else "", if Signed(s) then s[1..] else s;
      assert s == sign + digits;
      assert Says(s, sign, digits, n);
    }
    if Numeral(s, n) {
      var sign, digits :| Says(s, sign, digits, n);
      assert digits[0] in digits;
      if sign == "" { assert s == digits; } else { assert s[0] == sign[0] && s[1..] == digits; }
    }
  }

  // What follows the last '#' of a name without its ending is its time; a name
  // that ends otherwise has the time zero.
  lemma SessionTimeIs(key: string, n: int)
    ensures Numeral(AfterHash(TrimZip(key)), n) ==> SessionTime(key) == n
    ensures (forall m :: !Numeral(AfterHash(TrimZip(key)), m)) ==> SessionTime(key) == 0
  {
    ParseIff(AfterHash(TrimZip(key)), n);
    ParseIff(AfterHash(TrimZip(key)), SessionTime(key));
  }

  // ---- the earliest time ----

  // If no time is negative, the page keeps the earliest.
  lemma PlainTimesAreEarliest(times: seq<int>)
    requires forall t <- times :: t >= 0
    ensures Earliest(times, EmptyAt(times))
  {
    FirstIsThere(times);
    EmptyAtIsEarliestIff(times);
  }

  lemma {:induction false} FirstIsThere(times: seq<int>)
    ensures FirstStamp(times) == 0 || FirstStamp(times) in times
    decreases |times|
  {
    if times != [] { FirstIsThere(times[1..]); }
  }

  // The two names, in the order in which they are read.
  lemma NamesAreSorted(a: string, b: string, head: string, x: string, y: string)
    requires a == head + "a" + x && b == head + "b" + y
    ensures SortedIds({a, b}) == [a, b]
  {
    AtFirstDifference(head, 'a', x, 'b', y);
    assert a == head + ['a'] + x && b == head + ['b'] + y;
    StringsAreOrdered();
    assert a != b by { assert Compare(a, b) < 0; assert Compare(a, a) == 0; }
    assert SortedFrom(Compare, {a, b}, [a, b]);
    SortedUnique(Compare, {a, b}, Sorted(Compare, {a, b}), [a, b]);
  }

  lemma {:induction false} AtFirstDifference(head: string, x: char, a: string, y: char, b: string)
    requires x < y
    ensures Compare(head + [x] + a, head + [y] + b) < 0
    decreases |head|
  {
    var s, t := head + [x] + a, head + [y] + b;
    if head != "" {
      assert s[1..] == head[1..] + [x] + a && t[1..] == head[1..] + [y] + b;
      AtFirstDifference(head[1..], x, a, y, b);
    }
  }

  function AllZeros(key: string): Archive { Zeros }

  lemma TwoItems(page: string, a: string, b: string)
    requires OfPage(page, a) && OfPage(page, b)
    ensures PageItems(page, [a, b], AllZeros, SessionTime) == [Zeroed(SessionTime(a))] + [Zeroed(SessionTime(b))]
  {
    assert [a, b][..1] == [a] && [a][..0] == [];
    assert PageItems(page, [a], AllZeros, SessionTime) == [Zeroed(SessionTime(a))];
  }

  lemma TwoZeroed(x: int, y: int)
    ensures ReadAll(NOTHING, [Zeroed(x)] + [Zeroed(y)]) == Ok(NOTHING.(empty := 2, emptyAt := Earlier(Earlier(0, x), y)))
  {
    ReadOn(NOTHING, [Zeroed(x)], [Zeroed(y)]);
    ReadOne(NOTHING, Zeroed(x));
    ReadOne(Read(NOTHING, Zeroed(x)).value, Zeroed(y));
  }

  // But two zeroed archives of a page whose names give the times -5 and 3 are
  // reported with -5: a negative first time is kept for good.
  lemma NegativeTimeIsKept(page: string)
    ensures var a, b := Name(page, "a", -5), Name(page, "b", 3);
            var r := ReadAll(NOTHING, PageItems(page, SortedIds({a, b}), AllZeros, SessionTime));
            && SessionTime(a) == -5 && SessionTime(b) == 3
            && r.Ok? && r.value.emptyAt == -5 && !Earliest([-5, 3], -5)
  {
    var a, b, head := Name(page, "a", -5), Name(page, "b", 3), "shape/" + page + "#";
    NameRoundTrip(page, "a", -5);
    NameRoundTrip(page, "b", 3);
    NameIsOfPage(page, "a", -5);
    NameIsOfPage(page, "b", 3);
    NamesAreSorted(a, b, head, "#" + Number(-5) + SUFFIX, "#" + Number(3) + SUFFIX);
    TwoItems(page, a, b);
    TwoZeroed(-5, 3);
    assert 3 in [-5, 3];
  }
}
