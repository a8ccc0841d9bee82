// Turning "starts with" into a range of keys.
module Prefix {
  import opened Outcomes
  import opened Ordering

  const MAX_RUNE := '\U{10FFFF}'

  // The next Unicode scalar value, across the surrogate gap.
  function Next(c: char): char
    requires c != MAX_RUNE
  {
    if 0xD800 <= c as int + 1 <= 0xDFFF then '\U{E000}' else (c as int + 1) as char
  }

  function Upper(p: string): Option<string> {
    if p == "" then None
    else
      var last := p[|p| - 1];
      if last == MAX_RUNE then Upper(p[..|p| - 1]) else Some(p[..|p| - 1] + [Next(last)])
  }

  // The backward loop over the runes; the bumped one is overwritten and the rest
  // is cut off.
  method PrefixUpper(prefix: string) returns (r: Option<string>)
    ensures r == Upper(prefix)
  {
    var runes := new char[|prefix|](i requires 0 <= i < |prefix| => prefix[i]);
    assert runes[..] == prefix && prefix[..|prefix|] == prefix;
    var i := runes.Length - 1;
    while i >= 0
      invariant -1 <= i < runes.Length && runes[..] == prefix
      invariant Upper(prefix) == Upper(prefix[..i + 1])
    {
      assert prefix[..i + 1][..i] == prefix[..i];
      if runes[i] == MAX_RUNE {
        i := i - 1;
        continue;
      }
      runes[i] := Next(runes[i]);
      assert runes[..i + 1] == prefix[..i] + [Next(prefix[i])];
      return Some(runes[..i + 1]);
    }
    return None;
  }

  predicate StartsWith(s: string, p: string) { |p| <= |s| && s[..|p|] == p }

  predicate InRange(s: string, p: string, upper: Option<string>) {
    Compare(p, s) <= 0 && (upper.Some? ==> Compare(s, upper.value) < 0)
  }

  ghost predicate AllMax(p: string) { forall c <- p :: c == MAX_RUNE }

  // The bound read from the front.
  lemma {:induction false} UpperFront(p: string)
    requires p != ""
    ensures Upper(p) == if Upper(p[1..]).Some? then Some([p[0]] + Upper(p[1..]).value)
                        else if p[0] == MAX_RUNE then None else Some([Next(p[0])])
    decreases |p|
  {
    if |p| > 1 {
      var q := p[..|p| - 1];
      UpperFront(q);
      assert p[1..][..|p[1..]| - 1] == q[1..];
      assert p[1..][|p[1..]| - 1] == p[|p| - 1];
      if p[|p| - 1] != MAX_RUNE { assert q + [Next(p[|p| - 1])] == [p[0]] + (q[1..] + [Next(p[|p| - 1])]); }
    } else {
      assert p[..0] == "" && p[1..] == "";
      if p[0] != MAX_RUNE { assert p[..0] + [Next(p[0])] == [Next(p[0])]; }
    }
  }

  lemma NoneBetween(c: char, x: char)
    requires c != MAX_RUNE && c as int <= x as int < Next(c) as int
    ensures x == c
  {}

  lemma RangeFront(p: string, s: string)
    requires p != "" && s != "" && Upper(p) == (if Upper(p[1..]).Some? then Some([p[0]] + Upper(p[1..]).value)
                                                else if p[0] == MAX_RUNE then None else Some([Next(p[0])]))
    ensures InRange(s, p, Upper(p)) <==> s[0] == p[0] && InRange(s[1..], p[1..], Upper(p[1..]))
  {
    assert s[0] as int <= MAX_RUNE as int;
    if Upper(p[1..]).Some? {
      assert Upper(p).value[1..] == Upper(p[1..]).value;
    } else if p[0] != MAX_RUNE {
      assert Upper(p).value[1..] == "" && Compare(s[1..], "") >= 0;
      assert Compare(s, Upper(p).value) < 0 <==> s[0] as int < Next(p[0]) as int;
      if p[0] as int <= s[0] as int < Next(p[0]) as int { NoneBetween(p[0], s[0]); }
    }
  }

  // The range is exact: a string starts with the prefix if and only if it lies
  // from the prefix up to, and not including, the bound; where there is no bound
  // the lower end alone decides.
  lemma {:induction false} PrefixIsRange(p: string, s: string)
    ensures StartsWith(s, p) <==> InRange(s, p, Upper(p))
    decreases |p|
  {
    if p != "" {
      UpperFront(p);
      if s != "" {
        PrefixIsRange(p[1..], s[1..]);
        TailStarts(p, s);
        RangeFront(p, s);
      }
    }
  }

  lemma TailStarts(p: string, s: string)
    requires p != "" && s != ""
    ensures StartsWith(s, p) <==> s[0] == p[0] && StartsWith(s[1..], p[1..])
  {
    if |p| <= |s| {
      assert s[1..][..|p| - 1] == s[1..|p|];
      if s[0] == p[0] && s[1..|p|] == p[1..] {
        assert s[..|p|] == [s[0]] + s[1..|p|];
        assert p == [p[0]] + p[1..];
      }
      if s[..|p|] == p { assert s[1..|p|] == s[..|p|][1..]; }
    }
  }

  // A bound is missing exactly for the empty prefix and for runs of the greatest
  // rune, and then no string could be one.
  lemma {:induction false} UpperNoneIff(p: string)
    ensures Upper(p).None? <==> AllMax(p)
  {
    if p != "" {
      var q, last := p[..|p| - 1], p[|p| - 1];
      UpperNoneIff(q);
      assert p == q + [last] && last in p;
      assert forall c <- q :: c in p;
    }
  }

  lemma {:induction false} MaxIsAbove(n: nat, u: string)
    requires n >= |u|
    ensures Compare(seq(n, _ => MAX_RUNE), u) >= 0
    decreases n
  {
    if u != "" {
      var m := seq(n, _ => MAX_RUNE);
      assert m[1..] == seq(n - 1, _ => MAX_RUNE);
      MaxIsAbove(n - 1, u[1..]);
    }
  }

  lemma NoBoundExists(p: string, u: string)
    requires AllMax(p)
    ensures exists s :: StartsWith(s, p) && Compare(s, u) >= 0
  {
    var s := seq(|p| + |u|, _ => MAX_RUNE);
    assert s[..|p|] == p by {
      forall i | 0 <= i < |p| ensures s[i] == p[i] { assert p[i] in p; }
    }
    MaxIsAbove(|p| + |u|, u);
  }

  // A directory's bound: '/' is followed by '0'.
  lemma DirectoryUpperIs(p: string)
    requires p != "" && p[|p| - 1] == '/'
    ensures Upper(p) == Some(p[..|p| - 1] + "0")
  {}
}
