// Text compares by code point exactly as its UTF-8 bytes compare, which is what
// the database's C collation does.
module Utf8Order {
  import opened Ordering

  // RFC 3629, section 3.
  function Encode(c: char): (bytes: seq<int>)
    ensures 1 <= |bytes| <= 4
  {
    var n := c as int;
    if n < 0x80 then [n]
    else if n < 0x800 then [0xC0 + High(n), 0x80 + Low(n)]
    else if n < 0x1_0000 then [0xE0 + High(High(n)), 0x80 + Low(High(n)), 0x80 + Low(n)]
    else [0xF0 + High(High(High(n))), 0x80 + Low(High(High(n))), 0x80 + Low(High(n)), 0x80 + Low(n)]
  }

  function High(n: int): (h: int)
    requires n >= 0
    ensures 64 * h <= n < 64 * h + 64 && h >= 0
  { n / 64 }

  function Low(n: int): (l: int)
    requires n >= 0
    ensures l == n - 64 * High(n) && 0 <= l < 64
  { n % 64 }

  // Continuation bytes carry six bits each.
  predicate Continues(b: int) { 0x80 <= b <= 0xBF }

  // What the bytes of one character say: the first tells their number, and the
  // bits of all of them in order are the character.
  ghost predicate Says(bytes: seq<int>, n: int) {
    match |bytes|
    case 1 => bytes[0] <= 0x7F && n == bytes[0]
    case 2 =>
      && 0xC0 <= bytes[0] <= 0xDF && Continues(bytes[1])
      && n == (bytes[0] - 0xC0) * 64 + (bytes[1] - 0x80)
    case 3 =>
      && 0xE0 <= bytes[0] <= 0xEF && Continues(bytes[1]) && Continues(bytes[2])
      && n == (bytes[0] - 0xE0) * 4096 + (bytes[1] - 0x80) * 64 + (bytes[2] - 0x80)
    case 4 =>
      && 0xF0 <= bytes[0] <= 0xF7 && Continues(bytes[1]) && Continues(bytes[2]) && Continues(bytes[3])
      && n == (bytes[0] - 0xF0) * 262144 + (bytes[1] - 0x80) * 4096 + (bytes[2] - 0x80) * 64 + (bytes[3] - 0x80)
    case _ => false
  }

  // The encoding says the character, in as few bytes as hold it.
  lemma EncodingIsUtf8(c: char)
    ensures var n := c as int;
            && Says(Encode(c), n)
            && |Encode(c)| == (if n <= 0x7F then 1 else if n <= 0x7FF then 2 else if n <= 0xFFFF then 3 else 4)
  {}

  function Utf8(s: string): seq<int> {
    if s == "" then [] else Encode(s[0]) + Utf8(s[1..])
  }

  function Minus(x: int, y: int): int { x - y }

  function CompareBytes(a: seq<int>, b: seq<int>): int { CompareBy(Minus, a, b) }

  // Where two byte strings part, with the same bytes before.
  ghost predicate Part(p: seq<int>, q: seq<int>, k: nat) {
    k < |p| && k < |q| && p[k] < q[k] && forall i :: 0 <= i < k ==> p[i] == q[i]
  }

  lemma {:induction false} PartDecides(p: seq<int>, q: seq<int>, k: nat)
    requires Part(p, q, k)
    ensures CompareBytes(p, q) < 0
    decreases k
  {
    if k > 0 {
      assert Part(p[1..], q[1..], k - 1);
      PartDecides(p[1..], q[1..], k - 1);
    }
  }

  lemma TwoDigits(m: int, n: int)
    requires 0 <= m < n
    ensures High(m) < High(n) || (High(m) == High(n) && Low(m) < Low(n))
  {}

  lemma RunesPart(x: char, y: char)
    requires x < y
    ensures exists k: nat :: Part(Encode(x), Encode(y), k)
  {
    var p, q, m, n := Encode(x), Encode(y), x as int, y as int;
    TwoDigits(m, n);
    if High(m) < High(n) { TwoDigits(High(m), High(n)); }
    if High(High(m)) < High(High(n)) { TwoDigits(High(High(m)), High(High(n))); }
    if p[0] < q[0] {
      assert Part(p, q, 0);
    } else {
      assert |p| == |q| >= 2 && p[0] == q[0];
      if p[1] < q[1] { assert Part(p, q, 1); }
      else if p[2] < q[2] { assert Part(p, q, 2); }
      else { assert Part(p, q, 3); }
    }
  }

  // A smaller rune's bytes stay below a greater one's, whatever follows.
  lemma RunesStayApart(x: char, y: char, a: seq<int>, b: seq<int>)
    requires x < y
    ensures CompareBytes(Encode(x) + a, Encode(y) + b) < 0
  {
    RunesPart(x, y);
    var k: nat :| Part(Encode(x), Encode(y), k);
    assert Part(Encode(x) + a, Encode(y) + b, k);
    PartDecides(Encode(x) + a, Encode(y) + b, k);
  }

  lemma {:induction false} CommonPrefix(a: seq<int>, p: seq<int>, q: seq<int>)
    ensures CompareBytes(a + p, a + q) == CompareBytes(p, q)
    decreases |a|
  {
    if a == [] {
      assert a + p == p && a + q == q;
    } else {
      assert (a + p)[1..] == a[1..] + p && (a + q)[1..] == a[1..] + q;
      CommonPrefix(a[1..], p, q);
    }
  }

  lemma MinusFlips(a: seq<int>, b: seq<int>)
    ensures CompareBytes(a, b) < 0 <==> CompareBytes(b, a) > 0
  {
    assert TotalOrder(Minus);
    CompareFlip(Minus, a, b);
  }

  lemma {:induction false} ByteOrderIsRuneOrder(a: string, b: string)
    ensures (Compare(a, b) < 0 <==> CompareBytes(Utf8(a), Utf8(b)) < 0)
            && (Compare(a, b) == 0 <==> CompareBytes(Utf8(a), Utf8(b)) == 0)
    decreases |a|
  {
    if a != "" && b != "" {
      if a[0] == b[0] {
        CommonPrefix(Encode(a[0]), Utf8(a[1..]), Utf8(b[1..]));
        ByteOrderIsRuneOrder(a[1..], b[1..]);
      } else if a[0] < b[0] {
        RunesStayApart(a[0], b[0], Utf8(a[1..]), Utf8(b[1..]));
      } else {
        RunesStayApart(b[0], a[0], Utf8(b[1..]), Utf8(a[1..]));
        MinusFlips(Utf8(b), Utf8(a));
      }
    }
  }
}
