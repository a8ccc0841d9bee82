// The natural order of titles: letter case aside, digit runs by magnitude.
module NaturalOrder {
  import opened Ordering
  import opened Decimal
  import opened FileNames

  // ---- the pieces of a title ----

  // How far the first run of digits, or of other characters, goes.
  function RunLength(s: string): (n: nat)
    requires s != ""
    ensures 1 <= n <= |s| && (forall i :: 0 <= i < n ==> (IsDigit(s[i]) <==> IsDigit(s[0])))
    ensures n < |s| ==> (IsDigit(s[n]) <==> !IsDigit(s[0]))
  {
    if |s| == 1 || IsDigit(s[1]) != IsDigit(s[0]) then 1 else 1 + RunLength(s[1..])
  }

  function Runs(s: string): seq<string> {
    if s == "" then [] else [s[..RunLength(s)]] + Runs(s[RunLength(s)..])
  }

  function TrimZeros(s: string): string {
    if s != "" && s[0] == '0' then TrimZeros(s[1..]) else s
  }

  function Zeros(n: nat): string { seq(n, _ => '0') }

  // A length as ten digits, more only if it needs them.
  function Pad(n: nat): string {
    var s := Itoa(n);
    if |s| < 10 then Zeros(10 - |s|) + s else s
  }

  function Magnitude(run: string): string {
    var t := TrimZeros(run);
    if t == "" then "0" else t
  }

  function NumberPiece(m: string): string { "0" + Pad(|m|) + m }

  function Piece(run: string): string
    requires run != ""
  {
    if IsDigit(run[0]) then NumberPiece(Magnitude(run)) else "1" + run
  }

  predicate Uniform(run: string) {
    run != "" && forall i :: 0 <= i < |run| ==> (IsDigit(run[i]) <==> IsDigit(run[0]))
  }

  predicate AllUniform(runs: seq<string>) { runs == [] || (Uniform(runs[0]) && AllUniform(runs[1..])) }

  function Pieces(runs: seq<string>): seq<string>
    requires AllUniform(runs)
  { if runs == [] then [] else [Piece(runs[0])] + Pieces(runs[1..]) }

  lemma {:induction false} RunsAreUniform(s: string)
    ensures AllUniform(Runs(s))
    decreases |s|
  {
    if s != "" { RunsAreUniform(s[RunLength(s)..]); }
  }

  function Key(s: string): seq<string> {
    RunsAreUniform(s);
    Pieces(Runs(s))
  }

  function Sign(n: int): int { if n < 0 then -1 else if n > 0 then 1 else 0 }

  function CompareNatural(x: string, y: string): int {
    var c := CompareBy(Compare, Key(x), Key(y));
    if c != 0 then c else Compare(x, y)
  }

  function Natural(lower: Fold, a: string, b: string): int { CompareNatural(Lower(lower, a), Lower(lower, b)) }

  // ---- as the server computes it ----

  method NaturalKey(lower: Fold, title: string) returns (out: seq<string>)
    ensures out == Key(Lower(lower, title))
  {
    out := [];
    ghost var whole := Lower(lower, title);
    var s := Lower(lower, title);
    while |s| > 0
      invariant Key(whole) == out + Key(s)
      decreases |s|
    {
      var n := FirstRun(s);
      KeyCons(s);
      var piece := PieceOf(s[..n]);
      out := out + [piece];
      s := s[n..];
    }
  }

  // Where a character of the other kind comes first.
  method FirstRun(s: string) returns (n: nat)
    requires s != ""
    ensures n == RunLength(s)
  {
    var digits := IsDigit(s[0]);
    n := 1;
    while n < |s| && IsDigit(s[n]) == digits
      invariant 1 <= n <= |s| && forall i :: 0 <= i < n ==> IsDigit(s[i]) == digits
    {
      n := n + 1;
    }
    RunIs(s, n);
  }

  method PieceOf(run: string) returns (piece: string)
    requires run != ""
    ensures piece == Piece(run)
  {
    if !IsDigit(run[0]) { return "1" + run; }
    var part := TrimZeros(run);
    if part == "" { part := "0"; }
    return "0" + Pad(|part|) + part;
  }

  method NaturalOrder(lower: Fold, a: string, b: string) returns (c: int)
    ensures c == if Natural(lower, a, b) < 0 then -1 else if Natural(lower, a, b) > 0 then 1 else 0
  {
    var x := NaturalKey(lower, a);
    var y := NaturalKey(lower, b);
    c := ComparePieces(x, y);
    if c == 0 { c := Sign(Compare(Lower(lower, a), Lower(lower, b))); }
  }

  method ComparePieces(x: seq<string>, y: seq<string>) returns (c: int)
    ensures c == Sign(CompareBy(Compare, x, y))
  {
    var i := 0;
    assert x[0..] == x && y[0..] == y;
    while i < |x| && i < |y|
      invariant 0 <= i <= |x| && i <= |y|
      invariant CompareBy(Compare, x, y) == CompareBy(Compare, x[i..], y[i..])
    {
      assert x[i..][1..] == x[i + 1..] && y[i..][1..] == y[i + 1..];
      c := Compare(x[i], y[i]);
      if c != 0 { return Sign(c); }
      i := i + 1;
    }
    return if |x| < |y| then -1 else if |x| > |y| then 1 else 0;
  }

  lemma {:induction false} RunIs(s: string, n: nat)
    requires s != "" && 1 <= n <= |s| && forall i :: 0 <= i < n ==> (IsDigit(s[i]) <==> IsDigit(s[0]))
    requires n < |s| ==> (IsDigit(s[n]) <==> !IsDigit(s[0]))
    ensures RunLength(s) == n
  {
    if |s| > 1 && IsDigit(s[1]) == IsDigit(s[0]) {
      assert n > 1 by { if n == 1 { assert IsDigit(s[n]) <==> !IsDigit(s[0]); } }
      RunIs(s[1..], n - 1);
    }
  }

  lemma KeyCons(s: string)
    requires s != ""
    ensures Key(s) == [Piece(s[..RunLength(s)])] + Key(s[RunLength(s)..])
  {
    RunsAreUniform(s);
  }

  // ---- a total order on titles ----

  lemma NaturalPair(x: string, y: string)
    ensures CompareNatural(x, y) == 0 <==> x == y
    ensures CompareNatural(x, y) < 0 <==> CompareNatural(y, x) > 0
  {
    StringsAreOrdered();
    CompareZero(Compare, Key(x), Key(y));
    CompareFlip(Compare, Key(x), Key(y));
    CompareFlip(Compare, Key(y), Key(x));
    IdsCompare(x, y);
    IdsCompare(y, x);
  }

  lemma NaturalTriple(x: string, y: string, z: string)
    requires CompareNatural(x, y) <= 0 && CompareNatural(y, z) <= 0
    ensures CompareNatural(x, z) <= 0
  {
    StringsAreOrdered();
    CompareTransitive(Compare, Key(x), Key(y), Key(z));
    if CompareBy(Compare, Key(x), Key(z)) == 0 {
      CompareZero(Compare, Key(x), Key(z));
      CompareFlip(Compare, Key(x), Key(y));
      CompareFlip(Compare, Key(y), Key(x));
      IdsTransitive(x, y, z);
    }
  }

  // Titles are equal in the order exactly when they differ by letter case alone.
  lemma NaturalIsTotal(lower: Fold, a: string, b: string, c: string)
    ensures Natural(lower, a, b) == 0 <==> Lower(lower, a) == Lower(lower, b)
    ensures Natural(lower, a, b) < 0 <==> Natural(lower, b, a) > 0
    ensures Natural(lower, a, b) <= 0 && Natural(lower, b, c) <= 0 ==> Natural(lower, a, c) <= 0
  {
    NaturalPair(Lower(lower, a), Lower(lower, b));
    if Natural(lower, a, b) <= 0 && Natural(lower, b, c) <= 0 {
      NaturalTriple(Lower(lower, a), Lower(lower, b), Lower(lower, c));
    }
  }

  // ---- what the order means ----

  // A title as a reader sees it: numbers and the text between them.
  datatype Token = Number(value: nat) | Text(text: string)

  function CompareTokens(a: Token, b: Token): int {
    match (a, b)
    case (Number(x), Number(y)) => x - y
    case (Number(_), Text(_)) => -1
    case (Text(_), Number(_)) => 1
    case (Text(x), Text(y)) => Compare(x, y)
  }

  predicate Digits(s: string) { forall c <- s :: IsDigit(c) }

  function TokenOf(run: string): Token
    requires Uniform(run)
  { if IsDigit(run[0]) then Number(Value(run)) else Text(run) }

  function TokensOf(runs: seq<string>): seq<Token>
    requires AllUniform(runs)
  { if runs == [] then [] else [TokenOf(runs[0])] + TokensOf(runs[1..]) }

  function Tokens(s: string): seq<Token> {
    RunsAreUniform(s);
    TokensOf(Runs(s))
  }

  lemma {:induction false} SplitCompare(a: string, b: string, x: string, y: string)
    requires |a| == |b|
    ensures Compare(a + x, b + y) == if a == b then Compare(x, y) else Compare(a, b)
    decreases |a|
  {
    if a == "" {
      assert a + x == x && b + y == y;
    } else {
      assert (a + x)[1..] == a[1..] + x && (b + y)[1..] == b[1..] + y;
      SplitCompare(a[1..], b[1..], x, y);
      assert a == [a[0]] + a[1..] && b == [b[0]] + b[1..];
    }
  }

  lemma CompareOne(c: char, d: char)
    ensures Compare([c], [d]) == c as int - d as int
  {
    assert [c][1..] == "" && [d][1..] == "";
    assert Compare("", "") == 0;
  }

  // Digits of one length compare as numbers do.
  lemma {:induction false} SameLengthCompare(p: string, q: string)
    requires |p| == |q| && Digits(p) && Digits(q)
    ensures Sign(Compare(p, q)) == Sign(Value(p) - Value(q))
    decreases |p|
  {
    if p != "" {
      var a, b, c, d := p[..|p| - 1], q[..|q| - 1], p[|p| - 1], q[|q| - 1];
      assert p == a + [c] && q == b + [d] && c in p && d in q;
      assert Value(p) == 10 * Value(a) + DigitValue(c) && Value(q) == 10 * Value(b) + DigitValue(d);
      CompareOne(c, d);
      SameLengthCompare(a, b);
      SplitCompare(a, b, [c], [d]);
      IdsCompare(a, b);
    }
  }

  lemma {:induction false} ValueOfZeros(n: nat, s: string)
    requires Digits(s)
    ensures Digits(Zeros(n) + s) && Value(Zeros(n) + s) == Value(s)
    decreases n + |s|
  {
    var all := Zeros(n) + s;
    if s != "" {
      ValueOfZeros(n, s[..|s| - 1]);
      assert all[..|all| - 1] == Zeros(n) + s[..|s| - 1];
    } else if n > 0 {
      ValueOfZeros(n - 1, "");
      assert all[..n - 1] == Zeros(n - 1) + "";
    }
  }

  lemma {:induction false} TrimmedValue(s: string)
    requires Digits(s)
    ensures Digits(TrimZeros(s)) && Value(TrimZeros(s)) == Value(s) && |TrimZeros(s)| <= |s|
    ensures TrimZeros(s) != "" ==> TrimZeros(s)[0] != '0'
    decreases |s|
  {
    if s != "" && s[0] == '0' {
      TrimmedValue(s[1..]);
      ValueOfZeros(1, s[1..]);
      assert Zeros(1) + s[1..] == s;
    }
  }

  // Of two numerals, the one with more digits is the greater, if it does not
  // start with a zero.
  lemma LongerIsGreater(p: string, q: string)
    requires Digits(p) && Digits(q) && |p| > |q| && p[0] != '0'
    ensures Value(p) > Value(q)
  {
    var padded := Zeros(|p| - |q|) + q;
    ValueOfZeros(|p| - |q|, q);
    assert p[0] in p && padded[0] == '0';
    SameLengthCompare(p, padded);
  }

  function Pow10(k: nat): nat { if k == 0 then 1 else 10 * Pow10(k - 1) }

  lemma {:induction false} ItoaShort(n: nat, k: nat)
    requires k > 0 && n < Pow10(k)
    ensures |Itoa(n)| <= k
    decreases k
  {
    if n >= 10 { ItoaShort(n / 10, k - 1); }
  }

  const MAX_RUN := 100_0000_0000

  lemma PadIs(n: nat)
    requires n < MAX_RUN
    ensures |Pad(n)| == 10 && Digits(Pad(n)) && Value(Pad(n)) == n
  {
    assert Pow10(10) == MAX_RUN;
    ItoaShort(n, 10);
    ValueOfItoa(n);
    if |Itoa(n)| < 10 { ValueOfZeros(10 - |Itoa(n)|, Itoa(n)); }
  }

  // Two strings compare as two numbers do.
  ghost predicate ComparedAs(x: string, y: string, m: nat, n: nat) { Sign(Compare(x, y)) == Sign(m - n) }

  // Digit runs compare by the numbers they stand for, zero-padded or not.
  lemma NumbersCompare(p: string, q: string)
    requires p != "" && q != "" && Digits(p) && Digits(q) && |p| < MAX_RUN && |q| < MAX_RUN
    ensures ComparedAs(Piece(p), Piece(q), Value(p), Value(q))
  {
    var m, a := MagnitudeIs(p);
    var n, b := MagnitudeIs(q);
    MagnitudesCompare(Piece(p), Piece(q), m, n, a, b);
  }

  // `x` is the piece of a number, written without leading zeros.
  ghost predicate Stands(x: string, m: string, value: nat) {
    && Digits(m) && 1 <= |m| < MAX_RUN && (|m| > 1 ==> m[0] != '0')
    && x == NumberPiece(m) && value == Value(m)
  }

  lemma MagnitudeIs(p: string) returns (m: string, value: nat)
    requires p != "" && Digits(p) && |p| < MAX_RUN
    ensures Stands(Piece(p), m, value) && value == Value(p)
  {
    assert p[0] in p;
    TrimmedValue(p);
    m := Magnitude(p);
    value := Value(p);
  }

  lemma MagnitudesCompare(x: string, y: string, m: string, n: string, a: nat, b: nat)
    requires Stands(x, m, a) && Stands(y, n, b)
    ensures ComparedAs(x, y, a, b)
  {
    var c, d := "0" + Pad(|m|), "0" + Pad(|n|);
    LengthsCompare(c, d, |m|, |n|);
    LengthThenDigits(c, d, m, n);
    assert x == c + m && y == d + n;
  }

  lemma LengthThenDigits(a: string, b: string, m: string, n: string)
    requires Digits(m) && Digits(n) && m != "" && n != ""
    requires (|m| > 1 ==> m[0] != '0') && (|n| > 1 ==> n[0] != '0')
    requires |a| == |b| && Sign(Compare(a, b)) == Sign(|m| - |n|) && (a == b <==> |m| == |n|)
    ensures Sign(Compare(a + m, b + n)) == Sign(Value(m) - Value(n))
  {
    SplitCompare(a, b, m, n);
    if |m| == |n| { SameLengthCompare(m, n); }
    else if |m| > |n| { LongerIsGreater(m, n); }
    else { LongerIsGreater(n, m); }
  }

  lemma LengthsCompare(a: string, b: string, m: nat, n: nat)
    requires m < MAX_RUN && n < MAX_RUN && a == "0" + Pad(m) && b == "0" + Pad(n)
    ensures |a| == |b| && Sign(Compare(a, b)) == Sign(m - n) && (a == b <==> m == n)
  {
    PadIs(m);
    PadIs(n);
    SplitCompare("0", "0", Pad(m), Pad(n));
    SameLengthCompare(Pad(m), Pad(n));
    IdsCompare(a, b);
  }

  lemma RunsCompare(p: string, q: string)
    requires Uniform(p) && Uniform(q) && |p| < MAX_RUN && |q| < MAX_RUN
    ensures Sign(Compare(Piece(p), Piece(q))) == Sign(CompareTokens(TokenOf(p), TokenOf(q)))
  {
    if IsDigit(p[0]) && IsDigit(q[0]) {
      NumbersCompare(p, q);
    } else if !IsDigit(p[0]) && !IsDigit(q[0]) {
      SplitCompare("1", "1", p, q);
    } else {
      assert Piece(p)[0] == if IsDigit(p[0]) then '0' else '1';
      assert Piece(q)[0] == if IsDigit(q[0]) then '0' else '1';
    }
  }

  lemma {:induction false} RunListsCompare(a: seq<string>, b: seq<string>)
    requires AllUniform(a) && AllUniform(b)
    requires (forall r <- a :: |r| < MAX_RUN) && (forall r <- b :: |r| < MAX_RUN)
    ensures Sign(CompareBy(Compare, Pieces(a), Pieces(b))) == Sign(CompareBy(CompareTokens, TokensOf(a), TokensOf(b)))
    decreases |a|
  {
    if a != [] && b != [] {
      assert a[0] in a && b[0] in b;
      RunsCompare(a[0], b[0]);
      RunListsCompare(a[1..], b[1..]);
    }
  }

  // The string keys order titles as their tokens do: numbers by value and before
  // text, text by code point; only then does the plain spelling count.
  lemma NaturalIsTokenOrder(x: string, y: string)
    requires (forall r <- Runs(x) :: |r| < MAX_RUN) && (forall r <- Runs(y) :: |r| < MAX_RUN)
    ensures var c := CompareBy(CompareTokens, Tokens(x), Tokens(y));
            Sign(CompareNatural(x, y)) == if c != 0 then Sign(c) else Sign(Compare(x, y))
  {
    RunsAreUniform(x);
    RunsAreUniform(y);
    RunListsCompare(Runs(x), Runs(y));
  }
}
