// Names people and devices give to shelves and books.
module Names {
  import opened Decimal

  const TRASH := ".Trash"

  predicate IsControl(c: char) { c < ' ' || '\U{7F}' <= c <= '\U{9F}' }

  // White space, as strings.TrimSpace removes it.
  predicate IsSpace(c: char) {
    || c in {'\t', '\n', '\U{0B}', '\U{0C}', '\r', ' ', '\U{85}', '\U{A0}', '\U{1680}'}
    || '\U{2000}' <= c <= '\U{200A}'
    || c in {'\U{2028}', '\U{2029}', '\U{202F}', '\U{205F}', '\U{3000}'}
  }

  predicate Blank(s: string) { forall c <- s :: IsSpace(c) }

  function Utf8Length(s: string): nat {
    if s == [] then 0
    else (if s[0] < '\U{80}' then 1 else if s[0] < '\U{800}' then 2 else if s[0] < '\U{10000}' then 3 else 4)
         + Utf8Length(s[1..])
  }

  predicate Valid(s: string) {
    && !Blank(s) && Utf8Length(s) <= 240 && s != "." && s != ".."
    && (forall c <- s :: c != '/' && c != '\\' && !IsControl(c))
  }

  // The k-th name tried for a shelf that moves up: its own, then "name-1", ...
  function Candidate(base: string, k: nat): string {
    if k == 0 then base else base + "-" + Itoa(k)
  }

  lemma CandidatesDiffer(base: string, j: nat, k: nat)
    requires Candidate(base, j) == Candidate(base, k)
    ensures j == k
  {
    if j > 0 && k > 0 {
      assert Candidate(base, j)[|base| + 1..] == Itoa(j);
      assert Candidate(base, k)[|base| + 1..] == Itoa(k);
      ItoaInjective(j, k);
    }
  }

  // Candidates from the k-th on that are blocked are all among `left`.
  ghost predicate Remaining(blocked: set<string>, left: set<string>, base: string, k: nat) {
    left <= blocked && forall j: nat :: j >= k && Candidate(base, j) in blocked ==> Candidate(base, j) in left
  }

  lemma NextRemaining(blocked: set<string>, left: set<string>, base: string, k: nat)
    requires Remaining(blocked, left, base, k) && Candidate(base, k) in blocked
    ensures Remaining(blocked, left - {Candidate(base, k)}, base, k + 1)
    ensures |left - {Candidate(base, k)}| < |left|
  {
    forall j: nat | j >= k + 1 && Candidate(base, j) in blocked
      ensures Candidate(base, j) in left - {Candidate(base, k)}
    {
      if Candidate(base, j) == Candidate(base, k) { CandidatesDiffer(base, j, k); }
    }
    assert Candidate(base, k) in left;
    assert left == left - {Candidate(base, k)} + {Candidate(base, k)};
  }

  // The first free candidate: the renaming loop ends because only finitely many
  // names are taken.
  method FreeName(blocked: set<string>, base: string) returns (name: string, ghost k: nat)
    ensures name !in blocked && name == Candidate(base, k)
    ensures forall j: nat :: j < k ==> Candidate(base, j) in blocked
  {
    name, k := base, 0;
    var n := 1;
    ghost var left := blocked;
    while name in blocked
      invariant n == k + 1 && name == Candidate(base, k)
      invariant Remaining(blocked, left, base, k)
      invariant forall j: nat :: j < k ==> Candidate(base, j) in blocked
      decreases |left|
    {
      NextRemaining(blocked, left, base, k);
      left := left - {name};
      name := base + "-" + Itoa(n);
      k := k + 1;
      n := n + 1;
    }
  }

  lemma {:induction false} FreeExists(blocked: set<string>, left: set<string>, base: string, k: nat)
    requires Remaining(blocked, left, base, k)
    requires forall j: nat :: j < k ==> Candidate(base, j) in blocked
    ensures exists i: nat :: FirstFree(blocked, base, i)
    decreases |left|
  {
    if Candidate(base, k) in blocked {
      NextRemaining(blocked, left, base, k);
      FreeExists(blocked, left - {Candidate(base, k)}, base, k + 1);
    } else {
      assert FirstFree(blocked, base, k);
    }
  }

  ghost predicate FirstFree(blocked: set<string>, base: string, k: nat) {
    Candidate(base, k) !in blocked && forall j: nat :: j < k ==> Candidate(base, j) in blocked
  }

  // The name the loop settles on.
  ghost function Free(blocked: set<string>, base: string): (name: string)
    ensures name !in blocked
  {
    FreeExists(blocked, blocked, base, 0);
    var k: nat :| FirstFree(blocked, base, k);
    Candidate(base, k)
  }

  lemma FreeIsFirst(blocked: set<string>, base: string, k: nat)
    requires FirstFree(blocked, base, k)
    ensures Free(blocked, base) == Candidate(base, k)
  {
    FreeExists(blocked, blocked, base, 0);
    forall i: nat, j: nat | FirstFree(blocked, base, i) && FirstFree(blocked, base, j) ensures i == j {
      assert !(i < j) && !(j < i);
    }
  }
}
