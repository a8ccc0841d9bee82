// Slash paths: trimming, splitting and joining.
module SlashPaths {
  function TrimLeft(s: string): string {
    if s != "" && s[0] == '/' then TrimLeft(s[1..]) else s
  }

  function TrimRight(s: string): string {
    if s != "" && s[|s| - 1] == '/' then TrimRight(s[..|s| - 1]) else s
  }

  function Trim(s: string): string { TrimRight(TrimLeft(s)) }

  // The parts between slashes; always at least one.
  function Split(s: string): (parts: seq<string>)
    ensures parts != []
  {
    if s == "" then [""]
    else
      var r, c, k := Split(s[..|s| - 1]), s[|s| - 1], |Split(s[..|s| - 1])| - 1;
      if c == '/' then r + [""] else r[..k] + [r[k] + [c]]
  }

  function Join(parts: seq<string>): string {
    if parts == [] then ""
    else if |parts| == 1 then parts[0]
    else Join(parts[..|parts| - 1]) + "/" + parts[|parts| - 1]
  }

  ghost predicate Plain(parts: seq<string>) { forall p <- parts :: '/' !in p }

  lemma {:induction false} SplitPlain(s: string)
    ensures Plain(Split(s))
    ensures Split(s)[|Split(s)| - 1] == "" <==> s == "" || s[|s| - 1] == '/'
  {
    if s != "" { SplitPlain(s[..|s| - 1]); }
  }

  lemma {:induction false} SplitLast(s: string, t: string)
    requires '/' !in t
    ensures Split(s + "/" + t) == Split(s) + [t]
  {
    var whole := s + "/" + t;
    if t == "" {
      assert whole[..|whole| - 1] == s;
    } else {
      var u := t[..|t| - 1];
      assert whole[..|whole| - 1] == s + "/" + u;
      assert t == u + [t[|t| - 1]];
      SplitLast(s, u);
      assert (Split(s) + [u])[..|Split(s)|] == Split(s);
    }
  }

  lemma {:induction false} SplitOne(t: string)
    requires '/' !in t
    ensures Split(t) == [t]
  {
    if t != "" {
      SplitOne(t[..|t| - 1]);
      assert t == t[..|t| - 1] + [t[|t| - 1]];
    }
  }

  // Joining and splitting undo each other.
  lemma {:induction false} SplitJoin(parts: seq<string>)
    requires parts != [] && Plain(parts)
    ensures Split(Join(parts)) == parts
  {
    var last := parts[|parts| - 1];
    assert last in parts;
    if |parts| == 1 {
      SplitOne(last);
    } else {
      var before := parts[..|parts| - 1];
      assert Plain(before) by { assert forall p <- before :: p in parts; }
      SplitJoin(before);
      SplitLast(Join(before), last);
      assert parts == before + [last];
    }
  }

  lemma {:induction false} JoinSplit(s: string)
    ensures Join(Split(s)) == s
  {
    if s != "" {
      var t, c := s[..|s| - 1], s[|s| - 1];
      JoinSplit(t);
      var r := Split(t);
      assert s == t + [c];
      if c == '/' {
        assert (r + [""])[..|r|] == r;
      } else {
        var k := |r| - 1;
        assert r == r[..k] + [r[k]];
        assert (r[..k] + [r[k] + [c]])[..k] == r[..k];
      }
    }
  }

  lemma {:induction false} JoinEnds(parts: seq<string>)
    requires parts != [] && forall p <- parts :: p != "" && '/' !in p
    ensures var s := Join(parts); s != "" && s[0] != '/' && s[|s| - 1] != '/'
  {
    assert parts[|parts| - 1] in parts;
    if |parts| > 1 {
      var before := parts[..|parts| - 1];
      assert forall p <- before :: p in parts;
      JoinEnds(before);
    }
  }

  lemma TrimJoin(parts: seq<string>)
    requires parts != [] && forall p <- parts :: p != "" && '/' !in p
    ensures Split(Trim(Join(parts))) == parts
  {
    JoinEnds(parts);
    SplitJoin(parts);
  }

  // A trimmed path has a last part, unless it is empty.
  lemma {:induction false} TrimRightEnds(s: string)
    ensures TrimRight(s) == "" || TrimRight(s)[|TrimRight(s)| - 1] != '/'
  {
    if s != "" && s[|s| - 1] == '/' { TrimRightEnds(s[..|s| - 1]); }
  }
}
