// The Gateway as the publisher sees it: a document store in which every write
// is compare-and-swap on the revision it replaces and no revision is reused.
// A revision is the position of its change in the store's history.
module GatewayStore {
  import opened Outcomes

  type OpId = nat
  type Rev = nat
  type Fields = map<string, string>

  // Commit and message documents live under ids computed from the operation.
  datatype DocId = Record(name: string) | CommitOf(op: OpId) | MessageOf(op: OpId)

  datatype Part = Main | Companion | Commit | Message
  datatype Writer = Outside | Server(op: OpId, part: Part)

  // One accepted write. A deletion leaves the document absent.
  datatype Change = Change(
    doc: DocId, parent: Option<Rev>, writer: Writer, marker: Option<OpId>, fields: Fields, live: bool)

  datatype Store = Store(current: map<DocId, Rev>, history: seq<Change>)

  ghost predicate WellFormed(s: Store) {
    && (forall d <- s.current :: IsCurrent(s, d))
    && (forall d, i :: d !in s.current && 0 <= i < |s.history| && s.history[i].doc == d ==>
          DeletedSince(s.history, d, i, |s.history|))
    && (forall i :: 0 <= i < |s.history| ==> ParentFits(s.history, i))
  }

  ghost predicate IsCurrent(s: Store, d: DocId)
    requires d in s.current
  {
    var r := s.current[d];
    && r < |s.history|
    && s.history[r].doc == d
    && s.history[r].live
    && (forall k :: r < k < |s.history| ==> s.history[k].doc != d)
  }

  ghost predicate DeletedSince(h: seq<Change>, d: DocId, from: int, to: int)
    requires 0 <= from <= to <= |h|
  {
    exists k :: from <= k < to && h[k].doc == d && !h[k].live
  }

  // An update replaces an earlier revision of its own document; a creation
  // finds no document, so any earlier one was deleted in between.
  ghost predicate ParentFits(h: seq<Change>, i: int)
    requires 0 <= i < |h|
  {
    match h[i].parent
    case Some(p) =>
      && p < i && h[p].doc == h[i].doc && h[p].live
      && (forall k :: p < k < i ==> h[k].doc != h[i].doc)
    case None => forall j :: 0 <= j < i && h[j].doc == h[i].doc ==> DeletedSince(h, h[i].doc, j, i)
  }

  predicate Carries(s: Store, d: DocId, op: OpId) {
    && d in s.current
    && s.current[d] < |s.history|
    && s.history[s.current[d]].marker == Some(op)
  }

  // GET: the current revision and its content.
  function Get(s: Store, d: DocId): (r: Option<(Rev, Change)>)
    requires WellFormed(s)
    ensures r.Some? <==> d in s.current
    ensures r.Some? ==> r.value.0 == s.current[d] && r.value.1 == s.history[r.value.0]
  {
    if d in s.current then assert IsCurrent(s, d); Some((s.current[d], s.history[s.current[d]])) else None
  }

  // PUT and DELETE: refused unless the parent is exactly the current revision.
  function Write(s: Store, c: Change): (r: Option<Store>)
    ensures r.Some? <==> c.parent == (if c.doc in s.current then Some(s.current[c.doc]) else None)
    ensures r.Some? ==> r.value.history == s.history + [c]
  {
    if c.parent != (if c.doc in s.current then Some(s.current[c.doc]) else None) then None
    else
      Some(Store(
        if c.live then s.current[c.doc := |s.history|] else s.current - {c.doc},
        s.history + [c]))
  }

  lemma WriteKeepsWellFormed(s: Store, c: Change)
    requires WellFormed(s) && Write(s, c).Some? && (c.live || c.parent.Some?)
    ensures WellFormed(Write(s, c).value)
  {
    var t := Write(s, c).value;
    var n := |s.history|;
    forall d | d in t.current ensures IsCurrent(t, d) {
      if d != c.doc { assert IsCurrent(s, d); }
    }
    forall d, i | d !in t.current && 0 <= i < |t.history| && t.history[i].doc == d
      ensures DeletedSince(t.history, d, i, |t.history|)
    {
      if d == c.doc {
        assert t.history[n].doc == d && !t.history[n].live;
      } else {
        assert DeletedSince(s.history, d, i, n);
        var k :| i <= k < n && s.history[k].doc == d && !s.history[k].live;
        assert t.history[k] == s.history[k];
      }
    }
    forall i | 0 <= i < |t.history| ensures ParentFits(t.history, i) {
      if i < n {
        assert ParentFits(s.history, i);
        ParentFitsExtends(s.history, c, i);
      } else if c.doc in s.current {
        assert IsCurrent(s, c.doc);
      } else {
        forall j | 0 <= j < n && t.history[j].doc == c.doc ensures DeletedSince(t.history, c.doc, j, n) {
          assert DeletedSince(s.history, c.doc, j, n);
          var k :| j <= k < n && s.history[k].doc == c.doc && !s.history[k].live;
          assert t.history[k] == s.history[k];
        }
      }
    }
  }

  // An accepted write is what the next reader finds; other documents are as before.
  lemma WriteThenGet(s: Store, c: Change)
    requires WellFormed(s) && Write(s, c).Some? && (c.live || c.parent.Some?)
    ensures WellFormed(Write(s, c).value)
    ensures Get(Write(s, c).value, c.doc) == if c.live then Some((|s.history|, c)) else None
    ensures forall d :: d != c.doc ==> Get(Write(s, c).value, d) == Get(s, d)
  {
    WriteKeepsWellFormed(s, c);
    var t := Write(s, c).value;
    forall d | d != c.doc ensures Get(t, d) == Get(s, d) {
      if d in s.current { assert IsCurrent(s, d); }
    }
  }

  // Of two writes of a document that were both prepared from the same revision,
  // only the first is accepted.
  lemma SecondIsRefused(s: Store, first: Change, second: Change)
    requires WellFormed(s) && (first.live || first.parent.Some?)
    requires first.doc == second.doc && Write(s, first).Some? && Write(s, second).Some?
    ensures Write(Write(s, first).value, second).None?
  {
    if first.doc in s.current { assert IsCurrent(s, first.doc); }
  }

  lemma ParentFitsExtends(h: seq<Change>, c: Change, i: int)
    requires 0 <= i < |h| && ParentFits(h, i)
    ensures ParentFits(h + [c], i)
  {
    var g := h + [c];
    if h[i].parent.None? {
      forall j | 0 <= j < i && g[j].doc == g[i].doc ensures DeletedSince(g, g[i].doc, j, i) {
        assert DeletedSince(h, h[i].doc, j, i);
        var k :| j <= k < i && h[k].doc == h[i].doc && !h[k].live;
        assert g[k] == h[k];
      }
    }
  }
}
