// What an observed pass of the changes feed leaves in the archive: which bodies
// are recorded, which are only remembered, and what the projection shows.
module ArchiveRecords {
  import opened Outcomes
  import opened Archive

  // The bodies of a feed, in the order in which they are taken in.
  datatype Body =
    | Leaf(doc: DocId, rev: Rev, c: Content, byParent: bool)
    | Winner(doc: DocId, c: Content, byParent: bool)
    | NoWinner(doc: DocId)

  function LeafBodies(doc: DocId, leaves: seq<(Rev, Content)>, byParent: bool): seq<Body> {
    if leaves == [] then []
    else
      var (rev, c) := leaves[|leaves| - 1];
      LeafBodies(doc, leaves[..|leaves| - 1], byParent) + [Leaf(doc, rev, c, byParent)]
  }

  function ChangeBodies(change: FeedChange): seq<Body> {
    LeafBodies(change.doc, change.leaves, change.byParent)
    + [match change.winner
       case None => NoWinner(change.doc)
       case Some(c) => Winner(change.doc, c, change.byParent)]
  }

  function Bodies(feed: seq<FeedChange>): seq<Body> {
    if feed == [] then [] else Bodies(feed[..|feed| - 1]) + ChangeBodies(feed[|feed| - 1])
  }

  // ---- one body after the other ----

  function Take(db: Db, b: Body): (Db, seq<Effect>) {
    match b
    case Leaf(doc, rev, c, byParent) => ObserveLeaf(db, doc, rev, c, byParent)
    case Winner(doc, c, byParent) => (ObserveWinner(db, doc, Some(c), byParent), [])
    case NoWinner(doc) => (ObserveWinner(db, doc, None, false), [])
  }

  function TakeAll(db: Db, bodies: seq<Body>): (Db, seq<Effect>)
    decreases |bodies|
  {
    if bodies == [] then (db, [])
    else
      var (before, effects) := TakeAll(db, bodies[..|bodies| - 1]);
      var (after, more) := Take(before, bodies[|bodies| - 1]);
      (after, effects + more)
  }

  lemma {:induction false} TakeOn(db: Db, a: seq<Body>, b: seq<Body>)
    ensures TakeAll(db, a + b).0 == TakeAll(TakeAll(db, a).0, b).0
    ensures TakeAll(db, a + b).1 == TakeAll(db, a).1 + TakeAll(TakeAll(db, a).0, b).1
    decreases |b|
  {
    if b == [] {
      assert a + b == a;
    } else {
      TakeOn(db, a, b[..|b| - 1]);
      assert (a + b)[..|a + b| - 1] == a + b[..|b| - 1];
    }
  }

  lemma {:induction false} LeavesAreTaken(db: Db, doc: DocId, leaves: seq<(Rev, Content)>, byParent: bool)
    ensures ObserveLeaves(db, doc, leaves, byParent) == TakeAll(db, LeafBodies(doc, leaves, byParent))
    decreases |leaves|
  {
    if leaves != [] {
      var before := leaves[..|leaves| - 1];
      LeavesAreTaken(db, doc, before, byParent);
      var bodies := LeafBodies(doc, leaves, byParent);
      assert bodies[..|bodies| - 1] == LeafBodies(doc, before, byParent);
    }
  }

  lemma ChangeIsTaken(db: Db, change: FeedChange)
    ensures ObserveChange(db, change) == TakeAll(db, ChangeBodies(change))
  {
    LeavesAreTaken(db, change.doc, change.leaves, change.byParent);
    var bodies := ChangeBodies(change);
    assert bodies[..|bodies| - 1] == LeafBodies(change.doc, change.leaves, change.byParent);
    var (leaves, effects) := ObserveLeaves(db, change.doc, change.leaves, change.byParent);
    assert effects + [] == effects;
  }

  lemma {:induction false} FeedIsTaken(db: Db, feed: seq<FeedChange>)
    ensures ObserveFeed(db, feed) == TakeAll(db, Bodies(feed))
    decreases |feed|
  {
    if feed != [] {
      var before, change := feed[..|feed| - 1], feed[|feed| - 1];
      FeedIsTaken(db, before);
      ChangeIsTaken(ObserveFeed(db, before).0, change);
      TakeOn(db, Bodies(before), ChangeBodies(change));
    }
  }

  // ---- what is suppressed ----

  // The body names a removed notebook as its owner.
  predicate Names(db: Db, b: Body) { !b.NoWinner? && b.c.owner.Some? && b.c.owner.value in db.purged }

  // The document is remembered for a removed notebook, or one of the bodies so
  // far has named one.
  ghost predicate Bound(db: Db, bodies: seq<Body>, d: DocId) {
    d in db.tombs || exists j :: 0 <= j < |bodies| && bodies[j].doc == d && Names(db, bodies[j])
  }

  // Body `i` brings content in.
  ghost predicate Kept(db: Db, bodies: seq<Body>, i: int)
    requires 0 <= i < |bodies|
  {
    !bodies[i].NoWinner? && !Bound(db, bodies[..i + 1], bodies[i].doc)
  }

  ghost predicate KeptLeaf(db: Db, bodies: seq<Body>, i: int, k: (DocId, Rev)) {
    0 <= i < |bodies| && bodies[i].Leaf? && (bodies[i].doc, bodies[i].rev) == k && Kept(db, bodies, i)
  }

  // ---- revisions ----

  // Body `i` is the first kept one of its revision.
  ghost predicate FirstKept(db: Db, bodies: seq<Body>, i: int, k: (DocId, Rev)) {
    KeptLeaf(db, bodies, i, k) && forall j :: KeptLeaf(db, bodies, j, k) ==> i <= j
  }

  // A revision row is the one there was, or else the first kept body of its
  // revision; and every kept body has its row.
  ghost predicate RevisionsAre(db: Db, bodies: seq<Body>, t: Db) {
    && (forall k <- db.revisions :: k in t.revisions && t.revisions[k] == db.revisions[k])
    && (forall k <- t.revisions :: k !in db.revisions ==>
          exists i :: FirstKept(db, bodies, i, k) && t.revisions[k] == bodies[i].c)
    && (forall i :: 0 <= i < |bodies| && bodies[i].Leaf? && Kept(db, bodies, i) ==>
          (bodies[i].doc, bodies[i].rev) in t.revisions)
  }

  // ---- the projection ----

  // Body `i` decides what the projection shows of its document.
  ghost predicate Decides(db: Db, bodies: seq<Body>, i: int, d: DocId) {
    && 0 <= i < |bodies| && bodies[i].doc == d
    && (bodies[i].NoWinner? || (bodies[i].Winner? && Kept(db, bodies, i)))
  }

  ghost predicate DecidesLast(db: Db, bodies: seq<Body>, i: int, d: DocId) {
    Decides(db, bodies, i, d) && forall j :: Decides(db, bodies, j, d) ==> j <= i
  }

  ghost predicate NoneDecides(db: Db, bodies: seq<Body>, d: DocId) { forall i :: !Decides(db, bodies, i, d) }

  function Shown(b: Body): Option<Content>
    requires !b.Leaf?
  { if b.NoWinner? then None else Some(b.c) }

  function Projected(db: Db, d: DocId): Option<Content> {
    if d in db.projections then Some(db.projections[d]) else None
  }

  // The last winner that is kept or missing decides; without one all stays.
  ghost predicate ProjectionsAre(db: Db, bodies: seq<Body>, t: Db) {
    && (forall d, i :: DecidesLast(db, bodies, i, d) ==> Projected(t, d) == Shown(bodies[i]))
    && (forall d :: NoneDecides(db, bodies, d) ==> Projected(t, d) == Projected(db, d))
  }

  // ---- tombstones ----

  // Some body brought the document back to life.
  ghost predicate Revived(db: Db, bodies: seq<Body>, d: DocId) {
    exists k :: 0 <= k < |bodies| && bodies[k].doc == d && !bodies[k].NoWinner? && !bodies[k].c.deleted
                && Bound(db, bodies[..k + 1], d)
  }

  // Just the documents that are bound are remembered, and those that were revived
  // have a tombstone to be written. Blobs, removals and garbage are as before.
  ghost predicate TombsAre(db: Db, bodies: seq<Body>, t: Db) {
    && t == db.(revisions := t.revisions, projections := t.projections, tombs := t.tombs, ops := t.ops)
    && (forall d :: d in t.tombs <==> Bound(db, bodies, d))
    && (forall d <- t.tombs ::
          t.tombs[d].pending <==> (d in db.tombs && db.tombs[d].pending) || Revived(db, bodies, d))
    && (forall d <- db.tombs :: d in t.tombs && t.tombs[d].notebook == db.tombs[d].notebook)
  }

  // ---- the steps ----

  lemma BoundGrows(db: Db, before: seq<Body>, b: Body, d: DocId)
    ensures Bound(db, before + [b], d) <==> Bound(db, before, d) || (b.doc == d && Names(db, b))
  {
    var all := before + [b];
    if Bound(db, before, d) && d !in db.tombs {
      var j :| 0 <= j < |before| && before[j].doc == d && Names(db, before[j]);
      assert all[j] == before[j];
    }
    assert all[|before|] == b;
  }

  // Earlier bodies are kept or not as before.
  lemma KeptBefore(db: Db, before: seq<Body>, b: Body)
    ensures forall i :: 0 <= i < |before| ==> Kept(db, before + [b], i) == Kept(db, before, i)
    ensures Kept(db, before + [b], |before|) <==> !b.NoWinner? && !Bound(db, before, b.doc) && !Names(db, b)
  {
    var all := before + [b];
    forall i | 0 <= i < |before| ensures Kept(db, all, i) == Kept(db, before, i) {
      assert all[..i + 1] == before[..i + 1];
    }
    assert all[..|before| + 1] == all;
    BoundGrows(db, before, b, b.doc);
  }

  lemma RevivedGrows(db: Db, before: seq<Body>, b: Body, d: DocId)
    ensures Revived(db, before + [b], d)
            <==> Revived(db, before, d) || (b.doc == d && !b.NoWinner? && !b.c.deleted && Bound(db, before + [b], d))
  {
    var all := before + [b];
    assert all[..|before| + 1] == all && all[|before|] == b;
    if Revived(db, before, d) {
      var k :| 0 <= k < |before| && before[k].doc == d && !before[k].NoWinner? && !before[k].c.deleted
               && Bound(db, before[..k + 1], d);
      assert all[k] == before[k] && all[..k + 1] == before[..k + 1];
    }
    if Revived(db, all, d) {
      var k :| 0 <= k < |all| && all[k].doc == d && !all[k].NoWinner? && !all[k].c.deleted && Bound(db, all[..k + 1], d);
      if k < |before| { assert all[k] == before[k] && all[..k + 1] == before[..k + 1]; }
    }
  }

  // A body is kept exactly when nothing binds it; one that is bound is remembered.
  ghost predicate Taken(s: Db, b: Body, t: Db, effects: seq<Effect>) {
    var bound := b.doc in s.tombs || Names(s, b);
    && t == s.(revisions := t.revisions, projections := t.projections, tombs := t.tombs, ops := t.ops)
    && t.revisions == (if b.Leaf? && !bound && (b.doc, b.rev) !in s.revisions
                       then s.revisions[(b.doc, b.rev) := b.c] else s.revisions)
    && t.projections == (if b.NoWinner? then s.projections - {b.doc}
                         else if b.Winner? && !bound then s.projections[b.doc := b.c] else s.projections)
    && (forall d :: d in t.tombs <==> d in s.tombs || (d == b.doc && !b.NoWinner? && bound))
    && (forall d <- s.tombs :: t.tombs[d].notebook == s.tombs[d].notebook)
    && (forall d <- t.tombs :: t.tombs[d].pending <==>
          (d in s.tombs && s.tombs[d].pending) || (d == b.doc && !b.NoWinner? && bound && !b.c.deleted))
    && effects == (if b.Leaf? && !bound then [PutObject(Revision(b.c.sha))] else [])
  }

  lemma SuppressIs(s: Db, doc: DocId, notebook: DocId, pending: bool)
    ensures var t := Suppress(s, doc, notebook, pending);
            && t == s.(tombs := t.tombs, ops := t.ops)
            && t.tombs == s.tombs[doc := if doc in s.tombs then s.tombs[doc].(pending := s.tombs[doc].pending || pending)
                                         else Tomb(notebook, pending)]
  {}

  lemma BindingIs(s: Db, b: Body)
    requires !b.NoWinner?
    ensures Binding(s, b.doc, b.c, b.byParent).Some? <==> b.doc in s.tombs || Names(s, b)
  {}

  lemma TakeBound(s: Db, b: Body, notebook: DocId)
    requires !b.NoWinner? && (b.doc in s.tombs || Names(s, b))
    ensures Taken(s, b, Suppress(s, b.doc, notebook, !b.c.deleted), [])
  {
    SuppressIs(s, b.doc, notebook, !b.c.deleted);
  }

  lemma TakeFree(s: Db, b: Body)
    requires b.NoWinner? || Binding(s, b.doc, b.c, b.byParent).None?
    requires !b.NoWinner? ==> b.doc !in s.tombs && !Names(s, b)
    ensures Taken(s, b, Take(s, b).0, Take(s, b).1)
  {}

  lemma TakeIs(s: Db, b: Body)
    ensures Taken(s, b, Take(s, b).0, Take(s, b).1)
  {
    if !b.NoWinner? {
      BindingIs(s, b);
      var notebook := Binding(s, b.doc, b.c, b.byParent);
      if notebook.Some? { TakeBound(s, b, notebook.value); } else { TakeFree(s, b); }
    } else {
      TakeFree(s, b);
    }
  }

  lemma TombsStep(db: Db, before: seq<Body>, b: Body, s: Db)
    requires TombsAre(db, before, s)
    ensures TombsAre(db, before + [b], Take(s, b).0)
  {
    TakeIs(s, b);
    var t, all := Take(s, b).0, before + [b];
    forall d ensures d in t.tombs <==> Bound(db, all, d) { BoundGrows(db, before, b, d); }
    forall d <- t.tombs
      ensures t.tombs[d].pending <==> (d in db.tombs && db.tombs[d].pending) || Revived(db, all, d)
    {
      BoundGrows(db, before, b, d);
      RevivedGrows(db, before, b, d);
      if Revived(db, before, d) { RevivedIsBound(db, before, d); }
    }
  }

  lemma BoundPart(db: Db, bodies: seq<Body>, k: nat, d: DocId)
    requires k <= |bodies| && Bound(db, bodies[..k], d)
    ensures Bound(db, bodies, d)
  {
    if d !in db.tombs {
      var j :| 0 <= j < k && bodies[..k][j].doc == d && Names(db, bodies[..k][j]);
      assert bodies[..k][j] == bodies[j];
    }
  }

  lemma RevivedIsBound(db: Db, bodies: seq<Body>, d: DocId)
    requires Revived(db, bodies, d)
    ensures Bound(db, bodies, d)
  {
    var k :| 0 <= k < |bodies| && bodies[k].doc == d && !bodies[k].NoWinner? && !bodies[k].c.deleted
             && Bound(db, bodies[..k + 1], d);
    BoundPart(db, bodies, k + 1, d);
  }

  lemma FirstKeptBefore(db: Db, before: seq<Body>, b: Body, i: int, k: (DocId, Rev))
    requires FirstKept(db, before, i, k)
    ensures FirstKept(db, before + [b], i, k)
  {
    KeptBefore(db, before, b);
    var all := before + [b];
    assert KeptLeaf(db, all, i, k);
    forall j | KeptLeaf(db, all, j, k) ensures i <= j {
      if j < |before| { assert KeptLeaf(db, before, j, k); }
    }
  }

  lemma FirstKeptLast(db: Db, before: seq<Body>, b: Body, k: (DocId, Rev))
    requires KeptLeaf(db, before + [b], |before|, k) && forall i :: !KeptLeaf(db, before, i, k)
    ensures FirstKept(db, before + [b], |before|, k)
  {
    KeptBefore(db, before, b);
    var all := before + [b];
    assert forall j :: j < |before| ==> KeptLeaf(db, all, j, k) == KeptLeaf(db, before, j, k);
  }

  lemma RevisionTraced(db: Db, before: seq<Body>, b: Body, s: Db, t: Db, k: (DocId, Rev))
    requires TombsAre(db, before, s) && RevisionsAre(db, before, s) && Taken(s, b, t, Take(s, b).1)
    requires k in t.revisions && k !in db.revisions
    ensures exists i :: FirstKept(db, before + [b], i, k) && t.revisions[k] == (before + [b])[i].c
  {
    if k in s.revisions {
      var i :| FirstKept(db, before, i, k) && s.revisions[k] == before[i].c;
      FirstKeptBefore(db, before, b, i, k);
    } else {
      KeptBefore(db, before, b);
      assert KeptLeaf(db, before + [b], |before|, k);
      FirstKeptLast(db, before, b, k);
    }
  }

  lemma RevisionsStep(db: Db, before: seq<Body>, b: Body, s: Db, t: Db)
    requires TombsAre(db, before, s) && RevisionsAre(db, before, s) && Taken(s, b, t, Take(s, b).1)
    ensures RevisionsAre(db, before + [b], t)
  {
    KeptBefore(db, before, b);
    var all := before + [b];
    forall k <- t.revisions | k !in db.revisions
      ensures exists i :: FirstKept(db, all, i, k) && t.revisions[k] == all[i].c
    {
      RevisionTraced(db, before, b, s, t, k);
    }
  }

  lemma DecidesBefore(db: Db, before: seq<Body>, b: Body, i: int, d: DocId)
    ensures i < |before| ==> (Decides(db, before + [b], i, d) <==> Decides(db, before, i, d))
    ensures Decides(db, before + [b], |before|, d)
            <==> b.doc == d && (b.NoWinner? || (b.Winner? && !Bound(db, before, d) && !Names(db, b)))
  {
    KeptBefore(db, before, b);
  }

  lemma ProjectionsStep(db: Db, before: seq<Body>, b: Body, s: Db, t: Db)
    requires TombsAre(db, before, s) && ProjectionsAre(db, before, s) && Taken(s, b, t, Take(s, b).1)
    ensures ProjectionsAre(db, before + [b], t)
  {
    var all := before + [b];
    forall d, i | DecidesLast(db, all, i, d) ensures Projected(t, d) == Shown(all[i]) {
      DecidesBefore(db, before, b, i, d);
      DecidesBefore(db, before, b, |before|, d);
      if i < |before| { LastBefore(db, before, b, i, d); }
    }
    forall d | NoneDecides(db, all, d) ensures Projected(t, d) == Projected(db, d) {
      DecidesBefore(db, before, b, |before|, d);
      assert !Decides(db, all, |before|, d);
      forall i ensures !Decides(db, before, i, d) { DecidesBefore(db, before, b, i, d); }
    }
  }

  lemma LastBefore(db: Db, before: seq<Body>, b: Body, i: int, d: DocId)
    requires DecidesLast(db, before + [b], i, d) && i < |before|
    ensures DecidesLast(db, before, i, d) && !Decides(db, before + [b], |before|, d)
  {
    DecidesBefore(db, before, b, i, d);
    forall j | Decides(db, before, j, d) ensures j <= i { DecidesBefore(db, before, b, j, d); }
  }

  // The uploads of a pass: one for each kept leaf, in order.
  ghost function Uploads(db: Db, bodies: seq<Body>): seq<Effect>
    decreases |bodies|
  {
    if bodies == [] then []
    else
      var n := |bodies| - 1;
      Uploads(db, bodies[..n])
      + if bodies[n].Leaf? && Kept(db, bodies, n) then [PutObject(Revision(bodies[n].c.sha))] else []
  }

  lemma {:induction false} BodiesAreTaken(db: Db, bodies: seq<Body>)
    ensures var (t, effects) := TakeAll(db, bodies);
            && TombsAre(db, bodies, t) && RevisionsAre(db, bodies, t) && ProjectionsAre(db, bodies, t)
            && effects == Uploads(db, bodies)
    decreases |bodies|
  {
    if bodies != [] {
      var before, b := bodies[..|bodies| - 1], bodies[|bodies| - 1];
      BodiesAreTaken(db, before);
      assert bodies == before + [b];
      var s := TakeAll(db, before).0;
      TombsStep(db, before, b, s);
      TakeIs(s, b);
      RevisionsStep(db, before, b, s, Take(s, b).0);
      ProjectionsStep(db, before, b, s, Take(s, b).0);
      KeptBefore(db, before, b);
    }
  }

  ghost predicate Uploaded(db: Db, bodies: seq<Body>, key: ObjectKey) {
    exists i :: 0 <= i < |bodies| && bodies[i].Leaf? && Kept(db, bodies, i) && key == Revision(bodies[i].c.sha)
  }

  lemma {:induction false} UploadsAre(db: Db, bodies: seq<Body>, key: ObjectKey)
    ensures PutObject(key) in Uploads(db, bodies) <==> Uploaded(db, bodies, key)
    ensures forall e <- Uploads(db, bodies) :: e.PutObject?
    decreases |bodies|
  {
    if bodies != [] {
      var n := |bodies| - 1;
      var before, b := bodies[..n], bodies[n];
      UploadsAre(db, before, key);
      assert bodies == before + [b];
      KeptBefore(db, before, b);
      if Uploaded(db, before, key) {
        var i :| 0 <= i < n && before[i].Leaf? && Kept(db, before, i) && key == Revision(before[i].c.sha);
        assert bodies[i] == before[i];
      }
    }
  }

  lemma {:induction false} PutsAdd(objects: set<ObjectKey>, effects: seq<Effect>, key: ObjectKey)
    requires forall e <- effects :: e.PutObject?
    ensures key in Apply(objects, effects) <==> key in objects || PutObject(key) in effects
    decreases |effects|
  {
    if effects != [] {
      assert effects[0] in effects;
      PutsAdd(objects + {effects[0].key}, effects[1..], key);
    }
  }

  // A committed pass: every body that no removed notebook claims is recorded and
  // stored, the content recorded first stays, nothing else is recorded or stored,
  // the projection shows the last winner, and claimed documents are remembered.
  lemma ObservedIsRecorded(s: State, feed: seq<FeedChange>)
    ensures var t, bodies := Step(s, Commit(ObserveTx(feed))), Bodies(feed);
            && RevisionsAre(s.db, bodies, t.db) && ProjectionsAre(s.db, bodies, t.db) && TombsAre(s.db, bodies, t.db)
            && (forall key :: key in t.objects <==> key in s.objects || Uploaded(s.db, bodies, key))
  {
    FeedIsTaken(s.db, feed);
    BodiesAreTaken(s.db, Bodies(feed));
    forall key
      ensures key in Apply(s.objects, Uploads(s.db, Bodies(feed))) <==> key in s.objects || Uploaded(s.db, Bodies(feed), key)
    {
      UploadsAre(s.db, Bodies(feed), key);
      PutsAdd(s.objects, Uploads(s.db, Bodies(feed)), key);
    }
  }
}
