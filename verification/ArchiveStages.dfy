// What admission and each stage of a purge do to the archive's tables, and what
// brings a complete purge back.
module ArchiveStages {
  import opened Outcomes
  import opened Archive

  // Some row of the document names the notebook as its owner.
  ghost predicate NamedBy(db: Db, d: DocId, notebook: DocId) {
    || (d in db.projections && db.projections[d].owner == Some(notebook))
    || (exists k :: k in db.revisions && k.0 == d && db.revisions[k].owner == Some(notebook))
  }

  // Documents that are newly found are remembered, with a tombstone to be written;
  // the others stay as they are.
  ghost predicate Remembers(db: Db, t: Db, notebook: DocId) {
    && (forall d :: d in t.tombs <==> d in db.tombs || NamedBy(db, d, notebook))
    && (forall d <- t.tombs :: t.tombs[d] == if d in db.tombs then db.tombs[d] else Tomb(notebook, true))
  }

  lemma DiscoverIs(db: Db, notebook: DocId)
    ensures var t := Discover(db, notebook); t == db.(tombs := t.tombs) && Remembers(db, t, notebook)
  {
    forall d ensures d in Discovered(db, notebook) <==> NamedBy(db, d, notebook) {
      if k :| k in db.revisions && k.0 == d && db.revisions[k].owner == Some(notebook) {
        assert k in db.revisions && Owns(db.revisions[k], notebook);
      }
    }
  }

  // ---- admission ----

  // Every other operation on the notebook that is not complete is cancelled.
  ghost predicate Admitted(db: Db, t: Db, id: OpId)
    requires id in db.ops
  {
    && t.ops.Keys == db.ops.Keys && t.ops[id] == db.ops[id].(state := PurgingNative)
    && (forall k <- db.ops :: k != id ==>
          t.ops[k] == if db.ops[k].doc == db.ops[id].doc && db.ops[k].state != Complete then db.ops[k].(state := Cancelled)
                      else db.ops[k])
  }

  lemma AdmitOpsAre(db: Db, id: OpId)
    requires id in db.ops
    ensures Admitted(db, Admit(db, id), id)
  {}

  // The notebook is removed by this operation, unless it was removed before; it is
  // remembered itself, and so is every document that names it.
  lemma AdmitIs(db: Db, id: OpId)
    requires id in db.ops
    ensures var doc, t := db.ops[id].doc, Admit(db, id);
            && Admitted(db, t, id)
            && t.purged == (if doc in db.purged then db.purged else db.purged[doc := id])
            && (forall d :: d in t.tombs <==> d in db.tombs || d == doc || NamedBy(db, d, doc))
            && (forall d <- t.tombs :: t.tombs[d] == if d in db.tombs then db.tombs[d] else Tomb(doc, true))
            && t == db.(ops := t.ops, purged := t.purged, tombs := t.tombs)
  {
    AdmitOpsAre(db, id);
    var doc := db.ops[id].doc;
    var before := db.(
      ops := map k | k in db.ops :: AdmittedOp(db, id, k),
      purged := if doc in db.purged then db.purged else db.purged[doc := id],
      tombs := if doc in db.tombs then db.tombs else db.tombs[doc := Tomb(doc, true)]);
    DiscoverIs(before, doc);
  }

  // A queued purge is admitted, or blocked when it is not accepted any more; no
  // other operation is taken up.
  lemma AdmissionIs(db: Db, id: OpId, accepted: bool)
    ensures var (t, effects) := Plan(db, AdmitTx(id, accepted));
            && effects == []
            && (if id in db.ops && db.ops[id].purge && db.ops[id].state == Queued then
                  if accepted then t == Admit(db, id) else t == db.(ops := db.ops[id := db.ops[id].(state := Blocked)])
                else t == db)
  {}

  // An operation is queued under a new id, a purge only of a notebook that is not
  // removed yet. One refused because the library was replaced is blocked, unless
  // it is complete or cancelled.
  lemma QueueIs(db: Db, id: OpId, op: Op)
    ensures Plan(db, EnqueueTx(id, op)) ==
            (if id !in db.ops && op.state == Queued && (op.purge ==> op.doc !in db.purged) then db.(ops := db.ops[id := op])
             else db, [])
    ensures Plan(db, RefuseTx(id)) ==
            (if id in db.ops && !(db.ops[id].state in {Complete, Cancelled})
             then db.(ops := db.ops[id := db.ops[id].(state := Blocked)]) else db, [])
  {}

  // ---- stages ----

  ghost predicate Open(db: Db, notebook: DocId) {
    exists d :: d in db.tombs && db.tombs[d].notebook == notebook && db.tombs[d].pending
  }

  lemma OpenIs(db: Db, notebook: DocId)
    ensures Open(db, notebook) <==> Pending(db, notebook) != {}
  {
    if d :| d in db.tombs && db.tombs[d].notebook == notebook && db.tombs[d].pending {
      assert d in Pending(db, notebook);
    }
  }

  // A batch is at most 32 documents whose tombstone is to be written, and fewer
  // only if there are no more.
  lemma TombstoneBatchIs(db: Db, notebook: DocId, batch: set<DocId>)
    ensures TombstoneBatch(db, notebook, batch) <==>
              && (forall d :: d in batch ==> d in db.tombs && db.tombs[d].notebook == notebook && db.tombs[d].pending)
              && |batch| <= 32
              && (|batch| < 32 ==>
                    forall d :: d in db.tombs && db.tombs[d].notebook == notebook && db.tombs[d].pending ==> d in batch)
  {}

  // The batch is marked written; the purge moves on when nothing is left to write.
  lemma TombstonedIs(db: Db, id: OpId, batch: set<DocId>)
    requires id in db.ops
    ensures var t := Tombstoned(db, id, batch);
            && t == db.(ops := t.ops, tombs := t.tombs) && t.tombs.Keys == db.tombs.Keys
            && (forall d <- db.tombs :: t.tombs[d] == if d in batch then db.tombs[d].(pending := false) else db.tombs[d])
            && t.ops == if Open(t, db.ops[id].doc) then db.ops else db.ops[id := db.ops[id].(state := PurgingServer)]
  {
    var t := Tombstoned(db, id, batch);
    OpenIs(t, db.ops[id].doc);
    assert forall d :: d in Pending(t, db.ops[id].doc) <==> d in t.tombs && t.tombs[d].notebook == db.ops[id].doc && t.tombs[d].pending;
    var marked := db.(tombs := t.tombs);
    assert Pending(marked, db.ops[id].doc) == Pending(t, db.ops[id].doc);
  }

  lemma RowsMoveOn(db: Db, id: OpId)
    requires id in db.ops
    ensures var t := ServerRows(db, id);
            t.ops == db.ops[id := db.ops[id].(state := PurgingObjects)] && t.purged == db.purged && t.tombs == db.tombs
  {}

  lemma CollectBatchIs(db: Db, id: OpId, batch: seq<ObjectKey>)
    ensures CollectBatch(db, id, batch) <==> |batch| <= 64 && forall key :: key in batch ==> (id, key) in db.garbage
  {}

  // The batch is struck off the purge's list. While the list is not empty the
  // purge stays; then it is complete, unless a tombstone is to be written again.
  lemma CollectedIs(db: Db, id: OpId, batch: seq<ObjectKey>)
    requires id in db.ops
    ensures var t := Collected(db, id, batch);
            && t == db.(ops := t.ops, garbage := t.garbage)
            && (forall g :: g in t.garbage <==> g in db.garbage && !(g.0 == id && g.1 in batch))
            && t.ops == (if exists g :: g in t.garbage && g.0 == id then db.ops
                         else db.ops[id := db.ops[id].(
                           state := if Open(db, db.ops[id].doc) then PurgingNative else Complete)])
  {
    OpenIs(db, db.ops[id].doc);
    var t := Collected(db, id, batch);
    assert t.garbage == db.garbage - (set key | key in batch :: (id, key));
  }

  // ---- the way back ----

  // A body that is suppressed for a removed notebook reopens its complete purge if
  // it is live, and changes no other operation.
  lemma ReopenIs(db: Db, doc: DocId, notebook: DocId, live: bool)
    ensures var t := Suppress(db, doc, notebook, live);
            t.ops == if live && notebook in db.purged && db.purged[notebook] in db.ops
                        && db.ops[db.purged[notebook]].state == Complete
                     then db.ops[db.purged[notebook] := db.ops[db.purged[notebook]].(state := PurgingNative)]
                     else db.ops
  {}

  // A document stays bound to the notebook it is remembered for, unless the lookup
  // by its owner is taken; any other body is bound to its owner if that is removed.
  lemma BoundIs(db: Db, doc: DocId, c: Content, byParent: bool)
    ensures var removed := c.owner.Some? && c.owner.value in db.purged;
            && (doc in db.tombs && !removed ==> Binding(db, doc, c, byParent) == Some(db.tombs[doc].notebook))
            && (doc !in db.tombs && removed ==> Binding(db, doc, c, byParent) == c.owner)
            && (doc !in db.tombs && !removed ==> Binding(db, doc, c, byParent) == None)
            && (doc in db.tombs && removed ==>
                  Binding(db, doc, c, byParent) == if byParent then c.owner else Some(db.tombs[doc].notebook))
  {}

  // ---- a transaction that fails ----

  // Its rows are as they were; the object store keeps what was done before.
  lemma RollBackIs(s: State, tx: Tx, n: nat)
    requires n <= |Plan(s.db, tx).1|
    ensures Step(s, RollBack(tx, n)) == s.(objects := Apply(s.objects, Plan(s.db, tx).1[..n]))
    ensures Step(s, RollBack(tx, 0)).objects == s.objects
  {
    assert Plan(s.db, tx).1[..0] == [];
  }

  // Effects are carried out one after the other.
  lemma {:induction false} ApplyOneMore(objects: set<ObjectKey>, effects: seq<Effect>, e: Effect)
    ensures Apply(objects, effects + [e])
            == match e
               case PutObject(key) => Apply(objects, effects) + {key}
               case DeleteObject(key) => Apply(objects, effects) - {key}
    decreases |effects|
  {
    if effects == [] {
      assert (effects + [e])[1..] == [];
    } else {
      assert (effects + [e])[1..] == effects[1..] + [e];
      ApplyOneMore(if effects[0].PutObject? then objects + {effects[0].key} else objects - {effects[0].key}, effects[1..], e);
    }
  }
}
