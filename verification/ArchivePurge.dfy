// Permanent removal stays permanent, whatever is observed later. A document
// keeps its owning notebook: `own` gives it, and every body either names it or
// names none.
module ArchivePurge {
  import opened Outcomes
  import opened Archive

  type Ownership = DocId -> Option<DocId>

  ghost predicate Fits(own: Ownership, d: DocId, c: Content) { c.owner.None? || c.owner == own(d) }

  ghost predicate LeavesFit(own: Ownership, doc: DocId, leaves: seq<(Rev, Content)>) {
    forall leaf <- leaves :: Fits(own, doc, leaf.1)
  }

  ghost predicate ChangeFits(own: Ownership, change: FeedChange) {
    && LeavesFit(own, change.doc, change.leaves)
    && (change.winner.Some? ==> Fits(own, change.doc, change.winner.value))
  }

  ghost predicate TxFits(own: Ownership, db: Db, tx: Tx) {
    match tx
    case ObserveTx(feed) => forall change <- feed :: ChangeFits(own, change)
    case AdmitTx(id, accepted) => accepted && id in db.ops ==> own(db.ops[id].doc) == Some(db.ops[id].doc)
    case _ => true
  }

  // A row naming a purged notebook belongs to a remembered document.
  ghost predicate RowOk(db: Db, own: Ownership, d: DocId, c: Content) {
    && Fits(own, d, c)
    && (c.owner.Some? && c.owner.value in db.purged ==> d in db.tombs)
  }

  ghost predicate RowsOk(db: Db, own: Ownership) {
    && (forall d <- db.projections :: RowOk(db, own, d, db.projections[d]))
    && (forall k <- db.revisions :: RowOk(db, own, k.0, db.revisions[k]))
  }

  ghost predicate TombsOk(db: Db, own: Ownership) {
    forall d <- db.tombs :: own(d) == Some(db.tombs[d].notebook) && db.tombs[d].notebook in db.purged
  }

  predicate Purging(st: PurgeState) { !(st.Queued? || st.Blocked? || st.Cancelled?) }

  ghost predicate OpsOk(db: Db) {
    && (forall n <- db.purged ::
          var id := db.purged[n]; id in db.ops && db.ops[id].purge && db.ops[id].doc == n && !db.ops[id].state.Queued?)
    && (forall id <- db.ops :: db.ops[id].purge && Purging(db.ops[id].state) ==>
          db.ops[id].doc in db.purged && db.purged[db.ops[id].doc] == id)
    && (forall id <- db.ops :: db.ops[id].purge && db.ops[id].doc in db.purged && db.purged[db.ops[id].doc] != id ==>
          db.ops[id].state.Blocked? || db.ops[id].state.Cancelled?)
  }

  ghost predicate NothingPending(db: Db, notebook: DocId) {
    forall d <- db.tombs :: db.tombs[d].notebook == notebook ==> !db.tombs[d].pending
  }

  ghost predicate CompleteOk(db: Db) {
    forall id <- db.ops :: InState(db, id, Complete) ==> NothingPending(db, db.ops[id].doc)
  }

  ghost predicate NoRowNames(db: Db, notebook: DocId) {
    && (forall d <- db.projections :: !Owns(db.projections[d], notebook))
    && (forall k <- db.revisions :: !Owns(db.revisions[k], notebook))
  }

  ghost predicate ClearedOk(db: Db, cleared: set<DocId>) {
    forall n <- cleared :: n in db.purged && NoRowNames(db, n)
  }

  ghost predicate Inv(db: Db, cleared: set<DocId>, own: Ownership) {
    RowsOk(db, own) && TombsOk(db, own) && OpsOk(db) && CompleteOk(db) && ClearedOk(db, cleared)
  }

  lemma SuppressKeeps(db: Db, cleared: set<DocId>, own: Ownership, doc: DocId, c: Content, byParent: bool)
    requires Inv(db, cleared, own) && Fits(own, doc, c) && Binding(db, doc, c, byParent).Some?
    ensures Inv(Suppress(db, doc, Binding(db, doc, c, byParent).value, !c.deleted), cleared, own)
  {
    var notebook := Binding(db, doc, c, byParent).value;
    var t := Suppress(db, doc, notebook, !c.deleted);
    assert own(doc) == Some(notebook) && notebook in db.purged;
    assert CompleteOk(t) by {
      forall id <- t.ops | InState(t, id, Complete) ensures NothingPending(t, t.ops[id].doc) {
        assert InState(db, id, Complete) && NothingPending(db, db.ops[id].doc);
      }
    }
  }

  // A row is kept only when nothing binds its document to a purged notebook.
  lemma ArchiveRowKeeps(db: Db, cleared: set<DocId>, own: Ownership, doc: DocId, rev: Rev, c: Content)
    requires Inv(db, cleared, own) && Fits(own, doc, c)
    requires c.owner.Some? ==> c.owner.value !in db.purged
    ensures Inv(db.(revisions := db.revisions[(doc, rev) := c]), cleared, own)
  {
    var t := db.(revisions := db.revisions[(doc, rev) := c]);
    assert RowsOk(t, own);
    assert ClearedOk(t, cleared) by {
      forall n <- cleared ensures NoRowNames(t, n) { assert NoRowNames(db, n); }
    }
    SameTables(db, t);
  }

  // Conditions on operations and tombs do not depend on the row tables.
  lemma SameTables(db: Db, t: Db)
    requires t.purged == db.purged && t.tombs == db.tombs && t.ops == db.ops && OpsOk(db) && CompleteOk(db)
    ensures OpsOk(t) && CompleteOk(t)
  {
    forall id <- t.ops | InState(t, id, Complete) ensures NothingPending(t, t.ops[id].doc) {
      assert InState(db, id, Complete) && NothingPending(db, db.ops[id].doc);
    }
  }

  // A step that only moves operations between states.
  lemma OpsMove(db: Db, t: Db, cleared: set<DocId>, own: Ownership)
    requires Inv(db, cleared, own) && t == db.(ops := t.ops, garbage := t.garbage)
    requires OpsOk(t) && CompleteOk(t)
    ensures Inv(t, cleared, own)
  {
    assert forall n <- cleared :: NoRowNames(t, n) by {
      forall n <- cleared ensures NoRowNames(t, n) { assert NoRowNames(db, n); }
    }
  }

  lemma LeafKeeps(db: Db, cleared: set<DocId>, own: Ownership, doc: DocId, rev: Rev, c: Content, byParent: bool)
    requires Inv(db, cleared, own) && Fits(own, doc, c)
    ensures Inv(ObserveLeaf(db, doc, rev, c, byParent).0, cleared, own)
  {
    if Binding(db, doc, c, byParent).Some? {
      SuppressKeeps(db, cleared, own, doc, c, byParent);
    } else {
      ArchiveRowKeeps(db, cleared, own, doc, rev, c);
    }
  }

  lemma {:induction false} LeavesKeep(
      db: Db, cleared: set<DocId>, own: Ownership, doc: DocId, leaves: seq<(Rev, Content)>, byParent: bool)
    requires Inv(db, cleared, own) && LeavesFit(own, doc, leaves)
    ensures Inv(ObserveLeaves(db, doc, leaves, byParent).0, cleared, own)
    decreases |leaves|
  {
    if leaves != [] {
      var rest, leaf := leaves[..|leaves| - 1], leaves[|leaves| - 1];
      LeavesKeep(db, cleared, own, doc, rest, byParent);
      LeafKeeps(ObserveLeaves(db, doc, rest, byParent).0, cleared, own, doc, leaf.0, leaf.1, byParent);
    }
  }

  lemma WinnerKeeps(db: Db, cleared: set<DocId>, own: Ownership, doc: DocId, winner: Option<Content>, byParent: bool)
    requires Inv(db, cleared, own) && (winner.Some? ==> Fits(own, doc, winner.value))
    ensures Inv(ObserveWinner(db, doc, winner, byParent), cleared, own)
  {
    if winner.Some? && Binding(db, doc, winner.value, byParent).Some? {
      SuppressKeeps(db, cleared, own, doc, winner.value, byParent);
    }
  }

  lemma {:induction false} FeedKeeps(db: Db, cleared: set<DocId>, own: Ownership, feed: seq<FeedChange>)
    requires Inv(db, cleared, own) && (forall change <- feed :: ChangeFits(own, change))
    ensures Inv(ObserveFeed(db, feed).0, cleared, own)
    decreases |feed|
  {
    if feed != [] {
      var rest, change := feed[..|feed| - 1], feed[|feed| - 1];
      assert change in feed;
      FeedKeeps(db, cleared, own, rest);
      var before := ObserveFeed(db, rest).0;
      LeavesKeep(before, cleared, own, change.doc, change.leaves, change.byParent);
      WinnerKeeps(ObserveLeaves(before, change.doc, change.leaves, change.byParent).0,
                  cleared, own, change.doc, change.winner, change.byParent);
    }
  }

  lemma DiscoverKeeps(db: Db, cleared: set<DocId>, own: Ownership, notebook: DocId)
    requires RowsOk(db, own) && TombsOk(db, own) && ClearedOk(db, cleared) && notebook in db.purged
    ensures var t := Discover(db, notebook); RowsOk(t, own) && TombsOk(t, own) && ClearedOk(t, cleared)
  {
    var t := Discover(db, notebook);
    forall n <- cleared ensures NoRowNames(t, n) { assert NoRowNames(db, n); }
  }

  lemma AdmitRows(db: Db, cleared: set<DocId>, own: Ownership, id: OpId)
    requires Inv(db, cleared, own) && InState(db, id, Queued) && db.ops[id].doc !in db.purged
    ensures RowsOk(Admit(db, id), own)
  {
    var doc, t := db.ops[id].doc, Admit(db, id);
    forall d <- t.projections ensures RowOk(t, own, d, t.projections[d]) {
      assert RowOk(db, own, d, db.projections[d]);
      assert Owns(db.projections[d], doc) ==> d in Discovered(t, doc);
    }
    forall k <- t.revisions ensures RowOk(t, own, k.0, t.revisions[k]) {
      assert RowOk(db, own, k.0, db.revisions[k]);
      assert Owns(db.revisions[k], doc) ==> k.0 in Discovered(t, doc);
    }
  }

  lemma AdmitTombs(db: Db, cleared: set<DocId>, own: Ownership, id: OpId)
    requires Inv(db, cleared, own) && InState(db, id, Queued) && db.ops[id].doc !in db.purged
    requires own(db.ops[id].doc) == Some(db.ops[id].doc)
    ensures TombsOk(Admit(db, id), own) && ClearedOk(Admit(db, id), cleared)
  {
    var doc, t := db.ops[id].doc, Admit(db, id);
    forall d <- t.tombs ensures own(d) == Some(t.tombs[d].notebook) && t.tombs[d].notebook in t.purged {
      if d !in db.tombs && d != doc { assert d in Discovered(db, doc); }
    }
    forall n <- cleared ensures n in t.purged && NoRowNames(t, n) { assert NoRowNames(db, n); }
  }

  lemma AdmitShape(db: Db, id: OpId)
    requires id in db.ops && db.ops[id].doc !in db.purged
    ensures var doc, t := db.ops[id].doc, Admit(db, id);
            && t.purged == db.purged[doc := id]
            && t.ops == (map k | k in db.ops :: AdmittedOp(db, id, k))
            && (forall d <- t.tombs :: (d in db.tombs && t.tombs[d] == db.tombs[d]) || t.tombs[d].notebook == doc)
  {}

  lemma AdmitOps(db: Db, id: OpId)
    requires OpsOk(db) && InState(db, id, Queued) && db.ops[id].doc !in db.purged
    ensures OpsOk(Admit(db, id))
  {
    AdmitShape(db, id);
  }

  lemma AdmitComplete(db: Db, id: OpId)
    requires OpsOk(db) && CompleteOk(db) && InState(db, id, Queued) && db.ops[id].doc !in db.purged
    ensures CompleteOk(Admit(db, id))
  {
    var t := Admit(db, id);
    forall k <- t.ops | InState(t, k, Complete) ensures NothingPending(t, t.ops[k].doc) {
      AdmitShape(db, id);
      assert InState(db, k, Complete) && NothingPending(db, db.ops[k].doc);
    }
  }

  // Admission finds every document whose rows name the notebook.
  lemma AdmitKeeps(db: Db, cleared: set<DocId>, own: Ownership, id: OpId)
    requires Inv(db, cleared, own) && InState(db, id, Queued)
    requires own(db.ops[id].doc) == Some(db.ops[id].doc)
    ensures Inv(Admit(db, id), cleared, own)
  {
    AdmitRows(db, cleared, own, id);
    AdmitTombs(db, cleared, own, id);
    AdmitOps(db, id);
    AdmitComplete(db, id);
  }

  // A stage of an admitted purge leads to another stage, or to its end.
  lemma StageOps(db: Db, id: OpId, st: PurgeState)
    requires OpsOk(db) && id in db.ops && db.ops[id].purge && Purging(db.ops[id].state) && Purging(st)
    ensures OpsOk(SetState(db, id, st))
  {}

  lemma DiscoveredTombs(db: Db, cleared: set<DocId>, own: Ownership, id: OpId, found: Db)
    requires Inv(db, cleared, own) && InState(db, id, PurgingNative) && found == Discover(db, db.ops[id].doc)
    ensures Inv(found, cleared, own)
  {
    DiscoverKeeps(db, cleared, own, db.ops[id].doc);
    assert OpsOk(found);
    forall k <- found.ops | InState(found, k, Complete) ensures NothingPending(found, found.ops[k].doc) {
      assert InState(db, k, Complete) && NothingPending(db, db.ops[k].doc);
    }
  }

  lemma MarkedKeeps(db: Db, cleared: set<DocId>, own: Ownership, targets: set<DocId>, t: Db)
    requires Inv(db, cleared, own)
    requires t == db.(tombs := map d | d in db.tombs ::
                        if d in targets then db.tombs[d].(pending := false) else db.tombs[d])
    ensures Inv(t, cleared, own)
  {
    assert RowsOk(t, own) && TombsOk(t, own) && OpsOk(t);
    forall k <- t.ops | InState(t, k, Complete) ensures NothingPending(t, t.ops[k].doc) {
      assert InState(db, k, Complete) && NothingPending(db, db.ops[k].doc);
    }
    forall n <- cleared ensures NoRowNames(t, n) { assert NoRowNames(db, n); }
  }

  lemma MoveKeeps(db: Db, t: Db, cleared: set<DocId>, own: Ownership, id: OpId, st: PurgeState)
    requires Inv(db, cleared, own) && id in db.ops && db.ops[id].purge && Purging(db.ops[id].state)
    requires Purging(st) && (st.Complete? ==> NothingPending(db, db.ops[id].doc))
    requires t == SetState(db, id, st).(garbage := t.garbage)
    ensures Inv(t, cleared, own)
  {
    StageOps(db, id, st);
    forall k <- t.ops | InState(t, k, Complete) ensures NothingPending(t, t.ops[k].doc) {
      if k != id { assert InState(db, k, Complete) && NothingPending(db, db.ops[k].doc); }
    }
    OpsMove(db, t, cleared, own);
  }

  lemma TombstoneKeeps(db: Db, cleared: set<DocId>, own: Ownership, id: OpId, targets: set<DocId>)
    requires Inv(db, cleared, own) && InState(db, id, PurgingNative)
    ensures Inv(Tombstoned(Discover(db, db.ops[id].doc), id, targets), cleared, own)
  {
    var found := Discover(db, db.ops[id].doc);
    DiscoveredTombs(db, cleared, own, id, found);
    var marked := found.(tombs := map d | d in found.tombs ::
                           if d in targets then found.tombs[d].(pending := false) else found.tombs[d]);
    MarkedKeeps(found, cleared, own, targets, marked);
    MoveKeeps(marked, SetState(marked, id, PurgingServer), cleared, own, id, PurgingServer);
  }

  // After the server-row stage no row names the notebook any more.
  lemma ServerRowsKeep(db: Db, cleared: set<DocId>, own: Ownership, id: OpId)
    requires Inv(db, cleared, own) && InState(db, id, PurgingServer)
    ensures Inv(ServerRows(db, id), cleared + {db.ops[id].doc}, own)
  {
    var doc, t := db.ops[id].doc, ServerRows(db, id);
    forall d <- t.projections ensures !Owns(t.projections[d], doc) {
      assert RowOk(db, own, d, db.projections[d]);
    }
    forall k <- t.revisions ensures !Owns(t.revisions[k], doc) {
      assert RowOk(db, own, k.0, db.revisions[k]);
    }
    assert NoRowNames(t, doc);
    forall k <- t.ops | InState(t, k, Complete) ensures NothingPending(t, t.ops[k].doc) {
      assert InState(db, k, Complete) && NothingPending(db, db.ops[k].doc);
    }
  }

  lemma CollectKeeps(db: Db, cleared: set<DocId>, own: Ownership, id: OpId, keys: seq<ObjectKey>)
    requires Inv(db, cleared, own) && InState(db, id, PurgingObjects)
    ensures Inv(Collected(db, id, keys), cleared, own)
  {
    var t, doc := Collected(db, id, keys), db.ops[id].doc;
    var st := if Pending(db, doc) != {} then PurgingNative else Complete;
    forall d <- db.tombs | st.Complete? && db.tombs[d].notebook == doc ensures !db.tombs[d].pending {
      assert d !in Pending(db, doc);
    }
    if t.ops == db.ops {
      OpsMove(db, t, cleared, own);
    } else {
      MoveKeeps(db, t, cleared, own, id, st);
    }
  }

  // A step that leaves complete operations and tombs alone.
  lemma QueueComplete(db: Db, t: Db)
    requires CompleteOk(db) && t.tombs == db.tombs
    requires forall k <- t.ops :: InState(t, k, Complete) ==> k in db.ops && t.ops[k] == db.ops[k]
    ensures CompleteOk(t)
  {
    forall k <- t.ops | InState(t, k, Complete) ensures NothingPending(t, t.ops[k].doc) {
      assert InState(db, k, Complete) && NothingPending(db, db.ops[k].doc);
    }
  }

  lemma EnqueueKeeps(db: Db, cleared: set<DocId>, own: Ownership, id: OpId, op: Op)
    requires Inv(db, cleared, own) && id !in db.ops && op.state == Queued && (op.purge ==> op.doc !in db.purged)
    ensures Inv(db.(ops := db.ops[id := op]), cleared, own)
  {
    var t := db.(ops := db.ops[id := op]);
    QueueComplete(db, t);
    OpsMove(db, t, cleared, own);
  }

  lemma BlockKeeps(db: Db, cleared: set<DocId>, own: Ownership, id: OpId)
    requires Inv(db, cleared, own) && id in db.ops
    ensures Inv(SetState(db, id, Blocked), cleared, own)
  {
    var t := SetState(db, id, Blocked);
    QueueComplete(db, t);
    OpsMove(db, t, cleared, own);
  }

  lemma QueueKeeps(db: Db, cleared: set<DocId>, own: Ownership, tx: Tx)
    requires Inv(db, cleared, own) && (tx.EnqueueTx? || tx.RefuseTx? || (tx.AdmitTx? && !tx.accepted))
    ensures Inv(Plan(db, tx).0, cleared, own)
  {
    match tx
    case EnqueueTx(id, op) => if Plan(db, tx).0 != db { EnqueueKeeps(db, cleared, own, id, op); }
    case RefuseTx(id) => if Plan(db, tx).0 != db { BlockKeeps(db, cleared, own, id); }
    case AdmitTx(id, _) => if Plan(db, tx).0 != db { BlockKeeps(db, cleared, own, id); }
  }

  lemma BlobKeeps(db: Db, t: Db, cleared: set<DocId>, own: Ownership)
    requires Inv(db, cleared, own) && t == db.(versions := t.versions, bindings := t.bindings)
    ensures Inv(t, cleared, own)
  {
    SameTables(db, t);
    forall n <- cleared ensures NoRowNames(t, n) { assert NoRowNames(db, n); }
  }

  lemma StageKeeps(db: Db, cleared: set<DocId>, own: Ownership, tx: Tx)
    requires Inv(db, cleared, own) && TxFits(own, db, tx)
    requires tx.AdmitTx? || tx.TombstoneTx? || tx.CollectTx?
    ensures Inv(Plan(db, tx).0, cleared, own)
  {
    match tx
    case AdmitTx(id, accepted) =>
      if !accepted {
        QueueKeeps(db, cleared, own, tx);
      } else if InState(db, id, Queued) {
        AdmitKeeps(db, cleared, own, id);
      }
    case TombstoneTx(id, targets) =>
      if InState(db, id, PurgingNative) { TombstoneKeeps(db, cleared, own, id, targets); }
    case CollectTx(id, keys) =>
      if InState(db, id, PurgingObjects) { CollectKeeps(db, cleared, own, id, keys); }
  }

  lemma PlanKeeps(db: Db, cleared: set<DocId>, own: Ownership, tx: Tx)
    requires Inv(db, cleared, own) && TxFits(own, db, tx)
    ensures Inv(Plan(db, tx).0, cleared + ClearedBy(db, tx), own)
  {
    if tx.ServerRowsTx? {
      if InState(db, tx.id, PurgingServer) { ServerRowsKeep(db, cleared, own, tx.id); }
    }
    assert !tx.ServerRowsTx? ==> cleared + ClearedBy(db, tx) == cleared;
    assert tx.ServerRowsTx? && !InState(db, tx.id, PurgingServer) ==> cleared + ClearedBy(db, tx) == cleared;
    match tx
    case ObserveTx(feed) => FeedKeeps(db, cleared, own, feed);
    case UploadTx(_, _, _) => BlobKeeps(db, Plan(db, tx).0, cleared, own);
    case RemoveBlobTx(_, _) => BlobKeeps(db, Plan(db, tx).0, cleared, own);
    case EnqueueTx(_, _) => QueueKeeps(db, cleared, own, tx);
    case RefuseTx(_) => QueueKeeps(db, cleared, own, tx);
    case ServerRowsTx(_) =>
    case _ => StageKeeps(db, cleared, own, tx);
  }

  // Every observation and admission of the run respects ownership.
  ghost predicate RunFits(own: Ownership, es: seq<Event>)
    decreases |es|
  {
    es == [] || (RunFits(own, es[..|es| - 1]) && TxFits(own, Run(es[..|es| - 1]).db, es[|es| - 1].tx))
  }

  lemma {:induction false} RunKeeps(own: Ownership, es: seq<Event>)
    requires RunFits(own, es)
    ensures Inv(Run(es).db, Run(es).cleared, own)
    decreases |es|
  {
    if es != [] {
      var before, e := es[..|es| - 1], es[|es| - 1];
      RunKeeps(own, before);
      PlanKeeps(Run(before).db, Run(before).cleared, own, e.tx);
    }
  }

  // Once the server-row stage committed at some step, no later state has a
  // projection or revision row whose body names the notebook.
  lemma {:induction false} PurgeIsPermanent(own: Ownership, es: seq<Event>, n: nat, id: OpId)
    requires RunFits(own, es) && n < |es|
    requires es[n] == Commit(ServerRowsTx(id)) && InState(Run(es[..n]).db, id, PurgingServer)
    ensures NoRowNames(Run(es).db, Run(es[..n]).db.ops[id].doc)
  {
    RunKeeps(own, es);
    assert es[..n + 1][..n] == es[..n];
    ClearedStays(es, n + 1, Run(es[..n]).db.ops[id].doc);
  }

  lemma {:induction false} ClearedStays(es: seq<Event>, n: nat, notebook: DocId)
    requires n <= |es| && notebook in Run(es[..n]).cleared
    ensures notebook in Run(es).cleared
    decreases |es|
  {
    if n == |es| {
      assert es[..n] == es;
    } else {
      assert es[..|es| - 1][..n] == es[..n];
      ClearedStays(es[..|es| - 1], n, notebook);
    }
  }

  // A purge reported complete has no tombstone left to write.
  lemma CompleteHasNothingPending(own: Ownership, es: seq<Event>, id: OpId)
    requires RunFits(own, es) && InState(Run(es).db, id, Complete)
    ensures NothingPending(Run(es).db, Run(es).db.ops[id].doc)
  {
    RunKeeps(own, es);
  }
}
