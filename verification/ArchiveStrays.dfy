// Exactly when complete purges stay without pending tombstones, with no
// assumption about what documents do: unless a stray body is observed, one that
// names another removed notebook than the one its document is remembered for.
module ArchiveStrays {
  import opened Outcomes
  import opened Archive
  import opened ArchivePurge

  predicate HasComplete(db: Db, notebook: DocId) {
    notebook in db.purged && InState(db, db.purged[notebook], Complete)
  }

  // A live body that is suppressed for one notebook while its document's
  // tombstone belongs to another one, whose purge is complete.
  predicate Strays(db: Db, doc: DocId, c: Content, byParent: bool) {
    && !c.deleted && doc in db.tombs
    && Binding(db, doc, c, byParent).Some? && Binding(db, doc, c, byParent).value != db.tombs[doc].notebook
    && HasComplete(db, db.tombs[doc].notebook)
  }

  ghost predicate Steady(db: Db) { OpsOk(db) && CompleteOk(db) }

  // ---- one body ----

  lemma SuppressOps(db: Db, doc: DocId, notebook: DocId, pending: bool)
    requires OpsOk(db)
    ensures var t := Suppress(db, doc, notebook, pending);
            && OpsOk(t) && t.purged == db.purged
            && (forall id :: InState(t, id, Complete) <==>
                  InState(db, id, Complete) && !(pending && db.ops[id].doc == notebook))
            && (forall id <- t.ops :: id in db.ops && t.ops[id].doc == db.ops[id].doc)
  {}

  lemma SuppressIff(db: Db, doc: DocId, c: Content, byParent: bool)
    requires Steady(db) && Binding(db, doc, c, byParent).Some?
    ensures var t := Suppress(db, doc, Binding(db, doc, c, byParent).value, !c.deleted);
            OpsOk(t) && (CompleteOk(t) <==> !Strays(db, doc, c, byParent))
  {
    var notebook := Binding(db, doc, c, byParent).value;
    var t := Suppress(db, doc, notebook, !c.deleted);
    SuppressOps(db, doc, notebook, !c.deleted);
    if Strays(db, doc, c, byParent) {
      var id := db.purged[db.tombs[doc].notebook];
      assert InState(t, id, Complete) && t.tombs[doc].pending;
    } else {
      forall id <- t.ops | InState(t, id, Complete) ensures NothingPending(t, t.ops[id].doc) {
        assert InState(db, id, Complete) && NothingPending(db, db.ops[id].doc);
      }
    }
  }

  lemma RowsOnly(db: Db, t: Db)
    requires Steady(db) && t.purged == db.purged && t.tombs == db.tombs && t.ops == db.ops
    ensures Steady(t)
  {
    SameTables(db, t);
  }

  lemma LeafIff(db: Db, doc: DocId, rev: Rev, c: Content, byParent: bool)
    requires Steady(db)
    ensures var t := ObserveLeaf(db, doc, rev, c, byParent).0;
            OpsOk(t) && (CompleteOk(t) <==> !Strays(db, doc, c, byParent))
  {
    if Binding(db, doc, c, byParent).Some? {
      SuppressIff(db, doc, c, byParent);
    } else {
      RowsOnly(db, ObserveLeaf(db, doc, rev, c, byParent).0);
    }
  }

  predicate WinnerStrays(db: Db, change: FeedChange) {
    change.winner.Some? && Strays(db, change.doc, change.winner.value, change.byParent)
  }

  lemma WinnerIff(db: Db, change: FeedChange)
    requires Steady(db)
    ensures var t := ObserveWinner(db, change.doc, change.winner, change.byParent);
            OpsOk(t) && (CompleteOk(t) <==> !WinnerStrays(db, change))
  {
    if change.winner.Some? && Binding(db, change.doc, change.winner.value, change.byParent).Some? {
      SuppressIff(db, change.doc, change.winner.value, change.byParent);
    } else {
      RowsOnly(db, ObserveWinner(db, change.doc, change.winner, change.byParent));
    }
  }

  // ---- one observation, body after body ----

  function LeavesTo(db: Db, change: FeedChange, i: nat): Db
    requires i <= |change.leaves|
  { ObserveLeaves(db, change.doc, change.leaves[..i], change.byParent).0 }

  // No body of the change strays when its turn comes.
  ghost predicate Clean(db: Db, change: FeedChange) {
    && (forall i :: 0 <= i < |change.leaves| ==>
          !Strays(LeavesTo(db, change, i), change.doc, change.leaves[i].1, change.byParent))
    && !WinnerStrays(LeavesTo(db, change, |change.leaves|), change)
  }

  // Complete purges have nothing pending after any of its bodies.
  ghost predicate Settles(db: Db, change: FeedChange) {
    && (forall i :: 0 <= i <= |change.leaves| ==> CompleteOk(LeavesTo(db, change, i)))
    && CompleteOk(ObserveChange(db, change).0)
  }

  lemma LeavesStep(db: Db, change: FeedChange, i: nat)
    requires i < |change.leaves|
    ensures LeavesTo(db, change, i + 1)
            == ObserveLeaf(LeavesTo(db, change, i), change.doc, change.leaves[i].0, change.leaves[i].1, change.byParent).0
  {
    assert change.leaves[..i + 1][..i] == change.leaves[..i];
  }

  lemma {:induction false} LeavesIff(db: Db, change: FeedChange, n: nat)
    requires Steady(db) && n <= |change.leaves|
    ensures (forall i :: 0 <= i <= n ==> CompleteOk(LeavesTo(db, change, i)))
            <==> (forall i :: 0 <= i < n ==>
                    !Strays(LeavesTo(db, change, i), change.doc, change.leaves[i].1, change.byParent))
    ensures (forall i :: 0 <= i <= n ==> CompleteOk(LeavesTo(db, change, i))) ==> OpsOk(LeavesTo(db, change, n))
    decreases n
  {
    if n == 0 {
      assert LeavesTo(db, change, 0) == db;
    } else {
      LeavesIff(db, change, n - 1);
      LeavesStep(db, change, n - 1);
      var before, leaf := LeavesTo(db, change, n - 1), change.leaves[n - 1];
      if forall i :: 0 <= i <= n - 1 ==> CompleteOk(LeavesTo(db, change, i)) {
        LeafIff(before, change.doc, leaf.0, leaf.1, change.byParent);
      }
    }
  }

  lemma ChangeIff(db: Db, change: FeedChange)
    requires Steady(db)
    ensures Settles(db, change) <==> Clean(db, change)
    ensures Settles(db, change) ==> Steady(ObserveChange(db, change).0)
  {
    var n := |change.leaves|;
    assert change.leaves[..n] == change.leaves;
    LeavesIff(db, change, n);
    if forall i :: 0 <= i <= n ==> CompleteOk(LeavesTo(db, change, i)) {
      WinnerIff(LeavesTo(db, change, n), change);
    }
  }

  ghost predicate FeedClean(db: Db, feed: seq<FeedChange>)
    decreases |feed|
  {
    feed == [] || (FeedClean(db, feed[..|feed| - 1]) && Clean(ObserveFeed(db, feed[..|feed| - 1]).0, feed[|feed| - 1]))
  }

  ghost predicate FeedSettles(db: Db, feed: seq<FeedChange>)
    decreases |feed|
  {
    feed == [] || (FeedSettles(db, feed[..|feed| - 1]) && Settles(ObserveFeed(db, feed[..|feed| - 1]).0, feed[|feed| - 1]))
  }

  lemma {:induction false} FeedIff(db: Db, feed: seq<FeedChange>)
    requires Steady(db)
    ensures FeedSettles(db, feed) <==> FeedClean(db, feed)
    ensures FeedSettles(db, feed) ==> Steady(ObserveFeed(db, feed).0)
    decreases |feed|
  {
    if feed != [] {
      var rest, change := feed[..|feed| - 1], feed[|feed| - 1];
      FeedIff(db, rest);
      if FeedSettles(db, rest) { ChangeIff(ObserveFeed(db, rest).0, change); }
    }
  }

  // ---- the other transactions ----

  lemma AdmitSteady(db: Db, id: OpId)
    requires Steady(db) && InState(db, id, Queued)
    ensures Steady(Admit(db, id))
  {
    AdmitOps(db, id);
    AdmitComplete(db, id);
  }

  // What a stage does to the operations and the tombs.
  ghost predicate Moves(db: Db, t: Db, id: OpId) {
    && id in db.ops && db.ops[id].purge && Purging(db.ops[id].state) && t.purged == db.purged
    && id in t.ops && t.ops == db.ops[id := t.ops[id]] && Purging(t.ops[id].state)
    && t.ops[id] == db.ops[id].(state := t.ops[id].state)
    && (forall d <- t.tombs :: t.tombs[d].notebook == db.ops[id].doc
                               || (d in db.tombs && t.tombs[d].notebook == db.tombs[d].notebook
                                   && (t.tombs[d].pending ==> db.tombs[d].pending)))
    && (InState(t, id, Complete) ==> NothingPending(t, db.ops[id].doc))
  }

  lemma MoveSteady(db: Db, t: Db, id: OpId)
    requires Steady(db) && Moves(db, t, id)
    ensures Steady(t)
  {
    forall k <- t.ops | InState(t, k, Complete) ensures NothingPending(t, t.ops[k].doc) {
      if k != id { assert InState(db, k, Complete) && NothingPending(db, db.ops[k].doc); }
    }
  }

  lemma TombstonedMoves(db: Db, found: Db, id: OpId, batch: set<DocId>)
    requires InState(db, id, PurgingNative) && found == db.(tombs := found.tombs)
    requires forall d <- found.tombs ::
               (d in db.tombs && found.tombs[d] == db.tombs[d]) || found.tombs[d].notebook == db.ops[id].doc
    ensures Moves(db, Tombstoned(found, id, batch), id)
  {}

  lemma TombstoneMoves(db: Db, id: OpId, batch: set<DocId>)
    ensures var t := Plan(db, TombstoneTx(id, batch)).0; t == db || Moves(db, t, id)
  {
    if InState(db, id, PurgingNative) { TombstonedMoves(db, Discover(db, db.ops[id].doc), id, batch); }
  }

  lemma RowsMove(db: Db, id: OpId)
    ensures var t := Plan(db, ServerRowsTx(id)).0; t == db || Moves(db, t, id)
  {}

  lemma CollectMoves(db: Db, id: OpId, keys: seq<ObjectKey>)
    ensures var t := Plan(db, CollectTx(id, keys)).0; t == db || Moves(db, t, id)
  {
    if InState(db, id, PurgingObjects) { CollectedPending(db, id, keys); }
  }

  lemma StageSteady(db: Db, id: OpId, tx: Tx)
    requires Steady(db) && (tx == ServerRowsTx(id) || (tx.TombstoneTx? && tx.id == id) || (tx.CollectTx? && tx.id == id))
    ensures Steady(Plan(db, tx).0)
  {
    var t := Plan(db, tx).0;
    if t != db {
      assert Moves(db, t, id) by {
        match tx
        case TombstoneTx(_, batch) => TombstoneMoves(db, id, batch);
        case ServerRowsTx(_) => RowsMove(db, id);
        case CollectTx(_, keys) => CollectMoves(db, id, keys);
      }
      MoveSteady(db, t, id);
    }
  }

  lemma CollectedPending(db: Db, id: OpId, keys: seq<ObjectKey>)
    requires InState(db, id, PurgingObjects)
    ensures InState(Collected(db, id, keys), id, Complete) ==> NothingPending(Collected(db, id, keys), db.ops[id].doc)
  {
    forall d <- db.tombs | Pending(db, db.ops[id].doc) == {} && db.tombs[d].notebook == db.ops[id].doc
      ensures !db.tombs[d].pending
    {
      assert d !in Pending(db, db.ops[id].doc);
    }
  }

  lemma EnqueueSteady(db: Db, id: OpId, op: Op)
    requires Steady(db)
    ensures Steady(Plan(db, EnqueueTx(id, op)).0)
  {
    var t := Plan(db, EnqueueTx(id, op)).0;
    if t != db {
      forall k <- t.ops | InState(t, k, Complete) ensures NothingPending(t, t.ops[k].doc) {
        assert InState(db, k, Complete) && NothingPending(db, db.ops[k].doc);
      }
    }
  }

  lemma BlockSteady(db: Db, id: OpId)
    requires Steady(db) && id in db.ops
    ensures Steady(SetState(db, id, Blocked))
  {
    var t := SetState(db, id, Blocked);
    forall k <- t.ops | InState(t, k, Complete) ensures NothingPending(t, t.ops[k].doc) {
      assert InState(db, k, Complete) && NothingPending(db, db.ops[k].doc);
    }
  }

  lemma OthersSteady(db: Db, tx: Tx)
    requires Steady(db) && !tx.ObserveTx?
    ensures Steady(Plan(db, tx).0)
  {
    match tx
    case UploadTx(_, _, _) => RowsOnly(db, Plan(db, tx).0);
    case RemoveBlobTx(_, _) => RowsOnly(db, Plan(db, tx).0);
    case EnqueueTx(id, op) => EnqueueSteady(db, id, op);
    case RefuseTx(id) => if id in db.ops { BlockSteady(db, id); }
    case AdmitTx(id, accepted) =>
      if InState(db, id, Queued) {
        if accepted { AdmitSteady(db, id); } else { BlockSteady(db, id); }
      }
    case TombstoneTx(id, _) => StageSteady(db, id, tx);
    case ServerRowsTx(id) => StageSteady(db, id, tx);
    case CollectTx(id, _) => StageSteady(db, id, tx);
  }

  // ---- every run ----

  // No committed observation of the run has a stray body.
  ghost predicate NoStray(es: seq<Event>)
    decreases |es|
  {
    es == [] || (NoStray(es[..|es| - 1])
                 && var e := es[|es| - 1];
                    e.Commit? && e.tx.ObserveTx? ==> FeedClean(Run(es[..|es| - 1]).db, e.tx.feed))
  }

  // Complete purges never have anything pending, not even within an observation.
  ghost predicate AlwaysSettled(es: seq<Event>)
    decreases |es|
  {
    && CompleteOk(Run(es).db)
    && (es != [] ==> AlwaysSettled(es[..|es| - 1])
                     && var e := es[|es| - 1];
                        e.Commit? && e.tx.ObserveTx? ==> FeedSettles(Run(es[..|es| - 1]).db, e.tx.feed))
  }

  lemma LastStep(s: State, e: Event)
    requires Steady(s.db)
    ensures !(e.Commit? && e.tx.ObserveTx?) ==> Steady(Step(s, e).db)
    ensures e.Commit? && e.tx.ObserveTx? ==>
              (FeedSettles(s.db, e.tx.feed) <==> FeedClean(s.db, e.tx.feed))
              && (FeedSettles(s.db, e.tx.feed) ==> Steady(Step(s, e).db))
  {
    if e.Commit? {
      if e.tx.ObserveTx? { FeedIff(s.db, e.tx.feed); } else { OthersSteady(s.db, e.tx); }
    }
  }

  // Over every run: a purge that reads complete never has a tombstone left to
  // write, exactly if no stray body was ever observed.
  lemma {:induction false} CompletePurgesSettleIff(es: seq<Event>)
    ensures AlwaysSettled(es) <==> NoStray(es)
    ensures AlwaysSettled(es) ==> Steady(Run(es).db)
    decreases |es|
  {
    if es != [] {
      CompletePurgesSettleIff(es[..|es| - 1]);
      if NoStray(es[..|es| - 1]) { LastStep(Run(es[..|es| - 1]), es[|es| - 1]); }
    }
  }
}
