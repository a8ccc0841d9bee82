// A purge that nothing disturbs runs to its end, whatever batches its stages
// take; and a purge that reads complete has offered every object recorded for
// it to collection.
module ArchiveProgress {
  import opened Outcomes
  import opened Archive
  import opened ArchivePurge
  import opened ArchiveCollection

  // ---- the stages ----

  predicate Staged(db: Db, id: OpId) {
    InState(db, id, PurgingNative) || InState(db, id, PurgingServer) || InState(db, id, PurgingObjects)
  }

  function GarbageFor(db: Db, id: OpId): set<(OpId, ObjectKey)> { set g | g in db.garbage && g.0 == id }

  // The transaction of the stage a purge is in. A batch of objects is empty only
  // when none are left.
  predicate StageTx(db: Db, id: OpId, tx: Tx)
    requires Staged(db, id)
  {
    match db.ops[id].state
    case PurgingNative =>
      tx.TombstoneTx? && tx.id == id && TombstoneBatch(Discover(db, db.ops[id].doc), db.ops[id].doc, tx.targets)
    case PurgingServer => tx == ServerRowsTx(id)
    case _ =>
      && tx.CollectTx? && tx.id == id && CollectBatch(db, id, tx.keys)
      && (tx.keys == [] ==> GarbageFor(db, id) == {})
  }

  // How far a purge is from its end. A body observed while it was past the
  // tombstones sends it round once more.
  ghost function Phase(db: Db, id: OpId): nat
    requires Staged(db, id)
  {
    var open := Pending(db, db.ops[id].doc) != {};
    match db.ops[id].state
    case PurgingNative => 2
    case PurgingServer => if open then 4 else 1
    case _ => if open then 3 else 0
  }

  ghost function Count(db: Db, id: OpId): nat
    requires Staged(db, id)
  {
    match db.ops[id].state
    case PurgingNative => |Pending(Discover(db, db.ops[id].doc), db.ops[id].doc)|
    case PurgingServer => 0
    case _ => |GarbageFor(db, id)|
  }

  // The purge reads complete with nothing left to do.
  ghost predicate Over(db: Db, id: OpId) {
    InState(db, id, Complete) && Pending(db, db.ops[id].doc) == {} && GarbageFor(db, id) == {}
  }

  ghost predicate Nearer(db: Db, t: Db, id: OpId)
    requires Staged(db, id)
  {
    || Over(t, id)
    || (Staged(t, id) && (Phase(t, id) < Phase(db, id) || (Phase(t, id) == Phase(db, id) && Count(t, id) < Count(db, id))))
  }

  lemma Fewer<T>(a: set<T>, b: set<T>)
    requires a < b
    ensures |a| < |b|
  {
    assert b == a + (b - a);
  }

  // Documents that are remembered already are not found again.
  lemma FoundOnce(db: Db, notebook: DocId, found: Db, marked: Db)
    requires found == Discover(db, notebook)
    requires marked.projections == db.projections && marked.revisions == db.revisions
    requires marked.tombs.Keys == found.tombs.Keys
    ensures Discover(marked, notebook).tombs == marked.tombs
  {
    assert Discovered(marked, notebook) == Discovered(db, notebook);
  }

  function Settled(db: Db, batch: set<DocId>): Db {
    db.(tombs := map d | d in db.tombs :: if d in batch then db.tombs[d].(pending := false) else db.tombs[d])
  }

  lemma MarkedPending(db: Db, notebook: DocId, batch: set<DocId>)
    requires TombstoneBatch(db, notebook, batch)
    ensures Pending(Settled(db, batch), notebook) == Pending(db, notebook) - batch
    ensures Pending(Settled(db, batch), notebook) != {} ==>
              |Pending(Settled(db, batch), notebook)| < |Pending(db, notebook)|
  {
    assert Pending(Settled(db, batch), notebook) == Pending(db, notebook) - batch;
    if Pending(db, notebook) - batch != {} {
      assert batch != {};
      Fewer(Pending(db, notebook) - batch, Pending(db, notebook));
    }
  }

  lemma TombstonesNear(db: Db, id: OpId, batch: set<DocId>)
    requires InState(db, id, PurgingNative) && StageTx(db, id, TombstoneTx(id, batch))
    ensures Nearer(db, Plan(db, TombstoneTx(id, batch)).0, id)
  {
    var doc := db.ops[id].doc;
    var found := Discover(db, doc);
    var marked := Settled(found, batch);
    MarkedPending(found, doc, batch);
    FoundOnce(db, doc, found, marked);
    TombstonesMove(db, id, found, marked, Tombstoned(found, id, batch));
  }

  lemma TombstonesMove(db: Db, id: OpId, found: Db, marked: Db, t: Db)
    requires InState(db, id, PurgingNative) && InState(marked, id, PurgingNative) && marked.ops[id].doc == db.ops[id].doc
    requires var doc := db.ops[id].doc;
             && found == Discover(db, doc) && Discover(marked, doc).tombs == marked.tombs
             && t == (if Pending(marked, doc) == {} then SetState(marked, id, PurgingServer) else marked)
             && (Pending(marked, doc) != {} ==> |Pending(marked, doc)| < |Pending(found, doc)|)
    ensures Nearer(db, t, id)
  {
    var doc := db.ops[id].doc;
    assert Pending(t, doc) == Pending(marked, doc);
    assert Pending(Discover(marked, doc), doc) == Pending(marked, doc);
  }

  lemma RowsNear(db: Db, id: OpId)
    requires InState(db, id, PurgingServer)
    ensures Nearer(db, Plan(db, ServerRowsTx(id)).0, id)
  {
    assert Pending(ServerRows(db, id), db.ops[id].doc) == Pending(db, db.ops[id].doc);
  }

  lemma CollectionNears(db: Db, id: OpId, keys: seq<ObjectKey>)
    requires InState(db, id, PurgingObjects) && StageTx(db, id, CollectTx(id, keys))
    ensures Nearer(db, Plan(db, CollectTx(id, keys)).0, id)
  {
    var rest := db.(garbage := db.garbage - (set key | key in keys :: (id, key)));
    assert Pending(rest, db.ops[id].doc) == Pending(db, db.ops[id].doc);
    if g :| g in rest.garbage && g.0 == id {
      assert g in GarbageFor(db, id);
      assert (id, keys[0]) in GarbageFor(db, id) && (id, keys[0]) !in GarbageFor(rest, id);
      Fewer(GarbageFor(rest, id), GarbageFor(db, id));
    } else {
      assert GarbageFor(rest, id) == {};
      var t := Collected(db, id, keys);
      assert Pending(t, db.ops[id].doc) == Pending(db, db.ops[id].doc) && GarbageFor(t, id) == {};
    }
  }

  // Every stage brings the purge nearer to its end.
  lemma StageNears(db: Db, id: OpId, tx: Tx)
    requires Staged(db, id) && StageTx(db, id, tx)
    ensures Nearer(db, Plan(db, tx).0, id)
  {
    match tx
    case TombstoneTx(_, batch) => TombstonesNear(db, id, batch);
    case ServerRowsTx(_) => RowsNear(db, id);
    case CollectTx(_, keys) => CollectionNears(db, id, keys);
  }

  // ---- to the end ----

  function Commits(txs: seq<Tx>): seq<Event> {
    if txs == [] then [] else [Commit(txs[0])] + Commits(txs[1..])
  }

  function AfterStages(db: Db, txs: seq<Tx>): Db
    decreases |txs|
  {
    if txs == [] then db else AfterStages(Plan(db, txs[0]).0, txs[1..])
  }

  lemma CommitRuns(es: seq<Event>, tx: Tx)
    ensures Run(es + [Commit(tx)]).db == Plan(Run(es).db, tx).0
  {
    assert (es + [Commit(tx)])[..|es|] == es;
  }

  lemma FirstCommit(es: seq<Event>, txs: seq<Tx>)
    requires txs != []
    ensures es + Commits(txs) == es + [Commit(txs[0])] + Commits(txs[1..])
  {
    assert Commits(txs) == [Commit(txs[0])] + Commits(txs[1..]);
  }

  lemma {:induction false} RunAfter(es: seq<Event>, db: Db, txs: seq<Tx>)
    requires Run(es).db == db
    ensures Run(es + Commits(txs)).db == AfterStages(db, txs)
    decreases |txs|
  {
    if txs == [] {
      assert es + Commits(txs) == es;
    } else {
      FirstCommit(es, txs);
      CommitRuns(es, txs[0]);
      RunAfter(es + [Commit(txs[0])], Plan(db, txs[0]).0, txs[1..]);
    }
  }

  // Stages of the purge, one after the other.
  ghost predicate InTurn(db: Db, id: OpId, txs: seq<Tx>)
    decreases |txs|
  {
    txs == [] || (Staged(db, id) && StageTx(db, id, txs[0]) && InTurn(Plan(db, txs[0]).0, id, txs[1..]))
  }

  lemma {:induction false} StagesReachEnd(db: Db, id: OpId, next: Db -> Tx) returns (txs: seq<Tx>)
    requires Staged(db, id)
    requires forall db :: Staged(db, id) ==> StageTx(db, id, next(db))
    ensures InTurn(db, id, txs) && Over(AfterStages(db, txs), id)
    ensures forall i :: 0 <= i < |txs| ==> txs[i] == next(AfterStages(db, txs[..i]))
    decreases Phase(db, id), Count(db, id)
  {
    var tx := next(db);
    var after := Plan(db, tx).0;
    StageNears(db, id, tx);
    var rest: seq<Tx> := [];
    if !Over(after, id) { rest := StagesReachEnd(after, id, next); }
    txs := [tx] + rest;
    assert txs[1..] == rest;
    forall i | 0 <= i < |txs| ensures txs[i] == next(AfterStages(db, txs[..i])) {
      if i > 0 {
        assert txs[..i][1..] == rest[..i - 1];
        assert txs[i] == rest[i - 1];
      }
    }
  }

  // Whatever batches are taken, the stages of a purge end with the purge complete
  // and neither a tombstone nor an object left for it.
  lemma PurgeReachesComplete(es: seq<Event>, id: OpId, next: Db -> Tx) returns (txs: seq<Tx>)
    requires Staged(Run(es).db, id)
    requires forall db :: Staged(db, id) ==> StageTx(db, id, next(db))
    ensures InTurn(Run(es).db, id, txs) && Over(Run(es + Commits(txs)).db, id)
    ensures forall i :: 0 <= i < |txs| ==> txs[i] == next(Run(es + Commits(txs[..i])).db)
  {
    txs := StagesReachEnd(Run(es).db, id, next);
    RunAfter(es, Run(es).db, txs);
    forall i | 0 <= i < |txs| ensures txs[i] == next(Run(es + Commits(txs[..i])).db) {
      RunAfter(es, Run(es).db, txs[..i]);
    }
  }

  // There always is such a batch.
  lemma {:induction false} SomeOf<T>(s: set<T>, n: nat) returns (r: set<T>)
    ensures r <= s && |r| == if |s| < n then |s| else n
    decreases n
  {
    if n == 0 || s == {} {
      r := {};
    } else {
      var x :| x in s;
      var rest := SomeOf(s - {x}, n - 1);
      r := rest + {x};
    }
  }

  lemma StageIsThere(db: Db, id: OpId) returns (tx: Tx)
    requires Staged(db, id)
    ensures StageTx(db, id, tx)
  {
    if InState(db, id, PurgingNative) {
      var pending := Pending(Discover(db, db.ops[id].doc), db.ops[id].doc);
      var batch := SomeOf(pending, TOMBSTONE_BATCH);
      if |batch| < TOMBSTONE_BATCH && batch != pending { Fewer(batch, pending); }
      tx := TombstoneTx(id, batch);
    } else if InState(db, id, PurgingServer) {
      tx := ServerRowsTx(id);
    } else if GarbageFor(db, id) == {} {
      tx := CollectTx(id, []);
    } else {
      var g :| g in GarbageFor(db, id);
      tx := CollectTx(id, [g.1]);
    }
  }

  // ---- what was offered to collection ----

  lemma {:induction false} LeavesKeepGarbage(db: Db, doc: DocId, leaves: seq<(Rev, Content)>, byParent: bool)
    ensures var t := ObserveLeaves(db, doc, leaves, byParent).0; t.garbage == db.garbage && Reopens(db, t)
    decreases |leaves|
  {
    if leaves != [] { LeavesKeepGarbage(db, doc, leaves[..|leaves| - 1], byParent); }
  }

  // No operation becomes complete.
  ghost predicate Reopens(db: Db, t: Db) {
    forall id <- t.ops :: InState(t, id, Complete) ==> InState(db, id, Complete)
  }

  lemma ChangeKeepsGarbage(db: Db, change: FeedChange)
    ensures var t := ObserveChange(db, change).0; t.garbage == db.garbage && Reopens(db, t)
  {
    LeavesKeepGarbage(db, change.doc, change.leaves, change.byParent);
    WinnerKeepsGarbage(ObserveLeaves(db, change.doc, change.leaves, change.byParent).0, change);
  }

  lemma WinnerKeepsGarbage(db: Db, change: FeedChange)
    ensures var t := ObserveWinner(db, change.doc, change.winner, change.byParent);
            t.garbage == db.garbage && Reopens(db, t)
  {
    if change.winner.Some? {
      var notebook := Binding(db, change.doc, change.winner.value, change.byParent);
      if notebook.Some? { SuppressKeepsGarbage(db, change.doc, notebook.value, !change.winner.value.deleted); }
    }
  }

  lemma SuppressKeepsGarbage(db: Db, doc: DocId, notebook: DocId, pending: bool)
    ensures var t := Suppress(db, doc, notebook, pending); t.garbage == db.garbage && Reopens(db, t)
  {}

  lemma {:induction false} FeedKeepsGarbage(db: Db, feed: seq<FeedChange>)
    ensures var t := ObserveFeed(db, feed).0; t.garbage == db.garbage && Reopens(db, t)
    decreases |feed|
  {
    if feed != [] {
      var rest, change := feed[..|feed| - 1], feed[|feed| - 1];
      FeedKeepsGarbage(db, rest);
      ChangeKeepsGarbage(ObserveFeed(db, rest).0, change);
    }
  }

  lemma OthersKeepGarbage(db: Db, tx: Tx)
    requires tx.UploadTx? || tx.RemoveBlobTx? || tx.EnqueueTx? || tx.RefuseTx? || tx.TombstoneTx?
    ensures var t := Plan(db, tx).0; t.garbage == db.garbage && Reopens(db, t)
  {}

  lemma AdmitKeepsGarbage(db: Db, id: OpId, accepted: bool)
    ensures var t := Plan(db, AdmitTx(id, accepted)).0; t.garbage == db.garbage && Reopens(db, t)
  {}

  // Only the stage that removes rows records objects, and only a collection
  // strikes them off.
  lemma PlanGarbage(db: Db, tx: Tx)
    ensures var t := Plan(db, tx).0;
            match tx
            case ServerRowsTx(id) => t == db || (InState(db, id, PurgingServer) && t == ServerRows(db, id))
            case CollectTx(id, keys) =>
              t == db || (InState(db, id, PurgingObjects) && CollectBatch(db, id, keys) && t == Collected(db, id, keys))
            case _ => t.garbage == db.garbage && Reopens(db, t)
  {
    match tx
    case ServerRowsTx(_) =>
    case CollectTx(_, _) =>
    case AdmitTx(id, accepted) => AdmitKeepsGarbage(db, id, accepted);
    case ObserveTx(feed) => FeedKeepsGarbage(db, feed);
    case _ => OthersKeepGarbage(db, tx);
  }

  ghost predicate NoneLeft(db: Db) { forall id <- db.ops :: InState(db, id, Complete) ==> GarbageFor(db, id) == {} }

  lemma PlanKeepsNoneLeft(db: Db, tx: Tx)
    requires NoneLeft(db)
    ensures NoneLeft(Plan(db, tx).0)
  {
    PlanGarbage(db, tx);
    var t := Plan(db, tx).0;
    forall id <- t.ops | InState(t, id, Complete) ensures GarbageFor(t, id) == {} {
      if t == db {
      } else if tx.ServerRowsTx? {
        RowsGarbage(db, tx.id, id);
      } else if tx.CollectTx? {
        CollectedGarbage(db, tx.id, tx.keys, id);
      } else {
        assert GarbageFor(t, id) == GarbageFor(db, id);
      }
    }
  }

  lemma RowsGarbage(db: Db, stage: OpId, id: OpId)
    requires NoneLeft(db) && InState(db, stage, PurgingServer) && InState(ServerRows(db, stage), id, Complete)
    ensures GarbageFor(ServerRows(db, stage), id) == {}
  {
    assert InState(db, id, Complete) && id != stage;
    forall g <- ServerRows(db, stage).garbage ensures g.0 != id {
      if g in db.garbage { assert g !in GarbageFor(db, id); }
    }
  }

  lemma CollectedGarbage(db: Db, stage: OpId, keys: seq<ObjectKey>, id: OpId)
    requires NoneLeft(db) && InState(db, stage, PurgingObjects) && InState(Collected(db, stage, keys), id, Complete)
    ensures GarbageFor(Collected(db, stage, keys), id) == {}
  {
    var t := Collected(db, stage, keys);
    forall g <- t.garbage ensures g.0 != id {
      assert g in db.garbage;
      if id != stage { assert InState(db, id, Complete) && g !in GarbageFor(db, id); }
    }
  }

  lemma {:induction false} CompleteLeavesNone(es: seq<Event>)
    ensures NoneLeft(Run(es).db)
    decreases |es|
  {
    if es != [] {
      var before, e := es[..|es| - 1], es[|es| - 1];
      CompleteLeavesNone(before);
      PlanKeepsNoneLeft(Run(before).db, e.tx);
    }
  }

  // Step `m` collected `key` for the purge.
  ghost predicate OfferedAt(es: seq<Event>, m: nat, id: OpId, key: ObjectKey)
    requires m < |es|
  {
    var e, db := es[m], Run(es[..m]).db;
    && e.Commit? && e.tx.CollectTx? && e.tx.id == id && key in e.tx.keys
    && InState(db, id, PurgingObjects) && CollectBatch(db, id, e.tx.keys)
  }

  ghost predicate PutAt(es: seq<Event>, p: nat, key: ObjectKey)
    requires p < |es|
  {
    PutObject(key) in Plan(Run(es[..p]).db, es[p].tx).1
  }

  lemma {:induction false} ApplyAdds(objects: set<ObjectKey>, effects: seq<Effect>, key: ObjectKey)
    requires key in Apply(objects, effects) && key !in objects
    ensures PutObject(key) in effects
    decreases |effects|
  {
    if effects[0] != PutObject(key) {
      ApplyAdds(if effects[0].PutObject? then objects + {effects[0].key} else objects - {effects[0].key}, effects[1..], key);
    }
  }

  lemma StepAdds(s: State, e: Event, key: ObjectKey)
    requires key in Step(s, e).objects && key !in s.objects
    ensures PutObject(key) in Plan(s.db, e.tx).1
  {
    var effects := Plan(s.db, e.tx).1;
    match e
    case Commit(_) => ApplyAdds(s.objects, effects, key);
    case RollBack(_, n) => ApplyAdds(s.objects, effects[..if n <= |effects| then n else |effects|], key);
  }

  lemma PutStep(es: seq<Event>, p: nat, key: ObjectKey)
    requires p < |es| && key !in Run(es[..p]).objects && key in Run(es[..p + 1]).objects
    ensures PutAt(es, p, key)
  {
    assert es[..p + 1][..p] == es[..p];
    StepAdds(Run(es[..p]), es[p], key);
  }

  // What holds first and not later ceases to hold at some step.
  lemma {:induction false} Ceases(holds: nat -> bool, n: nat, k: nat) returns (m: nat)
    requires n <= k && holds(n) && !holds(k)
    ensures n <= m < k && holds(m) && !holds(m + 1)
    decreases k
  {
    if holds(k - 1) { m := k - 1; } else { m := Ceases(holds, n, k - 1); }
  }

  // An object that is missing and is there later was put in between.
  lemma PutBetween(es: seq<Event>, n: nat, key: ObjectKey) returns (p: nat)
    requires n <= |es| && key !in Run(es[..n]).objects && key in Run(es[..|es|]).objects
    ensures n <= p < |es| && PutAt(es, p, key)
  {
    p := Ceases((i: nat) => i <= |es| && key !in Run(es[..i]).objects, n, |es|);
    PutStep(es, p, key);
  }

  lemma StrikesOff(db: Db, tx: Tx, id: OpId, key: ObjectKey)
    requires (id, key) in db.garbage && (id, key) !in Plan(db, tx).0.garbage
    ensures tx.CollectTx? && tx.id == id && key in tx.keys && InState(db, id, PurgingObjects) && CollectBatch(db, id, tx.keys)
  {
    PlanGarbage(db, tx);
  }

  lemma StepStrikesOff(es: seq<Event>, m: nat, id: OpId, key: ObjectKey)
    requires m < |es| && (id, key) in Run(es[..m]).db.garbage && (id, key) !in Run(es[..m + 1]).db.garbage
    ensures OfferedAt(es, m, id, key)
  {
    assert es[..m + 1][..m] == es[..m];
    assert es[m].Commit?;
    StrikesOff(Run(es[..m]).db, es[m].tx, id, key);
  }

  lemma StruckOff(es: seq<Event>, n: nat, id: OpId, key: ObjectKey) returns (m: nat)
    requires n <= |es| && (id, key) in Run(es[..n]).db.garbage && (id, key) !in Run(es).db.garbage
    ensures n <= m < |es| && OfferedAt(es, m, id, key)
  {
    assert es[..|es|] == es;
    m := Ceases((i: nat) => i <= |es| && (id, key) in Run(es[..i]).db.garbage, n, |es|);
    StepStrikesOff(es, m, id, key);
  }

  // What one collection leaves of a key of its batch.
  lemma OfferedIsGone(es: seq<Event>, m: nat, id: OpId, key: ObjectKey)
    requires m < |es| && OfferedAt(es, m, id, key)
    ensures key in Run(es[..m + 1]).objects ==> !Unused(Run(es[..m]).db, key.sha)
  {
    var s := Run(es[..m]);
    assert es[..m + 1][..m] == es[..m];
    CollectionIsExact(s.db, s.objects, es[m].tx.keys, key);
  }

  // It is gone, unless a row used it then or it was stored again since.
  ghost predicate GoneSince(es: seq<Event>, m: nat, key: ObjectKey)
    requires m < |es|
  {
    key in Run(es).objects ==>
      !Unused(Run(es[..m]).db, key.sha) || exists p: nat :: m < p < |es| && PutAt(es, p, key)
  }

  lemma OfferedIsGoneSince(es: seq<Event>, m: nat, id: OpId, key: ObjectKey)
    requires m < |es| && OfferedAt(es, m, id, key)
    ensures GoneSince(es, m, key)
  {
    OfferedIsGone(es, m, id, key);
    WholeRun(es);
    if key !in Run(es[..m + 1]).objects && key in Run(es).objects { var p := PutBetween(es, m + 1, key); }
  }

  lemma WholeRun(es: seq<Event>)
    ensures Run(es[..|es|]) == Run(es)
  {
    assert es[..|es|] == es;
  }

  // When a purge reads complete, every object ever recorded for it has been
  // offered to collection since.
  lemma CompleteHasCollected(es: seq<Event>, n: nat, id: OpId, key: ObjectKey) returns (m: nat)
    requires n <= |es| && (id, key) in Run(es[..n]).db.garbage && InState(Run(es).db, id, Complete)
    ensures n <= m < |es| && OfferedAt(es, m, id, key) && GoneSince(es, m, key)
  {
    CompleteLeavesNone(es);
    assert (id, key) !in GarbageFor(Run(es).db, id);
    m := StruckOff(es, n, id, key);
    OfferedIsGoneSince(es, m, id, key);
  }

  // ---- the rows of a removed notebook ----

  // Objects that a notebook's rows refer to.
  ghost predicate Holds(db: Db, notebook: DocId, key: ObjectKey) {
    match key
    case Body(sha) => exists n :: n in db.versions && db.versions[n] == Version(db.versions[n].key, Some(sha))
                                  && db.versions[n].key.notebook == Some(notebook)
    case Revision(sha) => exists k :: k in db.revisions && BoundTo(db, k.0, notebook) && db.revisions[k].sha == sha
  }

  // No blob of the notebook is bound or kept, and no document bound to it is
  // projected or archived.
  ghost predicate NothingOf(db: Db, notebook: DocId) {
    && (forall k <- db.bindings :: k.notebook != Some(notebook))
    && (forall n <- db.versions :: db.versions[n].key.notebook != Some(notebook))
    && (forall d <- db.projections :: !BoundTo(db, d, notebook))
    && (forall k <- db.revisions :: !BoundTo(db, k.0, notebook))
  }

  // What belongs to other notebooks stays.
  ghost predicate OthersKept(db: Db, t: Db, notebook: DocId) {
    && (forall k <- db.bindings :: k.notebook != Some(notebook) ==> k in t.bindings && t.bindings[k] == db.bindings[k])
    && (forall n <- db.versions :: db.versions[n].key.notebook != Some(notebook) ==>
          n in t.versions && t.versions[n] == db.versions[n])
    && (forall d <- db.projections :: !BoundTo(db, d, notebook) ==>
          d in t.projections && t.projections[d] == db.projections[d])
    && (forall k <- db.revisions :: !BoundTo(db, k.0, notebook) ==> k in t.revisions && t.revisions[k] == db.revisions[k])
  }

  // The stage removes the notebook's rows and no others, and records the objects
  // they refer to.
  lemma RowsAreRecorded(db: Db, id: OpId)
    requires InState(db, id, PurgingServer)
    ensures var doc, t := db.ops[id].doc, ServerRows(db, id);
            && NothingOf(t, doc) && OthersKept(db, t, doc)
            && (forall key :: Holds(db, doc, key) ==> (id, key) in t.garbage)
  {
    var doc, t := db.ops[id].doc, ServerRows(db, id);
    forall key | Holds(db, doc, key) ensures (id, key) in t.garbage {
      match key
      case Body(sha) =>
        var n :| n in db.versions && db.versions[n] == Version(db.versions[n].key, Some(sha))
                 && db.versions[n].key.notebook == Some(doc);
      case Revision(sha) =>
        var k :| k in db.revisions && BoundTo(db, k.0, doc) && db.revisions[k].sha == sha;
    }
  }

  lemma RowsStep(es: seq<Event>, n: nat, id: OpId, key: ObjectKey)
    requires n < |es| && es[n] == Commit(ServerRowsTx(id)) && InState(Run(es[..n]).db, id, PurgingServer)
    requires Holds(Run(es[..n]).db, Run(es[..n]).db.ops[id].doc, key)
    ensures (id, key) in Run(es[..n + 1]).db.garbage
  {
    assert es[..n + 1][..n] == es[..n];
    RowsAreRecorded(Run(es[..n]).db, id);
  }

  // So a complete purge leaves none of the objects that the notebook's rows
  // referred to, except those in use and those stored again.
  lemma PurgedObjectsAreGone(es: seq<Event>, n: nat, id: OpId, key: ObjectKey) returns (m: nat)
    requires n < |es| && es[n] == Commit(ServerRowsTx(id)) && InState(Run(es[..n]).db, id, PurgingServer)
    requires Holds(Run(es[..n]).db, Run(es[..n]).db.ops[id].doc, key) && InState(Run(es).db, id, Complete)
    ensures n < m < |es| && OfferedAt(es, m, id, key) && GoneSince(es, m, key)
  {
    RowsStep(es, n, id, key);
    m := CompleteHasCollected(es, n + 1, id, key);
  }
}
