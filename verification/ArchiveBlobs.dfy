// What is live under a blob's name: the body uploaded last, until it is deleted
// or its notebook's rows are removed. Nothing else changes it.
module ArchiveBlobs {
  import opened Outcomes
  import opened Archive

  function LiveBody(db: Db, key: BlobKey): Option<Digest> {
    if key in db.bindings && db.bindings[key] in db.versions then db.versions[db.bindings[key]].sha else None
  }

  // Every binding names a version of its own key.
  ghost predicate BindingsOk(db: Db) {
    forall key <- db.bindings :: db.bindings[key] in db.versions && db.versions[db.bindings[key]].key == key
  }

  predicate Purged(db: Db, key: BlobKey) { key.notebook.Some? && key.notebook.value in db.purged }

  // The transaction removes the rows of the key's notebook.
  predicate Clears(db: Db, tx: Tx, key: BlobKey) {
    && tx.ServerRowsTx? && tx.id in db.ops && db.ops[tx.id].purge && db.ops[tx.id].state == PurgingServer
    && key.notebook == Some(db.ops[tx.id].doc)
  }

  function LiveAfter(db: Db, tx: Tx, key: BlobKey): Option<Digest> {
    match tx
    case UploadTx(k, version, sha) =>
      if k == key && !Purged(db, key) && version !in db.versions then Some(sha) else LiveBody(db, key)
    case RemoveBlobTx(k, version) =>
      if k == key && !Purged(db, key) && version !in db.versions then None else LiveBody(db, key)
    case _ => if Clears(db, tx, key) then None else LiveBody(db, key)
  }

  lemma {:induction false} LeavesKeepBlobs(db: Db, doc: DocId, leaves: seq<(Rev, Content)>, byParent: bool)
    ensures var t := ObserveLeaves(db, doc, leaves, byParent).0; t.versions == db.versions && t.bindings == db.bindings
    decreases |leaves|
  {
    if leaves != [] { LeavesKeepBlobs(db, doc, leaves[..|leaves| - 1], byParent); }
  }

  lemma {:induction false} FeedKeepsBlobs(db: Db, feed: seq<FeedChange>)
    ensures var t := ObserveFeed(db, feed).0; t.versions == db.versions && t.bindings == db.bindings
    decreases |feed|
  {
    if feed != [] {
      var before, change := feed[..|feed| - 1], feed[|feed| - 1];
      FeedKeepsBlobs(db, before);
      LeavesKeepBlobs(ObserveFeed(db, before).0, change.doc, change.leaves, change.byParent);
    }
  }

  lemma OthersKeepBlobs(db: Db, tx: Tx)
    requires tx.EnqueueTx? || tx.RefuseTx? || tx.TombstoneTx? || tx.CollectTx?
    ensures var t := Plan(db, tx).0; t.versions == db.versions && t.bindings == db.bindings
  {}

  lemma AdmitKeepsBlobs(db: Db, id: OpId, accepted: bool)
    ensures var t := Plan(db, AdmitTx(id, accepted)).0; t.versions == db.versions && t.bindings == db.bindings
  {}

  lemma BlobTx(db: Db, tx: Tx)
    requires BindingsOk(db) && (tx.UploadTx? || tx.RemoveBlobTx?)
    ensures var t := Plan(db, tx).0; BindingsOk(t) && forall key :: LiveBody(t, key) == LiveAfter(db, tx, key)
  {}

  lemma RowsTx(db: Db, id: OpId)
    requires BindingsOk(db)
    ensures var t := Plan(db, ServerRowsTx(id)).0;
            BindingsOk(t) && forall key :: LiveBody(t, key) == LiveAfter(db, ServerRowsTx(id), key)
  {}

  lemma LiveIsLast(db: Db, tx: Tx)
    requires BindingsOk(db)
    ensures var t := Plan(db, tx).0; BindingsOk(t) && forall key :: LiveBody(t, key) == LiveAfter(db, tx, key)
  {
    match tx
    case UploadTx(_, _, _) => BlobTx(db, tx);
    case RemoveBlobTx(_, _) => BlobTx(db, tx);
    case ServerRowsTx(id) => RowsTx(db, id);
    case ObserveTx(feed) => FeedKeepsBlobs(db, feed);
    case AdmitTx(id, accepted) => AdmitKeepsBlobs(db, id, accepted);
    case _ => OthersKeepBlobs(db, tx);
  }

  // Over every run: what a committed transaction leaves live under each key.
  lemma {:induction false} LiveOverRuns(es: seq<Event>)
    ensures BindingsOk(Run(es).db)
    ensures es != [] ==>
              var s, e := Run(es[..|es| - 1]), es[|es| - 1];
              forall key :: LiveBody(Run(es).db, key)
                            == if e.Commit? then LiveAfter(s.db, e.tx, key) else LiveBody(s.db, key)
    decreases |es|
  {
    if es != [] {
      LiveOverRuns(es[..|es| - 1]);
      LiveIsLast(Run(es[..|es| - 1]).db, es[|es| - 1].tx);
    }
  }

  // Uploads and deletions add their version to the record, a deletion one without
  // a body; older versions stay as they are.
  lemma VersionsAre(db: Db, tx: Tx)
    requires tx.UploadTx? || tx.RemoveBlobTx?
    ensures var t := Plan(db, tx).0;
            if Purged(db, tx.key) || tx.version in db.versions then t == db
            else t.versions == db.versions[tx.version := Version(tx.key, if tx.UploadTx? then Some(tx.sha) else None)]
  {}
}
