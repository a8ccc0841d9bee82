// The archive behind the Gateway: archived revisions, the current projection,
// stored blob versions, the permanent removal of notebooks and the collection
// of objects nothing refers to any more.
//
// All of these run in transactions that one library-wide lock serialises. A
// transaction either commits, or rolls its rows back and leaves the object
// store as it was after some prefix of its effects.
module Archive {
  import opened Outcomes

  type DocId = string
  type Rev = string
  type Digest = nat
  type OpId = nat

  datatype ObjectKey = Body(sha: Digest) | Revision(sha: Digest)

  // What the archive keeps of one document body. The owner is the notebook that
  // an explicit NOTE_TREE link names.
  datatype Content = Content(owner: Option<DocId>, deleted: bool, sha: Digest)

  datatype BlobKey = BlobKey(notebook: Option<DocId>, path: string)
  datatype Version = Version(key: BlobKey, sha: Option<Digest>)
  datatype Tomb = Tomb(notebook: DocId, pending: bool)

  datatype PurgeState =
    | Queued | PurgingNative | PurgingServer | PurgingObjects | Complete | Blocked | Cancelled
  datatype Op = Op(purge: bool, doc: DocId, state: PurgeState)

  datatype Db = Db(
    revisions: map<(DocId, Rev), Content>,
    projections: map<DocId, Content>,
    versions: map<nat, Version>,
    bindings: map<BlobKey, nat>,
    purged: map<DocId, OpId>,
    tombs: map<DocId, Tomb>,
    garbage: set<(OpId, ObjectKey)>,
    ops: map<OpId, Op>)

  // `cleared` remembers the notebooks whose server rows were removed.
  datatype State = State(db: Db, objects: set<ObjectKey>, cleared: set<DocId>)

  datatype Effect = PutObject(key: ObjectKey) | DeleteObject(key: ObjectKey)

  // One entry of the changes feed: its leaves, then the current winner, if any.
  // `byParent` picks the binding when both the document and the body match one.
  datatype FeedChange = FeedChange(doc: DocId, leaves: seq<(Rev, Content)>, winner: Option<Content>, byParent: bool)

  datatype Tx =
    | ObserveTx(feed: seq<FeedChange>)
    | UploadTx(key: BlobKey, version: nat, sha: Digest)
    | RemoveBlobTx(key: BlobKey, version: nat)
    | EnqueueTx(id: OpId, op: Op)
    | RefuseTx(id: OpId)                                  // the library was replaced
    | AdmitTx(id: OpId, accepted: bool)                   // purge, state queued
    | TombstoneTx(id: OpId, targets: set<DocId>)          // purging_native
    | ServerRowsTx(id: OpId)                              // purging_server
    | CollectTx(id: OpId, keys: seq<ObjectKey>)           // purging_objects

  function Apply(objects: set<ObjectKey>, effects: seq<Effect>): set<ObjectKey>
    decreases |effects|
  {
    if effects == [] then objects
    else match effects[0]
      case PutObject(key) => Apply(objects + {key}, effects[1..])
      case DeleteObject(key) => Apply(objects - {key}, effects[1..])
  }

  // ---- observing ----

  function Binding(db: Db, doc: DocId, c: Content, byParent: bool): Option<DocId> {
    var owned := c.owner.Some? && c.owner.value in db.purged;
    if doc in db.tombs && !(byParent && owned) then Some(db.tombs[doc].notebook)
    else if owned then c.owner
    else None
  }

  // Remember the identity only; a live body reopens a completed purge.
  function Suppress(db: Db, doc: DocId, notebook: DocId, pending: bool): Db {
    var tomb := if doc in db.tombs then Tomb(db.tombs[doc].notebook, db.tombs[doc].pending || pending)
                else Tomb(notebook, pending);
    var ops := if pending && notebook in db.purged && db.purged[notebook] in db.ops
                  && db.ops[db.purged[notebook]].state == Complete
               then db.ops[db.purged[notebook] := db.ops[db.purged[notebook]].(state := PurgingNative)]
               else db.ops;
    db.(tombs := db.tombs[doc := tomb], ops := ops)
  }

  function ObserveLeaf(db: Db, doc: DocId, rev: Rev, c: Content, byParent: bool): (Db, seq<Effect>) {
    match Binding(db, doc, c, byParent)
    case Some(notebook) => (Suppress(db, doc, notebook, !c.deleted), [])
    case None =>
      (if (doc, rev) in db.revisions then db else db.(revisions := db.revisions[(doc, rev) := c]),
       [PutObject(Revision(c.sha))])
  }

  function ObserveLeaves(db: Db, doc: DocId, leaves: seq<(Rev, Content)>, byParent: bool): (Db, seq<Effect>) {
    if leaves == [] then (db, [])
    else
      var (before, effects) := ObserveLeaves(db, doc, leaves[..|leaves| - 1], byParent);
      var leaf := leaves[|leaves| - 1];
      var (after, more) := ObserveLeaf(before, doc, leaf.0, leaf.1, byParent);
      (after, effects + more)
  }

  function ObserveWinner(db: Db, doc: DocId, winner: Option<Content>, byParent: bool): Db {
    match winner
    case None => db.(projections := db.projections - {doc})
    case Some(c) =>
      match Binding(db, doc, c, byParent)
      case Some(notebook) => Suppress(db, doc, notebook, !c.deleted)
      case None => db.(projections := db.projections[doc := c])
  }

  function ObserveChange(db: Db, change: FeedChange): (Db, seq<Effect>) {
    var (leaves, effects) := ObserveLeaves(db, change.doc, change.leaves, change.byParent);
    (ObserveWinner(leaves, change.doc, change.winner, change.byParent), effects)
  }

  function ObserveFeed(db: Db, feed: seq<FeedChange>): (Db, seq<Effect>) {
    if feed == [] then (db, [])
    else
      var (before, effects) := ObserveFeed(db, feed[..|feed| - 1]);
      var (after, more) := ObserveChange(before, feed[|feed| - 1]);
      (after, effects + more)
  }

  // ---- purging ----

  predicate Owns(c: Content, notebook: DocId) { c.owner == Some(notebook) }

  function Discovered(db: Db, notebook: DocId): set<DocId> {
    (set d | d in db.projections && Owns(db.projections[d], notebook))
    + (set k | k in db.revisions && Owns(db.revisions[k], notebook) :: k.0)
  }

  function Discover(db: Db, notebook: DocId): Db {
    var found := Discovered(db, notebook);
    db.(tombs := map d | d in db.tombs.Keys + found :: if d in db.tombs then db.tombs[d] else Tomb(notebook, true))
  }

  function Pending(db: Db, notebook: DocId): set<DocId> {
    set d | d in db.tombs && db.tombs[d].notebook == notebook && db.tombs[d].pending
  }

  predicate InState(db: Db, id: OpId, st: PurgeState) {
    id in db.ops && db.ops[id].purge && db.ops[id].state == st
  }

  function SetState(db: Db, id: OpId, st: PurgeState): Db
    requires id in db.ops
  { db.(ops := db.ops[id := db.ops[id].(state := st)]) }

  function AdmittedOp(db: Db, id: OpId, k: OpId): Op
    requires k in db.ops && id in db.ops
  {
    if k == id then db.ops[k].(state := PurgingNative)
    else if db.ops[k].doc == db.ops[id].doc && db.ops[k].state != Complete then db.ops[k].(state := Cancelled)
    else db.ops[k]
  }

  // The purge is admitted: late writers are shut out and every other operation
  // on the notebook is cancelled.
  function Admit(db: Db, id: OpId): Db
    requires id in db.ops
  {
    var doc := db.ops[id].doc;
    Discover(db.(
      ops := map k | k in db.ops :: AdmittedOp(db, id, k),
      purged := if doc in db.purged then db.purged else db.purged[doc := id],
      tombs := if doc in db.tombs then db.tombs else db.tombs[doc := Tomb(doc, true)]), doc)
  }

  const TOMBSTONE_BATCH := 32
  const COLLECT_BATCH := 64

  predicate TombstoneBatch(db: Db, notebook: DocId, batch: set<DocId>) {
    && batch <= Pending(db, notebook)
    && (|batch| == TOMBSTONE_BATCH || (|batch| < TOMBSTONE_BATCH && batch == Pending(db, notebook)))
  }

  function Tombstoned(db: Db, id: OpId, batch: set<DocId>): Db
    requires id in db.ops
  {
    var marked := db.(tombs := map d | d in db.tombs ::
      if d in batch then db.tombs[d].(pending := false) else db.tombs[d]);
    if Pending(marked, db.ops[id].doc) == {} then SetState(marked, id, PurgingServer) else marked
  }

  predicate BoundTo(db: Db, d: DocId, notebook: DocId) {
    d in db.tombs && db.tombs[d].notebook == notebook
  }

  function GarbageOf(db: Db, id: OpId, notebook: DocId): set<(OpId, ObjectKey)> {
    (set k | k in db.revisions && BoundTo(db, k.0, notebook) :: (id, Revision(db.revisions[k].sha)))
    + (set n | n in db.versions && db.versions[n].key.notebook == Some(notebook) && db.versions[n].sha.Some?
         :: (id, Body(db.versions[n].sha.value)))
  }

  function ServerRows(db: Db, id: OpId): Db
    requires id in db.ops
  {
    var doc := db.ops[id].doc;
    SetState(db.(
      garbage := db.garbage + GarbageOf(db, id, doc),
      projections := map d | d in db.projections && !BoundTo(db, d, doc) :: db.projections[d],
      revisions := map k | k in db.revisions && !BoundTo(db, k.0, doc) :: db.revisions[k],
      bindings := map k | k in db.bindings && k.notebook != Some(doc) :: db.bindings[k],
      versions := map n | n in db.versions && db.versions[n].key.notebook != Some(doc) :: db.versions[n]),
      id, PurgingObjects)
  }

  predicate Used(db: Db, sha: Digest) {
    || (exists n :: n in db.versions && db.versions[n].sha == Some(sha))
    || (exists k :: k in db.revisions && db.revisions[k].sha == sha)
  }

  predicate CollectBatch(db: Db, id: OpId, batch: seq<ObjectKey>) {
    && |batch| <= COLLECT_BATCH
    && (forall key <- batch :: (id, key) in db.garbage)
  }

  function Collections(db: Db, batch: seq<ObjectKey>): seq<Effect> {
    if batch == [] then []
    else
      var last := batch[|batch| - 1];
      Collections(db, batch[..|batch| - 1]) + (if Used(db, last.sha) then [] else [DeleteObject(last)])
  }

  function Collected(db: Db, id: OpId, batch: seq<ObjectKey>): Db
    requires id in db.ops
  {
    var rest := db.(garbage := db.garbage - (set key | key in batch :: (id, key)));
    if exists g :: g in rest.garbage && g.0 == id then rest
    else SetState(rest, id, if Pending(db, db.ops[id].doc) != {} then PurgingNative else Complete)
  }

  // ---- transactions ----

  predicate Gone(db: Db, key: BlobKey) { key.notebook.Some? && key.notebook.value in db.purged }

  function Plan(db: Db, tx: Tx): (Db, seq<Effect>) {
    match tx
    case ObserveTx(feed) => ObserveFeed(db, feed)
    case UploadTx(key, version, sha) =>
      if Gone(db, key) || version in db.versions then (db, [])
      else (db.(versions := db.versions[version := Version(key, Some(sha))],
                bindings := db.bindings[key := version]),
            [PutObject(Body(sha))])
    case RemoveBlobTx(key, version) =>
      if Gone(db, key) || version in db.versions then (db, [])
      else (db.(versions := db.versions[version := Version(key, None)], bindings := db.bindings - {key}), [])
    case EnqueueTx(id, op) =>
      if id in db.ops || op.state != Queued || (op.purge && op.doc in db.purged) then (db, [])
      else (db.(ops := db.ops[id := op]), [])
    case RefuseTx(id) =>
      if id in db.ops && db.ops[id].state != Complete && db.ops[id].state != Cancelled
      then (SetState(db, id, Blocked), []) else (db, [])
    case AdmitTx(id, accepted) =>
      if !InState(db, id, Queued) then (db, [])
      else if !accepted then (SetState(db, id, Blocked), [])
      else (Admit(db, id), [])
    case TombstoneTx(id, batch) =>
      if !InState(db, id, PurgingNative) then (db, [])
      else
        var found := Discover(db, db.ops[id].doc);
        if TombstoneBatch(found, db.ops[id].doc, batch) then (Tombstoned(found, id, batch), []) else (db, [])
    case ServerRowsTx(id) =>
      if InState(db, id, PurgingServer) then (ServerRows(db, id), []) else (db, [])
    case CollectTx(id, batch) =>
      if InState(db, id, PurgingObjects) && CollectBatch(db, id, batch)
      then (Collected(db, id, batch), Collections(db, batch)) else (db, [])
  }

  // A committed transaction, or one that stopped after `effects` of its effects.
  datatype Event = Commit(tx: Tx) | RollBack(tx: Tx, effects: nat)

  function ClearedBy(db: Db, tx: Tx): set<DocId> {
    if tx.ServerRowsTx? && InState(db, tx.id, PurgingServer) then {db.ops[tx.id].doc} else {}
  }

  function Step(s: State, e: Event): State {
    var (db, effects) := Plan(s.db, e.tx);
    match e
    case Commit(tx) =>
      State(db, Apply(s.objects, effects), s.cleared + ClearedBy(s.db, tx))
    case RollBack(_, n) =>
      s.(objects := Apply(s.objects, effects[..if n <= |effects| then n else |effects|]))
  }

  const EMPTY := State(Db(map[], map[], map[], map[], map[], map[], {}, map[]), {}, {})

  function Run(es: seq<Event>): State
    decreases |es|
  {
    if es == [] then EMPTY else Step(Run(es[..|es| - 1]), es[|es| - 1])
  }
}
