// Publication of journaled operations as a state machine. One locked
// transaction runs at a time; each of its Gateway calls is a separate step, so
// devices may act between any two of them, and it may abort before any of them.
// Its row changes are staged and reach the table only at the final commit.
module Publication {
  import opened Outcomes
  import opened GatewayStore

  datatype OpState =
    | Queued | AssetsPublished | RecordPublished | CommitPublished
    | Published | Blocked | Superseded | Cancelled

  datatype Kind =
    | LibraryCreate
    | LibraryUpdate(after: Option<OpId>)
    | NoteEdit
    | RepairAsset
    | ReaderRestore(book: Option<DocId>, bookRevision: Option<Rev>)
    | Upload

  // A row of boox_operation. `commits` marks library records that need a
  // reader commit (highlights and bookmarks).
  datatype Op = Op(
    kind: Kind, doc: DocId, expected: Option<Rev>, changes: Fields, commits: bool,
    state: OpState, started: bool, published: Option<Rev>)

  datatype Pc =
    | Fetch | CheckNew | CreateRecord | UpdateRecord(seen: Rev) | Reread
    | FetchBook | UpdateBook(seen: Rev)
    | CheckCommit | CreateCommit | CheckMessage | CreateMessage | Finish

  datatype Tx = Idle | Running(op: OpId, pc: Pc, row: Op)

  datatype State = State(ops: map<OpId, Op>, store: Store, tx: Tx)

  datatype Event =
    | Enqueue(id: OpId, op: Op)
    | OwnerCancel(id: OpId)
    | Refuse(id: OpId, replaced: bool)     // library replaced, or notebook removed
    | RemoveNotebook(doc: DocId)           // purge cancels every operation on it
    | ScrubNotebook(doc: DocId)            // and later drops their revisions
    | Begin(id: OpId)
    | Advance(accepted: bool)              // the next call of the running transaction
    | Abort
    | DeviceWrite(doc: DocId, keepsMarker: bool, fields: Fields)
    | DeviceDelete(doc: DocId)

  predicate Selectable(st: OpState) {
    st == Queued || st == AssetsPublished || st == RecordPublished || st == CommitPublished
  }

  predicate Library(k: Kind) { k.LibraryCreate? || k.LibraryUpdate? }

  // The revision an update may replace: `expected_revision`, or what the
  // predecessor it is chained after recorded.
  function Fence(ops: map<OpId, Op>, row: Op, part: Part): Option<Rev> {
    match (part, row.kind)
    case (Companion, ReaderRestore(_, revision)) => revision
    case (_, LibraryUpdate(Some(pred))) => if pred in ops then ops[pred].published else None
    case _ => row.expected
  }

  function Target(id: OpId, row: Op, part: Part): DocId {
    match part
    case Main => row.doc
    case Companion =>
      if row.kind.ReaderRestore? && row.kind.book.Some? then row.kind.book.value else row.doc
    case Commit => CommitOf(id)
    case Message => MessageOf(id)
  }

  predicate NeedsCommit(row: Op) { if Library(row.kind) then row.commits else true }

  function Rollback(s: State): State { s.(tx := Idle) }

  function Goto(s: State, pc: Pc): State
    requires s.tx.Running?
  { s.(tx := s.tx.(pc := pc)) }

  // Stage a final or intermediate row state.
  function Stage(s: State, row: Op, pc: Pc): State
    requires s.tx.Running?
  { s.(tx := s.tx.(row := row, pc := pc)) }

  function Settle(s: State, st: OpState): State
    requires s.tx.Running?
  { Stage(s, s.tx.row.(state := st), Finish) }

  // A Gateway write by the running operation; a conflict aborts the step.
  function ServerWrite(s: State, part: Part, parent: Option<Rev>, fields: Fields): Option<Store>
    requires s.tx.Running?
  {
    Write(s.store, Change(Target(s.tx.op, s.tx.row, part), parent,
                          Server(s.tx.op, part), Some(s.tx.op), fields, true))
  }

  function AfterRecord(row: Op): Pc {
    if row.kind.ReaderRestore? && row.kind.book.Some? then FetchBook
    else if NeedsCommit(row) && (Library(row.kind) || row.state == RecordPublished) then CheckCommit
    else CheckMessage
  }

  function FirstPc(row: Op): Pc {
    if row.state == Queued && (row.kind.LibraryCreate? || row.kind.Upload?) then CheckNew
    else if Library(row.kind) && row.state != Queued then Reread
    else Fetch
  }

  // GET of the record, followed by the decision whether to write it.
  function DoFetch(s: State, accepted: bool): State
    requires s.tx.Running? && WellFormed(s.store)
  {
    var id, row := s.tx.op, s.tx.row;
    match Get(s.store, row.doc)
    case None => if row.kind.LibraryUpdate? then Settle(s, Blocked) else Rollback(s)
    case Some((rev, live)) =>
      if row.kind.LibraryUpdate? then
        if live.marker == Some(id) then Goto(s, Reread)
        else if Waiting(s.ops, row.kind.after) then Rollback(s)
        else if Fence(s.ops, row, Main) != Some(rev) || !accepted then Settle(s, Blocked)
        else Goto(s, UpdateRecord(rev))
      else if row.kind.RepairAsset? && row.state == Queued then
        if row.expected != Some(rev) || !accepted then Settle(s, Blocked)
        else Settle(s, AssetsPublished)
      else if row.state == Queued || row.state == AssetsPublished then
        if live.marker == Some(id) then
          var row' := row.(state := RecordPublished, published := Some(rev));
          Stage(s, row', AfterRecord(row'))
        else if row.expected != Some(rev) || !accepted then Settle(s, Blocked)
        else Goto(s, UpdateRecord(rev))
      else if live.marker == Some(id) then Goto(s, AfterRecord(row))
      else Settle(s, Superseded)
  }

  // A chained change waits while its predecessor is still to be published.
  predicate Waiting(ops: map<OpId, Op>, after: Option<OpId>) {
    after.Some? && after.value in ops && ops[after.value].state == Queued && ops[after.value].published.None?
  }

  // PUT of the changed record. A library change is read back before its
  // revision is recorded; other kinds record the acknowledged revision.
  function DoUpdate(s: State): State
    requires s.tx.Running? && s.tx.pc.UpdateRecord? && WellFormed(s.store)
  {
    var row, seen := s.tx.row, s.tx.pc.seen;
    if seen >= |s.store.history| then Rollback(s) else
      match ServerWrite(s, Main, Some(seen), s.store.history[seen].fields + row.changes)
      case None => Rollback(s)
      case Some(store) =>
        var t := s.(store := store);
        if Library(row.kind) then Goto(t, Reread)
        else
          var row' := row.(state := RecordPublished, published := Some(|s.store.history|));
          Stage(t, row', AfterRecord(row'))
  }

  function DoReread(s: State): State
    requires s.tx.Running? && WellFormed(s.store)
  {
    var id, row := s.tx.op, s.tx.row;
    match Get(s.store, row.doc)
    case None => Rollback(s)
    case Some((rev, live)) =>
      var row' := if row.state == Queued then row.(state := RecordPublished, published := Some(rev)) else row;
      if row.kind.Upload? then Stage(s, row', Fetch)
      else if live.marker == Some(id) then Stage(s, row', AfterRecord(row'))
      else Stage(s, row'.(state := Superseded), Finish)
  }

  // putIdempotent, as a GET step followed by a PUT step.
  function DoCheckNew(s: State, accepted: bool): State
    requires s.tx.Running? && WellFormed(s.store)
  {
    var id, row := s.tx.op, s.tx.row;
    if Library(row.kind) && !accepted then Settle(s, Blocked)
    else match Get(s.store, row.doc)
      case None => Goto(s, CreateRecord)
      case Some((_, live)) =>
        if live.marker == Some(id) then Goto(s, Reread)
        else if Library(row.kind) then Settle(s, Blocked)
        else Rollback(s)
  }

  function DoCreate(s: State, part: Part, fields: Fields): State
    requires s.tx.Running?
  {
    match ServerWrite(s, part, None, fields)
    case None => Rollback(s)
    case Some(store) => s.(store := store)
  }

  function RecordDone(s: State): State { if s.tx.Running? then Goto(s, Reread) else s }

  function DoFetchBook(s: State): State
    requires s.tx.Running? && WellFormed(s.store)
  {
    var id, row := s.tx.op, s.tx.row;
    match Get(s.store, Target(id, row, Companion))
    case None => Rollback(s)
    case Some((rev, live)) =>
      if live.marker == Some(id) then Goto(s, CheckCommit)
      else if Fence(s.ops, row, Companion) != Some(rev) then Settle(s, Blocked)
      else Goto(s, UpdateBook(rev))
  }

  function DoUpdateBook(s: State): State
    requires s.tx.Running? && s.tx.pc.UpdateBook?
  {
    var seen := s.tx.pc.seen;
    if seen >= |s.store.history| then Rollback(s) else
      match ServerWrite(s, Companion, Some(seen), s.store.history[seen].fields)
      case None => Rollback(s)
      case Some(store) => Goto(s.(store := store), CheckCommit)
  }

  function CommitDone(s: State): State {
    if !s.tx.Running? then s
    else if Library(s.tx.row.kind) then Goto(s, CheckMessage)
    else Stage(s, s.tx.row.(state := CommitPublished), CheckMessage)
  }

  function MessageDone(s: State): State {
    if s.tx.Running? then Settle(s, Published) else s
  }

  function DoCheckCommit(s: State): State
    requires s.tx.Running? && WellFormed(s.store)
  {
    match Get(s.store, CommitOf(s.tx.op))
    case None => Goto(s, CreateCommit)
    case Some((_, live)) => if live.marker == Some(s.tx.op) then CommitDone(s) else Rollback(s)
  }

  function DoCheckMessage(s: State): State
    requires s.tx.Running? && WellFormed(s.store)
  {
    match Get(s.store, MessageOf(s.tx.op))
    case None => Goto(s, CreateMessage)
    case Some((_, live)) => if live.marker == Some(s.tx.op) then MessageDone(s) else Rollback(s)
  }

  function DoAdvance(s: State, accepted: bool): State
    requires s.tx.Running? && WellFormed(s.store)
  {
    match s.tx.pc
    case Fetch => DoFetch(s, accepted)
    case UpdateRecord(_) => DoUpdate(s)
    case Reread => DoReread(s)
    case CheckNew => DoCheckNew(s, accepted)
    case CreateRecord => RecordDone(DoCreate(s, Main, s.tx.row.changes))
    case FetchBook => DoFetchBook(s)
    case UpdateBook(_) => DoUpdateBook(s)
    case CheckCommit => DoCheckCommit(s)
    case CreateCommit => CommitDone(DoCreate(s, Commit, map[]))
    case CheckMessage => DoCheckMessage(s)
    case CreateMessage => MessageDone(DoCreate(s, Message, map[]))
    case Finish => s.(ops := s.ops[s.tx.op := s.tx.row], tx := Idle)
  }

  // Selection of an operation. The start marker commits in a transaction of
  // its own before the operation may write anything.
  function DoBegin(s: State, id: OpId): State
    requires s.tx.Idle?
  {
    if id !in s.ops || !Selectable(s.ops[id].state) then s
    else if !s.ops[id].started then s.(ops := s.ops[id := s.ops[id].(started := true)])
    else s.(tx := Running(id, FirstPc(s.ops[id]), s.ops[id]))
  }

  function DeviceChange(s: Store, d: DocId, keepsMarker: bool, fields: Fields): Change
    requires WellFormed(s)
  {
    match Get(s, d)
    case None => Change(d, None, Outside, None, fields, true)
    case Some((rev, prior)) =>
      Change(d, Some(rev), Outside, if keepsMarker then prior.marker else None, fields, true)
  }

  function Step(s: State, e: Event): State
    requires WellFormed(s.store)
  {
    match e
    case Enqueue(id, op) =>
      if id in s.ops || op.state != Queued || op.started || op.published.Some? || !op.doc.Record? then s
      else s.(ops := s.ops[id := op])
    case OwnerCancel(id) =>
      if CanCancel(s, id) then s.(ops := s.ops[id := s.ops[id].(state := Cancelled)]) else s
    case Refuse(id, replaced) =>
      if !s.tx.Idle? || id !in s.ops || !Selectable(s.ops[id].state) then s
      else if replaced then s.(ops := s.ops[id := s.ops[id].(state := Blocked)])
      else if s.ops[id].started then s.(ops := s.ops[id := s.ops[id].(state := Cancelled)])
      else s
    case RemoveNotebook(doc) =>
      if !s.tx.Idle? then s
      else s.(ops := map id | id in s.ops ::
                 if s.ops[id].doc == doc then s.ops[id].(state := Cancelled) else s.ops[id])
    case ScrubNotebook(doc) =>
      if !s.tx.Idle? then s
      else s.(ops := map id | id in s.ops ::
                 if s.ops[id].doc == doc then s.ops[id].(expected := None, published := None) else s.ops[id])
    case Begin(id) => if s.tx.Idle? then DoBegin(s, id) else s
    case Advance(accepted) => if s.tx.Running? then DoAdvance(s, accepted) else s
    case Abort => Rollback(s)
    case DeviceWrite(d, keeps, fields) =>
      s.(store := Write(s.store, DeviceChange(s.store, d, keeps, fields)).value)
    case DeviceDelete(d) =>
      if d !in s.store.current then s
      else s.(store := Write(s.store, Change(d, Some(s.store.current[d]), Outside, None, map[], false)).value)
  }

  predicate CanCancel(s: State, id: OpId) {
    id in s.ops && s.ops[id].state == Queued && !s.ops[id].started
  }

  predicate Extends(s: Store, t: Store) {
    s.history <= t.history && |t.history| <= |s.history| + 1
  }

  lemma WriteExtends(s: Store, c: Change)
    requires WellFormed(s) && Write(s, c).Some? && (c.live || c.parent.Some?)
    ensures WellFormed(Write(s, c).value) && Extends(s, Write(s, c).value)
  {
    WriteKeepsWellFormed(s, c);
  }

  lemma ServerWriteExtends(s: State, part: Part, parent: Option<Rev>, fields: Fields)
    requires s.tx.Running? && WellFormed(s.store)
    ensures var r := ServerWrite(s, part, parent, fields);
            r.Some? ==> WellFormed(r.value) && Extends(s.store, r.value)
  {
    if ServerWrite(s, part, parent, fields).Some? {
      WriteExtends(s.store, Change(Target(s.tx.op, s.tx.row, part), parent,
                                   Server(s.tx.op, part), Some(s.tx.op), fields, true));
    }
  }

  lemma AdvanceKeepsStore(s: State, accepted: bool)
    requires s.tx.Running? && WellFormed(s.store)
    ensures var t := DoAdvance(s, accepted); WellFormed(t.store) && Extends(s.store, t.store)
  {
    match s.tx.pc
    case UpdateRecord(seen) =>
      if seen < |s.store.history| {
        ServerWriteExtends(s, Main, Some(seen), s.store.history[seen].fields + s.tx.row.changes);
      }
    case UpdateBook(seen) =>
      if seen < |s.store.history| {
        ServerWriteExtends(s, Companion, Some(seen), s.store.history[seen].fields);
      }
    case CreateRecord => ServerWriteExtends(s, Main, None, s.tx.row.changes);
    case CreateCommit => ServerWriteExtends(s, Commit, None, map[]);
    case CreateMessage => ServerWriteExtends(s, Message, None, map[]);
    case _ =>
  }

  lemma StepKeepsStore(s: State, e: Event)
    requires WellFormed(s.store)
    ensures WellFormed(Step(s, e).store) && Extends(s.store, Step(s, e).store)
  {
    match e
    case DeviceWrite(d, keeps, fields) => WriteExtends(s.store, DeviceChange(s.store, d, keeps, fields));
    case DeviceDelete(d) =>
      if d in s.store.current {
        WriteExtends(s.store, Change(d, Some(s.store.current[d]), Outside, None, map[], false));
      }
    case Advance(accepted) => if s.tx.Running? { AdvanceKeepsStore(s, accepted); }
    case _ =>
  }

  // The state after a run of events from an empty journal and an empty store.
  function Run(es: seq<Event>): (s: State)
    ensures WellFormed(s.store)
    decreases |es|
  {
    if es == [] then State(map[], Store(map[], []), Idle)
    else
      var s := Run(es[..|es| - 1]);
      StepKeepsStore(s, es[|es| - 1]);
      Step(s, es[|es| - 1])
  }
}
