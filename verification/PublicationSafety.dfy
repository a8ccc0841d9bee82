// What every run of the publisher keeps, whatever devices do and wherever
// transactions abort.
module PublicationSafety {
  import opened Outcomes
  import opened GatewayStore
  import opened Publication

  ghost predicate IsUpdate(c: Change, id: OpId, part: Part) {
    c.writer == Server(id, part) && c.parent.Some?
  }

  predicate Erased<T(==)>(now: Option<T>, was: Option<T>) { now == was || now.None? }

  predicate Unpublished(st: OpState) { st == Queued || st == AssetsPublished }

  // The fence of a write that happened is fixed: it can only be erased, never
  // become another revision.
  ghost predicate Settled(ops: map<OpId, Op>, id: OpId, part: Part, p: Rev) {
    && id in ops
    && match (part, ops[id].kind)
       case (Companion, ReaderRestore(_, revision)) => revision == Some(p)
       case (_, LibraryUpdate(Some(pred))) =>
         pred in ops && !Selectable(ops[pred].state) && Erased(ops[pred].published, Some(p))
       case _ => Erased(ops[id].expected, Some(p))
  }

  ghost predicate RowsOk(ops: map<OpId, Op>) {
    forall id <- ops ::
      && ops[id].state != RecordPublished && ops[id].state != CommitPublished
      && (Selectable(ops[id].state) ==> ops[id].published.None?)
  }

  ghost predicate SamePlan(a: Op, b: Op) {
    && a.kind == b.kind && a.doc == b.doc && a.expected == b.expected
    && a.changes == b.changes && a.commits == b.commits && a.started == b.started
  }

  ghost predicate TxOk(s: State) {
    s.tx.Running? ==>
      var id, row := s.tx.op, s.tx.row;
      && id in s.ops && s.ops[id].started && Selectable(s.ops[id].state)
      && SamePlan(s.ops[id], row)
      && (Unpublished(row.state) ==> row.published.None?)
      && (s.tx.pc.Finish? ==> row.state == AssetsPublished || !Selectable(row.state))
      && (s.tx.pc.UpdateRecord? ==> Fence(s.ops, row, Main) == Some(s.tx.pc.seen))
      && (s.tx.pc.UpdateBook? ==> Fence(s.ops, row, Companion) == Some(s.tx.pc.seen))
  }

  // Every change the server wrote, and every marker in the history, belongs to
  // an operation whose start marker is committed.
  ghost predicate ChangeOk(ops: map<OpId, Op>, c: Change) {
    && (c.marker.Some? ==> c.marker.value in ops && ops[c.marker.value].started)
    && (c.writer.Server? ==>
          var id, part := c.writer.op, c.writer.part;
          && id in ops && ops[id].started && c.marker == Some(id)
          && c.doc == Target(id, ops[id], part)
          && (c.parent.Some? ==> Settled(ops, id, part, c.parent.value)))
  }

  ghost predicate HistoryOk(s: State) {
    forall i :: 0 <= i < |s.store.history| ==> ChangeOk(s.ops, s.store.history[i])
  }

  ghost predicate WritesOnce(h: seq<Change>) {
    forall i, j, id, part :: 0 <= i < j < |h| && IsUpdate(h[i], id, part) ==> !IsUpdate(h[j], id, part)
  }

  ghost predicate Inv(s: State) {
    WellFormed(s.store) && RowsOk(s.ops) && TxOk(s) && HistoryOk(s) && WritesOnce(s.store.history)
  }

  // Rows keep their plan and start marker, and a settled fence stays settled.
  ghost predicate RowsGrow(ops: map<OpId, Op>, ops': map<OpId, Op>) {
    forall id <- ops ::
      && id in ops'
      && ops'[id].kind == ops[id].kind && ops'[id].doc == ops[id].doc
      && Erased(ops'[id].expected, ops[id].expected)
      && (ops[id].started ==> ops'[id].started)
      && (!Selectable(ops[id].state) ==>
            !Selectable(ops'[id].state) && Erased(ops'[id].published, ops[id].published))
  }

  lemma ChangeStaysOk(ops: map<OpId, Op>, ops': map<OpId, Op>, c: Change)
    requires RowsGrow(ops, ops') && ChangeOk(ops, c)
    ensures ChangeOk(ops', c)
  {
    if c.writer.Server? {
      var id := c.writer.op;
      assert id in ops && id in ops';
      if ops[id].kind.LibraryUpdate? && ops[id].kind.after.Some? && ops[id].kind.after.value in ops {
        assert ops[id].kind.after.value in ops';
      }
    }
  }

  lemma HistoryStaysOk(s: State, t: State)
    requires HistoryOk(s) && RowsGrow(s.ops, t.ops) && t.store == s.store
    ensures HistoryOk(t)
  {
    forall i | 0 <= i < |t.store.history| ensures ChangeOk(t.ops, t.store.history[i]) {
      ChangeStaysOk(s.ops, t.ops, s.store.history[i]);
    }
  }

  // A step that leaves the rows alone and appends at most one fitting change.
  lemma AppendKeeps(s: State, t: State, c: Change)
    requires Inv(s) && t.ops == s.ops && WellFormed(t.store)
    requires t.store.history == s.store.history + [c]
    requires ChangeOk(s.ops, c)
    requires c.writer.Server? && c.parent.Some? ==>
      && Write(s.store, c).Some?
      && Fence(s.ops, s.ops[c.writer.op], c.writer.part) == c.parent
    ensures HistoryOk(t) && WritesOnce(t.store.history)
  {
    var h, n := s.store.history, |s.store.history|;
    if c.writer.Server? && c.parent.Some? {
      assert IsCurrent(s.store, c.doc);
      forall i | 0 <= i < n ensures !IsUpdate(h[i], c.writer.op, c.writer.part) {
        assert ChangeOk(s.ops, h[i]) && ParentFits(h, i);
      }
    }
  }

  lemma StartKeeps(s: State, id: OpId)
    requires Inv(s) && s.tx.Idle?
    ensures Inv(DoBegin(s, id))
  {
    HistoryStaysOk(s, DoBegin(s, id));
  }

  lemma ServerWriteKeeps(s: State, t: State, part: Part, parent: Option<Rev>, fields: Fields)
    requires Inv(s) && s.tx.Running?
    requires ServerWrite(s, part, parent, fields) == Some(t.store)
    requires t.ops == s.ops && TxOk(t)
    requires parent.Some? ==> part in {Main, Companion} && Fence(s.ops, s.tx.row, part) == parent
    ensures Inv(t)
  {
    var c := Change(Target(s.tx.op, s.tx.row, part), parent, Server(s.tx.op, part), Some(s.tx.op), fields, true);
    ServerWriteExtends(s, part, parent, fields);
    assert Write(s.store, c) == Some(t.store);
    AppendKeeps(s, t, c);
  }

  predicate Reads(pc: Pc) {
    pc.Fetch? || pc.Reread? || pc.CheckNew? || pc.FetchBook? || pc.CheckCommit? || pc.CheckMessage?
  }

  // What a read does to the running transaction.
  ghost predicate TxStep(s: State, t: State) {
    TxOk(t) && t.ops == s.ops && t.store == s.store
  }

  lemma ReadKeepsTx(s: State, accepted: bool)
    requires WellFormed(s.store) && TxOk(s) && s.tx.Running? && Reads(s.tx.pc)
    ensures TxStep(s, DoAdvance(s, accepted))
  {
    match s.tx.pc
    case Fetch => FetchKeepsTx(s, accepted);
    case Reread => RereadKeepsTx(s);
    case CheckNew => CheckNewKeepsTx(s, accepted);
    case FetchBook => FetchBookKeepsTx(s);
    case CheckCommit => CheckKeepsTx(s);
    case CheckMessage => CheckKeepsTx(s);
  }

  lemma RereadKeepsTx(s: State)
    requires WellFormed(s.store) && TxOk(s) && s.tx.Running?
    ensures TxStep(s, DoReread(s))
  {}

  lemma CheckNewKeepsTx(s: State, accepted: bool)
    requires WellFormed(s.store) && TxOk(s) && s.tx.Running?
    ensures TxStep(s, DoCheckNew(s, accepted))
  {}

  lemma FetchBookKeepsTx(s: State)
    requires WellFormed(s.store) && TxOk(s) && s.tx.Running?
    ensures TxStep(s, DoFetchBook(s))
  {}

  lemma CheckKeepsTx(s: State)
    requires WellFormed(s.store) && TxOk(s) && s.tx.Running?
    ensures TxStep(s, DoCheckCommit(s)) && TxStep(s, DoCheckMessage(s))
  {}

  lemma FetchKeepsTx(s: State, accepted: bool)
    requires WellFormed(s.store) && TxOk(s) && s.tx.Running?
    ensures TxStep(s, DoFetch(s, accepted))
  {
    if s.tx.row.kind.LibraryUpdate? { LibraryFetchKeepsTx(s, accepted); } else { RecordFetchKeepsTx(s, accepted); }
  }

  lemma LibraryFetchKeepsTx(s: State, accepted: bool)
    requires WellFormed(s.store) && TxOk(s) && s.tx.Running? && s.tx.row.kind.LibraryUpdate?
    ensures TxStep(s, DoFetch(s, accepted))
  {}

  lemma RecordFetchKeepsTx(s: State, accepted: bool)
    requires WellFormed(s.store) && TxOk(s) && s.tx.Running? && !s.tx.row.kind.LibraryUpdate?
    ensures TxStep(s, DoFetch(s, accepted))
  {
    var row := s.tx.row;
    if row.doc in s.store.current {
      if row.kind.RepairAsset? && row.state == Queued {
      } else if Unpublished(row.state) {
      } else {
      }
    }
  }

  lemma TxOnly(s: State, t: State)
    requires Inv(s) && t.ops == s.ops && t.store == s.store && TxOk(t)
    ensures Inv(t)
  {}

  lemma CommitKeeps(s: State)
    requires Inv(s) && s.tx.Running? && s.tx.pc.Finish?
    ensures Inv(DoAdvance(s, true))
  {
    HistoryStaysOk(s, DoAdvance(s, true));
  }

  lemma UpdateKeeps(s: State)
    requires Inv(s) && s.tx.Running? && (s.tx.pc.UpdateRecord? || s.tx.pc.UpdateBook?)
    ensures Inv(DoAdvance(s, true))
  {
    var t, seen := DoAdvance(s, true), s.tx.pc.seen;
    if seen >= |s.store.history| {
    } else if s.tx.pc.UpdateRecord? {
      var fields := s.store.history[seen].fields + s.tx.row.changes;
      if ServerWrite(s, Main, Some(seen), fields).Some? { ServerWriteKeeps(s, t, Main, Some(seen), fields); }
    } else {
      var fields := s.store.history[seen].fields;
      if ServerWrite(s, Companion, Some(seen), fields).Some? { ServerWriteKeeps(s, t, Companion, Some(seen), fields); }
    }
  }

  lemma CreateKeeps(s: State)
    requires Inv(s) && s.tx.Running?
    requires s.tx.pc.CreateRecord? || s.tx.pc.CreateCommit? || s.tx.pc.CreateMessage?
    ensures Inv(DoAdvance(s, true))
  {
    var t := DoAdvance(s, true);
    var part := if s.tx.pc.CreateRecord? then Main else if s.tx.pc.CreateCommit? then Commit else Message;
    var fields := if s.tx.pc.CreateRecord? then s.tx.row.changes else map[];
    if ServerWrite(s, part, None, fields).Some? { ServerWriteKeeps(s, t, part, None, fields); }
  }

  lemma AdvanceKeeps(s: State, accepted: bool)
    requires Inv(s) && s.tx.Running?
    ensures Inv(DoAdvance(s, accepted))
  {
    if Reads(s.tx.pc) {
      ReadKeepsTx(s, accepted);
      TxOnly(s, DoAdvance(s, accepted));
    } else if s.tx.pc.Finish? {
      CommitKeeps(s);
    } else if s.tx.pc.UpdateRecord? || s.tx.pc.UpdateBook? {
      UpdateKeeps(s);
    } else {
      CreateKeeps(s);
    }
  }

  lemma DeviceKeeps(s: State, e: Event)
    requires Inv(s) && (e.DeviceWrite? || e.DeviceDelete?)
    ensures Inv(Step(s, e))
  {
    StepKeepsStore(s, e);
    var t := Step(s, e);
    if t.store != s.store {
      var c := if e.DeviceWrite? then DeviceChange(s.store, e.doc, e.keepsMarker, e.fields)
               else Change(e.doc, Some(s.store.current[e.doc]), Outside, None, map[], false);
      if c.marker.Some? { assert ChangeOk(s.ops, s.store.history[s.store.current[e.doc]]); }
      AppendKeeps(s, t, c);
    }
  }

  // Rows changed from outside the running transaction.
  lemma RowsKeep(s: State, t: State)
    requires Inv(s) && t.store == s.store && t.tx == s.tx
    requires RowsGrow(s.ops, t.ops) && RowsOk(t.ops)
    requires s.tx.Running? ==> s.tx.op in s.ops && t.ops[s.tx.op] == s.ops[s.tx.op]
                               && Fence(t.ops, s.tx.row, Main) == Fence(s.ops, s.tx.row, Main)
    ensures Inv(t)
  {
    HistoryStaysOk(s, t);
  }

  lemma OneRowKeeps(s: State, id: OpId, op: Op)
    requires Inv(s) && (s.tx.Running? ==> s.tx.op != id) && op.published.None?
    requires !(op.state.RecordPublished? || op.state.CommitPublished?)
    requires id in s.ops ==>
      && Selectable(s.ops[id].state) && op.kind == s.ops[id].kind && op.doc == s.ops[id].doc
      && op.expected == s.ops[id].expected && op.started == s.ops[id].started
    ensures Inv(s.(ops := s.ops[id := op]))
  {
    RowsKeep(s, s.(ops := s.ops[id := op]));
  }

  lemma TableKeeps(s: State, e: Event)
    requires Inv(s) && (e.Enqueue? || e.OwnerCancel? || e.Refuse?)
    ensures Inv(Step(s, e))
  {
    match e
    case Enqueue(id, op) => if Step(s, e) != s { OneRowKeeps(s, id, op); }
    case OwnerCancel(id) => if CanCancel(s, id) { OneRowKeeps(s, id, s.ops[id].(state := Cancelled)); }
    case Refuse(id, _) => if Step(s, e) != s { OneRowKeeps(s, id, Step(s, e).ops[id]); }
  }

  lemma PurgeKeeps(s: State, e: Event)
    requires Inv(s) && (e.RemoveNotebook? || e.ScrubNotebook?)
    ensures Inv(Step(s, e))
  {
    RowsKeep(s, Step(s, e));
  }

  lemma StepKeeps(s: State, e: Event)
    requires Inv(s)
    ensures Inv(Step(s, e))
  {
    match e
    case Begin(id) => if s.tx.Idle? { StartKeeps(s, id); }
    case Advance(accepted) => if s.tx.Running? { AdvanceKeeps(s, accepted); }
    case Abort =>
    case DeviceWrite(_, _, _) => DeviceKeeps(s, e);
    case DeviceDelete(_) => DeviceKeeps(s, e);
    case Enqueue(_, _) => TableKeeps(s, e);
    case OwnerCancel(_) => TableKeeps(s, e);
    case Refuse(_, _) => TableKeeps(s, e);
    case RemoveNotebook(_) => PurgeKeeps(s, e);
    case ScrubNotebook(_) => PurgeKeeps(s, e);
  }

  lemma {:induction false} RunKeeps(es: seq<Event>)
    ensures Inv(Run(es))
    decreases |es|
  {
    if es != [] {
      RunKeeps(es[..|es| - 1]);
      StepKeeps(Run(es[..|es| - 1]), es[|es| - 1]);
    }
  }
}
