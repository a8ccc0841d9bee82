// What a change chained after another one replaces: the revision read back after
// its predecessor's write. Exactly when that is the predecessor's own write.
module PublicationChain {
  import opened Outcomes
  import opened GatewayStore
  import opened Publication
  import opened PublicationSafety
  import opened PublicationTheorems

  // The operations a pending record can be waiting for: its head is a library
  // change or an upload.
  predicate CanPrecede(k: Kind) { Library(k) || k.Upload? }

  // ---- where a marker comes from ----

  // Devices can only hand a marker on; only its operation brings it in.
  ghost predicate MarkFits(h: seq<Change>, i: int)
    requires 0 <= i < |h|
  {
    h[i].marker.Some? ==>
      var x := h[i].marker.value;
      if h[i].writer.Server? then h[i].writer.op == x
      else h[i].parent.Some? && h[i].parent.value < i && h[h[i].parent.value].marker == Some(x)
  }

  ghost predicate MarksFit(h: seq<Change>) { forall i :: 0 <= i < |h| ==> MarkFits(h, i) }

  // The last write of `x` itself in the document's changes from `w` on.
  ghost predicate FromThen(h: seq<Change>, x: OpId, doc: DocId, w: nat, to: nat) {
    && w < to <= |h| && h[w].doc == doc && h[w].writer.Server? && h[w].writer.op == x
    && (forall k :: w < k < to && h[k].doc == doc ==> h[k].writer == Outside)
  }

  lemma {:induction false} Origin(s: Store, i: nat, x: OpId) returns (w: nat)
    requires WellFormed(s) && MarksFit(s.history) && i < |s.history| && s.history[i].marker == Some(x)
    ensures w <= i && FromThen(s.history, x, s.history[i].doc, w, i + 1)
    decreases i
  {
    assert MarkFits(s.history, i);
    if s.history[i].writer.Server? {
      w := i;
    } else {
      assert ParentFits(s.history, i);
      w := Origin(s, s.history[i].parent.value, x);
    }
  }

  // ---- the stages of a transaction ----

  predicate StateFits(op: Op) { op.state == AssetsPublished ==> op.kind.RepairAsset? }

  predicate PcFits(t: Tx) {
    t.Running? ==>
      && StateFits(t.row)
      && (t.row.kind.Upload? ==> !t.pc.UpdateRecord? && (t.pc.Fetch? ==> t.row.state == RecordPublished))
      && (t.row.kind.LibraryCreate? ==> !t.pc.Fetch? && !t.pc.UpdateRecord?)
      && (Library(t.row.kind) && t.pc.Fetch? ==> t.row.state == Queued)
      && (t.row.kind.Upload? && (t.pc.Reread? || t.pc.CheckNew? || t.pc.CreateRecord?) ==> t.row.state == Queued)
      && (t.pc.UpdateRecord? ==> Unpublished(t.row.state) && (t.row.kind.RepairAsset? ==> t.row.state != Queued))
      && (t.pc.FetchBook? || t.pc.UpdateBook? ==> t.row.kind.ReaderRestore? && t.row.kind.book.Some?)
      && (t.pc.Reread? || t.pc.CheckNew? || t.pc.CreateRecord? ==> CanPrecede(t.row.kind))
  }

  // Until its record is published a transaction has the committed state.
  ghost predicate RowFits(s: State) {
    s.tx.Running? ==>
      s.tx.op in s.ops && (Unpublished(s.tx.row.state) && !s.tx.pc.Finish? ==> s.tx.row.state == s.ops[s.tx.op].state)
  }

  // Only a restored reader record touches a book, and a repair is not queued any
  // more once it has written its record.
  ghost predicate WriterFits(ops: map<OpId, Op>, c: Change) {
    c.writer.Server? && c.writer.op in ops ==>
      && (c.writer.part == Companion ==> ops[c.writer.op].kind.ReaderRestore?)
      && (c.writer.part == Main && ops[c.writer.op].kind.RepairAsset? ==> ops[c.writer.op].state != Queued)
  }

  ghost predicate WritersFit(s: State) {
    forall i :: 0 <= i < |s.store.history| ==> WriterFits(s.ops, s.store.history[i])
  }

  // Before the read-back, the operation's own write is in the record's history
  // and only devices have changed the record since.
  ghost predicate Sourced(h: seq<Change>, x: OpId, doc: DocId) {
    exists w: nat :: FromThen(h, x, doc, w, |h|) && h[w].writer == Server(x, Main)
  }

  ghost predicate Awaiting(s: State) {
    s.tx.Running? && s.tx.pc.Reread? && s.tx.row.state == Queued ==>
      Sourced(s.store.history, s.tx.op, s.tx.row.doc)
  }

  ghost predicate Traced(s: State) {
    && MarksFit(s.store.history) && WritersFit(s) && PcFits(s.tx) && RowFits(s) && Awaiting(s)
    && (forall id <- s.ops :: StateFits(s.ops[id]) && s.ops[id].doc.Record?)
  }

  // ---- they are kept ----

  lemma FetchStages(s: State, accepted: bool)
    requires WellFormed(s.store) && s.tx.Running? && s.tx.pc.Fetch? && PcFits(s.tx) && RowFits(s)
    ensures var t := DoFetch(s, accepted);
            && PcFits(t.tx) && RowFits(t)
            && (t.tx.Running? && t.tx.pc.Reread? ==> Carries(s.store, s.tx.row.doc, s.tx.op))
  {
    var row := s.tx.row;
    if row.doc in s.store.current {
      assert IsCurrent(s.store, row.doc);
      if row.kind.LibraryUpdate? {
      } else if row.kind.RepairAsset? && row.state == Queued {
      } else if Unpublished(row.state) {
      } else {
      }
    }
  }

  lemma CheckNewStages(s: State, accepted: bool)
    requires WellFormed(s.store) && s.tx.Running? && s.tx.pc.CheckNew? && PcFits(s.tx) && RowFits(s)
    ensures var t := DoCheckNew(s, accepted);
            && PcFits(t.tx) && RowFits(t)
            && (t.tx.Running? && t.tx.pc.Reread? ==> Carries(s.store, s.tx.row.doc, s.tx.op))
  {
    if s.tx.row.doc in s.store.current { assert IsCurrent(s.store, s.tx.row.doc); }
  }

  lemma RereadStages(s: State)
    requires WellFormed(s.store) && s.tx.Running? && s.tx.pc.Reread? && PcFits(s.tx) && RowFits(s)
    ensures var t := DoReread(s); PcFits(t.tx) && RowFits(t) && (t.tx.Running? ==> !t.tx.pc.Reread?)
  {}

  predicate LatePc(pc: Pc) {
    pc.FetchBook? || pc.CheckCommit? || pc.CheckMessage? || pc.UpdateBook? || pc.CreateCommit? || pc.CreateMessage?
  }

  lemma LateReadStages(s: State)
    requires WellFormed(s.store) && s.tx.Running? && PcFits(s.tx) && RowFits(s)
    ensures s.tx.pc.FetchBook? ==> PcFits(DoFetchBook(s).tx) && RowFits(DoFetchBook(s))
    ensures s.tx.pc.CheckCommit? ==> PcFits(DoCheckCommit(s).tx) && RowFits(DoCheckCommit(s))
    ensures s.tx.pc.CheckMessage? ==> PcFits(DoCheckMessage(s).tx) && RowFits(DoCheckMessage(s))
  {}

  lemma LateStages(s: State, accepted: bool)
    requires WellFormed(s.store) && s.tx.Running? && LatePc(s.tx.pc) && PcFits(s.tx) && RowFits(s)
    ensures var t := DoAdvance(s, accepted);
            PcFits(t.tx) && RowFits(t) && (t.tx.Running? ==> !t.tx.pc.Reread?)
  {
    LateReadStages(s);
  }

  lemma RecordStages(s: State, accepted: bool)
    requires WellFormed(s.store) && s.tx.Running? && PcFits(s.tx) && RowFits(s)
    requires s.tx.pc.UpdateRecord? || s.tx.pc.CreateRecord?
    ensures var t := DoAdvance(s, accepted); PcFits(t.tx) && RowFits(t)
  {}

  // A record that carries the marker is sourced in the operation's own write.
  lemma CarriedIsSourced(s: State)
    requires Inv(s) && Traced(s) && s.tx.Running? && CanPrecede(s.tx.row.kind)
    requires Carries(s.store, s.tx.row.doc, s.tx.op)
    ensures Sourced(s.store.history, s.tx.op, s.tx.row.doc)
  {
    var x, doc, h := s.tx.op, s.tx.row.doc, s.store.history;
    assert IsCurrent(s.store, doc);
    var w := Origin(s.store, s.store.current[doc], x);
    assert ChangeOk(s.ops, h[w]) && WriterFits(s.ops, h[w]);
    assert FromThen(h, x, doc, w, |h|);
  }

  lemma DeviceTraces(s: State, e: Event)
    requires Inv(s) && Traced(s) && (e.DeviceWrite? || e.DeviceDelete?)
    ensures Traced(Step(s, e))
  {
    var t := Step(s, e);
    if t.store != s.store {
      var c := if e.DeviceWrite? then DeviceChange(s.store, e.doc, e.keepsMarker, e.fields)
               else Change(e.doc, Some(s.store.current[e.doc]), Outside, None, map[], false);
      if e.doc in s.store.current { assert IsCurrent(s.store, e.doc); }
      OutsideTraces(s, t, c);
    }
  }

  lemma OutsideTraces(s: State, t: State, c: Change)
    requires Traced(s) && t.ops == s.ops && t.tx == s.tx && t.store.history == s.store.history + [c]
    requires c.writer == Outside && MarkFits(s.store.history + [c], |s.store.history|)
    ensures Traced(t)
  {
    var h := s.store.history;
    forall i | 0 <= i < |t.store.history| ensures MarkFits(t.store.history, i) && WriterFits(t.ops, t.store.history[i]) {
      if i < |h| { assert MarkFits(h, i) && WriterFits(s.ops, h[i]); }
    }
    if s.tx.Running? && s.tx.pc.Reread? && s.tx.row.state == Queued {
      var w: nat :| FromThen(h, s.tx.op, s.tx.row.doc, w, |h|) && h[w].writer == Server(s.tx.op, Main);
      assert FromThen(t.store.history, s.tx.op, s.tx.row.doc, w, |t.store.history|);
    }
  }

  // A write of the running operation.
  lemma ServerTraces(s: State, t: State, c: Change)
    requires Traced(s) && s.tx.Running? && t.ops == s.ops && t.store.history == s.store.history + [c]
    requires c.writer.Server? && c.writer.op == s.tx.op && c.marker == Some(s.tx.op) && WriterFits(s.ops, c)
    requires PcFits(t.tx) && RowFits(t) && (t.tx.Running? && t.tx.pc.Reread? && t.tx.row.state == Queued ==>
               c.writer.part == Main && c.doc == t.tx.row.doc && t.tx.op == s.tx.op)
    ensures Traced(t)
  {
    var h, n := s.store.history, |s.store.history|;
    forall i | 0 <= i < |t.store.history| ensures MarkFits(t.store.history, i) && WriterFits(t.ops, t.store.history[i]) {
      if i < n { assert MarkFits(h, i) && WriterFits(s.ops, h[i]); }
    }
    if t.tx.Running? && t.tx.pc.Reread? && t.tx.row.state == Queued {
      assert FromThen(t.store.history, t.tx.op, t.tx.row.doc, n, n + 1);
    }
  }

  // What a write step of the running operation did.
  ghost predicate OneWrite(s: State, t: State) {
    && t.ops == s.ops && s.tx.Running?
    && (t.store == s.store || (
          && |t.store.history| == |s.store.history| + 1
          && var c := t.store.history[|s.store.history|];
             && t.store.history == s.store.history + [c]
             && c.writer.Server? && c.writer.op == s.tx.op && c.marker == Some(s.tx.op) && WriterFits(s.ops, c)
             && (t.tx.Running? && t.tx.pc.Reread? ==>
                   c.writer.part == Main && c.doc == t.tx.row.doc && t.tx.op == s.tx.op)))
    && (t.store == s.store ==> t.tx.Idle?)
  }

  lemma RecordWrites(s: State, accepted: bool)
    requires Inv(s) && Traced(s) && s.tx.Running? && (s.tx.pc.UpdateRecord? || s.tx.pc.CreateRecord?)
    ensures OneWrite(s, DoAdvance(s, accepted))
  {
    var id := s.tx.op;
    assert s.ops[id].kind == s.tx.row.kind;
    assert s.tx.pc.CreateRecord? ==> !s.tx.row.kind.RepairAsset?;
  }

  lemma LateWrites(s: State, accepted: bool)
    requires Inv(s) && Traced(s) && s.tx.Running?
    requires s.tx.pc.UpdateBook? || s.tx.pc.CreateCommit? || s.tx.pc.CreateMessage?
    ensures OneWrite(s, DoAdvance(s, accepted))
  {
    assert s.ops[s.tx.op].kind == s.tx.row.kind;
  }

  lemma WriteTraces(s: State, accepted: bool)
    requires Inv(s) && Traced(s) && s.tx.Running? && !Reads(s.tx.pc) && !s.tx.pc.Finish?
    ensures Traced(DoAdvance(s, accepted))
  {
    var t := DoAdvance(s, accepted);
    if LatePc(s.tx.pc) {
      LateStages(s, accepted);
      LateWrites(s, accepted);
    } else {
      RecordStages(s, accepted);
      RecordWrites(s, accepted);
    }
    if t.store != s.store { ServerTraces(s, t, t.store.history[|s.store.history|]); }
  }

  lemma AdvanceTraces(s: State, accepted: bool)
    requires Inv(s) && Traced(s) && s.tx.Running?
    ensures Traced(DoAdvance(s, accepted))
  {
    match s.tx.pc
    case Fetch =>
      FetchStages(s, accepted);
      ReadKeepsTx(s, accepted);
      if Carries(s.store, s.tx.row.doc, s.tx.op) && CanPrecede(s.tx.row.kind) { CarriedIsSourced(s); }
    case CheckNew =>
      CheckNewStages(s, accepted);
      ReadKeepsTx(s, accepted);
      if Carries(s.store, s.tx.row.doc, s.tx.op) { CarriedIsSourced(s); }
    case Reread =>
      RereadStages(s);
      ReadKeepsTx(s, accepted);
    case Finish => FinishTraces(s, accepted);
    case _ =>
      if Reads(s.tx.pc) {
        LateStages(s, accepted);
        ReadKeepsTx(s, accepted);
      } else {
        WriteTraces(s, accepted);
      }
  }

  lemma FinishTraces(s: State, accepted: bool)
    requires Inv(s) && Traced(s) && s.tx.Running? && s.tx.pc.Finish?
    ensures Traced(DoAdvance(s, accepted))
  {
    var t := DoAdvance(s, accepted);
    forall i | 0 <= i < |t.store.history| ensures WriterFits(t.ops, t.store.history[i]) {
      assert WriterFits(s.ops, s.store.history[i]);
    }
  }

  // Rows that change outside a transaction do not become queued again.
  lemma RowsTrace(s: State, t: State)
    requires Traced(s) && t.store == s.store && t.tx == s.tx
    requires forall id <- s.ops :: id in t.ops && t.ops[id].kind == s.ops[id].kind
                                   && (t.ops[id].state == Queued ==> s.ops[id].state == Queued)
    requires forall id <- t.ops :: StateFits(t.ops[id]) && t.ops[id].doc.Record?
    requires forall id <- t.ops :: id !in s.ops ==> forall c <- s.store.history :: !(c.writer.Server? && c.writer.op == id)
    requires s.tx.Running? ==> s.tx.op in t.ops && t.ops[s.tx.op] == s.ops[s.tx.op]
    ensures Traced(t)
  {
    forall i | 0 <= i < |t.store.history| ensures WriterFits(t.ops, t.store.history[i]) {
      assert WriterFits(s.ops, s.store.history[i]) && s.store.history[i] in s.store.history;
    }
  }

  lemma TableTraces(s: State, e: Event)
    requires Inv(s) && Traced(s)
    requires e.Enqueue? || e.OwnerCancel? || e.Refuse? || e.RemoveNotebook? || e.ScrubNotebook?
    ensures Traced(Step(s, e))
  {
    forall c <- s.store.history | c.writer.Server? ensures c.writer.op in s.ops {
      var i :| 0 <= i < |s.store.history| && s.store.history[i] == c;
      assert ChangeOk(s.ops, s.store.history[i]);
    }
    RowsTrace(s, Step(s, e));
  }

  lemma BeginTraces(s: State, id: OpId)
    requires Inv(s) && Traced(s) && s.tx.Idle?
    ensures Traced(DoBegin(s, id))
  {
    var t := DoBegin(s, id);
    forall i | 0 <= i < |t.store.history| ensures WriterFits(t.ops, t.store.history[i]) {
      assert WriterFits(s.ops, s.store.history[i]);
    }
  }

  lemma StepTraces(s: State, e: Event)
    requires Inv(s) && Traced(s)
    ensures Traced(Step(s, e))
  {
    match e
    case Begin(id) => if s.tx.Idle? { BeginTraces(s, id); }
    case Advance(accepted) => if s.tx.Running? { AdvanceTraces(s, accepted); }
    case Abort =>
    case DeviceWrite(_, _, _) => DeviceTraces(s, e);
    case DeviceDelete(_) => DeviceTraces(s, e);
    case _ => TableTraces(s, e);
  }

  lemma {:induction false} RunTraces(es: seq<Event>)
    ensures Traced(Run(es))
    decreases |es|
  {
    if es != [] {
      RunKeeps(es[..|es| - 1]);
      RunTraces(es[..|es| - 1]);
      StepTraces(Run(es[..|es| - 1]), es[|es| - 1]);
    }
  }

  // ---- the revision on record ----

  // Step `m` read the record back for the operation and found revision `r`.
  ghost predicate ReadBackAt(es: seq<Event>, m: nat, id: OpId, r: Rev) {
    && m < |es| && es[m].Advance?
    && var s := Run(es[..m]);
       && s.tx.Running? && s.tx.op == id && s.tx.pc.Reread? && s.tx.row.state == Queued
       && s.tx.row.doc in s.store.current && s.store.current[s.tx.row.doc] == r
  }

  lemma AdvanceRecords(s: State, accepted: bool)
    requires WellFormed(s.store) && s.tx.Running? && PcFits(s.tx) && CanPrecede(s.tx.row.kind)
    ensures var t := DoAdvance(s, accepted).tx;
            t.Running? ==>
              && t.op == s.tx.op && t.row.kind == s.tx.row.kind && t.row.doc == s.tx.row.doc
              && (t.row.published == s.tx.row.published
                  || (s.tx.pc.Reread? && s.tx.row.state == Queued && s.tx.row.doc in s.store.current
                      && t.row.published == Some(s.store.current[s.tx.row.doc])))
  {
    match s.tx.pc
    case Fetch => FetchRecords(s, accepted);
    case _ =>
  }

  lemma FetchRecords(s: State, accepted: bool)
    requires WellFormed(s.store) && s.tx.Running? && PcFits(s.tx) && CanPrecede(s.tx.row.kind) && s.tx.pc.Fetch?
    ensures var t := DoFetch(s, accepted).tx;
            t.Running? ==> t.op == s.tx.op && t.row.kind == s.tx.row.kind && t.row.doc == s.tx.row.doc
                           && t.row.published == s.tx.row.published
  {}

  lemma ReadBackEarlier(es: seq<Event>, m: nat, id: OpId, r: Rev)
    requires es != [] && ReadBackAt(es[..|es| - 1], m, id, r)
    ensures ReadBackAt(es, m, id, r)
  {
    assert es[..|es| - 1][..m] == es[..m];
  }

  // What the last step did for the running row's published revision.
  lemma LastRecords(es: seq<Event>)
    requires es != []
    requires var t := Run(es).tx; t.Running? && CanPrecede(t.row.kind) && t.row.published.Some?
    ensures var s, t := Run(es[..|es| - 1]).tx, Run(es).tx;
            || (s.Running? && s.op == t.op && s.row.kind == t.row.kind && s.row.published == t.row.published)
            || ReadBackAt(es, |es| - 1, t.op, t.row.published.value)
  {
    var before, e := es[..|es| - 1], es[|es| - 1];
    RunKeeps(before);
    RunTraces(before);
    RecordStep(Run(before), e);
  }

  lemma RecordStep(s: State, e: Event)
    requires Inv(s) && PcFits(s.tx)
    requires var t := Step(s, e).tx; t.Running? && CanPrecede(t.row.kind) && t.row.published.Some?
    ensures var t := Step(s, e).tx;
            s.tx.Running? && s.tx.op == t.op && s.tx.row.kind == t.row.kind
            && (t.row.published == s.tx.row.published
                || (e.Advance? && s.tx.pc.Reread? && s.tx.row.state == Queued && s.tx.row.doc in s.store.current
                    && t.row.published == Some(s.store.current[s.tx.row.doc])))
  {
    if e.Advance? && s.tx.Running? {
      assert SamePlan(s.ops[s.tx.op], s.tx.row);
      AdvanceKeeps(s, e.accepted);
      AdvanceKind(s, e.accepted);
      AdvanceRecords(s, e.accepted);
    }
  }

  lemma AdvanceKind(s: State, accepted: bool)
    requires Inv(s) && s.tx.Running?
    ensures DoAdvance(s, accepted).tx.Running? ==>
              DoAdvance(s, accepted).tx.op == s.tx.op && DoAdvance(s, accepted).tx.row.kind == s.tx.row.kind
  {
    var t := DoAdvance(s, accepted);
    AdvanceKeeps(s, accepted);
    AdvanceRows(s, accepted);
    AdvanceOp(s, accepted);
  }

  lemma AdvanceOp(s: State, accepted: bool)
    requires WellFormed(s.store) && s.tx.Running?
    ensures DoAdvance(s, accepted).tx.Running? ==> DoAdvance(s, accepted).tx.op == s.tx.op && !s.tx.pc.Finish?
  {}

  lemma {:induction false} RowWasReadBack(es: seq<Event>)
    requires var t := Run(es).tx; t.Running? && CanPrecede(t.row.kind) && t.row.published.Some?
    ensures var t := Run(es).tx; exists m: nat :: ReadBackAt(es, m, t.op, t.row.published.value)
    decreases |es|
  {
    var before, t := es[..|es| - 1], Run(es).tx;
    LastRecords(es);
    if !ReadBackAt(es, |es| - 1, t.op, t.row.published.value) {
      RowWasReadBack(before);
      var m: nat :| ReadBackAt(before, m, t.op, t.row.published.value);
      ReadBackEarlier(es, m, t.op, t.row.published.value);
    }
  }

  lemma PlanStays(s: State, e: Event, id: OpId)
    requires Inv(s) && id in s.ops
    ensures var t := Step(s, e); id in t.ops && t.ops[id].kind == s.ops[id].kind && t.ops[id].doc == s.ops[id].doc
  {
    if e.Advance? && s.tx.Running? { AdvanceRows(s, e.accepted); }
  }

  lemma {:induction false} PlansStay(es: seq<Event>, n: nat, id: OpId)
    requires n <= |es| && id in Run(es[..n]).ops
    ensures id in Run(es).ops
    ensures Run(es).ops[id].kind == Run(es[..n]).ops[id].kind && Run(es).ops[id].doc == Run(es[..n]).ops[id].doc
    decreases |es|
  {
    if n == |es| {
      assert es[..n] == es;
    } else {
      var before := es[..|es| - 1];
      assert before[..n] == es[..n];
      PlansStay(before, n, id);
      RunKeeps(before);
      PlanStays(Run(before), es[|es| - 1], id);
    }
  }

  // A row gets its published revision only when its transaction commits.
  lemma PublishedBy(s: State, e: Event, id: OpId)
    requires Inv(s) && id in Step(s, e).ops && Step(s, e).ops[id].published.Some?
    ensures (id in s.ops && s.ops[id].published == Step(s, e).ops[id].published)
            || (s.tx.Running? && s.tx.op == id && s.tx.row.published == Step(s, e).ops[id].published
                && s.tx.row.kind == Step(s, e).ops[id].kind)
  {
    if e.Advance? && s.tx.Running? { AdvanceRows(s, e.accepted); }
  }

  lemma {:induction false} PublishedWasReadBack(es: seq<Event>, id: OpId)
    requires id in Run(es).ops && Run(es).ops[id].published.Some? && CanPrecede(Run(es).ops[id].kind)
    ensures exists m: nat :: ReadBackAt(es, m, id, Run(es).ops[id].published.value)
    decreases |es|
  {
    var before, r := es[..|es| - 1], Run(es).ops[id].published.value;
    var s := Run(before);
    RunKeeps(before);
    PublishedBy(s, es[|es| - 1], id);
    if id in s.ops && s.ops[id].published == Some(r) {
      PlanStays(s, es[|es| - 1], id);
      PublishedWasReadBack(before, id);
    } else {
      RowWasReadBack(before);
    }
    var m: nat :| ReadBackAt(before, m, id, r);
    ReadBackEarlier(es, m, id, r);
  }

  // ---- what the chain replaces ----

  // Nobody but the server has changed the document since the operation's own
  // last write of it.
  ghost predicate Undisturbed(h: seq<Change>, id: OpId, doc: DocId) {
    exists w :: 0 <= w < |h| && h[w].writer == Server(id, Main) && h[w].doc == doc
                && forall k :: w < k < |h| && h[k].doc == doc ==> h[k].writer != Outside
  }

  lemma ReadBackIff(es: seq<Event>, m: nat, id: OpId, r: Rev)
    requires ReadBackAt(es, m, id, r)
    ensures var s := Run(es[..m]);
            && r < |s.store.history| && s.store.history[r].doc == s.tx.row.doc
            && (s.store.history[r].writer == Server(id, Main) || s.store.history[r].writer == Outside)
            && (s.store.history[r].writer == Server(id, Main)
                <==> Undisturbed(s.store.history, id, s.tx.row.doc))
  {
    var s := Run(es[..m]);
    RunKeeps(es[..m]);
    RunTraces(es[..m]);
    ReadIff(s);
  }

  lemma ReadIff(s: State)
    requires WellFormed(s.store) && Awaiting(s) && s.tx.Running? && s.tx.pc.Reread? && s.tx.row.state == Queued
    requires s.tx.row.doc in s.store.current
    ensures var h, r, id := s.store.history, s.store.current[s.tx.row.doc], s.tx.op;
            && r < |h| && h[r].doc == s.tx.row.doc
            && (h[r].writer == Server(id, Main) || h[r].writer == Outside)
            && (h[r].writer == Server(id, Main) <==> Undisturbed(h, id, s.tx.row.doc))
  {
    var h, id, doc := s.store.history, s.tx.op, s.tx.row.doc;
    var r := s.store.current[doc];
    assert IsCurrent(s.store, doc);
    var w: nat :| FromThen(h, id, doc, w, |h|) && h[w].writer == Server(id, Main);
    assert w <= r;
    if Undisturbed(h, id, doc) {
      var v :| 0 <= v < |h| && h[v].writer == Server(id, Main) && h[v].doc == doc
               && forall k :: v < k < |h| && h[k].doc == doc ==> h[k].writer != Outside;
      assert v <= w;
      assert r == w;
    }
  }

  lemma {:induction false} HistoryGrows(es: seq<Event>, n: nat)
    requires n <= |es|
    ensures Run(es[..n]).store.history <= Run(es).store.history
    decreases |es|
  {
    if n == |es| {
      assert es[..n] == es;
    } else {
      var before := es[..|es| - 1];
      assert before[..n] == es[..n];
      HistoryGrows(before, n);
      StepKeepsStore(Run(before), es[|es| - 1]);
    }
  }

  // The step that made a change of the history.
  lemma {:induction false} MadeAt(es: seq<Event>, i: nat) returns (j: nat)
    requires i < |Run(es).store.history|
    ensures j < |es| && |Run(es[..j]).store.history| == i
    ensures var t := Step(Run(es[..j]), es[j]);
            |t.store.history| == i + 1 && t.store.history[i] == Run(es).store.history[i]
    decreases |es|
  {
    var before := es[..|es| - 1];
    if i < |Run(before).store.history| {
      j := MadeAt(before, i);
      assert before[..j] == es[..j];
      LastKeepsChange(es, i);
    } else {
      LastMakesChange(es, i);
      j := |before|;
    }
  }

  lemma LastKeepsChange(es: seq<Event>, i: nat)
    requires es != [] && i < |Run(es[..|es| - 1]).store.history|
    ensures i < |Run(es).store.history| && Run(es[..|es| - 1]).store.history[i] == Run(es).store.history[i]
  {
    StepKeepsStore(Run(es[..|es| - 1]), es[|es| - 1]);
  }

  lemma LastMakesChange(es: seq<Event>, i: nat)
    requires es != [] && |Run(es[..|es| - 1]).store.history| <= i < |Run(es).store.history|
    ensures |Run(es[..|es| - 1]).store.history| == i && |Run(es).store.history| == i + 1
  {
    StepKeepsStore(Run(es[..|es| - 1]), es[|es| - 1]);
  }

  // The fence of a chained write is what its predecessor has on record then.
  lemma ChainedFence(es: seq<Event>, i: nat, id: OpId, pred: OpId) returns (j: nat)
    requires i < |Run(es).store.history| && IsUpdate(Run(es).store.history[i], id, Main)
    requires id in Run(es).ops && Run(es).ops[id].kind == LibraryUpdate(Some(pred))
    ensures j < |es| && var ops := Run(es[..j]).ops;
            pred in ops && ops[pred].published == Run(es).store.history[i].parent
  {
    j := MadeAt(es, i);
    var s := Run(es[..j]);
    UpdateReplacesItsFence(es[..j], es[j]);
    var t := Step(s, es[j]);
    var c :| OneMore(s, t, c);
    assert c == t.store.history[i];
    PlansStay(es, j, id);
  }

  // Over every run: the revision a chained library change replaces is the one
  // read back for its predecessor. That is the predecessor's own write if and
  // only if nobody had changed the record between that write and the read-back;
  // otherwise it is a device's revision, whatever became of the marker and
  // however the predecessor ended.
  lemma ChainReplacesPredecessorIff(es: seq<Event>, i: nat, id: OpId, pred: OpId)
    requires i < |Run(es).store.history| && IsUpdate(Run(es).store.history[i], id, Main)
    requires id in Run(es).ops && Run(es).ops[id].kind == LibraryUpdate(Some(pred))
    requires pred in Run(es).ops && CanPrecede(Run(es).ops[pred].kind)
    ensures var p := Run(es).store.history[i].parent.value;
            && (exists m: nat :: ReadBackAt(es, m, pred, p))
            && (forall m: nat :: ReadBackAt(es, m, pred, p) ==> ChainIff(es, m, i, pred))
  {
    var p := Run(es).store.history[i].parent.value;
    var n := ChainedReadBack(es, i, id, pred);
    forall m: nat | ReadBackAt(es, m, pred, p) ensures ChainIff(es, m, i, pred) {
      ChainIffHolds(es, m, i, pred, p);
    }
  }

  lemma ChainIffHolds(es: seq<Event>, m: nat, i: nat, pred: OpId, p: Rev)
    requires i < |Run(es).store.history| && Run(es).store.history[i].parent == Some(p) && ReadBackAt(es, m, pred, p)
    ensures ChainIff(es, m, i, pred)
  {
    RunKeeps(es);
    assert ParentFits(Run(es).store.history, i);
    ReadBackIff(es, m, pred, p);
    HistoryGrows(es, m);
    assert Run(es[..m]).store.history[p] == Run(es).store.history[p];
  }

  // Change `i` against the history that the read-back at step `m` found.
  ghost predicate ChainIff(es: seq<Event>, m: nat, i: nat, pred: OpId)
    requires i < |Run(es).store.history| && m <= |es|
  {
    var h := Run(es).store.history;
    && h[i].parent.Some? && h[i].parent.value < i
    && var p := h[i].parent.value;
       && h[p].doc == h[i].doc && (h[p].writer == Server(pred, Main) || h[p].writer == Outside)
       && (h[p].writer == Server(pred, Main) <==> Undisturbed(Run(es[..m]).store.history, pred, h[i].doc))
  }

  lemma ChainedReadBack(es: seq<Event>, i: nat, id: OpId, pred: OpId) returns (m: nat)
    requires i < |Run(es).store.history| && IsUpdate(Run(es).store.history[i], id, Main)
    requires id in Run(es).ops && Run(es).ops[id].kind == LibraryUpdate(Some(pred))
    requires pred in Run(es).ops && CanPrecede(Run(es).ops[pred].kind)
    ensures ReadBackAt(es, m, pred, Run(es).store.history[i].parent.value)
  {
    var p := Run(es).store.history[i].parent.value;
    var j := ChainedFence(es, i, id, pred);
    PlansStay(es, j, pred);
    PublishedWasReadBack(es[..j], pred);
    m :| ReadBackAt(es[..j], m, pred, p);
    assert es[..j][..m] == es[..m];
  }
}
