// The publication protocol's guarantees, over every run.
module PublicationTheorems {
  import opened Outcomes
  import opened GatewayStore
  import opened Publication
  import opened PublicationSafety

  // An operation updates each of its records at most once.
  lemma UpdatesAtMostOnce(es: seq<Event>, i: nat, j: nat, id: OpId, part: Part)
    requires i < |Run(es).store.history| && j < |Run(es).store.history|
    requires IsUpdate(Run(es).store.history[i], id, part) && IsUpdate(Run(es).store.history[j], id, part)
    ensures i == j
  {
    RunKeeps(es);
  }

  // A server write comes from an operation whose start marker is committed and
  // that is still open. An update replaces exactly the operation's fence, and
  // changes nothing but the planned fields of that revision.
  ghost predicate Lawful(s: State, c: Change) {
    c.writer.Server? ==>
      var id, part := c.writer.op, c.writer.part;
      && id in s.ops && s.ops[id].started && Selectable(s.ops[id].state)
      && (c.parent.Some? ==>
        && Fence(s.ops, s.ops[id], part) == c.parent
        && c.doc in s.store.current && c.parent == Some(s.store.current[c.doc])
        && c.parent.value < |s.store.history|
        && c.fields == s.store.history[c.parent.value].fields
                       + (if part.Main? then s.ops[id].changes else map[]))
  }

  ghost predicate OneMore(s: State, t: State, c: Change) {
    t.store.history == s.store.history + [c] && Lawful(s, c)
  }

  lemma UpdateIsFenced(s: State)
    requires Inv(s) && s.tx.Running? && (s.tx.pc.UpdateRecord? || s.tx.pc.UpdateBook?)
    requires DoAdvance(s, true).store != s.store
    ensures exists c :: OneMore(s, DoAdvance(s, true), c)
  {
    var seen := s.tx.pc.seen;
    var part := if s.tx.pc.UpdateRecord? then Main else Companion;
    var fields := s.store.history[seen].fields + (if part.Main? then s.tx.row.changes else map[]);
    assert part.Companion? ==> fields == s.store.history[seen].fields;
    var c := Change(Target(s.tx.op, s.tx.row, part), Some(seen), Server(s.tx.op, part), Some(s.tx.op), fields, true);
    assert Write(s.store, c) == Some(DoAdvance(s, true).store);
    assert OneMore(s, DoAdvance(s, true), c);
  }

  lemma CreateIsOneChange(s: State)
    requires Inv(s) && s.tx.Running?
    requires s.tx.pc.CreateRecord? || s.tx.pc.CreateCommit? || s.tx.pc.CreateMessage?
    requires DoAdvance(s, true).store != s.store
    ensures exists c :: OneMore(s, DoAdvance(s, true), c) && c.parent.None?
  {
    var part := if s.tx.pc.CreateRecord? then Main else if s.tx.pc.CreateCommit? then Commit else Message;
    var fields := if s.tx.pc.CreateRecord? then s.tx.row.changes else map[];
    var c := Change(Target(s.tx.op, s.tx.row, part), None, Server(s.tx.op, part), Some(s.tx.op), fields, true);
    assert Write(s.store, c) == Some(DoAdvance(s, true).store);
    assert OneMore(s, DoAdvance(s, true), c);
  }

  lemma DeviceIsOneChange(s: State, e: Event)
    requires WellFormed(s.store) && (e.DeviceWrite? || e.DeviceDelete?) && Step(s, e).store != s.store
    ensures exists c :: OneMore(s, Step(s, e), c) && c.writer.Outside?
  {
    var c := if e.DeviceWrite? then DeviceChange(s.store, e.doc, e.keepsMarker, e.fields)
             else Change(e.doc, Some(s.store.current[e.doc]), Outside, None, map[], false);
    assert OneMore(s, Step(s, e), c);
  }

  // Whatever step changes the Gateway adds one lawful change to it.
  lemma UpdateReplacesItsFence(es: seq<Event>, e: Event)
    ensures var s, t := Run(es), Step(Run(es), e);
            t.store != s.store ==> exists c :: OneMore(s, t, c)
  {
    var s := Run(es);
    RunKeeps(es);
    if Step(s, e).store == s.store {
    } else if e.Advance? {
      if Reads(s.tx.pc) {
        ReadKeepsTx(s, e.accepted);
      } else if s.tx.pc.UpdateRecord? || s.tx.pc.UpdateBook? {
        UpdateIsFenced(s);
      } else if !s.tx.pc.Finish? {
        CreateIsOneChange(s);
      }
    } else {
      DeviceIsOneChange(s, e);
    }
  }

  // Whatever an operation creates, it creates again only if that document was
  // deleted in between.
  lemma CreatesAgainOnlyAfterDeletion(es: seq<Event>, i: nat, j: nat, id: OpId, part: Part)
    requires i < j < |Run(es).store.history|
    requires Run(es).store.history[i].writer == Run(es).store.history[j].writer == Server(id, part)
    requires Run(es).store.history[j].parent.None?
    ensures DeletedSince(Run(es).store.history, Run(es).store.history[j].doc, i, j)
  {
    RunKeeps(es);
    var h := Run(es).store.history;
    assert ChangeOk(Run(es).ops, h[i]) && ChangeOk(Run(es).ops, h[j]);
    assert ParentFits(h, j);
  }

  // Every Gateway write of an operation follows its committed start marker.
  lemma WritesFollowStartMarker(es: seq<Event>, e: Event)
    ensures var s, t := Run(es), Step(Run(es), e);
            t.store != s.store ==>
              && |t.store.history| == |s.store.history| + 1
              && var w := t.store.history[|s.store.history|].writer;
                 w.Server? ==> w.op in s.ops && s.ops[w.op].started
  {
    UpdateReplacesItsFence(es, e);
  }

  // Neither a write of the operation nor its marker anywhere in the history.
  ghost predicate NoTrace(s: State, id: OpId) {
    forall c <- s.store.history :: c.marker != Some(id) && !(c.writer.Server? && c.writer.op == id)
  }

  // An owner's cancel only hits operations without an external trace, and a
  // cancelled operation never leaves one later.
  lemma {:induction false} CancelHitsNoTrace(es: seq<Event>, id: OpId, later: seq<Event>)
    requires CanCancel(Run(es), id)
    ensures var s := Run(es + [OwnerCancel(id)] + later);
            id in s.ops && s.ops[id].state == Cancelled && NoTrace(s, id)
    decreases |later|
  {
    var all := es + [OwnerCancel(id)] + later;
    RunKeeps(all);
    CancelSticks(es, id, later);
    var s := Run(all);
    forall c <- s.store.history ensures c.marker != Some(id) && !(c.writer.Server? && c.writer.op == id) {
      var i :| 0 <= i < |s.store.history| && s.store.history[i] == c;
      assert ChangeOk(s.ops, s.store.history[i]);
    }
  }

  ghost predicate StaysCancelled(s: State, id: OpId) {
    id in s.ops && s.ops[id].state == Cancelled && !s.ops[id].started
  }

  lemma {:induction false} CancelSticks(es: seq<Event>, id: OpId, later: seq<Event>)
    requires CanCancel(Run(es), id)
    ensures StaysCancelled(Run(es + [OwnerCancel(id)] + later), id)
    decreases |later|
  {
    var all := es + [OwnerCancel(id)] + later;
    if later == [] {
      assert all[..|all| - 1] == es;
    } else {
      var before := later[..|later| - 1];
      assert all[..|all| - 1] == es + [OwnerCancel(id)] + before;
      CancelSticks(es, id, before);
      LastKeepsCancelled(all, id);
    }
  }

  lemma LastKeepsCancelled(all: seq<Event>, id: OpId)
    requires all != [] && StaysCancelled(Run(all[..|all| - 1]), id)
    ensures StaysCancelled(Run(all), id)
  {
    RunKeeps(all[..|all| - 1]);
    CancelledStays(Run(all[..|all| - 1]), all[|all| - 1], id);
  }

  lemma AdvanceRows(s: State, accepted: bool)
    requires WellFormed(s.store) && s.tx.Running?
    ensures DoAdvance(s, accepted).ops == if s.tx.pc.Finish? then s.ops[s.tx.op := s.tx.row] else s.ops
  {}

  lemma CancelledStays(s: State, e: Event, id: OpId)
    requires Inv(s) && id in s.ops && s.ops[id].state == Cancelled && !s.ops[id].started
    ensures var t := Step(s, e); id in t.ops && t.ops[id].state == Cancelled && !t.ops[id].started
  {
    if e.Advance? && s.tx.Running? { AdvanceRows(s, e.accepted); }
  }

  // Row states a reader can ever find committed.
  lemma CommittedStates(es: seq<Event>, id: OpId)
    requires id in Run(es).ops
    ensures Run(es).ops[id].state in {Queued, AssetsPublished, Published, Blocked, Superseded, Cancelled}
  {
    RunKeeps(es);
  }

  // Some point of the transaction still running after `es` had document `d`
  // carrying the operation's marker.
  ghost predicate Saw(es: seq<Event>, id: OpId, d: DocId)
    decreases |es|
  {
    && Run(es).tx.Running? && Run(es).tx.op == id
    && (Carries(Run(es).store, d, id) || (es != [] && Saw(es[..|es| - 1], id, d)))
  }

  predicate PastRecord(t: Tx)
    requires t.Running?
  {
    || t.pc.FetchBook? || t.pc.UpdateBook? || t.pc.CheckCommit? || t.pc.CreateCommit?
    || PastCommit(t)
  }

  predicate PastCommit(t: Tx)
    requires t.Running?
  {
    t.pc.CheckMessage? || t.pc.CreateMessage? || (t.pc.Finish? && t.row.state == Published)
  }

  ghost predicate Evidence(es: seq<Event>) {
    var t := Run(es).tx;
    t.Running? ==>
      && (PastRecord(t) ==> Saw(es, t.op, t.row.doc))
      && (PastCommit(t) && NeedsCommit(t.row) ==> Saw(es, t.op, CommitOf(t.op)))
      && (t.pc.Finish? && t.row.state == Published ==> Saw(es, t.op, MessageOf(t.op)))
  }

  // One step of the evidence: what a transaction has seen stays seen, and it
  // passes a stage only on a document carrying its marker before or after the step.
  lemma SawStep(es: seq<Event>, id: OpId, d: DocId)
    requires es != [] && Run(es).tx.Running? && Run(es).tx.op == id
    requires Saw(es[..|es| - 1], id, d) || Carries(Run(es).store, d, id)
             || (Run(es[..|es| - 1]).tx.Running? && Run(es[..|es| - 1]).tx.op == id
                 && Carries(Run(es[..|es| - 1]).store, d, id))
    ensures Saw(es, id, d)
  {}

  ghost predicate StagesFit(t: Tx) {
    t.Running? ==>
      && (t.row.state == Published ==> t.pc.Finish?)
      && (t.pc.Finish? || PastCommit(t) || t.row.state == RecordPublished || Unpublished(t.row.state))
      && (t.pc.Reread? || t.pc.CheckNew? || t.pc.CreateRecord? ==> Library(t.row.kind) || t.row.kind.Upload?)
  }

  // A transaction passes a stage only on a document carrying its marker.
  ghost predicate StagesEarned(s: State, t: State) {
    s.tx.Running? && t.tx.Running? ==>
      var id, doc := s.tx.op, s.tx.row.doc;
      && t.tx.op == id && t.tx.row.doc == doc && NeedsCommit(t.tx.row) == NeedsCommit(s.tx.row)
      && (PastRecord(t.tx) ==> PastRecord(s.tx) || Carries(s.store, doc, id) || Carries(t.store, doc, id))
      && (PastCommit(t.tx) && NeedsCommit(s.tx.row) ==>
            PastCommit(s.tx) || Carries(s.store, CommitOf(id), id) || Carries(t.store, CommitOf(id), id))
      && (t.tx.pc.Finish? && t.tx.row.state == Published ==>
            || (s.tx.pc.Finish? && s.tx.row.state == Published)
            || Carries(s.store, MessageOf(id), id) || Carries(t.store, MessageOf(id), id))
      && StagesFit(t.tx)
  }

  lemma FetchEarns(s: State, accepted: bool)
    requires WellFormed(s.store) && s.tx.Running? && s.tx.pc.Fetch? && StagesFit(s.tx)
    ensures StagesEarned(s, DoFetch(s, accepted))
  {
    var row := s.tx.row;
    if row.doc in s.store.current {
      assert IsCurrent(s.store, row.doc);
      if row.kind.LibraryUpdate? {
      } else if row.kind.RepairAsset? && row.state == Queued {
      } else if Unpublished(row.state) {
      } else {
      }
    }
  }

  lemma RecordReadEarns(s: State, accepted: bool)
    requires WellFormed(s.store) && s.tx.Running? && (s.tx.pc.Reread? || s.tx.pc.CheckNew?) && StagesFit(s.tx)
    ensures s.tx.pc.Reread? ==> StagesEarned(s, DoReread(s))
    ensures s.tx.pc.CheckNew? ==> StagesEarned(s, DoCheckNew(s, accepted))
  {
    if s.tx.row.doc in s.store.current { assert IsCurrent(s.store, s.tx.row.doc); }
  }

  lemma LaterReadEarns(s: State)
    requires WellFormed(s.store) && s.tx.Running? && StagesFit(s.tx)
    ensures s.tx.pc.FetchBook? ==> StagesEarned(s, DoFetchBook(s))
    ensures s.tx.pc.CheckCommit? ==> StagesEarned(s, DoCheckCommit(s))
    ensures s.tx.pc.CheckMessage? ==> StagesEarned(s, DoCheckMessage(s))
  {
    var id := s.tx.op;
    if CommitOf(id) in s.store.current { assert IsCurrent(s.store, CommitOf(id)); }
    if MessageOf(id) in s.store.current { assert IsCurrent(s.store, MessageOf(id)); }
  }

  lemma WriteEarns(s: State)
    requires WellFormed(s.store) && s.tx.Running? && StagesFit(s.tx) && !Reads(s.tx.pc)
    ensures StagesEarned(s, DoAdvance(s, true))
  {}

  lemma AdvanceEarns(s: State, accepted: bool)
    requires WellFormed(s.store) && s.tx.Running? && StagesFit(s.tx)
    ensures StagesEarned(s, DoAdvance(s, accepted))
  {
    match s.tx.pc
    case Fetch => FetchEarns(s, accepted);
    case Reread => RecordReadEarns(s, accepted);
    case CheckNew => RecordReadEarns(s, accepted);
    case FetchBook => LaterReadEarns(s);
    case CheckCommit => LaterReadEarns(s);
    case CheckMessage => LaterReadEarns(s);
    case _ => WriteEarns(s);
  }

  lemma StepEarns(s: State, e: Event)
    requires WellFormed(s.store) && StagesFit(s.tx)
    ensures StagesEarned(s, Step(s, e))
  {
    if e.Advance? && s.tx.Running? { AdvanceEarns(s, e.accepted); }
  }

  lemma BeginIsFresh(s: State, e: Event)
    requires Inv(s) && !s.tx.Running? && Step(s, e).tx.Running?
    ensures var t := Step(s, e).tx;
            !PastRecord(t) && t.row.state != Published && StagesFit(t)
  {}

  lemma {:induction false} RunHasEvidence(es: seq<Event>)
    ensures Evidence(es) && StagesFit(Run(es).tx)
    decreases |es|
  {
    if es != [] {
      var before, e := es[..|es| - 1], es[|es| - 1];
      RunHasEvidence(before);
      RunKeeps(before);
      var s, t := Run(before).tx, Run(es).tx;
      if s.Running? {
        StepEarns(Run(before), e);
        if t.Running? {
          if PastRecord(t) { SawStep(es, t.op, t.row.doc); }
          if PastCommit(t) && NeedsCommit(t.row) { SawStep(es, t.op, CommitOf(t.op)); }
          if t.pc.Finish? && t.row.state == Published { SawStep(es, t.op, MessageOf(t.op)); }
        }
      } else if t.Running? {
        BeginIsFresh(Run(before), e);
      }
    }
  }

  // Step `n` of the run committed the operation as published, in a transaction
  // that had seen the record, the message and any required commit document
  // under the operation's ids and carrying its marker.
  ghost predicate PublishedAt(es: seq<Event>, n: nat, id: OpId)
    requires n < |es|
  {
    var s := Run(es[..n]);
    && s.tx.Running? && s.tx.op == id && s.tx.pc.Finish? && s.tx.row.state == Published
    && es[n].Advance?
    && Saw(es[..n], id, s.tx.row.doc)
    && Saw(es[..n], id, MessageOf(id))
    && ((s.tx.row.kind.LibraryCreate? || s.tx.row.kind.LibraryUpdate? ==> s.tx.row.commits) ==>
          Saw(es[..n], id, CommitOf(id)))
  }

  lemma OnlyCommitPublishes(s: State, e: Event, id: OpId)
    requires WellFormed(s.store) && !(id in s.ops && s.ops[id].state == Published)
    requires id in Step(s, e).ops && Step(s, e).ops[id].state == Published
    ensures e.Advance? && s.tx.Running? && s.tx.op == id && s.tx.pc.Finish? && s.tx.row.state == Published
  {
    if e.Advance? && s.tx.Running? { AdvanceRows(s, e.accepted); }
  }

  lemma {:induction false} PublishedWasSeen(es: seq<Event>, id: OpId)
    requires id in Run(es).ops && Run(es).ops[id].state == Published
    ensures exists n :: 0 <= n < |es| && PublishedAt(es, n, id)
    decreases |es|
  {
    var before, e := es[..|es| - 1], es[|es| - 1];
    var s := Run(before);
    RunKeeps(before);
    if id in s.ops && s.ops[id].state == Published {
      PublishedWasSeen(before, id);
      var n :| 0 <= n < |before| && PublishedAt(before, n, id);
      assert before[..n] == es[..n];
      assert PublishedAt(es, n, id);
    } else {
      OnlyCommitPublishes(s, e, id);
      RunHasEvidence(before);
      assert PublishedAt(es, |es| - 1, id);
    }
  }

  // ---- rows changed from outside ----

  ghost predicate RowsBecome(s: State, t: State) { t.store == s.store && t.tx == s.tx && t.ops.Keys == s.ops.Keys }

  // The removal of a notebook cancels the operations on it and no others; later
  // it drops the revisions they name.
  lemma NotebookRemoved(s: State, doc: DocId)
    requires WellFormed(s.store) && s.tx.Idle?
    ensures var t := Step(s, RemoveNotebook(doc));
            && RowsBecome(s, t)
            && (forall id <- s.ops :: s.ops[id].doc == doc ==> t.ops[id] == s.ops[id].(state := Cancelled))
            && (forall id <- s.ops :: s.ops[id].doc != doc ==> t.ops[id] == s.ops[id])
    ensures var t := Step(s, ScrubNotebook(doc));
            && RowsBecome(s, t)
            && (forall id <- s.ops :: s.ops[id].doc == doc ==> t.ops[id] == s.ops[id].(expected := None, published := None))
            && (forall id <- s.ops :: s.ops[id].doc != doc ==> t.ops[id] == s.ops[id])
  {}

  // An operation taken up for a library that was replaced is blocked; one on a
  // removed notebook is cancelled once its start marker is there. Finished
  // operations are left alone.
  lemma RefusedIs(s: State, id: OpId, replaced: bool)
    requires WellFormed(s.store) && s.tx.Idle? && id in s.ops
    ensures var open := s.ops[id].state in {Queued, AssetsPublished, RecordPublished, CommitPublished};
            Step(s, Refuse(id, replaced))
            == if open && replaced then s.(ops := s.ops[id := s.ops[id].(state := Blocked)])
               else if open && s.ops[id].started then s.(ops := s.ops[id := s.ops[id].(state := Cancelled)])
               else s
  {}

  // The start marker is committed on its own: the next delivery finds it, and
  // nothing else has changed.
  lemma StartIs(s: State, id: OpId)
    requires WellFormed(s.store) && s.tx.Idle? && id in s.ops && !s.ops[id].started
    ensures var open := s.ops[id].state in {Queued, AssetsPublished, RecordPublished, CommitPublished};
            Step(s, Begin(id)) == if open then s.(ops := s.ops[id := s.ops[id].(started := true)]) else s
  {}
}
