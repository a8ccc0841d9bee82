// What an undisturbed delivery of an operation achieves: exactly when it ends
// published, and exactly what it still writes. An operation whose write was made
// but whose acknowledgement was lost is one of them.
module PublicationRecovery {
  import opened Outcomes
  import opened GatewayStore
  import opened Publication
  import opened PublicationSafety
  import opened PublicationTheorems
  import opened PublicationTurns
  import opened PublicationChain

  // Nobody acts in between, no call fails and every acknowledgement arrives.
  ghost function Calm(accepted: bool): nat -> Turn { k => Turn([], false, false, accepted) }

  // The state when the running transaction has made all its calls undisturbed.
  ghost function Calmed(s: State, accepted: bool): (t: State)
    requires WellFormed(s.store)
    ensures t.tx.Idle? && WellFormed(t.store)
    decreases Left(s.tx)
  {
    if s.tx.Idle? then s
    else
      AdvanceKeepsStore(s, accepted);
      AdvanceLeaves(s, accepted);
      Calmed(DoAdvance(s, accepted), accepted)
  }

  lemma CalmTurn(es: seq<Event>, accepted: bool)
    requires Run(es).tx.Running?
    ensures Turned(es, Turn([], false, false, accepted)) == es + [Advance(accepted)]
  {
    assert es + Acts([]) == es;
  }

  // Undisturbed turns drive a run to that state.
  lemma {:induction false} CalmDrive(es: seq<Event>, accepted: bool)
    ensures Run(Drive(es, Calm(accepted))) == Calmed(Run(es), accepted)
    decreases Left(Run(es).tx)
  {
    if Run(es).tx.Running? {
      CalmTurn(es, accepted);
      AdvanceAt(es, accepted);
      AdvanceLeaves(Run(es), accepted);
      CalmDrive(es + [Advance(accepted)], accepted);
    }
  }

  // An undisturbed delivery that takes the operation up.
  lemma TakenCalmly(es: seq<Event>, id: OpId, accepted: bool)
    requires Run(es).tx.Idle?
    ensures Run(Drive(es + [Begin(id)], Calm(accepted))) == Calmed(DoBegin(Run(es), id), accepted)
  {
    var taken := es + [Begin(id)];
    BeginAt(es, id);
    CalmDrive(taken, accepted);
  }

  lemma CalmCall(s: State, accepted: bool, t: State)
    requires WellFormed(s.store) && s.tx.Running? && t == DoAdvance(s, accepted)
    ensures WellFormed(t.store) && Calmed(s, accepted) == Calmed(t, accepted)
  {
    AdvanceKeepsStore(s, accepted);
  }

  // ---- what is still to be written ----

  // No one else's document stands under the id.
  predicate Own(st: Store, d: DocId, id: OpId) { d in st.current ==> Carries(st, d, id) }

  function Only(id: OpId, part: Part): Change
    requires part.Commit? || part.Message?
  {
    Change(if part.Commit? then CommitOf(id) else MessageOf(id), None, Server(id, part), Some(id), map[], true)
  }

  // The store with the operation's document in it.
  function With(st: Store, id: OpId, part: Part): (r: Store)
    requires part.Commit? || part.Message?
    ensures Only(id, part).doc in st.current ==> r == st
    ensures Only(id, part).doc !in st.current ==> r.history == st.history + [Only(id, part)]
  {
    if Only(id, part).doc in st.current then st
    else Write(st, Only(id, part)).value
  }

  predicate Restores(row: Op) { row.kind.ReaderRestore? && row.kind.book.Some? }

  predicate BookReady(st: Store, id: OpId, row: Op) {
    Restores(row) ==>
      && row.kind.book.value in st.current
      && (Carries(st, row.kind.book.value, id) || row.kind.bookRevision == Some(st.current[row.kind.book.value]))
  }

  // The book is there, but not as it was previewed.
  predicate BookStale(st: Store, id: OpId, row: Op) {
    Restores(row) && row.kind.book.value in st.current && !BookReady(st, id, row)
  }

  function Touch(st: Store, id: OpId, row: Op): Change
    requires Restores(row) && row.kind.book.value in st.current && st.current[row.kind.book.value] < |st.history|
  {
    var d := row.kind.book.value;
    Change(d, Some(st.current[d]), Server(id, Companion), Some(id), st.history[st.current[d]].fields, true)
  }

  // The store with the restored record's book touched.
  function Touched(st: Store, id: OpId, row: Op): (r: Store)
    requires WellFormed(st) && BookReady(st, id, row)
    ensures !Restores(row) || Carries(st, row.kind.book.value, id) ==> r == st
    ensures Restores(row) && !Carries(st, row.kind.book.value, id) ==>
              row.kind.book.value in st.current && st.current[row.kind.book.value] < |st.history|
              && r.history == st.history + [Touch(st, id, row)]
  {
    if !Restores(row) || Carries(st, row.kind.book.value, id) then st
    else
      assert IsCurrent(st, row.kind.book.value);
      Write(st, Touch(st, id, row)).value
  }

  // A commit goes with every record but those of the library that carry no
  // reader fields.
  predicate WithCommit(row: Op) { row.kind.LibraryCreate? || row.kind.LibraryUpdate? ==> row.commits }

  predicate CommitReady(st: Store, id: OpId, row: Op) { WithCommit(row) ==> Own(st, CommitOf(id), id) }

  // All that follows the record can be written or is there already.
  predicate Ready(st: Store, id: OpId, row: Op)
    requires WellFormed(st)
  {
    && BookReady(st, id, row)
    && CommitReady(Touched(st, id, row), id, row)
    && Own(Touched(st, id, row), MessageOf(id), id)
  }

  // The changes that are missing, in the order in which they are made. What
  // cannot be had ends them.
  function Missing(st: Store, id: OpId, row: Op): seq<Change>
    requires WellFormed(st)
  {
    if !BookReady(st, id, row) then []
    else
      var book := if !Restores(row) || Carries(st, row.kind.book.value, id) then []
                  else assert IsCurrent(st, row.kind.book.value); [Touch(st, id, row)];
      book + MissingHere(Touched(st, id, row), id, row)
  }

  function MissingHere(st: Store, id: OpId, row: Op): seq<Change> {
    if !CommitReady(st, id, row) then []
    else
      (if !WithCommit(row) || CommitOf(id) in st.current then [] else [Only(id, Part.Commit)])
      + MissingMessage(st, id)
  }

  function MissingMessage(st: Store, id: OpId): seq<Change> {
    if MessageOf(id) in st.current then [] else [Only(id, Part.Message)]
  }

  // ---- the stages, last one first ----

  lemma FinishStage(s: State, accepted: bool)
    requires WellFormed(s.store) && s.tx.Running? && s.tx.pc.Finish?
    ensures Calmed(s, accepted) == s.(ops := s.ops[s.tx.op := s.tx.row], tx := Idle)
  {
    var t := s.(ops := s.ops[s.tx.op := s.tx.row], tx := Idle);
    CalmCall(s, accepted, t);
  }

  // `t` is `s` after the operation's row ended in state `st` and `made` was written.
  ghost predicate Ended(s: State, t: State, st: OpState, made: seq<Change>) {
    && s.tx.Running? && t.tx.Idle? && t.ops == s.ops[s.tx.op := s.tx.row.(state := st)]
    && t.store.history == s.store.history + made
  }

  // `t` is `s` given up after `made` was written; the rows are as they were.
  ghost predicate GivenUp(s: State, t: State, made: seq<Change>) {
    t.tx.Idle? && t.ops == s.ops && t.store.history == s.store.history + made
  }

  lemma MessageCheck(s: State, accepted: bool) returns (t: State)
    requires WellFormed(s.store) && s.tx.Running? && s.tx.pc.CheckMessage?
    ensures t == DoAdvance(s, accepted)
    ensures t == if MessageOf(s.tx.op) !in s.store.current then Goto(s, CreateMessage)
                 else if Carries(s.store, MessageOf(s.tx.op), s.tx.op) then Settle(s, Published)
                 else Rollback(s)
  {
    if MessageOf(s.tx.op) in s.store.current { assert IsCurrent(s.store, MessageOf(s.tx.op)); }
    t := DoAdvance(s, accepted);
  }

  lemma MessageMake(s: State, accepted: bool) returns (t: State)
    requires WellFormed(s.store) && s.tx.Running? && s.tx.pc.CreateMessage? && MessageOf(s.tx.op) !in s.store.current
    ensures t == DoAdvance(s, accepted)
    ensures t == Settle(s.(store := With(s.store, s.tx.op, Part.Message)), Published)
  {
    t := DoAdvance(s, accepted);
  }

  lemma MessageStage(s: State, accepted: bool)
    requires WellFormed(s.store) && s.tx.Running? && s.tx.pc.CheckMessage?
    ensures var t := Calmed(s, accepted);
            if Own(s.store, MessageOf(s.tx.op), s.tx.op) then Ended(s, t, Published, MissingMessage(s.store, s.tx.op))
            else t == Rollback(s)
  {
    var t := MessageCheck(s, accepted);
    CalmCall(s, accepted, t);
    if t.tx.Running? && t.tx.pc.CreateMessage? {
      var u := MessageMake(t, accepted);
      CalmCall(t, accepted, u);
      FinishStage(u, accepted);
    } else if t.tx.Running? {
      FinishStage(t, accepted);
    }
  }

  // The state in which the message is looked for.
  function Committed(s: State): State
    requires s.tx.Running?
  {
    var t := s.(store := With(s.store, s.tx.op, Part.Commit));
    if Library(s.tx.row.kind) then Goto(t, CheckMessage)
    else Stage(t, s.tx.row.(state := CommitPublished), CheckMessage)
  }

  lemma CommitCheck(s: State, accepted: bool) returns (t: State)
    requires WellFormed(s.store) && s.tx.Running? && s.tx.pc.CheckCommit?
    ensures t == DoAdvance(s, accepted)
    ensures t == if CommitOf(s.tx.op) !in s.store.current then Goto(s, CreateCommit)
                 else if Carries(s.store, CommitOf(s.tx.op), s.tx.op) then Committed(s)
                 else Rollback(s)
  {
    if CommitOf(s.tx.op) in s.store.current { assert IsCurrent(s.store, CommitOf(s.tx.op)); }
    t := DoAdvance(s, accepted);
  }

  lemma CommitMake(s: State, accepted: bool) returns (t: State)
    requires WellFormed(s.store) && s.tx.Running? && s.tx.pc.CreateCommit? && CommitOf(s.tx.op) !in s.store.current
    ensures t == DoAdvance(s, accepted) && t == Committed(s)
  {
    t := DoAdvance(s, accepted);
  }

  lemma CommitStage(s: State, accepted: bool)
    requires WellFormed(s.store) && s.tx.Running? && s.tx.pc.CheckCommit?
    ensures WellFormed(Committed(s).store)
    ensures Calmed(s, accepted) ==
            if Own(s.store, CommitOf(s.tx.op), s.tx.op) then Calmed(Committed(s), accepted) else Rollback(s)
  {
    if CommitOf(s.tx.op) !in s.store.current { WriteKeepsWellFormed(s.store, Only(s.tx.op, Part.Commit)); }
    var t := CommitCheck(s, accepted);
    CalmCall(s, accepted, t);
    if t.tx.Running? && t.tx.pc.CreateCommit? {
      var u := CommitMake(t, accepted);
      CalmCall(t, accepted, u);
    }
  }

  // From the commit on, or from the message where no commit is needed.
  lemma AnnounceStage(s: State, accepted: bool)
    requires WellFormed(s.store) && s.tx.Running? && s.tx.row.state != Published
    requires s.tx.pc == if NeedsCommit(s.tx.row) then CheckCommit else CheckMessage
    ensures var t, id := Calmed(s, accepted), s.tx.op;
            if CommitReady(s.store, id, s.tx.row) && Own(s.store, MessageOf(id), id) then
              Ended(s, t, Published, MissingHere(s.store, id, s.tx.row))
            else GivenUp(s, t, MissingHere(s.store, id, s.tx.row))
  {
    if NeedsCommit(s.tx.row) {
      CommitStage(s, accepted);
      if Own(s.store, CommitOf(s.tx.op), s.tx.op) {
        MessageStage(Committed(s), accepted);
        CommittedThenSent(s, Calmed(s, accepted));
      }
    } else {
      MessageStage(s, accepted);
    }
  }

  lemma CommittedThenSent(s: State, t: State)
    requires WellFormed(s.store) && s.tx.Running? && NeedsCommit(s.tx.row) && Own(s.store, CommitOf(s.tx.op), s.tx.op)
    requires var u, id := Committed(s), s.tx.op;
             if Own(u.store, MessageOf(id), id) then Ended(u, t, Published, MissingMessage(u.store, id))
             else t == Rollback(u)
    ensures var id := s.tx.op;
            if Own(s.store, MessageOf(id), id) then Ended(s, t, Published, MissingHere(s.store, id, s.tx.row))
            else GivenUp(s, t, MissingHere(s.store, id, s.tx.row))
  {}

  lemma BookCheck(s: State, accepted: bool) returns (t: State)
    requires WellFormed(s.store) && s.tx.Running? && s.tx.pc.FetchBook? && Restores(s.tx.row)
    ensures t == DoAdvance(s, accepted)
    ensures var d := s.tx.row.kind.book.value;
            t == if d !in s.store.current then Rollback(s)
                 else if Carries(s.store, d, s.tx.op) then Goto(s, CheckCommit)
                 else if s.tx.row.kind.bookRevision != Some(s.store.current[d]) then Settle(s, Blocked)
                 else Goto(s, UpdateBook(s.store.current[d]))
  {
    if s.tx.row.kind.book.value in s.store.current { assert IsCurrent(s.store, s.tx.row.kind.book.value); }
    t := DoAdvance(s, accepted);
  }

  lemma BookMake(s: State, accepted: bool) returns (t: State)
    requires WellFormed(s.store) && s.tx.Running? && s.tx.pc.UpdateBook? && Restores(s.tx.row)
    requires var d := s.tx.row.kind.book.value;
             d in s.store.current && s.tx.pc.seen == s.store.current[d] && !Carries(s.store, d, s.tx.op)
             && s.tx.row.kind.bookRevision == Some(s.store.current[d])
    ensures t == DoAdvance(s, accepted)
    ensures t == Goto(s.(store := Touched(s.store, s.tx.op, s.tx.row)), CheckCommit)
  {
    assert IsCurrent(s.store, s.tx.row.kind.book.value);
    t := DoAdvance(s, accepted);
  }

  lemma BookStage(s: State, accepted: bool)
    requires WellFormed(s.store) && s.tx.Running? && s.tx.pc.FetchBook? && Restores(s.tx.row)
    ensures var t := Calmed(s, accepted);
            if BookReady(s.store, s.tx.op, s.tx.row) then
              var u := Goto(s.(store := Touched(s.store, s.tx.op, s.tx.row)), CheckCommit);
              WellFormed(u.store) && t == Calmed(u, accepted)
            else if BookStale(s.store, s.tx.op, s.tx.row) then Ended(s, t, Blocked, [])
            else GivenUp(s, t, [])
  {
    var t := BookCheck(s, accepted);
    CalmCall(s, accepted, t);
    if t.tx.Running? && t.tx.pc.UpdateBook? {
      var u := BookMake(t, accepted);
      CalmCall(t, accepted, u);
    } else if t.tx.Running? && t.tx.pc.Finish? {
      FinishStage(t, accepted);
    }
  }

  // Once the record is settled: published exactly when the rest is ready, blocked
  // exactly on a stale book, and after exactly the changes that can be made.
  ghost predicate Decided(s: State, t: State)
    requires WellFormed(s.store) && s.tx.Running?
  {
    var id, row := s.tx.op, s.tx.row;
    if Ready(s.store, id, row) then Ended(s, t, Published, Missing(s.store, id, row))
    else if BookStale(s.store, id, row) then Ended(s, t, Blocked, [])
    else GivenUp(s, t, Missing(s.store, id, row))
  }

  lemma TouchedStage(s: State, u: State, t: State)
    requires WellFormed(s.store) && s.tx.Running? && Restores(s.tx.row) && BookReady(s.store, s.tx.op, s.tx.row)
    requires u == Goto(s.(store := Touched(s.store, s.tx.op, s.tx.row)), CheckCommit) && WellFormed(u.store)
    requires var id, row, missing := s.tx.op, s.tx.row, MissingHere(u.store, s.tx.op, s.tx.row);
             if CommitReady(u.store, id, row) && Own(u.store, MessageOf(id), id) then Ended(u, t, Published, missing)
             else GivenUp(u, t, missing)
    ensures Decided(s, t)
  {
    var id, row := s.tx.op, s.tx.row;
    var book := u.store.history[|s.store.history|..];
    assert u.store.history == s.store.history + book;
    assert Missing(s.store, id, row) == book + MissingHere(u.store, id, row);
    assert s.store.history + Missing(s.store, id, row) == u.store.history + MissingHere(u.store, id, row);
  }

  lemma PlainStage(s: State, t: State)
    requires WellFormed(s.store) && s.tx.Running? && !Restores(s.tx.row)
    requires var id, row, missing := s.tx.op, s.tx.row, MissingHere(s.store, s.tx.op, s.tx.row);
             if CommitReady(s.store, id, row) && Own(s.store, MessageOf(id), id) then Ended(s, t, Published, missing)
             else GivenUp(s, t, missing)
    ensures Decided(s, t)
  {
    assert Missing(s.store, s.tx.op, s.tx.row) == MissingHere(s.store, s.tx.op, s.tx.row);
  }

  lemma SettledStage(s: State, accepted: bool)
    requires WellFormed(s.store) && s.tx.Running? && s.tx.row.state == RecordPublished
    requires s.tx.pc == AfterRecord(s.tx.row)
    ensures Decided(s, Calmed(s, accepted))
  {
    if Restores(s.tx.row) {
      BookStage(s, accepted);
      if BookReady(s.store, s.tx.op, s.tx.row) {
        var u := Goto(s.(store := Touched(s.store, s.tx.op, s.tx.row)), CheckCommit);
        AnnounceStage(u, accepted);
        TouchedStage(s, u, Calmed(s, accepted));
      }
    } else {
      AnnounceStage(s, accepted);
      PlainStage(s, Calmed(s, accepted));
    }
  }

  // ---- the record ----

  // The record of `id` is there: the state in which the rest is begun.
  function Recorded(s: State, id: OpId): State
    requires id in s.ops && s.ops[id].doc in s.store.current
  {
    var row := s.ops[id].(state := RecordPublished, published := Some(s.store.current[s.ops[id].doc]));
    s.(tx := Running(id, AfterRecord(row), row))
  }

  // A started operation that nothing is running, whose record carries its marker.
  ghost predicate Found(s: State, id: OpId) {
    && WellFormed(s.store) && s.tx.Idle?
    && id in s.ops && s.ops[id].started && Unpublished(s.ops[id].state)
    && (s.ops[id].kind.RepairAsset? <==> s.ops[id].state == AssetsPublished)
    && Carries(s.store, s.ops[id].doc, id)
  }

  lemma FetchFinds(s: State, id: OpId, accepted: bool)
    requires Found(s, id) && !Library(s.ops[id].kind) && !s.ops[id].kind.Upload?
    ensures Calmed(DoBegin(s, id), accepted) == Calmed(Recorded(s, id), accepted)
  {
    assert IsCurrent(s.store, s.ops[id].doc);
    CalmCall(DoBegin(s, id), accepted, Recorded(s, id));
  }

  lemma ReadBackFinds(s: State, id: OpId, t: State, accepted: bool)
    requires Found(s, id) && CanPrecede(s.ops[id].kind) && t == s.(tx := Running(id, Reread, s.ops[id]))
    ensures Calmed(t, accepted) == Calmed(Recorded(s, id), accepted)
  {
    assert IsCurrent(s.store, s.ops[id].doc);
    var u := Recorded(s, id);
    if s.ops[id].kind.Upload? {
      var read := u.(tx := u.tx.(pc := Fetch));
      CalmCall(t, accepted, read);
      CalmCall(read, accepted, u);
    } else {
      CalmCall(t, accepted, u);
    }
  }

  lemma UpdateFinds(s: State, id: OpId, accepted: bool)
    requires Found(s, id) && s.ops[id].kind.LibraryUpdate?
    ensures Calmed(DoBegin(s, id), accepted) == Calmed(Recorded(s, id), accepted)
  {
    assert IsCurrent(s.store, s.ops[id].doc);
    var t := s.(tx := Running(id, Reread, s.ops[id]));
    CalmCall(DoBegin(s, id), accepted, t);
    ReadBackFinds(s, id, t, accepted);
  }

  // A library creation checks what it refers to again before it looks.
  predicate Admits(op: Op, accepted: bool) { op.kind.LibraryCreate? ==> accepted }

  lemma CreateFinds(s: State, id: OpId, accepted: bool)
    requires Found(s, id) && (s.ops[id].kind.LibraryCreate? || s.ops[id].kind.Upload?)
    ensures Calmed(DoBegin(s, id), accepted) ==
            if Admits(s.ops[id], accepted) then Calmed(Recorded(s, id), accepted)
            else s.(ops := s.ops[id := s.ops[id].(state := Blocked)])
  {
    assert IsCurrent(s.store, s.ops[id].doc);
    var t := DoAdvance(DoBegin(s, id), accepted);
    CalmCall(DoBegin(s, id), accepted, t);
    if Admits(s.ops[id], accepted) {
      assert t == s.(tx := Running(id, Reread, s.ops[id]));
      ReadBackFinds(s, id, t, accepted);
    } else {
      FinishStage(t, accepted);
    }
  }

  lemma RecordFound(s: State, id: OpId, accepted: bool)
    requires Found(s, id)
    ensures Calmed(DoBegin(s, id), accepted) ==
            if Admits(s.ops[id], accepted) then Calmed(Recorded(s, id), accepted)
            else s.(ops := s.ops[id := s.ops[id].(state := Blocked)])
  {
    if s.ops[id].kind.LibraryUpdate? {
      UpdateFinds(s, id, accepted);
    } else if Library(s.ops[id].kind) || s.ops[id].kind.Upload? {
      CreateFinds(s, id, accepted);
    } else {
      FetchFinds(s, id, accepted);
    }
  }

  // ---- every reachable state ----

  // A marker on a record was brought there by the operation, and a repair that
  // has written its record is past the repair of its file.
  lemma CarriedIsFound(es: seq<Event>, id: OpId)
    requires var s := Run(es);
             s.tx.Idle? && id in s.ops && s.ops[id].started && Selectable(s.ops[id].state)
             && Carries(s.store, s.ops[id].doc, id)
    ensures Found(Run(es), id)
  {
    var s := Run(es);
    RunKeeps(es);
    RunTraces(es);
    assert StateFits(s.ops[id]);
    var doc := s.ops[id].doc;
    assert IsCurrent(s.store, doc);
    var w := Origin(s.store, s.store.current[doc], id);
    assert ChangeOk(s.ops, s.store.history[w]) && WriterFits(s.ops, s.store.history[w]);
  }

  // What a delivery from `s` to `t` makes of an operation whose record is there
  // or has just been written. A row that ends has the record's revision.
  ghost predicate Delivered(s: State, t: State, id: OpId)
    requires WellFormed(s.store) && id in s.ops && s.ops[id].doc in s.store.current
  {
    var row := s.ops[id];
    var read := row.(published := Some(s.store.current[row.doc]));
    && t.tx.Idle? && t.store.history == s.store.history + Missing(s.store, id, row)
    && t.ops == if Ready(s.store, id, row) then s.ops[id := read.(state := Published)]
                else if BookStale(s.store, id, row) then s.ops[id := read.(state := Blocked)]
                else s.ops
  }

  lemma DecidedIsDelivered(s: State, t: State, id: OpId)
    requires Found(s, id) && Decided(Recorded(s, id), t)
    ensures Delivered(s, t, id)
  {
    SameRest(s.store, id, s.ops[id], Recorded(s, id).tx.row);
  }

  // A delivery of an operation whose record carries its marker: it writes the
  // record no more, ends published exactly when all that follows can be had, and
  // writes of it just what is missing. Only a library creation can be refused
  // before that.
  lemma RecoversIff(es: seq<Event>, id: OpId, accepted: bool)
    requires var s := Run(es);
             s.tx.Idle? && id in s.ops && s.ops[id].started && Selectable(s.ops[id].state)
             && Carries(s.store, s.ops[id].doc, id)
    ensures var s, t := Run(es), Run(Drive(es + [Begin(id)], Calm(accepted)));
            if Admits(s.ops[id], accepted) then Delivered(s, t, id)
            else t == s.(ops := s.ops[id := s.ops[id].(state := Blocked)])
  {
    var s := Run(es);
    CarriedIsFound(es, id);
    TakenCalmly(es, id, accepted);
    RecordFound(s, id, accepted);
    if Admits(s.ops[id], accepted) { FoundIsDelivered(s, id, accepted); }
  }

  lemma FoundIsDelivered(s: State, id: OpId, accepted: bool)
    requires Found(s, id)
    ensures Delivered(s, Calmed(Recorded(s, id), accepted), id)
  {
    SettledStage(Recorded(s, id), accepted);
    DecidedIsDelivered(s, Calmed(Recorded(s, id), accepted), id);
  }

  // What follows the record does not depend on the stage.
  lemma SameRest(st: Store, id: OpId, a: Op, b: Op)
    requires WellFormed(st) && a.kind == b.kind && a.commits == b.commits
    ensures BookReady(st, id, a) == BookReady(st, id, b) && Ready(st, id, a) == Ready(st, id, b)
    ensures BookStale(st, id, a) == BookStale(st, id, b) && Missing(st, id, a) == Missing(st, id, b)
  {
    if BookReady(st, id, a) { assert Touched(st, id, a) == Touched(st, id, b); }
  }

  // No one but the operation ever wrote the document.
  ghost predicate Alone(h: seq<Change>, d: DocId, id: OpId) {
    forall c <- h :: c.doc == d ==> c.writer.Server? && c.writer.op == id
  }

  lemma AloneIsOwn(es: seq<Event>, d: DocId, id: OpId, row: Op)
    requires Alone(Run(es).store.history, d, id) && BookReady(Run(es).store, id, row)
    ensures Own(Touched(Run(es).store, id, row), d, id)
  {
    var s := Run(es);
    RunKeeps(es);
    var t := Touched(s.store, id, row);
    if d in s.store.current {
      assert IsCurrent(s.store, d);
      assert ChangeOk(s.ops, s.store.history[s.store.current[d]]);
      assert s.store.history[s.store.current[d]] in s.store.history;
    }
  }

  // So a lost acknowledgement is recovered from wherever it was lost, unless
  // others changed the documents that the operation makes.
  lemma LostAnswerIsRecovered(es: seq<Event>, id: OpId, accepted: bool)
    requires var s := Run(es);
             s.tx.Idle? && id in s.ops && s.ops[id].started && Selectable(s.ops[id].state)
             && Carries(s.store, s.ops[id].doc, id)
    requires var s := Run(es);
             Admits(s.ops[id], accepted) && BookReady(s.store, id, s.ops[id])
             && Alone(s.store.history, CommitOf(id), id) && Alone(s.store.history, MessageOf(id), id)
    ensures var s, t := Run(es), Run(Drive(es + [Begin(id)], Calm(accepted)));
            id in t.ops && t.ops[id].state == Published
            && t.store.history == s.store.history + Missing(s.store, id, s.ops[id])
  {
    RecoversIff(es, id, accepted);
    AloneIsOwn(es, CommitOf(id), id, Run(es).ops[id]);
    AloneIsOwn(es, MessageOf(id), id, Run(es).ops[id]);
  }

  // ---- the first delivery ----

  // A started operation that nothing is running and whose record is not its own.
  ghost predicate Fresh(s: State, id: OpId) {
    && WellFormed(s.store) && s.tx.Idle?
    && id in s.ops && s.ops[id].started && Unpublished(s.ops[id].state)
    && (s.ops[id].kind.RepairAsset? <==> s.ops[id].state == AssetsPublished)
    && !Carries(s.store, s.ops[id].doc, id)
  }

  // The predecessor has yet to be published.
  predicate Waits(s: State, id: OpId)
    requires id in s.ops
  {
    match s.ops[id].kind
    case LibraryUpdate(Some(pred)) => pred in s.ops && s.ops[pred].state == Queued && s.ops[pred].published == None
    case _ => false
  }

  // The revision an update was planned on, or the one its predecessor ended with.
  function PlannedOn(s: State, id: OpId): Option<Rev>
    requires id in s.ops
  {
    match s.ops[id].kind
    case LibraryUpdate(Some(pred)) => if pred in s.ops then s.ops[pred].published else None
    case _ => s.ops[id].expected
  }

  predicate Creates(k: Kind) { k.LibraryCreate? || k.Upload? }

  // The record may be written: a new one does not exist yet, and an update finds
  // the revision it was planned on.
  predicate RecordReady(s: State, id: OpId, accepted: bool)
    requires id in s.ops
  {
    var row := s.ops[id];
    if Creates(row.kind) then Admits(row, accepted) && row.doc !in s.store.current
    else
      && accepted && row.doc in s.store.current
      && PlannedOn(s, id) == Some(s.store.current[row.doc]) && !Waits(s, id)
  }

  // Which operations are blocked for good when the record may not be written: a
  // creation, a library update whose record is missing or that waits for no one,
  // and any other change unless its record is missing. The others are tried again.
  predicate IsBlocked(s: State, id: OpId)
    requires id in s.ops
  {
    var row := s.ops[id];
    match row.kind
    case LibraryCreate => true
    case Upload => false
    case LibraryUpdate(_) => row.doc !in s.store.current || !Waits(s, id)
    case _ => row.doc in s.store.current
  }

  function MainChange(s: State, id: OpId): Change
    requires WellFormed(s.store) && id in s.ops
  {
    var row := s.ops[id];
    if row.doc !in s.store.current then Change(row.doc, None, Server(id, Main), Some(id), row.changes, true)
    else
      assert IsCurrent(s.store, row.doc);
      var rev := s.store.current[row.doc];
      Change(row.doc, Some(rev), Server(id, Main), Some(id), s.store.history[rev].fields + row.changes, true)
  }

  // The state with the record written.
  function Written(s: State, id: OpId): (t: State)
    requires WellFormed(s.store) && id in s.ops
    ensures t.store.history == s.store.history + [MainChange(s, id)] && WellFormed(t.store)
    ensures t == s.(store := t.store)
    ensures s.ops[id].doc in t.store.current && t.store.current[s.ops[id].doc] == |s.store.history|
  {
    WriteKeepsWellFormed(s.store, MainChange(s, id));
    s.(store := Write(s.store, MainChange(s, id)).value)
  }

  lemma WrittenIsFound(s: State, id: OpId)
    requires Fresh(s, id)
    ensures Found(Written(s, id), id)
  {
    var t := Written(s, id);
    assert t.store.history[|s.store.history|] == MainChange(s, id);
  }

  // Nothing is written; the operation is blocked or stays as it is.
  function TurnedDown(s: State, id: OpId): State
    requires id in s.ops
  {
    if IsBlocked(s, id) then s.(ops := s.ops[id := s.ops[id].(state := Blocked)]) else s
  }

  // What the first delivery comes to.
  ghost predicate Starts(s: State, t: State, id: OpId, accepted: bool)
    requires Fresh(s, id)
  {
    if RecordReady(s, id, accepted) then t == Calmed(Recorded(Written(s, id), id), accepted)
    else t == TurnedDown(s, id)
  }

  lemma FetchedStarts(s: State, id: OpId, accepted: bool)
    requires Fresh(s, id) && !CanPrecede(s.ops[id].kind)
    ensures Starts(s, Calmed(DoBegin(s, id), accepted), id, accepted)
  {
    var row, t := s.ops[id], DoBegin(s, id);
    if row.doc in s.store.current { assert IsCurrent(s.store, row.doc); }
    var u := DoAdvance(t, accepted);
    CalmCall(t, accepted, u);
    if RecordReady(s, id, accepted) {
      assert u == t.(tx := t.tx.(pc := UpdateRecord(s.store.current[row.doc])));
      CalmCall(u, accepted, Recorded(Written(s, id), id));
    } else if u.tx.Running? {
      FinishStage(u, accepted);
    }
  }

  lemma UpdateStarts(s: State, id: OpId, accepted: bool)
    requires Fresh(s, id) && s.ops[id].kind.LibraryUpdate?
    ensures Starts(s, Calmed(DoBegin(s, id), accepted), id, accepted)
  {
    var row, t := s.ops[id], DoBegin(s, id);
    if row.doc in s.store.current { assert IsCurrent(s.store, row.doc); }
    var u := DoAdvance(t, accepted);
    CalmCall(t, accepted, u);
    if RecordReady(s, id, accepted) {
      assert u == t.(tx := t.tx.(pc := UpdateRecord(s.store.current[row.doc])));
      WrittenStarts(s, id, u, accepted);
    } else if u.tx.Running? {
      FinishStage(u, accepted);
    }
  }

  // The record is written and read back.
  lemma WrittenStarts(s: State, id: OpId, u: State, accepted: bool)
    requires Fresh(s, id) && CanPrecede(s.ops[id].kind)
    requires u == s.(tx := Running(id, if s.ops[id].doc in s.store.current then UpdateRecord(s.store.current[s.ops[id].doc])
                                       else CreateRecord, s.ops[id]))
    requires s.ops[id].doc in s.store.current ==> Library(s.ops[id].kind)
    ensures Calmed(u, accepted) == Calmed(Recorded(Written(s, id), id), accepted)
  {
    if s.ops[id].doc in s.store.current { assert IsCurrent(s.store, s.ops[id].doc); }
    var w := Written(s, id);
    WrittenIsFound(s, id);
    var v := w.(tx := Running(id, Reread, s.ops[id]));
    CalmCall(u, accepted, v);
    ReadBackFinds(w, id, v, accepted);
  }

  lemma CreateStarts(s: State, id: OpId, accepted: bool)
    requires Fresh(s, id) && (s.ops[id].kind.LibraryCreate? || s.ops[id].kind.Upload?)
    ensures Starts(s, Calmed(DoBegin(s, id), accepted), id, accepted)
  {
    var row, t := s.ops[id], DoBegin(s, id);
    if row.doc in s.store.current { assert IsCurrent(s.store, row.doc); }
    var u := DoAdvance(t, accepted);
    CalmCall(t, accepted, u);
    if RecordReady(s, id, accepted) {
      assert u == t.(tx := t.tx.(pc := CreateRecord));
      WrittenStarts(s, id, u, accepted);
    } else if u.tx.Running? {
      FinishStage(u, accepted);
    }
  }

  // The first delivery of an operation: it ends published exactly when the record
  // may be written and all that follows can be had; then it has made one change
  // of the record and what was missing after it. Otherwise it is blocked or stays
  // as it is, exactly as said above.
  lemma PublishesIff(es: seq<Event>, id: OpId, accepted: bool)
    requires Fresh(Run(es), id)
    ensures var s, t := Run(es), Run(Drive(es + [Begin(id)], Calm(accepted)));
            if RecordReady(s, id, accepted) then Delivered(Written(s, id), t, id)
            else t == TurnedDown(s, id)
  {
    var s := Run(es);
    TakenCalmly(es, id, accepted);
    StartsIff(s, id, accepted);
    if RecordReady(s, id, accepted) {
      WrittenIsFound(s, id);
      FoundIsDelivered(Written(s, id), id, accepted);
    }
  }

  lemma StartsIff(s: State, id: OpId, accepted: bool)
    requires Fresh(s, id)
    ensures Starts(s, Calmed(DoBegin(s, id), accepted), id, accepted)
  {
    if s.ops[id].kind.LibraryUpdate? {
      UpdateStarts(s, id, accepted);
    } else if CanPrecede(s.ops[id].kind) {
      CreateStarts(s, id, accepted);
    } else {
      FetchedStarts(s, id, accepted);
    }
  }

  // A record that is read back without the marker: what was read is recorded, and
  // the operation is superseded. If the record is gone it stays as it is.
  lemma OvertakenIff(es: seq<Event>, accepted: bool)
    requires var s := Run(es);
             s.tx.Running? && s.tx.pc.Reread? && Library(s.tx.row.kind) && !Carries(s.store, s.tx.row.doc, s.tx.op)
    ensures var s, t := Run(es), Run(Drive(es, Calm(accepted)));
            var id, row := s.tx.op, s.tx.row;
            t == if row.doc !in s.store.current then s.(tx := Idle)
                 else s.(tx := Idle, ops := s.ops[id := row.(
                   state := Superseded,
                   published := if row.state == Queued then Some(s.store.current[row.doc]) else row.published)])
  {
    CalmDrive(es, accepted);
    OvertakenStage(Run(es), accepted);
  }

  lemma OvertakenStage(s: State, accepted: bool)
    requires WellFormed(s.store)
    requires s.tx.Running? && s.tx.pc.Reread? && Library(s.tx.row.kind) && !Carries(s.store, s.tx.row.doc, s.tx.op)
    ensures var id, row := s.tx.op, s.tx.row;
            Calmed(s, accepted)
            == if row.doc !in s.store.current then s.(tx := Idle)
               else s.(tx := Idle, ops := s.ops[id := row.(
                 state := Superseded,
                 published := if row.state == Queued then Some(s.store.current[row.doc]) else row.published)])
  {
    if s.tx.row.doc in s.store.current { assert IsCurrent(s.store, s.tx.row.doc); }
    var t := DoAdvance(s, accepted);
    CalmCall(s, accepted, t);
    if t.tx.Running? { FinishStage(t, accepted); }
  }

  // A queued repair first repairs its file and commits that; its record follows
  // with the next delivery. It is blocked on another revision than the one it was
  // planned on, and stays as it is while its record is missing.
  lemma RepairIff(es: seq<Event>, id: OpId, accepted: bool)
    requires var s := Run(es);
             s.tx.Idle? && id in s.ops && s.ops[id].started && s.ops[id].kind.RepairAsset? && s.ops[id].state == Queued
    ensures var s, t := Run(es), Run(Drive(es + [Begin(id)], Calm(accepted)));
            var row := s.ops[id];
            if accepted && row.doc in s.store.current && row.expected == Some(s.store.current[row.doc]) then
              t == s.(ops := s.ops[id := row.(state := AssetsPublished)])
            else t == TurnedDown(s, id)
  {
    TakenCalmly(es, id, accepted);
    RepairStage(Run(es), id, accepted);
  }

  lemma RepairStage(s: State, id: OpId, accepted: bool)
    requires WellFormed(s.store) && s.tx.Idle? && id in s.ops && s.ops[id].started
    requires s.ops[id].kind.RepairAsset? && s.ops[id].state == Queued
    ensures var row, t := s.ops[id], Calmed(DoBegin(s, id), accepted);
            if accepted && row.doc in s.store.current && row.expected == Some(s.store.current[row.doc]) then
              t == s.(ops := s.ops[id := row.(state := AssetsPublished)])
            else t == TurnedDown(s, id)
  {
    if s.ops[id].doc in s.store.current { assert IsCurrent(s.store, s.ops[id].doc); }
    var t := DoBegin(s, id);
    var u := DoAdvance(t, accepted);
    CalmCall(t, accepted, u);
    if u.tx.Running? { FinishStage(u, accepted); }
  }
}
