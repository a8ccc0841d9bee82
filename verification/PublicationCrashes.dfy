// Deliveries that crash. Wherever a delivery of an operation fails and however
// often, what it has written stands, what is missing is written by a later one,
// and nothing is written twice.
module PublicationCrashes {
  import opened Outcomes
  import opened GatewayStore
  import opened Publication
  import opened PublicationTurns
  import opened PublicationChain
  import opened PublicationRecovery

  // An operation that an undisturbed delivery would publish.
  ghost predicate Pursuable(s: State, id: OpId) {
    || (Fresh(s, id) && RecordReady(s, id, true) && Ready(Written(s, id).store, id, s.ops[id]))
    || (Found(s, id) && Ready(s.store, id, s.ops[id]))
  }

  // The Gateway's history once the operation is published.
  ghost function Goal(s: State, id: OpId): seq<Change>
    requires Pursuable(s, id)
  {
    if Fresh(s, id) then Written(s, id).store.history + Missing(Written(s, id).store, id, s.ops[id])
    else s.store.history + Missing(s.store, id, s.ops[id])
  }

  ghost predicate Aims(s: State, id: OpId, goal: seq<Change>) { Pursuable(s, id) && Goal(s, id) == goal }

  // ---- a transaction on its way ----

  predicate BookDone(st: Store, id: OpId, row: Op) { Restores(row) ==> Carries(st, row.kind.book.value, id) }

  predicate CommitDoneAt(st: Store, id: OpId, row: Op) { NeedsCommit(row) ==> Carries(st, CommitOf(id), id) }

  // Before the record: the row is the committed one.
  ghost predicate Early(s: State)
    requires s.tx.Running?
  {
    var id, row, doc := s.tx.op, s.tx.row, s.tx.row.doc;
    && id in s.ops && row == s.ops[id]
    && match s.tx.pc
       case CheckNew => row.kind.LibraryCreate? || row.kind.Upload?
       case CreateRecord => (row.kind.LibraryCreate? || row.kind.Upload?) && Fresh(Rollback(s), id)
       case Fetch => !row.kind.LibraryCreate? && !row.kind.Upload?
       case UpdateRecord(seen) =>
         && !row.kind.LibraryCreate? && !row.kind.Upload? && Fresh(Rollback(s), id)
         && doc in s.store.current && seen == s.store.current[doc]
       case Reread => CanPrecede(row.kind) && Found(Rollback(s), id)
       case _ => false
  }

  // After it: all earlier documents are there.
  ghost predicate Late(s: State)
    requires s.tx.Running?
  {
    var id, row := s.tx.op, s.tx.row;
    && id in s.ops && row.kind == s.ops[id].kind && row.commits == s.ops[id].commits && row.doc == s.ops[id].doc
    && Found(Rollback(s), id)
    && match s.tx.pc
       case Fetch => row.kind.Upload? && row.state == RecordPublished
       case FetchBook => Restores(row) && row.state == RecordPublished
       case UpdateBook(seen) =>
         && Restores(row) && row.state == RecordPublished && !Carries(s.store, row.kind.book.value, id)
         && row.kind.book.value in s.store.current && seen == s.store.current[row.kind.book.value]
       case CheckCommit => NeedsCommit(row) && BookDone(s.store, id, row)
       case CreateCommit => NeedsCommit(row) && BookDone(s.store, id, row) && CommitOf(id) !in s.store.current
       case CheckMessage => BookDone(s.store, id, row) && CommitDoneAt(s.store, id, row)
       case CreateMessage =>
         BookDone(s.store, id, row) && CommitDoneAt(s.store, id, row) && MessageOf(id) !in s.store.current
       case Finish =>
         && row.state == Published && BookDone(s.store, id, row) && CommitDoneAt(s.store, id, row)
         && Carries(s.store, MessageOf(id), id)
       case _ => false
  }

  // The operation is published or can still be pursued, to the same end.
  ghost predicate OnTrack(s: State, id: OpId, goal: seq<Change>) {
    && WellFormed(s.store) && id in s.ops
    && if s.tx.Running? then s.tx.op == id && Aims(Rollback(s), id, goal) && (Early(s) || Late(s))
       else Aims(s, id, goal) || (s.ops[id].state == Published && s.store.history == goal)
  }

  lemma GivingUp(s: State, id: OpId, goal: seq<Change>)
    requires OnTrack(s, id, goal)
    ensures OnTrack(Rollback(s), id, goal)
  {}

  // A call that only reads leaves the aim alone.
  lemma ReadAims(s: State, t: State, id: OpId, goal: seq<Change>)
    requires OnTrack(s, id, goal) && s.tx.Running? && t.store == s.store && t.ops == s.ops
    requires t.tx.Running? && t.tx.op == id && (Early(t) || Late(t))
    ensures OnTrack(t, id, goal)
  {
    assert Rollback(t) == Rollback(s);
  }

  lemma EarlyRead(s: State, id: OpId, goal: seq<Change>)
    requires OnTrack(s, id, goal) && s.tx.Running? && Early(s) && (s.tx.pc.CheckNew? || s.tx.pc.Fetch?)
    ensures OnTrack(DoAdvance(s, true), id, goal)
  {
    if s.tx.pc.CheckNew? { CheckedNew(s, id, goal); } else { Fetched(s, id, goal); }
  }

  lemma CheckedNew(s: State, id: OpId, goal: seq<Change>)
    requires OnTrack(s, id, goal) && s.tx.Running? && Early(s) && s.tx.pc.CheckNew?
    ensures OnTrack(DoAdvance(s, true), id, goal)
  {
    if s.tx.row.doc in s.store.current { assert IsCurrent(s.store, s.tx.row.doc); }
    ReadAims(s, DoAdvance(s, true), id, goal);
  }

  lemma Fetched(s: State, id: OpId, goal: seq<Change>)
    requires OnTrack(s, id, goal) && s.tx.Running? && Early(s) && s.tx.pc.Fetch?
    ensures OnTrack(DoAdvance(s, true), id, goal)
  {
    if s.tx.row.kind.LibraryUpdate? { LibraryFetched(s, id, goal); } else { RecordFetched(s, id, goal); }
  }

  lemma LibraryFetched(s: State, id: OpId, goal: seq<Change>)
    requires OnTrack(s, id, goal) && s.tx.Running? && Early(s) && s.tx.pc.Fetch? && s.tx.row.kind.LibraryUpdate?
    ensures OnTrack(DoAdvance(s, true), id, goal)
  {
    if s.tx.row.doc in s.store.current { assert IsCurrent(s.store, s.tx.row.doc); }
    ReadAims(s, DoAdvance(s, true), id, goal);
  }

  lemma RecordFetched(s: State, id: OpId, goal: seq<Change>)
    requires OnTrack(s, id, goal) && s.tx.Running? && Early(s) && s.tx.pc.Fetch? && !s.tx.row.kind.LibraryUpdate?
    ensures OnTrack(DoAdvance(s, true), id, goal)
  {
    if s.tx.row.doc in s.store.current { assert IsCurrent(s.store, s.tx.row.doc); }
    ReadAims(s, DoAdvance(s, true), id, goal);
  }

  lemma ReadBackAims(s: State, id: OpId, goal: seq<Change>)
    requires OnTrack(s, id, goal) && s.tx.Running? && s.tx.pc.Reread?
    ensures OnTrack(DoAdvance(s, true), id, goal)
  {
    assert IsCurrent(s.store, s.tx.row.doc);
    ReadAims(s, DoAdvance(s, true), id, goal);
  }

  lemma UploadReadAims(s: State, id: OpId, goal: seq<Change>)
    requires OnTrack(s, id, goal) && s.tx.Running? && s.tx.pc.Fetch? && Late(s)
    ensures OnTrack(DoAdvance(s, true), id, goal)
  {
    assert IsCurrent(s.store, s.tx.row.doc);
    ReadAims(s, DoAdvance(s, true), id, goal);
  }

  // The record's own write is the first part of the plan.
  lemma RecordAims(s: State, id: OpId, goal: seq<Change>)
    requires Aims(s, id, goal) && Fresh(s, id)
    ensures Aims(Written(s, id), id, goal) && Found(Written(s, id), id)
  {
    WrittenIsFound(s, id);
  }

  lemma UpdateMake(s: State) returns (t: State)
    requires WellFormed(s.store) && s.tx.Running? && s.tx.pc.UpdateRecord? && Early(s)
    ensures t == DoAdvance(s, true)
    ensures Rollback(t) == Written(Rollback(s), s.tx.op)
    ensures t.tx.Running? && t.tx.op == s.tx.op && t.tx.row.kind == s.tx.row.kind && t.tx.row.commits == s.tx.row.commits
    ensures t.tx.row.doc == s.tx.row.doc
    ensures if Library(s.tx.row.kind) then t.tx.pc == Reread && t.tx.row == s.tx.row
            else t.tx.pc == AfterRecord(t.tx.row) && t.tx.row.state == RecordPublished
  {
    assert IsCurrent(s.store, s.tx.row.doc);
    t := DoAdvance(s, true);
  }

  lemma CreateMake(s: State) returns (t: State)
    requires WellFormed(s.store) && s.tx.Running? && s.tx.pc.CreateRecord? && Early(s)
    requires s.tx.row.doc !in s.store.current
    ensures t == DoAdvance(s, true)
    ensures Rollback(t) == Written(Rollback(s), s.tx.op)
    ensures t.tx == s.tx.(pc := Reread)
  {
    t := DoAdvance(s, true);
  }

  lemma RecordUpdate(s: State, id: OpId, goal: seq<Change>)
    requires OnTrack(s, id, goal) && s.tx.Running? && s.tx.pc.UpdateRecord?
    ensures OnTrack(DoAdvance(s, true), id, goal)
  {
    var t := UpdateMake(s);
    RecordAims(Rollback(s), id, goal);
  }

  lemma RecordCreate(s: State, id: OpId, goal: seq<Change>)
    requires OnTrack(s, id, goal) && s.tx.Running? && s.tx.pc.CreateRecord?
    ensures OnTrack(DoAdvance(s, true), id, goal)
  {
    var t := CreateMake(s);
    RecordAims(Rollback(s), id, goal);
  }

  lemma LateRead(s: State, id: OpId, goal: seq<Change>)
    requires OnTrack(s, id, goal) && s.tx.Running? && Late(s)
    requires s.tx.pc.FetchBook? || s.tx.pc.CheckCommit? || s.tx.pc.CheckMessage?
    ensures OnTrack(DoAdvance(s, true), id, goal)
  {
    if s.tx.pc.FetchBook? {
      BookLooked(s, id, goal);
    } else if s.tx.pc.CheckCommit? {
      CommitLooked(s, id, goal);
    } else {
      MessageLooked(s, id, goal);
    }
  }

  lemma BookLooked(s: State, id: OpId, goal: seq<Change>)
    requires OnTrack(s, id, goal) && s.tx.Running? && Late(s) && s.tx.pc.FetchBook?
    ensures OnTrack(DoAdvance(s, true), id, goal)
  {
    var t := BookCheck(s, true);
    ReadAims(s, t, id, goal);
  }

  // Once the book is done, nothing but its own documents stands in the way.
  lemma OwnAtLast(s: State, id: OpId, goal: seq<Change>)
    requires Aims(s, id, goal) && Found(s, id) && BookDone(s.store, id, s.ops[id])
    ensures CommitReady(s.store, id, s.ops[id]) && Own(s.store, MessageOf(id), id)
  {
    assert Touched(s.store, id, s.ops[id]) == s.store;
  }

  lemma CommitLooked(s: State, id: OpId, goal: seq<Change>)
    requires OnTrack(s, id, goal) && s.tx.Running? && Late(s) && s.tx.pc.CheckCommit?
    ensures OnTrack(DoAdvance(s, true), id, goal)
  {
    var t := CommitCheck(s, true);
    OwnAtLast(Rollback(s), id, goal);
    ReadAims(s, t, id, goal);
  }

  lemma MessageLooked(s: State, id: OpId, goal: seq<Change>)
    requires OnTrack(s, id, goal) && s.tx.Running? && Late(s) && s.tx.pc.CheckMessage?
    ensures OnTrack(DoAdvance(s, true), id, goal)
  {
    var t := MessageCheck(s, true);
    OwnAtLast(Rollback(s), id, goal);
    ReadAims(s, t, id, goal);
  }

  lemma BookAims(s: State, t: State, id: OpId, goal: seq<Change>)
    requires Aims(s, id, goal) && Found(s, id) && Restores(s.ops[id]) && !Carries(s.store, s.ops[id].kind.book.value, id)
    requires t == s.(store := Touched(s.store, id, s.ops[id]))
    ensures WellFormed(t.store) && Found(t, id) && Aims(t, id, goal) && BookDone(t.store, id, t.ops[id])
  {
    var row := s.ops[id];
    assert IsCurrent(s.store, row.kind.book.value) && IsCurrent(s.store, row.doc);
    WriteKeepsWellFormed(s.store, Touch(s.store, id, row));
    assert t.store.history[|s.store.history|] == Touch(s.store, id, row);
    assert Touched(t.store, id, row) == t.store;
    assert Missing(s.store, id, row) == [Touch(s.store, id, row)] + MissingHere(t.store, id, row);
    assert Missing(t.store, id, row) == MissingHere(t.store, id, row);
  }

  lemma BookWrite(s: State, id: OpId, goal: seq<Change>)
    requires OnTrack(s, id, goal) && s.tx.Running? && Late(s) && s.tx.pc.UpdateBook?
    ensures OnTrack(DoAdvance(s, true), id, goal)
  {
    var t := BookMake(s, true);
    BookWritten(s, t, id, goal);
  }

  lemma BookWritten(s: State, t: State, id: OpId, goal: seq<Change>)
    requires OnTrack(s, id, goal) && s.tx.Running? && Late(s) && s.tx.pc.UpdateBook?
    requires t == Goto(s.(store := Touched(s.store, id, s.tx.row)), CheckCommit)
    ensures OnTrack(t, id, goal)
  {
    BookAims(Rollback(s), Rollback(t), id, goal);
  }

  // A document that was missing is made.
  lemma OnceAims(s: State, t: State, id: OpId, goal: seq<Change>, part: Part)
    requires Aims(s, id, goal) && Found(s, id) && BookDone(s.store, id, s.ops[id])
    requires part == Part.Commit || (part == Part.Message && CommitDoneAt(s.store, id, s.ops[id]))
    requires part == Part.Commit ==> NeedsCommit(s.ops[id])
    requires Only(id, part).doc !in s.store.current && t == s.(store := With(s.store, id, part))
    ensures WellFormed(t.store) && Found(t, id) && Aims(t, id, goal) && BookDone(t.store, id, t.ops[id])
    ensures Carries(t.store, Only(id, part).doc, id)
    ensures part.Message? ==> CommitDoneAt(t.store, id, t.ops[id])
  {
    var row := s.ops[id];
    assert IsCurrent(s.store, row.doc);
    WriteKeepsWellFormed(s.store, Only(id, part));
    assert t.store.history[|s.store.history|] == Only(id, part);
    assert Touched(s.store, id, row) == s.store && Touched(t.store, id, row) == t.store;
    assert MissingHere(s.store, id, row) == [Only(id, part)] + MissingHere(t.store, id, row);
    assert Missing(s.store, id, row) == MissingHere(s.store, id, row);
    assert Missing(t.store, id, row) == MissingHere(t.store, id, row);
  }

  lemma CommitWrite(s: State, id: OpId, goal: seq<Change>)
    requires OnTrack(s, id, goal) && s.tx.Running? && Late(s) && s.tx.pc.CreateCommit?
    ensures OnTrack(DoAdvance(s, true), id, goal)
  {
    var t := CommitMake(s, true);
    CommitWritten(s, t, id, goal);
  }

  lemma CommitWritten(s: State, t: State, id: OpId, goal: seq<Change>)
    requires OnTrack(s, id, goal) && s.tx.Running? && Late(s) && s.tx.pc.CreateCommit? && t == Committed(s)
    ensures OnTrack(t, id, goal)
  {
    OnceAims(Rollback(s), Rollback(t), id, goal, Part.Commit);
  }

  lemma MessageWrite(s: State, id: OpId, goal: seq<Change>)
    requires OnTrack(s, id, goal) && s.tx.Running? && Late(s) && s.tx.pc.CreateMessage?
    ensures OnTrack(DoAdvance(s, true), id, goal)
  {
    var t := MessageMake(s, true);
    MessageWritten(s, t, id, goal);
  }

  lemma MessageWritten(s: State, t: State, id: OpId, goal: seq<Change>)
    requires OnTrack(s, id, goal) && s.tx.Running? && Late(s) && s.tx.pc.CreateMessage?
    requires t == Settle(s.(store := With(s.store, id, Part.Message)), Published)
    ensures OnTrack(t, id, goal)
  {
    var r := s.(tx := Idle, store := With(s.store, id, Part.Message));
    OnceAims(Rollback(s), r, id, goal, Part.Message);
    AllMade(r, t, id, goal);
  }

  // With everything made, only the row is left to be committed.
  lemma AllMade(r: State, t: State, id: OpId, goal: seq<Change>)
    requires Aims(r, id, goal) && Found(r, id) && BookDone(r.store, id, r.ops[id])
    requires CommitDoneAt(r.store, id, r.ops[id]) && Carries(r.store, MessageOf(id), id)
    requires t.tx.Running? && t.tx.op == id && t.tx.pc.Finish? && Rollback(t) == r && t.tx.row.state == Published
    requires t.tx.row.kind == r.ops[id].kind && t.tx.row.commits == r.ops[id].commits && t.tx.row.doc == r.ops[id].doc
    ensures OnTrack(t, id, goal)
  {}

  lemma LastCall(s: State, id: OpId, goal: seq<Change>)
    requires OnTrack(s, id, goal) && s.tx.Running? && s.tx.pc.Finish?
    ensures var t := DoAdvance(s, true); OnTrack(t, id, goal) && t.tx.Idle?
  {
    var row := s.ops[id];
    assert Late(s);
    assert Touched(s.store, id, row) == s.store;
    assert Missing(s.store, id, row) == [];
  }

  lemma CallKeepsTrack(s: State, id: OpId, goal: seq<Change>)
    requires OnTrack(s, id, goal) && s.tx.Running?
    ensures OnTrack(DoAdvance(s, true), id, goal)
  {
    match s.tx.pc
    case CheckNew => EarlyRead(s, id, goal);
    case Fetch => if Early(s) { EarlyRead(s, id, goal); } else { UploadReadAims(s, id, goal); }
    case CreateRecord => RecordCreate(s, id, goal);
    case UpdateRecord(_) => RecordUpdate(s, id, goal);
    case Reread => ReadBackAims(s, id, goal);
    case FetchBook => LateRead(s, id, goal);
    case CheckCommit => LateRead(s, id, goal);
    case CheckMessage => LateRead(s, id, goal);
    case UpdateBook(_) => BookWrite(s, id, goal);
    case CreateCommit => CommitWrite(s, id, goal);
    case CreateMessage => MessageWrite(s, id, goal);
    case Finish => LastCall(s, id, goal);
  }

  // ---- deliveries ----

  // Any call may fail and any acknowledgement may be lost, while no one else acts
  // and what the change refers to stays there.
  ghost predicate Lonely(turns: nat -> Turn) { forall k :: turns(k).others == [] && turns(k).accepted }

  lemma LedKeepsTrack(s: State, t: State, id: OpId, goal: seq<Change>)
    requires OnTrack(s, id, goal) && s.tx.Running? && Leads(s, true, t)
    ensures OnTrack(t, id, goal)
  {
    CallKeepsTrack(s, id, goal);
    GivingUp(s, id, goal);
    GivingUp(DoAdvance(s, true), id, goal);
  }

  lemma LonelyTurn(es: seq<Event>, turn: Turn, id: OpId, goal: seq<Change>)
    requires turn.others == [] && turn.accepted && Run(es).tx.Running? && OnTrack(Run(es), id, goal)
    ensures OnTrack(Run(Turned(es, turn)), id, goal)
  {
    TurnState(es, turn);
    assert es + Acts([]) == es;
    LedKeepsTrack(Run(es), Run(Turned(es, turn)), id, goal);
  }

  lemma {:induction false} DriveKeepsTrack(es: seq<Event>, turns: nat -> Turn, id: OpId, goal: seq<Change>)
    requires Lonely(turns) && OnTrack(Run(es), id, goal)
    ensures OnTrack(Run(Drive(es, turns)), id, goal)
    decreases Left(Run(es).tx)
  {
    if Run(es).tx.Running? {
      var turn := turns(Slot(Run(es).tx.pc));
      LonelyTurn(es, turn, id, goal);
      TurnLeaves(es, turn);
      DriveKeepsTrack(Turned(es, turn), turns, id, goal);
    }
  }

  lemma TakenUp(s: State, id: OpId, goal: seq<Change>)
    requires s.tx.Idle? && OnTrack(s, id, goal)
    ensures OnTrack(DoBegin(s, id), id, goal)
  {}

  // Deliveries of the operation, each with its own failures.
  ghost function Deliveries(es: seq<Event>, id: OpId, failures: seq<nat -> Turn>): seq<Event> {
    if failures == [] then es
    else
      var n := |failures| - 1;
      Drive(Deliveries(es, id, failures[..n]) + [Begin(id)], failures[n])
  }

  lemma DeliveryKeepsTrack(es: seq<Event>, id: OpId, turns: nat -> Turn, goal: seq<Change>)
    requires Run(es).tx.Idle? && OnTrack(Run(es), id, goal) && Lonely(turns)
    ensures OnTrack(Run(Drive(es + [Begin(id)], turns)), id, goal)
  {
    var taken := es + [Begin(id)];
    BeginAt(es, id);
    TakenUp(Run(es), id, goal);
    DriveKeepsTrack(taken, turns, id, goal);
  }

  // What every delivery keeps, any number of deliveries keep.
  lemma {:induction false} DeliveriesKeep(
      es: seq<Event>, id: OpId, failures: seq<nat -> Turn>, holds: seq<Event> -> bool)
    requires holds(es)
    requires forall before, turns :: holds(before) && turns in failures ==> holds(Drive(before + [Begin(id)], turns))
    ensures holds(Deliveries(es, id, failures))
    decreases |failures|
  {
    if failures != [] {
      var n := |failures| - 1;
      assert forall turns <- failures[..n] :: turns in failures;
      DeliveriesKeep(es, id, failures[..n], holds);
      assert failures[n] in failures;
    }
  }

  lemma DeliveriesKeepTrack(es: seq<Event>, id: OpId, failures: seq<nat -> Turn>, goal: seq<Change>)
    requires Run(es).tx.Idle? && OnTrack(Run(es), id, goal)
    requires forall turns <- failures :: Lonely(turns)
    ensures var s := Run(Deliveries(es, id, failures)); s.tx.Idle? && OnTrack(s, id, goal)
  {
    var holds := (before: seq<Event>) => Run(before).tx.Idle? && OnTrack(Run(before), id, goal);
    forall before, turns | holds(before) && turns in failures ensures holds(Drive(before + [Begin(id)], turns)) {
      DeliveryKeepsTrack(before, id, turns, goal);
    }
    DeliveriesKeep(es, id, failures, holds);
  }

  // One undisturbed delivery reaches the goal.
  lemma CalmReachesGoal(es: seq<Event>, id: OpId, goal: seq<Change>)
    requires Run(es).tx.Idle? && OnTrack(Run(es), id, goal)
    ensures var t := Run(Drive(es + [Begin(id)], Calm(true)));
            id in t.ops && t.ops[id].state == Published && t.store.history == goal
  {
    var s := Run(es);
    TakenCalmly(es, id, true);
    if s.ops[id].state == Published {
    } else if Fresh(s, id) {
      PublishesIff(es, id, true);
    } else {
      RecordFound(s, id, true);
      FoundIsDelivered(s, id, true);
    }
  }

  // However many deliveries crash, and wherever they do, the next undisturbed one
  // publishes the operation, and the Gateway ends with the same changes as if
  // none had crashed: one of the record and one of each document that was missing.
  lemma CrashesAreHarmless(es: seq<Event>, id: OpId, failures: seq<nat -> Turn>)
    requires Pursuable(Run(es), id)
    requires forall turns <- failures :: Lonely(turns)
    ensures var crashed := Deliveries(es, id, failures);
            var t := Run(Drive(crashed + [Begin(id)], Calm(true)));
            id in t.ops && t.ops[id].state == Published && t.store.history == Goal(Run(es), id)
  {
    var goal := Goal(Run(es), id);
    DeliveriesKeepTrack(es, id, failures, goal);
    CalmReachesGoal(Deliveries(es, id, failures), id, goal);
  }
}
