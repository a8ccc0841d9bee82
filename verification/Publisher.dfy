// The publisher as the server runs it: one locked transaction over the operation
// table, with Gateway calls between which the rest of the world goes on. Every
// method makes exactly the run of the state machine that the turns it is given
// allow; when none of them fails, it makes every call of the transaction.
module Publisher {
  import opened Outcomes
  import opened GatewayStore
  import opened Publication
  import opened PublicationSafety
  import opened PublicationTurns

  // Where a transaction is: over, or before its next call.
  datatype Flow = Over | Next(pc: Pc, row: Op)

  class Service {
    var ops: map<OpId, Op>
    var store: Store
    ghost var events: seq<Event>

    constructor ()
      ensures Valid() && ops == map[] && events == []
    {
      ops, store, events := map[], Store(map[], []), [];
    }

    ghost predicate At(tx: Tx)
      reads this
    { Run(events) == State(ops, store, tx) }

    ghost predicate Valid()
      reads this
    { At(Idle) }

    ghost predicate Follows(id: OpId, flow: Flow)
      reads this
    {
      match flow
      case Over => Valid()
      case Next(pc, row) => At(Running(id, pc, row))
    }

    // Others act; they neither wait for the transaction nor see its rows.
    method Others(ghost tx: Tx, others: seq<Event>)
      requires At(tx)
      modifies this
      ensures At(tx) && events == old(events) + Acts(others)
    {
      assert events + [] == events;
      for i := 0 to |others|
        invariant At(tx) && events == old(events) + Acts(others[..i])
      {
        assert others[..i + 1][..i] == others[..i];
        if Concurrent(others[i]) {
          RunOn(events, others[i]);
          ConcurrentKeepsTx(State(ops, store, tx), others[i]);
          var s := Step(State(ops, store, Idle), others[i]);
          ops, store, events := s.ops, s.store, events + [others[i]];
        }
      }
      assert others[..|others|] == others;
    }

    // The transaction is given up: its rows are rolled back, what the Gateway
    // has accepted stays.
    ghost method GiveUp(tx: Tx)
      requires At(tx)
      modifies this`events
      ensures Valid() && events == old(events) + [Abort]
    {
      RunOn(events, Abort);
      events := events + [Abort];
    }

    // What others do before a call, and whether the call fails.
    method Call(id: OpId, pc: Pc, row: Op, turns: nat -> Turn) returns (ok: bool)
      requires At(Running(id, pc, row))
      modifies this
      ensures ok == !turns(Slot(pc)).fails
      ensures ok ==> At(Running(id, pc, row)) && events == old(events) + Acts(turns(Slot(pc)).others)
      ensures !ok ==> Valid() && EndAlike(old(events), events, turns)
    {
      var turn := turns(Slot(pc));
      ghost var before := events;
      Others(Running(id, pc, row), turn.others);
      if turn.fails { GiveUp(Running(id, pc, row)); }
      ok := !turn.fails;
    }

    // The next call of the running transaction was made.
    ghost method Made(id: OpId, pc: Pc, row: Op, accepted: bool, flow: Flow)
      requires Run(events).tx == Running(id, pc, row)
      requires var s := DoAdvance(Run(events), accepted);
               s == State(ops, store, if flow.Over? then Idle else Running(id, flow.pc, flow.row))
      modifies this`events
      ensures Follows(id, flow) && events == old(events) + [Advance(accepted)]
    {
      RunOn(events, Advance(accepted));
      events := events + [Advance(accepted)];
    }

    // How a call that was made is answered: the acknowledgement of a write that
    // took effect may be lost.
    method Answered(ghost before: seq<Event>, id: OpId, pc: Pc, row: Op, turns: nat -> Turn, was: Flow)
      returns (flow: Flow)
      requires Run(before).tx == Run(events).tx == Running(id, pc, row)
      requires events == before + Acts(turns(Slot(pc)).others) && !turns(Slot(pc)).fails
      requires var s := DoAdvance(Run(events), turns(Slot(pc)).accepted);
               s == State(ops, store, if was.Over? then Idle else Running(id, was.pc, was.row))
      modifies this`events
      ensures Follows(id, flow) && EndAlike(before, events, turns)
      ensures flow == if Writes(pc) && turns(Slot(pc)).ackLost then Over else was
    {
      var turn := turns(Slot(pc));
      TurnEndsAlike(before, turns);
      Made(id, pc, row, turn.accepted, was);
      if Writes(pc) && turn.ackLost {
        if was.Next? { GiveUp(Running(id, was.pc, was.row)); }
        return Over;
      }
      return was;
    }

    // ---- the record ----

    // A library change reads the record and checks its fence.
    method FetchLibrary(id: OpId, row: Op, turns: nat -> Turn) returns (flow: Flow)
      requires At(Running(id, Fetch, row)) && row.kind.LibraryUpdate?
      modifies this
      ensures Follows(id, flow) && EndAlike(old(events), events, turns)
      ensures flow.Next? ==> flow.row.kind == row.kind && (flow.pc.Finish? || flow.pc.Reread? || flow.pc.UpdateRecord?)
    {
      var turn := turns(2);
      ghost var before := events;
      var ok := Call(id, Fetch, row, turns);
      if !ok { return Over; }
      var live := Get(store, row.doc);
      if live.None? {
        flow := Next(Finish, row.(state := Blocked));
      } else if live.value.1.marker == Some(id) {
        flow := Next(Reread, row);
      } else if Waiting(ops, row.kind.after) {
        flow := Over;
      } else {
        var fence := row.expected;
        if row.kind.after.Some? {
          fence := if row.kind.after.value in ops then ops[row.kind.after.value].published else None;
        }
        if fence != Some(live.value.0) || !turn.accepted {
          flow := Next(Finish, row.(state := Blocked));
        } else {
          flow := Next(UpdateRecord(live.value.0), row);
        }
      }
      flow := Answered(before, id, Fetch, row, turns, flow);
    }

    // A note, a repair or a reader record: read, then decide by its stage.
    method FetchRecord(id: OpId, row: Op, turns: nat -> Turn) returns (flow: Flow)
      requires At(Running(id, Fetch, row)) && !Library(row.kind)
      modifies this
      ensures Follows(id, flow) && EndAlike(old(events), events, turns)
      ensures flow.Next? ==> flow.row.kind == row.kind
                             && (flow.pc.Finish? || flow.pc.UpdateRecord? || flow.pc == AfterRecord(flow.row))
    {
      var turn := turns(2);
      ghost var before := events;
      var ok := Call(id, Fetch, row, turns);
      if !ok { return Over; }
      var live := Get(store, row.doc);
      if live.None? {
        flow := Over;
      } else if row.kind.RepairAsset? && row.state == Queued {
        flow := Next(Finish, row.(state := if row.expected != Some(live.value.0) || !turn.accepted then Blocked
                                           else AssetsPublished));
      } else {
        flow := Decide(id, row, live.value.0, live.value.1.marker == Some(id), turn.accepted);
      }
      flow := Answered(before, id, Fetch, row, turns, flow);
    }

    method Decide(id: OpId, row: Op, rev: Rev, mine: bool, accepted: bool) returns (flow: Flow)
      ensures flow ==
        if row.state == Queued || row.state == AssetsPublished then
          if mine then
            var read := row.(state := RecordPublished, published := Some(rev));
            Next(AfterRecord(read), read)
          else if row.expected != Some(rev) || !accepted then Next(Finish, row.(state := Blocked))
          else Next(UpdateRecord(rev), row)
        else if mine then Next(AfterRecord(row), row)
        else Next(Finish, row.(state := Superseded))
    {
      var now := row;
      if row.state == Queued || row.state == AssetsPublished {
        if !mine {
          if row.expected != Some(rev) || !accepted { return Next(Finish, row.(state := Blocked)); }
          return Next(UpdateRecord(rev), row);
        }
        now := row.(state := RecordPublished, published := Some(rev));
      }
      if !mine { return Next(Finish, now.(state := Superseded)); }
      return Next(AfterRecord(now), now);
    }

    // PUT of the changed record, on the revision that was read.
    method PutRecord(id: OpId, row: Op, seen: Rev, turns: nat -> Turn) returns (flow: Flow)
      requires At(Running(id, UpdateRecord(seen), row))
      modifies this
      ensures Follows(id, flow) && EndAlike(old(events), events, turns)
      ensures flow.Next? ==> flow.row.kind == row.kind
                             && flow.pc == if Library(row.kind) then Reread else AfterRecord(flow.row)
    {
      ghost var before := events;
      var ok := Call(id, UpdateRecord(seen), row, turns);
      if !ok { return Over; }
      var put: Option<Store> := None;
      if seen < |store.history| {
        put := Write(store, Change(row.doc, Some(seen), Server(id, Main), Some(id),
                                   store.history[seen].fields + row.changes, true));
      }
      flow := Over;
      if put.Some? {
        var rev := |store.history|;
        store := put.value;
        if Library(row.kind) {
          flow := Next(Reread, row);
        } else {
          var written := row.(state := RecordPublished, published := Some(rev));
          flow := Next(AfterRecord(written), written);
        }
      }
      flow := Answered(before, id, UpdateRecord(seen), row, turns, flow);
    }

    // The record is read back and its revision recorded.
    method ReadBack(id: OpId, row: Op, turns: nat -> Turn) returns (flow: Flow)
      requires At(Running(id, Reread, row))
      modifies this
      ensures Follows(id, flow) && EndAlike(old(events), events, turns)
      ensures flow.Next? ==> flow.row.kind == row.kind
                             && (flow.pc.Finish? || flow.pc == if row.kind.Upload? then Fetch else AfterRecord(flow.row))
    {
      ghost var before := events;
      var ok := Call(id, Reread, row, turns);
      if !ok { return Over; }
      var live := Get(store, row.doc);
      if live.None? {
        flow := Over;
      } else {
        var read := row;
        if row.state == Queued { read := row.(state := RecordPublished, published := Some(live.value.0)); }
        if row.kind.Upload? {
          flow := Next(Fetch, read);
        } else if live.value.1.marker != Some(id) {
          flow := Next(Finish, read.(state := Superseded));
        } else {
          flow := Next(AfterRecord(read), read);
        }
      }
      flow := Answered(before, id, Reread, row, turns, flow);
    }

    // ---- documents made once ----

    // GET, and PUT only if the document is missing.
    method PutIdempotent(id: OpId, row: Op, part: Part, turns: nat -> Turn) returns (flow: Flow)
      requires part.Commit? || part.Message?
      requires At(Running(id, if part.Commit? then CheckCommit else CheckMessage, row))
      modifies this
      ensures Follows(id, flow) && EndAlike(old(events), events, turns)
      ensures flow.Next? ==> flow == After(part, row)
    {
      flow := CheckOnce(id, row, part, turns);
      if flow.Next? && (flow.pc.CreateCommit? || flow.pc.CreateMessage?) {
        ghost var looked := events;
        flow := CreateOnce(id, row, part, turns);
        AlikeTwice(old(events), looked, events, turns);
      }
    }

    method CheckOnce(id: OpId, row: Op, part: Part, turns: nat -> Turn) returns (flow: Flow)
      requires part.Commit? || part.Message?
      requires At(Running(id, if part.Commit? then CheckCommit else CheckMessage, row))
      modifies this
      ensures Follows(id, flow) && EndAlike(old(events), events, turns)
      ensures flow.Next? ==> flow == After(part, row)
                             || flow == Next(if part.Commit? then CreateCommit else CreateMessage, row)
    {
      ghost var before := events;
      var check := if part.Commit? then CheckCommit else CheckMessage;
      var ok := Call(id, check, row, turns);
      if !ok { return Over; }
      var existing := Get(store, if part.Commit? then CommitOf(id) else MessageOf(id));
      if existing.Some? {
        flow := if existing.value.1.marker == Some(id) then After(part, row) else Over;
      } else {
        flow := Next(if part.Commit? then CreateCommit else CreateMessage, row);
      }
      flow := Answered(before, id, check, row, turns, flow);
    }

    method CreateOnce(id: OpId, row: Op, part: Part, turns: nat -> Turn) returns (flow: Flow)
      requires part.Commit? || part.Message?
      requires At(Running(id, if part.Commit? then CreateCommit else CreateMessage, row))
      modifies this
      ensures Follows(id, flow) && EndAlike(old(events), events, turns)
      ensures flow.Next? ==> flow == After(part, row)
    {
      ghost var before := events;
      var create := if part.Commit? then CreateCommit else CreateMessage;
      var ok := Call(id, create, row, turns);
      if !ok { return Over; }
      var doc := if part.Commit? then CommitOf(id) else MessageOf(id);
      var put := Write(store, Change(doc, None, Server(id, part), Some(id), map[], true));
      flow := Over;
      if put.Some? {
        store := put.value;
        flow := After(part, row);
      }
      flow := Answered(before, id, create, row, turns, flow);
    }

    static function After(part: Part, row: Op): Flow {
      if part.Message? then Next(Finish, row.(state := Published))
      else Next(CheckMessage, if Library(row.kind) then row else row.(state := CommitPublished))
    }

    // A new record, under the id the plan gave it.
    method PutNew(id: OpId, row: Op, turns: nat -> Turn) returns (flow: Flow)
      requires At(Running(id, CheckNew, row))
      modifies this
      ensures Follows(id, flow) && EndAlike(old(events), events, turns)
      ensures flow.Next? ==> flow.row.kind == row.kind && (flow.pc.Finish? || flow.pc.Reread?)
    {
      flow := CheckRecord(id, row, turns);
      if flow.Next? && flow.pc.CreateRecord? {
        ghost var looked := events;
        flow := CreateNew(id, row, turns);
        AlikeTwice(old(events), looked, events, turns);
      }
    }

    method CheckRecord(id: OpId, row: Op, turns: nat -> Turn) returns (flow: Flow)
      requires At(Running(id, CheckNew, row))
      modifies this
      ensures Follows(id, flow) && EndAlike(old(events), events, turns)
      ensures flow.Next? ==> flow.row.kind == row.kind && (flow.pc.Finish? || flow.pc.Reread? || flow == Next(CreateRecord, row))
    {
      var look := turns(0);
      ghost var before := events;
      var ok := Call(id, CheckNew, row, turns);
      if !ok { return Over; }
      var existing := Get(store, row.doc);
      if Library(row.kind) && !look.accepted {
        flow := Next(Finish, row.(state := Blocked));
      } else if existing.None? {
        flow := Next(CreateRecord, row);
      } else if existing.value.1.marker == Some(id) {
        flow := Next(Reread, row);
      } else {
        flow := if Library(row.kind) then Next(Finish, row.(state := Blocked)) else Over;
      }
      flow := Answered(before, id, CheckNew, row, turns, flow);
    }

    method CreateNew(id: OpId, row: Op, turns: nat -> Turn) returns (flow: Flow)
      requires At(Running(id, CreateRecord, row))
      modifies this
      ensures Follows(id, flow) && EndAlike(old(events), events, turns)
      ensures flow.Next? ==> flow == Next(Reread, row)
    {
      ghost var before := events;
      var ok := Call(id, CreateRecord, row, turns);
      if !ok { return Over; }
      var put := Write(store, Change(row.doc, None, Server(id, Main), Some(id), row.changes, true));
      flow := Over;
      if put.Some? {
        store := put.value;
        flow := Next(Reread, row);
      }
      flow := Answered(before, id, CreateRecord, row, turns, flow);
    }

    // The book a restored reader record belongs to is touched once.
    method TouchBook(id: OpId, row: Op, turns: nat -> Turn) returns (flow: Flow)
      requires At(Running(id, FetchBook, row)) && row.kind.ReaderRestore? && row.kind.book.Some?
      modifies this
      ensures Follows(id, flow) && EndAlike(old(events), events, turns)
      ensures flow.Next? ==> flow.row.kind == row.kind && (flow.pc.Finish? || flow == Next(CheckCommit, row))
    {
      flow := CheckBook(id, row, turns);
      if flow.Next? && flow.pc.UpdateBook? {
        ghost var looked := events;
        flow := PutBook(id, row, flow.pc.seen, turns);
        AlikeTwice(old(events), looked, events, turns);
      }
    }

    method CheckBook(id: OpId, row: Op, turns: nat -> Turn) returns (flow: Flow)
      requires At(Running(id, FetchBook, row)) && row.kind.ReaderRestore? && row.kind.book.Some?
      modifies this
      ensures Follows(id, flow) && EndAlike(old(events), events, turns)
      ensures flow.Next? ==> flow.row.kind == row.kind && (flow.row == row || flow.pc.Finish?)
                             && (flow.pc.Finish? || flow.pc.UpdateBook? || flow.pc.CheckCommit?)
    {
      ghost var before := events;
      var ok := Call(id, FetchBook, row, turns);
      if !ok { return Over; }
      var book := Get(store, row.kind.book.value);
      if book.None? {
        flow := Over;
      } else if book.value.1.marker == Some(id) {
        flow := Next(CheckCommit, row);
      } else if row.kind.bookRevision != Some(book.value.0) {
        flow := Next(Finish, row.(state := Blocked));
      } else {
        flow := Next(UpdateBook(book.value.0), row);
      }
      flow := Answered(before, id, FetchBook, row, turns, flow);
    }

    method PutBook(id: OpId, row: Op, seen: Rev, turns: nat -> Turn) returns (flow: Flow)
      requires At(Running(id, UpdateBook(seen), row)) && row.kind.ReaderRestore? && row.kind.book.Some?
      modifies this
      ensures Follows(id, flow) && EndAlike(old(events), events, turns)
      ensures flow.Next? ==> flow == Next(CheckCommit, row)
    {
      ghost var before := events;
      var ok := Call(id, UpdateBook(seen), row, turns);
      if !ok { return Over; }
      var put: Option<Store> := None;
      if seen < |store.history| {
        put := Write(store, Change(row.kind.book.value, Some(seen), Server(id, Companion), Some(id),
                                   store.history[seen].fields, true));
      }
      flow := Over;
      if put.Some? {
        store := put.value;
        flow := Next(CheckCommit, row);
      }
      flow := Answered(before, id, UpdateBook(seen), row, turns, flow);
    }

    // ---- the whole operation ----

    // The database commit, which is the last call of all.
    method Commit(id: OpId, row: Op, turns: nat -> Turn) returns (done: bool)
      requires At(Running(id, Finish, row))
      modifies this
      ensures Valid() && EndAlike(old(events), events, turns)
      ensures done == !turns(11).fails && (done ==> id in ops && ops[id] == row)
    {
      ghost var before := events;
      done := Call(id, Finish, row, turns);
      if !done { return; }
      ops := ops[id := row];
      var over := Answered(before, id, Finish, row, turns, Over);
    }

    // After the record: its book, the commit and the message.
    method Announce(id: OpId, start: Flow, turns: nat -> Turn) returns (published: bool)
      requires Follows(id, start)
      requires start.Next? ==> start.pc.Finish? || start.pc == AfterRecord(start.row)
      modifies this
      ensures Valid() && EndAlike(old(events), events, turns)
      ensures published ==> id in ops && ops[id].state == Published
    {
      var flow := start;
      if flow.Next? && flow.pc.FetchBook? { flow := TouchBook(id, flow.row, turns); }
      ghost var touched := events;
      published := AnnounceCommit(id, flow, turns);
      AlikeTwice(old(events), touched, events, turns);
    }

    method AnnounceCommit(id: OpId, start: Flow, turns: nat -> Turn) returns (published: bool)
      requires Follows(id, start)
      requires start.Next? ==> start.pc.Finish? || start.pc.CheckCommit? || start.pc.CheckMessage?
      modifies this
      ensures Valid() && EndAlike(old(events), events, turns)
      ensures published ==> id in ops && ops[id].state == Published
    {
      var flow := start;
      if flow.Next? && flow.pc.CheckCommit? { flow := PutIdempotent(id, flow.row, Part.Commit, turns); }
      ghost var committed := events;
      published := AnnounceMessage(id, flow, turns);
      AlikeTwice(old(events), committed, events, turns);
    }

    method AnnounceMessage(id: OpId, start: Flow, turns: nat -> Turn) returns (published: bool)
      requires Follows(id, start)
      requires start.Next? ==> start.pc.Finish? || start.pc.CheckMessage?
      modifies this
      ensures Valid() && EndAlike(old(events), events, turns)
      ensures published ==> id in ops && ops[id].state == Published
    {
      var flow := start;
      if flow.Next? && flow.pc.CheckMessage? { flow := PutIdempotent(id, flow.row, Part.Message, turns); }
      if flow.Over? { return false; }
      ghost var sent := events;
      var done := Commit(id, flow.row, turns);
      AlikeTwice(old(events), sent, events, turns);
      return done && flow.row.state == Published;
    }

    // One library change.
    method PublishLibrary(id: OpId, row: Op, turns: nat -> Turn) returns (published: bool)
      requires At(Running(id, FirstPc(row), row)) && Library(row.kind)
      modifies this
      ensures Valid() && EndAlike(old(events), events, turns)
      ensures published ==> id in ops && ops[id].state == Published
    {
      var flow := WriteLibrary(id, row, turns);
      ghost var written := events;
      if flow.Next? && flow.pc.Reread? { flow := ReadBack(id, flow.row, turns); }
      ghost var read := events;
      published := Announce(id, flow, turns);
      AlikeTwice(old(events), written, read, turns);
      AlikeTwice(old(events), read, events, turns);
    }

    method WriteLibrary(id: OpId, row: Op, turns: nat -> Turn) returns (flow: Flow)
      requires At(Running(id, FirstPc(row), row)) && Library(row.kind)
      modifies this
      ensures Follows(id, flow) && EndAlike(old(events), events, turns)
      ensures flow.Next? ==> flow.row.kind == row.kind && (flow.pc.Finish? || flow.pc.Reread?)
    {
      if row.state != Queued { return Next(Reread, row); }
      if row.kind.LibraryCreate? {
        flow := PutNew(id, row, turns);
        return;
      }
      flow := FetchLibrary(id, row, turns);
      if flow.Next? && flow.pc.UpdateRecord? {
        ghost var read := events;
        flow := PutRecord(id, flow.row, flow.pc.seen, turns);
        AlikeTwice(old(events), read, events, turns);
      }
    }

    // One note, repair, reader record or uploaded book.
    method PublishRecord(id: OpId, row: Op, turns: nat -> Turn) returns (published: bool)
      requires At(Running(id, FirstPc(row), row)) && !Library(row.kind)
      modifies this
      ensures Valid() && EndAlike(old(events), events, turns)
      ensures published ==> id in ops && ops[id].state == Published
    {
      var flow := Next(FirstPc(row), row);
      if row.kind.Upload? && row.state == Queued { flow := PutUpload(id, row, turns); }
      ghost var put := events;
      if flow.Next? && flow.pc.Fetch? { flow := WriteRecord(id, flow.row, turns); }
      ghost var written := events;
      published := Announce(id, flow, turns);
      AlikeTwice(old(events), put, written, turns);
      AlikeTwice(old(events), written, events, turns);
    }

    method PutUpload(id: OpId, row: Op, turns: nat -> Turn) returns (flow: Flow)
      requires At(Running(id, CheckNew, row)) && row.kind.Upload?
      modifies this
      ensures Follows(id, flow) && EndAlike(old(events), events, turns)
      ensures flow.Next? ==> flow.row.kind == row.kind && (flow.pc.Finish? || flow.pc.Fetch?)
    {
      flow := PutNew(id, row, turns);
      if flow.Next? && flow.pc.Reread? {
        ghost var put := events;
        flow := ReadBack(id, flow.row, turns);
        AlikeTwice(old(events), put, events, turns);
      }
    }

    method WriteRecord(id: OpId, row: Op, turns: nat -> Turn) returns (flow: Flow)
      requires At(Running(id, Fetch, row)) && !Library(row.kind)
      modifies this
      ensures Follows(id, flow) && EndAlike(old(events), events, turns)
      ensures flow.Next? ==> flow.row.kind == row.kind && (flow.pc.Finish? || flow.pc == AfterRecord(flow.row))
    {
      flow := FetchRecord(id, row, turns);
      if flow.Next? && flow.pc.UpdateRecord? {
        ghost var read := events;
        flow := PutRecord(id, flow.row, flow.pc.seen, turns);
        AlikeTwice(old(events), read, events, turns);
      }
    }

    // The start marker is committed on its own before anything is written; then
    // the operation is taken up again. A replaced library blocks it, a removed
    // notebook cancels it.
    method PublishOne(id: OpId, replaced: bool, purged: bool, turns: nat -> Turn) returns (published: bool)
      requires Valid()
      modifies this
      ensures Valid() && events == Attempt(old(events), id, replaced, purged, turns)
      ensures published ==> id in ops && ops[id].state == Published
      decreases id in ops && Selectable(ops[id].state) && !ops[id].started
    {
      if id !in ops || !Selectable(ops[id].state) { return false; }
      if replaced {
        RunOn(events, Refuse(id, true));
        events := events + [Refuse(id, true)];
        ops := ops[id := ops[id].(state := Blocked)];
        return false;
      }
      if !ops[id].started {
        RunOn(events, Begin(id));
        events := events + [Begin(id)];
        ops := ops[id := ops[id].(started := true)];
        published := PublishOne(id, replaced, purged, turns);
        return;
      }
      if purged {
        RunOn(events, Refuse(id, false));
        events := events + [Refuse(id, false)];
        ops := ops[id := ops[id].(state := Cancelled)];
        return false;
      }
      published := PublishTaken(id, ops[id], turns);
    }

    // The operation is taken up.
    method PublishTaken(id: OpId, row: Op, turns: nat -> Turn) returns (published: bool)
      requires Valid() && id in ops && row == ops[id] && Selectable(row.state) && row.started
      modifies this
      ensures Valid() && events == Drive(old(events) + [Begin(id)], turns)
      ensures published ==> id in ops && ops[id].state == Published
    {
      RunOn(events, Begin(id));
      events := events + [Begin(id)];
      ghost var taken := events;
      if Library(row.kind) {
        published := PublishLibrary(id, row, turns);
      } else {
        published := PublishRecord(id, row, turns);
      }
      EndedAlike(taken, events, turns);
    }
  }
}
