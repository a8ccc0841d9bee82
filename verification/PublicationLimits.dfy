// Where the recorded revision is not the one the server wrote: a library change
// is read back after its PUT, and a device may have edited the record in between.
// And where a creation that was written is blocked when it is taken up again.
module PublicationLimits {
  import opened Outcomes
  import opened GatewayStore
  import opened Publication

  const BOOK := Record("book")

  // A change of a book, and a second change chained after it.
  const FIRST := Op(LibraryUpdate(None), BOOK, Some(0), map["name" := "first"], false, Queued, true, None)
  const SECOND := Op(LibraryUpdate(Some(1)), BOOK, None, map["name" := "second"], false, Queued, true, None)
  const READ := FIRST.(state := RecordPublished, published := Some(2))
  const DONE := READ.(state := Published)

  const MADE := Change(BOOK, None, Outside, None, map["name" := "old"], true)
  const WRITTEN := Change(BOOK, Some(0), Server(1, Main), Some(1), map["name" := "first"], true)
  const EDITED := Change(BOOK, Some(1), Outside, Some(1), map["name" := "device"], true)
  const NOTICE := Change(MessageOf(1), None, Server(1, Message), Some(1), map[], true)
  const LOST := Change(BOOK, Some(2), Server(2, Main), Some(2), map["name" := "second"], true)

  const QUEUED := map[1 := FIRST, 2 := SECOND.(started := false)]
  const ONE_DONE := map[1 := DONE, 2 := SECOND.(started := false)]
  const BOTH := map[1 := DONE, 2 := SECOND]

  const STORE0 := Store(map[BOOK := 0], [MADE])
  const STORE1 := Store(map[BOOK := 1], [MADE, WRITTEN])
  const STORE2 := Store(map[BOOK := 2], [MADE, WRITTEN, EDITED])
  const STORE3 := Store(map[BOOK := 2, MessageOf(1) := 3], [MADE, WRITTEN, EDITED, NOTICE])
  const STORE4 := Store(map[BOOK := 4, MessageOf(1) := 3], [MADE, WRITTEN, EDITED, NOTICE, LOST])

  ghost predicate Reached(s: State) { exists es :: Run(es) == s }

  lemma ReachedStore(s: State)
    requires Reached(s)
    ensures WellFormed(s.store)
  {}

  lemma Play(s: State, e: Event)
    requires Reached(s)
    ensures WellFormed(s.store) && Reached(Step(s, e))
  {
    var es :| Run(es) == s;
    assert (es + [e])[..|es|] == es;
    assert Run(es + [e]) == Step(s, e);
  }

  // The same with an edit that drops the marker: the first change is superseded,
  // and its row has the device's revision all the same.
  const DROPPED := EDITED.(marker := None)
  const OVERTAKEN := READ.(state := Superseded)
  const ONE_OVERTAKEN := map[1 := OVERTAKEN, 2 := SECOND.(started := false)]
  const BOTH_OVERTAKEN := map[1 := OVERTAKEN, 2 := SECOND]
  const STORE5 := Store(map[BOOK := 2], [MADE, WRITTEN, DROPPED])
  const STORE6 := Store(map[BOOK := 3], [MADE, WRITTEN, DROPPED, LOST])

  lemma PlayUpdate(s: State, seen: Rev, c: Change, t: Store)
    requires Reached(s) && s.tx.Running? && s.tx.pc == UpdateRecord(seen) && Library(s.tx.row.kind)
    requires seen < |s.store.history| && Write(s.store, c) == Some(t)
    requires c == Change(Target(s.tx.op, s.tx.row, Main), Some(seen), Server(s.tx.op, Main), Some(s.tx.op),
                         s.store.history[seen].fields + s.tx.row.changes, true)
    ensures Reached(s.(store := t, tx := s.tx.(pc := Reread)))
  {
    Play(s, Advance(true));
  }

  lemma PlayDevice(s: State, d: DocId, keepsMarker: bool, fields: Fields, c: Change, t: Store)
    requires Reached(s) && WellFormed(s.store) && c == DeviceChange(s.store, d, keepsMarker, fields)
    requires Write(s.store, c) == Some(t)
    ensures Reached(s.(store := t))
  {
    Play(s, DeviceWrite(d, keepsMarker, fields));
  }

  lemma PlayMessage(s: State, t: Store)
    requires Reached(s) && s.tx.Running? && s.tx.pc == CreateMessage
    requires ServerWrite(s, Message, None, map[]) == Some(t)
    ensures Reached(s.(store := t, tx := s.tx.(row := s.tx.row.(state := Published), pc := Finish)))
  {
    Play(s, Advance(true));
  }

  lemma Stores()
    ensures Write(STORE0, WRITTEN) == Some(STORE1) && Write(STORE1, EDITED) == Some(STORE2)
    ensures Write(STORE2, NOTICE) == Some(STORE3) && Write(STORE3, LOST) == Some(STORE4)
  {
    assert STORE0.current[BOOK := 1] == STORE1.current && STORE0.history + [WRITTEN] == STORE1.history;
    assert STORE1.current[BOOK := 2] == STORE2.current && STORE1.history + [EDITED] == STORE2.history;
    assert STORE2.current[MessageOf(1) := 3] == STORE3.current && STORE2.history + [NOTICE] == STORE3.history;
    assert STORE3.current[BOOK := 4] == STORE4.current && STORE3.history + [LOST] == STORE4.history;
  }

  lemma Made()
    ensures Reached(State(map[], STORE0, Idle))
  {
    assert Run([]) == State(map[], Store(map[], []), Idle);
    Play(State(map[], Store(map[], []), Idle), DeviceWrite(BOOK, false, map["name" := "old"]));
  }

  lemma Enqueued()
    ensures Reached(State(QUEUED, STORE0, Idle))
  {
    Made();
    var one, two := FIRST.(started := false), SECOND.(started := false);
    Play(State(map[], STORE0, Idle), Enqueue(1, one));
    Play(State(map[1 := one], STORE0, Idle), Enqueue(2, two));
    Play(State(map[1 := one, 2 := two], STORE0, Idle), Begin(1));
    assert map[1 := one, 2 := two][1 := FIRST] == QUEUED;
  }

  lemma FirstFetched()
    ensures Reached(State(QUEUED, STORE0, Running(1, UpdateRecord(0), FIRST)))
  {
    Enqueued();
    Play(State(QUEUED, STORE0, Idle), Begin(1));
    Play(State(QUEUED, STORE0, Running(1, Fetch, FIRST)), Advance(true));
  }

  lemma FirstWritten()
    ensures Reached(State(QUEUED, STORE1, Running(1, Reread, FIRST)))
  {
    FirstFetched();
    var s := State(QUEUED, STORE0, Running(1, UpdateRecord(0), FIRST));
    Stores();
    assert MADE.fields + FIRST.changes == WRITTEN.fields;
    PlayUpdate(s, 0, WRITTEN, STORE1);
  }

  // The edit comes before the server reads its write back, and keeps the marker.
  lemma DeviceEdits()
    ensures Reached(State(QUEUED, STORE2, Running(1, Reread, FIRST)))
  {
    FirstWritten();
    Stores();
    var s := State(QUEUED, STORE1, Running(1, Reread, FIRST));
    ReachedStore(s);
    PlayDevice(s, BOOK, true, map["name" := "device"], EDITED, STORE2);
  }

  // The device's revision goes on record as the published one.
  lemma FirstReadBack()
    ensures Reached(State(QUEUED, STORE2, Running(1, CheckMessage, READ)))
  {
    DeviceEdits();
    Play(State(QUEUED, STORE2, Running(1, Reread, FIRST)), Advance(true));
  }

  lemma FirstAnnounced()
    ensures Reached(State(QUEUED, STORE3, Running(1, Finish, DONE)))
  {
    FirstReadBack();
    Play(State(QUEUED, STORE2, Running(1, CheckMessage, READ)), Advance(true));
    var s := State(QUEUED, STORE2, Running(1, CreateMessage, READ));
    Stores();
    PlayMessage(s, STORE3);
  }

  lemma FirstPublished()
    ensures Reached(State(ONE_DONE, STORE3, Idle))
  {
    FirstAnnounced();
    Play(State(QUEUED, STORE3, Running(1, Finish, DONE)), Advance(true));
    assert QUEUED[1 := DONE] == ONE_DONE;
  }

  lemma SecondBegun()
    ensures Reached(State(BOTH, STORE3, Running(2, Fetch, SECOND)))
  {
    FirstPublished();
    Play(State(ONE_DONE, STORE3, Idle), Begin(2));
    assert ONE_DONE[2 := SECOND] == BOTH;
    Play(State(BOTH, STORE3, Idle), Begin(2));
  }

  lemma SecondFetched()
    ensures Reached(State(BOTH, STORE3, Running(2, UpdateRecord(2), SECOND)))
  {
    SecondBegun();
    Play(State(BOTH, STORE3, Running(2, Fetch, SECOND)), Advance(true));
  }

  lemma SecondWritten()
    ensures Reached(State(BOTH, STORE4, Running(2, Reread, SECOND)))
  {
    SecondFetched();
    var s := State(BOTH, STORE3, Running(2, UpdateRecord(2), SECOND));
    Stores();
    assert EDITED.fields + SECOND.changes == LOST.fields;
    PlayUpdate(s, 2, LOST, STORE4);
  }

  // A device edit between the server's write and its read-back does not stop the
  // next change of the chain: that change replaces the device's revision.
  lemma ChainReplacesDeviceEdit()
    ensures exists es ::
              var h := Run(es).store.history;
              && |h| == 5
              && h[1].writer == Server(1, Main)
              && h[2].writer == Outside && h[2].parent == Some(1)
              && h[4].writer == Server(2, Main) && h[4].parent == Some(2)
              && 2 in Run(es).ops && Run(es).ops[2].kind == LibraryUpdate(Some(1))
  {
    SecondWritten();
    var es :| Run(es) == State(BOTH, STORE4, Running(2, Reread, SECOND));
  }

  lemma DroppedStores()
    ensures Write(STORE1, DROPPED) == Some(STORE5) && Write(STORE5, LOST) == Some(STORE6)
  {
    assert STORE1.current[BOOK := 2] == STORE5.current && STORE1.history + [DROPPED] == STORE5.history;
    assert STORE5.current[BOOK := 3] == STORE6.current && STORE5.history + [LOST] == STORE6.history;
  }

  lemma DeviceDropsMarker()
    ensures Reached(State(QUEUED, STORE5, Running(1, Reread, FIRST)))
  {
    FirstWritten();
    DroppedStores();
    var s := State(QUEUED, STORE1, Running(1, Reread, FIRST));
    ReachedStore(s);
    PlayDevice(s, BOOK, false, map["name" := "device"], DROPPED, STORE5);
  }

  lemma FirstOvertaken()
    ensures Reached(State(QUEUED, STORE5, Running(1, Finish, OVERTAKEN)))
  {
    DeviceDropsMarker();
    Play(State(QUEUED, STORE5, Running(1, Reread, FIRST)), Advance(true));
  }

  lemma FirstSuperseded()
    ensures Reached(State(ONE_OVERTAKEN, STORE5, Idle))
  {
    FirstOvertaken();
    Play(State(QUEUED, STORE5, Running(1, Finish, OVERTAKEN)), Advance(true));
    assert QUEUED[1 := OVERTAKEN] == ONE_OVERTAKEN;
  }

  lemma SecondTakenUp()
    ensures Reached(State(BOTH_OVERTAKEN, STORE5, Running(2, Fetch, SECOND)))
  {
    FirstSuperseded();
    Play(State(ONE_OVERTAKEN, STORE5, Idle), Begin(2));
    assert ONE_OVERTAKEN[2 := SECOND] == BOTH_OVERTAKEN;
    Play(State(BOTH_OVERTAKEN, STORE5, Idle), Begin(2));
  }

  lemma SecondAllowed()
    ensures Reached(State(BOTH_OVERTAKEN, STORE5, Running(2, UpdateRecord(2), SECOND)))
  {
    SecondTakenUp();
    Play(State(BOTH_OVERTAKEN, STORE5, Running(2, Fetch, SECOND)), Advance(true));
  }

  lemma SecondReplaces()
    ensures Reached(State(BOTH_OVERTAKEN, STORE6, Running(2, Reread, SECOND)))
  {
    SecondAllowed();
    DroppedStores();
    assert DROPPED.fields + SECOND.changes == LOST.fields;
    PlayUpdate(State(BOTH_OVERTAKEN, STORE5, Running(2, UpdateRecord(2), SECOND)), 2, LOST, STORE6);
  }

  // Dropping the marker does not stop the chain either: the second change
  // replaces the device's revision although the first one was superseded.
  lemma ChainReplacesUnmarkedEdit()
    ensures exists es ::
              var h := Run(es).store.history;
              && |h| == 4
              && h[1].writer == Server(1, Main)
              && h[2].writer == Outside && h[2].parent == Some(1) && h[2].marker.None?
              && h[3].writer == Server(2, Main) && h[3].parent == Some(2)
              && 1 in Run(es).ops && Run(es).ops[1].state == Superseded
              && 2 in Run(es).ops && Run(es).ops[2].kind == LibraryUpdate(Some(1))
  {
    SecondReplaces();
    var es :| Run(es) == State(BOTH_OVERTAKEN, STORE6, Running(2, Reread, SECOND));
  }

  // ---- a creation taken up again ----

  const SHELF := Record("shelf")
  const MAKE := Op(LibraryCreate, SHELF, None, map["name" := "new"], false, Queued, true, None)
  const NONE := Store(map[], [])
  const NEW := Store(map[SHELF := 0], [Change(SHELF, None, Server(1, Main), Some(1), map["name" := "new"], true)])
  const MAKING := map[1 := MAKE]

  lemma CreationBegun()
    ensures Reached(State(MAKING, NONE, Running(1, CheckNew, MAKE)))
  {
    assert Run([]) == State(map[], NONE, Idle);
    Play(State(map[], NONE, Idle), Enqueue(1, MAKE.(started := false)));
    Play(State(map[1 := MAKE.(started := false)], NONE, Idle), Begin(1));
    assert map[1 := MAKE.(started := false)][1 := MAKE] == MAKING;
    Play(State(MAKING, NONE, Idle), Begin(1));
  }

  lemma CreationWritten()
    ensures Reached(State(MAKING, NEW, Running(1, Reread, MAKE)))
  {
    CreationBegun();
    Play(State(MAKING, NONE, Running(1, CheckNew, MAKE)), Advance(true));
    assert NONE.current[SHELF := 0] == NEW.current && NONE.history + NEW.history == NEW.history;
    Play(State(MAKING, NONE, Running(1, CreateRecord, MAKE)), Advance(true));
  }

  lemma CreationLost()
    ensures Reached(State(MAKING, NEW, Running(1, CheckNew, MAKE)))
  {
    CreationWritten();
    Play(State(MAKING, NEW, Running(1, Reread, MAKE)), Abort);
    Play(State(MAKING, NEW, Idle), Begin(1));
  }

  // The acknowledgement of a creation is lost; when it is taken up again, what it
  // refers to is gone. It ends blocked, with its record written and no message.
  lemma CreationBlockedAfterItsWrite()
    ensures exists es ::
              && 1 in Run(es).ops && Run(es).ops[1].state == Blocked && Run(es).ops[1].kind.LibraryCreate?
              && Run(es).tx.Idle? && Carries(Run(es).store, Run(es).ops[1].doc, 1)
              && MessageOf(1) !in Run(es).store.current
  {
    CreationLost();
    var blocked := MAKE.(state := Blocked);
    Play(State(MAKING, NEW, Running(1, CheckNew, MAKE)), Advance(false));
    Play(State(MAKING, NEW, Running(1, Finish, blocked)), Advance(false));
    assert MAKING[1 := blocked] == map[1 := blocked];
    var es :| Run(es) == State(map[1 := blocked], NEW, Idle);
  }
}
