// Why permanence needs documents to keep their owner: a concrete run in which a
// document changes its owning notebook and a completed purge is left with a
// pending tombstone.
module ArchiveLimits {
  import opened Outcomes
  import opened Archive
  import opened ArchivePurge

  lemma RunSnoc(es: seq<Event>, e: Event)
    ensures Run(es + [e]) == Step(Run(es), e)
  {
    assert (es + [e])[..|es|] == es;
  }

  function Leaf(doc: DocId, owner: DocId, deleted: bool): Tx {
    ObserveTx([FeedChange(doc, [], Some(Content(Some(owner), deleted, 0)), true)])
  }

  lemma LeafStep(db: Db, doc: DocId, owner: DocId, deleted: bool)
    ensures Plan(db, Leaf(doc, owner, deleted)).0
            == ObserveWinner(db, doc, Some(Content(Some(owner), deleted, 0)), true)
    ensures Plan(db, Leaf(doc, owner, deleted)).1 == []
  {
    var change := FeedChange(doc, [], Some(Content(Some(owner), deleted, 0)), true);
    assert [change][..0] == [];
    assert ObserveFeed(db, []) == (db, []);
    assert ObserveChange(db, change).0 == ObserveWinner(db, doc, change.winner, true);
  }

  function Tables(m: PurgeState, n: PurgeState, purged: map<DocId, OpId>, tombs: map<DocId, Tomb>): Db {
    Db(map[], map[], map[], map[], purged, tombs, {}, map[1 := Op(true, "m", m), 2 := Op(true, "n", n)])
  }

  lemma AdmitM()
    ensures Plan(Tables(Queued, Queued, map[], map[]), AdmitTx(1, true)).0
            == Tables(PurgingNative, Queued, map["m" := 1], map["m" := Tomb("m", true)])
  {
    var db := Tables(Queued, Queued, map[], map[]);
    assert Admit(db, 1).tombs == map["m" := Tomb("m", true)];
    assert Admit(db, 1).ops == map[1 := Op(true, "m", PurgingNative), 2 := Op(true, "n", Queued)];
  }

  const BEFORE := map["m" := Tomb("m", true), "d" := Tomb("m", false)]

  lemma FoundM(db: Db)
    requires db == Tables(PurgingNative, Queued, map["m" := 1], BEFORE)
    ensures Discover(db, "m") == db && TombstoneBatch(db, "m", {"m"})
  {
    assert Discovered(db, "m") == {};
    assert Discover(db, "m").tombs == BEFORE;
    assert Pending(db, "m") == {"m"};
  }

  lemma MarkM(db: Db)
    requires db == Tables(PurgingNative, Queued, map["m" := 1], BEFORE)
    ensures Tombstoned(db, 1, {"m"}) == Tables(PurgingServer, Queued, map["m" := 1], AFTER)
  {
    assert (map d | d in BEFORE :: if d in {"m"} then BEFORE[d].(pending := false) else BEFORE[d]) == AFTER;
    var marked := db.(tombs := AFTER);
    assert Pending(marked, "m") == {};
    assert SetState(marked, 1, PurgingServer).ops == map[1 := Op(true, "m", PurgingServer), 2 := Op(true, "n", Queued)];
  }

  lemma TombstoneM()
    ensures Plan(Tables(PurgingNative, Queued, map["m" := 1], BEFORE), TombstoneTx(1, {"m"})).0
            == Tables(PurgingServer, Queued, map["m" := 1], AFTER)
  {
    var db := Tables(PurgingNative, Queued, map["m" := 1], BEFORE);
    FoundM(db);
    MarkM(db);
  }

  const AFTER := map["m" := Tomb("m", false), "d" := Tomb("m", false)]

  lemma ClearM()
    ensures Plan(Tables(PurgingServer, Queued, map["m" := 1], AFTER), ServerRowsTx(1)).0
            == Tables(PurgingObjects, Queued, map["m" := 1], AFTER)
  {
    var db := Tables(PurgingServer, Queued, map["m" := 1], AFTER);
    assert GarbageOf(db, 1, "m") == {};
    assert ServerRows(db, 1).ops == map[1 := Op(true, "m", PurgingObjects), 2 := Op(true, "n", Queued)];
  }

  lemma CollectM()
    ensures Plan(Tables(PurgingObjects, Queued, map["m" := 1], AFTER), CollectTx(1, [])).0
            == Tables(Complete, Queued, map["m" := 1], AFTER)
  {
    var db := Tables(PurgingObjects, Queued, map["m" := 1], AFTER);
    assert Pending(db, "m") == {};
    assert Collected(db, 1, []) == SetState(db, 1, Complete);
    assert SetState(db, 1, Complete).ops == map[1 := Op(true, "m", Complete), 2 := Op(true, "n", Queued)];
  }

  lemma AdmitN()
    ensures var db := Plan(Tables(Complete, Queued, map["m" := 1], AFTER), AdmitTx(2, true)).0;
            && db.ops == map[1 := Op(true, "m", Complete), 2 := Op(true, "n", PurgingNative)]
            && db.purged == map["m" := 1, "n" := 2]
            && "d" in db.tombs && db.tombs["d"] == Tomb("m", false)
  {
    var db := Tables(Complete, Queued, map["m" := 1], AFTER);
    assert Admit(db, 2).ops == map[1 := Op(true, "m", Complete), 2 := Op(true, "n", PurgingNative)];
  }

  // The purge of "m" up to completion, with document "d" remembered as deleted.
  const ADMITTED := [Commit(EnqueueTx(1, Op(true, "m", Queued))), Commit(EnqueueTx(2, Op(true, "n", Queued)))]
                    + [Commit(AdmitTx(1, true))]
  const COMPLETED := ADMITTED + [Commit(Leaf("d", "m", true))] + [Commit(TombstoneTx(1, {"m"}))]
                     + [Commit(ServerRowsTx(1))] + [Commit(CollectTx(1, []))]

  lemma AdmittedState()
    ensures Run(ADMITTED).db == Tables(PurgingNative, Queued, map["m" := 1], map["m" := Tomb("m", true)])
  {
    var e1, e2 := Commit(EnqueueTx(1, Op(true, "m", Queued))), Commit(EnqueueTx(2, Op(true, "n", Queued)));
    assert [e1, e2] == [e1] + [e2] && [e1] == [] + [e1];
    RunSnoc([], e1);
    RunSnoc([e1], e2);
    assert Run([e1, e2]).db == Tables(Queued, Queued, map[], map[]);
    RunSnoc([e1, e2], Commit(AdmitTx(1, true)));
    AdmitM();
  }

  lemma CompletedState()
    ensures Run(COMPLETED).db == Tables(Complete, Queued, map["m" := 1], AFTER)
  {
    AdmittedState();
    var es, db := ADMITTED, Run(ADMITTED).db;
    RunSnoc(es, Commit(Leaf("d", "m", true)));
    LeafStep(db, "d", "m", true);
    assert ObserveWinner(db, "d", Some(Content(Some("m"), true, 0)), true)
           == Tables(PurgingNative, Queued, map["m" := 1], BEFORE);
    es := es + [Commit(Leaf("d", "m", true))];
    RunSnoc(es, Commit(TombstoneTx(1, {"m"})));
    TombstoneM();
    es := es + [Commit(TombstoneTx(1, {"m"}))];
    RunSnoc(es, Commit(ServerRowsTx(1)));
    ClearM();
    es := es + [Commit(ServerRowsTx(1))];
    RunSnoc(es, Commit(CollectTx(1, [])));
    CollectM();
  }

  // Then "n" is admitted, and "d" comes back naming "n": its tombstone is pending
  // again, but the completed purge of "m", which has to write it, is not reopened.
  lemma OwnerChangeLeavesCompletePending()
    ensures exists es, id :: InState(Run(es).db, id, Complete) && !NothingPending(Run(es).db, Run(es).db.ops[id].doc)
  {
    var e8, e9 := Commit(AdmitTx(2, true)), Commit(Leaf("d", "n", false));
    CompletedState();
    RunSnoc(COMPLETED, e8);
    AdmitN();
    var db := Run(COMPLETED + [e8]).db;
    RunSnoc(COMPLETED + [e8], e9);
    LeafStep(db, "d", "n", false);
    LateBody(db);
    var after := Run(COMPLETED + [e8] + [e9]).db;
    assert InState(after, 1, Complete) && after.tombs["d"] == Tomb("m", true);
  }

  lemma LateBody(db: Db)
    requires db.ops == map[1 := Op(true, "m", Complete), 2 := Op(true, "n", PurgingNative)]
    requires db.purged == map["m" := 1, "n" := 2] && "d" in db.tombs && db.tombs["d"] == Tomb("m", false)
    ensures var after := ObserveWinner(db, "d", Some(Content(Some("n"), false, 0)), true);
            after.ops == db.ops && "d" in after.tombs && after.tombs["d"] == Tomb("m", true)
  {}
}
