// The archive's operations as the server runs them: each reads and changes rows
// inside one transaction, while its object-store calls take effect at once. A
// call that fails ends the operation; its rows are rolled back.
module ArchiveServer {
  import opened Outcomes
  import opened Archive
  import opened ArchiveCollection
  import opened ArchiveProgress

  // How many object-store calls still succeed, if one is going to fail.
  type Budget = Option<nat>

  predicate Fails(b: Budget) { b == Some(0) }

  function Spent(b: Budget): Budget
    requires !Fails(b)
  { if b.None? then None else Some(b.value - 1) }

  predicate Enough(b: Budget, calls: nat) { b.None? || calls <= b.value }

  function After(b: Budget, calls: nat): Budget
    requires Enough(b, calls)
  { if b.None? then None else Some(b.value - calls) }

  // What is left of a transaction: all of it, or only the calls before the one
  // that failed.
  function Outcome(was: State, tx: Tx, b: Budget): State {
    if Enough(b, |Plan(was.db, tx).1|) then Step(was, Commit(tx)) else Step(was, RollBack(tx, b.value))
  }

  // The objects after the calls that a budget allows.
  function Allowed(was: set<ObjectKey>, effects: seq<Effect>, b: Budget): set<ObjectKey> {
    Apply(was, if Enough(b, |effects|) then effects else effects[..b.value])
  }

  class Server {
    var db: Db
    var objects: set<ObjectKey>
    ghost var cleared: set<DocId>

    constructor ()
      ensures Whole() == EMPTY
    {
      db, objects, cleared := EMPTY.db, {}, {};
    }

    ghost function Whole(): State
      reads this
    { State(db, objects, cleared) }

    method Observe(feed: seq<FeedChange>, budget: Budget) returns (ok: bool)
      modifies this`db, this`objects
      ensures ok == Enough(budget, |ObserveFeed(old(db), feed).1|)
      ensures Whole() == Outcome(old(Whole()), ObserveTx(feed), budget)
    {
      var rows, left := db, budget;
      ok := true;
      assert Apply(objects, []) == objects;
      for i := 0 to |feed|
        invariant ok && db == old(db) && rows == ObserveFeed(db, feed[..i]).0
        invariant Made(old(objects), objects, ObserveFeed(db, feed[..i]).1, budget, left)
      {
        FeedGrows(db, feed, i);
        ghost var before, more := ObserveFeed(db, feed[..i]).1, ObserveChange(rows, feed[i]).1;
        MadeTwice(old(objects), objects, before, more, budget, left);
        rows, left, ok := ObserveOne(rows, feed[i], left);
        if !ok {
          FailedWithin(old(objects), before + more, ObserveFeed(db, feed).1, budget);
          return;
        }
      }
      assert feed[..|feed|] == feed;
      db := rows;
    }

    // One change: its leaves, then its winner.
    method ObserveOne(start: Db, change: FeedChange, budget: Budget) returns (rows: Db, left: Budget, ok: bool)
      modifies this`objects
      ensures var (after, effects) := ObserveChange(start, change);
              && ok == Enough(budget, |effects|) && objects == Allowed(old(objects), effects, budget)
              && (ok ==> rows == after && left == After(budget, |effects|))
    {
      rows, left, ok := ObserveLeafByLeaf(start, change, budget);
      if ok { rows := ObserveWinner(rows, change.doc, change.winner, change.byParent); }
    }

    // The leaves of one change.
    method ObserveLeafByLeaf(start: Db, change: FeedChange, budget: Budget) returns (rows: Db, left: Budget, ok: bool)
      modifies this`objects
      ensures var (after, effects) := ObserveLeaves(start, change.doc, change.leaves, change.byParent);
              && ok == Enough(budget, |effects|) && objects == Allowed(old(objects), effects, budget)
              && (ok ==> rows == after && left == After(budget, |effects|))
    {
      rows, left, ok := start, budget, true;
      assert Apply(objects, []) == objects;
      var doc, leaves, byParent := change.doc, change.leaves, change.byParent;
      for i := 0 to |leaves|
        invariant ok && rows == ObserveLeaves(start, doc, leaves[..i], byParent).0
        invariant Made(old(objects), objects, ObserveLeaves(start, doc, leaves[..i], byParent).1, budget, left)
      {
        var (rev, c) := leaves[i];
        LeavesGrow(start, doc, leaves, byParent, i);
        ghost var before := ObserveLeaves(start, doc, leaves[..i], byParent).1;
        ghost var more := ObserveLeaf(rows, doc, rev, c, byParent).1;
        MadeTwice(old(objects), objects, before, more, budget, left);
        rows, left, ok := StoreLeaf(rows, doc, rev, c, byParent, left);
        if !ok {
          FailedWithin(old(objects), before + more, ObserveLeaves(start, doc, leaves, byParent).1, budget);
          return;
        }
      }
      assert leaves[..|leaves|] == leaves;
    }

    // One leaf is suppressed, or its body is stored and then recorded.
    method StoreLeaf(start: Db, doc: DocId, rev: Rev, c: Content, byParent: bool, budget: Budget)
      returns (rows: Db, left: Budget, ok: bool)
      modifies this`objects
      ensures var (after, effects) := ObserveLeaf(start, doc, rev, c, byParent);
              && ok == Enough(budget, |effects|) && objects == Allowed(old(objects), effects, budget)
              && (ok ==> rows == after && left == After(budget, |effects|))
    {
      rows, left, ok := start, budget, true;
      assert Apply(objects, []) == objects;
      var notebook := Binding(rows, doc, c, byParent);
      if notebook.Some? {
        rows := Suppress(rows, doc, notebook.value, !c.deleted);
        return;
      }
      if Fails(left) {
        ok := false;
        return;
      }
      left := Spent(left);
      ApplyPut(objects, Revision(c.sha));
      objects := objects + {Revision(c.sha)};
      if (doc, rev) !in rows.revisions { rows := rows.(revisions := rows.revisions[(doc, rev) := c]); }
    }

    // A blob upload stores the body first, then its version and binding.
    method PutBlob(key: BlobKey, version: nat, sha: Digest, budget: Budget, commits: bool) returns (ok: bool)
      requires version !in db.versions
      modifies this`db, this`objects
      ensures ok == (Gone(old(db), key) || (commits && !Fails(budget)))
      ensures Whole() == if ok then Step(old(Whole()), Commit(UploadTx(key, version, sha)))
                         else Step(old(Whole()), RollBack(UploadTx(key, version, sha), if Fails(budget) then 0 else 1))
    {
      ghost var was := Whole();
      assert Apply(objects, []) == objects;
      if key.notebook.Some? && key.notebook.value in db.purged { return true; }
      ghost var effects := [PutObject(Body(sha))];
      assert Plan(was.db, UploadTx(key, version, sha)).1 == effects;
      if Fails(budget) {
        assert effects[..0] == [];
        return false;
      }
      ApplyPut(objects, Body(sha));
      objects := objects + {Body(sha)};
      if !commits {
        assert effects[..1] == effects;
        return false;
      }
      db := db.(versions := db.versions[version := Version(key, Some(sha))], bindings := db.bindings[key := version]);
      return true;
    }

    method DeleteBlob(key: BlobKey, version: nat)
      requires version !in db.versions
      modifies this`db
      ensures Whole() == Step(old(Whole()), Commit(RemoveBlobTx(key, version)))
    {
      assert Apply(objects, []) == objects;
      if key.notebook.Some? && key.notebook.value in db.purged { return; }
      db := db.(versions := db.versions[version := Version(key, None)], bindings := db.bindings - {key});
    }

    // ---- the stages of a purge ----

    method AdmitPurge(id: OpId, accepted: bool)
      requires InState(db, id, Queued)
      modifies this`db
      ensures Whole() == Step(old(Whole()), Commit(AdmitTx(id, accepted)))
    {
      assert Apply(objects, []) == objects;
      if !accepted {
        db := SetState(db, id, Blocked);
        return;
      }
      var doc := db.ops[id].doc;
      var rows := db;
      if doc !in rows.purged { rows := rows.(purged := rows.purged[doc := id]); }
      if doc !in rows.tombs { rows := rows.(tombs := rows.tombs[doc := Tomb(doc, true)]); }
      rows := rows.(ops := map k | k in rows.ops :: AdmittedOp(db, id, k));
      db := Discover(rows, doc);
    }

    // Deletes one batch of the notebook's documents at the Gateway, marking each;
    // a failed deletion rolls all the marks back.
    method TombstoneDocuments(id: OpId, batch: seq<DocId>, budget: Budget) returns (ok: bool)
      requires InState(db, id, PurgingNative)
      requires TombstoneBatch(Discover(db, db.ops[id].doc), db.ops[id].doc, Docs(batch))
      modifies this`db
      ensures ok == Enough(budget, |batch|)
      ensures Whole() == if ok then Step(old(Whole()), Commit(TombstoneTx(id, Docs(batch)))) else old(Whole())
    {
      assert Apply(objects, []) == objects;
      var rows := Discover(db, db.ops[id].doc);
      PendingHaveTombs(rows, db.ops[id].doc, batch);
      var tombs;
      tombs, ok := MarkDocuments(rows.tombs, batch, budget);
      if !ok { return; }
      TombstonePlan(db, id, Docs(batch), tombs);
      rows := rows.(tombs := tombs);
      if Pending(rows, db.ops[id].doc) == {} { rows := SetState(rows, id, PurgingServer); }
      db := rows;
    }

    method ClearServerRows(id: OpId)
      requires InState(db, id, PurgingServer)
      modifies this`db, this`cleared
      ensures Whole() == Step(old(Whole()), Commit(ServerRowsTx(id)))
      ensures var doc := old(db).ops[id].doc;
              NothingOf(db, doc) && OthersKept(old(db), db, doc)
              && (forall key :: Holds(old(db), doc, key) ==> (id, key) in db.garbage)
    {
      assert Apply(objects, []) == objects;
      RowsAreRecorded(db, id);
      cleared := cleared + {db.ops[id].doc};
      db := ServerRows(db, id);
    }

    // Deletes the objects of one batch that no row uses any more.
    method CollectObjects(id: OpId, keys: seq<ObjectKey>, budget: Budget) returns (ok: bool)
      requires InState(db, id, PurgingObjects) && CollectBatch(db, id, keys)
      modifies this`db, this`objects
      ensures ok == Enough(budget, |Collections(old(db), keys)|)
      ensures Whole() == Outcome(old(Whole()), CollectTx(id, keys), budget)
    {
      var garbage: set<(OpId, ObjectKey)>;
      garbage, ok := DeleteUnused(id, keys, budget);
      if !ok { return; }
      var rows := db.(garbage := garbage);
      if !HasGarbage(rows, id) {
        rows := SetState(rows, id, if Pending(db, db.ops[id].doc) != {} then PurgingNative else Complete);
      }
      db := rows;
    }

    method DeleteUnused(id: OpId, keys: seq<ObjectKey>, budget: Budget)
      returns (garbage: set<(OpId, ObjectKey)>, ok: bool)
      modifies this`objects
      ensures ok == Enough(budget, |Collections(db, keys)|)
      ensures objects == Allowed(old(objects), Collections(db, keys), budget)
      ensures ok ==> garbage == db.garbage - Named(id, keys)
    {
      var left := budget;
      garbage, ok := db.garbage, true;
      assert Apply(objects, []) == objects;
      for i := 0 to |keys|
        invariant ok && garbage == db.garbage - Named(id, keys[..i])
        invariant Made(old(objects), objects, Collections(db, keys[..i]), budget, left)
      {
        CollectionsGrow(db, keys, i);
        NamedGrows(id, keys, i);
        ghost var before := Collections(db, keys[..i]);
        if !Used(db, keys[i].sha) {
          MadeTwice(old(objects), objects, before, [DeleteObject(keys[i])], budget, left);
          if Fails(left) {
            assert Apply(objects, []) == objects;
            FailedWithin(old(objects), before + [DeleteObject(keys[i])], Collections(db, keys), budget);
            ok := false;
            return;
          }
          left := Spent(left);
          ApplyDelete(objects, keys[i]);
          objects := objects - {keys[i]};
        } else {
          assert before + [] == before;
        }
        garbage := garbage - {(id, keys[i])};
      }
      assert keys[..|keys|] == keys;
    }
  }

  method MarkDocuments(tombs: map<DocId, Tomb>, batch: seq<DocId>, budget: Budget)
    returns (marked: map<DocId, Tomb>, ok: bool)
    requires forall d <- batch :: d in tombs
    ensures ok == Enough(budget, |batch|)
    ensures ok ==> marked == Marked(tombs, Docs(batch))
  {
    var left := budget;
    marked, ok := tombs, true;
    for i := 0 to |batch|
      invariant marked == Marked(tombs, Docs(batch[..i])) && Enough(budget, i) && left == After(budget, i)
    {
      if Fails(left) { return tombs, false; }
      left := Spent(left);
      assert batch[i] in batch;
      assert Docs(batch[..i + 1]) == Docs(batch[..i]) + {batch[i]};
      marked := marked[batch[i] := marked[batch[i]].(pending := false)];
    }
    assert batch[..|batch|] == batch;
  }

  function Docs(batch: seq<DocId>): set<DocId> { set d | d in batch }

  function Named(id: OpId, keys: seq<ObjectKey>): set<(OpId, ObjectKey)> { set key | key in keys :: (id, key) }

  lemma NamedGrows(id: OpId, keys: seq<ObjectKey>, i: nat)
    requires i < |keys|
    ensures Named(id, keys[..i + 1]) == Named(id, keys[..i]) + {(id, keys[i])}
  {
    assert keys[..i + 1] == keys[..i] + [keys[i]];
  }

  predicate HasGarbage(db: Db, id: OpId) { exists g :: g in db.garbage && g.0 == id }

  lemma TombstonePlan(db: Db, id: OpId, batch: set<DocId>, tombs: map<DocId, Tomb>)
    requires InState(db, id, PurgingNative) && TombstoneBatch(Discover(db, db.ops[id].doc), db.ops[id].doc, batch)
    requires tombs == Marked(Discover(db, db.ops[id].doc).tombs, batch)
    ensures var marked := Discover(db, db.ops[id].doc).(tombs := tombs);
            Plan(db, TombstoneTx(id, batch))
            == (if Pending(marked, db.ops[id].doc) == {} then SetState(marked, id, PurgingServer) else marked, [])
  {}

  lemma PendingHaveTombs(db: Db, notebook: DocId, batch: seq<DocId>)
    requires Docs(batch) <= Pending(db, notebook)
    ensures forall d <- batch :: d in db.tombs
  {
    forall d <- batch ensures d in db.tombs {
      assert d in Docs(batch);
    }
  }

  // ---- glue ----

  lemma ApplyPut(objects: set<ObjectKey>, key: ObjectKey)
    ensures Apply(objects, [PutObject(key)]) == objects + {key}
  {
    assert [PutObject(key)][1..] == [];
  }

  lemma ApplyDelete(objects: set<ObjectKey>, key: ObjectKey)
    ensures Apply(objects, [DeleteObject(key)]) == objects - {key}
  {
    assert [DeleteObject(key)][1..] == [];
  }

  function Marked(tombs: map<DocId, Tomb>, batch: set<DocId>): map<DocId, Tomb> {
    map d | d in tombs :: if d in batch then tombs[d].(pending := false) else tombs[d]
  }

  // All of `effects` was allowed, and `left` is what remains.
  ghost predicate Made(start: set<ObjectKey>, now: set<ObjectKey>, effects: seq<Effect>, b: Budget, left: Budget) {
    now == Apply(start, effects) && Enough(b, |effects|) && left == After(b, |effects|)
  }

  // What the rest of the budget allows is what the budget allows after all.
  lemma MadeTwice(start: set<ObjectKey>, now: set<ObjectKey>, before: seq<Effect>, more: seq<Effect>,
                  b: Budget, left: Budget)
    requires Made(start, now, before, b, left)
    ensures Enough(left, |more|) == Enough(b, |before + more|)
    ensures Enough(left, |more|) ==> After(left, |more|) == After(b, |before + more|)
    ensures Allowed(now, more, left) == Allowed(start, before + more, b)
  {
    var done := if Enough(left, |more|) then more else more[..left.value];
    ApplyConcat(start, before, done);
    if !Enough(left, |more|) { assert (before + more)[..b.value] == before + done; }
  }

  // A failure within the first calls is a failure within all of them.
  lemma FailedWithin(start: set<ObjectKey>, part: seq<Effect>, all: seq<Effect>, b: Budget)
    requires !Enough(b, |part|) && part <= all
    ensures !Enough(b, |all|) && Allowed(start, all, b) == Allowed(start, part, b)
  {
    assert all[..b.value] == part[..b.value];
  }

  lemma {:induction false} LeavesGrow(db: Db, doc: DocId, leaves: seq<(Rev, Content)>, byParent: bool, i: nat)
    requires i < |leaves|
    ensures var b, t := ObserveLeaves(db, doc, leaves[..i], byParent), ObserveLeaves(db, doc, leaves[..i + 1], byParent);
            var leaf := ObserveLeaf(b.0, doc, leaves[i].0, leaves[i].1, byParent);
            t == (leaf.0, b.1 + leaf.1) && t.1 <= ObserveLeaves(db, doc, leaves, byParent).1
    decreases |leaves| - i
  {
    assert leaves[..i + 1][..i] == leaves[..i];
    if i + 1 == |leaves| {
      assert leaves[..i + 1] == leaves;
    } else {
      LeavesGrow(db, doc, leaves, byParent, i + 1);
    }
  }

  lemma {:induction false} FeedGrows(db: Db, feed: seq<FeedChange>, i: nat)
    requires i < |feed|
    ensures var b, t := ObserveFeed(db, feed[..i]), ObserveFeed(db, feed[..i + 1]);
            var change := ObserveChange(b.0, feed[i]);
            t == (change.0, b.1 + change.1) && t.1 <= ObserveFeed(db, feed).1
    decreases |feed| - i
  {
    assert feed[..i + 1][..i] == feed[..i];
    if i + 1 == |feed| {
      assert feed[..i + 1] == feed;
    } else {
      FeedGrows(db, feed, i + 1);
    }
  }

  lemma {:induction false} CollectionsGrow(db: Db, keys: seq<ObjectKey>, i: nat)
    requires i < |keys|
    ensures Collections(db, keys[..i + 1])
            == Collections(db, keys[..i]) + (if Used(db, keys[i].sha) then [] else [DeleteObject(keys[i])])
    ensures Collections(db, keys[..i + 1]) <= Collections(db, keys)
    decreases |keys| - i
  {
    assert keys[..i + 1][..i] == keys[..i];
    if i + 1 == |keys| {
      assert keys[..i + 1] == keys;
    } else {
      CollectionsGrow(db, keys, i + 1);
    }
  }
}
