// Garbage collection never removes an object that a committed row refers to.
module ArchiveCollection {
  import opened Outcomes
  import opened Archive

  // Every digest a blob version or an archived revision refers to is stored.
  ghost predicate Retained(db: Db, objects: set<ObjectKey>) {
    && (forall n <- db.versions :: db.versions[n].sha.Some? ==> Body(db.versions[n].sha.value) in objects)
    && (forall k <- db.revisions :: Revision(db.revisions[k].sha) in objects)
  }

  // An effect that cannot take a referenced object away.
  ghost predicate Harmless(db: Db, e: Effect) { e.DeleteObject? ==> !Used(db, e.key.sha) }

  lemma {:induction false} HarmlessKeeps(db: Db, objects: set<ObjectKey>, effects: seq<Effect>)
    requires Retained(db, objects) && (forall e <- effects :: Harmless(db, e))
    ensures Retained(db, Apply(objects, effects))
    decreases |effects|
  {
    if effects != [] {
      var e := effects[0];
      assert Harmless(db, e);
      HarmlessKeeps(db, if e.PutObject? then objects + {e.key} else objects - {e.key}, effects[1..]);
    }
  }

  lemma {:induction false} ApplyConcat(objects: set<ObjectKey>, a: seq<Effect>, b: seq<Effect>)
    ensures Apply(objects, a + b) == Apply(Apply(objects, a), b)
    decreases |a|
  {
    if a == [] {
      assert a + b == b;
    } else {
      assert (a + b)[1..] == a[1..] + b;
      ApplyConcat(if a[0].PutObject? then objects + {a[0].key} else objects - {a[0].key}, a[1..], b);
    }
  }

  lemma LeafKeeps(db: Db, objects: set<ObjectKey>, doc: DocId, rev: Rev, c: Content, byParent: bool)
    requires Retained(db, objects)
    ensures var (after, effects) := ObserveLeaf(db, doc, rev, c, byParent);
            Retained(after, Apply(objects, effects)) && (forall e <- effects :: e.PutObject?)
  {
    var (after, effects) := ObserveLeaf(db, doc, rev, c, byParent);
    if effects != [] {
      assert effects[1..] == [];
      assert Apply(objects, effects) == objects + {Revision(c.sha)};
    }
  }

  lemma {:induction false} LeavesKeep(
      db: Db, objects: set<ObjectKey>, doc: DocId, leaves: seq<(Rev, Content)>, byParent: bool)
    requires Retained(db, objects)
    ensures var (after, effects) := ObserveLeaves(db, doc, leaves, byParent);
            Retained(after, Apply(objects, effects)) && (forall e <- effects :: e.PutObject?)
    decreases |leaves|
  {
    if leaves != [] {
      var leaf := leaves[|leaves| - 1];
      LeavesKeep(db, objects, doc, leaves[..|leaves| - 1], byParent);
      var (before, effects) := ObserveLeaves(db, doc, leaves[..|leaves| - 1], byParent);
      LeafKeeps(before, Apply(objects, effects), doc, leaf.0, leaf.1, byParent);
      ApplyConcat(objects, effects, ObserveLeaf(before, doc, leaf.0, leaf.1, byParent).1);
    }
  }

  lemma {:induction false} FeedKeeps(db: Db, objects: set<ObjectKey>, feed: seq<FeedChange>)
    requires Retained(db, objects)
    ensures var (after, effects) := ObserveFeed(db, feed);
            Retained(after, Apply(objects, effects)) && (forall e <- effects :: e.PutObject?)
    decreases |feed|
  {
    if feed != [] {
      var change := feed[|feed| - 1];
      FeedKeeps(db, objects, feed[..|feed| - 1]);
      var (before, effects) := ObserveFeed(db, feed[..|feed| - 1]);
      LeavesKeep(before, Apply(objects, effects), change.doc, change.leaves, change.byParent);
      ApplyConcat(objects, effects, ObserveChange(before, change).1);
    }
  }

  lemma {:induction false} CollectionsHarmless(db: Db, batch: seq<ObjectKey>)
    ensures forall e <- Collections(db, batch) :: Harmless(db, e)
    decreases |batch|
  {
    if batch != [] { CollectionsHarmless(db, batch[..|batch| - 1]); }
  }

  lemma AdmitKeepsRows(db: Db, id: OpId)
    requires id in db.ops
    ensures Admit(db, id).versions == db.versions && Admit(db, id).revisions == db.revisions
  {}

  lemma CollectKeepsRetained(db: Db, objects: set<ObjectKey>, id: OpId, keys: seq<ObjectKey>)
    requires Retained(db, objects)
    ensures var (after, effects) := Plan(db, CollectTx(id, keys));
            && (forall e <- effects :: Harmless(db, e))
            && Retained(after, Apply(objects, effects))
  {
    CollectionsHarmless(db, keys);
    HarmlessKeeps(db, objects, Plan(db, CollectTx(id, keys)).1);
  }

  // Whatever a transaction did before it stopped harms no committed row, and
  // its own rows are covered once it commits.
  lemma PlanKeepsRetained(db: Db, objects: set<ObjectKey>, tx: Tx)
    requires Retained(db, objects)
    ensures var (after, effects) := Plan(db, tx);
            && (forall e <- effects :: Harmless(db, e))
            && Retained(after, Apply(objects, effects))
  {
    var (after, effects) := Plan(db, tx);
    match tx
    case ObserveTx(feed) => FeedKeeps(db, objects, feed);
    case UploadTx(_, _, sha) =>
      if effects != [] { assert Apply(objects, effects) == Apply(objects + {Body(sha)}, []); }
    case CollectTx(id, keys) => CollectKeepsRetained(db, objects, id, keys);
    case AdmitTx(id, accepted) => if InState(db, id, Queued) { AdmitKeepsRows(db, id); }
    case _ =>
  }

  // Over every run, with every abort point.
  lemma {:induction false} CollectionIsSafe(es: seq<Event>)
    ensures Retained(Run(es).db, Run(es).objects)
    decreases |es|
  {
    if es != [] {
      var before, e := es[..|es| - 1], es[|es| - 1];
      var s := Run(before);
      CollectionIsSafe(before);
      PlanKeepsRetained(s.db, s.objects, e.tx);
      if e.RollBack? {
        var effects := Plan(s.db, e.tx).1;
        HarmlessKeeps(s.db, s.objects, effects[..if e.effects <= |effects| then e.effects else |effects|]);
      }
    }
  }

  // No version has the digest and no archived revision does.
  ghost predicate Unused(db: Db, sha: Digest) {
    && (forall n :: n in db.versions ==> db.versions[n].sha != Some(sha))
    && (forall k :: k in db.revisions ==> db.revisions[k].sha != sha)
  }

  // Collection is exact as well as safe: of its batch, a step deletes just the
  // keys that no row uses.
  lemma {:induction false} CollectionIsExact(db: Db, objects: set<ObjectKey>, batch: seq<ObjectKey>, key: ObjectKey)
    ensures key in Apply(objects, Collections(db, batch))
            <==> key in objects && !(key in batch && Unused(db, key.sha))
    decreases |batch|
  {
    if batch != [] {
      var rest, last := batch[..|batch| - 1], batch[|batch| - 1];
      assert batch == rest + [last];
      CollectionIsExact(db, objects, rest, key);
      var more := if Used(db, last.sha) then [] else [DeleteObject(last)];
      ApplyConcat(objects, Collections(db, rest), more);
      assert Apply(Apply(objects, Collections(db, rest)), more)
             == if Used(db, last.sha) then Apply(objects, Collections(db, rest))
                else Apply(objects, Collections(db, rest)) - {last};
    }
  }
}
