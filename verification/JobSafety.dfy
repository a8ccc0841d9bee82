// What holds for every job over any interleaving of workers.
module JobSafety {
  import opened Outcomes
  import opened Jobs

  // ---- counting along a run ----

  predicate Starts(e: Event, id: string) { e.Lease? && e.id == id }

  predicate Completes(s: State, e: Event, id: string) { e.Complete? && e.ticket.job.id == id && Accepted(s, e) }

  function StartsOf(events: seq<Event>, id: string): nat
    decreases |events|
  {
    if events == [] then 0
    else StartsOf(events[..|events| - 1], id) + (if Starts(events[|events| - 1], id) then 1 else 0)
  }

  function CompletesOf(s: State, events: seq<Event>, id: string): nat
    decreases |events|
  {
    if events == [] then 0
    else
      var before := events[..|events| - 1];
      CompletesOf(s, before, id) + (if Completes(After(s, before), events[|events| - 1], id) then 1 else 0)
  }

  // ---- the invariant ----

  predicate RowFits(r: Row) {
    && r.attempts <= r.maxAttempts && (r.status == Pending ==> r.attempts < r.maxAttempts)
    && (r.status == Leased <==> r.owner.Some?)
  }

  predicate TicketFits(s: State, x: Ticket) {
    && x.job.id in s.table && 1 <= x.job.attempts <= s.table[x.job.id].attempts
    && x.job.maxAttempts == s.table[x.job.id].maxAttempts
  }

  // A lease that is out was handed out once, to its owner.
  ghost predicate Sole(s: State, x: Ticket, y: Ticket) {
    x.job.id == y.job.id && x.job.attempts == y.job.attempts ==> x == y
  }

  ghost predicate Inv(s: State) {
    && (forall id <- s.table :: RowFits(s.table[id]))
    && (forall x <- s.issued :: TicketFits(s, x))
    && (forall x <- s.issued, y <- s.issued :: Sole(s, x, y))
    && (forall a <- s.table, b <- s.table :: a != b ==> s.table[a].key != s.table[b].key)
  }

  lemma LeaseKeeps(s: State, e: Event)
    requires Inv(s) && e.Lease? && Enabled(s, e)
    ensures Inv(Step(s, e))
  {
    var w := Step(s, e);
    var x := Ticket(JobOf(w.table, e.id), e.owner);
    forall y <- s.issued ensures TicketFits(w, y) && !(y.job.id == e.id && y.job.attempts == x.job.attempts) {
      assert TicketFits(s, y);
    }
    assert TicketFits(w, x);
    forall y <- w.issued, z <- w.issued ensures Sole(w, y, z) {
      if y in s.issued && z in s.issued { assert Sole(s, y, z); }
    }
  }

  lemma RowKeeps(s: State, w: State, id: string, r: Row)
    requires Inv(s) && id in s.table && w == s.(table := s.table[id := r])
    requires RowFits(r) && r.attempts == s.table[id].attempts && r.maxAttempts == s.table[id].maxAttempts
    requires r.key == s.table[id].key
    ensures Inv(w)
  {
    forall x <- w.issued ensures TicketFits(w, x) { assert TicketFits(s, x); }
    forall x <- w.issued, y <- w.issued ensures Sole(w, x, y) { assert Sole(s, x, y); }
  }

  lemma RequeueKeeps(s: State, now: nat)
    requires Inv(s)
    ensures Inv(Step(s, Requeue(now)))
  {
    var w := Step(s, Requeue(now));
    forall id <- w.table ensures RowFits(w.table[id]) { assert RowFits(s.table[id]); }
    forall x <- w.issued ensures TicketFits(w, x) { assert TicketFits(s, x); }
    forall x <- w.issued, y <- w.issued ensures Sole(w, x, y) { assert Sole(s, x, y); }
  }

  lemma EnqueueKeeps(s: State, e: Event)
    requires Inv(s) && e.Enqueue? && Enabled(s, e)
    ensures Inv(Step(s, e))
  {
    var w := Step(s, e);
    forall x <- w.issued ensures TicketFits(w, x) { assert TicketFits(s, x); }
    forall x <- w.issued, y <- w.issued ensures Sole(w, x, y) { assert Sole(s, x, y); }
  }

  lemma StepKeeps(s: State, e: Event)
    requires Inv(s) && Enabled(s, e)
    ensures Inv(Step(s, e))
  {
    match e
    case Enqueue(_, _, _, _, _) => EnqueueKeeps(s, e);
    case Lease(_, _, _, _) => LeaseKeeps(s, e);
    case Complete(x) =>
      if Holds(s.table, x.job, x.owner) {
        RowKeeps(s, Step(s, e), x.job.id, s.table[x.job.id].(status := Done, owner := None, until := 0));
      }
    case Fail(x, now) =>
      if Holds(s.table, x.job, x.owner) {
        assert TicketFits(s, x);
        RowKeeps(s, Step(s, e), x.job.id, FailedRow(s.table[x.job.id], x.job, now));
      }
    case Requeue(now) => RequeueKeeps(s, now);
  }

  // The last event of a run, and the run before it.
  lemma LastStep(s: State, events: seq<Event>) returns (before: seq<Event>, e: Event)
    requires Run(s, events) && events != []
    ensures |before| == |events| - 1 && events == before + [e]
    ensures Run(s, before) && Enabled(After(s, before), e) && After(s, events) == Step(After(s, before), e)
    ensures forall id :: StartsOf(events, id) == StartsOf(before, id) + (if Starts(e, id) then 1 else 0)
    ensures forall id :: CompletesOf(s, events, id)
                         == CompletesOf(s, before, id) + (if Completes(After(s, before), e, id) then 1 else 0)
  {
    before, e := events[..|events| - 1], events[|events| - 1];
    forall i | 0 <= i < |before| ensures Enabled(After(s, before[..i]), before[i]) {
      assert before[..i] == events[..i];
    }
  }

  lemma {:induction false} RunKeeps(s: State, events: seq<Event>)
    requires Inv(s) && Run(s, events)
    ensures Inv(After(s, events))
    decreases |events|
  {
    if events != [] {
      var before, e := LastStep(s, events);
      RunKeeps(s, before);
      StepKeeps(After(s, before), e);
    }
  }

  // ---- the promises ----

  predicate Finished(s: State, id: string) {
    id in s.table && (s.table[id].status == Done || s.table[id].status == Failed)
  }

  lemma FinishedStep(s: State, e: Event, id: string)
    requires Finished(s, id) && Enabled(s, e)
    ensures id in Step(s, e).table && Step(s, e).table[id] == s.table[id]
  {}

  // A finished job never changes again.
  lemma {:induction false} FinishedStays(s: State, events: seq<Event>, id: string)
    requires Run(s, events) && Finished(s, id)
    ensures id in After(s, events).table && After(s, events).table[id] == s.table[id]
    decreases |events|
  {
    if events != [] {
      var before, e := LastStep(s, events);
      FinishedStays(s, before, id);
      FinishedStep(After(s, before), e, id);
    }
  }

  ghost predicate Counted(s: State, id: string, starts: nat, completes: nat) {
    && (id !in s.table ==> starts == 0 && completes == 0)
    && (id in s.table ==>
          && starts == s.table[id].attempts <= s.table[id].maxAttempts
          && completes == if s.table[id].status == Done then 1 else 0)
  }

  // The attempts of a job are its handler starts, never above the maximum; it
  // completes at most once, and is done exactly when it has.
  lemma {:induction false} Counts(events: seq<Event>, id: string)
    requires Run(START, events)
    ensures Counted(After(START, events), id, StartsOf(events, id), CompletesOf(START, events, id))
    decreases |events|
  {
    if events != [] {
      var before, e := LastStep(START, events);
      Counts(before, id);
      RunKeeps(START, before);
      CountStep(After(START, before), e, id, StartsOf(before, id), CompletesOf(START, before, id));
    }
  }

  lemma CountStep(s: State, e: Event, id: string, starts: nat, completes: nat)
    requires Inv(s) && Enabled(s, e) && Counted(s, id, starts, completes)
    ensures Counted(Step(s, e), id, starts + (if Starts(e, id) then 1 else 0),
                    completes + (if Completes(s, e, id) then 1 else 0))
  {}

  // Only the newest attempt of a job can report a result; every older lease is
  // lost and changes nothing.
  lemma OlderLosesLease(events: seq<Event>, x: Ticket)
    requires Run(START, events) && x in After(START, events).issued
    ensures var s := After(START, events);
            && x.job.id in s.table
            && (x.job.attempts < s.table[x.job.id].attempts ==>
                  && !Holds(s.table, x.job, x.owner)
                  && Step(s, Complete(x)) == s && forall now :: Step(s, Fail(x, now)) == s)
  {
    RunKeeps(START, events);
    assert TicketFits(After(START, events), x);
  }

  // Of all leases ever handed out on a job, at most one is accepted, and the
  // report that uses it ends it.
  lemma LeaseIsExclusive(events: seq<Event>, x: Ticket, y: Ticket)
    requires Run(START, events) && x in After(START, events).issued && y in After(START, events).issued
    requires var t := After(START, events).table; Holds(t, x.job, x.owner) && Holds(t, y.job, y.owner)
    requires x.job.id == y.job.id
    ensures x == y
    ensures !Holds(Step(After(START, events), Complete(x)).table, x.job, x.owner)
    ensures forall now :: !Holds(Step(After(START, events), Fail(x, now)).table, x.job, x.owner)
  {
    RunKeeps(START, events);
    OneHolder(After(START, events), x, y);
  }

  lemma OneHolder(s: State, x: Ticket, y: Ticket)
    requires Inv(s) && x in s.issued && y in s.issued && x.job.id == y.job.id
    requires Holds(s.table, x.job, x.owner) && Holds(s.table, y.job, y.owner)
    ensures x == y && !Holds(Step(s, Complete(x)).table, x.job, x.owner)
    ensures forall now :: !Holds(Step(s, Fail(x, now)).table, x.job, x.owner)
  {
    assert Sole(s, x, y);
  }

  lemma LostStep(s: State, e: Event, x: Ticket)
    requires Inv(s) && Enabled(s, e) && x in s.issued && !Holds(s.table, x.job, x.owner)
    ensures x in Step(s, e).issued && !Holds(Step(s, e).table, x.job, x.owner)
  {
    assert TicketFits(s, x);
  }

  // Once a lease stops being accepted, by report or by expiry, it stays so.
  lemma {:induction false} LostStaysLost(s: State, events: seq<Event>, x: Ticket)
    requires Inv(s) && Run(s, events) && x in s.issued && !Holds(s.table, x.job, x.owner)
    ensures x in After(s, events).issued && !Holds(After(s, events).table, x.job, x.owner)
    decreases |events|
  {
    if events != [] {
      var before, e := LastStep(s, events);
      LostStaysLost(s, before, x);
      RunKeeps(s, before);
      LostStep(After(s, before), e, x);
    }
  }

  // A waiting job always has an attempt left, so its time comes; a lease that
  // runs out either waits again with an attempt left or has failed for good.
  lemma NoneIsStranded(events: seq<Event>, id: string, now: nat)
    requires Run(START, events) && id in After(START, events).table
    ensures var t := After(START, events).table;
            && (t[id].status == Pending && t[id].availableAt <= now ==> Claimable(t, id, now))
            && (t[id].status == Leased && t[id].until < now ==>
                  var r := DoRequeue(t, now)[id];
                  if r.attempts < r.maxAttempts then r.status == Pending else r.status == Failed)
  {
    RunKeeps(START, events);
    assert RowFits(After(START, events).table[id]);
  }

  function Doubled(n: nat, times: nat): nat { if times == 0 then n else 2 * Doubled(n, times - 1) }

  // The delay after the n-th attempt: a minute, doubled five times at most.
  lemma DelayDoubles(attempts: nat)
    requires attempts > 0
    ensures Delay(attempts) == Doubled(60, if attempts - 1 < 5 then attempts - 1 else 5)
  {
    assert Doubled(60, 1) == 120 && Doubled(60, 2) == 240 && Doubled(60, 3) == 480;
    assert Doubled(60, 4) == 960 && Doubled(60, 5) == 1920;
  }

  lemma RetryTime(s: State, x: Ticket, now: nat, later: nat)
    requires Inv(s) && x in s.issued && Holds(s.table, x.job, x.owner) && x.job.attempts < x.job.maxAttempts
    ensures x.job.attempts > 0
    ensures Claimable(Step(s, Fail(x, now)).table, x.job.id, later) <==> now + Delay(x.job.attempts) <= later
  {
    assert TicketFits(s, x);
  }

  // A failed attempt is tried again after its delay, and not before.
  lemma RetryWaits(events: seq<Event>, x: Ticket, now: nat, later: nat)
    requires Run(START, events) && x in After(START, events).issued
    requires Holds(After(START, events).table, x.job, x.owner) && x.job.attempts < x.job.maxAttempts
    ensures x.job.attempts > 0
    ensures Claimable(Step(After(START, events), Fail(x, now)).table, x.job.id, later)
            <==> now + Doubled(60, if x.job.attempts - 1 < 5 then x.job.attempts - 1 else 5) <= later
  {
    RunKeeps(START, events);
    RetryTime(After(START, events), x, now, later);
    DelayDoubles(x.job.attempts);
  }

  // A requeue touches only leases whose time is over; the others stay as they are.
  lemma RequeueSparesLive(t: Table, now: nat, id: string)
    requires id in t
    ensures id in DoRequeue(t, now)
    ensures t[id].status != Leased || now <= t[id].until ==> DoRequeue(t, now)[id] == t[id]
    ensures t[id].status == Leased && t[id].until < now ==>
              DoRequeue(t, now)[id] == t[id].(
                status := if t[id].attempts < t[id].maxAttempts then Pending else Failed, owner := None, until := 0)
  {}

  // A lease is held from its claim on, and no requeue up to its end time takes it;
  // the first one after that does.
  lemma HeldUntil(s: State, id: string, owner: string, now: nat, until: nat, later: nat)
    requires id in s.table && Enabled(s, Lease(id, owner, now, until))
    ensures var t := Step(s, Lease(id, owner, now, until));
            var x := Ticket(Job(id, s.table[id].kind, s.table[id].attempts + 1, s.table[id].maxAttempts), owner);
            && x in t.issued && id in t.table && Holds(t.table, x.job, owner)
            && t.table == s.table[id := t.table[id]] && t.table[id].until == until
            && (Holds(Step(t, Requeue(later)).table, x.job, owner) <==> later <= until)
  {}

  // An idempotency key names one job, however often it is enqueued.
  lemma OneJobPerKey(events: seq<Event>, a: string, b: string)
    requires Run(START, events) && a in After(START, events).table && b in After(START, events).table
    requires After(START, events).table[a].key == After(START, events).table[b].key
    ensures a == b
  {
    RunKeeps(START, events);
  }
}
