// The job store and the worker that uses it, statement by statement.
module JobStore {
  import opened Outcomes
  import opened Jobs
  import opened JobSafety

  lemma OthersSpared(was: Table, now: nat)
    ensures forall x <- was ::
              x in DoRequeue(was, now)
              && (!(was[x].status == Leased && was[x].until < now) ==> DoRequeue(was, now)[x] == was[x])
  {
    forall x <- was
      ensures x in DoRequeue(was, now)
              && (!(was[x].status == Leased && was[x].until < now) ==> DoRequeue(was, now)[x] == was[x])
    {
      RequeueSparesLive(was, now, x);
    }
  }

  // Claims go to the job that has been available longest, then the oldest.
  predicate Sooner(a: Row, b: Row) {
    a.availableAt < b.availableAt || (a.availableAt == b.availableAt && a.createdAt < b.createdAt)
  }

  ghost predicate Picked(t: Table, now: nat, locked: set<string>, id: string) {
    && Claimable(t, id, now) && id !in locked
    && (forall x <- t :: Claimable(t, x, now) && x !in locked ==> !Sooner(t[x], t[id]))
  }

  class Store {
    var rows: Table
    var issued: set<Ticket>  // the leases workers were handed, for as long as they remember

    constructor ()
      ensures Machine() == START
    {
      rows, issued := map[], {};
    }

    function Machine(): State
      reads this
    { State(rows, issued) }

    // A key already in use answers the job that has it, unchanged.
    method Enqueue(id: string, kind: string, key: string, maxAttempts: int, now: nat) returns (stored: string, added: bool)
      requires id !in rows
      modifies this`rows
      ensures Machine() == Step(old(Machine()), Event.Enqueue(id, kind, key, maxAttempts, now))
      ensures stored in rows && rows[stored].key == key && added == (stored == id)
      ensures added <==> forall x <- old(rows) :: old(rows)[x].key != key
      ensures rows == if !added then old(rows)
                      else old(rows)[id := Row(kind, key, Pending, 0, if maxAttempts <= 0 then 5 else maxAttempts,
                                               now, now, None, 0)]
    {
      var rest := rows.Keys;
      while rest != {}
        invariant rows == old(rows) && rest <= rows.Keys
        invariant forall x <- rows :: x !in rest ==> rows[x].key != key
        decreases rest
      {
        var x :| x in rest;
        if rows[x].key == key { return x, false; }
        rest := rest - {x};
      }
      rows := rows[id := NewRow(kind, key, maxAttempts, now)];
      return id, true;
    }

    // Rows another claim holds locked are skipped.
    method Claim(owner: string, now: nat, until: nat, locked: set<string>) returns (job: Option<Job>)
      modifies this
      ensures job.None? ==> Machine() == old(Machine())
                            && forall x <- rows :: Claimable(rows, x, now) ==> x in locked
      ensures job.Some? ==> Picked(old(rows), now, locked, job.value.id)
                            && Machine() == Step(old(Machine()), Lease(job.value.id, owner, now, until))
                            && job.value == JobOf(rows, job.value.id)
      ensures job.Some? ==>
                var best := old(rows)[job.value.id];
                && best.status == Pending && best.availableAt <= now && best.attempts < best.maxAttempts
                && job.value.id !in locked
                && forall x <- old(rows) :: Claimable(old(rows), x, now) && x !in locked ==>
                  best.availableAt < old(rows)[x].availableAt
                  || (best.availableAt == old(rows)[x].availableAt && best.createdAt <= old(rows)[x].createdAt)
    {
      var best: Option<string> := None;
      var rest := rows.Keys;
      while rest != {}
        invariant Machine() == old(Machine()) && rest <= rows.Keys
        invariant best.Some? ==> best.value !in rest && Claimable(rows, best.value, now) && best.value !in locked
        invariant forall x <- rows :: x !in rest && Claimable(rows, x, now) && x !in locked ==>
                    best.Some? && !Sooner(rows[x], rows[best.value])
        decreases rest
      {
        var x :| x in rest;
        if Claimable(rows, x, now) && x !in locked && (best.None? || Sooner(rows[x], rows[best.value])) {
          best := Some(x);
        }
        rest := rest - {x};
      }
      if best.None? { return None; }
      var taken := Take(best.value, owner, now, until);
      return Some(taken);
    }

    method Take(id: string, owner: string, now: nat, until: nat) returns (job: Job)
      requires id in rows
      modifies this
      ensures Machine() == Step(old(Machine()), Lease(id, owner, now, until)) && id in rows && job == JobOf(rows, id)
    {
      rows := rows[id := rows[id].(status := Leased, owner := Some(owner), until := until,
                                   attempts := rows[id].attempts + 1)];
      job := Job(id, rows[id].kind, rows[id].attempts, rows[id].maxAttempts);
      issued := issued + {Ticket(job, owner)};
    }

    method ClaimID(id: string, owner: string, now: nat, until: nat) returns (job: Option<Job>)
      modifies this
      ensures job.Some? <==> old(Claimable(rows, id, now))
      ensures job.None? ==> Machine() == old(Machine())
      ensures job.Some? ==> Machine() == Step(old(Machine()), Lease(id, owner, now, until))
                            && id in rows && job.value == JobOf(rows, id)
    {
      if id !in rows || rows[id].status != Pending || rows[id].availableAt > now
         || rows[id].attempts >= rows[id].maxAttempts
      {
        return None;
      }
      var taken := Take(id, owner, now, until);
      return Some(taken);
    }

    method Complete(job: Job, owner: string) returns (lost: bool)
      modifies this`rows
      ensures Machine() == Step(old(Machine()), Event.Complete(Ticket(job, owner)))
      ensures lost <==> !old(Holds(rows, job, owner))
    {
      if job.id in rows {
        var r := rows[job.id];
        if r.status == Leased && r.owner == Some(owner) && r.attempts == job.attempts {
          rows := rows[job.id := r.(status := Done, owner := None, until := 0)];
          return false;
        }
      }
      return true;
    }

    method Fail(job: Job, owner: string, now: nat) returns (lost: bool)
      modifies this`rows
      ensures Machine() == Step(old(Machine()), Event.Fail(Ticket(job, owner), now))
      ensures lost <==> !old(Holds(rows, job, owner))
    {
      var delay := Delay(job.attempts);
      if job.id in rows {
        var r := rows[job.id];
        if r.status == Leased && r.owner == Some(owner) && r.attempts == job.attempts {
          if job.attempts >= job.maxAttempts {
            r := r.(status := Failed, owner := None, until := 0);
          } else {
            r := r.(status := Pending, owner := None, until := 0, availableAt := now + delay);
          }
          rows := rows[job.id := r];
          return false;
        }
      }
      return true;
    }

    method RequeueExpired(now: nat) returns (n: nat)
      modifies this`rows
      ensures Machine() == Step(old(Machine()), Requeue(now))
      ensures n == |set x | x in old(rows) && old(rows)[x].status == Leased && old(rows)[x].until < now|
      ensures forall x <- old(rows) ::
                x in rows && (!(old(rows)[x].status == Leased && old(rows)[x].until < now) ==> rows[x] == old(rows)[x])
    {
      ghost var was := rows;
      n := ReturnExpired(now);
      OthersSpared(was, now);
    }

    method ReturnExpired(now: nat) returns (n: nat)
      modifies this`rows
      ensures rows == DoRequeue(old(rows), now) && issued == old(issued)
      ensures n == |set x | x in old(rows) && old(rows)[x].status == Leased && old(rows)[x].until < now|
    {
      ghost var was := rows;
      ghost var gone: set<string> := {};
      n := 0;
      var rest := rows.Keys;
      while rest != {}
        invariant rows.Keys == was.Keys && rest <= was.Keys && issued == old(issued)
        invariant forall x <- was :: rows[x] == if x in rest then was[x] else Requeued(was[x], now)
        invariant gone == (set x | x in was && x !in rest && Expired(was[x], now)) && n == |gone|
        decreases rest
      {
        var x :| x in rest;
        var r := rows[x];
        if r.status == Leased && r.until < now {
          var status := if r.attempts >= r.maxAttempts then Failed else Pending;
          rows := rows[x := r.(status := status, owner := None, until := 0)];
          assert x !in gone;
          n, gone := n + 1, gone + {x};
        }
        rest := rest - {x};
      }
      assert rows == DoRequeue(was, now);
      assert gone == set x | x in was && was[x].status == Leased && was[x].until < now;
    }

    // What the other workers do meanwhile: of the events tried, those that can
    // happen.
    method Meanwhile(tried: seq<Event>) returns (ghost events: seq<Event>)
      modifies this
      ensures events == Possible(old(Machine()), tried) && Machine() == After(old(Machine()), events)
    {
      events := [];
      for i := 0 to |tried|
        invariant events == Possible(old(Machine()), tried[..i]) && Machine() == After(old(Machine()), events)
      {
        assert tried[..i + 1][..i] == tried[..i];
        if Enabled(Machine(), tried[i]) {
          var s := Step(Machine(), tried[i]);
          rows, issued := s.table, s.issued;
          assert (events + [tried[i]])[..|events|] == events;
          events := events + [tried[i]];
        }
      }
      assert tried[..|tried|] == tried;
    }
  }

  ghost function Possible(s: State, tried: seq<Event>): seq<Event>
    decreases |tried|
  {
    if tried == [] then []
    else
      var before := Possible(s, tried[..|tried| - 1]);
      if Enabled(After(s, before), tried[|tried| - 1]) then before + [tried[|tried| - 1]] else before
  }

  lemma RunMore(s: State, events: seq<Event>, e: Event)
    requires Run(s, events) && Enabled(After(s, events), e)
    ensures Run(s, events + [e]) && After(s, events + [e]) == Step(After(s, events), e)
  {
    var longer := events + [e];
    assert longer[..|events|] == events;
    forall i | 0 <= i < |longer| ensures Enabled(After(s, longer[..i]), longer[i]) {
      if i < |events| { assert longer[..i] == events[..i]; }
    }
  }

  lemma {:induction false} RunJoin(s: State, a: seq<Event>, b: seq<Event>)
    requires Run(s, a) && Run(After(s, a), b)
    ensures Run(s, a + b) && After(s, a + b) == After(After(s, a), b)
    decreases |b|
  {
    if b == [] {
      assert a + b == a;
    } else {
      var before, e := LastStep(After(s, a), b);
      RunJoin(s, a, before);
      RunMore(s, a + before, e);
      assert a + b == a + before + [e];
    }
  }

  lemma PossibleStep(s: State, events: seq<Event>, e: Event)
    requires Run(s, events)
    ensures Run(s, if Enabled(After(s, events), e) then events + [e] else events)
  {
    if Enabled(After(s, events), e) { RunMore(s, events, e); }
  }

  lemma {:induction false} PossibleRuns(s: State, tried: seq<Event>)
    ensures Run(s, Possible(s, tried))
    decreases |tried|
  {
    if tried == [] {
      NoEvents(s);
    } else {
      var before := tried[..|tried| - 1];
      PossibleRuns(s, before);
      PossibleStep(s, Possible(s, before), tried[|before|]);
    }
  }

  lemma NoEvents(s: State)
    ensures Run(s, [])
  {}

  lemma OneEvent(s: State, e: Event)
    requires Enabled(s, e)
    ensures Run(s, [e]) && After(s, [e]) == Step(s, e)
  {
    assert [e][..0] == [];
    assert After(s, []) == s;
  }

  // ---- the worker ----

  datatype Outcome = Idle | Completed | HandlerFailed | LeaseGone

  // One turn of the worker: the times it reads, what the others do while its
  // handler runs, which job types have a handler and whether it succeeds.
  datatype Turn = Turn(
    now: nat, until: nat, later: nat, locked: set<string>, others: seq<Event>, handlers: map<string, bool>)

  function Report(ticket: Ticket, ok: bool, now: nat): Event {
    if ok then Event.Complete(ticket) else Event.Fail(ticket, now)
  }

  predicate Handled(turn: Turn, kind: string) { kind in turn.handlers && turn.handlers[kind] }

  // A turn that takes the job `id` from the state `s`: its lease, what the others
  // do meanwhile, and the report of its result.
  ghost function Worked(s: State, owner: string, turn: Turn, id: string): seq<Event>
    requires id in s.table
  {
    var leased := Step(s, Lease(id, owner, turn.now, turn.until));
    var job := JobOf(leased.table, id);
    [Lease(id, owner, turn.now, turn.until)]
    + (Possible(leased, turn.others) + [Report(Ticket(job, owner), Handled(turn, job.kind), turn.later)])
  }

  // How it ends: the lease may be gone by the time of the report.
  ghost function Ending(s: State, owner: string, turn: Turn, id: string): Outcome
    requires id in s.table
  {
    var leased := Step(s, Lease(id, owner, turn.now, turn.until));
    var job := JobOf(leased.table, id);
    if !Holds(After(leased, Possible(leased, turn.others)).table, job, owner) then LeaseGone
    else if Handled(turn, job.kind) then Completed
    else HandlerFailed
  }

  // One turn of the polling loop: it takes the job the claim picks, and does
  // nothing only if no claimable job is unlocked.
  ghost predicate TurnMade(s: State, owner: string, turn: Turn, events: seq<Event>) {
    if events == [] then forall x <- s.table :: Claimable(s.table, x, turn.now) ==> x in turn.locked
    else
      && events[0].Lease? && Picked(s.table, turn.now, turn.locked, events[0].id)
      && events == Worked(s, owner, turn, events[0].id)
  }

  function Flat(parts: seq<seq<Event>>): seq<Event> {
    if parts == [] then [] else Flat(parts[..|parts| - 1]) + parts[|parts| - 1]
  }

  class Runner {
    const store: Store
    const owner: string

    constructor (store: Store, owner: string)
      ensures this.store == store && this.owner == owner
    {
      this.store, this.owner := store, owner;
    }

    // The handler and the report of its result, on a lease just taken.
    method Work(job: Job, turn: Turn) returns (outcome: Outcome, ghost events: seq<Event>)
      requires Ticket(job, owner) in store.issued
      modifies store
      ensures var others := Possible(old(store.Machine()), turn.others);
              && events == others + [Report(Ticket(job, owner), Handled(turn, job.kind), turn.later)]
              && outcome == (if !Holds(After(old(store.Machine()), others).table, job, owner) then LeaseGone
                             else if Handled(turn, job.kind) then Completed else HandlerFailed)
      ensures Run(old(store.Machine()), events) && store.Machine() == After(old(store.Machine()), events)
    {
      ghost var s := store.Machine();
      ghost var others := store.Meanwhile(turn.others);
      PossibleRuns(s, turn.others);
      IssuedStays(s, others, Ticket(job, owner));
      var ok := if job.kind in turn.handlers then turn.handlers[job.kind] else false;
      events := others + [Report(Ticket(job, owner), ok, turn.later)];
      RunMore(s, others, Report(Ticket(job, owner), ok, turn.later));
      var lost: bool;
      if ok {
        lost := store.Complete(job, owner);
      } else {
        lost := store.Fail(job, owner, turn.later);
      }
      outcome := if lost then LeaseGone else if ok then Completed else HandlerFailed;
    }

    // The job an external scheduler names, once. Doing nothing is success:
    // another delivery owns the job or has finished it.
    method RunOne(id: string, turn: Turn) returns (outcome: Outcome, ghost events: seq<Event>)
      modifies store
      ensures Run(old(store.Machine()), events) && store.Machine() == After(old(store.Machine()), events)
      ensures outcome == Idle <==> !old(Claimable(store.rows, id, turn.now))
      ensures if !old(Claimable(store.rows, id, turn.now)) then events == []
              else events == Worked(old(store.Machine()), owner, turn, id)
                   && outcome == Ending(old(store.Machine()), owner, turn, id)
      ensures outcome == Completed ==> id in store.rows && store.rows[id].status == Done
    {
      ghost var s := store.Machine();
      var job := store.ClaimID(id, owner, turn.now, turn.until);
      if job.None? { return Idle, []; }
      ghost var lease := Lease(id, owner, turn.now, turn.until);
      OneEvent(s, lease);
      ghost var rest: seq<Event>;
      outcome, rest := Work(job.value, turn);
      events := [lease] + rest;
      RunJoin(s, [lease], rest);
    }

    // The polling loop, for as many turns as it is given.
    method Poll(turns: seq<Turn>) returns (ghost parts: seq<seq<Event>>)
      modifies store
      ensures |parts| == |turns|
      ensures forall i :: 0 <= i < |turns| ==>
                TurnMade(After(old(store.Machine()), Flat(parts[..i])), owner, turns[i], parts[i])
      ensures Run(old(store.Machine()), Flat(parts)) && store.Machine() == After(old(store.Machine()), Flat(parts))
    {
      ghost var s := store.Machine();
      parts := [];
      for i := 0 to |turns|
        invariant |parts| == i && Run(s, Flat(parts)) && store.Machine() == After(s, Flat(parts))
        invariant forall k :: 0 <= k < i ==> TurnMade(After(s, Flat(parts[..k])), owner, turns[k], parts[k])
      {
        ghost var part := OneTurn(turns[i]);
        RunJoin(s, Flat(parts), part);
        assert (parts + [part])[..i] == parts;
        assert forall k :: 0 <= k < i ==> (parts + [part])[..k] == parts[..k];
        parts := parts + [part];
      }
    }

    method OneTurn(turn: Turn) returns (ghost events: seq<Event>)
      modifies store
      ensures TurnMade(old(store.Machine()), owner, turn, events)
      ensures Run(old(store.Machine()), events) && store.Machine() == After(old(store.Machine()), events)
    {
      ghost var s := store.Machine();
      var job := store.Claim(owner, turn.now, turn.until, turn.locked);
      if job.None? {
        NoEvents(s);
        return [];
      }
      ghost var lease := Lease(job.value.id, owner, turn.now, turn.until);
      OneEvent(s, lease);
      ghost var rest: seq<Event>;
      var outcome;
      outcome, rest := Work(job.value, turn);
      events := [lease] + rest;
      RunJoin(s, [lease], rest);
    }
  }

  // The outcome says what became of the job: done if its handler succeeded, tried
  // again or given up if it failed; a lost lease is neither.
  lemma EndingIs(s: State, owner: string, turn: Turn, id: string)
    requires Claimable(s.table, id, turn.now)
    ensures var kind, t, outcome := s.table[id].kind, After(s, Worked(s, owner, turn, id)), Ending(s, owner, turn, id);
            && (outcome == Completed ==>
                  kind in turn.handlers && turn.handlers[kind] && id in t.table && t.table[id].status == Done)
            && (outcome == HandlerFailed ==>
                  !(kind in turn.handlers && turn.handlers[kind])
                  && id in t.table && t.table[id].status in {Pending, Failed})
            && outcome != Idle
  {
    var leased := Step(s, Lease(id, owner, turn.now, turn.until));
    var job := JobOf(leased.table, id);
    var others := Possible(leased, turn.others);
    var report := Report(Ticket(job, owner), Handled(turn, job.kind), turn.later);
    WorkedEnds(s, Lease(id, owner, turn.now, turn.until), others, report);
  }

  lemma {:induction false} AfterJoin(s: State, a: seq<Event>, b: seq<Event>)
    ensures After(s, a + b) == After(After(s, a), b)
    decreases |b|
  {
    if b == [] {
      assert a + b == a;
    } else {
      AfterJoin(s, a, b[..|b| - 1]);
      assert (a + b)[..|a + b| - 1] == a + b[..|b| - 1];
    }
  }

  lemma WorkedEnds(s: State, first: Event, others: seq<Event>, last: Event)
    ensures After(s, [first] + (others + [last])) == Step(After(Step(s, first), others), last)
  {
    AfterJoin(s, [first], others + [last]);
    AfterJoin(Step(s, first), others, [last]);
    assert [first][..0] == [] && [last][..0] == [];
  }

  lemma {:induction false} IssuedStays(s: State, events: seq<Event>, x: Ticket)
    requires x in s.issued
    ensures x in After(s, events).issued
    decreases |events|
  {
    if events != [] { IssuedStays(s, events[..|events| - 1], x); }
  }
}
