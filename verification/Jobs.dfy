// Durable jobs, leased to workers. A lease is fenced by the attempt number.
module Jobs {
  import opened Outcomes

  datatype Status = Pending | Leased | Done | Failed

  datatype Row = Row(
    kind: string, key: string, status: Status, attempts: nat, maxAttempts: nat,
    availableAt: nat, createdAt: nat, owner: Option<string>, until: nat)

  type Table = map<string, Row>

  // What a worker is handed with a lease.
  datatype Job = Job(id: string, kind: string, attempts: nat, maxAttempts: nat)

  datatype Refusal = LeaseLost

  const DEFAULT_ATTEMPTS := 5
  const MINUTE := 60

  // ---- one statement on the table ----

  predicate Unused(t: Table, key: string) { forall id <- t :: t[id].key != key }

  function NewRow(kind: string, key: string, maxAttempts: int, now: nat): Row {
    Row(kind, key, Pending, 0, if maxAttempts <= 0 then DEFAULT_ATTEMPTS else maxAttempts, now, now, None, 0)
  }

  function DoEnqueue(t: Table, id: string, kind: string, key: string, maxAttempts: int, now: nat): Table {
    if Unused(t, key) then t[id := NewRow(kind, key, maxAttempts, now)] else t
  }

  predicate Claimable(t: Table, id: string, now: nat) {
    id in t && t[id].status == Pending && t[id].availableAt <= now && t[id].attempts < t[id].maxAttempts
  }

  function DoLease(t: Table, id: string, owner: string, until: nat): Table
    requires id in t
  {
    t[id := t[id].(status := Leased, owner := Some(owner), until := until, attempts := t[id].attempts + 1)]
  }

  function JobOf(t: Table, id: string): Job
    requires id in t
  { Job(id, t[id].kind, t[id].attempts, t[id].maxAttempts) }

  // The fence of Complete and Fail.
  predicate Holds(t: Table, job: Job, owner: string) {
    && job.id in t && t[job.id].status == Leased && t[job.id].owner == Some(owner)
    && t[job.id].attempts == job.attempts
  }

  function DoComplete(t: Table, job: Job, owner: string): Table {
    if Holds(t, job, owner) then t[job.id := t[job.id].(status := Done, owner := None, until := 0)] else t
  }

  function Delay(attempts: nat): nat {
    if attempts <= 1 then MINUTE
    else if attempts == 2 then 2 * MINUTE
    else if attempts == 3 then 4 * MINUTE
    else if attempts == 4 then 8 * MINUTE
    else if attempts == 5 then 16 * MINUTE
    else 32 * MINUTE
  }

  function FailedRow(r: Row, job: Job, now: nat): Row {
    if job.attempts >= job.maxAttempts then r.(status := Failed, owner := None, until := 0)
    else r.(status := Pending, owner := None, until := 0, availableAt := now + Delay(job.attempts))
  }

  function DoFail(t: Table, job: Job, owner: string, now: nat): Table {
    if Holds(t, job, owner) then t[job.id := FailedRow(t[job.id], job, now)] else t
  }

  predicate Expired(r: Row, now: nat) { r.status == Leased && r.until < now }

  function Requeued(r: Row, now: nat): Row {
    if !Expired(r, now) then r
    else r.(status := if r.attempts >= r.maxAttempts then Failed else Pending, owner := None, until := 0)
  }

  function DoRequeue(t: Table, now: nat): Table {
    map id | id in t :: Requeued(t[id], now)
  }

  // ---- any workers, in any order ----

  // A lease as it was handed out.
  datatype Ticket = Ticket(job: Job, owner: string)

  datatype Event =
    | Enqueue(id: string, kind: string, key: string, maxAttempts: int, now: nat)
    | Lease(id: string, owner: string, now: nat, until: nat)
    | Complete(ticket: Ticket)
    | Fail(ticket: Ticket, now: nat)
    | Requeue(now: nat)

  datatype State = State(table: Table, issued: set<Ticket>)

  const START := State(map[], {})

  // A new job has a new id; a lease is taken on a claimable job, whichever the
  // claim statement picked; a result is reported by a worker that was handed
  // that lease, however long ago.
  predicate Enabled(s: State, e: Event) {
    match e
    case Enqueue(id, _, _, _, _) => id !in s.table
    case Lease(id, _, now, _) => Claimable(s.table, id, now)
    case Complete(ticket) => ticket in s.issued
    case Fail(ticket, _) => ticket in s.issued
    case Requeue(_) => true
  }

  function Step(s: State, e: Event): State {
    match e
    case Enqueue(id, kind, key, maxAttempts, now) => s.(table := DoEnqueue(s.table, id, kind, key, maxAttempts, now))
    case Lease(id, owner, now, until) =>
      if id !in s.table then s
      else
        var t := DoLease(s.table, id, owner, until);
        State(t, s.issued + {Ticket(JobOf(t, id), owner)})
    case Complete(ticket) => s.(table := DoComplete(s.table, ticket.job, ticket.owner))
    case Fail(ticket, now) => s.(table := DoFail(s.table, ticket.job, ticket.owner, now))
    case Requeue(now) => s.(table := DoRequeue(s.table, now))
  }

  function After(s: State, events: seq<Event>): State
    decreases |events|
  {
    if events == [] then s else Step(After(s, events[..|events| - 1]), events[|events| - 1])
  }

  ghost predicate Run(s: State, events: seq<Event>) {
    forall i :: 0 <= i < |events| ==> Enabled(After(s, events[..i]), events[i])
  }

  // The report was accepted: it changed the row.
  predicate Accepted(s: State, e: Event) {
    match e
    case Complete(ticket) => Holds(s.table, ticket.job, ticket.owner)
    case Fail(ticket, _) => Holds(s.table, ticket.job, ticket.owner)
    case _ => false
  }
}
