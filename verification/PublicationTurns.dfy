// One transaction of the publisher against the rest of the world: what happens
// around each of its calls decides the whole run.
module PublicationTurns {
  import opened Outcomes
  import opened GatewayStore
  import opened Publication

  // Around one call: what others do before it, whether it fails, whether its
  // acknowledgement is lost, and whether a record that is read may be changed.
  datatype Turn = Turn(others: seq<Event>, fails: bool, ackLost: bool, accepted: bool)

  // Events that do not wait for the lock.
  predicate Concurrent(e: Event) { e.DeviceWrite? || e.DeviceDelete? || e.OwnerCancel? || e.Enqueue? }

  function Acts(others: seq<Event>): seq<Event> {
    if others == [] then []
    else
      var last := others[|others| - 1];
      Acts(others[..|others| - 1]) + if Concurrent(last) then [last] else []
  }

  predicate Writes(pc: Pc) {
    pc.UpdateRecord? || pc.CreateRecord? || pc.UpdateBook? || pc.CreateCommit? || pc.CreateMessage?
  }

  lemma RunOn(es: seq<Event>, e: Event)
    ensures Run(es + [e]) == Step(Run(es), e)
  {
    assert (es + [e])[..|es|] == es;
  }

  lemma ConcurrentKeepsTx(s: State, e: Event)
    requires WellFormed(s.store) && Concurrent(e)
    ensures Step(s, e) == Step(s.(tx := Idle), e).(tx := s.tx)
  {}

  lemma {:induction false} ActsKeepTx(es: seq<Event>, others: seq<Event>)
    ensures Run(es + Acts(others)).tx == Run(es).tx
    decreases |others|
  {
    if others == [] {
      assert es + Acts(others) == es;
    } else {
      var before, last := others[..|others| - 1], others[|others| - 1];
      ActsKeepTx(es, before);
      if Concurrent(last) {
        assert es + Acts(others) == es + Acts(before) + [last];
        RunOn(es + Acts(before), last);
        ConcurrentKeepsTx(Run(es + Acts(before)), last);
      } else {
        assert es + Acts(others) == es + Acts(before);
      }
    }
  }

  // The run after the next call of the running transaction.
  ghost function Turned(es: seq<Event>, turn: Turn): seq<Event> {
    var before := es + Acts(turn.others);
    if turn.fails then before + [Abort]
    else
      var made := before + [Advance(turn.accepted)];
      if turn.ackLost && Run(es).tx.Running? && Writes(Run(es).tx.pc) && Run(made).tx.Running? then made + [Abort]
      else made
  }

  // Which of a transaction's turns a call takes.
  function Slot(pc: Pc): nat {
    match pc
    case CheckNew => 0
    case CreateRecord => 1
    case Fetch => 2
    case UpdateRecord(_) => 3
    case Reread => 4
    case FetchBook => 5
    case UpdateBook(_) => 6
    case CheckCommit => 7
    case CreateCommit => 8
    case CheckMessage => 9
    case CreateMessage => 10
    case Finish => 11
  }

  // How many calls are left at most.
  function Left(t: Tx): nat {
    match t
    case Idle => 0
    case Running(_, pc, row) =>
      match pc
      case CheckNew => 12
      case CreateRecord => 11
      case Fetch => if Library(row.kind) then 10 else 9
      case UpdateRecord(_) => if Library(row.kind) then 9 else 8
      case Reread => if Library(row.kind) then 8 else 10
      case FetchBook => 7
      case UpdateBook(_) => 6
      case CheckCommit => 5
      case CreateCommit => 4
      case CheckMessage => 3
      case CreateMessage => 2
      case Finish => 1
  }

  lemma FetchLeaves(s: State, accepted: bool)
    requires WellFormed(s.store) && s.tx.Running? && s.tx.pc.Fetch?
    ensures Left(DoFetch(s, accepted).tx) < Left(s.tx)
  {}

  lemma AdvanceLeaves(s: State, accepted: bool)
    requires WellFormed(s.store) && s.tx.Running?
    ensures Left(DoAdvance(s, accepted).tx) < Left(s.tx)
  {
    match s.tx.pc
    case Fetch => FetchLeaves(s, accepted);
    case _ =>
  }

  // Where a turn can lead from the state `s` in which its call is made.
  ghost predicate Leads(s: State, accepted: bool, t: State)
    requires WellFormed(s.store) && s.tx.Running?
  {
    t == Rollback(s) || t == DoAdvance(s, accepted) || t == Rollback(DoAdvance(s, accepted))
  }

  lemma AbortAt(es: seq<Event>)
    ensures Run(es + [Abort]) == Rollback(Run(es))
  {
    RunOn(es, Abort);
  }

  lemma AdvanceAt(es: seq<Event>, accepted: bool)
    requires Run(es).tx.Running?
    ensures Run(es + [Advance(accepted)]) == DoAdvance(Run(es), accepted)
  {
    RunOn(es, Advance(accepted));
    StepAdvances(Run(es), accepted);
  }

  lemma StepAdvances(s: State, accepted: bool)
    requires WellFormed(s.store) && s.tx.Running?
    ensures Step(s, Advance(accepted)) == DoAdvance(s, accepted)
  {}

  lemma BeginAt(es: seq<Event>, id: OpId)
    requires Run(es).tx.Idle?
    ensures Run(es + [Begin(id)]) == DoBegin(Run(es), id)
  {
    RunOn(es, Begin(id));
  }

  // What the call itself makes of the run before it.
  lemma CallState(before: seq<Event>, turn: Turn, r: seq<Event>)
    requires Run(before).tx.Running?
    requires var made := before + [Advance(turn.accepted)];
             r == before + [Abort] || r == made || r == made + [Abort]
    ensures Leads(Run(before), turn.accepted, Run(r))
  {
    AbortAt(before);
    AdvanceAt(before, turn.accepted);
    AbortAt(before + [Advance(turn.accepted)]);
  }

  lemma TurnState(es: seq<Event>, turn: Turn)
    requires Run(es).tx.Running?
    ensures var s := Run(es + Acts(turn.others));
            s.tx == Run(es).tx && Leads(s, turn.accepted, Run(Turned(es, turn)))
  {
    ActsKeepTx(es, turn.others);
    CallState(es + Acts(turn.others), turn, Turned(es, turn));
  }

  lemma TurnLeaves(es: seq<Event>, turn: Turn)
    requires Run(es).tx.Running?
    ensures Left(Run(Turned(es, turn)).tx) < Left(Run(es).tx)
  {
    TurnState(es, turn);
    AdvanceLeaves(Run(es + Acts(turn.others)), turn.accepted);
  }

  // The running transaction, to its end.
  ghost function Drive(es: seq<Event>, turns: nat -> Turn): (r: seq<Event>)
    ensures Run(r).tx.Idle?
    decreases Left(Run(es).tx)
  {
    if Run(es).tx.Idle? then es
    else
      var turn := turns(Slot(Run(es).tx.pc));
      TurnLeaves(es, turn);
      Drive(Turned(es, turn), turns)
  }

  ghost predicate Ends(es: seq<Event>, turns: nat -> Turn, end: seq<Event>) { Drive(es, turns) == end }

  // Two runs whose transactions end in the same run.
  ghost predicate EndAlike(a: seq<Event>, b: seq<Event>, turns: nat -> Turn) {
    forall end :: Ends(a, turns, end) <==> Ends(b, turns, end)
  }

  lemma TurnEndsAlike(es: seq<Event>, turns: nat -> Turn)
    requires Run(es).tx.Running?
    ensures EndAlike(es, Turned(es, turns(Slot(Run(es).tx.pc))), turns)
  {
    TurnLeaves(es, turns(Slot(Run(es).tx.pc)));
  }

  lemma AlikeTwice(a: seq<Event>, b: seq<Event>, c: seq<Event>, turns: nat -> Turn)
    requires EndAlike(a, b, turns) && EndAlike(b, c, turns)
    ensures EndAlike(a, c, turns)
  {
    forall end ensures Ends(a, turns, end) <==> Ends(c, turns, end) { assert Ends(a, turns, end) <==> Ends(b, turns, end); }
  }

  lemma EndedAlike(a: seq<Event>, b: seq<Event>, turns: nat -> Turn)
    requires EndAlike(a, b, turns) && Run(b).tx.Idle?
    ensures b == Drive(a, turns)
  {
    assert Ends(b, turns, b);
    assert Ends(a, turns, b);
  }

  // One delivery of an operation: the start marker is committed on its own, then
  // the operation is taken up, unless its library or notebook is gone.
  ghost function Attempt(es: seq<Event>, id: OpId, replaced: bool, purged: bool, turns: nat -> Turn): seq<Event> {
    var ops := Run(es).ops;
    if id !in ops || !Selectable(ops[id].state) then es
    else if replaced then es + [Refuse(id, true)]
    else
      var marked := if ops[id].started then es else es + [Begin(id)];
      if purged then marked + [Refuse(id, false)] else Drive(marked + [Begin(id)], turns)
  }
}
