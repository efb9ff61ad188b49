/** The transition table of the lifecycle is what logs really do: every transition but two is taken by some run, and no
    run takes another. */
module LifecycleEdges {
  import opened Schema
  import opened Wrappers
  import opened Protocol
  import opened Reachability
  import opened Scenario
  import opened Transport
  import AgentAnswers
  import ConsentHistory
  import Domain
  import Issuance
  import LedgerInvariants
  import LedgerOps
  import Verdicts

  /** Some log of the ledger has these two states one after the other. */
  ghost predicate Follows(l: Ledger, from: LifecycleState, to: LifecycleState) {
    exists r: Id, k: nat ::
      r in l.events && k + 1 < |l.events[r]| && l.events[r][k].state == from && l.events[r][k + 1].state == to
  }

  /** Some run from a sound database ends with such a log. */
  ghost predicate Taken(from: LifecycleState, to: LifecycleState) {
    exists states: seq<Db>, steps: seq<Step> ::
      ValidRun(states, steps) && Inv(states[0]) && Follows(states[|steps|].ledger, from, to)
  }

  const UNTAKEN: set<(LifecycleState, LifecycleState)> := {(Authorized, Cancelled), (Dispatched, Dispatched)}

  lemma LogFollowsTable(states: seq<LifecycleState>, status: LifecycleState, k: nat)
    requires LedgerInvariants.TraceOfCommand(states, status) && k + 1 < |states|
    ensures Domain.CanTransition(states[k], states[k + 1]) && (states[k], states[k + 1]) !in UNTAKEN
  {}

  lemma TakenIsInTable(l: Ledger, from: LifecycleState, to: LifecycleState)
    requires LedgerOps.Linked(l) && LedgerInvariants.Traced(l) && Follows(l, from, to)
    ensures Domain.CanTransition(from, to) && (from, to) !in UNTAKEN
  {
    var r: Id, k: nat :|
      r in l.events && k + 1 < |l.events[r]| && l.events[r][k].state == from && l.events[r][k + 1].state == to;
    assert LedgerInvariants.Logged(l, r);
    var states := LedgerInvariants.States(LedgerOps.Trace(l, r));
    assert states[k] == from && states[k + 1] == to;
    if l.requests[r].outcome.WasQueued? {
      LogFollowsTable(states, l.commands[l.requests[r].outcome.command].status, k);
    }
  }

  // The runs that take the rest.

  const INPUT := Issuance.Input(2, 1, 9, Eject, None, 0)

  /** Command 12 of request 10 is on its way to device 7, in time until thirty seconds; its log is that far. */
  ghost predicate Underway(db: Db, status: LifecycleState, log: seq<LifecycleState>) {
    && db.dir == IdleDb(60).dir && db.fleet.devices == IdleDb(60).fleet.devices
    && db.fleet.keys == IdleDb(60).fleet.keys
    && db.ledger.requests == map[10 := Request(2, 1, 9, Fingerprint(2, 1, Eject, None), Eject, None, WasQueued(12), 0)]
    && db.ledger.events.Keys == {10}
    && db.ledger.commands == map[12 := Command(10, 2, 1, 7, status, None, 0, 30 * SECOND, None)]
    && db.ledger.results == map[] && (7, 2) !in db.fleet.nonces
    && LogIs(db.ledger, log)
  }

  predicate LogIs(l: Ledger, log: seq<LifecycleState>) {
    10 in l.events && |l.events[10]| == |log| && forall k :: 0 <= k < |log| ==> l.events[10][k].state == log[k]
  }

  lemma LogTakes(states: seq<Db>, steps: seq<Step>, log: seq<LifecycleState>, k: nat)
    requires ValidRun(states, steps) && states[0] == IdleDb(60)
    requires LogIs(states[|steps|].ledger, log) && k + 1 < |log|
    ensures Taken(log[k], log[k + 1])
  {
    IdleInv(60);
    var l := states[|steps|].ledger;
    assert l.events[10][k].state == log[k] && l.events[10][k + 1].state == log[k + 1];
    assert Follows(l, log[k], log[k + 1]);
  }

  /** Such a log takes every transition on it. */
  lemma RunTakes(states: seq<Db>, steps: seq<Step>, step: Step, next: Db, log: seq<LifecycleState>)
    requires ValidRun(states, steps) && states[0] == IdleDb(60) && Transition(states[|steps|], step, next)
    requires LogIs(next.ledger, log)
    ensures forall k: nat :: k + 1 < |log| ==> Taken(log[k], log[k + 1])
  {
    AppendStep(states, steps, step, next);
    forall k: nat | k + 1 < |log|
      ensures Taken(log[k], log[k + 1])
    {
      LogTakes(states + [next], steps + [step], log, k);
    }
  }

  const QUEUEING: seq<LifecycleState> := [Requested, Authorized, Queued]

  lemma IdleAdmits()
    ensures Verdicts.Decidable(IdleDb(60), INPUT) && Verdicts.Unobstructed(IdleDb(60), INPUT)
  {
    assert Verdicts.TargetOf(IdleDb(60), 1, 7);
    assert Verdicts.Permitted(IdleDb(60), INPUT) && Verdicts.WithinLimits(IdleDb(60), INPUT);
  }

  lemma QueuedDb() returns (db: Db)
    ensures Transition(IdleDb(60), Issue(INPUT, 10, 12, 0), db)
    ensures Underway(db, Queued, QUEUEING) && db.fleet == IdleDb(60).fleet
  {
    IdleFleet(60);
    IdleAdmits();
    Verdicts.AdmittedExactly(IdleDb(60), INPUT, 10, 12, 0);
    Verdicts.VerdictExactly(IdleDb(60), INPUT, 10, 12, 0);
    Verdicts.VerdictIsRecorded(IdleDb(60), INPUT, 10, 12, 0);
    db := Next(IdleDb(60), Issue(INPUT, 10, 12, 0));
  }

  /** A run that has brought the command this far. */
  ghost predicate Reaches(states: seq<Db>, steps: seq<Step>, status: LifecycleState, log: seq<LifecycleState>) {
    ValidRun(states, steps) && states[0] == IdleDb(60) && Underway(states[|steps|], status, log)
  }

  lemma QueuedRun() returns (states: seq<Db>, steps: seq<Step>)
    ensures Reaches(states, steps, Queued, QUEUEING) && states[|steps|].fleet == IdleDb(60).fleet
  {
    var db := QueuedDb();
    states, steps := [IdleDb(60), db], [Issue(INPUT, 10, 12, 0)];
  }

  /** The device polls with a nonce of its own. */
  lemma Polls(db: Db, status: LifecycleState, log: seq<LifecycleState>, nonce: Digest, now: Time) returns (next: Db)
    requires Underway(db, status, log) && status in {Queued, Dispatched} && (7, nonce) !in db.fleet.nonces
    ensures Transition(db, Poll(Context(7, 3, nonce), now), next)
    ensures LedgerOps.Linked(db.ledger) && AgentAnswers.Polled(db, next.ledger, 12, 7, now)
    ensures AgentAnswers.NoncesAfter(db, next, Context(7, 3, nonce), now)
  {
    AgentAnswers.PollWritesExactly(db, Context(7, 3, nonce), now);
    assert AgentAnswers.Earliest(db.ledger.commands, 12, 7);
    next := Next(db, Poll(Context(7, 3, nonce), now));
  }

  lemma DispatchedDb(db: Db, next: Db)
    requires Underway(db, Queued, QUEUEING) && db.fleet == IdleDb(60).fleet
    requires LedgerOps.Linked(db.ledger) && AgentAnswers.Polled(db, next.ledger, 12, 7, 0)
    requires AgentAnswers.NoncesAfter(db, next, Context(7, 3, 1), 0)
    ensures Underway(next, Dispatched, QUEUEING + [Dispatched])
  {}

  lemma DispatchedRun() returns (states: seq<Db>, steps: seq<Step>)
    ensures Reaches(states, steps, Dispatched, QUEUEING + [Dispatched])
  {
    states, steps := QueuedRun();
    var next := Polls(states[|steps|], Queued, QUEUEING, 1, 0);
    DispatchedDb(states[|steps|], next);
    AppendStep(states, steps, Poll(Context(7, 3, 1), 0), next);
    states, steps := states + [next], steps + [Poll(Context(7, 3, 1), 0)];
  }

  lemma Expires(db: Db, status: LifecycleState, log: seq<LifecycleState>) returns (next: Db)
    requires Underway(db, status, log) && status in {Queued, Dispatched}
    ensures Transition(db, Poll(Context(7, 3, 2), 30 * SECOND), next) && LogIs(next.ledger, log + [Expired])
  {
    next := Polls(db, status, log, 2, 30 * SECOND);
  }

  lemma IsCalledOff(db: Db, status: LifecycleState, log: seq<LifecycleState>) returns (next: Db)
    requires Underway(db, status, log) && status in {Queued, Dispatched}
    ensures Transition(db, SetPaused(1, true, 0, 0), next) && LogIs(next.ledger, log + [Cancelled])
  {
    ConsentHistory.PauseWritesExactly(db, 1, true, 0, 0);
    assert 12 in ConsentHistory.OnTheirWay(db.ledger, 1, None);
    next := Next(db, SetPaused(1, true, 0, 0));
  }

  /** On its way a command can expire or be called off. */
  lemma UnderwayEnds(states: seq<Db>, steps: seq<Step>, status: LifecycleState, log: seq<LifecycleState>,
                     to: LifecycleState)
    requires Reaches(states, steps, status, log) && status in {Queued, Dispatched} && |log| > 0
    requires to in {Expired, Cancelled}
    ensures Taken(log[|log| - 1], to)
  {
    if to == Expired {
      var next := Expires(states[|steps|], status, log);
      RunTakes(states, steps, Poll(Context(7, 3, 2), 30 * SECOND), next, log + [to]);
    } else {
      var next := IsCalledOff(states[|steps|], status, log);
      RunTakes(states, steps, SetPaused(1, true, 0, 0), next, log + [to]);
    }
    LastTaken(log, to);
  }

  lemma LastTaken(log: seq<LifecycleState>, last: LifecycleState)
    requires |log| > 0 && forall k: nat :: k + 1 < |log + [last]| ==> Taken((log + [last])[k], (log + [last])[k + 1])
    ensures Taken(log[|log| - 1], last)
  {
    assert (log + [last])[|log| - 1] == log[|log| - 1] && (log + [last])[|log|] == last;
  }

  const REFUSAL := Refusal(12, 7, 0, AgentPaused)
  const FAILURE := Attempt(12, 7, 0, DriveBusy)
  const SUCCESS := Attempt(12, 7, 0, CommandAccepted)

  /** The log after a result. */
  function Resulting(o: Observation): seq<LifecycleState> {
    if o.Refusal? then [Requested, Authorized, Queued, Dispatched, Delivered, RejectedByAgent]
    else [Requested, Authorized, Queued, Dispatched, Delivered, Attempted,
          if o.code == CommandAccepted then OutcomeUnknown else Failed]
  }

  lemma Reports(db: Db, log: seq<LifecycleState>, o: Observation) returns (next: Db)
    requires Underway(db, Dispatched, log) && o in {REFUSAL, FAILURE, SUCCESS}
    ensures Transition(db, Report(Context(7, 3, 2), o, 0), next)
    ensures LedgerOps.Linked(db.ledger) && AgentAnswers.StoredIn(db.ledger, next.ledger, o, 7, 0)
  {
    AgentAnswers.ReportWritesExactly(db, Context(7, 3, 2), o, 0);
    next := Next(db, Report(Context(7, 3, 2), o, 0));
  }

  lemma ResultLogged(l: Ledger, next: Ledger, o: Observation)
    requires LedgerOps.Linked(l) && 12 in l.commands && l.commands[12].request == 10
    requires LogIs(l, QUEUEING + [Dispatched]) && o in {REFUSAL, FAILURE, SUCCESS}
    requires AgentAnswers.StoredIn(l, next, o, 7, 0)
    ensures LogIs(next, Resulting(o))
  {
    var status, added :|
      && AgentAnswers.SettledAs(o, 0, status, added)
      && next == Ledger(l.requests, l.commands[12 := l.commands[12].(status := status)],
                        l.events[10 := l.events[10] + added], l.results[(7, 12) := AgentResult(o, 0)]);
  }

  lemma ResultTakes(o: Observation, k: nat, from: LifecycleState, to: LifecycleState)
    requires o in {REFUSAL, FAILURE, SUCCESS} && k + 1 < |Resulting(o)|
    requires from == Resulting(o)[k] && to == Resulting(o)[k + 1]
    ensures Taken(from, to)
  {
    var states, steps := DispatchedRun();
    var next := Reports(states[|steps|], QUEUEING + [Dispatched], o);
    ResultLogged(states[|steps|].ledger, next.ledger, o);
    RunTakes(states, steps, Report(Context(7, 3, 2), o, 0), next, Resulting(o));
  }

  /** A request to a recipient who has paused is rejected. */
  lemma RejectionTakes()
    ensures Taken(Requested, Rejected)
  {
    var db, pause, ask := IdleDb(60), SetPaused(1, true, 0, 0), Issue(INPUT, 10, 12, 0);
    var next := Next(db, pause);
    ConsentHistory.PauseWritesExactly(db, 1, true, 0, 0);
    PausedRejects(next);
    var states, steps := [db, next, Next(next, ask)], [pause, ask];
    LogTakes(states, steps, [Requested, Rejected], 0);
  }

  /** Nothing has happened but a pause of person 1. */
  ghost predicate OnlyPaused(db: Db) {
    && db.fleet == IdleDb(60).fleet && db.dir == IdleDb(60).dir && db.ledger == IdleDb(60).ledger
    && db.perms.blocks == {} && 1 in db.perms.policies
    && db.perms.policies[1] == IdleDb(60).perms.policies[1].(paused := true)
  }

  lemma PausedObstacle(db: Db)
    requires OnlyPaused(db)
    ensures Verdicts.Decidable(db, INPUT) && Verdicts.FirstObstacle(db, INPUT, RecipientPaused)
  {}

  lemma PausedAnswers(db: Db)
    requires OnlyPaused(db)
    ensures Issuance.Issue(db, INPUT, 10, 12, 0).Committed?
  {
    IdleFleet(60);
    PausedObstacle(db);
    Verdicts.VerdictExactly(db, INPUT, 10, 12, 0);
  }

  lemma PausedRejects(db: Db)
    requires OnlyPaused(db)
    ensures LogIs(Next(db, Issue(INPUT, 10, 12, 0)).ledger, [Requested, Rejected])
  {
    IdleFleet(60);
    PausedObstacle(db);
    PausedAnswers(db);
    Verdicts.RejectionIsRecorded(db, INPUT, 10, 12, 0, RecipientPaused);
  }

  lemma QueuedEnds(to: LifecycleState)
    requires to in {Expired, Cancelled}
    ensures Taken(Queued, to)
  {
    var states, steps := QueuedRun();
    UnderwayEnds(states, steps, Queued, QUEUEING, to);
  }

  lemma DispatchedEnds(to: LifecycleState)
    requires to in {Expired, Cancelled}
    ensures Taken(Dispatched, to)
  {
    var states, steps := DispatchedRun();
    UnderwayEnds(states, steps, Dispatched, QUEUEING + [Dispatched], to);
  }

  lemma TableIsTaken(from: LifecycleState, to: LifecycleState)
    requires Domain.CanTransition(from, to) && (from, to) !in UNTAKEN
    ensures Taken(from, to)
  {
    match from
    case Requested => if to == Rejected { RejectionTakes(); } else { ResultTakes(SUCCESS, 0, from, to); }
    case Authorized => ResultTakes(SUCCESS, 1, from, to);
    case Queued => if to == Dispatched { ResultTakes(SUCCESS, 2, from, to); } else { QueuedEnds(to); }
    case Dispatched => if to == Delivered { ResultTakes(SUCCESS, 3, from, to); } else { DispatchedEnds(to); }
    case Delivered => ResultTakes(if to == Attempted then SUCCESS else REFUSAL, 4, from, to);
    case Attempted => ResultTakes(if to == OutcomeUnknown then SUCCESS else FAILURE, 5, from, to);
    case _ =>
  }

  /** The table's transitions are exactly those that logs take, and two more: the code never cancels what it has just
      authorized, and never logs a second dispatch. */
  lemma TableExactly(from: LifecycleState, to: LifecycleState)
    ensures Domain.CanTransition(from, to) <==> Taken(from, to) || (from, to) in UNTAKEN
  {
    if Taken(from, to) {
      var states: seq<Db>, steps: seq<Step> :|
        ValidRun(states, steps) && Inv(states[0]) && Follows(states[|steps|].ledger, from, to);
      RunInv(states, steps, |steps|);
      TakenIsInTable(states[|steps|].ledger, from, to);
    } else if Domain.CanTransition(from, to) && (from, to) !in UNTAKEN {
      TableIsTaken(from, to);
    }
  }
}
