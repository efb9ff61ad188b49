/** What the ledger guarantees in every reachable database and along every run. */
module LedgerTheorems {
  import opened Schema
  import opened Wrappers
  import opened Protocol
  import opened LedgerInvariants
  import opened LedgerOps
  import opened Reachability
  import Admission
  import LedgerMoves
  import Domain
  import Issuance
  import Transport

  // Lifecycle.

  /** A path of the lifecycle graph from REQUESTED that visits no state twice. */
  ghost predicate LifecyclePath(states: seq<LifecycleState>) {
    && |states| > 0 && states[0] == Requested
    && (forall i :: 0 <= i < |states| - 1 ==> Domain.CanTransition(states[i], states[i + 1]))
    && (forall i, j :: 0 <= i < j < |states| ==> states[i] != states[j])
  }

  lemma CommandTraceIsPath(states: seq<LifecycleState>, status: LifecycleState)
    requires TraceOfCommand(states, status)
    ensures LifecyclePath(states) && states[|states| - 1] == status
  {}

  /** Every request's log is a lifecycle path ending in the command's status, or in REJECTED. */
  lemma LogsFollowLifecycle(l: Ledger, r: Id)
    requires Linked(l) && Traced(l) && r in l.requests
    ensures var states := States(Trace(l, r));
            && LifecyclePath(states)
            && match l.requests[r].outcome
               case WasRejected(_) => states[|states| - 1] == Rejected
               case WasQueued(c) => c in l.commands && states[|states| - 1] == l.commands[c].status
  {
    assert Logged(l, r);
    if l.requests[r].outcome.WasQueued? {
      CommandTraceIsPath(States(Trace(l, r)), l.commands[l.requests[r].outcome.command].status);
    }
  }

  function Last(trace: seq<LifecycleEvent>): LifecycleState {
    if trace == [] then Requested else trace[|trace| - 1].state
  }

  /** So it is for every request in every reachable database. */
  lemma EveryLogIsAPath(states: seq<Db>, steps: seq<Step>, i: nat, r: Id)
    requires ValidRun(states, steps) && Genesis(states[0]) && i <= |steps| && r in states[i].ledger.requests
    ensures var l := states[i].ledger;
            && LifecyclePath(States(Trace(l, r)))
            && match l.requests[r].outcome
               case WasRejected(_) => Last(Trace(l, r)) == Rejected
               case WasQueued(c) => c in l.commands && Last(Trace(l, r)) == l.commands[c].status
  {
    GenesisInv(states[0]);
    RunInv(states, steps, i);
    LogsFollowLifecycle(states[i].ledger, r);
  }

  // Permanence.

  /** Nothing recorded is ever lost or rewritten. */
  ghost predicate HistoryKept(a: Ledger, b: Ledger) {
    && (forall r :: r in a.requests ==> r in b.requests && b.requests[r] == a.requests[r] && Trace(a, r) <= Trace(b, r))
    && (forall k :: k in a.results ==> k in b.results && b.results[k] == a.results[k])
    && (forall c :: c in a.commands ==> c in b.commands && Admission.SameCommand(a.commands[c], b.commands[c]))
  }

  ghost predicate Frozen(a: Ledger, b: Ledger, c: Id)
    requires c in a.commands
  {
    c in b.commands && b.commands[c] == a.commands[c]
    && Trace(b, a.commands[c].request) == Trace(a, a.commands[c].request)
  }

  /** A command in a terminal status is frozen, and so is its log. */
  ghost predicate TerminalFrozen(a: Ledger, b: Ledger) {
    forall c :: c in a.commands && Domain.Terminal(a.commands[c].status) ==> Frozen(a, b, c)
  }

  ghost predicate Extends(a: Ledger, b: Ledger) {
    HistoryKept(a, b) && TerminalFrozen(a, b)
  }

  lemma NewKeepsHistory(l: Ledger, m: LedgerMoves.Move)
    requires Linked(l) && LedgerMoves.Legal(l, m) && (m.Refuse? || m.Admit?)
    ensures HistoryKept(l, LedgerMoves.Moved(l, m))
  {}

  lemma CancelKeepsHistory(l: Ledger, m: LedgerMoves.Move)
    requires Linked(l) && LedgerMoves.Legal(l, m) && m.CancelMany?
    ensures HistoryKept(l, LedgerMoves.Moved(l, m))
  {}

  lemma ChangeKeepsHistory(l: Ledger, m: LedgerMoves.Move)
    requires Linked(l) && LedgerMoves.Legal(l, m) && m.Change?
    ensures HistoryKept(l, LedgerMoves.Moved(l, m))
  {}

  lemma SettleKeepsHistory(l: Ledger, m: LedgerMoves.Move)
    requires Linked(l) && LedgerMoves.Legal(l, m) && m.Settle?
    ensures HistoryKept(l, LedgerMoves.Moved(l, m))
  {}

  lemma MoveKeepsHistory(l: Ledger, m: LedgerMoves.Move)
    requires Linked(l) && LedgerMoves.Legal(l, m)
    ensures HistoryKept(l, LedgerMoves.Moved(l, m))
  {
    if m.Refuse? || m.Admit? {
      NewKeepsHistory(l, m);
    } else if m.CancelMany? {
      CancelKeepsHistory(l, m);
    } else if m.Change? {
      ChangeKeepsHistory(l, m);
    } else if m.Settle? {
      SettleKeepsHistory(l, m);
    }
  }

  lemma MoveFreezesTerminal(l: Ledger, m: LedgerMoves.Move, c: Id)
    requires Linked(l) && LedgerMoves.Legal(l, m)
    requires c in l.commands && Domain.Terminal(l.commands[c].status)
    ensures Frozen(l, LedgerMoves.Moved(l, m), c)
  {
    if m.CancelMany? {
      assert c !in m.ids;
      assert !Hit(l, m.ids, l.commands[c].request);
    }
  }

  lemma StepExtends(db: Db, step: Step)
    requires Linked(db.ledger)
    ensures Extends(db.ledger, Next(db, step).ledger)
  {
    var l, m := db.ledger, LedgerMoves.MoveOf(db, step);
    LedgerMoves.StepMoves(db, step);
    MoveKeepsHistory(l, m);
    forall c | c in l.commands && Domain.Terminal(l.commands[c].status)
      ensures Frozen(l, LedgerMoves.Moved(l, m), c)
    {
      MoveFreezesTerminal(l, m, c);
    }
  }

  lemma ExtendsTransitive(a: Ledger, b: Ledger, c: Ledger)
    requires Linked(a) && Extends(a, b) && Extends(b, c)
    ensures Extends(a, c)
  {
    forall d | d in a.commands && Domain.Terminal(a.commands[d].status)
      ensures Frozen(a, c, d)
    {
      assert Frozen(a, b, d) && Frozen(b, c, d);
    }
  }

  lemma ExtendsOnce(a: Ledger, db: Db, step: Step, next: Db)
    requires Linked(a) && Linked(db.ledger) && Extends(a, db.ledger) && Transition(db, step, next)
    ensures Extends(a, next.ledger)
  {
    StepExtends(db, step);
    ExtendsTransitive(a, db.ledger, next.ledger);
  }

  /** From any database of a run to any later one, nothing recorded is lost and nothing settled moves. */
  lemma {:induction false} RunExtends(states: seq<Db>, steps: seq<Step>, i: nat, j: nat)
    requires ValidRun(states, steps) && Inv(states[0]) && i <= j <= |steps|
    ensures Extends(states[i].ledger, states[j].ledger)
  {
    RunAllInv(states, steps);
    ExtendsAlong(states, steps, i, j);
  }

  lemma {:induction false} ExtendsAlong(states: seq<Db>, steps: seq<Step>, i: nat, j: nat)
    requires |states| == |steps| + 1 && i <= j <= |steps|
    requires forall k {:trigger steps[k]} :: i <= k < j ==> Transition(states[k], steps[k], states[k + 1])
    requires forall k: nat :: k <= |steps| ==> Linked(states[k].ledger)
    ensures Extends(states[i].ledger, states[j].ledger)
    decreases j
  {
    if i < j {
      ExtendsAlong(states, steps, i, j - 1);
      ExtendsOnce(states[i].ledger, states[j - 1], steps[j - 1], states[j]);
    }
  }

  // Results.

  /** In every reachable database a result is stored exactly for the statuses that a result decides, and it is the
      command's own device that reported it and its disposition and code that decided. */
  lemma ResultExactlyWhenSettled(states: seq<Db>, steps: seq<Step>, i: nat, c: Id)
    requires ValidRun(states, steps) && Genesis(states[0]) && i <= |steps| && c in states[i].ledger.commands
    ensures var l := states[i].ledger;
            && ((exists d :: (d, c) in l.results) <==> Settled(l.commands[c].status))
            && (forall d :: (d, c) in l.results ==>
                              d == l.commands[c].device
                              && l.commands[c].status == ResultStatus(l.results[(d, c)].observation))
  {
    GenesisInv(states[0]);
    RunInv(states, steps, i);
    var l := states[i].ledger;
    if Settled(l.commands[c].status) {
      assert (l.commands[c].device, c) in l.results;
    }
  }

  /** Reporting on a command that already has a result changes nothing but nonces. */
  lemma ReportAgain(db: Db, ctx: Transport.Context, o: Observation, now: Time)
    requires (ctx.device, o.command) in db.ledger.results
    requires Truthful(db.ledger)
    ensures Next(db,
                 Report(ctx, o, now)) == db.(fleet := db.fleet.(nonces := Next(db, Report(ctx, o, now)).fleet.nonces))
    ensures Transport.NonceGate(db, ctx, now) == Transport.Fresh && o.device == ctx.device
            && o.recordedAt <= now + CLOCK_SKEW ==>
              Transport.IngestAgentResult(db, ctx, o, now).answer ==
              (if db.ledger.results[(ctx.device, o.command)].observation == o
               then Transport.AlreadyStored else Transport.ResultConflict)
  {}

  /** Once an agent's result is stored, every later report on the command, in any continuation of the run, changes
      nothing but nonces, and one that passes the gates is told whether it repeats the stored result or conflicts. */
  lemma ReportedForever(states: seq<Db>, steps: seq<Step>, i: nat, j: nat, ctx: Transport.Context, o: Observation,
                        now: Time)
    requires ValidRun(states, steps) && Genesis(states[0]) && i <= j <= |steps|
    requires (ctx.device, o.command) in states[i].ledger.results
    ensures var db, next := states[j], Next(states[j], Report(ctx, o, now));
            next == db.(fleet := db.fleet.(nonces := next.fleet.nonces))
    ensures Transport.NonceGate(states[j], ctx, now) == Transport.Fresh && o.device == ctx.device
            && o.recordedAt <= now + CLOCK_SKEW ==>
              Transport.IngestAgentResult(states[j], ctx, o, now).answer ==
              (if states[i].ledger.results[(ctx.device, o.command)].observation == o
               then Transport.AlreadyStored else Transport.ResultConflict)
  {
    GenesisInv(states[0]);
    RunExtends(states, steps, i, j);
    RunInv(states, steps, j);
    ReportAgain(states[j], ctx, o, now);
  }

  // Idempotent issuance.

  lemma FoundIsBound(l: Ledger, r: Id)
    requires IssuedOnce(l) && r in l.requests
    ensures Issuance.FindRequest(l, l.requests[r].actor, l.requests[r].key) == Some(r)
  {
    assert Issuance.IsRequestOf(l, r, l.requests[r].actor, l.requests[r].key);
  }

  predicate SameMeaning(input: Issuance.Input, request: Request) {
    && input.recipient == request.recipient && input.action == request.action && input.replyTo == request.replyTo
  }

  /** Once a key is bound, at any later point of any run the same request gets the first answer and another one
      gets a conflict; both only make sure the recipient's counter row exists. */
  lemma KeyBoundForever(states: seq<Db>, steps: seq<Step>, i: nat, j: nat, bound: Id,
                        input: Issuance.Input, r: Id, c: Id, clock: Time)
    requires ValidRun(states, steps) && Inv(states[0]) && i <= j <= |steps|
    requires Issuance.IsRequestOf(states[i].ledger, bound, input.actor, input.key)
    ensures Issuance.Issue(states[j], input, r, c, clock) ==
            Committed(Issuance.WithRecipient(states[j], input.recipient, clock),
                      if SameMeaning(input, states[i].ledger.requests[bound])
                      then Issuance.StoredAnswer(bound, states[i].ledger.requests[bound])
                      else Issuance.IdempotencyConflict)
  {
    RunExtends(states, steps, i, j);
    RunInv(states, steps, j);
    FoundIsBound(states[j].ledger, bound);
  }

  ghost predicate AskedFor(l: Ledger, c: Id, actor: Id, key: Id) {
    c in l.commands && Issuance.IsRequestOf(l, l.commands[c].request, actor, key)
  }

  /** In any run one actor and one key get one command, however often the request is repeated. */
  lemma OneCommandPerKey(states: seq<Db>, steps: seq<Step>, i: nat, actor: Id, key: Id, c: Id, d: Id)
    requires ValidRun(states, steps) && Genesis(states[0]) && i <= |steps|
    requires AskedFor(states[i].ledger, c, actor, key) && AskedFor(states[i].ledger, d, actor, key)
    ensures c == d
  {
    GenesisInv(states[0]);
    RunInv(states, steps, i);
  }
}
