/** What every reachable ledger satisfies: issued once, logged along the lifecycle graph, settled truthfully,
    replied in chains. */
module LedgerInvariants {
  import opened Schema
  import opened Wrappers
  import opened LedgerOps
  import opened LedgerMoves
  import Issuance

  predicate SameKey(r: Request, q: Request) {
    r.actor == q.actor && r.key == q.key
  }

  /** One request per actor and idempotency key, stored under its own fingerprint. */
  ghost predicate IssuedOnce(l: Ledger) {
    && (forall r, q :: r in l.requests && q in l.requests && SameKey(l.requests[r], l.requests[q]) ==> r == q)
    && (forall r :: r in l.requests ==>
                      l.requests[r].fingerprint == Fingerprint(l.requests[r].actor, l.requests[r].recipient,
                                                               l.requests[r].action, l.requests[r].replyTo))
    && (forall r :: r in l.requests ==> (l.requests[r].action == Eject <==> l.requests[r].replyTo.None?))
  }

  ghost predicate WellFormed(l: Ledger) {
    forall c :: c in l.commands ==>
                  && l.commands[c].expiresAt == l.commands[c].issuedAt + COMMAND_LIFETIME
                  && (l.commands[c].cancellation.Some? <==> l.commands[c].status == Cancelled)
  }

  // Lifecycle.

  function States(events: seq<LifecycleEvent>): (states: seq<LifecycleState>)
    ensures |states| == |events|
    ensures forall i :: 0 <= i < |events| ==> states[i] == events[i].state
  {
    seq(|events|, i requires 0 <= i < |events| => events[i].state)
  }

  const QUEUING: seq<LifecycleState> := [Requested, Authorized, Queued]

  predicate TraceOfCommand(states: seq<LifecycleState>, status: LifecycleState) {
    match status
    case Queued => states == QUEUING
    case Dispatched => states == QUEUING + [Dispatched]
    case Expired => states == QUEUING + [Expired] || states == QUEUING + [Dispatched, Expired]
    case Cancelled => states == QUEUING + [Cancelled] || states == QUEUING + [Dispatched, Cancelled]
    case RejectedByAgent => states == QUEUING + [Dispatched, Delivered, RejectedByAgent]
    case Failed => states == QUEUING + [Dispatched, Delivered, Attempted, Failed]
    case OutcomeUnknown => states == QUEUING + [Dispatched, Delivered, Attempted, OutcomeUnknown]
    case _ => false
  }

  ghost predicate Logged(l: Ledger, r: Id)
    requires r in l.requests
  {
    match l.requests[r].outcome
    case WasRejected(_) => States(Trace(l, r)) == [Requested, Rejected]
    case WasQueued(c) => c in l.commands && TraceOfCommand(States(Trace(l, r)), l.commands[c].status)
  }

  ghost predicate Traced(l: Ledger) {
    forall r :: r in l.requests ==> Logged(l, r)
  }

  // Results.

  predicate Settled(status: LifecycleState) {
    status == RejectedByAgent || status == Failed || status == OutcomeUnknown
  }

  ghost predicate Truthful(l: Ledger) {
    && (forall d, c :: (d, c) in l.results ==>
                         && c in l.commands && l.commands[c].device == d
                         && l.results[(d, c)].observation.command == c
                         && l.commands[c].status == ResultStatus(l.results[(d, c)].observation))
    && (forall c :: c in l.commands && Settled(l.commands[c].status) ==> (l.commands[c].device, c) in l.results)
  }

  // Replies.

  ghost predicate Answers(commands: map<Id, Command>, c: Id, source: Id) {
    c in commands && commands[c].replyTo == Some(source)
  }

  ghost predicate RepliesSwap(commands: map<Id, Command>) {
    forall c, s :: Answers(commands, c, s) ==>
                     s in commands && commands[s].actor == commands[c].recipient
                     && commands[s].recipient == commands[c].actor
  }

  ghost predicate RepliesUnique(commands: map<Id, Command>) {
    forall c, d, s :: Answers(commands, c, s) && Answers(commands, d, s) ==> c == d
  }

  /** Following reply sources from `c` reaches a standard command within `fuel` steps. */
  ghost predicate ChainEnds(commands: map<Id, Command>, c: Id, fuel: nat)
    decreases fuel
  {
    && c in commands
    && (commands[c].replyTo.None? || (fuel > 0 && ChainEnds(commands, commands[c].replyTo.value, fuel - 1)))
  }

  ghost predicate ChainsEnd(commands: map<Id, Command>) {
    forall c :: c in commands ==> ChainEnds(commands, c, |commands|)
  }

  ghost predicate RepliesSound(l: Ledger) {
    RepliesSwap(l.commands) && RepliesUnique(l.commands) && ChainsEnd(l.commands)
  }

  ghost predicate LedgerInv(l: Ledger) {
    Linked(l) && IssuedOnce(l) && WellFormed(l) && Traced(l) && Truthful(l) && RepliesSound(l)
  }

  // Each move keeps each part.

  lemma LinkedAfterNew(l: Ledger, m: Move)
    requires Linked(l) && Legal(l, m) && (m.Refuse? || m.Admit?)
    ensures Linked(Moved(l, m))
  {}

  lemma KeepsLinked(l: Ledger, m: Move)
    requires Linked(l) && Legal(l, m)
    ensures Linked(Moved(l, m))
  {
    if m.Refuse? || m.Admit? {
      LinkedAfterNew(l, m);
    }
  }

  lemma KeepsIssuedOnce(l: Ledger, m: Move)
    requires Linked(l) && IssuedOnce(l) && Legal(l, m)
    ensures IssuedOnce(Moved(l, m))
  {
    var requests := Moved(l, m).requests;
    if m.Refuse? || m.Admit? {
      forall r, q | r in requests && q in requests && SameKey(requests[r], requests[q])
        ensures r == q
      {
        assert r in l.requests ==> !Issuance.IsRequestOf(l, r, m.request.actor, m.request.key);
        assert q in l.requests ==> !Issuance.IsRequestOf(l, q, m.request.actor, m.request.key);
      }
    }
  }

  lemma KeepsWellFormed(l: Ledger, m: Move)
    requires WellFormed(l) && Legal(l, m)
    ensures WellFormed(Moved(l, m))
  {}

  lemma StatesAppend(a: seq<LifecycleEvent>, b: seq<LifecycleEvent>)
    ensures States(a + b) == States(a) + States(b)
  {}

  lemma TraceGrows(states: seq<LifecycleState>, from: LifecycleState, to: LifecycleState)
    requires TraceOfCommand(states, from)
    requires (from == Queued && to == Dispatched) || (from in {Queued, Dispatched} && to in {Expired, Cancelled})
    ensures TraceOfCommand(states + [to], to)
  {
    if from == Dispatched {
      assert states + [to] == QUEUING + [Dispatched, to];
    }
  }

  lemma TraceSettles(states: seq<LifecycleState>, o: Observation, now: Time)
    requires TraceOfCommand(states, Dispatched)
    ensures TraceOfCommand(states + States(ResultEvents(o, now)), ResultStatus(o))
  {
    if o.Refusal? {
      assert States(ResultEvents(o, now)) == [Delivered, RejectedByAgent];
    } else {
      assert States(ResultEvents(o, now)) == [Delivered, Attempted, ResultStatus(o)];
    }
    assert states + States(ResultEvents(o, now)) == QUEUING + ([Dispatched] + States(ResultEvents(o, now)));
  }

  /** A request the move does not touch stays logged. */
  lemma StaysLogged(l: Ledger, next: Ledger, r: Id)
    requires r in l.requests && Logged(l, r) && r in next.requests && next.requests[r] == l.requests[r]
    requires Trace(next, r) == Trace(l, r)
    requires l.requests[r].outcome.WasQueued? ==>
               l.requests[r].outcome.command in next.commands
               && next.commands[l.requests[r].outcome.command] == l.commands[l.requests[r].outcome.command]
    ensures Logged(next, r)
  {}

  lemma TracedAfterNew(l: Ledger, m: Move)
    requires Linked(l) && Traced(l) && Legal(l, m) && (m.Refuse? || m.Admit?)
    ensures Traced(Moved(l, m))
  {
    var next := Moved(l, m);
    assert Trace(l, m.r) == [];
    forall r | r in next.requests
      ensures Logged(next, r)
    {
      if r != m.r {
        StaysLogged(l, next, r);
      } else if m.Admit? {
        assert States(Trace(next, r)) == QUEUING;
      } else {
        assert States(Trace(next, r)) == [Requested, Rejected];
      }
    }
  }

  lemma TracedAfterChange(l: Ledger, m: Move)
    requires Linked(l) && Traced(l) && Legal(l, m) && m.Change?
    ensures Traced(Moved(l, m))
  {
    var next, touched := Moved(l, m), l.commands[m.c].request;
    forall r | r in next.requests
      ensures Logged(next, r)
    {
      if r != touched {
        StaysLogged(l, next, r);
      } else {
        assert Logged(l, r);
        var added := [LifecycleEvent(m.status, m.reason, m.now)];
        StatesAppend(Trace(l, r), added);
        assert States(added) == [m.status];
        TraceGrows(States(Trace(l, r)), l.commands[m.c].status, m.status);
      }
    }
  }

  lemma TracedAfterSettle(l: Ledger, m: Move)
    requires Linked(l) && Traced(l) && Legal(l, m) && m.Settle?
    ensures Traced(Moved(l, m))
  {
    var next, touched := Moved(l, m), l.commands[m.o.command].request;
    forall r | r in next.requests
      ensures Logged(next, r)
    {
      if r != touched {
        StaysLogged(l, next, r);
      } else {
        assert Logged(l, r);
        StatesAppend(Trace(l, r), ResultEvents(m.o, m.now));
        TraceSettles(States(Trace(l, r)), m.o, m.now);
      }
    }
  }

  lemma TracedAfterCancel(l: Ledger, m: Move)
    requires Linked(l) && Traced(l) && Legal(l, m) && m.CancelMany?
    ensures Traced(Moved(l, m))
  {
    var next := Moved(l, m);
    forall r | r in next.requests
      ensures Logged(next, r)
    {
      assert Logged(l, r);
      if Hit(l, m.ids, r) {
        var added := [LifecycleEvent(Cancelled, Some(CancelledBecause(m.why)), m.now)];
        StatesAppend(Trace(l, r), added);
        assert States(added) == [Cancelled];
        TraceGrows(States(Trace(l, r)), l.commands[l.requests[r].outcome.command].status, Cancelled);
      } else {
        assert l.requests[r].outcome.WasQueued? ==> l.requests[r].outcome.command !in m.ids;
        StaysLogged(l, next, r);
      }
    }
  }

  lemma KeepsTraced(l: Ledger, m: Move)
    requires Linked(l) && Traced(l) && Legal(l, m)
    ensures Traced(Moved(l, m))
  {
    match m
    case Stay =>
    case Refuse(_, _, _) => TracedAfterNew(l, m);
    case Admit(_, _, _, _, _) => TracedAfterNew(l, m);
    case Change(_, _, _, _, _) => TracedAfterChange(l, m);
    case Settle(_, _, _) => TracedAfterSettle(l, m);
    case CancelMany(_, _, _) => TracedAfterCancel(l, m);
  }

  lemma KeepsTruthful(l: Ledger, m: Move)
    requires Truthful(l) && Legal(l, m)
    ensures Truthful(Moved(l, m))
  {
    var next := Moved(l, m);
    forall d, c | (d, c) in next.results
      ensures && c in next.commands && next.commands[c].device == d
              && next.results[(d, c)].observation.command == c
              && next.commands[c].status == ResultStatus(next.results[(d, c)].observation)
    {
      assert (d, c) in l.results ==> Settled(l.commands[c].status);
    }
  }

  /** Links do not change with status, so only admitting a command can matter to chains. */
  ghost predicate SameLinks(a: map<Id, Command>, b: map<Id, Command>) {
    a.Keys == b.Keys
    && forall c :: c in a ==>
                     a[c].replyTo == b[c].replyTo && a[c].actor == b[c].actor && a[c].recipient == b[c].recipient
  }

  lemma {:induction false} ChainGrows(a: map<Id, Command>, b: map<Id, Command>, c: Id, fuel: nat, more: nat)
    requires forall d :: d in a ==> d in b && a[d].replyTo == b[d].replyTo
    requires ChainEnds(a, c, fuel) && fuel <= more
    ensures ChainEnds(b, c, more)
    decreases fuel
  {
    if a[c].replyTo.Some? {
      ChainGrows(a, b, a[c].replyTo.value, fuel - 1, more - 1);
    }
  }

  lemma RepliesKeptBySameLinks(l: Ledger, next: Ledger)
    requires RepliesSound(l) && SameLinks(l.commands, next.commands)
    ensures RepliesSound(next)
  {
    assert |next.commands| == |next.commands.Keys| == |l.commands|;
    forall c | c in next.commands
      ensures ChainEnds(next.commands, c, |next.commands|)
    {
      ChainGrows(l.commands, next.commands, c, |l.commands|, |next.commands|);
    }
    assert forall c, s :: Answers(next.commands, c, s) ==> Answers(l.commands, c, s);
  }

  lemma ChainsKeptByAdmit(l: Ledger, m: Move)
    requires ChainsEnd(l.commands) && Legal(l, m) && m.Admit?
    ensures ChainsEnd(Moved(l, m).commands)
  {
    var next := Moved(l, m).commands;
    assert |next| == |l.commands| + 1;
    forall c | c in next
      ensures ChainEnds(next, c, |next|)
    {
      var start := if c == m.c && m.command.replyTo.Some? then m.command.replyTo.value else c;
      if start in l.commands {
        ChainGrows(l.commands, next, start, |l.commands|, |l.commands|);
        ChainGrows(next, next, start, |l.commands|, |next|);
      }
    }
  }

  lemma RepliesKeptByAdmit(l: Ledger, m: Move)
    requires RepliesSound(l) && Legal(l, m) && m.Admit?
    ensures RepliesSound(Moved(l, m))
  {
    ChainsKeptByAdmit(l, m);
    var next := Moved(l, m).commands;
    assert forall c, s :: Answers(next, c, s) && c != m.c ==> Answers(l.commands, c, s);
    assert forall c, s :: Answers(l.commands, c, s) ==> Issuance.Replied(l, s);
  }

  lemma KeepsReplies(l: Ledger, m: Move)
    requires RepliesSound(l) && Legal(l, m)
    ensures RepliesSound(Moved(l, m))
  {
    if m.Admit? {
      RepliesKeptByAdmit(l, m);
    } else {
      RepliesKeptBySameLinks(l, Moved(l, m));
    }
  }

  lemma MoveKeepsLedger(l: Ledger, m: Move)
    requires LedgerInv(l) && Legal(l, m)
    ensures LedgerInv(Moved(l, m))
  {
    KeepsLinked(l, m);
    KeepsIssuedOnce(l, m);
    KeepsWellFormed(l, m);
    KeepsTraced(l, m);
    KeepsTruthful(l, m);
    KeepsReplies(l, m);
  }
}
