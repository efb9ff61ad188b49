/** The writes to requests, commands, events and results that the stores have in common. */
module LedgerOps {
  import opened Schema
  import opened Wrappers

  function Trace(l: Ledger, r: Id): seq<LifecycleEvent> {
    if r in l.events then l.events[r] else []
  }

  function Append(l: Ledger, r: Id, added: seq<LifecycleEvent>): Ledger {
    l.(events := l.events[r := Trace(l, r) + added])
  }

  function Note(s: LifecycleState, now: Time): LifecycleEvent {
    LifecycleEvent(s, None, now)
  }

  function RecordRejection(l: Ledger, r: Id, request: Request, now: Time): Ledger
    requires request.outcome.WasRejected?
  {
    Append(l.(requests := l.requests[r := request]), r,
           [Note(Requested, now), LifecycleEvent(Rejected, Some(RejectedBecause(request.outcome.reason)), now)])
  }

  function RecordQueued(l: Ledger, r: Id, request: Request, c: Id, command: Command, now: Time): Ledger {
    Append(l.(requests := l.requests[r := request], commands := l.commands[c := command]), r,
           [Note(Requested, now), Note(Authorized, now), Note(Queued, now)])
  }

  /** One command changes status, and its request's log says so. */
  function Advance(l: Ledger, c: Id, status: LifecycleState, cancellation: Option<CancelReason>,
                   reason: Option<EventReason>, now: Time): Ledger
    requires c in l.commands
  {
    Append(l.(commands := l.commands[c := l.commands[c].(status := status, cancellation := cancellation)]),
           l.commands[c].request, [LifecycleEvent(status, reason, now)])
  }

  function Cancel(l: Ledger, c: Id, why: CancelReason, now: Time): Ledger
    requires c in l.commands
  {
    Advance(l, c, Cancelled, Some(why), Some(CancelledBecause(why)), now)
  }

  /** Cancelling a set of commands, in whatever order. */
  ghost predicate Hit(l: Ledger, ids: set<Id>, r: Id) {
    exists c :: c in ids && c in l.commands && l.commands[c].request == r
  }

  ghost function CancelAll(l: Ledger, ids: set<Id>, why: CancelReason, now: Time): Ledger {
    l.(commands := map c | c in l.commands ::
                     if c in ids then l.commands[c].(status := Cancelled, cancellation := Some(why))
                     else l.commands[c],
       events := map r | r in l.events ::
                   if Hit(l, ids, r) then l.events[r] + [LifecycleEvent(Cancelled, Some(CancelledBecause(why)), now)]
                   else l.events[r])
  }

  /** The foreign keys and unique constraints that tie commands, requests and events together. */
  ghost predicate Linked(l: Ledger) {
    && l.events.Keys == l.requests.Keys
    && (forall c :: c in l.commands ==>
                      && l.commands[c].request in l.requests
                      && l.requests[l.commands[c].request].outcome == WasQueued(c)
                      && l.requests[l.commands[c].request].actor == l.commands[c].actor
                      && l.requests[l.commands[c].request].recipient == l.commands[c].recipient
                      && l.requests[l.commands[c].request].replyTo == l.commands[c].replyTo)
    && (forall r :: r in l.requests && l.requests[r].outcome.WasQueued? ==>
                      && l.requests[r].outcome.command in l.commands
                      && l.commands[l.requests[r].outcome.command].request == r)
  }

  /** A request has one command, so cancelling one more command hits one more request. */
  lemma HitOneMore(l: Ledger, ids: set<Id>, c: Id, q: Id)
    requires Linked(l) && c in l.commands && c !in ids
    ensures Hit(l, ids + {c}, q) <==> Hit(l, ids, q) || q == l.commands[c].request
    ensures !Hit(l, ids, l.commands[c].request)
  {}

  lemma CancelAllEvents(l: Ledger, ids: set<Id>, c: Id, why: CancelReason, now: Time)
    requires Linked(l) && c in l.commands && c !in ids
    ensures var before := CancelAll(l, ids, why, now);
            && c in before.commands
            && Cancel(before, c, why, now).events == CancelAll(l, ids + {c}, why, now).events
  {
    forall q
      ensures Hit(l, ids + {c}, q) <==> Hit(l, ids, q) || q == l.commands[c].request
    {
      HitOneMore(l, ids, c, q);
    }
    HitOneMore(l, ids, c, l.commands[c].request);
    var before := CancelAll(l, ids, why, now);
    assert before.commands[c] == l.commands[c];
    assert l.commands[c].request in l.events;
  }

  lemma CancelAllStep(l: Ledger, ids: set<Id>, c: Id, why: CancelReason, now: Time)
    requires Linked(l) && ids <= l.commands.Keys && c in l.commands && c !in ids
    ensures CancelAll(l, ids + {c}, why, now) == Cancel(CancelAll(l, ids, why, now), c, why, now)
  {
    var before, after := CancelAll(l, ids, why, now), CancelAll(l, ids + {c}, why, now);
    CancelAllEvents(l, ids, c, why, now);
    assert before.commands[c] == l.commands[c];
    assert Cancel(before, c, why, now).commands == after.commands;
  }

  lemma CancelNone(l: Ledger, why: CancelReason, now: Time)
    ensures CancelAll(l, {}, why, now) == l
  {
    assert CancelAll(l, {}, why, now).commands == l.commands;
    assert CancelAll(l, {}, why, now).events == l.events;
  }

  /** What an agent's result makes of a command. */
  function ResultStatus(o: Observation): LifecycleState {
    if o.Refusal? then RejectedByAgent
    else if o.code == CommandAccepted then OutcomeUnknown
    else Failed
  }

  function ResultEvents(o: Observation, now: Time): seq<LifecycleEvent> {
    [Note(Delivered, now)] +
    (if o.Refusal? then [LifecycleEvent(RejectedByAgent, Some(Refused(o.refusal)), now)]
     else [Note(Attempted, now),
           LifecycleEvent(ResultStatus(o),
                          Some(if o.code == CommandAccepted then PhysicalOutcomeUnverified else NotAccepted(o.code)),
                          now)])
  }

  function StoreResult(l: Ledger, o: Observation, device: Id, now: Time): Ledger
    requires o.command in l.commands
  {
    Append(l.(results := l.results[(device, o.command) := AgentResult(o, now)],
              commands := l.commands[o.command := l.commands[o.command].(status := ResultStatus(o))]),
           l.commands[o.command].request, ResultEvents(o, now))
  }
}
