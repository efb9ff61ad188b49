/** Every step of the control plane moves the ledger in one of six ways.

    The theorems about requests, commands, events and results are proved for
    these moves and carry over to all thirteen steps. */
module LedgerMoves {
  import opened Schema
  import opened Wrappers
  import opened LedgerOps
  import opened Protocol
  import Issuance
  import Transport
  import Consent
  import Relationships
  import Devices
  import Domain

  datatype Move =
    | Stay
    | Refuse(r: Id, request: Request, now: Time)
    | Admit(r: Id, request: Request, c: Id, command: Command, now: Time)
    | Change(c: Id, status: LifecycleState, cancellation: Option<CancelReason>, reason: Option<EventReason>, now: Time)
    | CancelMany(ids: set<Id>, why: CancelReason, now: Time)
    | Settle(o: Observation, device: Id, now: Time)

  ghost predicate NewRequest(l: Ledger, r: Id, request: Request) {
    && r !in l.requests
    && (forall q :: !Issuance.IsRequestOf(l, q, request.actor, request.key))
    && request.fingerprint == Fingerprint(request.actor, request.recipient, request.action, request.replyTo)
    && (request.action == Eject <==> request.replyTo.None?)
  }

  /** A reply answers a command that went the other way and that nobody has answered. */
  ghost predicate AnswersOpen(l: Ledger, command: Command) {
    command.replyTo.Some? ==>
      && command.replyTo.value in l.commands
      && l.commands[command.replyTo.value].actor == command.recipient
      && l.commands[command.replyTo.value].recipient == command.actor
      && !Issuance.Replied(l, command.replyTo.value)
  }

  ghost predicate Legal(l: Ledger, m: Move) {
    match m
    case Stay => true
    case Refuse(r, request, now) => NewRequest(l, r, request) && request.outcome.WasRejected?
    case Admit(r, request, c, command, now) =>
      && NewRequest(l, r, request) && c !in l.commands && request.outcome == WasQueued(c)
      && command == Command(r, request.actor, request.recipient, command.device, Queued,
                            request.replyTo, now, now + COMMAND_LIFETIME, None)
      && AnswersOpen(l, command)
    case Change(c, status, cancellation, reason, now) =>
      && c in l.commands && Outstanding(l.commands[c])
      && ( || (status == Dispatched && l.commands[c].status == Queued && cancellation == l.commands[c].cancellation)
           || (status == Expired && cancellation == l.commands[c].cancellation)
           || (status == Cancelled && cancellation.Some?))
    case CancelMany(ids, why, now) => forall c :: c in ids ==> c in l.commands && Outstanding(l.commands[c])
    case Settle(o, device, now) =>
      && o.command in l.commands && l.commands[o.command].device == device
      && l.commands[o.command].status == Dispatched && (device, o.command) !in l.results
  }

  ghost function Moved(l: Ledger, m: Move): Ledger
    requires Legal(l, m)
  {
    match m
    case Stay => l
    case Refuse(r, request, now) => RecordRejection(l, r, request, now)
    case Admit(r, request, c, command, now) => RecordQueued(l, r, request, c, command, now)
    case Change(c, status, cancellation, reason, now) => Advance(l, c, status, cancellation, reason, now)
    case CancelMany(ids, why, now) => CancelAll(l, ids, why, now)
    case Settle(o, device, now) => StoreResult(l, o, device, now)
  }

  ghost predicate MovesTo(l: Ledger, m: Move, next: Ledger) {
    Legal(l, m) && next == Moved(l, m)
  }

  ghost function IssueMove(db: Db, input: Issuance.Input, r: Id, c: Id, clock: Time): Move {
    var tx := Issuance.Issue(db, input, r, c, clock);
    if tx.Aborted? || Issuance.FindRequest(db.ledger, input.actor, input.key).Some? then Stay
    else match tx.answer
      case QueuedAs(_, _) =>
        var device := tx.db.ledger.commands[c].device;
        Admit(r, Issuance.RequestRow(input, WasQueued(c)), c, Issuance.CommandRow(input, r, device), input.now)
      case RejectedAs(_, reason) => Refuse(r, Issuance.RequestRow(input, WasRejected(reason)), input.now)
      case IdempotencyConflict => Stay
  }

  ghost function PollMove(db: Db, ctx: Transport.Context, now: Time): Move {
    var head := Transport.Head(db.ledger.commands, ctx.device);
    if Transport.NonceGate(db, ctx, now) != Transport.Fresh || head.None? then Stay
    else
      var c := db.ledger.commands[head.value];
      if c.expiresAt <= now then Change(head.value, Expired, c.cancellation, Some(LifetimeOver), now)
      else if !db.dir.system.deliveryEnabled then
        Change(head.value, Cancelled, Some(DeliveryDisabled), Some(CancelledBecause(DeliveryDisabled)), now)
      else if Transport.CanReceive(db, c.device) && c.status == Queued then
        Change(head.value, Dispatched, c.cancellation, None, now)
      else Stay
  }

  ghost function MoveOf(db: Db, step: Step): Move {
    match step
    case Issue(input, r, c, clock) => IssueMove(db, input, r, c, clock)
    case Poll(ctx, now) => PollMove(db, ctx, now)
    case Report(ctx, o, now) =>
      if Transport.IngestAgentResult(db, ctx, o, now).answer == Transport.Stored then Settle(o, ctx.device, now)
      else Stay
    case SetPaused(r, paused, now, clock) =>
      if Consent.SetPaused(db, r, paused, now, clock).Committed? && paused
      then CancelMany(Consent.OutstandingTo(db.ledger, r, None), PermissionRevoked, now) else Stay
    case SetGrant(r, a, granted, now, clock) =>
      if Consent.SetGrant(db, r, a, granted, now, clock).Committed? && !granted
      then CancelMany(Consent.OutstandingTo(db.ledger, r, Some(a)), PermissionRevoked, now) else Stay
    case Disconnect(p, q, now) =>
      if Relationships.Disconnect(db, p, q, now).Committed?
         && Relationships.Disconnect(db, p, q, now).answer == Relationships.Disconnected
      then CancelMany(Relationships.OutstandingBetween(db.ledger, p, q), PermissionRevoked, now) else Stay
    case RevokeDevice(owner, d, now) =>
      if Devices.RevokeDevice(db, owner, d, now).Committed? && owner in db.dir.people
          && Issuance.IsLiveDevice(db.fleet.devices, d, owner)
      then CancelMany(Devices.OutstandingOn(db.ledger, d), DeviceRevoked, now) else Stay
    case _ => Stay
  }

  lemma IssueMoves(db: Db, input: Issuance.Input, r: Id, c: Id, clock: Time)
    ensures MovesTo(db.ledger, IssueMove(db, input, r, c, clock),
                    After(db, Issuance.Issue(db, input, r, c, clock)).ledger)
  {
    var prepared := Issuance.Prepared(db, input, clock);
    assert prepared.ledger == db.ledger;
    var tx := Issuance.Issue(db, input, r, c, clock);
    if tx.Committed? && Issuance.FindRequest(db.ledger, input.actor, input.key).None? {
      var loaded := Issuance.LoadFacts(prepared, input).value;
      match Domain.AuthorizeEject(loaded.facts, input.now)
      case Deny(reason) => assert tx == Issuance.Reject(prepared, input, r, reason);
      case Allow(_) => AdmitMoves(db, input, r, c, clock, loaded);
      case OutOfRange =>
    }
  }

  lemma AdmitMoves(db: Db, input: Issuance.Input, r: Id, c: Id, clock: Time, loaded: Issuance.Loaded)
    requires Issuance.FindRequest(db.ledger, input.actor, input.key).None?
    requires Issuance.LoadFacts(Issuance.Prepared(db, input, clock), input) == Some(loaded)
    requires Domain.AuthorizeEject(loaded.facts, input.now).Allow?
    ensures MovesTo(db.ledger, IssueMove(db, input, r, c, clock),
                    After(db, Issuance.Issue(db, input, r, c, clock)).ledger)
  {
    var prepared := Issuance.Prepared(db, input, clock);
    var tx := Issuance.Queue(prepared, input, r, c, loaded.device, loaded.cooldownSeconds);
    assert Issuance.Issue(db, input, r, c, clock) == tx;
  }

  lemma PollMoves(db: Db, ctx: Transport.Context, now: Time)
    ensures MovesTo(db.ledger, PollMove(db, ctx, now), After(db, Transport.Poll(db, ctx, now)).ledger)
  {}

  lemma ReportMoves(db: Db, ctx: Transport.Context, o: Observation, now: Time)
    ensures MovesTo(db.ledger, MoveOf(db, Report(ctx, o, now)), Next(db, Report(ctx, o, now)).ledger)
  {}

  lemma DisconnectMoves(db: Db, p: Id, q: Id, now: Time)
    ensures MovesTo(db.ledger, MoveOf(db, Disconnect(p, q, now)), Next(db, Disconnect(p, q, now)).ledger)
  {}

  lemma PausedMoves(db: Db, r: Id, paused: bool, now: Time, clock: Time)
    ensures MovesTo(db.ledger, MoveOf(db, SetPaused(r, paused, now, clock)),
                    Next(db, SetPaused(r, paused, now, clock)).ledger)
  {}

  lemma GrantMoves(db: Db, r: Id, a: Id, granted: bool, now: Time, clock: Time)
    ensures MovesTo(db.ledger, MoveOf(db, SetGrant(r, a, granted, now, clock)),
                    Next(db, SetGrant(r, a, granted, now, clock)).ledger)
  {}

  lemma RevokeMoves(db: Db, owner: Id, d: Id, now: Time)
    ensures MovesTo(db.ledger, MoveOf(db, RevokeDevice(owner, d, now)), Next(db, RevokeDevice(owner, d, now)).ledger)
  {}

  /** The ledger changes only by legal moves. */
  lemma StepMoves(db: Db, step: Step)
    ensures MovesTo(db.ledger, MoveOf(db, step), Next(db, step).ledger)
  {
    match step
    case Issue(input, r, c, clock) => IssueMoves(db, input, r, c, clock);
    case Poll(ctx, now) => PollMoves(db, ctx, now);
    case Report(ctx, o, now) => ReportMoves(db, ctx, o, now);
    case SetPaused(r, paused, now, clock) => PausedMoves(db, r, paused, now, clock);
    case SetGrant(r, a, granted, now, clock) => GrantMoves(db, r, a, granted, now, clock);
    case Disconnect(p, q, now) => DisconnectMoves(db, p, q, now);
    case RevokeDevice(owner, d, now) => RevokeMoves(db, owner, d, now);
    case _ =>
  }
}
