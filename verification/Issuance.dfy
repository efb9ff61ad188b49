/** Issuing an eject: the transaction of `issueEject` over the issuance store, as a function of the database. */
module Issuance {
  import opened Schema
  import opened Wrappers
  import opened Domain
  import LedgerOps

  datatype Input = Input(actor: Id, recipient: Id, key: Id, action: Action, replyTo: Option<Id>, now: Time)
  datatype Answer = QueuedAs(request: Id, command: Id) | RejectedAs(request: Id,
                                                                    reason: RejectionReason) | IdempotencyConflict

  function SemanticFingerprint(input: Input): Fingerprint {
    Fingerprint(input.actor, input.recipient, input.action, input.replyTo)
  }

  /** A recipient's counter row is created on first use, at the database's own clock. */
  function WithRecipient(db: Db, recipient: Id, clock: Time): Db {
    if recipient in db.dir.people && recipient !in db.counters.recipients then
      SetRecipients(db, db.counters.recipients[recipient := RecipientState(clock, 0, None, 0)])
    else db
  }

  function WithSender(db: Db, actor: Id, now: Time): Db {
    if actor in db.dir.people && actor !in db.counters.senders then
      SetSenders(db, db.counters.senders[actor := SenderState(now, 0, SENDER_LIMIT)])
    else db
  }

  ghost predicate IsRequestOf(l: Ledger, r: Id, actor: Id, key: Id) {
    r in l.requests && l.requests[r].actor == actor && l.requests[r].key == key
  }

  ghost function FindRequest(l: Ledger, actor: Id, key: Id): (found: Option<Id>)
    ensures found.Some? ==> IsRequestOf(l, found.value, actor, key)
    ensures found.None? ==> forall r :: !IsRequestOf(l, r, actor, key)
  {
    if exists r :: IsRequestOf(l, r, actor, key) then
      var r :| IsRequestOf(l, r, actor, key); Some(r)
    else None
  }

  function StoredAnswer(r: Id, request: Request): Answer {
    match request.outcome
    case WasQueued(c) => QueuedAs(r, c)
    case WasRejected(reason) => RejectedAs(r, reason)
  }

  ghost predicate IsLiveDevice(devices: map<Id, Device>, d: Id, owner: Id) {
    d in devices && devices[d].owner == owner && devices[d].state != Revoked
  }

  ghost function LiveDevice(devices: map<Id, Device>, owner: Id): (found: Option<Id>)
    ensures found.Some? ==> IsLiveDevice(devices, found.value, owner)
    ensures found.None? ==> forall d :: !IsLiveDevice(devices, d, owner)
  {
    if exists d :: IsLiveDevice(devices, d, owner) then
      var d :| IsLiveDevice(devices, d, owner); Some(d)
    else None
  }

  predicate DeviceEligible(d: Device) {
    d.state == Ready && d.availability == Available && d.approvedDrive
  }

  ghost predicate Replied(l: Ledger, c: Id) {
    exists reply :: reply in l.commands && l.commands[reply].replyTo == Some(c)
  }

  ghost predicate EjectBackValid(l: Ledger, input: Input) {
    && input.replyTo.Some?
    && var source := input.replyTo.value;
    && source in l.commands
    && l.commands[source].actor == input.recipient
    && l.commands[source].recipient == input.actor
    && l.commands[source].status != Cancelled && l.commands[source].status != Expired
    && !Replied(l, source)
  }

  /** A window that began at least an hour ago counts nothing. */
  function InWindow(windowStart: Time, accepted: nat, now: Time): nat {
    if windowStart <= now - HOUR then 0 else accepted
  }

  function PlanLimit(db: Db, recipient: Id, now: Time): Ceiling {
    if recipient !in db.dir.entitlements then 0
    else
      var e := db.dir.entitlements[recipient];
      if e.validUntil.None? || e.validUntil.value > now then e.ceiling else 0
  }

  function PhysicalLimit(db: Db): Ceiling {
    if db.dir.system.physicalCeiling.Some? then db.dir.system.physicalCeiling.value else 0
  }

  datatype Loaded = Loaded(facts: Facts, device: Option<Id>, cooldownSeconds: nat)

  /** None when a joined row is missing. */
  ghost function LoadFacts(db: Db, input: Input): Option<Loaded> {
    if input.actor !in db.dir.people || input.recipient !in db.perms.policies
       || input.recipient !in db.counters.recipients || input.actor !in db.counters.senders then None
    else
      var actor := db.dir.people[input.actor];
      var policy := db.perms.policies[input.recipient];
      var recipient := db.counters.recipients[input.recipient];
      var sender := db.counters.senders[input.actor];
      var device := LiveDevice(db.fleet.devices, input.recipient);
      Some(Loaded(
             Facts(
               actorAuthenticated := true, actorRestricted := !actor.active,
               actorParticipation := actor.participation, actorAvailability := actor.availability,
               scope := policy.scope, eligibility := policy.eligibility,
               relationshipActive := Related(db.perms, input.actor, input.recipient),
               grantActive := (input.recipient, input.actor) in db.perms.grants,
               blocked := (input.recipient, input.actor) in db.perms.blocks,
               recipientPaused := policy.paused, quietHoursActive := false,
               cooldownUntil := recipient.cooldownUntil,
               recipientAccepted := InWindow(recipient.windowStart, recipient.accepted, input.now),
               senderAccepted := InWindow(sender.windowStart, sender.accepted, input.now),
               senderLimit := sender.limit,
               ceilings := Ceilings(policy.selectedLimit, PlanLimit(db, input.recipient, input.now), PhysicalLimit(db)),
               deviceEligible := device.Some? && DeviceEligible(db.fleet.devices[device.value]),
               deliveryEnabled := db.dir.system.deliveryEnabled,
               kind := if input.action == Eject then Standard else Reply,
               ejectBackValid := EjectBackValid(db.ledger, input)),
             device, policy.cooldownSeconds))
  }

  /** The check on `eject_requests`: a plain eject replies to nothing, an eject-back to something. */
  predicate ActionMatchesReply(input: Input) {
    input.action == Eject <==> input.replyTo.None?
  }

  function RequestRow(input: Input, outcome: RequestOutcome): Request {
    Request(input.actor, input.recipient, input.key, SemanticFingerprint(input), input.action,
            input.replyTo, outcome, input.now)
  }

  function CommandRow(input: Input, request: Id, device: Id): Command {
    Command(request, input.actor, input.recipient, device, Queued, input.replyTo,
            input.now, input.now + COMMAND_LIFETIME, None)
  }

  function CountRecipient(s: RecipientState, now: Time, cooldownSeconds: nat): RecipientState {
    RecipientState(
      if s.windowStart <= now - HOUR then now else s.windowStart,
      InWindow(s.windowStart, s.accepted, now) + 1,
      Some(now + cooldownSeconds * SECOND), s.revision + 1)
  }

  function CountSender(s: SenderState, now: Time): SenderState {
    s.(windowStart := if s.windowStart <= now - HOUR then now else s.windowStart,
       accepted := InWindow(s.windowStart, s.accepted, now) + 1)
  }

  function Counted(counters: Counters, input: Input, cooldownSeconds: nat): Counters
    requires input.recipient in counters.recipients && input.actor in counters.senders
  {
    Counters(
      counters.recipients[
        input.recipient := CountRecipient(counters.recipients[input.recipient], input.now, cooldownSeconds)],
      counters.senders[input.actor := CountSender(counters.senders[input.actor], input.now)])
  }

  function Reject(db: Db, input: Input, request: Id, reason: RejectionReason): Tx<Answer> {
    if request in db.ledger.requests || !ActionMatchesReply(input) then Aborted
    else Committed(
        db.(ledger := LedgerOps.RecordRejection(db.ledger, request, RequestRow(input, WasRejected(reason)), input.now)),
        RejectedAs(request, reason))
  }

  function Queue(db: Db, input: Input, request: Id, command: Id, device: Option<Id>, cooldownSeconds: nat): Tx<Answer>
    requires input.recipient in db.counters.recipients && input.actor in db.counters.senders
  {
    if device.None? || request in db.ledger.requests || command in db.ledger.commands || !ActionMatchesReply(input) then
      Aborted
    else Committed(
        db.(ledger := LedgerOps.RecordQueued(db.ledger, request, RequestRow(input, WasQueued(command)),
                                             command, CommandRow(input, request, device.value), input.now),
            counters := Counted(db.counters, input, cooldownSeconds)),
        QueuedAs(request, command))
  }

  /** The rows an issue locks before it reads: both counter rows, created if absent. */
  function Prepared(db: Db, input: Input, clock: Time): Db {
    WithSender(WithRecipient(db, input.recipient, clock), input.actor, input.now)
  }

  /** Load, decide and record, once both counter rows exist. */
  ghost function Decided(prepared: Db, input: Input, request: Id, command: Id): Tx<Answer> {
    match LoadFacts(prepared, input)
    case None => Aborted
    case Some(loaded) =>
      match AuthorizeEject(loaded.facts, input.now)
      case OutOfRange => Aborted
      case Deny(reason) => Reject(prepared, input, request, reason)
      case Allow(_) => Queue(prepared, input, request, command, loaded.device, loaded.cooldownSeconds)
  }

  /** `request` and `command` are the identifiers the generator hands out; a collision violates a primary key. */
  ghost function Issue(db: Db, input: Input, request: Id, command: Id, clock: Time): Tx<Answer> {
    match FindRequest(db.ledger, input.actor, input.key)
    case Some(r) =>
      Committed(WithRecipient(db, input.recipient, clock),
                if db.ledger.requests[r].fingerprint == SemanticFingerprint(input)
                then StoredAnswer(r, db.ledger.requests[r]) else IdempotencyConflict)
    case None => Decided(Prepared(db, input, clock), input, request, command)
  }
}
