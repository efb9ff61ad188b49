/** What an eject request is answered and what is recorded for it, in terms of nothing but the stored columns. */
module Verdicts {
  import opened Schema
  import opened Wrappers
  import opened Protocol
  import opened Admission
  import Domain
  import FleetInvariants
  import Issuance
  import LedgerOps

  // The columns.

  /** Otherwise a row that the decision joins is missing, and the request is not answered at all. */
  predicate Decidable(db: Db, input: Issuance.Input) {
    && input.actor in db.dir.people && input.recipient in db.perms.policies
    && (input.recipient in db.dir.people || input.recipient in db.counters.recipients)
  }

  predicate RelatedRow(perms: Permissions, p: Id, q: Id) {
    Pair(p, q) in perms.relationships && perms.relationships[Pair(p, q)].active
  }

  /** The recipient's audience, for a plain eject. */
  predicate AudienceAdmits(perms: Permissions, recipient: Id, actor: Id)
    requires recipient in perms.policies
  {
    match perms.policies[recipient].scope
    case AllAuthenticated => true
    case Connected => RelatedRow(perms, recipient, actor)
    case Named => RelatedRow(perms, recipient, actor) && (recipient, actor) in perms.grants
  }

  /** The answered command went the other way, was neither called off nor too late, and is still unanswered. */
  ghost predicate MayAnswer(commands: map<Id, Command>, source: Option<Id>, recipient: Id, actor: Id) {
    && source.Some? && source.value in commands
    && commands[source.value].actor == recipient && commands[source.value].recipient == actor
    && commands[source.value].status !in {Cancelled, Expired}
    && forall c :: c in commands ==> commands[c].replyTo != source
  }

  predicate SenderAdmitted(eligibility: Eligibility, participation: Participation, availability: Availability) {
    eligibility == AuthenticatedAccounts || (participation == ParticipationReady && availability == Available)
  }

  ghost predicate Permitted(db: Db, input: Issuance.Input)
    requires Decidable(db, input)
  {
    var actor := db.dir.people[input.actor];
    && (input.recipient, input.actor) !in db.perms.blocks
    && (if input.action == Eject then AudienceAdmits(db.perms, input.recipient, input.actor)
        else MayAnswer(db.ledger.commands, input.replyTo, input.recipient, input.actor))
    && SenderAdmitted(db.perms.policies[input.recipient].eligibility, actor.participation, actor.availability)
  }

  predicate Cooling(db: Db, recipient: Id, now: Time) {
    && recipient in db.counters.recipients && db.counters.recipients[recipient].cooldownUntil.Some?
    && now < db.counters.recipients[recipient].cooldownUntil.value
  }

  /** What a counter counts: nothing from a window that is an hour old. */
  function Recent(start: Time, accepted: nat, now: Time): nat {
    if now < start + HOUR then accepted else 0
  }

  function RecentTo(db: Db, recipient: Id, now: Time): nat {
    if recipient !in db.counters.recipients then 0
    else Recent(db.counters.recipients[recipient].windowStart, db.counters.recipients[recipient].accepted, now)
  }

  function SenderRow(db: Db, actor: Id, now: Time): SenderState {
    if actor in db.counters.senders then db.counters.senders[actor] else SenderState(now, 0, SENDER_LIMIT)
  }

  function RecipientRow(db: Db, recipient: Id, clock: Time): RecipientState {
    if recipient in db.counters.recipients then db.counters.recipients[recipient]
    else RecipientState(clock, 0, None, 0)
  }

  /** Below the recipient's own limit, a plan that has not run out, the physical ceiling and the sender's limit. */
  predicate WithinLimits(db: Db, input: Issuance.Input)
    requires Decidable(db, input)
  {
    var accepted, sender := RecentTo(db, input.recipient, input.now), SenderRow(db, input.actor, input.now);
    && accepted < db.perms.policies[input.recipient].selectedLimit
    && input.recipient in db.dir.entitlements
    && accepted < db.dir.entitlements[input.recipient].ceiling
    && (db.dir.entitlements[input.recipient].validUntil.Some? ==>
          input.now < db.dir.entitlements[input.recipient].validUntil.value)
    && db.dir.system.physicalCeiling.Some? && accepted < db.dir.system.physicalCeiling.value
    && Recent(sender.windowStart, sender.accepted, input.now) < sender.limit
  }

  predicate TargetOf(db: Db, recipient: Id, d: Id) {
    d in db.fleet.devices && db.fleet.devices[d] == Device(recipient, Ready, Available, true)
  }

  ghost predicate Deliverable(db: Db, recipient: Id) {
    db.dir.system.deliveryEnabled && exists d :: TargetOf(db, recipient, d)
  }

  /** What stands in the way of the request, each reason on its own. */
  ghost predicate Obstacle(db: Db, input: Issuance.Input, reason: RejectionReason)
    requires Decidable(db, input)
  {
    match reason
    case ActorRestricted => !db.dir.people[input.actor].active
    case PermissionRequired => !Permitted(db, input)
    case RecipientPaused => db.perms.policies[input.recipient].paused
    case QuietHoursActive => false
    case CooldownActive => Cooling(db, input.recipient, input.now)
    case RateLimited => !WithinLimits(db, input)
    case DeviceUnavailable => !Deliverable(db, input.recipient)
  }

  /** The reason that comes first in the documented order among those that hold. */
  ghost predicate FirstObstacle(db: Db, input: Issuance.Input, reason: RejectionReason)
    requires Decidable(db, input)
  {
    Obstacle(db, input, reason)
    && forall other :: Obstacle(db, input, other) ==> Domain.Rank(reason) <= Domain.Rank(other)
  }

  ghost predicate Unobstructed(db: Db, input: Issuance.Input)
    requires Decidable(db, input)
  {
    forall reason :: !Obstacle(db, input, reason)
  }

  // The decision.

  lemma LoadedExactly(db: Db, input: Issuance.Input, clock: Time)
    ensures LoadedFor(db, input, clock).Some? <==> Decidable(db, input)
  {}

  lemma RowsPrepared(db: Db, input: Issuance.Input, clock: Time)
    requires Decidable(db, input)
    ensures var prepared := Issuance.Prepared(db, input, clock);
            && prepared.dir == db.dir && prepared.perms == db.perms && prepared.fleet == db.fleet
            && prepared.ledger == db.ledger
            && prepared.counters ==
               Counters(db.counters.recipients[input.recipient := RecipientRow(db, input.recipient, clock)],
                        db.counters.senders[input.actor := SenderRow(db, input.actor, input.now)])
  {}

  lemma AnswerValid(db: Db, input: Issuance.Input)
    ensures Issuance.EjectBackValid(db.ledger, input) <==>
            MayAnswer(db.ledger.commands, input.replyTo, input.recipient, input.actor)
  {}

  lemma TargetExactly(db: Db, recipient: Id)
    requires FleetInvariants.OneLiveDevice(db.fleet.devices)
    ensures var device := Issuance.LiveDevice(db.fleet.devices, recipient);
            && ((device.Some? && Issuance.DeviceEligible(db.fleet.devices[device.value]))
                <==> exists d :: TargetOf(db, recipient, d))
            && (forall d: Id :: TargetOf(db, recipient, d) ==> device == Some(d))
  {
    var device := Issuance.LiveDevice(db.fleet.devices, recipient);
    forall d: Id | TargetOf(db, recipient, d)
      ensures device == Some(d)
    {
      assert Issuance.IsLiveDevice(db.fleet.devices, d, recipient);
    }
    if device.Some? && Issuance.DeviceEligible(db.fleet.devices[device.value]) {
      assert TargetOf(db, recipient, device.value);
    }
  }

  lemma FactsExactly(db: Db, input: Issuance.Input, clock: Time, reason: RejectionReason)
    requires Decidable(db, input) && FleetInvariants.OneLiveDevice(db.fleet.devices)
    ensures var facts := LoadedFor(db, input, clock).value.facts;
            && Domain.EffectiveExposureLimit(facts.ceilings).Some?
            && (Domain.Blocks(facts, input.now, reason) <==> Obstacle(db, input, reason))
  {
    RowsPrepared(db, input, clock);
    AnswerValid(db, input);
    TargetExactly(db, input.recipient);
  }

  /** The decision goes through the obstacles in their order. */
  lemma DecisionExactly(db: Db, input: Issuance.Input, clock: Time)
    requires Decidable(db, input) && FleetInvariants.OneLiveDevice(db.fleet.devices)
    ensures var d := Domain.AuthorizeEject(LoadedFor(db, input, clock).value.facts, input.now);
            && (d.Allow? <==> Unobstructed(db, input)) && !d.OutOfRange?
            && (forall reason :: d == Domain.Deny(reason) <==> FirstObstacle(db, input, reason))
  {
    var facts := LoadedFor(db, input, clock).value.facts;
    forall reason
      ensures Domain.EffectiveExposureLimit(facts.ceilings).Some?
      ensures Domain.Blocks(facts, input.now, reason) <==> Obstacle(db, input, reason)
    {
      FactsExactly(db, input, clock, reason);
    }
    Domain.DeniedForFirstReason(facts, input.now);
    forall reason
      ensures Domain.AuthorizeEject(facts, input.now) == Domain.Deny(reason) <==> FirstObstacle(db, input, reason)
    {
      assert Domain.AuthorizeEject(facts, input.now).Deny? ==>
          FirstObstacle(db, input, Domain.AuthorizeEject(facts, input.now).reason);
    }
  }

  /** Nobody has used the key before. */
  predicate NewKey(l: Ledger, input: Issuance.Input) {
    forall q :: q in l.requests ==> l.requests[q].actor != input.actor || l.requests[q].key != input.key
  }

  lemma NewKeyDecides(db: Db, input: Issuance.Input, r: Id, c: Id, clock: Time)
    requires NewKey(db.ledger, input)
    ensures Issuance.Issue(db, input, r, c, clock) ==
            Issuance.Decided(Issuance.Prepared(db, input, clock), input, r, c)
  {
    assert forall q :: !Issuance.IsRequestOf(db.ledger, q, input.actor, input.key);
  }

  /** The request breaks a constraint of the request table. */
  predicate Malformed(db: Db, input: Issuance.Input, r: Id) {
    r in db.ledger.requests || (input.action == Eject && input.replyTo.Some?)
    || (input.action == EjectBack && input.replyTo.None?)
  }

  /** A request under a new key is answered for the first obstacle in its way and queued exactly when there is none;
      it is not answered at all exactly when a row is missing or a constraint is broken. */
  lemma VerdictExactly(db: Db, input: Issuance.Input, r: Id, c: Id, clock: Time)
    requires FleetInvariants.OneLiveDevice(db.fleet.devices) && NewKey(db.ledger, input)
    ensures var tx := Issuance.Issue(db, input, r, c, clock);
            && (tx.Aborted? <==> || !Decidable(db, input) || Malformed(db, input, r)
                                 || (c in db.ledger.commands && Unobstructed(db, input)))
            && (tx.Committed? ==>
                  && (tx.answer == Issuance.QueuedAs(r, c) <==> Unobstructed(db, input))
                  && (forall reason :: tx.answer == Issuance.RejectedAs(r, reason) <==>
                                         FirstObstacle(db, input, reason)))
  {
    NewKeyDecides(db, input, r, c, clock);
    LoadedExactly(db, input, clock);
    if Decidable(db, input) {
      RowsPrepared(db, input, clock);
      TargetExactly(db, input.recipient);
      DecisionExactly(db, input, clock);
    }
  }

  /** So these columns decide which requests put a command in the queue. */
  lemma AdmittedExactly(db: Db, input: Issuance.Input, r: Id, c: Id, clock: Time)
    requires FleetInvariants.OneLiveDevice(db.fleet.devices)
    ensures StepAdmits(db, Issue(input, r, c, clock)) <==>
            && NewKey(db.ledger, input) && Decidable(db, input) && !Malformed(db, input, r)
            && c !in db.ledger.commands && Unobstructed(db, input)
  {
    if NewKey(db.ledger, input) {
      assert forall q :: !Issuance.IsRequestOf(db.ledger, q, input.actor, input.key);
      VerdictExactly(db, input, r, c, clock);
    } else {
      var q :| q in db.ledger.requests && Issuance.IsRequestOf(db.ledger, q, input.actor, input.key);
    }
  }

  // What is recorded.

  function RequestOf(input: Issuance.Input, outcome: RequestOutcome): Request {
    Request(input.actor, input.recipient, input.key,
            Fingerprint(input.actor, input.recipient, input.action, input.replyTo),
            input.action, input.replyTo, outcome, input.now)
  }

  function CommandOf(input: Issuance.Input, r: Id, d: Id): Command {
    Command(r, input.actor, input.recipient, d, Queued, input.replyTo, input.now, input.now + 30 * SECOND, None)
  }

  /** The request is stored as rejected for that reason, with two events. */
  ghost predicate RejectionRecorded(l: Ledger, next: Ledger, input: Issuance.Input, r: Id, reason: RejectionReason) {
    next == Ledger(
              l.requests[r := RequestOf(input, WasRejected(reason))], l.commands,
              l.events[r := [LifecycleEvent(Requested, None, input.now),
                             LifecycleEvent(Rejected, Some(RejectedBecause(reason)), input.now)]],
              l.results)
  }

  /** The request is stored as queued, with three events and a command for the recipient's device. */
  ghost predicate QueueingRecorded(l: Ledger, next: Ledger, input: Issuance.Input, r: Id, c: Id, d: Id) {
    next == Ledger(
              l.requests[r := RequestOf(input, WasQueued(c))], l.commands[c := CommandOf(input, r, d)],
              l.events[r := [LifecycleEvent(Requested, None, input.now), LifecycleEvent(Authorized, None, input.now),
                             LifecycleEvent(Queued, None, input.now)]],
              l.results)
  }

  lemma RejectionWritten(l: Ledger, input: Issuance.Input, r: Id, reason: RejectionReason)
    requires r !in l.events
    ensures RejectionRecorded(
              l, LedgerOps.RecordRejection(l, r, Issuance.RequestRow(input, WasRejected(reason)), input.now),
              input, r, reason)
  {
    var added := [LifecycleEvent(Requested, None, input.now),
                  LifecycleEvent(Rejected, Some(RejectedBecause(reason)), input.now)];
    assert [] + added == added;
  }

  lemma QueueingWritten(l: Ledger, input: Issuance.Input, r: Id, c: Id, d: Id)
    requires r !in l.events
    ensures QueueingRecorded(
              l, LedgerOps.RecordQueued(l, r, Issuance.RequestRow(input, WasQueued(c)), c,
                                        Issuance.CommandRow(input, r, d), input.now),
              input, r, c, d)
  {
    var added := [LifecycleEvent(Requested, None, input.now), LifecycleEvent(Authorized, None, input.now),
                  LifecycleEvent(Queued, None, input.now)];
    assert [] + added == added;
  }

  lemma RejectionIsRecorded(db: Db, input: Issuance.Input, r: Id, c: Id, clock: Time, reason: RejectionReason)
    requires FleetInvariants.OneLiveDevice(db.fleet.devices) && NewKey(db.ledger, input)
    requires LedgerOps.Linked(db.ledger)
    requires Issuance.Issue(db, input, r, c, clock).Committed? && Decidable(db, input)
    requires FirstObstacle(db, input, reason)
    ensures var next := Next(db, Issue(input, r, c, clock));
            && RejectionRecorded(db.ledger, next.ledger, input, r, reason)
            && next == Db(db.dir, db.perms, db.fleet, Issuance.Prepared(db, input, clock).counters, next.ledger)
  {
    NewKeyDecides(db, input, r, c, clock);
    RowsPrepared(db, input, clock);
    LoadedExactly(db, input, clock);
    DecisionExactly(db, input, clock);
    RejectionWritten(db.ledger, input, r, reason);
  }

  lemma QueueingIsRecorded(db: Db, input: Issuance.Input, r: Id, c: Id, clock: Time)
    requires FleetInvariants.OneLiveDevice(db.fleet.devices) && LedgerOps.Linked(db.ledger)
    requires StepAdmits(db, Issue(input, r, c, clock))
    ensures exists d :: TargetOf(db, input.recipient, d)
                        && QueueingRecorded(db.ledger, Next(db, Issue(input, r, c, clock)).ledger, input, r, c, d)
  {
    AdmittedExactly(db, input, r, c, clock);
    TargetExactly(db, input.recipient);
    var d: Id :| TargetOf(db, input.recipient, d);
    AdmitEffect(db, input, r, c, clock);
    QueueingWritten(db.ledger, input, r, c, d);
    assert QueueingRecorded(db.ledger, Next(db, Issue(input, r, c, clock)).ledger, input, r, c, d);
  }

  /** A counter after one more command: a window an hour old starts again at the command. */
  predicate Counts(start: Time, accepted: nat, now: Time, nextStart: Time, nextAccepted: nat) {
    && nextStart == (if now < start + HOUR then start else now)
    && nextAccepted == Recent(start, accepted, now) + 1
  }

  /** Any answer to a new key opens both counter rows, and a queued command counts in both. */
  lemma CountersExactly(db: Db, input: Issuance.Input, r: Id, c: Id, clock: Time)
    requires FleetInvariants.OneLiveDevice(db.fleet.devices) && NewKey(db.ledger, input)
    requires Issuance.Issue(db, input, r, c, clock).Committed?
    ensures Decidable(db, input)
    ensures var next, recipient, sender := Next(db, Issue(input, r, c, clock)).counters,
            RecipientRow(db, input.recipient, clock), SenderRow(db, input.actor, input.now);
            && input.recipient in next.recipients && input.actor in next.senders
            && next == Counters(db.counters.recipients[input.recipient := next.recipients[input.recipient]],
                                db.counters.senders[input.actor := next.senders[input.actor]])
            && var counted, sent := next.recipients[input.recipient], next.senders[input.actor];
            if Unobstructed(db, input) then
              && Counts(recipient.windowStart, recipient.accepted, input.now, counted.windowStart, counted.accepted)
              && counted.cooldownUntil ==
                 Some(input.now + db.perms.policies[input.recipient].cooldownSeconds * 1_000)
              && counted.revision == recipient.revision + 1
              && Counts(sender.windowStart, sender.accepted, input.now, sent.windowStart, sent.accepted)
              && sent.limit == sender.limit
            else counted == recipient && sent == sender
  {
    NewKeyDecides(db, input, r, c, clock);
    LoadedExactly(db, input, clock);
    RowsPrepared(db, input, clock);
    DecisionExactly(db, input, clock);
  }

  /** What a new key is answered in any run, and what is stored for it: the first obstacle as the rejection of the
      request, or the command. */
  lemma VerdictIsRecorded(db: Db, input: Issuance.Input, r: Id, c: Id, clock: Time)
    requires FleetInvariants.OneLiveDevice(db.fleet.devices) && NewKey(db.ledger, input)
    requires LedgerOps.Linked(db.ledger) && Issuance.Issue(db, input, r, c, clock).Committed?
    ensures var answer, next := Issuance.Issue(db, input, r, c, clock).answer, Next(db, Issue(input, r, c, clock));
            && next == Db(db.dir, db.perms, db.fleet, next.counters, next.ledger) && Decidable(db, input)
            && match answer
               case RejectedAs(q, reason) =>
                 && q == r && FirstObstacle(db, input, reason)
                 && RejectionRecorded(db.ledger, next.ledger, input, r, reason)
               case QueuedAs(q, e) =>
                 && q == r && e == c && Unobstructed(db, input)
                 && exists d :: TargetOf(db, input.recipient, d)
                                && QueueingRecorded(db.ledger, next.ledger, input, r, c, d)
               case IdempotencyConflict => false
  {
    var answer := Issuance.Issue(db, input, r, c, clock).answer;
    NewKeyDecides(db, input, r, c, clock);
    VerdictExactly(db, input, r, c, clock);
    RowsPrepared(db, input, clock);
    if Unobstructed(db, input) {
      AdmittedExactly(db, input, r, c, clock);
      QueueingIsRecorded(db, input, r, c, clock);
    } else {
      SomeFirstObstacle(db, input, clock);
      var reason :| FirstObstacle(db, input, reason);
      RejectionIsRecorded(db, input, r, c, clock, reason);
    }
  }

  lemma SomeFirstObstacle(db: Db, input: Issuance.Input, clock: Time)
    requires FleetInvariants.OneLiveDevice(db.fleet.devices) && Decidable(db, input) && !Unobstructed(db, input)
    ensures exists reason :: FirstObstacle(db, input, reason)
  {
    DecisionExactly(db, input, clock);
    assert Domain.AuthorizeEject(LoadedFor(db, input, clock).value.facts, input.now).Deny?;
  }
}
