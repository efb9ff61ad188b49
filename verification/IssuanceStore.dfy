/** The issuance transaction and the use case that drives it, statement by statement. */
module IssuanceStore {
  import opened Schema
  import opened Wrappers
  import opened Domain
  import opened Database
  import opened Issuance
  import FleetInvariants
  import LedgerInvariants
  import LedgerOps
  import Stores

  datatype StoredResult = StoredResult(fingerprint: Fingerprint, answer: Answer)

  /** What loading the facts leaves in the transaction for recording. */
  class IssuanceTransaction {
    const database: Database
    var device: Option<Id>
    var cooldownSeconds: nat

    constructor (database: Database)
      ensures this.database == database && device == None && cooldownSeconds == 0
    {
      this.database, device, cooldownSeconds := database, None, 0;
    }

    method FindIdempotentResult(actor: Id, key: Id) returns (found: Option<StoredResult>)
      requires LedgerInvariants.IssuedOnce(database.ledger)
      ensures var r := FindRequest(database.ledger, actor, key);
              found == if r.None? then None
                       else Some(StoredResult(database.ledger.requests[r.value].fingerprint,
                                              StoredAnswer(r.value, database.ledger.requests[r.value])))
    {
      var requests := database.ledger.requests;
      if r :| r in requests && requests[r].actor == actor && requests[r].key == key {
        assert IsRequestOf(database.ledger, r, actor, key);
        return Some(StoredResult(requests[r].fingerprint, StoredAnswer(r, requests[r])));
      }
      return None;
    }

    method EnsureSender(actor: Id, now: Time)
      modifies database`counters
      ensures database.Snapshot() == WithSender(old(database.Snapshot()), actor, now)
    {
      var senders := database.counters.senders;
      if actor in database.dir.people && actor !in senders {
        database.counters := database.counters.(senders := senders[actor := SenderState(now, 0, SENDER_LIMIT)]);
      }
    }

    method SelectDevice(owner: Id) returns (found: Option<Id>)
      requires FleetInvariants.OneLiveDevice(database.fleet.devices)
      ensures found == LiveDevice(database.fleet.devices, owner)
    {
      var devices := database.fleet.devices;
      if d :| d in devices && devices[d].owner == owner && devices[d].state != Revoked {
        assert IsLiveDevice(devices, d, owner);
        return Some(d);
      }
      return None;
    }

    method MayEjectBack(input: Input) returns (valid: bool)
      ensures valid == EjectBackValid(database.ledger, input)
    {
      var commands := database.ledger.commands;
      if input.replyTo.None? || input.replyTo.value !in commands {
        return false;
      }
      var source := commands[input.replyTo.value];
      if source.actor != input.recipient || source.recipient != input.actor
         || source.status == Cancelled || source.status == Expired {
        return false;
      }
      return !exists reply :: reply in commands && commands[reply].replyTo == input.replyTo;
    }

    /** None when a joined row is missing and the transaction throws. */
    method LoadAuthorizationFacts(input: Input) returns (facts: Option<Facts>)
      requires FleetInvariants.OneLiveDevice(database.fleet.devices)
      modifies this, database`counters
      ensures database.Snapshot() == WithSender(old(database.Snapshot()), input.actor, input.now)
      ensures LoadFacts(database.Snapshot(), input) ==
              if facts.None? then None else Some(Loaded(facts.value, device, cooldownSeconds))
    {
      EnsureSender(input.actor, input.now);
      var db := database.Snapshot();
      if input.actor !in db.dir.people || input.recipient !in db.perms.policies
         || input.recipient !in db.counters.recipients || input.actor !in db.counters.senders {
        return None;
      }
      var found := SelectDevice(input.recipient);
      var ejectBack := MayEjectBack(input);
      var actor, policy := db.dir.people[input.actor], db.perms.policies[input.recipient];
      var recipient, sender := db.counters.recipients[input.recipient], db.counters.senders[input.actor];
      device, cooldownSeconds := found, policy.cooldownSeconds;
      return Some(Facts(
                    actorAuthenticated := true, actorRestricted := !actor.active,
                    actorParticipation := actor.participation, actorAvailability := actor.availability,
                    scope := policy.scope, eligibility := policy.eligibility,
                    relationshipActive := Related(db.perms, input.actor, input.recipient),
                    grantActive := (input.recipient, input.actor) in db.perms.grants,
                    blocked := (input.recipient, input.actor) in db.perms.blocks,
                    recipientPaused := policy.paused, quietHoursActive := false,
                    cooldownUntil := recipient.cooldownUntil,
                    recipientAccepted := InWindow(recipient.windowStart, recipient.accepted, input.now),
                    senderAccepted := InWindow(sender.windowStart, sender.accepted, input.now),
                    senderLimit := sender.limit,
                    ceilings := Ceilings(policy.selectedLimit, PlanLimit(db, input.recipient, input.now),
                                         PhysicalLimit(db)),
                    deviceEligible := found.Some? && DeviceEligible(db.fleet.devices[found.value]),
                    deliveryEnabled := db.dir.system.deliveryEnabled,
                    kind := if input.action == Eject then Standard else Reply,
                    ejectBackValid := ejectBack));
    }

    /** None when a constraint on `eject_requests` is violated and the transaction throws. */
    method RecordRejection(input: Input, request: Id, reason: RejectionReason) returns (answer: Option<Answer>)
      modifies database`ledger
      ensures var tx := Reject(old(database.Snapshot()), input, request, reason);
              if answer.Some? then tx == Committed(database.Snapshot(), answer.value) else tx.Aborted?
    {
      var l := database.ledger;
      if request in l.requests || !ActionMatchesReply(input) {
        return None;
      }
      database.ledger := l.(requests := l.requests[request := RequestRow(input, WasRejected(reason))]);
      Stores.InsertEvent(database, request, LifecycleEvent(Requested, None, input.now));
      Stores.InsertEvent(database, request, LifecycleEvent(Rejected, Some(RejectedBecause(reason)), input.now));
      ghost var two := [LifecycleEvent(Requested, None, input.now),
                        LifecycleEvent(Rejected, Some(RejectedBecause(reason)), input.now)];
      assert database.ledger.events[request] == LedgerOps.Trace(l, request) + two;
      assert database.ledger.events == l.events[request := database.ledger.events[request]];
      return Some(RejectedAs(request, reason));
    }

    /** None when a constraint is violated and the transaction throws. */
    method RecordQueued(input: Input, request: Id, command: Id) returns (answer: Option<Answer>)
      requires input.recipient in database.counters.recipients && input.actor in database.counters.senders
      modifies database`ledger, database`counters
      ensures var tx := Queue(old(database.Snapshot()), input, request, command, device, cooldownSeconds);
              if answer.Some? then tx == Committed(database.Snapshot(), answer.value) else tx.Aborted?
    {
      var l := database.ledger;
      if device.None? || request in l.requests || command in l.commands || !ActionMatchesReply(input) {
        return None;
      }
      database.ledger := l.(requests := l.requests[request := RequestRow(input, WasQueued(command))],
                            commands := l.commands[command := CommandRow(input, request, device.value)]);
      LogQueued(request, input.now);
      var recipients, senders := database.counters.recipients, database.counters.senders;
      database.counters := database.counters.(
        recipients := recipients[input.recipient :=
                                 CountRecipient(recipients[input.recipient], input.now, cooldownSeconds)]);
      database.counters := database.counters.(senders :=
                                              senders[input.actor := CountSender(senders[input.actor], input.now)]);
      return Some(QueuedAs(request, command));
    }

    method LogQueued(request: Id, now: Time)
      modifies database`ledger
      ensures database.ledger == LedgerOps.Append(old(database.ledger), request,
                                                  [LedgerOps.Note(Requested, now), LedgerOps.Note(Authorized, now),
                                                   LedgerOps.Note(Queued, now)])
    {
      ghost var l := database.ledger;
      Stores.InsertEvent(database, request, LifecycleEvent(Requested, None, now));
      Stores.InsertEvent(database, request, LifecycleEvent(Authorized, None, now));
      Stores.InsertEvent(database, request, LifecycleEvent(Queued, None, now));
      ghost var three := [LedgerOps.Note(Requested, now), LedgerOps.Note(Authorized, now), LedgerOps.Note(Queued, now)];
      assert database.ledger.events[request] == LedgerOps.Trace(l, request) + three;
      assert database.ledger.events == l.events[request := database.ledger.events[request]];
    }
  }

  class IssueEject {
    const database: Database

    constructor (database: Database)
      ensures this.database == database
    {
      this.database := database;
    }

    /** One attempt of the whole use case; None when it throws, leaving the database as it was. */
    method Issue(input: Input, request: Id, command: Id, clock: Time) returns (answer: Option<Answer>)
      requires LedgerInvariants.IssuedOnce(database.ledger) && FleetInvariants.OneLiveDevice(database.fleet.devices)
      modifies database
      ensures var tx := Issuance.Issue(old(database.Snapshot()), input, request, command, clock);
              if answer.Some? then tx == Committed(database.Snapshot(), answer.value)
              else tx.Aborted? && database.Snapshot() == old(database.Snapshot())
    {
      var start := database.Snapshot();
      Stores.EnsureRecipient(database, input.recipient, clock);
      var transaction := new IssuanceTransaction(database);
      var existing := transaction.FindIdempotentResult(input.actor, input.key);
      if existing.Some? {
        return Some(if existing.value.fingerprint == SemanticFingerprint(input) then existing.value.answer
                    else IdempotencyConflict);
      }
      answer := DecideAndRecord(transaction, input, request, command);
      if answer.None? {
        database.Become(start);
      }
    }

    method DecideAndRecord(transaction: IssuanceTransaction, input: Input, request: Id, command: Id)
      returns (answer: Option<Answer>)
      requires transaction.database == database
      requires FleetInvariants.OneLiveDevice(database.fleet.devices)
      modifies transaction, database`ledger, database`counters
      ensures var tx := Decided(WithSender(old(database.Snapshot()), input.actor, input.now), input, request, command);
              if answer.Some? then tx == Committed(database.Snapshot(), answer.value) else tx.Aborted?
    {
      var facts := transaction.LoadAuthorizationFacts(input);
      if facts.None? {
        return None;
      }
      match AuthorizeEject(facts.value, input.now)
      case OutOfRange => return None;
      case Deny(reason) => answer := transaction.RecordRejection(input, request, reason);
      case Allow(_) => answer := transaction.RecordQueued(input, request, command);
    }
  }
}
