/** The agent transport store's transactions, statement by statement. */
module TransportStore {
  import opened Schema
  import opened Wrappers
  import opened Database
  import opened Transport
  import LedgerOps
  import Stores

  class AgentTransportStore {
    const database: Database

    constructor (database: Database)
      ensures this.database == database
    {
      this.database := database;
    }

    method ConsumeNonce(ctx: Context, now: Time) returns (gate: Gate)
      modifies database`fleet
      ensures gate == NonceGate(old(database.Snapshot()), ctx, now)
      ensures database.Snapshot() == Transport.ConsumeNonce(old(database.Snapshot()), ctx, now)
    {
      var fleet := database.fleet;
      database.fleet := fleet.(nonces := Purged(fleet.nonces, ctx.device, now));
      var nonces := database.fleet.nonces;
      // INSERT ... SELECT ... ON CONFLICT DO NOTHING
      if LiveKey(database.Snapshot(), ctx.device, ctx.key) && (ctx.device, ctx.nonce) !in nonces {
        database.fleet := database.fleet.(
          nonces := nonces[(ctx.device, ctx.nonce) := Nonce(now, now + NONCE_LIFETIME)]);
        return Fresh;
      }
      return if (ctx.device, ctx.nonce) in nonces then Replayed else Unauthenticated;
    }

    /** SELECT ... ORDER BY issued_at, command_id LIMIT 1 */
    method SelectHead(device: Id) returns (head: Option<Id>)
      ensures head == Head(database.ledger.commands, device)
    {
      var commands := database.ledger.commands;
      var rest := set c | c in commands && OnDevice(commands, c, device);
      head := None;
      while rest != {}
        invariant forall c :: c in rest ==> OnDevice(commands, c, device)
        invariant head.Some? ==> OnDevice(commands, head.value, device)
        invariant forall c :: OnDevice(commands, c, device) ==>
                                c in rest || (head.Some? && (c == head.value || Precedes(commands, head.value, c)))
      {
        var c :| c in rest;
        if head.None? || Precedes(commands, c, head.value) {
          head := Some(c);
        }
        rest := rest - {c};
      }
      if head.Some? {
        assert IsHead(commands, head.value, device);
      }
    }

    method Mark(c: Id, status: LifecycleState, cancellation: Option<CancelReason>, reason: Option<EventReason>,
                now: Time)
      requires c in database.ledger.commands
      modifies database`ledger
      ensures database.ledger == LedgerOps.Advance(old(database.ledger), c, status, cancellation, reason, now)
    {
      var commands := database.ledger.commands;
      database.ledger := database.ledger.(
        commands := commands[c := commands[c].(status := status, cancellation := cancellation)]);
      Stores.InsertEvent(database, commands[c].request, LifecycleEvent(status, reason, now));
    }

    method ServeHead(h: Id, now: Time) returns (answer: PollAnswer)
      requires h in database.ledger.commands
      modifies database`ledger
      ensures (database.Snapshot(), answer) == Serve(old(database.Snapshot()), h, now)
    {
      var command := database.ledger.commands[h];
      if command.expiresAt <= now {
        Mark(h, Expired, command.cancellation, Some(LifetimeOver), now);
        return NoCommand;
      }
      if !database.dir.system.deliveryEnabled {
        Mark(h, Cancelled, Some(DeliveryDisabled), Some(CancelledBecause(DeliveryDisabled)), now);
        return NoCommand;
      }
      if !CanReceive(database.Snapshot(), command.device) {
        return NoCommand;
      }
      if command.status == Queued {
        Mark(h, Dispatched, command.cancellation, None, now);
      }
      return Deliver(h, command.device, command.actor, command.issuedAt, command.expiresAt);
    }

    method Poll(ctx: Context, now: Time) returns (answer: PollAnswer)
      modifies database
      ensures Committed(database.Snapshot(), answer) == Transport.Poll(old(database.Snapshot()), ctx, now)
    {
      var gate := ConsumeNonce(ctx, now);
      if gate != Fresh {
        return PollRejected(gate);
      }
      var head := SelectHead(ctx.device);
      if head.None? {
        return NoCommand;
      }
      answer := ServeHead(head.value, now);
    }

    method Ingest(ctx: Context, o: Observation, receivedAt: Time) returns (answer: IngestAnswer)
      modifies database
      ensures Committed(database.Snapshot(), answer) == Transport.Ingest(old(database.Snapshot()), ctx, o, receivedAt)
    {
      var gate := ConsumeNonce(ctx, receivedAt);
      if gate != Fresh {
        return IngestRejected(gate);
      }
      var l := database.ledger;
      if o.command !in l.commands || l.commands[o.command].device != ctx.device {
        return CommandMismatch;
      }
      if (ctx.device, o.command) in l.results {
        return if l.results[(ctx.device, o.command)].observation == o then AlreadyStored else ResultConflict;
      }
      if l.commands[o.command].status != Dispatched {
        return CommandMismatch;
      }
      Record(ctx, o, receivedAt);
      return Stored;
    }

    method Record(ctx: Context, o: Observation, receivedAt: Time)
      requires o.command in database.ledger.commands
      modifies database`ledger
      ensures database.ledger == LedgerOps.StoreResult(old(database.ledger), o, ctx.device, receivedAt)
    {
      var command := database.ledger.commands[o.command];
      ghost var start := database.ledger;
      database.ledger := database.ledger.(
        results := database.ledger.results[(ctx.device, o.command) := AgentResult(o, receivedAt)]);
      Stores.InsertEvent(database, command.request, LifecycleEvent(Delivered, None, receivedAt));
      if o.Refusal? {
        SetStatus(o.command, RejectedByAgent);
        Stores.InsertEvent(database, command.request,
                           LifecycleEvent(RejectedByAgent, Some(Refused(o.refusal)), receivedAt));
      } else {
        Stores.InsertEvent(database, command.request, LifecycleEvent(Attempted, None, receivedAt));
        var accepted := o.code == CommandAccepted;
        SetStatus(o.command, if accepted then OutcomeUnknown else Failed);
        Stores.InsertEvent(
          database, command.request,
          LifecycleEvent(if accepted then OutcomeUnknown else Failed,
                         Some(if accepted then PhysicalOutcomeUnverified else NotAccepted(o.code)), receivedAt));
      }
      assert database.ledger.events[command.request] ==
             LedgerOps.Trace(start, command.request) + LedgerOps.ResultEvents(o, receivedAt);
      assert database.ledger.events == start.events[command.request := database.ledger.events[command.request]];
    }

    method SetStatus(c: Id, status: LifecycleState)
      requires c in database.ledger.commands
      modifies database`ledger
      ensures database.ledger == old(database.ledger).(
              commands := old(database.ledger.commands)[c := old(database.ledger.commands[c]).(status := status)])
    {
      var commands := database.ledger.commands;
      database.ledger := database.ledger.(commands := commands[c := commands[c].(status := status)]);
    }

    /** The application's gate in front of the store. */
    method IngestAgentResult(ctx: Context, o: Observation, receivedAt: Time) returns (answer: IngestAnswer)
      modifies database
      ensures Committed(database.Snapshot(), answer) ==
              Transport.IngestAgentResult(old(database.Snapshot()), ctx, o, receivedAt)
    {
      if o.device != ctx.device || o.recordedAt > receivedAt + CLOCK_SKEW {
        return if o.device != ctx.device then CommandMismatch else RecordedInFuture;
      }
      answer := Ingest(ctx, o, receivedAt);
    }
  }
}
