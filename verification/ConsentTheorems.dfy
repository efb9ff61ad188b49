/** What consent means for delivery: nothing reaches an agent that its recipient does not permit at that moment. */
module ConsentTheorems {
  import opened Schema
  import opened Wrappers
  import opened Protocol
  import opened ConsentSafety
  import opened Reachability
  import opened Transport
  import Consent
  import Domain
  import FleetInvariants
  import LedgerInvariants
  import LedgerOps
  import LedgerTheorems
  import Relationships

  /** In every reachable database an outstanding command has an unpaused recipient; and unless it is a reply, its
      actor is related to a recipient who admits connections, and also granted by one who admits named people only. */
  lemma OutstandingIsPermitted(states: seq<Db>, steps: seq<Step>, i: nat, c: Id)
    requires ValidRun(states, steps) && Genesis(states[0]) && i <= |steps|
    requires c in states[i].ledger.commands && Outstanding(states[i].ledger.commands[c])
    ensures var perms, command := states[i].perms, states[i].ledger.commands[c];
            && command.recipient in perms.policies
            && var policy := perms.policies[command.recipient];
            && !policy.paused
            && (command.replyTo.None? && policy.scope != AllAuthenticated ==>
                Related(perms, command.recipient, command.actor))
            && (command.replyTo.None? && policy.scope == Named ==> (command.recipient, command.actor) in perms.grants)
  {
    GenesisInv(states[0]);
    RunInv(states, steps, i);
    assert Consented(states[i].perms, states[i].ledger.commands[c]);
  }

  ghost predicate Delivers(db: Db, ctx: Context, now: Time, c: Id) {
    var tx := Transport.Poll(db, ctx, now);
    tx.Committed? && tx.answer.Deliver? && tx.answer.command == c
  }

  lemma DeliversHead(db: Db, ctx: Context, now: Time, c: Id)
    requires Delivers(db, ctx, now, c)
    ensures NonceGate(db, ctx, now) == Fresh && IsHead(db.ledger.commands, c, ctx.device)
    ensures var command := db.ledger.commands[c];
            && now < command.expiresAt && db.dir.system.deliveryEnabled && ctx.device in db.fleet.devices
            && db.fleet.devices[ctx.device] == Device(db.fleet.devices[ctx.device].owner, Ready, Available, true)
            && Transport.Poll(db, ctx, now).answer ==
               Deliver(c, ctx.device, command.actor, command.issuedAt, command.expiresAt)
  {}

  lemma DeliveredInSoundDb(db: Db, ctx: Context, now: Time, c: Id)
    requires Inv(db) && Delivers(db, ctx, now, c)
    ensures && c in db.ledger.commands && Outstanding(db.ledger.commands[c])
            && var command := db.ledger.commands[c];
            && command.device == ctx.device && ctx.device in db.fleet.devices
            && var device := db.fleet.devices[ctx.device];
            && device == Device(command.recipient, Ready, Available, true)
            && now < command.expiresAt == command.issuedAt + COMMAND_LIFETIME
            && db.dir.system.deliveryEnabled && Consented(db.perms, command)
            && Transport.Poll(db, ctx, now).answer ==
               Deliver(c, ctx.device, command.actor, command.issuedAt, command.expiresAt)
  {
    DeliversHead(db, ctx, now, c);
  }

  /** A delivered command is live, is for the polling device and its owner, is permitted at that very moment, and the
      device is then ready and available with an approved drive. */
  lemma DeliveredIsPermitted(states: seq<Db>, steps: seq<Step>, i: nat, ctx: Context, now: Time, c: Id)
    requires ValidRun(states, steps) && Genesis(states[0]) && i <= |steps| && Delivers(states[i], ctx, now, c)
    ensures var db := states[i];
            && c in db.ledger.commands && Outstanding(db.ledger.commands[c])
            && var command := db.ledger.commands[c];
            && command.device == ctx.device && ctx.device in db.fleet.devices
            && var device := db.fleet.devices[ctx.device];
            && device == Device(command.recipient, Ready, Available, true)
            && now < command.expiresAt == command.issuedAt + COMMAND_LIFETIME
            && db.dir.system.deliveryEnabled && Consented(db.perms, command)
            && Transport.Poll(db, ctx, now).answer ==
               Deliver(c, ctx.device, command.actor, command.issuedAt, command.expiresAt)
  {
    GenesisInv(states[0]);
    RunInv(states, steps, i);
    DeliveredInSoundDb(states[i], ctx, now, c);
  }

  // Withdrawing.

  /** The step withdraws something, and commits. */
  ghost predicate Withdraws(db: Db, step: Step) {
    match step
    case SetPaused(r, paused, now, clock) => paused && Consent.SetPaused(db, r, paused, now, clock).Committed?
    case SetGrant(r, a, granted, now, clock) => !granted && Consent.SetGrant(db, r, a, granted, now, clock).Committed?
    case Disconnect(p, q, now) =>
      var tx := Relationships.Disconnect(db, p, q, now);
      tx.Committed? && tx.answer == Relationships.Disconnected
    case RevokeDevice(_, _, _) => FleetInvariants.Revokes(db, step)
    case _ => false
  }

  /** What the withdrawal concerns. */
  predicate Concerns(step: Step, command: Command) {
    match step
    case SetPaused(r, _, _, _) => command.recipient == r
    case SetGrant(r, a, _, _, _) => command.recipient == r && command.actor == a
    case Disconnect(p, q, _) => {command.recipient, command.actor} == {p, q}
    case RevokeDevice(_, d, _) => command.device == d
    case _ => false
  }

  function ReasonOf(step: Step): CancelReason {
    if step.RevokeDevice? then DeviceRevoked else PermissionRevoked
  }

  /** A withdrawal cancels exactly the outstanding commands it concerns. */
  lemma WithdrawalIsExact(db: Db, step: Step, c: Id)
    requires Withdraws(db, step) && c in db.ledger.commands
    ensures var command, next := db.ledger.commands[c], Next(db, step).ledger.commands;
            c in next && next[c] == if Outstanding(command) && Concerns(step, command)
                                    then command.(status := Cancelled, cancellation := Some(ReasonOf(step)))
                                    else command
  {}

  lemma SettledIsTerminal(l: Ledger, c: Id)
    requires LedgerOps.Linked(l) && LedgerInvariants.Traced(l) && c in l.commands && !Outstanding(l.commands[c])
    ensures Domain.Terminal(l.commands[c].status)
  {
    LedgerTheorems.LogsFollowLifecycle(l, l.commands[c].request);
    assert LedgerInvariants.Logged(l, l.commands[c].request);
  }

  /** What is settled stays undelivered in every continuation of the run. */
  lemma SettledIsNeverDelivered(states: seq<Db>, steps: seq<Step>, i: nat, j: nat, c: Id, ctx: Context, now: Time)
    requires ValidRun(states, steps) && Inv(states[0]) && i <= j <= |steps|
    requires c in states[i].ledger.commands && !Outstanding(states[i].ledger.commands[c])
    ensures !Delivers(states[j], ctx, now, c)
  {
    RunInv(states, steps, i);
    SettledIsTerminal(states[i].ledger, c);
    LedgerTheorems.RunExtends(states, steps, i, j);
    assert LedgerTheorems.Frozen(states[i].ledger, states[j].ledger, c);
    if Delivers(states[j], ctx, now, c) {
      DeliversHead(states[j], ctx, now, c);
      assert false;
    }
  }

  /** No command issued before a pause, a revoked grant, a disconnection or a device's revocation that concerns it is
      ever delivered after it, whatever is permitted again later. */
  lemma WithdrawnIsNeverDelivered(states: seq<Db>, steps: seq<Step>, i: nat, j: nat, c: Id, ctx: Context, now: Time)
    requires ValidRun(states, steps) && Inv(states[0]) && i < j <= |steps| && Withdraws(states[i], steps[i])
    requires c in states[i].ledger.commands && Concerns(steps[i], states[i].ledger.commands[c])
    ensures !Delivers(states[j], ctx, now, c)
  {
    assert Transition(states[i], steps[i], states[i + 1]);
    WithdrawalIsExact(states[i], steps[i], c);
    SettledIsNeverDelivered(states, steps, i + 1, j, c, ctx, now);
  }
}
