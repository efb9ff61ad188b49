/** Polling makes progress: a queue that cannot be delivered drains, one command per accepted poll. */
module PollProgress {
  import opened Schema
  import opened Wrappers
  import opened Protocol
  import opened Transport
  import Admission
  import Devices
  import Issuance
  import LedgerInvariants
  import Windows

  function Waiting(db: Db, device: Id): set<Id> {
    Devices.OutstandingOn(db.ledger, device)
  }

  /** A nonempty queue has a head. */
  lemma {:induction false} HeadOf(commands: map<Id, Command>, ids: set<Id>) returns (h: Id)
    requires ids != {} && ids <= commands.Keys
    ensures h in ids && forall c :: c in ids && c != h ==> Precedes(commands, h, c)
    decreases ids
  {
    var some :| some in ids;
    var rest := ids - {some};
    h := some;
    if rest != {} {
      var other := HeadOf(commands, rest);
      if Precedes(commands, other, some) {
        h := other;
      }
    }
    forall c | c in ids && c != h
      ensures Precedes(commands, h, c)
    {
      assert c == some || c in rest;
    }
  }

  lemma HeadExists(db: Db, device: Id)
    requires Waiting(db, device) != {}
    ensures Head(db.ledger.commands, device).Some?
  {
    var commands := db.ledger.commands;
    var h := HeadOf(commands, Waiting(db, device));
    assert OnDevice(commands, h, device);
    assert forall c :: OnDevice(commands, c, device) ==> c in Waiting(db, device);
    assert IsHead(commands, h, device);
  }

  /** Every command lives thirty seconds, so a live head means a live queue. */
  lemma LiveHeadLiveQueue(db: Db, device: Id, h: Id, now: Time)
    requires LedgerInvariants.WellFormed(db.ledger) && IsHead(db.ledger.commands, h, device)
    requires now < db.ledger.commands[h].expiresAt
    ensures forall c :: c in Waiting(db, device) ==> now < db.ledger.commands[c].expiresAt
  {
    forall c | c in Waiting(db, device)
      ensures now < db.ledger.commands[c].expiresAt
    {
      assert OnDevice(db.ledger.commands, c, device);
    }
  }

  predicate Undeliverable(db: Db, c: Id, now: Time)
    requires c in db.ledger.commands
  {
    db.ledger.commands[c].expiresAt <= now || !db.dir.system.deliveryEnabled
  }

  /** What becomes of a command that cannot be delivered: being out of date comes before delivery being off. */
  function Removed(command: Command, now: Time): Command {
    if command.expiresAt <= now then command.(status := Expired)
    else command.(status := Cancelled, cancellation := Some(DeliveryDisabled))
  }

  /** What an accepted poll of a device with a head answers and writes. */
  lemma PollSettles(db: Db, ctx: Context, now: Time, h: Id)
    requires NonceGate(db, ctx, now) == Fresh && Head(db.ledger.commands, ctx.device) == Some(h)
    ensures var commands, next := db.ledger.commands, Next(db, Poll(ctx, now)).ledger.commands;
            if Undeliverable(db, h, now) then
              && Transport.Poll(db, ctx, now).answer == NoCommand
              && next == commands[h := Removed(commands[h], now)]
            else next == commands || next == commands[h := commands[h].(status := Dispatched)]
  {}

  /** An accepted poll removes exactly the head, and only when it cannot be delivered. */
  lemma PollRemovesExactly(db: Db, ctx: Context, now: Time)
    requires NonceGate(db, ctx, now) == Fresh && Waiting(db, ctx.device) != {}
    ensures var h := Head(db.ledger.commands, ctx.device);
            && h.Some? && h.value in Waiting(db, ctx.device)
            && Waiting(Next(db, Poll(ctx, now)), ctx.device) ==
               (if Undeliverable(db, h.value, now) then Waiting(db, ctx.device) - {h.value}
                else Waiting(db, ctx.device))
            && (Undeliverable(db, h.value, now) ==>
                  && Transport.Poll(db, ctx, now).answer == NoCommand
                  && Next(db, Poll(ctx, now)).ledger.commands ==
                     db.ledger.commands[h.value := Removed(db.ledger.commands[h.value], now)])
  {
    HeadExists(db, ctx.device);
    PollSettles(db, ctx, now, Head(db.ledger.commands, ctx.device).value);
  }

  /** A deliverable head is handed out by every poll until something settles it: delivery is at least once. */
  lemma DeliverableHeadIsDelivered(db: Db, ctx: Context, now: Time, h: Id)
    requires NonceGate(db, ctx, now) == Fresh && Head(db.ledger.commands, ctx.device) == Some(h)
    requires !Undeliverable(db, h, now) && CanReceive(db, ctx.device)
    ensures var next := Next(db, Poll(ctx, now));
            && Transport.Poll(db, ctx, now).answer.Deliver? && Transport.Poll(db, ctx, now).answer.command == h
            && h in next.ledger.commands && next.ledger.commands[h].status == Dispatched
            && Head(next.ledger.commands, ctx.device) == Some(h)
  {
    var commands, next := db.ledger.commands, Next(db, Poll(ctx, now)).ledger.commands;
    assert forall c :: OnDevice(next, c, ctx.device) <==> OnDevice(commands, c, ctx.device);
    assert IsHead(next, h, ctx.device);
    assert forall g :: IsHead(next, g, ctx.device) ==> g == h;
  }

  // Draining.

  /** Polls of one live device with nonces nobody has used, at times when its queue cannot be delivered. */
  ghost predicate DrainingPolls(db: Db, steps: seq<Step>, device: Id) {
    && (forall i {:trigger steps[i]} :: 0 <= i < |steps| ==>
          && steps[i].Poll? && steps[i].ctx.device == device && LiveKey(db, device, steps[i].ctx.key)
          && (device, steps[i].ctx.nonce) !in db.fleet.nonces
          && forall c :: c in Waiting(db, device) ==> Undeliverable(db, c, steps[i].now))
    && (forall i, j {:trigger steps[i], steps[j]} :: 0 <= i < j < |steps| ==> steps[i].ctx.nonce != steps[j].ctx.nonce)
  }

  /** What draining leaves as it was. */
  ghost predicate Drained(db: Db, next: Db, steps: seq<Step>, device: Id, i: nat)
    requires i <= |steps|
  {
    && next.dir == db.dir && next.fleet.devices == db.fleet.devices && next.fleet.keys == db.fleet.keys
    && Waiting(next, device) <= Waiting(db, device)
    && (forall c :: c in Waiting(next, device) ==> next.ledger.commands[c].expiresAt == db.ledger.commands[c].expiresAt)
    && |Waiting(next, device)| == (if i <= |Waiting(db, device)| then |Waiting(db, device)| - i else 0)
    && (forall n :: (device, n) in next.fleet.nonces ==>
                      || (device, n) in db.fleet.nonces
                      || exists j :: 0 <= j < i && steps[j].Poll? && steps[j].ctx.nonce == n)
  }

  lemma PollKeepsTheRest(db: Db, ctx: Context, now: Time)
    ensures var next := Next(db, Poll(ctx, now));
            && next.dir == db.dir && next.fleet.devices == db.fleet.devices && next.fleet.keys == db.fleet.keys
            && (forall n :: n in next.fleet.nonces ==> n in db.fleet.nonces || n == (ctx.device, ctx.nonce))
  {}

  lemma PollKeepsExpiry(db: Db, ctx: Context, now: Time)
    ensures var next := Next(db, Poll(ctx, now));
            forall c :: c in Waiting(next, ctx.device) ==>
                          c in db.ledger.commands && next.ledger.commands[c].expiresAt
                              == db.ledger.commands[c].expiresAt
  {
    Admission.StepProgress(db, Poll(ctx, now));
  }

  /** In a draining run every poll passes the nonce gate. */
  lemma DrainingPollAccepted(db: Db, now: Db, steps: seq<Step>, device: Id, i: nat)
    requires DrainingPolls(db, steps, device) && i < |steps| && Drained(db, now, steps, device, i)
    ensures NonceGate(now, steps[i].ctx, steps[i].now) == Fresh
  {
    assert steps[i].Poll? && LiveKey(db, device, steps[i].ctx.key);
    assert (device, steps[i].ctx.nonce) !in now.fleet.nonces;
  }

  lemma DrainOne(db: Db, now: Db, steps: seq<Step>, device: Id, i: nat)
    requires DrainingPolls(db, steps, device) && i < |steps| && Drained(db, now, steps, device, i)
    ensures Drained(db, Next(now, steps[i]), steps, device, i + 1)
  {
    var ctx, at := steps[i].ctx, steps[i].now;
    assert steps[i] == Poll(ctx, at) && ctx.device == device;
    DrainingPollAccepted(db, now, steps, device, i);
    PollKeepsTheRest(now, ctx, at);
    PollKeepsExpiry(now, ctx, at);
    if Waiting(now, device) != {} {
      PollRemovesExactly(now, ctx, at);
    } else {
      EmptyStaysEmpty(now, ctx, at);
    }
  }

  lemma EmptyStaysEmpty(db: Db, ctx: Context, now: Time)
    requires Waiting(db, ctx.device) == {}
    ensures Waiting(Next(db, Poll(ctx, now)), ctx.device) == {}
  {
    Admission.StepProgress(db, Poll(ctx, now));
    var next := Next(db, Poll(ctx, now));
    assert forall c :: c in Waiting(next, ctx.device) ==> c in Waiting(db, ctx.device);
  }

  lemma DrainedAtFirst(db: Db, steps: seq<Step>, device: Id)
    ensures Drained(db, db, steps, device, 0)
  {}

  lemma DrainSteps(states: seq<Db>, steps: seq<Step>, device: Id, i: nat)
    requires ValidRun(states, steps) && DrainingPolls(states[0], steps, device) && i <= |steps|
    ensures Drained(states[0], states[i], steps, device, i)
  {
    DrainedAtFirst(states[0], steps, device);
    for k := 0 to i
      invariant Drained(states[0], states[k], steps, device, k)
    {
      assert Transition(states[k], steps[k], states[k + 1]);
      DrainOne(states[0], states[k], steps, device, k);
    }
  }

  /** As many such polls as there are outstanding commands leave none, and not one fewer. */
  lemma PollsDrain(states: seq<Db>, steps: seq<Step>, device: Id)
    requires ValidRun(states, steps) && DrainingPolls(states[0], steps, device)
    ensures Waiting(states[|steps|], device) == {} <==> |steps| >= |Waiting(states[0], device)|
  {
    DrainSteps(states, steps, device, |steps|);
  }

  // Draining with anything else going on.

  /** The step is an accepted poll of the device at a time when its whole queue cannot be delivered. */
  ghost predicate Drains(db: Db, step: Step, device: Id) {
    && step.Poll? && step.ctx.device == device && NonceGate(db, step.ctx, step.now) == Fresh
    && forall c :: c in Waiting(db, device) ==> Undeliverable(db, c, step.now)
  }

  ghost predicate AdmitsOn(db: Db, step: Step, device: Id) {
    Admission.StepAdmits(db, step) && Issuance.LiveDevice(db.fleet.devices, step.input.recipient) == Some(device)
  }

  /** How many of the first `i` steps drain. */
  ghost function DrainsBefore(states: seq<Db>, steps: seq<Step>, device: Id, i: nat): nat
    requires i <= |steps| < |states|
  {
    if i == 0 then 0
    else DrainsBefore(states, steps, device, i - 1) + if Drains(states[i - 1], steps[i - 1], device) then 1 else 0
  }

  /** Without an admission nothing joins a device's queue. */
  lemma QueueOnlyShrinks(db: Db, step: Step, device: Id)
    requires !AdmitsOn(db, step, device)
    ensures Waiting(Next(db, step), device) <= Waiting(db, device)
  {
    if Admission.StepAdmits(db, step) {
      Admission.AdmitEffect(db, step.input, step.request, step.command, step.clock);
    } else {
      Admission.StepProgress(db, step);
    }
  }

  lemma DrainsOne(db: Db, step: Step, next: Db, device: Id)
    requires Transition(db, step, next) && !AdmitsOn(db, step, device)
    ensures |Waiting(next, device)| <= |Waiting(db, device)|
    ensures Drains(db, step, device) && Waiting(db, device) != {} ==> |Waiting(next, device)| < |Waiting(db, device)|
  {
    QueueOnlyShrinks(db, step, device);
    Windows.SubsetSize(Waiting(next, device), Waiting(db, device));
    if Drains(db, step, device) && Waiting(db, device) != {} {
      PollRemovesExactly(db, step.ctx, step.now);
    }
  }

  /** Whatever else happens between them, as long as nothing new is admitted to the device, every such poll takes one
      command off its queue, and as many as there were commands leave none. */
  lemma InterleavedPollsDrain(states: seq<Db>, steps: seq<Step>, device: Id, i: nat)
    requires ValidRun(states, steps) && i <= |steps|
    requires forall k {:trigger steps[k]} :: 0 <= k < i ==> !AdmitsOn(states[k], steps[k], device)
    ensures var drained, waiting := DrainsBefore(states, steps, device, i), |Waiting(states[0], device)|;
            |Waiting(states[i], device)| <= if drained <= waiting then waiting - drained else 0
  {
    for k := 0 to i
      invariant var drained, waiting := DrainsBefore(states, steps, device, k), |Waiting(states[0], device)|;
                |Waiting(states[k], device)| <= if drained <= waiting then waiting - drained else 0
    {
      DrainsOne(states[k], steps[k], states[k + 1], device);
    }
  }
}
