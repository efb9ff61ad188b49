/** Device order is guaranteed exactly by a positive cooldown: the run that breaks it without one. */
module Overtaking {
  import opened Schema
  import opened Wrappers
  import opened Protocol
  import opened Admission
  import opened QueueDiscipline
  import opened Scenario
  import opened Transport
  import Issuance

  predicate OutOn(commands: map<Id, Command>, c: Id, device: Id) {
    OnDevice(commands, c, device) && commands[c].status == Dispatched
  }

  ghost predicate OneDispatched(commands: map<Id, Command>, device: Id) {
    forall c, d :: OutOn(commands, c, device) && OutOn(commands, d, device) ==> c == d
  }

  /** Whatever happens from `start`, no device ever has two dispatched commands. */
  ghost predicate AlwaysOneDispatched(start: Db) {
    forall states: seq<Db>, steps: seq<Step>, device ::
      ValidRun(states, steps) && states[0] == start ==> OneDispatched(states[|steps|].ledger.commands, device)
  }

  const FIRST_EJECT := Issuance.Input(2, 1, 9, Eject, None, 0)
  const SECOND_EJECT := Issuance.Input(2, 1, 8, Eject, None, 0)

  /** Two ejects at one instant, each followed by a poll; the second command has the smaller identifier. */
  const OVERTAKING := [
    Issue(FIRST_EJECT, 10, 12, 0), Poll(Context(7, 3, 1), 0),
    Issue(SECOND_EJECT, 13, 11, 0), Poll(Context(7, 3, 2), 0)]

  /** What the four steps rely on and do not change. */
  ghost predicate Setting(db: Db) {
    && db.dir == IdleDb(0).dir && db.perms == IdleDb(0).perms
    && db.fleet.devices == IdleDb(0).fleet.devices && db.fleet.keys == IdleDb(0).fleet.keys
  }

  lemma OnlyLiveDevice(db: Db)
    requires Setting(db)
    ensures Issuance.LiveDevice(db.fleet.devices, 1) == Some(7)
  {
    assert Issuance.IsLiveDevice(db.fleet.devices, 7, 1);
  }

  lemma AfterFirst(db: Db)
    requires db == IdleDb(0)
    ensures var next := Next(db, OVERTAKING[0]);
            && Setting(next) && next.fleet.nonces == map[]
            && next.counters == Counters(map[1 := RecipientState(0, 1, Some(0), 1)],
                                         map[2 := SenderState(0, 1, SENDER_LIMIT)])
            && next.ledger.requests == map[10 := Issuance.RequestRow(FIRST_EJECT, WasQueued(12))]
            && next.ledger.commands == map[12 := Issuance.CommandRow(FIRST_EJECT, 10, 7)]
  {
    assert Issuance.FindRequest(db.ledger, 2, 9).None?;
    OnlyLiveDevice(db);
    assert Issuance.Prepared(db, FIRST_EJECT, 0).counters ==
           Counters(map[1 := RecipientState(0, 0, None, 0)], map[2 := SenderState(0, 0, SENDER_LIMIT)]);
    assert LoadedFor(db, FIRST_EJECT, 0).Some?;
    AllowedAdmits(db, FIRST_EJECT, 10, 12, 0);
    AdmitEffect(db, FIRST_EJECT, 10, 12, 0);
  }

  lemma AfterFirstPoll(db: Db)
    requires Setting(db) && db.fleet.nonces == map[]
    requires db.ledger.commands == map[12 := Issuance.CommandRow(FIRST_EJECT, 10, 7)]
    ensures var next := Next(db, OVERTAKING[1]);
            && Setting(next) && next.counters == db.counters && next.ledger.requests == db.ledger.requests
            && next.ledger.commands == map[12 := Issuance.CommandRow(FIRST_EJECT, 10, 7).(status := Dispatched)]
            && next.fleet.nonces.Keys == {(7, 1)}
  {
    assert IsHead(db.ledger.commands, 12, 7);
    assert forall h :: IsHead(db.ledger.commands, h, 7) ==> h == 12;
    assert Head(db.ledger.commands, 7) == Some(12);
  }

  lemma AfterSecond(db: Db)
    requires Setting(db)
    requires db.counters == Counters(map[1 := RecipientState(0, 1, Some(0), 1)],
                                     map[2 := SenderState(0, 1, SENDER_LIMIT)])
    requires db.ledger.requests == map[10 := Issuance.RequestRow(FIRST_EJECT, WasQueued(12))]
    requires db.ledger.commands.Keys == {12}
    ensures var next := Next(db, OVERTAKING[2]);
            && Setting(next) && next.fleet == db.fleet
            && next.ledger.commands == db.ledger.commands[11 := Issuance.CommandRow(SECOND_EJECT, 13, 7)]
  {
    assert Issuance.FindRequest(db.ledger, 2, 8).None?;
    OnlyLiveDevice(db);
    assert Issuance.Prepared(db, SECOND_EJECT, 0) == db;
    assert LoadedFor(db, SECOND_EJECT, 0).Some?;
    AllowedAdmits(db, SECOND_EJECT, 13, 11, 0);
    AdmitEffect(db, SECOND_EJECT, 13, 11, 0);
  }

  /** The second command becomes the head and is dispatched past the first. */
  lemma SecondOvertakes(db: Db, ctx: Context, now: Time, first: Id, second: Id)
    requires NonceGate(db, ctx, now) == Fresh && CanReceive(db, ctx.device) && db.dir.system.deliveryEnabled
    requires first in db.ledger.commands && second in db.ledger.commands
    requires forall c :: OnDevice(db.ledger.commands, c, ctx.device) <==> c in {first, second}
    requires second < first && db.ledger.commands[first].issuedAt == db.ledger.commands[second].issuedAt
    requires db.ledger.commands[first].status == Dispatched && db.ledger.commands[second].status == Queued
    requires now < db.ledger.commands[second].expiresAt
    ensures !OneDispatched(Next(db, Poll(ctx, now)).ledger.commands, ctx.device)
  {
    assert OnDevice(db.ledger.commands, first, ctx.device) && OnDevice(db.ledger.commands, second, ctx.device);
    assert IsHead(db.ledger.commands, second, ctx.device);
    assert !IsHead(db.ledger.commands, first, ctx.device);
    assert Head(db.ledger.commands, ctx.device) == Some(second);
    var next := Next(db, Poll(ctx, now)).ledger.commands;
    assert OutOn(next, first, ctx.device) && OutOn(next, second, ctx.device);
  }

  lemma AfterSecondPoll(db: Db)
    requires Setting(db) && db.fleet.nonces.Keys == {(7, 1)}
    requires db.ledger.commands == map[12 := Issuance.CommandRow(FIRST_EJECT, 10, 7).(status := Dispatched),
                                       11 := Issuance.CommandRow(SECOND_EJECT, 13, 7)]
    ensures !OneDispatched(Next(db, OVERTAKING[3]).ledger.commands, 7)
  {
    assert NonceGate(db, Context(7, 3, 2), 0) == Fresh;
    assert forall c :: OnDevice(db.ledger.commands, c, 7) <==> c in {12, 11};
    SecondOvertakes(db, Context(7, 3, 2), 0, 12, 11);
  }

  lemma FourSteps(s0: Db, s1: Db, s2: Db, s3: Db, s4: Db, steps: seq<Step>)
    requires |steps| == 4
    requires Transition(s0, steps[0], s1) && Transition(s1, steps[1], s2)
    requires Transition(s2, steps[2], s3) && Transition(s3, steps[3], s4)
    ensures ValidRun([s0, s1, s2, s3, s4], steps)
  {}

  lemma OvertakingRun() returns (states: seq<Db>)
    ensures ValidRun(states, OVERTAKING) && states[0] == IdleDb(0)
    ensures !OneDispatched(states[4].ledger.commands, 7)
  {
    var s1 := Next(IdleDb(0), OVERTAKING[0]);
    var s2 := Next(s1, OVERTAKING[1]);
    var s3 := Next(s2, OVERTAKING[2]);
    Overtaken(s1, s2, s3);
    var s4 := Next(s3, OVERTAKING[3]);
    FourSteps(IdleDb(0), s1, s2, s3, s4, OVERTAKING);
    states := [IdleDb(0), s1, s2, s3, s4];
  }

  lemma Overtaken(s1: Db, s2: Db, s3: Db)
    requires s1 == Next(IdleDb(0), OVERTAKING[0]) && s2 == Next(s1, OVERTAKING[1]) && s3 == Next(s2, OVERTAKING[2])
    ensures !OneDispatched(Next(s3, OVERTAKING[3]).ledger.commands, 7)
  {
    AfterFirst(IdleDb(0));
    AfterFirstPoll(s1);
    AfterSecond(s2);
    AfterSecondPoll(s3);
  }

  lemma CooldownKeepsOne(states: seq<Db>, steps: seq<Step>, cooldownSeconds: nat, device: Id, c: Id, d: Id)
    requires ValidRun(states, steps) && states[0] == IdleDb(cooldownSeconds) && cooldownSeconds > 0
    requires OutOn(states[|steps|].ledger.commands, c, device) && OutOn(states[|steps|].ledger.commands, d, device)
    ensures c == d
  {
    IdleInv(cooldownSeconds);
    OneDispatchedPerDevice(states, steps, |steps|, c, device);
  }

  /** No order of events, clocks and identifiers ever has two commands dispatched to one device exactly when the
      recipient has a cooldown of at least a second. */
  lemma OrderedExactlyWithCooldown(cooldownSeconds: nat)
    ensures AlwaysOneDispatched(IdleDb(cooldownSeconds)) <==> cooldownSeconds > 0
  {
    if cooldownSeconds > 0 {
      forall states: seq<Db>, steps: seq<Step>, device | ValidRun(states, steps) && states[0] == IdleDb(cooldownSeconds)
        ensures OneDispatched(states[|steps|].ledger.commands, device)
      {
        forall c, d | OutOn(states[|steps|].ledger.commands, c, device)
            && OutOn(states[|steps|].ledger.commands, d, device)
          ensures c == d
        {
          CooldownKeepsOne(states, steps, cooldownSeconds, device, c, d);
        }
      }
    } else {
      var states := OvertakingRun();
      assert |OVERTAKING| == 4;
    }
  }
}
