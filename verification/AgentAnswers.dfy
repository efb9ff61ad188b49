/** What an agent's polls and reports are answered, and what they write, in terms of nothing but the stored columns. */
module AgentAnswers {
  import opened Schema
  import opened Wrappers
  import opened Protocol
  import opened Transport
  import opened Reachability
  import LedgerMoves
  import LedgerOps
  import LedgerTheorems

  // The gate.

  predicate MaySign(db: Db, device: Id, key: Id) {
    && device in db.fleet.devices && key in db.fleet.keys
    && db.fleet.devices[device].state == Ready
    && db.fleet.keys[key].device == device && db.fleet.keys[key].revokedAt == None
    && db.fleet.devices[device].owner in db.dir.people
    && db.dir.people[db.fleet.devices[device].owner].active
    && db.dir.people[db.fleet.devices[device].owner].participation != ParticipationRevoked
  }

  predicate NonceUsed(db: Db, ctx: Context, now: Time) {
    (ctx.device, ctx.nonce) in db.fleet.nonces && now < db.fleet.nonces[(ctx.device, ctx.nonce)].expiresAt
  }

  /** A used nonce is a replay, whatever the key; an unused one passes exactly with a live key of a ready device whose
      owner may take part. */
  lemma GateExactly(db: Db, ctx: Context, now: Time)
    ensures NonceGate(db, ctx, now) == Replayed <==> NonceUsed(db, ctx, now)
    ensures NonceGate(db, ctx, now) == Fresh <==> !NonceUsed(db, ctx, now) && MaySign(db, ctx.device, ctx.key)
    ensures LoadActivePublicKey(db, ctx.device, ctx.key) ==
            if MaySign(db, ctx.device, ctx.key) then Some(db.fleet.keys[ctx.key].publicKey) else None
  {}

  /** Another ten minutes of memory for an accepted nonce; for the device's other nonces only what is left. */
  ghost predicate NoncesAfter(db: Db, next: Db, ctx: Context, now: Time) {
    var nonces, mine := db.fleet.nonces, (ctx.device, ctx.nonce);
    && (forall n :: n in next.fleet.nonces <==>
                      || (n in nonces && (n.0 == ctx.device ==> now < nonces[n].expiresAt))
                      || (n == mine && !NonceUsed(db, ctx, now) && MaySign(db, ctx.device, ctx.key)))
    && (forall n :: n in next.fleet.nonces ==>
                      next.fleet.nonces[n] == if n in nonces && (n.0 == ctx.device ==> now < nonces[n].expiresAt)
                                              then nonces[n] else Nonce(now, now + 600 * SECOND))
    && next == db.(ledger := next.ledger, fleet := db.fleet.(nonces := next.fleet.nonces))
  }

  // Polls.

  predicate Waits(commands: map<Id, Command>, c: Id, device: Id) {
    c in commands && commands[c].device == device && commands[c].status in {Queued, Dispatched}
  }

  /** The first of the device's waiting commands, by issue time and then by identifier. */
  ghost predicate Earliest(commands: map<Id, Command>, h: Id, device: Id) {
    && Waits(commands, h, device)
    && forall c :: Waits(commands, c, device) && c != h ==>
                     commands[h].issuedAt < commands[c].issuedAt
                     || (commands[h].issuedAt == commands[c].issuedAt && h < c)
  }

  lemma HeadExactly(commands: map<Id, Command>, h: Id, device: Id)
    ensures Head(commands, device) == Some(h) <==> Earliest(commands, h, device)
  {
    assert forall c :: Waits(commands, c, device) <==> OnDevice(commands, c, device);
    assert IsHead(commands, h, device) <==> Earliest(commands, h, device);
  }

  /** The device is available and its owner has approved a drive. */
  predicate CanHand(db: Db, device: Id) {
    && device in db.fleet.devices && db.fleet.devices[device].approvedDrive
    && db.fleet.devices[device].availability == Available
  }

  ghost predicate Handed(db: Db, ctx: Context, now: Time, h: Id) {
    && !NonceUsed(db, ctx, now) && MaySign(db, ctx.device, ctx.key)
    && Earliest(db.ledger.commands, h, ctx.device) && now < db.ledger.commands[h].expiresAt
    && db.dir.system.deliveryEnabled && CanHand(db, ctx.device)
  }

  /** A poll hands out a command exactly when it passes the gate and the device's earliest waiting command is in time,
      delivery is on, and the device is available with an approved drive; and it describes that command. */
  lemma HandedExactly(db: Db, ctx: Context, now: Time)
    ensures var answer := Transport.Poll(db, ctx, now).answer;
            && (answer == PollRejected(Replayed) <==> NonceUsed(db, ctx, now))
            && (answer == PollRejected(Unauthenticated) <==>
                !NonceUsed(db, ctx, now) && !MaySign(db, ctx.device, ctx.key))
            && (answer.Deliver? <==> exists h :: Handed(db, ctx, now, h))
            && (forall h: Id :: Handed(db, ctx, now, h) ==>
                                  var command := db.ledger.commands[h];
                                  answer == Deliver(h, ctx.device, command.actor, command.issuedAt, command.expiresAt))
            && answer != PollRejected(Fresh)
  {
    GateExactly(db, ctx, now);
    forall h: Id
      ensures Head(db.ledger.commands, ctx.device) == Some(h) <==> Earliest(db.ledger.commands, h, ctx.device)
    {
      HeadExactly(db.ledger.commands, h, ctx.device);
    }
    if Transport.Poll(db, ctx, now).answer.Deliver? {
      assert Handed(db, ctx, now, Head(db.ledger.commands, ctx.device).value);
    }
  }

  /** One command takes on a status, and its request's log grows by one event. */
  ghost predicate Moves(l: Ledger, next: Ledger, c: Id, status: LifecycleState, cancellation: Option<CancelReason>,
                        reason: Option<EventReason>, now: Time)
    requires LedgerOps.Linked(l) && c in l.commands
  {
    var r := l.commands[c].request;
    next == Ledger(
              l.requests, l.commands[c := l.commands[c].(status := status, cancellation := cancellation)],
              l.events[r := l.events[r] + [LifecycleEvent(status, reason, now)]], l.results)
  }

  /** What an accepted poll does to the earliest waiting command: it expires if it is out of date, else it is
      cancelled if delivery is off, else it is dispatched if the device can have it and has not had it before. */
  ghost predicate Polled(db: Db, next: Ledger, h: Id, device: Id, now: Time)
    requires LedgerOps.Linked(db.ledger) && h in db.ledger.commands
  {
    var l, command := db.ledger, db.ledger.commands[h];
    && (command.expiresAt <= now ==> Moves(l, next, h, Expired, command.cancellation, Some(LifetimeOver), now))
    && (now < command.expiresAt && !db.dir.system.deliveryEnabled ==>
          Moves(l, next, h, Cancelled, Some(DeliveryDisabled), Some(CancelledBecause(DeliveryDisabled)), now))
    && (now < command.expiresAt && db.dir.system.deliveryEnabled ==>
          if command.status == Queued && CanHand(db, device)
          then Moves(l, next, h, Dispatched, command.cancellation, None, now) else next == l)
  }

  /** What a poll writes. */
  lemma PollWritesExactly(db: Db, ctx: Context, now: Time)
    requires LedgerOps.Linked(db.ledger)
    ensures var next := Next(db, Poll(ctx, now));
            && NoncesAfter(db, next, ctx, now)
            && (if NonceUsed(db, ctx, now) || !MaySign(db, ctx.device, ctx.key) then next.ledger == db.ledger
                else
                  && (forall h: Id :: Earliest(db.ledger.commands, h, ctx.device) ==>
                                        Polled(db, next.ledger, h, ctx.device, now))
                  && ((forall h: Id :: !Earliest(db.ledger.commands, h, ctx.device)) ==> next.ledger == db.ledger))
  {
    GateExactly(db, ctx, now);
    forall h: Id
      ensures Head(db.ledger.commands, ctx.device) == Some(h) <==> Earliest(db.ledger.commands, h, ctx.device)
    {
      HeadExactly(db.ledger.commands, h, ctx.device);
    }
    Consumed(db, ctx, now);
    PollKeeps(db, ctx, now);
  }

  lemma Consumed(db: Db, ctx: Context, now: Time)
    ensures NoncesAfter(db, ConsumeNonce(db, ctx, now), ctx, now)
  {}

  lemma PollKeeps(db: Db, ctx: Context, now: Time)
    ensures var next := Next(db, Poll(ctx, now));
            next == ConsumeNonce(db, ctx, now).(ledger := next.ledger)
  {}

  // Reports.

  /** The command is the device's own. */
  predicate Owns(db: Db, device: Id, c: Id) {
    c in db.ledger.commands && db.ledger.commands[c].device == device
  }

  predicate Reported(db: Db, device: Id, c: Id) {
    (device, c) in db.ledger.results
  }

  /** The report is the device's, is dated at most thirty seconds ahead, and passes the gate. */
  predicate Heard(db: Db, ctx: Context, o: Observation, now: Time) {
    o.device == ctx.device && o.recordedAt <= now + 30 * SECOND
    && !NonceUsed(db, ctx, now) && MaySign(db, ctx.device, ctx.key)
  }

  /** The first report on a dispatched command of the device. */
  predicate Settles(db: Db, ctx: Context, o: Observation, now: Time) {
    && Heard(db, ctx, o, now) && Owns(db, ctx.device, o.command) && !Reported(db, ctx.device, o.command)
    && db.ledger.commands[o.command].status == Dispatched
  }

  /** A report is stored exactly when it is heard and is the first on a dispatched command of the device; every other
      answer has its own condition. */
  lemma ReportAnsweredExactly(db: Db, ctx: Context, o: Observation, now: Time)
    ensures var answer, heard, owns, reported :=
              IngestAgentResult(db, ctx, o, now).answer, Heard(db, ctx, o, now),
              Owns(db, ctx.device, o.command), Reported(db, ctx.device, o.command);
            && (answer == Stored <==> Settles(db, ctx, o, now))
            && (answer == AlreadyStored <==>
                heard && owns && reported && db.ledger.results[(ctx.device, o.command)].observation == o)
            && (answer == ResultConflict <==>
                heard && owns && reported && db.ledger.results[(ctx.device, o.command)].observation != o)
            && (answer == RecordedInFuture <==> o.device == ctx.device && o.recordedAt > now + 30 * SECOND)
            && (answer == IngestRejected(Replayed) <==>
                o.device == ctx.device && o.recordedAt <= now + 30 * SECOND && NonceUsed(db, ctx, now))
            && (answer == IngestRejected(Unauthenticated) <==>
                && o.device == ctx.device && o.recordedAt <= now + 30 * SECOND
                && !NonceUsed(db, ctx, now) && !MaySign(db, ctx.device, ctx.key))
            && (answer == CommandMismatch <==>
                || o.device != ctx.device
                || (heard && !owns)
                || (heard && owns && !reported && db.ledger.commands[o.command].status != Dispatched))
  {
    GateExactly(db, ctx, now);
  }

  /** The command's status and what its log gains, for each disposition and code. */
  predicate SettledAs(o: Observation, now: Time, status: LifecycleState, added: seq<LifecycleEvent>) {
    var delivered, attempted := LifecycleEvent(Delivered, None, now), LifecycleEvent(Attempted, None, now);
    match o
    case Refusal(_, _, _, code) =>
      && status == RejectedByAgent
      && added == [delivered, LifecycleEvent(RejectedByAgent, Some(Refused(code)), now)]
    case Attempt(_, _, _, CommandAccepted) =>
      && status == OutcomeUnknown
      && added == [delivered, attempted, LifecycleEvent(OutcomeUnknown, Some(PhysicalOutcomeUnverified), now)]
    case Attempt(_, _, _, code) =>
      && status == Failed
      && added == [delivered, attempted, LifecycleEvent(Failed, Some(NotAccepted(code)), now)]
  }

  ghost predicate StoredIn(l: Ledger, next: Ledger, o: Observation, device: Id, now: Time)
    requires LedgerOps.Linked(l) && o.command in l.commands
  {
    var r := l.commands[o.command].request;
    exists status, added {:trigger SettledAs(o, now, status, added)} ::
      && SettledAs(o, now, status, added)
      && next == Ledger(
                   l.requests, l.commands[o.command := l.commands[o.command].(status := status)],
                   l.events[r := l.events[r] + added], l.results[(device, o.command) := AgentResult(o, now)])
  }

  lemma ReportWritesExactly(db: Db, ctx: Context, o: Observation, now: Time)
    requires LedgerOps.Linked(db.ledger)
    ensures var next := Next(db, Report(ctx, o, now));
            && (if o.device == ctx.device && o.recordedAt <= now + 30 * SECOND then NoncesAfter(db, next, ctx, now)
                else next == db)
            && (if Settles(db, ctx, o, now) then StoredIn(db.ledger, next.ledger, o, ctx.device, now)
                else next.ledger == db.ledger)
  {
    GateExactly(db, ctx, now);
    Consumed(db, ctx, now);
    ReportKeeps(db, ctx, o, now);
    if Settles(db, ctx, o, now) {
      ResultWritten(db.ledger, o, ctx.device, now);
    }
  }

  lemma ReportKeeps(db: Db, ctx: Context, o: Observation, now: Time)
    ensures var next := Next(db, Report(ctx, o, now));
            if o.device == ctx.device && o.recordedAt <= now + CLOCK_SKEW
            then next == ConsumeNonce(db, ctx, now).(ledger := next.ledger) else next == db
  {}

  lemma ResultWritten(l: Ledger, o: Observation, device: Id, now: Time)
    requires LedgerOps.Linked(l) && o.command in l.commands
    ensures StoredIn(l, LedgerOps.StoreResult(l, o, device, now), o, device, now)
  {
    var status, added := LedgerOps.ResultStatus(o), LedgerOps.ResultEvents(o, now);
    assert SettledAs(o, now, status, added);
  }

  // Over runs.

  /** The step stores that observation at that time. */
  predicate StoredAt(states: seq<Db>, steps: seq<Step>, k: nat, device: Id, result: AgentResult) {
    && k < |steps| && k < |states| && steps[k].Report?
    && steps[k].ctx.device == device && steps[k].observation == result.observation && steps[k].now == result.receivedAt
    && Settles(states[k], steps[k].ctx, steps[k].observation, steps[k].now)
  }

  lemma StepAddsResult(db: Db, step: Step, next: Db, d: Id, c: Id)
    requires LedgerOps.Linked(db.ledger) && Transition(db, step, next) && (d, c) in next.ledger.results
    ensures || ((d, c) in db.ledger.results && next.ledger.results[(d, c)] == db.ledger.results[(d, c)])
            || (&& step.Report? && step.ctx.device == d && step.observation.command == c
                && Settles(db, step.ctx, step.observation, step.now)
                && next.ledger.results[(d, c)] == AgentResult(step.observation, step.now))
  {
    if step.Report? {
      ReportWritesExactly(db, step.ctx, step.observation, step.now);
    } else {
      LedgerMoves.StepMoves(db, step);
    }
  }

  lemma LinkedAlong(states: seq<Db>, steps: seq<Step>, i: nat)
    requires ValidRun(states, steps) && Genesis(states[0]) && i <= |steps|
    ensures LedgerOps.Linked(states[i].ledger)
  {
    GenesisInv(states[0]);
    RunInv(states, steps, i);
  }

  /** A stored result is the observation of a report of the run that was heard as the first on its command, at that
      report's clock. */
  lemma {:induction false} EveryResultWasReported(states: seq<Db>, steps: seq<Step>, i: nat, d: Id, c: Id)
    requires ValidRun(states, steps) && Genesis(states[0]) && i <= |steps| && (d, c) in states[i].ledger.results
    ensures var result := states[i].ledger.results[(d, c)];
            && result.observation.command == c
            && exists k: nat :: k < i && StoredAt(states, steps, k, d, result)
  {
    if i > 0 {
      LinkedAlong(states, steps, i - 1);
      StepAddsResult(states[i - 1], steps[i - 1], states[i], d, c);
      var before, after := states[i - 1].ledger.results, states[i].ledger.results;
      if (d, c) in before && after[(d, c)] == before[(d, c)] {
        EveryResultWasReported(states, steps, i - 1, d, c);
      } else {
        assert StoredAt(states, steps, i - 1, d, after[(d, c)]);
      }
    }
  }

  lemma SettlingStores(db: Db, step: Step, next: Db)
    requires Inv(db) && Transition(db, step, next) && step.Report?
    requires Settles(db, step.ctx, step.observation, step.now)
    ensures Reported(next, step.ctx.device, step.observation.command)
  {
    ReportWritesExactly(db, step.ctx, step.observation, step.now);
  }

  lemma StoredNow(states: seq<Db>, steps: seq<Step>, k: nat)
    requires ValidRun(states, steps) && Inv(states[0]) && k < |steps| && steps[k].Report?
    requires Settles(states[k], steps[k].ctx, steps[k].observation, steps[k].now)
    ensures Reported(states[k + 1], steps[k].ctx.device, steps[k].observation.command)
  {
    RunInv(states, steps, k);
    SettlingStores(states[k], steps[k], states[k + 1]);
  }

  lemma StoredStays(states: seq<Db>, steps: seq<Step>, k: nat, j: nat)
    requires ValidRun(states, steps) && Inv(states[0]) && k < j <= |steps| && steps[k].Report?
    requires Settles(states[k], steps[k].ctx, steps[k].observation, steps[k].now)
    ensures Reported(states[j], steps[k].ctx.device, steps[k].observation.command)
  {
    StoredNow(states, steps, k);
    LedgerTheorems.RunExtends(states, steps, k + 1, j);
  }

  /** And that report is the only one of the run that is stored for the command. */
  lemma StoredOnce(states: seq<Db>, steps: seq<Step>, j: nat, k: nat, d: Id, a: AgentResult, b: AgentResult)
    requires ValidRun(states, steps) && Genesis(states[0])
    requires StoredAt(states, steps, j, d, a) && StoredAt(states, steps, k, d, b)
    requires a.observation.command == b.observation.command
    ensures j == k && a == b
  {
    GenesisInv(states[0]);
    if j < k {
      StoredStays(states, steps, j, k);
    } else if k < j {
      StoredStays(states, steps, k, j);
    }
  }
}
