/** Per-device delivery order: with a cooldown, a device has at most one dispatched command, its earliest. */
module QueueDiscipline {
  import opened Schema
  import opened Protocol
  import opened Admission
  import opened RateLimits
  import opened Reachability
  import opened Transport
  import FleetInvariants
  import LedgerMoves

  predicate SameQueue(commands: map<Id, Command>, c: Id, d: Id) {
    && c in commands && d in commands && c != d && commands[c].device == commands[d].device
    && Outstanding(commands[c]) && Outstanding(commands[d])
  }

  /** A dispatched command precedes every other outstanding command of its device. */
  ghost predicate InOrder(commands: map<Id, Command>, r: Id) {
    forall c, d :: SameQueue(commands, c, d) && commands[c].recipient == r && commands[c].status == Dispatched
                   ==> Precedes(commands, c, d)
  }

  ghost predicate CooldownFor(db: Db, r: Id) {
    r in db.perms.policies ==> db.perms.policies[r].cooldownSeconds > 0
  }

  ghost predicate QueueInv(db: Db, r: Id) {
    CooldownFor(db, r) && InOrder(db.ledger.commands, r)
  }

  lemma StepKeepsCooldown(db: Db, step: Step, r: Id)
    requires CooldownFor(db, r)
    ensures CooldownFor(Next(db, step), r)
  {
    match step
    case Issue(input, q, c, clock) =>
      if StepAdmits(db, step) { AdmitEffect(db, input, q, c, clock); } else { NoAdmitEffect(db, input, q, c, clock); }
    case Disconnect(_, _, _) => DisconnectKeepsRows(db, step);
    case Environment(_) =>
    case SetPaused(_, _, _, _) =>
    case SetGrant(_, _, _, _, _) =>
    case Poll(_, _) => OthersKeepRows(db, step);
    case Report(_, _, _) => OthersKeepRows(db, step);
    case OpenEnrollment(_, _, _, _) => OthersKeepRows(db, step);
    case Enroll(_, _, _, _, _) => OthersKeepRows(db, step);
    case RevokeDevice(_, _, _) => OthersKeepRows(db, step);
    case _ => InvitationsKeepRows(db, step);
  }

  /** What one move may do to the order: dispatch a head, or nothing that reorders. */
  lemma DispatchKeepsOrder(commands: map<Id, Command>, next: map<Id, Command>, h: Id, device: Id, r: Id)
    requires InOrder(commands, r) && IsHead(commands, h, device)
    requires next == commands[h := commands[h].(status := Dispatched)]
    ensures InOrder(next, r)
  {
    forall c, d | SameQueue(next, c, d) && next[c].recipient == r && next[c].status == Dispatched
      ensures Precedes(next, c, d)
    {
      assert SameQueue(commands, c, d);
      assert c == h ==> OnDevice(commands, d, device);
    }
  }

  lemma ProgressKeepsOrder(commands: map<Id, Command>, next: map<Id, Command>, r: Id)
    requires InOrder(commands, r) && OnlyProgress(commands, next)
    requires forall c :: c in next && next[c].status == Dispatched ==> c in commands && commands[c].status == Dispatched
    ensures InOrder(next, r)
  {
    forall c, d | SameQueue(next, c, d) && next[c].recipient == r && next[c].status == Dispatched
      ensures Precedes(next, c, d)
    {
      assert SameQueue(commands, c, d);
    }
  }

  /** Only a poll dispatches, and only the head of its device's queue. */
  lemma OnlyPollsDispatch(l: Ledger, m: LedgerMoves.Move)
    requires LedgerMoves.Legal(l, m) && !m.Admit? && !(m.Change? && m.status == Dispatched)
    ensures var next := LedgerMoves.Moved(l, m).commands;
            forall c :: c in next && next[c].status == Dispatched ==>
                c in l.commands && l.commands[c].status == Dispatched
  {}

  /** With a positive cooldown a new command is later than everything its recipient already has. */
  lemma AdmitIsLast(db: Db, step: Step)
    requires CountersInv(db) && StepAdmits(db, step) && CooldownFor(db, step.input.recipient)
    ensures forall c :: c in db.ledger.commands && db.ledger.commands[c].recipient == step.input.recipient ==>
                          db.ledger.commands[c].issuedAt < step.input.now
  {
    AdmitFacts(db, step);
    var times := TimesTo(db.ledger.commands, step.input.recipient);
    forall c | c in db.ledger.commands && db.ledger.commands[c].recipient == step.input.recipient
      ensures db.ledger.commands[c].issuedAt < step.input.now
    {
      assert c in times;
    }
  }

  lemma AdmitKeepsOrder(db: Db, step: Step, r: Id)
    requires Inv(db) && QueueInv(db, r) && StepAdmits(db, step)
    ensures InOrder(Next(db, step).ledger.commands, r)
  {
    var before, next := db.ledger.commands, Next(db, step).ledger.commands;
    AdmitEffect(db, step.input, step.request, step.command, step.clock);
    if step.input.recipient == r {
      AdmitIsLast(db, step);
    }
    AppendKeepsOrder(before, next, step.command, r);
  }

  lemma AppendKeepsOrder(before: map<Id, Command>, next: map<Id, Command>, x: Id, r: Id)
    requires InOrder(before, r) && x !in before && x in next && next == before[x := next[x]] && next[x].status == Queued
    requires forall c :: c in before && before[c].recipient == r && before[c].device == next[x].device ==>
                           before[c].issuedAt < next[x].issuedAt
    ensures InOrder(next, r)
  {
    forall c, d | SameQueue(next, c, d) && next[c].recipient == r && next[c].status == Dispatched
      ensures Precedes(next, c, d)
    {
      assert d != x ==> SameQueue(before, c, d);
    }
  }

  lemma PollDispatchesHead(db: Db, step: Step)
    requires var m := LedgerMoves.MoveOf(db, step); m.Change? && m.status == Dispatched
    ensures var m := LedgerMoves.MoveOf(db, step);
            && step.Poll? && IsHead(db.ledger.commands, m.c, step.ctx.device)
            && Next(db,
                    step).ledger.commands == db.ledger.commands[m.c := db.ledger.commands[m.c].(status := Dispatched)]
  {
    LedgerMoves.StepMoves(db, step);
  }

  lemma OthersKeepOrder(db: Db, step: Step, r: Id)
    requires InOrder(db.ledger.commands, r) && !StepAdmits(db, step)
    requires var m := LedgerMoves.MoveOf(db, step); !m.Admit? && !(m.Change? && m.status == Dispatched)
    ensures InOrder(Next(db, step).ledger.commands, r)
  {
    LedgerMoves.StepMoves(db, step);
    StepProgress(db, step);
    OnlyPollsDispatch(db.ledger, LedgerMoves.MoveOf(db, step));
    ProgressKeepsOrder(db.ledger.commands, Next(db, step).ledger.commands, r);
  }

  lemma ProgressStepKeepsOrder(db: Db, step: Step, r: Id)
    requires InOrder(db.ledger.commands, r) && !StepAdmits(db, step)
    ensures InOrder(Next(db, step).ledger.commands, r)
  {
    var m := LedgerMoves.MoveOf(db, step);
    if m.Change? && m.status == Dispatched {
      PollDispatchesHead(db, step);
      DispatchKeepsOrder(db.ledger.commands, Next(db, step).ledger.commands, m.c, step.ctx.device, r);
    } else {
      assert !m.Admit? by { LedgerMoves.StepMoves(db, step); }
      OthersKeepOrder(db, step, r);
    }
  }

  lemma StepKeepsQueue(db: Db, step: Step, r: Id)
    requires Inv(db) && QueueInv(db, r)
    ensures QueueInv(Next(db, step), r)
  {
    StepKeepsCooldown(db, step, r);
    if StepAdmits(db, step) {
      AdmitKeepsOrder(db, step, r);
    } else {
      ProgressStepKeepsOrder(db, step, r);
    }
  }

  lemma RunKeepsQueue(states: seq<Db>, steps: seq<Step>, i: nat, r: Id)
    requires ValidRun(states, steps) && Inv(states[0]) && QueueInv(states[0], r) && i <= |steps|
    ensures Inv(states[i]) && QueueInv(states[i], r)
  {
    RunAllInv(states, steps);
    for k := 0 to i
      invariant QueueInv(states[k], r)
    {
      assert Transition(states[k], steps[k], states[k + 1]);
      StepKeepsQueue(states[k], steps[k], r);
    }
  }

  lemma DispatchedIsHead(db: Db, r: Id, c: Id, device: Id)
    requires InOrder(db.ledger.commands, r) && OnDevice(db.ledger.commands, c, device)
    requires db.ledger.commands[c].recipient == r && db.ledger.commands[c].status == Dispatched
    requires FleetInvariants.CommandsOwned(db.fleet.devices, db.ledger.commands)
    ensures IsHead(db.ledger.commands, c, device)
    ensures forall d :: OnDevice(db.ledger.commands, d, device) && d != c ==> db.ledger.commands[d].status == Queued
  {
    var commands := db.ledger.commands;
    forall d | OnDevice(commands, d, device) && d != c
      ensures Precedes(commands, c, d) && commands[d].status == Queued
    {
      assert SameQueue(commands, c, d) && SameQueue(commands, d, c);
      assert commands[d].recipient == db.fleet.devices[device].owner == r;
    }
  }

  /** In every run from a sound database in which the recipient has a positive cooldown and a queue in order, a
      dispatched command is the head of its device's queue and all the rest of the queue waits. */
  lemma OneDispatchedPerDevice(states: seq<Db>, steps: seq<Step>, i: nat, c: Id, device: Id)
    requires ValidRun(states, steps) && Inv(states[0]) && i <= |steps|
    requires OnDevice(states[i].ledger.commands, c, device) && states[i].ledger.commands[c].status == Dispatched
    requires QueueInv(states[0], states[i].ledger.commands[c].recipient)
    ensures var commands := states[i].ledger.commands;
            && IsHead(commands, c, device)
            && forall d :: OnDevice(commands, d, device) && d != c ==> commands[d].status == Queued
  {
    var r := states[i].ledger.commands[c].recipient;
    RunKeepsQueue(states, steps, i, r);
    DispatchedIsHead(states[i], r, c, device);
  }
}
