/** How often a recipient can be ejected, over whole runs and without trusting any clock. */
module RateLimits {
  import opened Schema
  import opened Wrappers
  import opened Protocol
  import opened Admission
  import opened Windows
  import Issuance

  /** When each command to a recipient, or from an actor, was issued. */
  ghost function TimesTo(commands: map<Id, Command>, recipient: Id): map<Id, Time> {
    map c | c in commands && commands[c].recipient == recipient :: commands[c].issuedAt
  }

  ghost function TimesFrom(commands: map<Id, Command>, actor: Id): map<Id, Time> {
    map c | c in commands && commands[c].actor == actor :: commands[c].issuedAt
  }

  function Gap(policy: Policy): nat {
    policy.cooldownSeconds * SECOND
  }

  /** The cooldown separates a recipient's commands, and the row remembers when the last one ends. */
  ghost predicate CooledDown(times: map<Id, Time>, gap: nat, until: Option<Time>) {
    && Spaced(times, gap)
    && (times != map[] ==> until.Some?)
    && (until.Some? ==> forall c :: c in times ==> times[c] + gap <= until.value)
  }

  ghost predicate RecipientCounted(db: Db, r: Id) {
    var times := TimesTo(db.ledger.commands, r);
    if r in db.counters.recipients then
      var row := db.counters.recipients[r];
      && row.revision == |times|
      && (times != map[] ==> r in db.perms.policies)
      && (r in db.perms.policies ==> CooledDown(times, Gap(db.perms.policies[r]), row.cooldownUntil))
    else times == map[]
  }

  ghost predicate CountersInv(db: Db) {
    forall r: Id :: RecipientCounted(db, r)
  }

  /** Commands move, but who they are for and when they were issued does not. */
  lemma ProgressKeepsTimes(a: map<Id, Command>, b: map<Id, Command>, p: Id)
    requires OnlyProgress(a, b)
    ensures TimesTo(b, p) == TimesTo(a, p) && TimesFrom(b, p) == TimesFrom(a, p)
  {}

  lemma AdmitAddsTime(commands: map<Id, Command>, c: Id, command: Command, p: Id)
    requires c !in commands
    ensures var next := commands[c := command];
            && TimesTo(next, p) == (if command.recipient == p then TimesTo(commands, p)[c := command.issuedAt]
                                    else TimesTo(commands, p))
            && TimesFrom(next, p) == (if command.actor == p then TimesFrom(commands, p)[c := command.issuedAt]
                                      else TimesFrom(commands, p))
            && c !in TimesTo(commands, p) && c !in TimesFrom(commands, p)
  {}

  /** Without admission counters rows only appear, empty; cooldowns stay as they are. */
  ghost predicate RowsKept(a: map<Id, RecipientState>, b: map<Id, RecipientState>) {
    && (forall r :: r in a ==> r in b && b[r] == a[r])
    && (forall r :: r in b && r !in a ==> b[r] == RecipientState(b[r].windowStart, 0, None, 0))
  }

  ghost predicate CooldownsKept(a: map<Id, Policy>, b: map<Id, Policy>) {
    forall r :: r in a ==> r in b && b[r].cooldownSeconds == a[r].cooldownSeconds
  }

  lemma IssueKeepsRows(db: Db, step: Step)
    requires step.Issue? && !StepAdmits(db, step)
    ensures RowsKept(db.counters.recipients, Next(db, step).counters.recipients)
    ensures CooldownsKept(db.perms.policies, Next(db, step).perms.policies)
  {
    NoAdmitEffect(db, step.input, step.request, step.command, step.clock);
  }

  lemma LockingKeepsRows(db: Db, r: Id, clock: Time)
    ensures RowsKept(db.counters.recipients, Issuance.WithRecipient(db, r, clock).counters.recipients)
  {}

  lemma PauseKeepsRows(db: Db, step: Step)
    requires step.SetPaused?
    ensures RowsKept(db.counters.recipients, Next(db, step).counters.recipients)
    ensures CooldownsKept(db.perms.policies, Next(db, step).perms.policies)
  {
    LockingKeepsRows(db, step.recipient, step.clock);
  }

  lemma GrantKeepsRows(db: Db, step: Step)
    requires step.SetGrant?
    ensures RowsKept(db.counters.recipients, Next(db, step).counters.recipients)
    ensures CooldownsKept(db.perms.policies, Next(db, step).perms.policies)
  {
    LockingKeepsRows(db, step.recipient, step.clock);
  }

  lemma DisconnectKeepsRows(db: Db, step: Step)
    requires step.Disconnect?
    ensures RowsKept(db.counters.recipients, Next(db, step).counters.recipients)
    ensures Next(db, step).perms.policies == db.perms.policies
  {
    LockingKeepsRows(db, step.person, step.now);
    LockingKeepsRows(Issuance.WithRecipient(db, step.person, step.now), step.other, step.now);
  }

  lemma InvitationsKeepRows(db: Db, step: Step)
    requires step.Invite? || step.Accept? || step.Cleanup?
    ensures Next(db, step).counters == db.counters && Next(db, step).perms.policies == db.perms.policies
  {}

  lemma OthersKeepRows(db: Db, step: Step)
    requires step.Poll? || step.Report? || step.OpenEnrollment? || step.Enroll? || step.RevokeDevice?
    ensures Next(db, step).counters == db.counters && Next(db, step).perms == db.perms
  {}

  lemma StepKeepsRows(db: Db, step: Step)
    requires !StepAdmits(db, step)
    ensures RowsKept(db.counters.recipients, Next(db, step).counters.recipients)
    ensures CooldownsKept(db.perms.policies, Next(db, step).perms.policies)
  {
    match step
    case Issue(_, _, _, _) => IssueKeepsRows(db, step);
    case SetPaused(_, _, _, _) => PauseKeepsRows(db, step);
    case SetGrant(_, _, _, _, _) => GrantKeepsRows(db, step);
    case Disconnect(_, _, _) => DisconnectKeepsRows(db, step);
    case Environment(change) =>
    case Poll(_, _) => OthersKeepRows(db, step);
    case Report(_, _, _) => OthersKeepRows(db, step);
    case OpenEnrollment(_, _, _, _) => OthersKeepRows(db, step);
    case Enroll(_, _, _, _, _) => OthersKeepRows(db, step);
    case RevokeDevice(_, _, _) => OthersKeepRows(db, step);
    case _ => InvitationsKeepRows(db, step);
  }

  lemma ProgressKeepsCounters(db: Db, step: Step)
    requires CountersInv(db) && !StepAdmits(db, step)
    ensures CountersInv(Next(db, step))
  {
    var next := Next(db, step);
    StepProgress(db, step);
    StepKeepsRows(db, step);
    forall r: Id
      ensures RecipientCounted(next, r)
    {
      assert RecipientCounted(db, r);
      ProgressKeepsTimes(db.ledger.commands, next.ledger.commands, r);
    }
  }

  /** An accept happens no earlier than the end of the recipient's last cooldown. */
  lemma AdmitFacts(db: Db, step: Step)
    requires StepAdmits(db, step) && CountersInv(db)
    ensures var input := step.input;
            var r := input.recipient;
            var row := Issuance.Prepared(db, input, step.clock).counters.recipients[r];
            var times := TimesTo(db.ledger.commands, r);
            && r in Issuance.Prepared(db, input, step.clock).counters.recipients
            && r in db.perms.policies
            && LoadedFor(db, input, step.clock).Some?
            && LoadedFor(db, input, step.clock).value.cooldownSeconds == db.perms.policies[r].cooldownSeconds
            && CooledDown(times, Gap(db.perms.policies[r]), row.cooldownUntil)
            && (row.cooldownUntil.Some? ==> row.cooldownUntil.value <= input.now)
            && row.revision == |times|
            && Latest(times, input.now)
  {
    AdmitEffect(db, step.input, step.request, step.command, step.clock);
    assert RecipientCounted(db, step.input.recipient);
  }

  lemma CooldownContinues(times: map<Id, Time>, gap: nat, until: Option<Time>, x: Id, now: Time)
    requires CooledDown(times, gap, until) && x !in times
    requires until.Some? ==> until.value <= now
    ensures CooledDown(times[x := now], gap, Some(now + gap))
  {}

  lemma AdmitKeepsCounters(db: Db, step: Step)
    requires CountersInv(db) && StepAdmits(db, step)
    ensures CountersInv(Next(db, step))
  {
    var next := Next(db, step);
    var input := step.input;
    forall r: Id
      ensures RecipientCounted(next, r)
    {
      if r == input.recipient {
        AdmitCounts(db, step);
      } else {
        AdmitLeavesOthers(db, step, r);
      }
    }
  }

  lemma AdmitCounts(db: Db, step: Step)
    requires CountersInv(db) && StepAdmits(db, step)
    ensures RecipientCounted(Next(db, step), step.input.recipient)
  {
    var next, input := Next(db, step), step.input;
    var r := input.recipient;
    AdmitEffect(db, input, step.request, step.command, step.clock);
    AdmitFacts(db, step);
    AdmitAddsTime(db.ledger.commands, step.command, next.ledger.commands[step.command], r);
    var row := Issuance.Prepared(db, input, step.clock).counters.recipients[r];
    CooldownContinues(TimesTo(db.ledger.commands, r), Gap(db.perms.policies[r]), row.cooldownUntil, step.command,
                      input.now);
  }

  lemma AdmitLeavesOthers(db: Db, step: Step, r: Id)
    requires CountersInv(db) && StepAdmits(db, step) && r != step.input.recipient
    ensures RecipientCounted(Next(db, step), r)
  {
    AdmitEffect(db, step.input, step.request, step.command, step.clock);
    assert RecipientCounted(db, r);
    AdmitAddsTime(db.ledger.commands, step.command, Next(db, step).ledger.commands[step.command], r);
  }

  lemma StepKeepsCounters(db: Db, step: Step)
    requires CountersInv(db)
    ensures CountersInv(Next(db, step))
  {
    if StepAdmits(db, step) {
      AdmitKeepsCounters(db, step);
    } else {
      ProgressKeepsCounters(db, step);
    }
  }
}
