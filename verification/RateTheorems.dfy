/** The hourly bound and the counters, along every run. */
module RateTheorems {
  import opened Schema
  import opened Wrappers
  import opened Protocol
  import opened Admission
  import opened Windows
  import opened RateLimits
  import opened Reachability
  import Domain
  import Issuance

  /** The effective exposure limit under which a step admits its command. */
  ghost function LimitInForce(db: Db, step: Step): nat
    requires StepAdmits(db, step)
  {
    AdmitEffect(db, step.input, step.request, step.command, step.clock);
    Domain.AuthorizeEject(LoadedFor(db, step.input, step.clock).value.facts, step.input.now).limit
  }

  ghost predicate AdmitsWithin(db: Db, step: Step, r: Id, limit: nat) {
    StepAdmits(db, step) && step.input.recipient == r ==> LimitInForce(db, step) <= limit
  }

  ghost predicate WindowOf(db: Db, r: Id, limit: nat) {
    var times := TimesTo(db.ledger.commands, r);
    && (r in db.counters.recipients ==>
          WindowInv(times, db.counters.recipients[r].windowStart, db.counters.recipients[r].accepted, limit))
    && SlidingBound(times, 2 * limit)
  }

  ghost function LockedRow(db: Db, step: Step): RecipientState
    requires StepAdmits(db, step)
  {
    AdmitEffect(db, step.input, step.request, step.command, step.clock);
    Issuance.Prepared(db, step.input, step.clock).counters.recipients[step.input.recipient]
  }

  /** The counter an accept finds is below the limit, and the row it leaves is that of the window arithmetic. */
  lemma AcceptCounts(db: Db, step: Step)
    requires StepAdmits(db, step) && CountersInv(db)
    ensures var r, row, now := step.input.recipient, LockedRow(db, step), step.input.now;
            var next := Next(db, step);
            && LimitInForce(db, step) > 0
            && (!Restarts(row.windowStart, now) ==> row.accepted < LimitInForce(db, step))
            && r in next.counters.recipients
            && next.counters.recipients[r].windowStart == NextStart(row.windowStart, now)
            && next.counters.recipients[r].accepted == NextCount(row.windowStart, row.accepted, now)
            && step.command !in db.ledger.commands
            && step.command in next.ledger.commands
            && TimesTo(next.ledger.commands, r) == TimesTo(db.ledger.commands, r)[step.command := now]
            && Latest(TimesTo(db.ledger.commands, r), now)
  {
    AdmitEffect(db, step.input, step.request, step.command, step.clock);
    AdmitFacts(db, step);
    AdmitAddsTime(db.ledger.commands, step.command, Next(db, step).ledger.commands[step.command], step.input.recipient);
  }

  /** The locked row is the stored one, or new, empty and dated by the database clock. */
  lemma LockedRowOrigin(db: Db, step: Step)
    requires StepAdmits(db, step) && CountersInv(db)
    ensures var r, row := step.input.recipient, LockedRow(db, step);
            if r in db.counters.recipients then row == db.counters.recipients[r]
            else row == RecipientState(step.clock, 0, None, 0) && TimesTo(db.ledger.commands, r) == map[]
  {
    AdmitEffect(db, step.input, step.request, step.command, step.clock);
    assert RecipientCounted(db, step.input.recipient);
  }

  /** The counter after an accept never exceeds the limit in force. */
  lemma CountWithinLimit(db: Db, step: Step)
    requires StepAdmits(db, step) && CountersInv(db)
    ensures step.input.recipient in Next(db, step).counters.recipients
    ensures Next(db, step).counters.recipients[step.input.recipient].accepted <= LimitInForce(db, step)
  {
    AcceptCounts(db, step);
  }

  lemma AdmitKeepsWindowOf(db: Db, step: Step, limit: nat)
    requires CountersInv(db) && StepAdmits(db, step) && LimitInForce(db, step) <= limit
    requires WindowOf(db, step.input.recipient, limit)
    ensures WindowOf(Next(db, step), step.input.recipient, limit)
  {
    var r, row, now := step.input.recipient, LockedRow(db, step), step.input.now;
    var times := TimesTo(db.ledger.commands, r);
    AcceptCounts(db, step);
    LockedRowOrigin(db, step);
    AcceptKeepsWindow(times, row.windowStart, row.accepted, limit, step.command, now);
    AcceptKeepsSlidingBound(times, row.windowStart, row.accepted, limit, step.command, now);
  }

  lemma AdmitElsewhere(db: Db, step: Step, r: Id)
    requires StepAdmits(db, step) && step.input.recipient != r
    ensures TimesTo(Next(db, step).ledger.commands, r) == TimesTo(db.ledger.commands, r)
    ensures (r in db.counters.recipients <==> r in Next(db, step).counters.recipients)
    ensures r in db.counters.recipients ==> Next(db, step).counters.recipients[r] == db.counters.recipients[r]
  {
    AdmitEffect(db, step.input, step.request, step.command, step.clock);
    AdmitAddsTime(db.ledger.commands, step.command, Next(db, step).ledger.commands[step.command], r);
  }

  lemma StepKeepsWindowOf(db: Db, step: Step, r: Id, limit: nat)
    requires CountersInv(db) && WindowOf(db, r, limit) && AdmitsWithin(db, step, r, limit)
    ensures WindowOf(Next(db, step), r, limit)
  {
    if StepAdmits(db, step) && step.input.recipient == r {
      AdmitKeepsWindowOf(db, step, limit);
    } else if StepAdmits(db, step) {
      AdmitElsewhere(db, step, r);
    } else {
      StepProgress(db, step);
      StepKeepsRows(db, step);
      ProgressKeepsTimes(db.ledger.commands, Next(db, step).ledger.commands, r);
      assert RecipientCounted(db, r);
    }
  }

  ghost predicate RunAdmitsWithin(states: seq<Db>, steps: seq<Step>, r: Id, limit: nat) {
    |states| > |steps| && forall k {:trigger steps[k]} :: 0 <= k < |steps| ==>
        AdmitsWithin(states[k], steps[k], r, limit)
  }

  lemma RunWindow(states: seq<Db>, steps: seq<Step>, r: Id, limit: nat, i: nat)
    requires ValidRun(states, steps) && Inv(states[0]) && WindowOf(states[0], r, limit) && i <= |steps|
    requires RunAdmitsWithin(states, steps, r, limit)
    ensures WindowOf(states[i], r, limit)
  {
    RunCounted(states, steps);
    for k := 0 to i
      invariant WindowOf(states[k], r, limit)
    {
      WindowKept(states[k], steps[k], states[k + 1], r, limit);
    }
  }

  lemma WindowKept(db: Db, step: Step, next: Db, r: Id, limit: nat)
    requires CountersInv(db) && Transition(db, step, next) && WindowOf(db, r, limit) && AdmitsWithin(db, step, r, limit)
    ensures WindowOf(next, r, limit)
  {
    StepKeepsWindowOf(db, step, r, limit);
  }

  lemma NoneIssuedYet(db: Db, r: Id, limit: nat)
    requires TimesTo(db.ledger.commands, r) == map[] && r !in db.counters.recipients
    ensures WindowOf(db, r, limit)
  {
    assert forall t :: InHour(TimesTo(db.ledger.commands, r), t) == {};
  }

  /** In any run, no hour holds more than twice the largest limit ever in force for the recipient. */
  lemma HourlyBound(states: seq<Db>, steps: seq<Step>, r: Id, limit: nat, i: nat, from: Time)
    requires ValidRun(states, steps) && Genesis(states[0]) && i <= |steps|
    requires RunAdmitsWithin(states, steps, r, limit)
    ensures |InHour(TimesTo(states[i].ledger.commands, r), from)| <= 2 * limit
  {
    GenesisInv(states[0]);
    assert TimesTo(states[0].ledger.commands, r) == map[];
    NoneIssuedYet(states[0], r, limit);
    RunWindow(states, steps, r, limit, i);
  }

  lemma {:induction false} ScaledCeil(n: nat, d: nat, k: nat)
    requires d > 0 && k > 0
    ensures CeilDiv(k * n, k * d) == CeilDiv(n, d)
    decreases n
  {
    if n > d {
      assert k * (n - d) == k * n - k * d;
      assert k * n > k * d;
      ScaledCeil(n - d, d, k);
    } else {
      assert k * n <= k * d;
    }
  }

  /** A cooldown of c seconds lets at most ceil(3600 / c) commands into any hour. */
  lemma CooldownBound(db: Db, r: Id, from: Time)
    requires Inv(db) && r in db.perms.policies && db.perms.policies[r].cooldownSeconds > 0
    ensures |InHour(TimesTo(db.ledger.commands, r), from)| <= CeilDiv(3600, db.perms.policies[r].cooldownSeconds)
  {
    var times, c := TimesTo(db.ledger.commands, r), db.perms.policies[r].cooldownSeconds;
    assert RecipientCounted(db, r);
    if times != map[] {
      SpacedFit(times, Gap(db.perms.policies[r]), from, HOUR);
      ScaledCeil(3600, c, SECOND);
      assert SECOND * c == Gap(db.perms.policies[r]);
    } else {
      assert InHour(times, from) == {};
    }
  }

  /** The revision counts every command ever issued to the recipient. */
  lemma RevisionCountsAll(db: Db, r: Id)
    requires Inv(db) && r in db.counters.recipients
    ensures db.counters.recipients[r].revision == |set c | c in db.ledger.commands
            && db.ledger.commands[c].recipient == r|
  {
    assert RecipientCounted(db, r);
    assert TimesTo(db.ledger.commands, r).Keys == set c | c in db.ledger.commands
        && db.ledger.commands[c].recipient == r;
  }
}
