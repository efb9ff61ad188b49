/** When the hourly counters agree with the commands they are meant to count.

    A counter row dates its window by the clock of whoever creates it: the
    database's for recipients, the application's for senders. A counter agrees
    with the log exactly as long as no accept is dated before the window it is
    counted in; a recipient's can fail to only in its first window. */
module CounterAgreement {
  import opened Schema
  import opened Wrappers
  import opened Protocol
  import opened Admission
  import opened Windows
  import opened RateLimits
  import opened RateTheorems
  import opened Reachability
  import opened Scenario
  import Issuance

  // Recipients.

  ghost predicate RecipientAgrees(db: Db, r: Id) {
    var times := TimesTo(db.ledger.commands, r);
    if r in db.counters.recipients
    then Consistent(times, db.counters.recipients[r].windowStart, db.counters.recipients[r].accepted)
    else times == map[]
  }

  ghost predicate RecipientOvercounts(db: Db, r: Id) {
    && r in db.counters.recipients
    && Overcounts(TimesTo(db.ledger.commands, r), db.counters.recipients[r].windowStart,
                  db.counters.recipients[r].accepted)
  }

  ghost predicate AdmitsTo(db: Db, step: Step, r: Id) {
    StepAdmits(db, step) && step.input.recipient == r
  }

  /** One accept keeps a recipient's counter in agreement exactly when the window it counts in has begun by then. */
  lemma AcceptAgreesExactly(db: Db, step: Step)
    requires StepAdmits(db, step) && CountersInv(db) && RecipientAgrees(db, step.input.recipient)
    ensures var r, begun := step.input.recipient, LockedRow(db, step).windowStart <= step.input.now;
            && (RecipientAgrees(Next(db, step), r) <==> begun)
            && (RecipientOvercounts(Next(db, step), r) <==> !begun)
  {
    var r, row, now := step.input.recipient, LockedRow(db, step), step.input.now;
    var times := TimesTo(db.ledger.commands, r);
    AcceptCounts(db, step);
    LockedRowOrigin(db, step);
    AcceptKeepsConsistent(times, row.windowStart, row.accepted, step.command, now);
  }

  /** The first accept of a recipient disagrees with the log if and only if the database clock, read later, was
      ahead. */
  lemma FirstAcceptAgreesExactly(db: Db, step: Step)
    requires StepAdmits(db, step) && CountersInv(db) && step.input.recipient !in db.counters.recipients
    ensures RecipientAgrees(Next(db, step), step.input.recipient) <==> step.clock <= step.input.now
  {
    LockedRowOrigin(db, step);
    AcceptAgreesExactly(db, step);
  }

  function FirstEject(clock: Time): Step {
    Issue(Issuance.Input(2, 1, 9, Eject, None, 0), 10, 11, clock)
  }

  lemma IdleAdmits(clock: Time)
    ensures StepAdmits(IdleDb(60), FirstEject(clock))
  {
    var db, step := IdleDb(60), FirstEject(clock);
    assert Issuance.FindRequest(db.ledger, 2, 9).None?;
    assert Issuance.IsLiveDevice(db.fleet.devices, 7, 1);
    var prepared := Issuance.Prepared(db, step.input, clock);
    assert prepared.counters ==
           Counters(map[1 := RecipientState(clock, 0, None, 0)], map[2 := SenderState(0, 0, SENDER_LIMIT)]);
    assert Issuance.LiveDevice(prepared.fleet.devices, 1) == Some(7);
    assert LoadedFor(db, step.input, clock).Some?;
  }

  /** A database clock one millisecond ahead of the application is enough for the counter to miss its own first
      command. */
  lemma AheadClockDisagrees()
    ensures Inv(IdleDb(60)) && StepAdmits(IdleDb(60), FirstEject(1))
    ensures !RecipientAgrees(Next(IdleDb(60), FirstEject(1)), 1)
  {
    IdleInv(60);
    IdleAdmits(1);
    FirstAcceptAgreesExactly(IdleDb(60), FirstEject(1));
  }

  /** What a step that admits nothing to `r` leaves to the counter of `r`. */
  lemma OthersKeepRecipient(db: Db, step: Step, r: Id)
    requires CountersInv(db) && !AdmitsTo(db, step, r)
    ensures var next := Next(db, step);
            && TimesTo(next.ledger.commands, r) == TimesTo(db.ledger.commands, r)
            && (r in db.counters.recipients ==>
                  r in next.counters.recipients && next.counters.recipients[r] == db.counters.recipients[r])
            && (r !in db.counters.recipients && r in next.counters.recipients ==>
                next.counters.recipients[r].accepted == 0)
            && (r !in db.counters.recipients ==> TimesTo(db.ledger.commands, r) == map[])
  {
    assert RecipientCounted(db, r);
    if StepAdmits(db, step) {
      AdmitElsewhere(db, step, r);
    } else {
      StepProgress(db, step);
      StepKeepsRows(db, step);
      ProgressKeepsTimes(db.ledger.commands, Next(db, step).ledger.commands, r);
    }
  }

  lemma OthersKeepAgreement(db: Db, step: Step, r: Id)
    requires CountersInv(db) && !AdmitsTo(db, step, r)
    ensures RecipientAgrees(db, r) ==> RecipientAgrees(Next(db, step), r)
    ensures RecipientOvercounts(db, r) ==> RecipientOvercounts(Next(db, step), r)
  {
    OthersKeepRecipient(db, step, r);
  }

  /** If the step admits a command to `r`, the window it counts it in has begun. */
  ghost predicate CountsInTime(db: Db, step: Step, r: Id) {
    AdmitsTo(db, step, r) ==> LockedRow(db, step).windowStart <= step.input.now
  }

  ghost predicate AgreesThroughout(states: seq<Db>, steps: seq<Step>, r: Id)
    requires |states| == |steps| + 1
  {
    forall i: nat :: i <= |steps| ==> RecipientAgrees(states[i], r)
  }

  ghost predicate CountsInTimeThroughout(states: seq<Db>, steps: seq<Step>, r: Id)
    requires |states| == |steps| + 1
  {
    forall i: nat {:trigger steps[i]} :: i < |steps| ==> CountsInTime(states[i], steps[i], r)
  }

  lemma StepAgreesExactly(db: Db, step: Step, r: Id)
    requires CountersInv(db) && RecipientAgrees(db, r)
    ensures RecipientAgrees(Next(db, step), r) <==> CountsInTime(db, step, r)
  {
    if AdmitsTo(db, step, r) {
      AcceptAgreesExactly(db, step);
    } else {
      OthersKeepAgreement(db, step, r);
    }
  }

  lemma GenesisAgrees(db: Db, r: Id)
    requires Genesis(db)
    ensures RecipientAgrees(db, r)
  {
    assert TimesTo(db.ledger.commands, r) == map[];
  }

  /** In any run at all, whatever its clocks, a recipient's counter agrees with the log in every database exactly when
      every command admitted to that recipient is counted in a window that has begun. */
  lemma RecipientAgreesExactly(states: seq<Db>, steps: seq<Step>, r: Id)
    requires ValidRun(states, steps) && Genesis(states[0])
    ensures AgreesThroughout(states, steps, r) <==> CountsInTimeThroughout(states, steps, r)
  {
    GenesisInv(states[0]);
    GenesisAgrees(states[0], r);
    RunCounted(states, steps);
    if AgreesThroughout(states, steps, r) {
      forall i: nat | i < |steps|
        ensures CountsInTime(states[i], steps[i], r)
      {
        assert Transition(states[i], steps[i], states[i + 1]);
        StepAgreesExactly(states[i], steps[i], r);
      }
    }
    if CountsInTimeThroughout(states, steps, r) {
      forall i: nat | i <= |steps| ensures RecipientAgrees(states[i], r) { AgreesWhileInTime(states, steps, r, i); }
    }
  }

  lemma AgreesWhileInTime(states: seq<Db>, steps: seq<Step>, r: Id, i: nat)
    requires ValidRun(states, steps) && Inv(states[0]) && RecipientAgrees(states[0], r)
    requires CountsInTimeThroughout(states, steps, r) && i <= |steps|
    ensures RecipientAgrees(states[i], r)
  {
    RunCounted(states, steps);
    for k := 0 to i
      invariant RecipientAgrees(states[k], r)
    {
      assert CountsInTime(states[k], steps[k], r) && Transition(states[k], steps[k], states[k + 1]);
      StepAgreesExactly(states[k], steps[k], r);
    }
  }

  // Which clock decides for a recipient: the one that dated the row, against every accept.

  /** The window has begun: some counted command is not before its start. */
  ghost predicate Begun(db: Db, r: Id) {
    r in db.counters.recipients && Reached(db, r, db.counters.recipients[r].windowStart)
  }

  /** Some command to `r` was issued at or after `start`. */
  ghost predicate Reached(db: Db, r: Id, start: Time) {
    var times := TimesTo(db.ledger.commands, r);
    exists c :: c in times && start <= times[c]
  }

  /** A begun window stays begun, so every later accept is counted in time. */
  lemma BegunCountsInTime(db: Db, step: Step, r: Id)
    requires CountersInv(db) && Begun(db, r)
    ensures CountsInTime(db, step, r)
  {
    if AdmitsTo(db, step, r) {
      AcceptCounts(db, step);
      LockedRowOrigin(db, step);
    }
  }

  lemma AcceptReaches(db: Db, step: Step, r: Id, start: Time)
    requires CountersInv(db) && AdmitsTo(db, step, r) && (start <= step.input.now || Reached(db, r, start))
    ensures Reached(Next(db, step), r, start)
  {
    AcceptCounts(db, step);
    assert step.command in TimesTo(Next(db, step).ledger.commands, r);
  }

  lemma AcceptBegins(db: Db, step: Step, r: Id)
    requires CountersInv(db) && AdmitsTo(db, step, r) && CountsInTime(db, step, r)
    ensures Begun(Next(db, step), r)
  {
    AcceptCounts(db, step);
    AcceptReaches(db, step, r, Next(db, step).counters.recipients[r].windowStart);
  }

  ghost predicate CreatesRow(db: Db, step: Step, r: Id) {
    r !in db.counters.recipients && r in Next(db, step).counters.recipients
  }

  /** The clock that dates a recipient's row if the step creates it. */
  function RowClock(step: Step): Option<Time> {
    match step
    case Issue(_, _, _, clock) => Some(clock)
    case SetPaused(_, _, _, clock) => Some(clock)
    case SetGrant(_, _, _, _, clock) => Some(clock)
    case Disconnect(_, _, now) => Some(now)
    case _ => None
  }

  ghost predicate RowsDated(a: map<Id, RecipientState>, b: map<Id, RecipientState>, clock: Time) {
    forall r :: r in b ==> if r in a then b[r] == a[r] else b[r].windowStart == clock
  }

  lemma PauseDatesRows(db: Db, step: Step)
    requires step.SetPaused?
    ensures RowsDated(db.counters.recipients, Next(db, step).counters.recipients, RowClock(step).value)
  {}

  lemma GrantDatesRows(db: Db, step: Step)
    requires step.SetGrant?
    ensures RowsDated(db.counters.recipients, Next(db, step).counters.recipients, RowClock(step).value)
  {}

  lemma DisconnectDatesRows(db: Db, step: Step)
    requires step.Disconnect?
    ensures RowsDated(db.counters.recipients, Next(db, step).counters.recipients, RowClock(step).value)
  {}

  lemma IssueDatesRows(db: Db, step: Step)
    requires step.Issue? && !StepAdmits(db, step)
    ensures RowsDated(db.counters.recipients, Next(db, step).counters.recipients, step.clock)
  {}

  /** A row is dated by the clock of the step that creates it, unless that step already restarts its window. */
  lemma CreationDates(db: Db, step: Step, r: Id)
    requires CreatesRow(db, step, r)
    ensures RowClock(step).Some?
    ensures if AdmitsTo(db, step, r) then LockedRow(db, step).windowStart == RowClock(step).value
            else Next(db, step).counters.recipients[r].windowStart == RowClock(step).value
  {
    if StepAdmits(db, step) {
      AdmitCreation(db, step, r);
    } else if step.Issue? {
      IssueDatesRows(db, step);
    } else if step.SetPaused? {
      PauseDatesRows(db, step);
    } else if step.SetGrant? {
      GrantDatesRows(db, step);
    } else if step.Disconnect? {
      DisconnectDatesRows(db, step);
    } else {
      OthersCreateNothing(db, step);
    }
  }

  lemma AdmitCreation(db: Db, step: Step, r: Id)
    requires CreatesRow(db, step, r) && StepAdmits(db, step)
    ensures AdmitsTo(db, step, r) && LockedRow(db, step).windowStart == step.clock
  {
    AdmitEffect(db, step.input, step.request, step.command, step.clock);
  }

  lemma OthersCreateNothing(db: Db, step: Step)
    requires RowClock(step).None?
    ensures Next(db, step).counters.recipients == db.counters.recipients
  {
    if step.Invite? || step.Accept? || step.Cleanup? {
      InvitationsKeepRows(db, step);
    } else if !step.Environment? {
      OthersKeepRows(db, step);
    }
  }

  /** The clock that dated the row of `r` is never ahead of a later accept, nor of its own. */
  ghost predicate DatedInTime(states: seq<Db>, steps: seq<Step>, r: Id)
    requires |states| == |steps| + 1
  {
    forall i: nat, j: nat {:trigger steps[i], steps[j]} ::
      i <= j < |steps| && CreatesRow(states[i], steps[i], r) && AdmitsTo(states[j], steps[j], r) ==>
        RowClock(steps[i]).Some? && RowClock(steps[i]).value <= steps[j].input.now
  }

  /** The row of `r` still has the start its creating step gave it, unless its window has begun. */
  ghost predicate DatedBy(states: seq<Db>, steps: seq<Step>, r: Id, k: nat)
    requires |states| == |steps| + 1 && k <= |steps|
  {
    r in states[k].counters.recipients && !Begun(states[k], r) ==>
      exists i: nat {:trigger steps[i]} ::
        i < k && CreatesRow(states[i], steps[i], r)
        && RowClock(steps[i]) == Some(states[k].counters.recipients[r].windowStart)
  }

  lemma DatedCountsInTime(states: seq<Db>, steps: seq<Step>, r: Id, k: nat)
    requires |states| == |steps| + 1 && k < |steps| && CountersInv(states[k])
    requires DatedInTime(states, steps, r) && DatedBy(states, steps, r, k)
    ensures CountsInTime(states[k], steps[k], r)
  {
    var db, step := states[k], steps[k];
    if Begun(db, r) {
      BegunCountsInTime(db, step, r);
    } else if AdmitsTo(db, step, r) {
      LockedRowOrigin(db, step);
      AcceptCounts(db, step);
      if r !in db.counters.recipients {
        assert CreatesRow(db, step, r);
      }
    }
  }

  lemma DatedStays(states: seq<Db>, steps: seq<Step>, r: Id, k: nat)
    requires |states| == |steps| + 1 && k < |steps| && CountersInv(states[k])
    requires Transition(states[k], steps[k], states[k + 1])
    requires DatedInTime(states, steps, r) && DatedBy(states, steps, r, k)
    ensures DatedBy(states, steps, r, k + 1)
  {
    DatedCountsInTime(states, steps, r, k);
    if AdmitsTo(states[k], steps[k], r) {
      AcceptBegins(states[k], steps[k], r);
    } else {
      OthersKeepRecipient(states[k], steps[k], r);
      if CreatesRow(states[k], steps[k], r) {
        CreationDates(states[k], steps[k], r);
      }
    }
  }

  lemma DatedRunCountsInTime(states: seq<Db>, steps: seq<Step>, r: Id, i: nat)
    requires ValidRun(states, steps) && Inv(states[0]) && r !in states[0].counters.recipients
    requires DatedInTime(states, steps, r) && i < |steps|
    ensures CountsInTime(states[i], steps[i], r)
  {
    RunCounted(states, steps);
    for k := 0 to i
      invariant DatedBy(states, steps, r, k)
    {
      assert Transition(states[k], steps[k], states[k + 1]);
      DatedStays(states, steps, r, k);
    }
    DatedCountsInTime(states, steps, r, i);
  }

  /** The row still starts at `start`, or some command to `r` is not before it. */
  ghost predicate StartedAt(db: Db, r: Id, start: Time) {
    r in db.counters.recipients && (db.counters.recipients[r].windowStart == start || Reached(db, r, start))
  }

  lemma StartedStays(db: Db, step: Step, r: Id, start: Time)
    requires CountersInv(db) && CountsInTime(db, step, r) && StartedAt(db, r, start)
    ensures StartedAt(Next(db, step), r, start)
    ensures AdmitsTo(db, step, r) ==> start <= step.input.now
  {
    if AdmitsTo(db, step, r) {
      AcceptCounts(db, step);
      LockedRowOrigin(db, step);
      AcceptReaches(db, step, r, start);
    } else {
      OthersKeepRecipient(db, step, r);
    }
  }

  lemma CreationStarts(db: Db, step: Step, next: Db, r: Id)
    requires CountersInv(db) && Transition(db, step, next) && CreatesRow(db, step, r) && CountsInTime(db, step, r)
    ensures RowClock(step).Some? && StartedAt(next, r, RowClock(step).value)
    ensures AdmitsTo(db, step, r) ==> RowClock(step).value <= step.input.now
  {
    CreationDates(db, step, r);
    if AdmitsTo(db, step, r) {
      AcceptReaches(db, step, r, RowClock(step).value);
    }
  }

  lemma StartedOnce(db: Db, step: Step, next: Db, r: Id, start: Time)
    requires CountersInv(db) && Transition(db, step, next) && CountsInTime(db, step, r) && StartedAt(db, r, start)
    ensures StartedAt(next, r, start)
    ensures AdmitsTo(db, step, r) ==> start <= step.input.now
  {
    StartedStays(db, step, r, start);
  }

  ghost predicate AcceptsFrom(states: seq<Db>, steps: seq<Step>, r: Id, start: Time, i: nat, j: nat)
    requires |states| == |steps| + 1 && j <= |steps|
  {
    forall k: nat {:trigger steps[k]} :: i <= k < j && AdmitsTo(states[k], steps[k], r) ==> start <= steps[k].input.now
  }

  lemma CreationBeforeAccepts(states: seq<Db>, steps: seq<Step>, r: Id, i: nat)
    requires ValidRun(states, steps) && Inv(states[0]) && CountsInTimeThroughout(states, steps, r)
    requires i < |steps| && CreatesRow(states[i], steps[i], r)
    ensures RowClock(steps[i]).Some? && AcceptsFrom(states, steps, r, RowClock(steps[i]).value, i, |steps|)
  {
    RunCounted(states, steps);
    CreationStarts(states[i], steps[i], states[i + 1], r);
    var start := RowClock(steps[i]).value;
    for k := i + 1 to |steps|
      invariant StartedAt(states[k], r, start)
      invariant AcceptsFrom(states, steps, r, start, i, k)
    {
      StartedOnce(states[k], steps[k], states[k + 1], r, start);
    }
  }

  /** So one clock decides: the counter agrees throughout exactly when the clock reading that dated the recipient's
      row is not ahead of any command admitted to the recipient. */
  lemma AgreesExactlyWhenDatedInTime(states: seq<Db>, steps: seq<Step>, r: Id)
    requires ValidRun(states, steps) && Genesis(states[0])
    ensures AgreesThroughout(states, steps, r) <==> DatedInTime(states, steps, r)
  {
    GenesisInv(states[0]);
    RecipientAgreesExactly(states, steps, r);
    if DatedInTime(states, steps, r) {
      forall i: nat | i < |steps|
        ensures CountsInTime(states[i], steps[i], r)
      {
        DatedRunCountsInTime(states, steps, r, i);
      }
    }
    if CountsInTimeThroughout(states, steps, r) {
      forall i: nat, j: nat | i <= j < |steps| && CreatesRow(states[i], steps[i], r) && AdmitsTo(states[j], steps[j], r)
        ensures RowClock(steps[i]).Some? && RowClock(steps[i]).value <= steps[j].input.now
      {
        CreationBeforeAccepts(states, steps, r, i);
      }
    }
  }

  // How long a recipient's counter can disagree.

  ghost predicate Healed(db: Db, r: Id, start: Time) {
    Begun(db, r) && RecipientAgrees(db, r) && db.counters.recipients[r].windowStart > start
  }

  /** The counter overcounts in the window that starts at `start`, or has left that window and agrees for good. */
  ghost predicate OvercountsUntil(db: Db, r: Id, start: Time) {
    && r in db.counters.recipients
    && if db.counters.recipients[r].windowStart == start then RecipientOvercounts(db, r) else Healed(db, r, start)
  }

  lemma AcceptEndsOvercounting(db: Db, step: Step, r: Id, start: Time)
    requires CountersInv(db) && AdmitsTo(db, step, r) && RecipientOvercounts(db, r)
    requires db.counters.recipients[r].windowStart == start
    ensures OvercountsUntil(Next(db, step), r, start)
  {
    var row, now := db.counters.recipients[r], step.input.now;
    AcceptCounts(db, step);
    LockedRowOrigin(db, step);
    AcceptKeepsOvercounting(TimesTo(db.ledger.commands, r), row.windowStart, row.accepted, step.command, now);
    AcceptReaches(db, step, r, now);
  }

  lemma AcceptKeepsHealed(db: Db, step: Step, r: Id, start: Time)
    requires CountersInv(db) && AdmitsTo(db, step, r) && Healed(db, r, start)
    ensures Healed(Next(db, step), r, start)
  {
    AcceptCounts(db, step);
    LockedRowOrigin(db, step);
    BegunCountsInTime(db, step, r);
    AcceptAgreesExactly(db, step);
    AcceptBegins(db, step, r);
  }

  lemma StepKeepsOvercounting(db: Db, step: Step, next: Db, r: Id, start: Time)
    requires CountersInv(db) && Transition(db, step, next) && OvercountsUntil(db, r, start)
    ensures OvercountsUntil(next, r, start)
  {
    if !AdmitsTo(db, step, r) {
      OthersKeepRecipient(db, step, r);
    } else if db.counters.recipients[r].windowStart == start {
      AcceptEndsOvercounting(db, step, r, start);
    } else {
      AcceptKeepsHealed(db, step, r, start);
    }
  }

  /** A counter never undercounts. */
  lemma StepNeverUndercounts(db: Db, step: Step, next: Db, r: Id)
    requires CountersInv(db) && Transition(db, step, next) && (RecipientAgrees(db, r) || RecipientOvercounts(db, r))
    ensures RecipientAgrees(next, r) || RecipientOvercounts(next, r)
  {
    if RecipientOvercounts(db, r) {
      StepKeepsOvercounting(db, step, next, r, db.counters.recipients[r].windowStart);
    } else if AdmitsTo(db, step, r) {
      AcceptAgreesExactly(db, step);
    } else {
      OthersKeepAgreement(db, step, r);
    }
  }

  lemma NeverUndercounts(states: seq<Db>, steps: seq<Step>, r: Id, i: nat)
    requires ValidRun(states, steps) && Genesis(states[0]) && i <= |steps|
    ensures RecipientAgrees(states[i], r) || RecipientOvercounts(states[i], r)
  {
    GenesisInv(states[0]);
    GenesisAgrees(states[0], r);
    RunCounted(states, steps);
    for k := 0 to i
      invariant RecipientAgrees(states[k], r) || RecipientOvercounts(states[k], r)
    {
      StepNeverUndercounts(states[k], steps[k], states[k + 1], r);
    }
  }

  lemma OvercountsAlong(states: seq<Db>, steps: seq<Step>, r: Id, start: Time, i: nat, j: nat)
    requires ValidRun(states, steps) && Inv(states[0]) && i <= j <= |steps| && OvercountsUntil(states[i], r, start)
    ensures OvercountsUntil(states[j], r, start)
  {
    RunCounted(states, steps);
    for k := i to j
      invariant OvercountsUntil(states[k], r, start)
    {
      StepKeepsOvercounting(states[k], steps[k], states[k + 1], r, start);
    }
  }

  /** A counter that disagrees does so for exactly as long as its window lasts: after the restart it agrees for good. */
  lemma DisagreementLastsItsWindow(states: seq<Db>, steps: seq<Step>, r: Id, i: nat, j: nat)
    requires ValidRun(states, steps) && Genesis(states[0]) && i <= j <= |steps| && !RecipientAgrees(states[i], r)
    ensures r in states[i].counters.recipients && r in states[j].counters.recipients
    ensures RecipientAgrees(states[j], r)
            <==> states[j].counters.recipients[r].windowStart != states[i].counters.recipients[r].windowStart
  {
    GenesisInv(states[0]);
    NeverUndercounts(states, steps, r, i);
    OvercountsAlong(states, steps, r, states[i].counters.recipients[r].windowStart, i, j);
  }
}
