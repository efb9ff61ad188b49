/** The same for senders' counters, which no database clock dates: issues in order are all that they need. */
module SenderAgreement {
  import opened Schema
  import opened Protocol
  import opened Admission
  import opened Windows
  import opened RateLimits
  import opened CounterAgreement

  ghost predicate SenderAgrees(db: Db, a: Id) {
    var times := TimesFrom(db.ledger.commands, a);
    if a in db.counters.senders
    then Consistent(times, db.counters.senders[a].windowStart, db.counters.senders[a].accepted)
    else times == map[]
  }

  ghost predicate SenderRowsKept(a: map<Id, SenderState>, b: map<Id, SenderState>) {
    && (forall s :: s in a ==> s in b && b[s] == a[s])
    && (forall s :: s in b && s !in a ==> b[s] == SenderState(b[s].windowStart, 0, SENDER_LIMIT))
  }

  lemma LocksKeepSenders(db: Db, step: Step)
    requires step.SetPaused? || step.SetGrant? || step.Disconnect?
    ensures Next(db, step).counters.senders == db.counters.senders
  {}

  lemma OnlyIssuesAddSenders(db: Db, step: Step)
    requires !step.Issue?
    ensures Next(db, step).counters.senders == db.counters.senders
  {
    if step.SetPaused? || step.SetGrant? || step.Disconnect? {
      LocksKeepSenders(db, step);
    } else if step.Invite? || step.Accept? || step.Cleanup? {
      InvitationsKeepRows(db, step);
    } else if !step.Environment? {
      OthersKeepRows(db, step);
    }
  }

  lemma StepKeepsSenderRows(db: Db, step: Step)
    requires !StepAdmits(db, step)
    ensures SenderRowsKept(db.counters.senders, Next(db, step).counters.senders)
  {
    if step.Issue? {
      NoAdmitEffect(db, step.input, step.request, step.command, step.clock);
    } else {
      OnlyIssuesAddSenders(db, step);
    }
  }

  /** The sender's row an accept counts on: the stored one, or a new one dated by the accept itself. */
  function SenderRow(db: Db, step: Step): SenderState
    requires step.Issue?
  {
    var a := step.input.actor;
    if a in db.counters.senders then db.counters.senders[a] else SenderState(step.input.now, 0, SENDER_LIMIT)
  }

  lemma SenderCounted(db: Db, step: Step, a: Id)
    requires StepAdmits(db, step)
    ensures var before, after := db.counters.senders, Next(db, step).counters.senders;
            if a == step.input.actor then
              && a in after && after[a].limit == SenderRow(db, step).limit
              && after[a].windowStart == NextStart(SenderRow(db, step).windowStart, step.input.now)
              && after[a].accepted == NextCount(SenderRow(db, step).windowStart, SenderRow(db, step).accepted,
                                                step.input.now)
            else (a in before <==> a in after) && (a in before ==> after[a] == before[a])
  {
    AdmitEffect(db, step.input, step.request, step.command, step.clock);
  }

  /** If the step admits a command from `a`, the window it counts it in has begun. */
  ghost predicate SendsInTime(db: Db, step: Step, a: Id) {
    StepAdmits(db, step) && step.input.actor == a ==> SenderRow(db, step).windowStart <= step.input.now
  }

  lemma AdmitAgreesExactly(db: Db, step: Step, a: Id)
    requires StepAdmits(db, step) && SenderAgrees(db, a)
    ensures SenderAgrees(Next(db, step), a) <==> SendsInTime(db, step, a)
  {
    var next, input := Next(db, step), step.input;
    AdmitEffect(db, input, step.request, step.command, step.clock);
    AdmitAddsTime(db.ledger.commands, step.command, next.ledger.commands[step.command], a);
    SenderCounted(db, step, a);
    if a == input.actor {
      var row := SenderRow(db, step);
      AcceptKeepsConsistent(TimesFrom(db.ledger.commands, a), row.windowStart, row.accepted, step.command, input.now);
    }
  }

  lemma SenderAgreesOnce(db: Db, step: Step, next: Db, a: Id)
    requires Transition(db, step, next) && SenderAgrees(db, a)
    ensures SenderAgrees(next, a) <==> SendsInTime(db, step, a)
  {
    if StepAdmits(db, step) {
      AdmitAgreesExactly(db, step, a);
    } else {
      StepProgress(db, step);
      StepKeepsSenderRows(db, step);
      ProgressKeepsTimes(db.ledger.commands, next.ledger.commands, a);
    }
  }

  ghost predicate SenderAgreesThroughout(states: seq<Db>, steps: seq<Step>, a: Id)
    requires |states| == |steps| + 1
  {
    forall i: nat :: i <= |steps| ==> SenderAgrees(states[i], a)
  }

  ghost predicate SendsInTimeThroughout(states: seq<Db>, steps: seq<Step>, a: Id)
    requires |states| == |steps| + 1
  {
    forall i: nat {:trigger steps[i]} :: i < |steps| ==> SendsInTime(states[i], steps[i], a)
  }

  lemma SenderAgreesWhileInTime(states: seq<Db>, steps: seq<Step>, a: Id, i: nat)
    requires ValidRun(states, steps) && SenderAgrees(states[0], a)
    requires SendsInTimeThroughout(states, steps, a) && i <= |steps|
    ensures SenderAgrees(states[i], a)
  {
    for k := 0 to i
      invariant SenderAgrees(states[k], a)
    {
      assert SendsInTime(states[k], steps[k], a);
      SenderAgreesOnce(states[k], steps[k], states[k + 1], a);
    }
  }

  /** The same holds of a sender's counter, in which no database clock takes part. */
  lemma SenderAgreesExactly(states: seq<Db>, steps: seq<Step>, a: Id)
    requires ValidRun(states, steps) && Genesis(states[0])
    ensures SenderAgreesThroughout(states, steps, a) <==> SendsInTimeThroughout(states, steps, a)
  {
    assert TimesFrom(states[0].ledger.commands, a) == map[];
    if SenderAgreesThroughout(states, steps, a) {
      forall i: nat | i < |steps|
        ensures SendsInTime(states[i], steps[i], a)
      {
        SenderAgreesOnce(states[i], steps[i], states[i + 1], a);
      }
    }
    if SendsInTimeThroughout(states, steps, a) {
      forall i: nat | i <= |steps| ensures SenderAgrees(states[i], a) { SenderAgreesWhileInTime(states, steps, a, i); }
    }
  }

  // Under ordered clocks.

  /** No issue is dated before an earlier one. */
  ghost predicate IssuesInOrder(steps: seq<Step>) {
    forall i, j {:trigger steps[i], steps[j]} :: 0 <= i < j < |steps| && steps[i].Issue? && steps[j].Issue? ==>
                                                   steps[i].input.now <= steps[j].input.now
  }

  /** No sender's window starts after `now`. */
  ghost predicate SendersBefore(db: Db, now: Time) {
    forall a :: a in db.counters.senders ==> db.counters.senders[a].windowStart <= now
  }

  lemma StepKeepsSendersBefore(db: Db, step: Step, next: Db, now: Time)
    requires Transition(db, step, next) && SendersBefore(db, now) && (step.Issue? ==> step.input.now <= now)
    ensures SendersBefore(next, now)
  {
    if StepAdmits(db, step) {
      forall a | a in next.counters.senders
        ensures next.counters.senders[a].windowStart <= now
      {
        SenderCounted(db, step, a);
      }
    } else {
      StepDatesSenders(db, step);
    }
  }

  lemma StepDatesSenders(db: Db, step: Step)
    requires !StepAdmits(db, step)
    ensures forall a :: a in Next(db, step).counters.senders ==>
                          || (a in db.counters.senders && Next(db, step).counters.senders[a] == db.counters.senders[a])
                          || (step.Issue? && Next(db, step).counters.senders[a].windowStart == step.input.now)
  {
    if !step.Issue? {
      OnlyIssuesAddSenders(db, step);
    }
  }

  lemma SendersBeforeIssue(states: seq<Db>, steps: seq<Step>, i: nat)
    requires ValidRun(states, steps) && Genesis(states[0]) && IssuesInOrder(steps) && i < |steps| && steps[i].Issue?
    ensures SendersBefore(states[i], steps[i].input.now)
  {
    for k := 0 to i
      invariant SendersBefore(states[k], steps[i].input.now)
    {
      StepKeepsSendersBefore(states[k], steps[k], states[k + 1], steps[i].input.now);
    }
  }

  /** With issues in order every sender's counter agrees with the log throughout, whatever every other clock reads. */
  lemma SendersAgree(states: seq<Db>, steps: seq<Step>, a: Id)
    requires ValidRun(states, steps) && Genesis(states[0]) && IssuesInOrder(steps)
    ensures SenderAgreesThroughout(states, steps, a)
  {
    forall i: nat | i < |steps|
      ensures SendsInTime(states[i], steps[i], a)
    {
      if steps[i].Issue? {
        SendersBeforeIssue(states, steps, i);
      }
    }
    SenderAgreesExactly(states, steps, a);
  }

  /** So it is for all counters if, besides, no recipient's row is dated ahead of a command admitted to it. */
  lemma CountersAgree(states: seq<Db>, steps: seq<Step>)
    requires ValidRun(states, steps) && Genesis(states[0]) && IssuesInOrder(steps)
    requires forall r: Id :: DatedInTime(states, steps, r)
    ensures forall p: Id :: AgreesThroughout(states, steps, p) && SenderAgreesThroughout(states, steps, p)
  {
    forall p: Id
      ensures AgreesThroughout(states, steps, p) && SenderAgreesThroughout(states, steps, p)
    {
      assert DatedInTime(states, steps, p);
      AgreesExactlyWhenDatedInTime(states, steps, p);
      SendersAgree(states, steps, p);
    }
  }
}
