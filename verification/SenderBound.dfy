/** How many commands of one sender an hour can hold. Senders have no cooldown to order their accepts, so the bound of
    two windows rests on the clocks that the accepts read, and exactly on these lagging by no more than a
    millisecond. */
module SenderBound {
  import opened Schema
  import opened Protocol
  import opened Admission
  import opened Windows
  import opened RateLimits
  import opened Reachability
  import opened SenderAgreement

  // The arithmetic of a window that late accepts may still fill.

  /** What was counted in the current window, in the one before, and earlier. A window is over before the next starts,
      and a start after the first is the time of an accept. */
  ghost predicate Layers(times: map<Id, Time>, older: set<Id>, previous: set<Id>, current: set<Id>, start: Time,
                         count: nat, limit: nat) {
    && times.Keys == older + previous + current
    && |previous| <= limit && |current| == count <= limit
    && (forall c :: c in older ==> times[c] < start - HOUR)
    && (forall c :: c in previous ==> times[c] < start)
    && (forall c :: c in current ==> times[c] < start + HOUR)
    && (older + previous != {} ==> exists c :: c in times && start <= times[c])
  }

  ghost predicate LayeredWindow(times: map<Id, Time>, start: Time, count: nat, limit: nat) {
    exists older, previous, current :: Layers(times, older, previous, current, start, count, limit)
  }

  lemma RestartKeepsLayers(times: map<Id, Time>, older: set<Id>, previous: set<Id>, current: set<Id>, start: Time,
                           count: nat, limit: nat, x: Id, now: Time)
    requires Layers(times, older, previous, current, start, count, limit) && x !in times
    requires limit > 0 && Restarts(start, now)
    ensures Layers(times[x := now], older + previous, current, {x}, now, 1, limit)
  {
    OlderIsOver(times, older, previous, current, start, count, limit, now);
    var next := times[x := now];
    assert next.Keys == times.Keys + {x};
    assert x in next && now <= next[x];
  }

  lemma OlderIsOver(times: map<Id, Time>, older: set<Id>, previous: set<Id>, current: set<Id>, start: Time,
                    count: nat, limit: nat, now: Time)
    requires Layers(times, older, previous, current, start, count, limit) && Restarts(start, now)
    ensures forall c :: c in older + previous ==> times[c] < now - HOUR
    ensures forall c :: c in current ==> times[c] < now
  {}

  lemma ContinueKeepsLayers(times: map<Id, Time>, older: set<Id>, previous: set<Id>, current: set<Id>, start: Time,
                            count: nat, limit: nat, x: Id, now: Time)
    requires Layers(times, older, previous, current, start, count, limit) && x !in times
    requires !Restarts(start, now) && count < limit
    ensures Layers(times[x := now], older, previous, current + {x}, start, count + 1, limit)
  {
    var next := times[x := now];
    if older + previous != {} {
      var c :| c in times && start <= times[c];
      assert c in next && start <= next[c];
    }
  }

  lemma AcceptKeepsLayers(times: map<Id, Time>, older: set<Id>, previous: set<Id>, current: set<Id>, start: Time,
                          count: nat, limit: nat, x: Id, now: Time)
    requires Layers(times, older, previous, current, start, count, limit) && x !in times
    requires limit > 0 && (!Restarts(start, now) ==> count < limit)
    ensures LayeredWindow(times[x := now], NextStart(start, now), NextCount(start, count, now), limit)
  {
    if Restarts(start, now) {
      RestartKeepsLayers(times, older, previous, current, start, count, limit, x, now);
    } else {
      ContinueKeepsLayers(times, older, previous, current, start, count, limit, x, now);
    }
  }

  /** With accepts at most a millisecond late, no hour reaches into three windows. */
  lemma AcceptKeepsBound(times: map<Id, Time>, older: set<Id>, previous: set<Id>, current: set<Id>, start: Time,
                         count: nat, limit: nat, x: Id, now: Time)
    requires Layers(times, older, previous, current, start, count, limit) && x !in times
    requires limit > 0 && (!Restarts(start, now) ==> count < limit)
    requires SlidingBound(times, 2 * limit) && Latest(times, now + 1)
    ensures SlidingBound(times[x := now], 2 * limit)
  {
    var next := times[x := now];
    forall t: Time
      ensures |InHour(next, t)| <= 2 * limit
    {
      assert |InHour(times, t)| <= 2 * limit;
      WithinPlus(times, x, now, t, t + HOUR);
      if t <= now < t + HOUR {
        HourHoldsTwoLayers(times, older, previous, current, start, count, limit, now, t);
      }
    }
  }

  lemma HourHoldsTwoLayers(times: map<Id, Time>, older: set<Id>, previous: set<Id>, current: set<Id>, start: Time,
                           count: nat, limit: nat, now: Time, t: Time)
    requires Layers(times, older, previous, current, start, count, limit) && Latest(times, now + 1)
    requires limit > 0 && (!Restarts(start, now) ==> count < limit) && t <= now < t + HOUR
    ensures |InHour(times, t)| <= 2 * limit - 1
  {
    if Restarts(start, now) {
      SubsetSize(InHour(times, t), current);
    } else {
      forall c | c in older
        ensures times[c] < t
      {
        var late :| late in times && start <= times[late];
      }
      SubsetSize(InHour(times, t), previous + current);
      assert |previous + current| <= |previous| + |current|;
    }
  }

  // Runs.

  ghost predicate AdmitsFrom(db: Db, step: Step, a: Id) {
    StepAdmits(db, step) && step.input.actor == a
  }

  /** Every command of `a` reads a clock that lags each earlier one's by less than `bound`. */
  ghost predicate SendersLag(states: seq<Db>, steps: seq<Step>, a: Id, bound: int)
    requires |states| > |steps|
  {
    forall i: nat, j: nat {:trigger AdmitsFrom(states[i], steps[i], a), AdmitsFrom(states[j], steps[j], a)} ::
      i < j < |steps| && AdmitsFrom(states[i], steps[i], a) && AdmitsFrom(states[j], steps[j], a) ==>
        steps[i].input.now - steps[j].input.now < bound
  }

  ghost predicate SenderBounded(db: Db, a: Id) {
    var times := TimesFrom(db.ledger.commands, a);
    && SlidingBound(times, 2 * SENDER_LIMIT)
    && if a in db.counters.senders then
         var row := db.counters.senders[a];
         row.limit == SENDER_LIMIT && LayeredWindow(times, row.windowStart, row.accepted, SENDER_LIMIT)
       else times == map[]
  }

  /** The counter an accept finds is below the sender's limit. */
  lemma AcceptWithinLimit(db: Db, step: Step)
    requires StepAdmits(db, step)
    ensures var row := SenderRow(db, step);
            row.limit > 0 && (!Restarts(row.windowStart, step.input.now) ==> row.accepted < row.limit)
  {
    AdmitEffect(db, step.input, step.request, step.command, step.clock);
  }

  lemma NothingSent(limit: nat, start: Time)
    ensures SlidingBound(map[], 2 * limit) && LayeredWindow(map[], start, 0, limit)
  {
    var none: map<Id, Time> := map[];
    assert forall t :: InHour(none, t) == {};
    assert Layers(none, {}, {}, {}, start, 0, limit);
  }

  lemma SendKeepsBound(db: Db, step: Step, a: Id)
    requires AdmitsFrom(db, step, a) && SenderBounded(db, a)
    requires Latest(TimesFrom(db.ledger.commands, a), step.input.now + 1)
    ensures SenderBounded(Next(db, step), a)
  {
    var times, row, next, now := TimesFrom(db.ledger.commands, a), SenderRow(db, step), Next(db, step), step.input.now;
    AcceptWithinLimit(db, step);
    SenderCounted(db, step, a);
    AdmitEffect(db, step.input, step.request, step.command, step.clock);
    AdmitAddsTime(db.ledger.commands, step.command, next.ledger.commands[step.command], a);
    NothingSent(SENDER_LIMIT, row.windowStart);
    var older, previous, current :|
      Layers(times, older, previous, current, row.windowStart, row.accepted, SENDER_LIMIT);
    AcceptKeepsLayers(times, older, previous, current, row.windowStart, row.accepted, SENDER_LIMIT, step.command, now);
    AcceptKeepsBound(times, older, previous, current, row.windowStart, row.accepted, SENDER_LIMIT, step.command, now);
  }

  lemma OthersKeepSender(db: Db, step: Step, a: Id)
    requires !AdmitsFrom(db, step, a)
    ensures var before, after := db.counters.senders, Next(db, step).counters.senders;
            && TimesFrom(Next(db, step).ledger.commands, a) == TimesFrom(db.ledger.commands, a)
            && (a in before ==> a in after && after[a] == before[a])
            && (a !in before && a in after ==> after[a] == SenderState(after[a].windowStart, 0, SENDER_LIMIT))
  {
    var next := Next(db, step);
    if StepAdmits(db, step) {
      AdmitEffect(db, step.input, step.request, step.command, step.clock);
      AdmitAddsTime(db.ledger.commands, step.command, next.ledger.commands[step.command], a);
      SenderCounted(db, step, a);
    } else {
      StepProgress(db, step);
      StepKeepsSenderRows(db, step);
      ProgressKeepsTimes(db.ledger.commands, next.ledger.commands, a);
    }
  }

  lemma OthersKeepBound(db: Db, step: Step, a: Id)
    requires !AdmitsFrom(db, step, a) && SenderBounded(db, a)
    ensures SenderBounded(Next(db, step), a)
  {
    var next := Next(db, step);
    OthersKeepSender(db, step, a);
    if a !in db.counters.senders && a in next.counters.senders {
      NothingSent(SENDER_LIMIT, next.counters.senders[a].windowStart);
    }
  }

  /** Nothing has been issued and no sender's counter exists. */
  ghost predicate Idle(db: Db) {
    Inv(db) && db.ledger.commands == map[] && db.counters.senders == map[]
  }

  /** What `a` has sent is known to lag each of its later commands by less than `bound`. */
  ghost predicate SentBefore(db: Db, states: seq<Db>, steps: seq<Step>, a: Id, k: nat, bound: int)
    requires |states| > |steps|
  {
    forall j: nat {:trigger AdmitsFrom(states[j], steps[j], a)} ::
      k <= j < |steps| && AdmitsFrom(states[j], steps[j], a) ==>
        Latest(TimesFrom(db.ledger.commands, a), steps[j].input.now + bound - 1)
  }

  lemma SentStaysBefore(states: seq<Db>, steps: seq<Step>, a: Id, k: nat, bound: int)
    requires |states| == |steps| + 1 && k < |steps| && Transition(states[k], steps[k], states[k + 1])
    requires SendersLag(states, steps, a, bound) && SentBefore(states[k], states, steps, a, k, bound)
    ensures SentBefore(states[k + 1], states, steps, a, k + 1, bound)
  {
    if AdmitsFrom(states[k], steps[k], a) {
      AdmitEffect(states[k], steps[k].input, steps[k].request, steps[k].command, steps[k].clock);
      AdmitAddsTime(states[k].ledger.commands, steps[k].command,
                    states[k + 1].ledger.commands[steps[k].command], a);
    } else {
      OthersKeepSender(states[k], steps[k], a);
    }
  }

  lemma BoundedOnce(states: seq<Db>, steps: seq<Step>, a: Id, k: nat)
    requires |states| == |steps| + 1 && k < |steps| && Transition(states[k], steps[k], states[k + 1])
    requires SentBefore(states[k], states, steps, a, k, 2) && SenderBounded(states[k], a)
    ensures SenderBounded(states[k + 1], a)
  {
    if AdmitsFrom(states[k], steps[k], a) {
      SendKeepsBound(states[k], steps[k], a);
    } else {
      OthersKeepBound(states[k], steps[k], a);
    }
  }

  /** If no command of a sender reads a clock more than a millisecond before an earlier one's, no hour of any run holds
      more than twice the sender's limit. */
  lemma SenderHourlyBound(states: seq<Db>, steps: seq<Step>, a: Id, i: nat, from: Time)
    requires ValidRun(states, steps) && Idle(states[0]) && SendersLag(states, steps, a, 2) && i <= |steps|
    ensures |InHour(TimesFrom(states[i].ledger.commands, a), from)| <= 2 * SENDER_LIMIT
  {
    assert TimesFrom(states[0].ledger.commands, a) == map[];
    NothingSent(SENDER_LIMIT, 0);
    for k := 0 to i
      invariant SentBefore(states[k], states, steps, a, k, 2) && SenderBounded(states[k], a)
    {
      assert Transition(states[k], steps[k], states[k + 1]);
      SentStaysBefore(states, steps, a, k, 2);
      BoundedOnce(states, steps, a, k);
    }
  }
}
