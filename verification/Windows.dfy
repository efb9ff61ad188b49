/** The arithmetic of an hourly counter that restarts when its window is an hour old.

    `times` holds the issue times of everything counted. No clock is assumed:
    the first window may even have begun after the commands it counts. */
module Windows {
  import opened Schema

  /** Who was issued in [from, to). */
  ghost function Within(times: map<Id, Time>, from: Time, to: Time): set<Id> {
    set c | c in times && from <= times[c] < to
  }

  /** Who was issued in the hour from `t`. */
  ghost function InHour(times: map<Id, Time>, t: Time): set<Id> {
    Within(times, t, t + HOUR)
  }

  ghost function Since(times: map<Id, Time>, from: Time): set<Id> {
    set c | c in times && from <= times[c]
  }

  ghost predicate Latest(times: map<Id, Time>, now: Time) {
    forall c :: c in times ==> times[c] <= now
  }

  predicate Restarts(start: Time, now: Time) {
    start <= now - HOUR
  }

  /** The counter after one more accept. */
  function NextStart(start: Time, now: Time): Time {
    if Restarts(start, now) then now else start
  }

  function NextCount(start: Time, count: nat, now: Time): nat {
    if Restarts(start, now) then 1 else count + 1
  }

  /** Either nothing has restarted the window yet and it counts everything, or it counts what came since it
      started, and the hour before its start held at most `limit`. */
  ghost predicate Counts(times: map<Id, Time>, start: Time, count: nat, limit: nat) {
    || count == |times|
    || (count == |Since(times, start)| && count > 0 && |Within(times, start - HOUR + 1, start)| <= limit)
  }

  ghost predicate WindowInv(times: map<Id, Time>, start: Time, count: nat, limit: nat) {
    && count <= limit
    && (forall c :: c in times ==> times[c] < start + HOUR)
    && Counts(times, start, count, limit)
  }

  ghost predicate SlidingBound(times: map<Id, Time>, bound: nat) {
    forall t :: |InHour(times, t)| <= bound
  }

  lemma SubsetSize(a: set<Id>, b: set<Id>)
    requires a <= b
    ensures |a| <= |b|
  {
    assert b == a + (b - a);
  }

  lemma WithinPlus(times: map<Id, Time>, x: Id, now: Time, from: Time, to: Time)
    requires x !in times
    ensures Within(times[x := now], from, to) == Within(times, from, to) + (if from <= now < to then {x} else {})
    ensures x !in Within(times, from, to)
  {}

  lemma SincePlus(times: map<Id, Time>, x: Id, now: Time, from: Time)
    requires x !in times
    ensures Since(times[x := now], from) == Since(times, from) + (if from <= now then {x} else {})
    ensures x !in Since(times, from)
  {}

  lemma AllOf(times: map<Id, Time>, a: set<Id>)
    requires a <= times.Keys
    ensures |a| <= |times|
  {
    SubsetSize(a, times.Keys);
  }

  /** Whatever a restart leaves behind within the last hour was counted by the old window. */
  lemma RecentWasCounted(times: map<Id, Time>, start: Time, count: nat, limit: nat, from: Time, to: Time)
    requires WindowInv(times, start, count, limit) && start <= from
    ensures |Within(times, from, to)| <= count
  {
    AllOf(times, Within(times, from, to));
    SubsetSize(Within(times, from, to), Since(times, start));
  }

  /** Nothing was issued at or after the instant that restarts the window. */
  lemma NoneSince(times: map<Id, Time>, start: Time, now: Time)
    requires Restarts(start, now) && forall c :: c in times ==> times[c] < start + HOUR
    ensures Since(times, now) == {}
  {}

  lemma RestartKeepsWindow(times: map<Id, Time>, start: Time, count: nat, limit: nat, x: Id, now: Time)
    requires WindowInv(times, start, count, limit) && x !in times && Latest(times, now)
    requires limit > 0 && Restarts(start, now)
    ensures WindowInv(times[x := now], now, 1, limit)
  {
    NoneSince(times, start, now);
    SincePlus(times, x, now, now);
    RestartLeavesWithin(times, start, count, limit, x, now);
  }

  lemma RestartLeavesWithin(times: map<Id, Time>, start: Time, count: nat, limit: nat, x: Id, now: Time)
    requires WindowInv(times, start, count, limit) && x !in times && Restarts(start, now)
    ensures |Within(times[x := now], now - HOUR + 1, now)| <= limit
  {
    WithinPlus(times, x, now, now - HOUR + 1, now);
    RecentWasCounted(times, start, count, limit, now - HOUR + 1, now);
  }

  lemma ContinueKeepsWindow(times: map<Id, Time>, start: Time, count: nat, limit: nat, x: Id, now: Time)
    requires WindowInv(times, start, count, limit) && x !in times && Latest(times, now)
    requires !Restarts(start, now) && count < limit
    ensures WindowInv(times[x := now], start, count + 1, limit)
  {
    if count == |times| {
      assert |times[x := now]| == count + 1;
    } else {
      SincePlus(times, x, now, start);
      WithinPlus(times, x, now, start - HOUR + 1, start);
      var c :| c in Since(times, start);
      assert start <= times[c] <= now;
    }
  }

  lemma AcceptKeepsWindow(times: map<Id, Time>, start: Time, count: nat, limit: nat, x: Id, now: Time)
    requires WindowInv(times, start, count, limit) && x !in times && Latest(times, now)
    requires limit > 0 && (!Restarts(start, now) ==> count < limit)
    ensures WindowInv(times[x := now], NextStart(start, now), NextCount(start, count, now), limit)
  {
    if Restarts(start, now) {
      RestartKeepsWindow(times, start, count, limit, x, now);
    } else {
      ContinueKeepsWindow(times, start, count, limit, x, now);
    }
  }

  /** An accept keeps every sliding hour within twice the limit. */
  lemma AcceptKeepsSlidingBound(times: map<Id, Time>, start: Time, count: nat, limit: nat, x: Id, now: Time)
    requires WindowInv(times, start, count, limit) && SlidingBound(times, 2 * limit)
    requires x !in times && Latest(times, now)
    requires limit > 0 && (!Restarts(start, now) ==> count < limit)
    ensures SlidingBound(times[x := now], 2 * limit)
  {
    var next := times[x := now];
    forall t: Time
      ensures |InHour(next, t)| <= 2 * limit
    {
      assert |InHour(times, t)| <= 2 * limit;
      WithinPlus(times, x, now, t, t + HOUR);
      if t <= now < t + HOUR {
        HourBefore(times, start, count, limit, now, t);
      }
    }
  }

  lemma HourBefore(times: map<Id, Time>, start: Time, count: nat, limit: nat, now: Time, t: Time)
    requires WindowInv(times, start, count, limit) && t <= now < t + HOUR
    requires limit > 0 && (!Restarts(start, now) ==> count < limit)
    requires Latest(times, now)
    ensures |InHour(times, t)| <= 2 * limit - 1
  {
    var recent := InHour(times, t);
    if Restarts(start, now) {
      RecentWasCounted(times, start, count, limit, t, t + HOUR);
    } else if count == |times| {
      AllOf(times, recent);
    } else {
      var c :| c in Since(times, start);
      assert times[c] <= now;
      var before := Within(times, start - HOUR + 1, start);
      SubsetSize(recent, before + Since(times, start));
      assert |before + Since(times, start)| <= |before| + |Since(times, start)|;
    }
  }

  // Agreement with the log.

  /** The counter equals the number issued since its window started, and nothing is issued after the window's end. */
  ghost predicate Consistent(times: map<Id, Time>, start: Time, count: nat) {
    count == |Since(times, start)| && forall c :: c in times ==> times[c] < start + HOUR
  }

  /** The counter also counts something issued before its window started. */
  ghost predicate Overcounts(times: map<Id, Time>, start: Time, count: nat) {
    count > |Since(times, start)| && forall c :: c in times ==> times[c] < start + HOUR
  }

  /** An accept keeps a counter in agreement exactly when the window has begun by then, and else it overcounts. */
  lemma AcceptKeepsConsistent(times: map<Id, Time>, start: Time, count: nat, x: Id, now: Time)
    requires Consistent(times, start, count) && x !in times
    ensures if start <= now then Consistent(times[x := now], NextStart(start, now), NextCount(start, count, now))
            else Overcounts(times[x := now], NextStart(start, now), NextCount(start, count, now))
  {
    SincePlus(times, x, now, NextStart(start, now));
    if Restarts(start, now) {
      NoneSince(times, start, now);
    }
  }

  /** A counter that overcounts goes on doing so until its window restarts, and then agrees. */
  lemma AcceptKeepsOvercounting(times: map<Id, Time>, start: Time, count: nat, x: Id, now: Time)
    requires Overcounts(times, start, count) && x !in times
    ensures if Restarts(start, now) then Consistent(times[x := now], NextStart(start, now),
                                                    NextCount(start, count, now))
            else Overcounts(times[x := now], NextStart(start, now), NextCount(start, count, now))
  {
    SincePlus(times, x, now, NextStart(start, now));
    if Restarts(start, now) {
      NoneSince(times, start, now);
    }
  }

  // Spacing.

  ghost predicate Spaced(times: map<Id, Time>, gap: int) {
    forall c, d :: c in times && d in times && c != d ==> times[c] + gap <= times[d] || times[d] + gap <= times[c]
  }

  function CeilDiv(n: nat, d: nat): (q: nat)
    requires d > 0
    ensures d * (q - 1) < n <= d * q
    decreases n
  {
    if n == 0 then 0 else if n <= d then 1 else CeilDiv(n - d, d) + 1
  }

  lemma OneFits(times: map<Id, Time>, gap: nat, from: Time, length: nat)
    requires Spaced(times, gap) && length <= gap
    ensures |Within(times, from, from + length)| <= if length == 0 then 0 else 1
  {
    var first := Within(times, from, from + length);
    if first != {} {
      var c :| c in first;
      assert first == {c};
    }
  }

  lemma WithinSplits(times: map<Id, Time>, from: Time, mid: Time, to: Time)
    requires from <= mid <= to
    ensures |Within(times, from, to)| <= |Within(times, from, mid)| + |Within(times, mid, to)|
  {
    assert Within(times, from, to) == Within(times, from, mid) + Within(times, mid, to);
  }

  /** Times `gap` apart fit at most ceil(length / gap) into an interval. */
  lemma {:induction false} SpacedFit(times: map<Id, Time>, gap: nat, from: Time, length: nat)
    requires Spaced(times, gap) && gap > 0
    ensures |Within(times, from, from + length)| <= CeilDiv(length, gap)
    decreases length
  {
    if length <= gap {
      OneFits(times, gap, from, length);
    } else {
      OneFits(times, gap, from, gap);
      SpacedFit(times, gap, from + gap, length - gap);
      WithinSplits(times, from, from + gap, from + length);
    }
  }
}
