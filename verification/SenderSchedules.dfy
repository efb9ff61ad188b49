/** Any times that the window arithmetic admits are the times of some sender's commands in some run; two such schedules
    show that the bound on a sender's hour needs its clocks, and that without them there is no bound at all. */
module SenderSchedules {
  import opened Schema
  import opened Wrappers
  import opened Protocol
  import opened Admission
  import opened Windows
  import opened RateLimits
  import opened Reachability
  import opened Scenario
  import opened SenderBound
  import Domain
  import FleetInvariants
  import Issuance

  /** Person 1 may eject each of `n` others, from 2 on, who all have a device of their own number. */
  function Recipients(n: nat): set<Id> {
    Below(n + 2) - {0, 1}
  }

  function Audience(n: nat): Db {
    var person := Person(true, ParticipationReady, Available);
    var people, recipients := Below(n + 2) - {0}, Recipients(n);
    var policy := Policy(AllAuthenticated, AuthenticatedAccounts, false, 1, 60);
    Db(Directory(map p | p in people :: person, SystemPolicy(true, Some(1)),
                 map r | r in recipients :: Entitlement(1, None)),
       Permissions(map r | r in recipients :: policy, {}, map[], {}, map[]),
       Fleet(map d | d in recipients :: Device(d, Ready, Available, true), map[], map[], map[]),
       Counters(map[], map[]), Ledger(map[], map[], map[], map[]))
  }

  lemma AudienceFleet(n: nat)
    ensures FleetInvariants.FleetInv(Audience(n))
  {}

  lemma AudienceIdle(n: nat)
    ensures Idle(Audience(n))
  {
    AudienceFleet(n);
    GenesisInv(Audience(n).(fleet := Fleet(map[], map[], map[], map[])));
  }

  // The sender's counter after the first `k` of some commands issued at the given times.

  function Start(times: seq<Time>, k: nat): Time
    requires 0 < |times| && k <= |times|
  {
    if k == 0 then times[0] else NextStart(Start(times, k - 1), times[k - 1])
  }

  function Count(times: seq<Time>, k: nat): nat
    requires 0 < |times| && k <= |times|
  {
    if k == 0 then 0 else NextCount(Start(times, k - 1), Count(times, k - 1), times[k - 1])
  }

  predicate PermittedAt(times: seq<Time>, k: nat)
    requires k < |times|
  {
    !Restarts(Start(times, k), times[k]) ==> Count(times, k) < SENDER_LIMIT
  }

  ghost predicate Permitted(times: seq<Time>) {
    0 < |times| && forall k: nat :: k < |times| ==> PermittedAt(times, k)
  }

  /** The k-th command, to a recipient of its own. */
  function Send(k: nat, now: Time): Step {
    Issue(Issuance.Input(1, k + 2, k, Eject, None, now), k, k, now)
  }

  function Row(times: seq<Time>, k: nat): SenderState
    requires 0 < |times| && k <= |times|
  {
    SenderState(Start(times, k), Count(times, k), SENDER_LIMIT)
  }

  ghost predicate Sent(db: Db, times: seq<Time>, k: nat) {
    var start := Audience(|times|);
    && 0 < |times| && k <= |times|
    && db.dir == start.dir && db.perms == start.perms && db.fleet == start.fleet
    && (forall r :: r in db.counters.recipients ==> r < k + 2)
    && db.counters.senders == (if k == 0 then map[] else map[1 := Row(times, k)])
    && (forall r :: r in db.ledger.requests ==> r < k && db.ledger.requests[r].key < k)
    && SentAt(db.ledger.commands, times, k)
  }

  ghost predicate SentAt(commands: map<Id, Command>, times: seq<Time>, k: nat)
    requires k <= |times|
  {
    && (forall c :: c in commands ==> c < k)
    && (forall c: nat :: c < k ==> c in commands && commands[c].actor == 1 && commands[c].issuedAt == times[c])
  }

  lemma SendPrepares(db: Db, times: seq<Time>, k: nat)
    requires Sent(db, times, k) && k < |times|
    ensures Issuance.Prepared(db, Send(k, times[k]).input, times[k]).counters ==
            Counters(db.counters.recipients[k + 2 := RecipientState(times[k], 0, None, 0)], map[1 := Row(times, k)])
  {}

  lemma SendAllowed(db: Db, times: seq<Time>, k: nat)
    requires Sent(db, times, k) && k < |times| && PermittedAt(times, k)
    ensures var loaded := LoadedFor(db, Send(k, times[k]).input, times[k]);
            && loaded.Some? && loaded.value.device == Some(k + 2)
            && Domain.AuthorizeEject(loaded.value.facts, times[k]).Allow?
  {
    SendPrepares(db, times, k);
    assert k + 2 in Recipients(|times|);
    assert Issuance.IsLiveDevice(db.fleet.devices, k + 2, k + 2);
  }

  lemma SendAdmitted(db: Db, times: seq<Time>, k: nat)
    requires Sent(db, times, k) && k < |times| && PermittedAt(times, k)
    ensures StepAdmits(db, Send(k, times[k]))
  {
    SendAllowed(db, times, k);
    assert Issuance.FindRequest(db.ledger, 1, k).None?;
    AllowedAdmits(db, Send(k, times[k]).input, k, k, times[k]);
  }

  lemma RowCounts(times: seq<Time>, k: nat)
    requires k < |times|
    ensures Issuance.CountSender(Row(times, k), times[k]) == Row(times, k + 1)
  {}

  lemma SendCounts(counters: Counters, times: seq<Time>, k: nat)
    requires k < |times| && k + 2 in counters.recipients && counters.senders == map[1 := Row(times, k)]
    ensures var counted := Issuance.Counted(counters, Send(k, times[k]).input, 60);
            counted.recipients.Keys == counters.recipients.Keys && counted.senders == map[1 := Row(times, k + 1)]
  {
    RowCounts(times, k);
  }

  lemma SendWrites(db: Db, times: seq<Time>, k: nat)
    requires Sent(db, times, k) && k < |times| && PermittedAt(times, k)
    ensures var step := Send(k, times[k]);
            var next := Next(db, step);
            && next.dir == db.dir && next.perms == db.perms && next.fleet == db.fleet
            && next.counters.recipients.Keys == db.counters.recipients.Keys + {k + 2}
            && next.counters.senders == map[1 := Row(times, k + 1)]
            && next.ledger.requests == db.ledger.requests[k := Issuance.RequestRow(step.input, WasQueued(k))]
            && next.ledger.commands == db.ledger.commands[k := Issuance.CommandRow(step.input, k, k + 2)]
  {
    SendAdmitted(db, times, k);
    SendAllowed(db, times, k);
    SendPrepares(db, times, k);
    SendCounts(Issuance.Prepared(db, Send(k, times[k]).input, times[k]).counters, times, k);
    AdmitEffect(db, Send(k, times[k]).input, k, k, times[k]);
  }

  lemma SentAtGrows(commands: map<Id, Command>, times: seq<Time>, k: nat)
    requires k < |times| && SentAt(commands, times, k)
    ensures SentAt(commands[k := Issuance.CommandRow(Send(k, times[k]).input, k, k + 2)], times, k + 1)
  {}

  lemma SendReaches(db: Db, times: seq<Time>, k: nat)
    requires Sent(db, times, k) && k < |times| && PermittedAt(times, k)
    ensures Sent(Next(db, Send(k, times[k])), times, k + 1)
  {
    SendWrites(db, times, k);
    SentAtGrows(db.ledger.commands, times, k);
  }

  ghost predicate Follows(steps: seq<Step>, times: seq<Time>, k: nat)
    requires k <= |times|
  {
    |steps| == k && forall j: nat {:trigger steps[j]} :: j < k ==> steps[j] == Send(j, times[j])
  }

  lemma SendNext(db: Db, times: seq<Time>, k: nat) returns (next: Db)
    requires Sent(db, times, k) && k < |times| && PermittedAt(times, k)
    ensures Transition(db, Send(k, times[k]), next) && Sent(next, times, k + 1)
  {
    SendReaches(db, times, k);
    next := Next(db, Send(k, times[k]));
  }

  lemma AppendSend(steps: seq<Step>, times: seq<Time>, k: nat)
    requires k < |times| && Follows(steps, times, k)
    ensures Follows(steps + [Send(k, times[k])], times, k + 1)
  {}

  lemma NothingSentYet(times: seq<Time>)
    requires 0 < |times|
    ensures Sent(Audience(|times|), times, 0)
  {}

  /** Whatever times the window arithmetic permits, some run sends commands at exactly those times. */
  lemma {:induction false} ScheduleRun(times: seq<Time>, k: nat) returns (states: seq<Db>, steps: seq<Step>)
    requires Permitted(times) && k <= |times|
    ensures ValidRun(states, steps) && states[0] == Audience(|times|)
    ensures Follows(steps, times, k) && Sent(states[k], times, k)
  {
    if k == 0 {
      states, steps := [Audience(|times|)], [];
      NothingSentYet(times);
    } else {
      states, steps := ScheduleRun(times, k - 1);
      assert PermittedAt(times, k - 1);
      var next := SendNext(states[k - 1], times, k - 1);
      AppendStep(states, steps, Send(k - 1, times[k - 1]), next);
      AppendSend(steps, times, k - 1);
      states, steps := states + [next], steps + [Send(k - 1, times[k - 1])];
    }
  }

  // A lag of two milliseconds is enough to break the bound.

  /** Four commands at the end of a window, five in the next, and two late ones in a third: eleven in an hour. */
  const LAGGING: seq<Time> := [
    1 - HOUR, 0, 0, 0, 0, 1, 1, 1, 1, 1, HOUR + 1, HOUR - 1, HOUR - 1]

  lemma {:induction false} LaggingRow(k: nat)
    requires k <= 13
    ensures Start(LAGGING, k) == (if k <= 5 then 1 - HOUR else if k <= 10 then 1 else HOUR + 1)
    ensures Count(LAGGING, k) == (if k <= 5 then k else if k <= 10 then k - 5 else k - 10)
  {
    if k > 0 {
      LaggingRow(k - 1);
    }
  }

  lemma LaggingPermitted()
    ensures Permitted(LAGGING)
  {
    forall k: nat | k < 13
      ensures PermittedAt(LAGGING, k)
    {
      LaggingRow(k);
    }
  }

  lemma LaggingLags(states: seq<Db>, steps: seq<Step>, bound: int)
    requires |states| > |steps| && Follows(steps, LAGGING, 13) && bound > 2
    ensures SendersLag(states, steps, 1, bound)
  {
    forall i: nat, j: nat | i < j < 13
      ensures steps[i].input.now - steps[j].input.now < bound
    {
      assert steps[i] == Send(i, LAGGING[i]) && steps[j] == Send(j, LAGGING[j]);
    }
  }

  lemma InTheHour(commands: map<Id, Command>, times: seq<Time>, ids: set<Id>)
    requires SentAt(commands, times, |times|) && forall k :: k in ids ==> k < |times| && 0 <= times[k] < HOUR
    ensures |InHour(TimesFrom(commands, 1), 0)| >= |ids|
  {
    SubsetSize(ids, InHour(TimesFrom(commands, 1), 0));
  }

  lemma LaggingFillsHour(commands: map<Id, Command>)
    requires SentAt(commands, LAGGING, 13)
    ensures |InHour(TimesFrom(commands, 1), 0)| > 2 * SENDER_LIMIT
  {
    var ids := (Below(13) - {0}) - {10};
    forall k | k in ids ensures k < 13 && 0 <= LAGGING[k] < HOUR { LaggingInHour(k); }
    InTheHour(commands, LAGGING, ids);
  }

  lemma LaggingInHour(k: nat)
    requires k < 13 && k != 0 && k != 10
    ensures 0 <= LAGGING[k] < HOUR
  {}

  lemma LaggingRun(bound: int) returns (states: seq<Db>, steps: seq<Step>)
    requires bound > 2
    ensures ValidRun(states, steps) && Idle(states[0]) && SendersLag(states, steps, 1, bound)
    ensures |InHour(TimesFrom(states[|steps|].ledger.commands, 1), 0)| > 2 * SENDER_LIMIT
  {
    LaggingPermitted();
    states, steps := ScheduleRun(LAGGING, 13);
    AudienceIdle(13);
    LaggingLags(states, steps, bound);
    LaggingFillsHour(states[13].ledger.commands);
  }

  /** No hour holds more than twice the sender's limit, in any run from an idle deployment in which each command of the
      sender reads a clock that lags each earlier one's by less than `bound` milliseconds. */
  ghost predicate BoundedWithLag(bound: int) {
    forall states: seq<Db>, steps: seq<Step>, a: Id, from: Time ::
      ValidRun(states, steps) && Idle(states[0]) && SendersLag(states, steps, a, bound) ==>
        |InHour(TimesFrom(states[|steps|].ledger.commands, a), from)| <= 2 * SENDER_LIMIT
  }

  lemma SmallerLag(states: seq<Db>, steps: seq<Step>, a: Id, bound: int)
    requires |states| > |steps| && SendersLag(states, steps, a, bound) && bound <= 2
    ensures SendersLag(states, steps, a, 2)
  {}

  /** The bound on a sender's hour holds exactly when the sender's clocks are known to lag by at most a millisecond. */
  lemma SenderLagExactly(bound: int)
    ensures BoundedWithLag(bound) <==> bound <= 2
  {
    if bound <= 2 {
      forall states: seq<Db>, steps: seq<Step>, a: Id, from: Time
        | ValidRun(states, steps) && Idle(states[0]) && SendersLag(states, steps, a, bound)
        ensures |InHour(TimesFrom(states[|steps|].ledger.commands, a), from)| <= 2 * SENDER_LIMIT
      {
        SmallerLag(states, steps, a, bound);
        SenderHourlyBound(states, steps, a, |steps|, from);
      }
    } else {
      var states, steps := LaggingRun(bound);
    }
  }

  // With no bound on the lag an hour can hold any number.

  /** Each window is opened on the hour and then filled with commands dated zero. */
  function BackdatedAt(k: nat): Time {
    if k % 5 == 0 then k / 5 * HOUR else 0
  }

  function Backdated(m: nat): (times: seq<Time>)
    ensures |times| == 5 * m && forall k: nat :: k < 5 * m ==> times[k] == BackdatedAt(k)
  {
    seq(5 * m, k requires 0 <= k => BackdatedAt(k))
  }

  lemma {:induction false} BackdatedRow(m: nat, k: nat)
    requires 0 < m && k <= 5 * m
    ensures Start(Backdated(m), k) == (if k == 0 then 0 else (k - 1) / 5 * HOUR)
    ensures Count(Backdated(m), k) == (if k == 0 then 0 else (k - 1) % 5 + 1)
    decreases k
  {
    if k > 0 {
      BackdatedRow(m, k - 1);
    }
  }

  lemma BackdatedPermitted(m: nat)
    requires 0 < m
    ensures Permitted(Backdated(m))
  {
    forall k: nat | k < 5 * m
      ensures PermittedAt(Backdated(m), k)
    {
      BackdatedRow(m, k);
    }
  }

  /** The four commands that fill the m-th window. */
  function Four(m: nat): (ids: set<Id>)
    ensures |ids| == 4 && forall k :: k in ids ==> 5 * m < k < 5 * (m + 1) && Fills(k)
  {
    {5 * m + 1, 5 * m + 2, 5 * m + 3, 5 * m + 4}
  }

  predicate Fills(k: nat) {
    k % 5 != 0
  }

  function Filler(m: nat): (ids: set<Id>)
    ensures |ids| == 4 * m && forall k :: k in ids ==> k < 5 * m && Fills(k)
  {
    if m == 0 then {}
    else
      var earlier, four := Filler(m - 1), Four(m - 1);
      DisjointUnion(earlier, four, 5 * (m - 1));
      earlier + four
  }

  lemma DisjointUnion(a: set<Id>, b: set<Id>, n: nat)
    requires (forall k :: k in a ==> k < n) && (forall k :: k in b ==> n < k)
    ensures |a + b| == |a| + |b|
  {
    assert a !! b;
  }

  lemma BackdatedFillsHour(commands: map<Id, Command>, m: nat)
    requires SentAt(commands, Backdated(m), 5 * m)
    ensures |InHour(TimesFrom(commands, 1), 0)| >= 4 * m
  {
    InTheHour(commands, Backdated(m), Filler(m));
  }

  /** For every number some run from an idle deployment dates at least as many of a sender's commands into one hour. */
  lemma SenderUnbounded(m: nat) returns (states: seq<Db>, steps: seq<Step>)
    requires 0 < m
    ensures ValidRun(states, steps) && Idle(states[0])
    ensures |InHour(TimesFrom(states[|steps|].ledger.commands, 1), 0)| >= 4 * m
  {
    BackdatedPermitted(m);
    states, steps := ScheduleRun(Backdated(m), 5 * m);
    AudienceIdle(5 * m);
    BackdatedFillsHour(states[5 * m].ledger.commands, m);
  }
}
