/** How many commands an hour can really hold: the least bound that every run respects, and the run that needs it. */
module WorstHour {
  import opened Schema
  import opened Wrappers
  import opened Protocol
  import opened Admission
  import opened Windows
  import opened RateLimits
  import opened RateTheorems
  import opened Reachability
  import opened Scenario
  import Domain
  import FleetInvariants
  import Issuance

  /** Everyone from 2 on may eject person 1, whose three ceilings are all `limit`; nothing has been issued yet. There
      are enough senders that no sender's own limit matters. */
  function Deployment(limit: Ceiling, cooldownSeconds: nat): Db {
    var person := Person(true, ParticipationReady, Available);
    var policy := Policy(AllAuthenticated, AuthenticatedAccounts, false, limit, cooldownSeconds);
    var people := Below(2 * limit + 2) - {0};
    Db(Directory(map p | p in people :: person, SystemPolicy(true, Some(limit)), map[1 := Entitlement(limit, None)]),
       Permissions(map[1 := policy], {}, map[], {}, map[]),
       Fleet(map[7 := Device(1, Ready, Available, true)], map[], map[], map[]),
       Counters(map[], map[]), Ledger(map[], map[], map[], map[]))
  }

  lemma DeploymentFleet(limit: Ceiling, cooldownSeconds: nat)
    ensures FleetInvariants.FleetInv(Deployment(limit, cooldownSeconds))
  {}

  lemma DeploymentInv(limit: Ceiling, cooldownSeconds: nat)
    ensures Inv(Deployment(limit, cooldownSeconds))
  {
    var db := Deployment(limit, cooldownSeconds);
    DeploymentFleet(limit, cooldownSeconds);
    GenesisInv(db.(fleet := Fleet(map[], map[], map[], map[])));
  }

  /** In no run that admits to `r` under limits of at most `limit` does an hour hold more than `bound` of its
      commands. */
  ghost predicate AlwaysWithin(start: Db, r: Id, limit: nat, bound: nat) {
    forall states: seq<Db>, steps: seq<Step>, from: Time ::
      ValidRun(states, steps) && states[0] == start && RunAdmitsWithin(states, steps, r, limit) ==>
        |InHour(TimesTo(states[|steps|].ledger.commands, r), from)| <= bound
  }

  /** Two windows' worth, or as many as the cooldown lets into an hour. */
  function Worst(limit: nat, cooldownSeconds: nat): nat {
    if cooldownSeconds == 0 || 2 * limit <= CeilDiv(3600, cooldownSeconds) then 2 * limit
    else CeilDiv(3600, cooldownSeconds)
  }

  // No run exceeds it.

  lemma CooldownKept(db: Db, step: Step, next: Db, r: Id)
    requires Transition(db, step, next) && r in db.perms.policies
    ensures r in next.perms.policies && next.perms.policies[r].cooldownSeconds == db.perms.policies[r].cooldownSeconds
  {
    if StepAdmits(db, step) {
      AdmitEffect(db, step.input, step.request, step.command, step.clock);
    } else {
      StepKeepsRows(db, step);
    }
  }

  lemma RunCooldown(states: seq<Db>, steps: seq<Step>, r: Id, i: nat)
    requires ValidRun(states, steps) && r in states[0].perms.policies && i <= |steps|
    ensures r in states[i].perms.policies
    ensures states[i].perms.policies[r].cooldownSeconds == states[0].perms.policies[r].cooldownSeconds
  {
    for k := 0 to i
      invariant r in states[k].perms.policies
      invariant states[k].perms.policies[r].cooldownSeconds == states[0].perms.policies[r].cooldownSeconds
    {
      CooldownKept(states[k], steps[k], states[k + 1], r);
    }
  }

  lemma NeverWorse(states: seq<Db>, steps: seq<Step>, limit: Ceiling, cooldownSeconds: nat, from: Time)
    requires ValidRun(states, steps) && states[0] == Deployment(limit, cooldownSeconds)
    requires RunAdmitsWithin(states, steps, 1, limit)
    ensures |InHour(TimesTo(states[|steps|].ledger.commands, 1), from)| <= Worst(limit, cooldownSeconds)
  {
    DeploymentInv(limit, cooldownSeconds);
    assert TimesTo(states[0].ledger.commands, 1) == map[];
    NoneIssuedYet(states[0], 1, limit);
    RunWindow(states, steps, 1, limit, |steps|);
    if cooldownSeconds > 0 {
      RunInv(states, steps, |steps|);
      RunCooldown(states, steps, 1, |steps|);
      CooldownBound(states[|steps|], 1, from);
    }
  }

  // Some run reaches it: a row dated so that its window restarts just after `limit` accepts.

  function At(limit: nat, cooldownSeconds: nat, k: nat): Time {
    k * (cooldownSeconds * SECOND) + if cooldownSeconds == 0 && k >= limit then 1 else 0
  }

  function RowDate(limit: nat, cooldownSeconds: nat): Time {
    At(limit, cooldownSeconds, limit) - HOUR
  }

  function OpenRow(limit: nat, cooldownSeconds: nat): Step {
    SetPaused(1, false, RowDate(limit, cooldownSeconds), RowDate(limit, cooldownSeconds))
  }

  function Eject(limit: nat, cooldownSeconds: nat, k: nat): Step {
    Issue(Issuance.Input(k + 2, 1, 0, Action.Eject, None, At(limit, cooldownSeconds, k)), k, k, 0)
  }

  /** The recipient's row after `k` accepts. */
  function Row(limit: nat, cooldownSeconds: nat, k: nat): RecipientState {
    RecipientState(
      if k <= limit then RowDate(limit, cooldownSeconds) else At(limit, cooldownSeconds, limit),
      if k <= limit then k else k - limit,
      if k == 0 then None else Some(At(limit, cooldownSeconds, k - 1) + cooldownSeconds * SECOND), k)
  }

  ghost predicate Reached(db: Db, limit: Ceiling, cooldownSeconds: nat, k: nat) {
    var start := Deployment(limit, cooldownSeconds);
    && db.dir == start.dir && db.perms == start.perms && db.fleet == start.fleet
    && db.counters.recipients == map[1 := Row(limit, cooldownSeconds, k)]
    && (forall a :: a in db.counters.senders ==> a < k + 2)
    && (forall r :: r in db.ledger.requests ==> r < k && db.ledger.requests[r].actor < k + 2)
    && (forall c :: c in db.ledger.commands ==> c < k)
    && TimesTo(db.ledger.commands, 1) == map j: nat | j < k :: At(limit, cooldownSeconds, j)
  }

  lemma MulLess(a: nat, b: nat, c: nat)
    requires a <= b
    ensures a * c <= b * c
  {}

  lemma NextMultiple(k: nat, gap: nat)
    ensures (k + 1) * gap == k * gap + gap
  {}

  lemma FitsHour(cooldownSeconds: nat, k: nat)
    requires cooldownSeconds > 0 && k < CeilDiv(3600, cooldownSeconds)
    ensures k * (cooldownSeconds * SECOND) < HOUR
  {
    var most := CeilDiv(3600, cooldownSeconds);
    MulLess(k, most - 1, cooldownSeconds);
    assert k * (cooldownSeconds * SECOND) == k * cooldownSeconds * SECOND;
  }

  lemma ZeroHour(limit: nat, cooldownSeconds: nat, k: nat)
    requires k < Worst(limit, cooldownSeconds)
    ensures 0 <= At(limit, cooldownSeconds, k) < HOUR
  {
    if cooldownSeconds > 0 {
      FitsHour(cooldownSeconds, k);
    }
  }

  lemma NextAt(limit: nat, cooldownSeconds: nat, k: nat)
    ensures At(limit, cooldownSeconds, k) + cooldownSeconds * SECOND <= At(limit, cooldownSeconds, k + 1)
  {
    NextMultiple(k, cooldownSeconds * SECOND);
  }

  lemma AtAscends(limit: nat, cooldownSeconds: nat, j: nat, k: nat)
    requires j <= k
    ensures At(limit, cooldownSeconds, j) <= At(limit, cooldownSeconds, k)
  {
    MulLess(j, k, cooldownSeconds * SECOND);
  }

  /** All accepts fall into the hour from zero, and the window restarts at exactly one of them. */
  lemma Timing(limit: nat, cooldownSeconds: nat, k: nat)
    requires k < Worst(limit, cooldownSeconds)
    ensures 0 <= At(limit, cooldownSeconds, k) < HOUR
    ensures k < limit ==> At(limit, cooldownSeconds, k) < At(limit, cooldownSeconds, limit)
    ensures k > limit ==> 0 <= At(limit, cooldownSeconds, limit) <= At(limit, cooldownSeconds, k)
    ensures k > 0 ==> At(limit, cooldownSeconds, k - 1) + cooldownSeconds * SECOND <= At(limit, cooldownSeconds, k)
  {
    ZeroHour(limit, cooldownSeconds, k);
    if k > 0 {
      NextAt(limit, cooldownSeconds, k - 1);
    }
    if k > limit {
      AtAscends(limit, cooldownSeconds, limit, k);
    } else if k < limit {
      BeforeRestart(limit, cooldownSeconds, k);
    }
  }

  lemma BeforeRestart(limit: nat, cooldownSeconds: nat, k: nat)
    requires k < limit
    ensures At(limit, cooldownSeconds, k) < At(limit, cooldownSeconds, limit)
  {
    NextAt(limit, cooldownSeconds, k);
    AtAscends(limit, cooldownSeconds, k + 1, limit);
  }

  /** The accept finds its row, and leaves the next one. */
  lemma RowAccepts(limit: nat, cooldownSeconds: nat, k: nat)
    requires k < Worst(limit, cooldownSeconds)
    ensures var row, now := Row(limit, cooldownSeconds, k), At(limit, cooldownSeconds, k);
            && Issuance.InWindow(row.windowStart, row.accepted, now) < limit
            && (row.cooldownUntil.Some? ==> row.cooldownUntil.value <= now)
            && Issuance.CountRecipient(row, now, cooldownSeconds) == Row(limit, cooldownSeconds, k + 1)
  {
    Timing(limit, cooldownSeconds, k);
  }

  lemma Prepares(db: Db, limit: Ceiling, cooldownSeconds: nat, k: nat)
    requires Reached(db, limit, cooldownSeconds, k) && k < Worst(limit, cooldownSeconds)
    ensures var input := Eject(limit, cooldownSeconds, k).input;
            Issuance.Prepared(db, input, 0) ==
            SetSenders(db, db.counters.senders[k + 2 := SenderState(input.now, 0, SENDER_LIMIT)])
  {}

  lemma Allows(db: Db, limit: Ceiling, cooldownSeconds: nat, k: nat)
    requires Reached(db, limit, cooldownSeconds, k) && k < Worst(limit, cooldownSeconds)
    ensures var input := Eject(limit, cooldownSeconds, k).input;
            && LoadedFor(db, input, 0).Some? && LoadedFor(db, input, 0).value.device == Some(7)
            && LoadedFor(db, input, 0).value.cooldownSeconds == cooldownSeconds
            && Domain.AuthorizeEject(LoadedFor(db, input, 0).value.facts, input.now) == Domain.Allow(limit)
  {
    Prepares(db, limit, cooldownSeconds, k);
    RowAccepts(limit, cooldownSeconds, k);
    assert Issuance.IsLiveDevice(db.fleet.devices, 7, 1);
    assert Issuance.LiveDevice(db.fleet.devices, 1) == Some(7);
  }

  lemma Admitted(db: Db, limit: Ceiling, cooldownSeconds: nat, k: nat)
    requires Reached(db, limit, cooldownSeconds, k) && k < Worst(limit, cooldownSeconds)
    ensures StepAdmits(db, Eject(limit, cooldownSeconds, k))
    ensures LimitInForce(db, Eject(limit, cooldownSeconds, k)) == limit
  {
    Prepares(db, limit, cooldownSeconds, k);
    Allows(db, limit, cooldownSeconds, k);
    var step := Eject(limit, cooldownSeconds, k);
    assert Issuance.FindRequest(db.ledger, k + 2, 0).None?;
    AllowedAdmits(db, step.input, k, k, 0);
  }

  lemma Counts(db: Db, limit: Ceiling, cooldownSeconds: nat, k: nat)
    requires Reached(db, limit, cooldownSeconds, k) && k < Worst(limit, cooldownSeconds)
    ensures var input := Eject(limit, cooldownSeconds, k).input;
            var prepared := Issuance.Prepared(db, input, 0).counters;
            && input.recipient in prepared.recipients && input.actor in prepared.senders
            && var counted := Issuance.Counted(prepared, input, cooldownSeconds);
            && counted.recipients == map[1 := Row(limit, cooldownSeconds, k + 1)]
            && counted.senders.Keys == db.counters.senders.Keys + {k + 2}
  {
    Prepares(db, limit, cooldownSeconds, k);
    RowAccepts(limit, cooldownSeconds, k);
  }

  /** What the accept writes. */
  lemma EjectWrites(db: Db, limit: Ceiling, cooldownSeconds: nat, k: nat)
    requires Reached(db, limit, cooldownSeconds, k) && k < Worst(limit, cooldownSeconds)
    ensures var step := Eject(limit, cooldownSeconds, k);
            var next := Next(db, step);
            && next.dir == db.dir && next.perms == db.perms && next.fleet == db.fleet
            && next.counters.recipients == map[1 := Row(limit, cooldownSeconds, k + 1)]
            && next.counters.senders.Keys == db.counters.senders.Keys + {k + 2}
            && next.ledger.requests == db.ledger.requests[k := Issuance.RequestRow(step.input, WasQueued(k))]
            && next.ledger.commands == db.ledger.commands[k := Issuance.CommandRow(step.input, k, 7)]
  {
    var step := Eject(limit, cooldownSeconds, k);
    Admitted(db, limit, cooldownSeconds, k);
    Allows(db, limit, cooldownSeconds, k);
    Counts(db, limit, cooldownSeconds, k);
    AdmitEffect(db, step.input, k, k, 0);
  }

  lemma EjectAddsTime(db: Db, limit: Ceiling, cooldownSeconds: nat, k: nat)
    requires Reached(db, limit, cooldownSeconds, k)
    ensures var input := Eject(limit, cooldownSeconds, k).input;
            TimesTo(db.ledger.commands[k := Issuance.CommandRow(input, k, 7)], 1)
            == map j: nat | j < k + 1 :: At(limit, cooldownSeconds, j)
  {
    var command := Issuance.CommandRow(Eject(limit, cooldownSeconds, k).input, k, 7);
    AdmitAddsTime(db.ledger.commands, k, command, 1);
    assert (map j: nat | j < k + 1 :: At(limit, cooldownSeconds, j))
        == (map j: nat | j < k :: At(limit, cooldownSeconds, j))[k := At(limit, cooldownSeconds, k)];
  }

  lemma EjectReaches(db: Db, limit: Ceiling, cooldownSeconds: nat, k: nat)
    requires Reached(db, limit, cooldownSeconds, k) && k < Worst(limit, cooldownSeconds)
    ensures Reached(Next(db, Eject(limit, cooldownSeconds, k)), limit, cooldownSeconds, k + 1)
  {
    EjectWrites(db, limit, cooldownSeconds, k);
    EjectAddsTime(db, limit, cooldownSeconds, k);
  }

  lemma OpensRow(limit: Ceiling, cooldownSeconds: nat)
    ensures Reached(Next(Deployment(limit, cooldownSeconds), OpenRow(limit, cooldownSeconds)),
                    limit, cooldownSeconds, 0)
  {}

  lemma ExtendRun(states: seq<Db>, steps: seq<Step>, step: Step, next: Db, r: Id, limit: nat)
    requires ValidRun(states, steps) && RunAdmitsWithin(states, steps, r, limit)
    requires Transition(states[|steps|], step, next) && AdmitsWithin(states[|steps|], step, r, limit)
    ensures ValidRun(states + [next], steps + [step]) && RunAdmitsWithin(states + [next], steps + [step], r, limit)
  {}

  lemma {:induction false} WorstRun(limit: Ceiling, cooldownSeconds: nat, k: nat)
    returns (states: seq<Db>, steps: seq<Step>)
    requires k <= Worst(limit, cooldownSeconds)
    ensures ValidRun(states, steps) && states[0] == Deployment(limit, cooldownSeconds)
    ensures RunAdmitsWithin(states, steps, 1, limit) && Reached(states[|steps|], limit, cooldownSeconds, k)
  {
    var step, before;
    if k == 0 {
      states, steps := [Deployment(limit, cooldownSeconds)], [];
      step := OpenRow(limit, cooldownSeconds);
      OpensRow(limit, cooldownSeconds);
    } else {
      states, steps := WorstRun(limit, cooldownSeconds, k - 1);
      step := Eject(limit, cooldownSeconds, k - 1);
      Admitted(states[|steps|], limit, cooldownSeconds, k - 1);
      EjectReaches(states[|steps|], limit, cooldownSeconds, k - 1);
    }
    before := states[|steps|];
    ExtendRun(states, steps, step, Next(before, step), 1, limit);
    states, steps := states + [Next(before, step)], steps + [step];
  }

  lemma ReachedFillsHour(db: Db, limit: Ceiling, cooldownSeconds: nat)
    requires Reached(db, limit, cooldownSeconds, Worst(limit, cooldownSeconds))
    ensures |InHour(TimesTo(db.ledger.commands, 1), 0)| == Worst(limit, cooldownSeconds)
  {
    var n := Worst(limit, cooldownSeconds);
    forall j: nat | j < n ensures 0 <= At(limit, cooldownSeconds, j) < HOUR { Timing(limit, cooldownSeconds, j); }
    assert InHour(TimesTo(db.ledger.commands, 1), 0) == Below(n);
  }

  /** Twice the limit, or what the cooldown lets through, is exactly what an hour can hold: no smaller bound will do. */
  lemma WorstHourExactly(limit: Ceiling, cooldownSeconds: nat, bound: nat)
    ensures AlwaysWithin(Deployment(limit, cooldownSeconds), 1, limit, bound)
            <==> bound >= Worst(limit, cooldownSeconds)
  {
    var start := Deployment(limit, cooldownSeconds);
    if bound >= Worst(limit, cooldownSeconds) {
      forall states: seq<Db>, steps: seq<Step>, from: Time
        | ValidRun(states, steps) && states[0] == start && RunAdmitsWithin(states, steps, 1, limit)
        ensures |InHour(TimesTo(states[|steps|].ledger.commands, 1), from)| <= bound
      {
        NeverWorse(states, steps, limit, cooldownSeconds, from);
      }
    } else {
      var states, steps := WorstRun(limit, cooldownSeconds, Worst(limit, cooldownSeconds));
      ReachedFillsHour(states[|steps|], limit, cooldownSeconds);
    }
  }

  lemma WorstWithinLimit(limit: nat, cooldownSeconds: nat)
    ensures Worst(limit, cooldownSeconds) <= limit
            <==> limit == 0 || (cooldownSeconds > 0 && limit * cooldownSeconds >= 3600)
  {
    if cooldownSeconds > 0 {
      var most := CeilDiv(3600, cooldownSeconds);
      if most <= limit {
        MulLess(most, limit, cooldownSeconds);
      } else {
        MulLess(limit, most - 1, cooldownSeconds);
      }
    }
  }

  /** So the hourly limit holds of every hour exactly when it is zero or the cooldown alone already enforces it. */
  lemma LimitHoldsExactly(limit: Ceiling, cooldownSeconds: nat)
    ensures AlwaysWithin(Deployment(limit, cooldownSeconds), 1, limit, limit)
            <==> limit == 0 || (cooldownSeconds > 0 && limit * cooldownSeconds >= 3600)
  {
    WorstHourExactly(limit, cooldownSeconds, limit);
    WorstWithinLimit(limit, cooldownSeconds);
  }

  /** Without a cooldown an hour can hold twice the limit. */
  lemma TwiceTheLimitIsReached(limit: Ceiling)
    requires limit > 0
    ensures !AlwaysWithin(Deployment(limit, 0), 1, limit, 2 * limit - 1)
  {
    WorstHourExactly(limit, 0, 2 * limit - 1);
  }
}
