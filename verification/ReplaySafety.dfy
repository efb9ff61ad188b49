/** One signed agent request is accepted at most once, although nonces are purged. */
module ReplaySafety {
  import opened Schema
  import opened Wrappers
  import opened Protocol
  import opened Reachability
  import opened Scenario
  import opened Transport
  import Admission

  predicate UsesTransport(step: Step) {
    step.Poll? || step.Report?
  }

  /** A report the application turns away never reaches the store. */
  predicate ReachesStore(step: Step) {
    step.Poll?
    || (step.Report? && step.observation.device == step.ctx.device
        && step.observation.recordedAt <= step.now + CLOCK_SKEW)
  }

  ghost predicate Accepts(db: Db, step: Step) {
    ReachesStore(step) && NonceGate(db, step.ctx, step.now) == Fresh
  }

  lemma OthersKeepNonces(db: Db, step: Step)
    requires !ReachesStore(step)
    ensures Next(db, step).fleet.nonces == db.fleet.nonces
  {
    if step.Issue? {
      if Admission.StepAdmits(db, step) {
        Admission.AdmitEffect(db, step.input, step.request, step.command, step.clock);
      } else {
        Admission.NoAdmitEffect(db, step.input, step.request, step.command, step.clock);
      }
    } else if step.SetPaused? || step.SetGrant? || step.Disconnect? {
      LocksKeepNonces(db, step);
    }
  }

  lemma LocksKeepNonces(db: Db, step: Step)
    requires step.SetPaused? || step.SetGrant? || step.Disconnect?
    ensures Next(db, step).fleet == db.fleet
  {}

  lemma StoreConsumes(db: Db, step: Step)
    requires ReachesStore(step)
    ensures Next(db, step).fleet.nonces == ConsumeNonce(db, step.ctx, step.now).fleet.nonces
  {}

  /** A request is authenticated exactly when its body is intact, a live key was found for it and signed it, and its
      timestamp is within thirty seconds; clock skew is told only to a caller whose signature was right. */
  lemma AuthenticatedExactly(request: SignedRequest, publicKey: Option<nat>, verify: (nat, SignedRequest) -> bool,
                             now: Time)
    ensures var signed := publicKey.Some? && verify(publicKey.value, request);
            var answer := Authenticate(request, publicKey, verify, now);
            && (answer.Authenticated? <==>
                  request.bodyIntact && signed && -30 * SECOND <= now - request.timestamp <= 30 * SECOND)
            && (answer.Authenticated? ==> answer.context == Context(request.device, request.key, request.nonce))
            && (answer == ContentHashMismatch <==> !request.bodyIntact)
            && (answer == AuthenticationFailed <==> request.bodyIntact && !signed)
            && (answer == ClockSkew <==> request.bodyIntact && signed
                                         && (now - request.timestamp > 30 * SECOND
                                             || request.timestamp - now > 30 * SECOND))
  {}

  /** The step runs a store transaction that may purge the device's nonces. */
  predicate TransactsFor(step: Step, device: Id) {
    ReachesStore(step) && step.ctx.device == device
  }

  /** An accepted nonce stays until some transaction of its device reads a clock ten minutes later. */
  lemma {:induction false} NonceHeld(states: seq<Db>, steps: seq<Step>, i: nat, j: nat)
    requires ValidRun(states, steps) && i < j <= |steps| && Accepts(states[i], steps[i])
    requires forall k {:trigger steps[k]} :: i < k < j && TransactsFor(steps[k], steps[i].ctx.device) ==>
                                               steps[k].now < steps[i].now + NONCE_LIFETIME
    ensures var n := (steps[i].ctx.device, steps[i].ctx.nonce);
            n in states[j].fleet.nonces && states[j].fleet.nonces[n].expiresAt == steps[i].now + NONCE_LIFETIME
    decreases j
  {
    assert Transition(states[j - 1], steps[j - 1], states[j]);
    if j == i + 1 {
      StoreConsumes(states[i], steps[i]);
    } else {
      NonceHeld(states, steps, i, j - 1);
      if ReachesStore(steps[j - 1]) {
        StoreConsumes(states[j - 1], steps[j - 1]);
      } else {
        OthersKeepNonces(states[j - 1], steps[j - 1]);
      }
    }
  }

  // When a nonce is accepted again.

  ghost predicate AcceptsNonce(db: Db, step: Step, device: Id, nonce: Digest) {
    Accepts(db, step) && step.ctx.device == device && step.ctx.nonce == nonce
  }

  /** The step purges a nonce that the device had accepted at `at`. */
  predicate Purges(step: Step, device: Id, at: Time) {
    TransactsFor(step, device) && step.now >= at + NONCE_LIFETIME
  }

  ghost predicate PurgedWithin(steps: seq<Step>, device: Id, at: Time, i: nat, j: nat)
    requires j <= |steps|
  {
    exists k {:trigger steps[k]} :: i < k < j && Purges(steps[k], device, at)
  }

  /** The nonce is stored as accepted at `at`, or not at all. */
  predicate StoredAt(db: Db, device: Id, nonce: Digest, at: Time) {
    (device, nonce) in db.fleet.nonces ==> db.fleet.nonces[(device, nonce)].expiresAt == at + NONCE_LIFETIME
  }

  lemma NonceOnce(db: Db, step: Step, next: Db, device: Id, nonce: Digest, at: Time)
    requires Transition(db, step, next) && StoredAt(db, device, nonce, at) && !AcceptsNonce(db, step, device, nonce)
    ensures StoredAt(next, device, nonce, at)
    ensures (device, nonce) in next.fleet.nonces <==>
            (device, nonce) in db.fleet.nonces && !Purges(step, device, at)
  {
    if ReachesStore(step) {
      StoreConsumes(db, step);
    } else {
      OthersKeepNonces(db, step);
    }
  }

  /** Until it is accepted again a nonce is stored exactly as long as nothing purges it. */
  lemma NonceGoneExactly(states: seq<Db>, steps: seq<Step>, i: nat, j: nat, device: Id, nonce: Digest)
    requires ValidRun(states, steps) && i < j <= |steps| && AcceptsNonce(states[i], steps[i], device, nonce)
    requires forall k {:trigger steps[k]} :: i < k < j ==> !AcceptsNonce(states[k], steps[k], device, nonce)
    ensures StoredAt(states[j], device, nonce, steps[i].now)
    ensures (device, nonce) in states[j].fleet.nonces <==> !PurgedWithin(steps, device, steps[i].now, i, j)
  {
    assert Transition(states[i], steps[i], states[i + 1]);
    StoreConsumes(states[i], steps[i]);
    for m := i + 1 to j
      invariant StoredAt(states[m], device, nonce, steps[i].now)
      invariant (device, nonce) in states[m].fleet.nonces <==> !PurgedWithin(steps, device, steps[i].now, i, m)
    {
      NonceOnce(states[m], steps[m], states[m + 1], device, nonce, steps[i].now);
    }
  }

  /** A nonce presented again with a live key is accepted exactly when, since its last accept, some transaction of the
      device, possibly this one, has read a clock ten minutes past that accept's. */
  lemma AcceptedAgainExactly(states: seq<Db>, steps: seq<Step>, i: nat, j: nat, device: Id, nonce: Digest)
    requires ValidRun(states, steps) && i < j < |steps| && AcceptsNonce(states[i], steps[i], device, nonce)
    requires forall k {:trigger steps[k]} :: i < k < j ==> !AcceptsNonce(states[k], steps[k], device, nonce)
    requires TransactsFor(steps[j], device) && steps[j].ctx.nonce == nonce
    requires LiveKey(states[j], device, steps[j].ctx.key)
    ensures Accepts(states[j], steps[j]) <==> PurgedWithin(steps, device, steps[i].now, i, j + 1)
  {
    NonceGoneExactly(states, steps, i, j, device, nonce);
    assert PurgedWithin(steps, device, steps[i].now, i, j + 1) <==>
           PurgedWithin(steps, device, steps[i].now, i, j) || Purges(steps[j], device, steps[i].now);
  }

  // One signed request.

  /** Every transaction of the device reads a clock that lags each earlier one's by less than `bound`. */
  ghost predicate BoundedLag(steps: seq<Step>, device: Id, bound: int) {
    forall i, j {:trigger steps[i], steps[j]} ::
      0 <= i < j < |steps| && TransactsFor(steps[i], device) && TransactsFor(steps[j], device) ==>
        steps[i].now - steps[j].now < bound
  }

  /** The step presents `request`, authenticated at its own clock against whatever key was read then. */
  ghost predicate Presents(step: Step, request: SignedRequest, publicKey: Option<nat>,
                           verify: (nat, SignedRequest) -> bool) {
    UsesTransport(step) && Authenticate(request, publicKey, verify, step.now) == Authenticated(step.ctx)
  }

  /** The first step after `i` that accepts the nonce again. */
  lemma FirstAgain(states: seq<Db>, steps: seq<Step>, i: nat, j: nat, device: Id, nonce: Digest) returns (k: nat)
    requires |states| > |steps| && i < j < |steps| && AcceptsNonce(states[j], steps[j], device, nonce)
    ensures i < k <= j && AcceptsNonce(states[k], steps[k], device, nonce)
    ensures forall m {:trigger steps[m]} :: i < m < k ==> !AcceptsNonce(states[m], steps[m], device, nonce)
  {
    k := i + 1;
    while !AcceptsNonce(states[k], steps[k], device, nonce)
      invariant i < k <= j
      invariant forall m {:trigger steps[m]} :: i < m < k ==> !AcceptsNonce(states[m], steps[m], device, nonce)
      decreases j - k
    {
      k := k + 1;
    }
  }

  /** Between two transactions a minute apart no clock can be ten minutes past the first. */
  lemma LagPreventsPurge(steps: seq<Step>, device: Id, i: nat, k: nat, j: nat)
    requires i < k <= j < |steps| && BoundedLag(steps, device, 540 * SECOND) && TransactsFor(steps[j], device)
    requires (steps[i].Poll? || steps[i].Report?) && steps[j].now <= steps[i].now + 2 * CLOCK_SKEW
    ensures !PurgedWithin(steps, device, steps[i].now, i, k + 1)
  {
    forall m | i < m <= j && TransactsFor(steps[m], device)
      ensures steps[m].now < steps[i].now + NONCE_LIFETIME
    {
      assert m < j ==> steps[m].now - steps[j].now < 540 * SECOND;
    }
  }

  /** Two transactions that both accept one signed request are the same transaction, if no transaction of the device
      lags an earlier one by 540 seconds. */
  lemma AcceptedAtMostOnce(states: seq<Db>, steps: seq<Step>, i: nat, j: nat, request: SignedRequest,
                           keyThen: Option<nat>, keyLater: Option<nat>, verify: (nat, SignedRequest) -> bool)
    requires ValidRun(states, steps) && BoundedLag(steps, request.device, 540 * SECOND) && i <= j < |steps|
    requires Presents(steps[i], request, keyThen, verify) && Accepts(states[i], steps[i])
    requires Presents(steps[j], request, keyLater, verify) && Accepts(states[j], steps[j])
    ensures i == j
  {
    AuthenticatedExactly(request, keyThen, verify, steps[i].now);
    AuthenticatedExactly(request, keyLater, verify, steps[j].now);
    if i < j {
      var k := FirstAgain(states, steps, i, j, request.device, request.nonce);
      AcceptedAgainExactly(states, steps, i, k, request.device, request.nonce);
      LagPreventsPurge(steps, request.device, i, k, j);
      assert false;
    }
  }

  lemma PollKeepsKey(db: Db, ctx: Context, now: Time, device: Id, key: Id)
    requires LiveKey(db, device, key)
    ensures LiveKey(Next(db, Poll(ctx, now)), device, key)
  {}

  /** With a lag of exactly 540 seconds a purge at another request's clock lets one signed request, a minute wide, be
      accepted twice. */
  lemma LagOf540Replays(db: Db, ctx: Context, other: Context, start: Time, request: SignedRequest,
                        publicKey: nat, verify: (nat, SignedRequest) -> bool)
    requires LiveKey(db, ctx.device, ctx.key) && other == ctx.(nonce := other.nonce) && other.nonce != ctx.nonce
    requires (ctx.device, ctx.nonce) !in db.fleet.nonces
    requires request == SignedRequest(ctx.device, ctx.key, start + CLOCK_SKEW, ctx.nonce, true, request.signature)
    requires verify(publicKey, request)
    ensures var first, purge, again := Poll(ctx, start), Poll(other, start + NONCE_LIFETIME),
            Poll(ctx, start + 2 * CLOCK_SKEW);
            && again.now == purge.now - 540 * SECOND
            && Presents(first, request, Some(publicKey), verify) && Presents(again, request, Some(publicKey), verify)
            && Accepts(db, first) && Accepts(Next(Next(db, first), purge), again)
  {
    var first, purge := Poll(ctx, start), Poll(other, start + NONCE_LIFETIME);
    var middle := Next(db, first);
    var last := Next(middle, purge);
    PollKeepsKey(db, ctx, start, ctx.device, ctx.key);
    PollKeepsKey(middle, other, start + NONCE_LIFETIME, ctx.device, ctx.key);
    StoreConsumes(db, first);
    StoreConsumes(middle, purge);
    assert middle.fleet.nonces[(ctx.device, ctx.nonce)].expiresAt == start + NONCE_LIFETIME;
    assert (ctx.device, ctx.nonce) !in last.fleet.nonces;
  }

  /** Some step of the run accepts the request, and so does a later one. */
  ghost predicate AcceptedTwice(states: seq<Db>, steps: seq<Step>, request: SignedRequest, i: nat, j: nat,
                                keyThen: Option<nat>, keyLater: Option<nat>, verify: (nat, SignedRequest) -> bool) {
    && i < j < |steps| < |states|
    && Presents(steps[i], request, keyThen, verify) && Accepts(states[i], steps[i])
    && Presents(steps[j], request, keyLater, verify) && Accepts(states[j], steps[j])
  }

  ghost predicate LaggingRun(states: seq<Db>, steps: seq<Step>, device: Id, bound: int) {
    ValidRun(states, steps) && Inv(states[0]) && BoundedLag(steps, device, bound)
  }

  /** No run from a sound database whose device lags stay below `bound` accepts one signed request twice. */
  ghost predicate OnceWithLag(bound: int) {
    forall states: seq<Db>, steps: seq<Step>, request: SignedRequest, i: nat, j: nat, keyThen: Option<nat>,
      keyLater: Option<nat>, verify: (nat, SignedRequest) -> bool ::
      LaggingRun(states, steps, request.device, bound) ==>
        !AcceptedTwice(states, steps, request, i, j, keyThen, keyLater, verify)
  }

  const REPLAYED := SignedRequest(7, 3, CLOCK_SKEW, 1, true, 0)

  const REPLAY := [
    Poll(Context(7, 3, 1), 0), Poll(Context(7, 3, 2), NONCE_LIFETIME), Poll(Context(7, 3, 1), 2 * CLOCK_SKEW)]

  lemma ReplayLags(bound: int)
    requires bound > 540 * SECOND
    ensures BoundedLag(REPLAY, 7, bound)
  {}

  lemma ReplayAccepts(states: seq<Db>)
    requires |states| == 4 && states[0] == IdleDb(60) && states[2] == Next(Next(IdleDb(60), REPLAY[0]), REPLAY[1])
    ensures AcceptedTwice(states, REPLAY, REPLAYED, 0, 2, Some(0), Some(0), (_, _) => true)
  {
    LagOf540Replays(IdleDb(60), Context(7, 3, 1), Context(7, 3, 2), 0, REPLAYED, 0, (_, _) => true);
  }

  lemma ThreeSteps(db: Db, steps: seq<Step>) returns (states: seq<Db>)
    requires |steps| == 3 && forall i {:trigger steps[i]} :: 0 <= i < 3 ==> steps[i].Poll?
    ensures ValidRun(states, steps) && states[0] == db && states[2] == Next(Next(db, steps[0]), steps[1])
  {
    var s1 := Next(db, steps[0]);
    var s2 := Next(s1, steps[1]);
    states := [db, s1, s2, Next(s2, steps[2])];
  }

  lemma ReplayingRun(bound: int) returns (states: seq<Db>)
    requires bound > 540 * SECOND
    ensures LaggingRun(states, REPLAY, 7, bound)
    ensures AcceptedTwice(states, REPLAY, REPLAYED, 0, 2, Some(0), Some(0), (_, _) => true)
  {
    states := ThreeSteps(IdleDb(60), REPLAY);
    ReplayAccepts(states);
    ReplayLags(bound);
    IdleInv(60);
  }

  lemma NeverTwice(states: seq<Db>, steps: seq<Step>, request: SignedRequest, i: nat, j: nat, keyThen: Option<nat>,
                   keyLater: Option<nat>, verify: (nat, SignedRequest) -> bool, bound: int)
    requires LaggingRun(states, steps, request.device, bound) && bound <= 540 * SECOND
    ensures !AcceptedTwice(states, steps, request, i, j, keyThen, keyLater, verify)
  {
    if AcceptedTwice(states, steps, request, i, j, keyThen, keyLater, verify) {
      AcceptedAtMostOnce(states, steps, i, j, request, keyThen, keyLater, verify);
    }
  }

  /** So one signed request is accepted at most once whatever else happens exactly when a device's transactions are
      known to lag each other by less than 540 seconds or some smaller bound. */
  lemma LagBoundExactly(bound: int)
    ensures OnceWithLag(bound) <==> bound <= 540 * SECOND
  {
    if bound <= 540 * SECOND {
      forall states: seq<Db>, steps: seq<Step>, request: SignedRequest, i: nat, j: nat, keyThen: Option<nat>,
        keyLater: Option<nat>, verify: (nat, SignedRequest) -> bool
        | LaggingRun(states, steps, request.device, bound)
        ensures !AcceptedTwice(states, steps, request, i, j, keyThen, keyLater, verify)
      {
        NeverTwice(states, steps, request, i, j, keyThen, keyLater, verify, bound);
      }
    } else {
      var states := ReplayingRun(bound);
    }
  }
}
