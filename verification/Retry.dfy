/** The retry loop around every serializable transaction of the stores. */
module Retry {
  import opened Schema
  import opened Database
  import opened Protocol
  import opened Replies
  import opened ControlPlane

  /** What becomes of an attempt: PostgreSQL may abort it with 40001 or 40P01, anything else may go wrong, or it
      runs. */
  datatype Fate = Runs | SerializationFailure | DeadlockDetected | OtherFailure

  datatype Outcome =
    | Returned(reply: Reply)
    | OperationThrew
    | Rethrown(fate: Fate)
    | UnreachableState

  predicate Retryable(fate: Fate) {
    fate == SerializationFailure || fate == DeadlockDetected
  }

  /** The first attempt, counting from 1, that neither deadlock nor serialization aborts. */
  predicate Decisive(schedule: nat -> Fate, k: nat) {
    k > 0 && !Retryable(schedule(k)) && forall i :: 0 < i < k ==> Retryable(schedule(i))
  }

  /** How the call ends if this attempt decides it. */
  ghost predicate Decides(start: Db, after: Db, call: Step, step: Step, fate: Fate, outcome: Outcome) {
    if fate == Runs then
      && SameCall(call, step) && Transition(start, step, after)
      && outcome == if ReplyTo(start, step) == Threw then OperationThrew else Returned(ReplyTo(start, step))
    else after == start && outcome == Rethrown(fate)
  }

  /** The first attempt that no serialization failure or deadlock aborts decides; with none in time the last failure
      is rethrown, and with no attempt allowed at all the trailing throw is reached. */
  ghost predicate Resolves(start: Db, after: Db, calls: nat -> Step, step: Step, maximumAttempts: int,
                           schedule: nat -> Fate, outcome: Outcome) {
    if maximumAttempts < 1 then after == start && outcome == UnreachableState
    else
      && (forall k: nat :: k <= maximumAttempts && Decisive(schedule, k) ==>
                             Decides(start, after, calls(k), step, schedule(k), outcome))
      && ((forall k: nat :: k <= maximumAttempts ==> !Decisive(schedule, k)) ==>
            after == start && outcome == Rethrown(schedule(maximumAttempts)))
  }

  /** Every attempt is a transaction of its own: `calls(k)` is the call with the identifiers and the database clock that
      the k-th attempt would get, and `held(k)` are the rows that others hold then. An aborted one changes nothing. */
  method WithRetry(database: Database, maximumAttempts: int, calls: nat -> Step, held: nat -> set<Id>,
                   schedule: nat -> Fate)
    returns (outcome: Outcome, step: Step, attempts: nat)
    requires Sound(database.Snapshot())
    modifies database
    ensures Resolves(old(database.Snapshot()), database.Snapshot(), calls, step, maximumAttempts, schedule, outcome)
    ensures Sound(database.Snapshot())
    ensures attempts <= if maximumAttempts < 1 then 0 else maximumAttempts
    ensures forall i :: 0 < i < attempts ==> Retryable(schedule(i))
  {
    attempts, step := 0, calls(0);
    while attempts + 1 <= maximumAttempts
      invariant attempts <= if maximumAttempts < 1 then 0 else maximumAttempts
      invariant forall i :: 0 < i <= attempts ==> Retryable(schedule(i))
      invariant attempts == maximumAttempts ==> maximumAttempts < 1
      invariant database.Snapshot() == old(database.Snapshot())
      decreases maximumAttempts - attempts
    {
      attempts := attempts + 1;
      var fate := schedule(attempts);
      if fate == Runs {
        assert Decisive(schedule, attempts);
        OnlyOneDecides(schedule, attempts);
        var reply;
        step, reply := Execute(database, calls(attempts), held(attempts));
        return if reply == Threw then OperationThrew else Returned(reply), step, attempts;
      }
      if !Retryable(fate) || attempts == maximumAttempts {
        if !Retryable(fate) {
          assert Decisive(schedule, attempts);
          OnlyOneDecides(schedule, attempts);
        }
        return Rethrown(fate), step, attempts;
      }
    }
    return UnreachableState, step, attempts;
  }

  lemma OnlyOneDecides(schedule: nat -> Fate, k: nat)
    requires Decisive(schedule, k)
    ensures forall j: nat :: Decisive(schedule, j) ==> j == k
  {}

  /** All or nothing: for every schedule of failures the call is exactly one step of the protocol with its reply, or an
      error and the database as it was; the trailing throw is reached only with no attempt allowed, and a reply is
      returned exactly when the deciding attempt runs and does not throw. */
  lemma AllOrNothing(start: Db, after: Db, calls: nat -> Step, step: Step, maximumAttempts: int,
                     schedule: nat -> Fate, outcome: Outcome)
    requires Resolves(start, after, calls, step, maximumAttempts, schedule, outcome)
    ensures outcome.Returned? ==> Transition(start, step, after) && outcome.reply == ReplyTo(start, step)
    ensures outcome.Returned? ==>
              exists k: nat :: k <= maximumAttempts && Decisive(schedule, k) && SameCall(calls(k), step)
    ensures !outcome.Returned? ==> after == start
    ensures outcome.UnreachableState? <==> maximumAttempts < 1
    ensures forall k: nat :: k <= maximumAttempts && Decisive(schedule, k) ==>
                               (outcome.Returned? <==> schedule(k) == Runs && ReplyTo(start, step) != Threw)
  {
    if k: nat :| k <= maximumAttempts && Decisive(schedule, k) {
      OnlyOneDecides(schedule, k);
      assert Decides(start, after, calls(k), step, schedule(k), outcome);
      if schedule(k) == Runs && ReplyTo(start, step) == Threw {
        ThrowingChangesNothing(start, step, after);
      }
    }
  }
}
