/** The joint invariant of the protocol, and that every run from a fresh deployment keeps it. */
module Reachability {
  import opened Schema
  import opened Protocol
  import LedgerInvariants
  import LedgerMoves
  import FleetInvariants
  import ConsentSafety
  import RateLimits

  ghost predicate Inv(db: Db) {
    && LedgerInvariants.LedgerInv(db.ledger)
    && FleetInvariants.FleetInv(db)
    && ConsentSafety.ConsentInv(db)
    && RateLimits.CountersInv(db)
  }

  lemma GenesisInv(db: Db)
    requires Genesis(db)
    ensures Inv(db)
  {}

  lemma StepKeepsLedger(db: Db, step: Step)
    requires LedgerInvariants.LedgerInv(db.ledger)
    ensures LedgerInvariants.LedgerInv(Next(db, step).ledger)
  {
    LedgerMoves.StepMoves(db, step);
    LedgerInvariants.MoveKeepsLedger(db.ledger, LedgerMoves.MoveOf(db, step));
  }

  lemma StepKeepsInv(db: Db, step: Step)
    requires Inv(db)
    ensures Inv(Next(db, step))
  {
    StepKeepsLedger(db, step);
    FleetInvariants.StepKeepsFleet(db, step);
    ConsentSafety.StepKeepsConsent(db, step);
    RateLimits.StepKeepsCounters(db, step);
  }

  /** Every database of every run satisfies the invariant. */
  lemma {:induction false} RunInv(states: seq<Db>, steps: seq<Step>, i: nat)
    requires ValidRun(states, steps) && Inv(states[0]) && i <= |steps|
    ensures Inv(states[i])
  {
    if i > 0 {
      RunInv(states, steps, i - 1);
      StepKeepsInv(states[i - 1], steps[i - 1]);
    }
  }

  lemma RunAllInv(states: seq<Db>, steps: seq<Step>)
    requires ValidRun(states, steps) && Inv(states[0])
    ensures forall k: nat :: k <= |steps| ==> Inv(states[k])
  {
    forall k: nat | k <= |steps| ensures Inv(states[k]) { RunInv(states, steps, k); }
  }

  lemma RunCounted(states: seq<Db>, steps: seq<Step>)
    requires ValidRun(states, steps) && Inv(states[0])
    ensures forall k: nat :: k <= |steps| ==> RateLimits.CountersInv(states[k])
  {
    forall k: nat | k <= |steps| ensures RateLimits.CountersInv(states[k]) { RunInv(states, steps, k); }
  }
}
