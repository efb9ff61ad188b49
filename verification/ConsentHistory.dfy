/** Pauses and grants are what recipients last made of them: what each control writes, and what a run makes of it. */
module ConsentHistory {
  import opened Schema
  import opened Wrappers
  import opened Protocol
  import opened Reachability
  import opened Verdicts
  import Admission
  import Consent
  import Issuance
  import LedgerOps

  // What the controls write.

  /** Somebody whose controls exist: a known person, or one with a counter row. */
  predicate Managed(db: Db, r: Id) {
    r in db.dir.people || r in db.counters.recipients
  }

  /** Exactly these commands are called off, each with an event in its request's log. */
  ghost predicate CalledOff(l: Ledger, next: Ledger, ids: set<Id>, why: CancelReason, now: Time) {
    && next.requests == l.requests && next.results == l.results
    && next.commands.Keys == l.commands.Keys && next.events.Keys == l.events.Keys
    && (forall c :: c in l.commands ==>
                      next.commands[c] == if c in ids
                                          then l.commands[c].(status := Cancelled, cancellation := Some(why))
                                          else l.commands[c])
    && (forall r :: r in l.events ==>
                      next.events[r] == if exists c :: c in ids && c in l.commands && l.commands[c].request == r
                                        then l.events[r] + [LifecycleEvent(Cancelled, Some(CancelledBecause(why)), now)]
                                        else l.events[r])
  }

  lemma CancellingCallsOff(l: Ledger, ids: set<Id>, why: CancelReason, now: Time)
    ensures CalledOff(l, LedgerOps.CancelAll(l, ids, why, now), ids, why, now)
  {
    forall r | r in l.events
      ensures LedgerOps.Hit(l, ids, r) <==> exists c :: c in ids && c in l.commands && l.commands[c].request == r
    {}
  }

  /** Everything on its way to the recipient, from everyone or from one actor. */
  function OnTheirWay(l: Ledger, recipient: Id, actor: Option<Id>): set<Id> {
    set c | c in l.commands && l.commands[c].recipient == recipient
            && (actor.Some? ==> l.commands[c].actor == actor.value)
            && l.commands[c].status in {Queued, Dispatched}
  }

  lemma OnTheirWayIsOutstanding(l: Ledger, recipient: Id, actor: Option<Id>)
    ensures OnTheirWay(l, recipient, actor) == Consent.OutstandingTo(l, recipient, actor)
  {}

  /** Nobody else's controls change, and only the recipient's counter row may be new. */
  predicate OnlyControlsOf(db: Db, next: Db, r: Id, clock: Time) {
    && next.dir == db.dir && next.fleet == db.fleet
    && next.counters == Counters(db.counters.recipients[r := RecipientRow(db, r, clock)], db.counters.senders)
    && next.perms == db.perms.(policies := next.perms.policies, grants := next.perms.grants)
    && r in next.perms.policies && next.perms.policies == db.perms.policies[r := next.perms.policies[r]]
  }

  /** A pause is set for everyone who has controls, and only the pause; a recipient without a policy gets the defaults.
      Pausing calls off whatever is on its way. */
  lemma PauseWritesExactly(db: Db, r: Id, paused: bool, now: Time, clock: Time)
    ensures var next := Next(db, SetPaused(r, paused, now, clock));
            && (Consent.SetPaused(db, r, paused, now, clock).Committed? <==> Managed(db, r))
            && if !Managed(db, r) then next == db
               else
                 && OnlyControlsOf(db, next, r, clock) && next.perms.grants == db.perms.grants
                 && var policy := next.perms.policies[r];
                 && policy.paused == paused
                 && (r in db.perms.policies ==> policy.(paused := db.perms.policies[r].paused) == db.perms.policies[r])
                 && (r !in db.perms.policies ==> policy == Policy(Named, ReadyParticipantsOnly, paused, 0, 60))
                 && if paused then CalledOff(db.ledger, next.ledger, OnTheirWay(db.ledger, r, None),
                                             PermissionRevoked, now)
                    else next.ledger == db.ledger
  {
    OnTheirWayIsOutstanding(db.ledger, r, None);
    CancellingCallsOff(db.ledger, OnTheirWay(db.ledger, r, None), PermissionRevoked, now);
  }

  /** A grant needs an active relationship with an active account. */
  predicate Grantable(db: Db, r: Id, a: Id) {
    RelatedRow(db.perms, r, a) && a in db.dir.people && db.dir.people[a].active
  }

  /** A grant is given exactly where it can be, and withdrawn always; withdrawing calls off what the actor has on its
      way. A recipient without a policy gets the defaults. */
  lemma GrantWritesExactly(db: Db, r: Id, a: Id, granted: bool, now: Time, clock: Time)
    ensures var tx := Consent.SetGrant(db, r, a, granted, now, clock);
            var next := Next(db, SetGrant(r, a, granted, now, clock));
            && (tx.Committed? <==> Managed(db, r))
            && if !Managed(db, r) then next == db
               else
                 && (tx.answer == Consent.ConnectionRequired <==> granted && !Grantable(db, r, a))
                 && OnlyControlsOf(db, next, r, clock)
                 && next.perms.policies[r] == (if r in db.perms.policies then db.perms.policies[r]
                                               else Policy(Named, ReadyParticipantsOnly, false, 0, 60))
                 && (forall b, c :: (b, c) in next.perms.grants <==>
                                      if b == r && c == a
                                      then granted && (Grantable(db, r, a) || (r, a) in db.perms.grants)
                                      else (b, c) in db.perms.grants)
                 && if granted then next.ledger == db.ledger
                    else CalledOff(db.ledger, next.ledger, OnTheirWay(db.ledger, r, Some(a)), PermissionRevoked, now)
  {
    OnTheirWayIsOutstanding(db.ledger, r, Some(a));
    CancellingCallsOff(db.ledger, OnTheirWay(db.ledger, r, Some(a)), PermissionRevoked, now);
  }

  // Pauses over a run.

  predicate Pausing(db: Db, r: Id) {
    r in db.perms.policies && db.perms.policies[r].paused
  }

  predicate SetsPause(db: Db, step: Step, r: Id) {
    step.SetPaused? && step.recipient == r && Managed(db, r)
  }

  /** What the last of the first `i` steps that set the recipient's pause made of it. */
  ghost predicate LastPaused(states: seq<Db>, steps: seq<Step>, i: nat, r: Id)
    requires i <= |steps| < |states|
  {
    if i == 0 then Pausing(states[0], r)
    else if SetsPause(states[i - 1], steps[i - 1], r) then steps[i - 1].paused
    else LastPaused(states, steps, i - 1, r)
  }

  lemma IssueKeepsPermissions(db: Db, step: Step)
    requires step.Issue?
    ensures Next(db, step).perms == db.perms
  {
    if Admission.StepAdmits(db, step) {
      Admission.AdmitEffect(db, step.input, step.request, step.command, step.clock);
    } else {
      Admission.NoAdmitEffect(db, step.input, step.request, step.command, step.clock);
    }
  }

  predicate TouchesPermissions(step: Step) {
    step.SetPaused? || step.SetGrant? || step.Invite? || step.Accept? || step.Disconnect? || step.Cleanup?
    || step.Environment?
  }

  lemma OthersKeepPermissions(db: Db, step: Step)
    requires !TouchesPermissions(step)
    ensures Next(db, step).perms == db.perms
  {
    if step.Issue? {
      IssueKeepsPermissions(db, step);
    }
  }

  lemma ConnectingKeepsPolicies(db: Db, step: Step)
    requires step.Invite? || step.Accept? || step.Disconnect? || step.Cleanup?
    ensures Next(db, step).perms.policies == db.perms.policies
  {}

  lemma StepSetsPause(db: Db, step: Step, next: Db, r: Id)
    requires Transition(db, step, next)
    ensures Pausing(next, r) <==> if SetsPause(db, step, r) then step.paused else Pausing(db, r)
  {
    if step.SetPaused? {
      PauseWritesExactly(db, step.recipient, step.paused, step.now, step.clock);
    } else if step.SetGrant? {
      GrantWritesExactly(db, step.recipient, step.actor, step.granted, step.now, step.clock);
    } else if step.Environment? {
    } else if TouchesPermissions(step) {
      ConnectingKeepsPolicies(db, step);
    } else {
      OthersKeepPermissions(db, step);
    }
  }

  lemma PauseFolds(states: seq<Db>, steps: seq<Step>, k: nat, r: Id)
    requires k < |steps| < |states| && Transition(states[k], steps[k], states[k + 1])
    requires Pausing(states[k], r) <==> LastPaused(states, steps, k, r)
    ensures Pausing(states[k + 1], r) <==> LastPaused(states, steps, k + 1, r)
  {
    StepSetsPause(states[k], steps[k], states[k + 1], r);
  }

  /** Throughout any run a recipient is paused exactly if the last pause that was set says so. */
  lemma PausedExactly(states: seq<Db>, steps: seq<Step>, i: nat, r: Id)
    requires ValidRun(states, steps) && i <= |steps|
    ensures Pausing(states[i], r) <==> LastPaused(states, steps, i, r)
  {
    for k := 0 to i
      invariant Pausing(states[k], r) <==> LastPaused(states, steps, k, r)
    {
      PauseFolds(states, steps, k, r);
    }
  }

  /** No step from the i-th to before the j-th sets the recipient's pause. */
  ghost predicate PauseUntouched(states: seq<Db>, steps: seq<Step>, i: nat, j: nat, r: Id)
    requires j <= |steps| < |states|
  {
    forall k {:trigger steps[k]} :: i <= k < j ==> !SetsPause(states[k], steps[k], r)
  }

  lemma LastPauseStands(states: seq<Db>, steps: seq<Step>, i: nat, j: nat, r: Id)
    requires i < j <= |steps| < |states| && SetsPause(states[i], steps[i], r)
    requires PauseUntouched(states, steps, i + 1, j, r)
    ensures LastPaused(states, steps, j, r) == steps[i].paused
  {
    for k := i + 1 to j
      invariant LastPaused(states, steps, k, r) == steps[i].paused
    {
      assert !SetsPause(states[k], steps[k], r);
    }
  }

  lemma PauseDecides(db: Db, step: Step, paused: bool)
    requires Inv(db) && step.Issue? && Pausing(db, step.input.recipient) == paused
    ensures paused ==> !Admission.StepAdmits(db, step)
    ensures NewKey(db.ledger, step.input) && Decidable(db, step.input) && !Malformed(db, step.input, step.request)
            && !Obstacle(db, step.input, ActorRestricted) && !Obstacle(db, step.input, PermissionRequired) ==>
              (Refuses(db, step, RecipientPaused) <==> paused)
  {
    AdmittedExactly(db, step.input, step.request, step.command, step.clock);
    if NewKey(db.ledger, step.input) && Decidable(db, step.input) {
      VerdictExactly(db, step.input, step.request, step.command, step.clock);
      assert Obstacle(db, step.input, RecipientPaused) == paused;
    }
  }

  /** The issue is answered with that rejection. */
  ghost predicate Refuses(db: Db, step: Step, reason: RejectionReason) {
    && step.Issue?
    && var tx := Issuance.Issue(db, step.input, step.request, step.command, step.clock);
    && tx.Committed? && tx.answer == Issuance.RejectedAs(step.request, reason)
  }

  /** Between a pause and the recipient's next no command to the recipient is admitted, and every new request that is
      otherwise permitted is refused for the pause; after an unpause none is. */
  lemma PauseStopsExactly(states: seq<Db>, steps: seq<Step>, i: nat, j: nat)
    requires ValidRun(states, steps) && Inv(states[0]) && i < j < |steps| && steps[j].Issue?
    requires SetsPause(states[i], steps[i], steps[j].input.recipient)
    requires PauseUntouched(states, steps, i + 1, j, steps[j].input.recipient)
    ensures steps[i].paused ==> !Admission.StepAdmits(states[j], steps[j])
    ensures var db, input := states[j], steps[j].input;
            NewKey(db.ledger, input) && Decidable(db, input) && !Malformed(db, input, steps[j].request)
            && db.dir.people[input.actor].active && Permitted(db, input) ==>
              (Refuses(db, steps[j], RecipientPaused) <==> steps[i].paused)
  {
    RunInv(states, steps, j);
    PausedExactly(states, steps, j, steps[j].input.recipient);
    LastPauseStands(states, steps, i, j, steps[j].input.recipient);
    PauseDecides(states[j], steps[j], steps[i].paused);
  }
}
