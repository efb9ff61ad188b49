/** Which senders can reach whom: exactly those that the recipient's eligibility setting admits. */
module Eligibility {
  import opened Schema
  import opened Wrappers
  import opened Protocol
  import opened Admission
  import opened Reachability
  import opened Scenario
  import opened Verdicts
  import Domain
  import Issuance

  /** The step admits a command of such a sender to a recipient with that setting. */
  ghost predicate AdmitsSender(db: Db, step: Step, eligibility: Eligibility, participation: Participation,
                               availability: Availability) {
    && StepAdmits(db, step)
    && step.input.recipient in db.perms.policies && step.input.actor in db.dir.people
    && db.perms.policies[step.input.recipient].eligibility == eligibility
    && db.dir.people[step.input.actor].participation == participation
    && db.dir.people[step.input.actor].availability == availability
  }

  /** Some database admits such a sender; any database, or one that satisfies the joint invariant. */
  ghost predicate SenderReaches(eligibility: Eligibility, participation: Participation, availability: Availability,
                                sound: bool) {
    exists db: Db, step: Step ::
      (sound ==> Inv(db)) && AdmitsSender(db, step, eligibility, participation, availability)
  }

  lemma AdmittedSenders(db: Db, step: Step, eligibility: Eligibility, participation: Participation,
                        availability: Availability)
    requires AdmitsSender(db, step, eligibility, participation, availability)
    ensures SenderAdmitted(eligibility, participation, availability)
  {
    AdmitEffect(db, step.input, step.request, step.command, step.clock);
    var facts := LoadedFor(db, step.input, step.clock).value.facts;
    Domain.DeniedForFirstReason(facts, step.input.now);
    assert !Domain.Blocks(facts, step.input.now, PermissionRequired);
  }

  /** Person 2, whatever the state of the account, and person 1, who admits everyone that the setting admits. */
  function Aspirant(eligibility: Eligibility, participation: Participation, availability: Availability): Db {
    var db := IdleDb(60);
    db.(dir := db.dir.(people := db.dir.people[2 := Person(true, participation, availability)]),
    perms := db.perms.(policies := map[1 := Policy(AllAuthenticated, eligibility, false, 5, 60)]))
  }

  lemma AspirantInv(eligibility: Eligibility, participation: Participation, availability: Availability)
    ensures Inv(Aspirant(eligibility, participation, availability))
  {
    var db := Aspirant(eligibility, participation, availability);
    IdleFleet(60);
    GenesisInv(db.(fleet := Fleet(map[], map[], map[], map[])));
  }

  const ASPIRATION: Step := Issue(Issuance.Input(2, 1, 9, Eject, None, 0), 10, 12, 0)

  lemma AspirantAdmitted(eligibility: Eligibility, participation: Participation, availability: Availability)
    requires SenderAdmitted(eligibility, participation, availability)
    ensures AdmitsSender(Aspirant(eligibility, participation, availability), ASPIRATION,
                         eligibility, participation, availability)
  {
    var db, input := Aspirant(eligibility, participation, availability), ASPIRATION.input;
    IdleFleet(60);
    assert TargetOf(db, 1, 7);
    assert Permitted(db, input) && WithinLimits(db, input);
    AdmittedExactly(db, input, 10, 12, 0);
  }

  /** A sender with that participation and availability can reach a recipient with that setting exactly when the
      setting admits every account, or the sender is a ready participant who is available. */
  lemma SenderReachesExactly(eligibility: Eligibility, participation: Participation, availability: Availability,
                             sound: bool)
    ensures SenderReaches(eligibility, participation, availability, sound) <==>
            eligibility == AuthenticatedAccounts || (participation == ParticipationReady && availability == Available)
  {
    if SenderAdmitted(eligibility, participation, availability) {
      AspirantInv(eligibility, participation, availability);
      AspirantAdmitted(eligibility, participation, availability);
    } else if SenderReaches(eligibility, participation, availability, sound) {
      var db: Db, step: Step :| (sound ==> Inv(db)) && AdmitsSender(db, step, eligibility, participation, availability);
      AdmittedSenders(db, step, eligibility, participation, availability);
      assert false;
    }
  }
}
