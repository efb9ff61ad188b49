/** When a command needs its recipient's grant: exactly for a plain eject to someone who admits named people only. */
module Grants {
  import opened Schema
  import opened Wrappers
  import opened Protocol
  import opened Admission
  import opened Reachability
  import ConsentSafety
  import Domain
  import FleetInvariants
  import Issuance
  import ReplyChains

  /** Every command with that action, admitted to a recipient with that audience, is granted by the recipient; in all
      databases or in those that satisfy the joint invariant. */
  ghost predicate NeedsGrant(scope: Scope, action: Action, sound: bool) {
    forall db: Db, step: Step :: (sound ==> Inv(db)) && AdmitsUnder(db, step, scope, action) ==>
                                   (step.input.recipient, step.input.actor) in db.perms.grants
  }

  ghost predicate AdmitsUnder(db: Db, step: Step, scope: Scope, action: Action) {
    && StepAdmits(db, step) && step.input.action == action
    && step.input.recipient in db.perms.policies && db.perms.policies[step.input.recipient].scope == scope
  }

  lemma NamedEjectIsGranted(db: Db, step: Step)
    requires AdmitsUnder(db, step, Named, Eject)
    ensures (step.input.recipient, step.input.actor) in db.perms.grants
  {
    AdmitEffect(db, step.input, step.request, step.command, step.clock);
    ReplyChains.AdmissionChecked(db, step);
  }

  /** Persons 1 and 2 are connected and have granted each other nothing; each has a device, and 1 admits `scope`. */
  function Acquainted(scope: Scope): Db {
    var person := Person(true, ParticipationReady, Available);
    var policies := map[1 := Policy(scope, AuthenticatedAccounts, false, 5, 60),
                        2 := Policy(AllAuthenticated, AuthenticatedAccounts, false, 5, 60)];
    Db(Directory(map[1 := person, 2 := person], SystemPolicy(true, Some(5)),
                 map[1 := Entitlement(5, None), 2 := Entitlement(5, None)]),
       Permissions(policies, {}, map[(1, 2) := Relationship(true, 0, None)], {}, map[]),
       Fleet(map[7 := Device(1, Ready, Available, true), 8 := Device(2, Ready, Available, true)], map[], map[], map[]),
       Counters(map[], map[]), Ledger(map[], map[], map[], map[]))
  }

  lemma AcquaintedFleet(scope: Scope)
    ensures FleetInvariants.FleetInv(Acquainted(scope))
  {}

  lemma AcquaintedConsent(scope: Scope)
    ensures ConsentSafety.ConsentInv(Acquainted(scope))
  {}

  lemma AcquaintedInv(scope: Scope)
    ensures Inv(Acquainted(scope))
  {
    var db := Acquainted(scope);
    AcquaintedFleet(scope);
    AcquaintedConsent(scope);
    GenesisInv(db.(fleet := Fleet(map[], map[], map[], map[]), perms := db.perms.(relationships := map[])));
  }

  lemma TargetOf(db: Db, p: Id)
    requires db.fleet.devices == Acquainted(Named).fleet.devices && p in {1, 2}
    ensures Issuance.LiveDevice(db.fleet.devices, p) == Some(p + 6)
  {
    assert Issuance.IsLiveDevice(db.fleet.devices, p + 6, p);
  }

  /** `actor` ejects the other of the two, as the first request of the deployment. */
  function FirstEject(actor: Id): Step {
    Issue(Issuance.Input(actor, if actor == 1 then 2 else 1, 9, Eject, None, 0), 10, 11, 0)
  }

  lemma FirstEjectAdmitted(scope: Scope, actor: Id)
    requires actor == 1 || (actor == 2 && scope != Named)
    ensures StepAdmits(Acquainted(scope), FirstEject(actor))
  {
    var db, input := Acquainted(scope), FirstEject(actor).input;
    assert Issuance.FindRequest(db.ledger, actor, 9).None?;
    TargetOf(db, input.recipient);
    assert Issuance.Prepared(db, input, 0).counters ==
           Counters(map[input.recipient := RecipientState(0, 0, None, 0)],
                    map[actor := SenderState(0, 0, SENDER_LIMIT)]);
    AllowedAdmits(db, input, 10, 11, 0);
  }

  const EJECT_BACK: Step := Issue(Issuance.Input(2, 1, 8, EjectBack, Some(11), 0), 12, 13, 0)

  lemma AfterFirstEject(scope: Scope)
    ensures var db, start := Next(Acquainted(scope), FirstEject(1)), Acquainted(scope);
            && db.dir == start.dir && db.perms == start.perms && db.fleet == start.fleet
            && db.counters.recipients.Keys == {2} && db.counters.senders.Keys == {1}
            && db.ledger.requests == map[10 := Issuance.RequestRow(FirstEject(1).input, WasQueued(11))]
            && db.ledger.commands == map[11 := Issuance.CommandRow(FirstEject(1).input, 10, 8)]
  {
    var db, input := Acquainted(scope), FirstEject(1).input;
    FirstEjectAdmitted(scope, 1);
    TargetOf(db, 2);
    AdmitEffect(db, input, 10, 11, 0);
  }

  lemma EjectBackAllowed(db: Db, scope: Scope)
    requires var start := Acquainted(scope); db.dir == start.dir && db.perms == start.perms && db.fleet == start.fleet
    requires db.counters.recipients.Keys == {2} && db.counters.senders.Keys == {1}
    requires db.ledger.commands == map[11 := Issuance.CommandRow(FirstEject(1).input, 10, 8)]
    ensures LoadedFor(db, EJECT_BACK.input, 0).Some? && LoadedFor(db, EJECT_BACK.input, 0).value.device.Some?
    ensures Domain.AuthorizeEject(LoadedFor(db, EJECT_BACK.input, 0).value.facts, 0).Allow?
  {
    var prepared := Issuance.Prepared(db, EJECT_BACK.input, 0);
    TargetOf(db, 1);
    assert !Issuance.Replied(db.ledger, 11);
    assert prepared.counters.recipients[1] == RecipientState(0, 0, None, 0);
    assert prepared.counters.senders[2] == SenderState(0, 0, SENDER_LIMIT);
  }

  lemma EjectBackAdmitted(scope: Scope)
    ensures StepAdmits(Next(Acquainted(scope), FirstEject(1)), EJECT_BACK)
  {
    var db, input := Next(Acquainted(scope), FirstEject(1)), EJECT_BACK.input;
    AfterFirstEject(scope);
    assert Issuance.FindRequest(db.ledger, 2, 8).None?;
    EjectBackAllowed(db, scope);
    AllowedAdmits(db, input, 12, 13, 0);
  }

  lemma UngrantedEject(scope: Scope)
    requires scope != Named
    ensures Inv(Acquainted(scope)) && AdmitsUnder(Acquainted(scope), FirstEject(2), scope, Eject)
    ensures Acquainted(scope).perms.grants == {}
  {
    AcquaintedInv(scope);
    FirstEjectAdmitted(scope, 2);
  }

  lemma UngrantedReply(scope: Scope)
    ensures var db := Next(Acquainted(scope), FirstEject(1));
            Inv(db) && AdmitsUnder(db, EJECT_BACK, scope, EjectBack) && db.perms.grants == {}
  {
    AcquaintedInv(scope);
    StepKeepsInv(Acquainted(scope), FirstEject(1));
    AfterFirstEject(scope);
    EjectBackAdmitted(scope);
  }

  /** In every other case some sound database admits a command that nobody has granted. */
  lemma Ungranted(scope: Scope, action: Action) returns (db: Db, step: Step)
    requires scope != Named || action != Eject
    ensures Inv(db) && AdmitsUnder(db, step, scope, action) && db.perms.grants == {}
  {
    if action == Eject {
      UngrantedEject(scope);
      db, step := Acquainted(scope), FirstEject(2);
    } else {
      UngrantedReply(scope);
      db, step := Next(Acquainted(scope), FirstEject(1)), EJECT_BACK;
    }
  }

  /** Over all databases and steps, and just so over the sound ones: a grant stands behind every admitted command
      exactly for plain ejects to recipients who admit named people only. */
  lemma GrantNeededExactly(scope: Scope, action: Action, sound: bool)
    ensures NeedsGrant(scope, action, sound) <==> scope == Named && action == Eject
  {
    if scope == Named && action == Eject {
      forall db: Db, step: Step | AdmitsUnder(db, step, scope, action)
        ensures (step.input.recipient, step.input.actor) in db.perms.grants
      {
        NamedEjectIsGranted(db, step);
      }
    } else {
      var db, step := Ungranted(scope, action);
      assert AdmitsUnder(db, step, scope, action);
    }
  }
}
