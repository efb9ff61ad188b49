/** Consent stays true of every command that is still on its way.

    No store enforces this alone: issuing checks it, pausing, revoking and
    disconnecting cancel what they invalidate, and reconnecting is safe only
    because every grant rests on an active relationship. */
module ConsentSafety {
  import opened Schema
  import opened Protocol
  import opened Admission
  import Consent
  import Domain
  import Issuance
  import Relationships

  /** The recipient's audience scope admits the actor right now. */
  predicate InAudience(perms: Permissions, recipient: Id, actor: Id)
    requires recipient in perms.policies
  {
    match perms.policies[recipient].scope
    case Named => Related(perms, recipient, actor) && (recipient, actor) in perms.grants
    case Connected => Related(perms, recipient, actor)
    case AllAuthenticated => true
  }

  /** Replies bypass the audience; a pause stops everything. */
  predicate Consented(perms: Permissions, c: Command) {
    && c.recipient in perms.policies
    && !perms.policies[c.recipient].paused
    && (c.replyTo.None? ==> InAudience(perms, c.recipient, c.actor))
  }

  ghost predicate AllConsented(perms: Permissions, commands: map<Id, Command>) {
    forall c :: c in commands && Outstanding(commands[c]) ==> Consented(perms, commands[c])
  }

  ghost predicate GrantsRestOnRelationships(perms: Permissions) {
    forall r, a :: (r, a) in perms.grants ==> Related(perms, r, a)
  }

  ghost predicate ConsentInv(db: Db) {
    AllConsented(db.perms, db.ledger.commands) && GrantsRestOnRelationships(db.perms)
  }

  /** Permissions that consent depends on: everything but limits, cooldowns and invitations. */
  ghost predicate SameConsent(a: Permissions, b: Permissions) {
    && b.relationships == a.relationships && b.grants == a.grants
    && (forall r :: r in a.policies ==>
                      && r in b.policies && b.policies[r].scope == a.policies[r].scope
                      && b.policies[r].paused == a.policies[r].paused)
  }

  lemma ProgressKeepsConsent(db: Db, next: Db)
    requires ConsentInv(db) && SameConsent(db.perms, next.perms)
    requires OnlyProgress(db.ledger.commands, next.ledger.commands)
    ensures ConsentInv(next)
  {}

  lemma AdmitKeepsConsent(db: Db, step: Step)
    requires ConsentInv(db) && StepAdmits(db, step)
    ensures ConsentInv(Next(db, step))
  {
    AdmitEffect(db, step.input, step.request, step.command, step.clock);
    var prepared := Issuance.Prepared(db, step.input, step.clock);
    assert prepared.perms == db.perms;
    var facts := LoadedFor(db, step.input, step.clock).value.facts;
    assert Domain.HasAccess(facts) && !facts.recipientPaused;
  }

  lemma PauseKeepsConsent(db: Db, step: Step)
    requires ConsentInv(db) && step.SetPaused?
    ensures ConsentInv(Next(db, step))
  {
    StepProgress(db, step);
    var next := Next(db, step);
    forall c | c in next.ledger.commands && Outstanding(next.ledger.commands[c])
      ensures Consented(next.perms, next.ledger.commands[c])
    {
      assert Consented(db.perms, db.ledger.commands[c]);
    }
  }

  lemma WiderKeepsConsent(a: Permissions, b: Permissions, commands: map<Id, Command>)
    requires AllConsented(a, commands) && SameConsent(a, b.(grants := a.grants)) && a.grants <= b.grants
    ensures AllConsented(b, commands)
  {}

  lemma NewPolicyKeepsConsent(db: Db, recipient: Id, clock: Time)
    ensures var next := Consent.WithPolicy(Issuance.WithRecipient(db, recipient, clock), recipient);
            next.ledger == db.ledger && next.perms.grants == db.perms.grants && SameConsent(db.perms, next.perms)
  {}

  lemma GrantingWidens(db: Db, step: Step)
    requires step.SetGrant? && step.granted
    ensures var next := Next(db, step);
            && next.ledger == db.ledger && SameConsent(db.perms, next.perms.(grants := db.perms.grants))
            && (next.perms.grants == db.perms.grants
                || (next.perms.grants == db.perms.grants + {(step.recipient, step.actor)}
                    && Related(db.perms, step.recipient, step.actor)))
  {
    NewPolicyKeepsConsent(db, step.recipient, step.clock);
  }

  lemma GrantingKeepsConsent(db: Db, step: Step)
    requires ConsentInv(db) && step.SetGrant? && step.granted
    ensures ConsentInv(Next(db, step))
  {
    var next := Next(db, step);
    GrantingWidens(db, step);
    WiderKeepsConsent(db.perms, next.perms, db.ledger.commands);
    assert GrantsRestOnRelationships(next.perms);
  }

  lemma NarrowerKeepsConsent(a: Permissions, b: Permissions, before: map<Id, Command>, after: map<Id, Command>,
                             recipient: Id, actor: Id)
    requires AllConsented(a, before) && SameConsent(a, b.(grants := a.grants)) && OnlyProgress(before, after)
    requires b.grants == a.grants - {(recipient, actor)}
    requires forall c :: c in after && Outstanding(after[c]) ==>
             after[c].recipient != recipient || after[c].actor != actor
    ensures AllConsented(b, after)
  {
    forall c | c in after && Outstanding(after[c])
      ensures Consented(b, after[c])
    {
      assert Consented(a, before[c]);
    }
  }

  lemma WithdrawalCancels(db: Db, step: Step)
    requires step.SetGrant? && !step.granted
    ensures var next := Next(db, step);
            next == db
            || (&& SameConsent(db.perms, next.perms.(grants := db.perms.grants))
                && next.perms.grants == db.perms.grants - {(step.recipient, step.actor)}
                && forall c :: c in next.ledger.commands && Outstanding(next.ledger.commands[c]) ==>
                                 next.ledger.commands[c].recipient != step.recipient
                                 || next.ledger.commands[c].actor != step.actor)
  {}

  lemma WithdrawingKeepsConsent(db: Db, step: Step)
    requires ConsentInv(db) && step.SetGrant? && !step.granted
    ensures ConsentInv(Next(db, step))
  {
    var next := Next(db, step);
    if next != db {
      StepProgress(db, step);
      WithdrawalCancels(db, step);
      NarrowerKeepsConsent(db.perms, next.perms, db.ledger.commands, next.ledger.commands, step.recipient, step.actor);
    }
  }

  /** Reconnecting deletes the pair's grants without cancelling: there are none to delete. */
  lemma NoGrantsWhileApart(perms: Permissions, p: Id, q: Id)
    requires GrantsRestOnRelationships(perms) && !Related(perms, p, q)
    ensures Relationships.Unlinked(perms.grants, p, q) == perms.grants
  {
    assert Pair(p, q) == Pair(q, p);
  }

  lemma AcceptKeepsConsent(db: Db, step: Step)
    requires ConsentInv(db) && step.Accept?
    ensures ConsentInv(Next(db, step))
  {
    var next := Next(db, step);
    var kept := db.perms.invitations - step.deleted;
    var found := Relationships.FindInvitation(kept, step.digest);
    if found.Some? {
      NoGrantsIfApart(db.perms, kept[found.value].inviter, step.accepter);
    }
    assert next.ledger == db.ledger;
  }

  lemma NoGrantsIfApart(perms: Permissions, p: Id, q: Id)
    requires GrantsRestOnRelationships(perms)
    ensures !Related(perms, p, q) ==> Relationships.Unlinked(perms.grants, p, q) == perms.grants
  {
    if !Related(perms, p, q) {
      NoGrantsWhileApart(perms, p, q);
    }
  }

  lemma DisconnectKeepsConsent(db: Db, step: Step)
    requires ConsentInv(db) && step.Disconnect?
    ensures ConsentInv(Next(db, step))
  {
    StepProgress(db, step);
    var next := Next(db, step);
    forall c | c in next.ledger.commands && Outstanding(next.ledger.commands[c])
      ensures Consented(next.perms, next.ledger.commands[c])
    {
      assert Consented(db.perms, db.ledger.commands[c]);
    }
  }

  lemma OtherStepsKeepPermissions(db: Db, step: Step)
    requires !StepAdmits(db, step)
    requires !step.SetPaused? && !step.SetGrant? && !step.Accept? && !step.Disconnect?
    ensures SameConsent(db.perms, Next(db, step).perms)
  {
    if step.Issue? {
      NoAdmitEffect(db, step.input, step.request, step.command, step.clock);
    }
  }

  lemma OtherStepsKeepConsent(db: Db, step: Step)
    requires ConsentInv(db) && !StepAdmits(db, step)
    requires !step.SetPaused? && !step.SetGrant? && !step.Accept? && !step.Disconnect?
    ensures ConsentInv(Next(db, step))
  {
    var next := Next(db, step);
    StepProgress(db, step);
    OtherStepsKeepPermissions(db, step);
    ProgressKeepsConsent(db, next);
  }

  lemma StepKeepsConsent(db: Db, step: Step)
    requires ConsentInv(db)
    ensures ConsentInv(Next(db, step))
  {
    match step
    case SetPaused(_, _, _, _) => PauseKeepsConsent(db, step);
    case SetGrant(_, _, granted, _, _) =>
      if granted { GrantingKeepsConsent(db, step); } else { WithdrawingKeepsConsent(db, step); }
    case Accept(_, _, _, _) => AcceptKeepsConsent(db, step);
    case Disconnect(_, _, _) => DisconnectKeepsConsent(db, step);
    case _ => if StepAdmits(db, step) { AdmitKeepsConsent(db, step); } else { OtherStepsKeepConsent(db, step); }
  }
}
