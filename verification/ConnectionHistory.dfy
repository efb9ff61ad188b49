/** Who is connected and who is granted is what invitations, disconnections and grants last made of it. */
module ConnectionHistory {
  import opened Schema
  import opened Wrappers
  import opened Protocol
  import opened Reachability
  import opened ConsentHistory
  import opened Verdicts
  import ConsentSafety
  import Relationships
  import Retention

  // Disconnecting.

  predicate Together(db: Db, p: Id, q: Id) {
    p != q && Managed(db, p) && Managed(db, q) && RelatedRow(db.perms, p, q)
  }

  /** The step ends the relationship of these two people. */
  predicate Parts(db: Db, step: Step, p: Id, q: Id) {
    && step.Disconnect? && {step.person, step.other} == {p, q} && Together(db, p, q)
    && db.perms.relationships[Pair(p, q)].createdAt <= step.now
  }

  function Opened(db: Db, recipients: map<Id, RecipientState>, p: Id, clock: Time): map<Id, RecipientState> {
    if p in db.dir.people && p !in recipients then recipients[p := RecipientState(clock, 0, None, 0)] else recipients
  }

  /** Everything on its way between the two, in either direction. */
  function OnTheirWayBetween(l: Ledger, p: Id, q: Id): set<Id> {
    set c | c in l.commands && l.commands[c].status in {Queued, Dispatched}
            && ((l.commands[c].actor == p && l.commands[c].recipient == q)
                || (l.commands[c].actor == q && l.commands[c].recipient == p))
  }

  /** What ends a relationship: both grants go with it, and everything on its way between the two is called off. */
  ghost predicate Parted(db: Db, next: Db, p: Id, q: Id, now: Time)
    requires Pair(p, q) in db.perms.relationships
  {
    && next.perms == db.perms.(relationships := next.perms.relationships, grants := next.perms.grants)
    && next.perms.relationships ==
       db.perms.relationships[
         Pair(p, q) := Relationship(false, db.perms.relationships[Pair(p, q)].createdAt, Some(now))]
    && next.perms.grants == db.perms.grants - {(p, q), (q, p)}
    && CalledOff(db.ledger, next.ledger, OnTheirWayBetween(db.ledger, p, q), PermissionRevoked, now)
  }

  /** Two connected people with controls are disconnected, unless the clock is behind their relationship, which is an
      error; anything else changes nothing but opens counter rows. */
  lemma DisconnectWritesExactly(db: Db, p: Id, q: Id, now: Time)
    ensures var tx, next := Relationships.Disconnect(db, p, q, now), Next(db, Disconnect(p, q, now));
            && (tx.Aborted? <==> Together(db, p, q) && now < db.perms.relationships[Pair(p, q)].createdAt)
            && (tx.Committed? ==>
                  (tx.answer == Relationships.Disconnected <==> Parts(db, Disconnect(p, q, now), p, q)))
            && next.dir == db.dir && next.fleet == db.fleet
            && (if tx.Aborted? then next == db
                else next.counters == Counters(Opened(db, Opened(db, db.counters.recipients, p, now), q, now),
                                               db.counters.senders))
            && if Parts(db, Disconnect(p, q, now), p, q) then Parted(db, next, p, q, now)
               else next.perms == db.perms && next.ledger == db.ledger
  {
    assert OnTheirWayBetween(db.ledger, p, q) == Relationships.OutstandingBetween(db.ledger, p, q);
    CancellingCallsOff(db.ledger, OnTheirWayBetween(db.ledger, p, q), PermissionRevoked, now);
  }

  // Accepting an invitation.

  /** The invitation is unused, not superseded and not expired, and leads from one active person to another. */
  predicate Redeemable(db: Db, i: Id, accepter: Id, digest: Digest, now: Time) {
    && i in db.perms.invitations
    && var row := db.perms.invitations[i];
    && row.digest == digest && row.usedAt == None && row.invalidatedAt == None && now < row.expiresAt
    && row.inviter != accepter
    && row.inviter in db.dir.people && db.dir.people[row.inviter].active
    && accepter in db.dir.people && db.dir.people[accepter].active
  }

  /** The step uses that invitation. */
  predicate Redeems(db: Db, step: Step, i: Id) {
    && step.Accept? && i !in step.deleted && Redeemable(db, i, step.accepter, step.digest, step.now)
    && db.perms.invitations[i].createdAt <= step.now
  }

  lemma FindsExactly(db: Db, i: Id, digest: Digest, deleted: set<Id>)
    requires Retention.UniqueDigests(db.perms.invitations)
    ensures var kept := db.perms.invitations - deleted;
            Relationships.FindInvitation(kept, digest) == Some(i) <==>
            i in db.perms.invitations && i !in deleted && db.perms.invitations[i].digest == digest
  {
    var kept := db.perms.invitations - deleted;
    if i in kept && kept[i].digest == digest {
      assert Relationships.IsInvitation(kept, i, digest);
      var found := Relationships.FindInvitation(kept, digest);
      assert Relationships.IsInvitation(db.perms.invitations, found.value, digest);
      assert Relationships.IsInvitation(db.perms.invitations, i, digest);
    }
  }

  /** What a used invitation makes of two people: connected from now on, and without the grants of an earlier time. */
  ghost predicate Joined(db: Db, next: Db, i: Id, accepter: Id, now: Time, deleted: set<Id>)
    requires i in db.perms.invitations
  {
    var row := db.perms.invitations[i];
    var pair := Pair(row.inviter, accepter);
    && next == db.(perms := next.perms)
    && next.perms == db.perms.(invitations := next.perms.invitations, relationships := next.perms.relationships,
       grants := next.perms.grants)
    && next.perms.invitations == (db.perms.invitations - deleted)[i := row.(usedAt := Some(now))]
    && if RelatedRow(db.perms, row.inviter, accepter) then
         next.perms.relationships == db.perms.relationships && next.perms.grants == db.perms.grants
       else
         && next.perms.relationships == db.perms.relationships[pair := Relationship(true, now, None)]
         && next.perms.grants == (if pair in db.perms.relationships
                                  then db.perms.grants - {(row.inviter, accepter), (accepter, row.inviter)}
                                  else db.perms.grants)
  }

  /** An invitation is used exactly if it can be redeemed and was not just deleted; it connects two people who were
      not connected. A clock behind the invitation is an error. */
  lemma AcceptWritesExactly(db: Db, p: Id, digest: Digest, now: Time, deleted: set<Id>)
    requires Retention.UniqueDigests(db.perms.invitations)
    ensures var tx := Relationships.AcceptInvitation(db, p, digest, now, deleted);
            var step := Accept(p, digest, now, deleted);
            var next := Next(db, step);
            && (tx.Committed? && tx.answer == Relationships.InvitationUnavailable ==>
                  next == SetInvitations(db, db.perms.invitations - deleted))
            && (forall i :: i in db.perms.invitations && Redeems(db, step, i) ==>
                              && Joined(db, next, i, p, now, deleted) && tx.Committed?
                              && tx.answer == (if RelatedRow(db.perms, db.perms.invitations[i].inviter, p)
                                               then Relationships.AlreadyConnected else Relationships.NowConnected))
            && (tx.Committed? && tx.answer != Relationships.InvitationUnavailable <==>
                exists i :: Redeems(db, step, i))
            && (tx.Aborted? <==>
                exists i :: i !in deleted && Redeemable(db, i, p, digest, now)
                            && now < db.perms.invitations[i].createdAt)
            && (tx.Aborted? ==> next == db)
  {
    forall i: Id
      ensures Relationships.FindInvitation(db.perms.invitations - deleted, digest) == Some(i) <==>
              i in db.perms.invitations && i !in deleted && db.perms.invitations[i].digest == digest
    {
      FindsExactly(db, i, digest, deleted);
    }
    var found := Relationships.FindInvitation(db.perms.invitations - deleted, digest);
    if found.Some? {
      AcceptFound(db, p, digest, now, deleted, found.value);
    }
  }

  lemma AcceptFound(db: Db, p: Id, digest: Digest, now: Time, deleted: set<Id>, i: Id)
    requires Relationships.FindInvitation(db.perms.invitations - deleted, digest) == Some(i)
    ensures var tx := Relationships.AcceptInvitation(db, p, digest, now, deleted);
            var step := Accept(p, digest, now, deleted);
            var next := Next(db, step);
            && (Redeems(db, step, i) <==> tx.Committed? && tx.answer != Relationships.InvitationUnavailable)
            && (tx.Aborted? <==> Redeemable(db, i, p, digest, now) && now < db.perms.invitations[i].createdAt)
            && (Redeems(db, step, i) ==>
                  && Joined(db, next, i, p, now, deleted)
                  && tx.answer == (if RelatedRow(db.perms, db.perms.invitations[i].inviter, p)
                                   then Relationships.AlreadyConnected else Relationships.NowConnected))
  {}

  // Over runs.

  /** The step connects these two people, by an invitation of either. */
  ghost predicate Joins(db: Db, step: Step, p: Id, q: Id) {
    exists i :: i in db.perms.invitations && Redeems(db, step, i)
                && {db.perms.invitations[i].inviter, step.accepter} == {p, q}
  }

  /** What the last of the first `i` steps that joined or parted the two made of them. */
  ghost predicate LastRelated(states: seq<Db>, steps: seq<Step>, i: nat, p: Id, q: Id)
    requires i <= |steps| < |states|
  {
    if i == 0 then RelatedRow(states[0].perms, p, q)
    else if Joins(states[i - 1], steps[i - 1], p, q) then true
    else !Parts(states[i - 1], steps[i - 1], p, q) && LastRelated(states, steps, i - 1, p, q)
  }

  lemma OthersKeepConnections(db: Db, step: Step)
    requires !step.SetGrant? && !step.Accept? && !step.Disconnect?
    ensures Next(db, step).perms.relationships == db.perms.relationships
    ensures Next(db, step).perms.grants == db.perms.grants
  {
    if !TouchesPermissions(step) {
      OthersKeepPermissions(db, step);
    }
  }

  lemma AcceptRelates(db: Db, step: Step, next: Db, p: Id, q: Id)
    requires Retention.UniqueDigests(db.perms.invitations) && Transition(db, step, next) && step.Accept?
    ensures RelatedRow(next.perms, p, q) <==> RelatedRow(db.perms, p, q) || Joins(db, step, p, q)
  {
    AcceptWritesExactly(db, step.accepter, step.digest, step.now, step.deleted);
    if i :| Redeems(db, step, i) {
      OnlyOneRedeemed(db, step, i);
      assert Joined(db, next, i, step.accepter, step.now, step.deleted);
    }
  }

  lemma OnlyOneRedeemed(db: Db, step: Step, i: Id)
    requires Retention.UniqueDigests(db.perms.invitations) && Redeems(db, step, i)
    ensures forall j :: Redeems(db, step, j) ==> j == i
  {
    assert Relationships.IsInvitation(db.perms.invitations, i, step.digest);
    assert forall j :: Redeems(db, step, j) ==> Relationships.IsInvitation(db.perms.invitations, j, step.digest);
  }

  lemma DisconnectRelates(db: Db, step: Step, next: Db, p: Id, q: Id)
    requires Transition(db, step, next) && step.Disconnect?
    ensures RelatedRow(next.perms, p, q) <==> RelatedRow(db.perms, p, q) && !Parts(db, step, p, q)
  {
    DisconnectWritesExactly(db, step.person, step.other, step.now);
  }

  lemma StepRelates(db: Db, step: Step, next: Db, p: Id, q: Id)
    requires Retention.UniqueDigests(db.perms.invitations) && Transition(db, step, next)
    ensures RelatedRow(next.perms, p, q) <==>
            Joins(db, step, p, q) || (!Parts(db, step, p, q) && RelatedRow(db.perms, p, q))
  {
    if step.Accept? {
      AcceptRelates(db, step, next, p, q);
    } else if step.Disconnect? {
      DisconnectRelates(db, step, next, p, q);
    } else if step.SetGrant? {
      GrantWritesExactly(db, step.recipient, step.actor, step.granted, step.now, step.clock);
    } else {
      OthersKeepConnections(db, step);
    }
  }

  lemma RelationFolds(states: seq<Db>, steps: seq<Step>, k: nat, p: Id, q: Id)
    requires k < |steps| < |states| && Transition(states[k], steps[k], states[k + 1])
    requires Retention.UniqueDigests(states[k].perms.invitations)
    requires RelatedRow(states[k].perms, p, q) <==> LastRelated(states, steps, k, p, q)
    ensures RelatedRow(states[k + 1].perms, p, q) <==> LastRelated(states, steps, k + 1, p, q)
  {
    StepRelates(states[k], steps[k], states[k + 1], p, q);
  }

  /** Throughout any run two people are connected exactly if the last step that joined or parted them joined them. */
  lemma RelatedExactly(states: seq<Db>, steps: seq<Step>, i: nat, p: Id, q: Id)
    requires ValidRun(states, steps) && Retention.UniqueDigests(states[0].perms.invitations) && i <= |steps|
    ensures RelatedRow(states[i].perms, p, q) <==> LastRelated(states, steps, i, p, q)
  {
    for k := 0 to i
      invariant RelatedRow(states[k].perms, p, q) <==> LastRelated(states, steps, k, p, q)
    {
      Retention.RunUnique(states, steps, k);
      RelationFolds(states, steps, k, p, q);
    }
  }

  /** The recipient grants the actor, and may. */
  predicate Gives(db: Db, step: Step, r: Id, a: Id) {
    step.SetGrant? && step.recipient == r && step.actor == a && step.granted && Managed(db, r) && Grantable(db, r, a)
  }

  /** The recipient withdraws the grant, or the two are parted. */
  predicate Takes(db: Db, step: Step, r: Id, a: Id) {
    || (step.SetGrant? && step.recipient == r && step.actor == a && !step.granted && Managed(db, r))
    || Parts(db, step, r, a)
  }

  /** What the last of the first `i` steps that gave or took the grant made of it. */
  ghost predicate LastGranted(states: seq<Db>, steps: seq<Step>, i: nat, r: Id, a: Id)
    requires i <= |steps| < |states|
  {
    if i == 0 then (r, a) in states[0].perms.grants
    else if Gives(states[i - 1], steps[i - 1], r, a) then true
    else !Takes(states[i - 1], steps[i - 1], r, a) && LastGranted(states, steps, i - 1, r, a)
  }

  lemma AcceptKeepsGrants(db: Db, step: Step, next: Db)
    requires Retention.UniqueDigests(db.perms.invitations) && ConsentSafety.GrantsRestOnRelationships(db.perms)
    requires Transition(db, step, next) && step.Accept?
    ensures next.perms.grants == db.perms.grants
  {
    AcceptWritesExactly(db, step.accepter, step.digest, step.now, step.deleted);
    if i :| Redeems(db, step, i) {
      ConsentSafety.NoGrantsIfApart(db.perms, db.perms.invitations[i].inviter, step.accepter);
    }
  }

  lemma StepGrants(db: Db, step: Step, next: Db, r: Id, a: Id)
    requires Retention.UniqueDigests(db.perms.invitations) && ConsentSafety.GrantsRestOnRelationships(db.perms)
    requires Transition(db, step, next)
    ensures (r, a) in next.perms.grants <==>
            Gives(db, step, r, a) || (!Takes(db, step, r, a) && (r, a) in db.perms.grants)
  {
    if step.Accept? {
      AcceptKeepsGrants(db, step, next);
    } else if step.Disconnect? {
      DisconnectWritesExactly(db, step.person, step.other, step.now);
    } else if step.SetGrant? {
      GrantWritesExactly(db, step.recipient, step.actor, step.granted, step.now, step.clock);
    } else {
      OthersKeepConnections(db, step);
    }
  }

  lemma GrantFolds(states: seq<Db>, steps: seq<Step>, k: nat, r: Id, a: Id)
    requires k < |steps| < |states| && Transition(states[k], steps[k], states[k + 1])
    requires Retention.UniqueDigests(states[k].perms.invitations)
    requires ConsentSafety.GrantsRestOnRelationships(states[k].perms)
    requires (r, a) in states[k].perms.grants <==> LastGranted(states, steps, k, r, a)
    ensures (r, a) in states[k + 1].perms.grants <==> LastGranted(states, steps, k + 1, r, a)
  {
    StepGrants(states[k], steps[k], states[k + 1], r, a);
  }

  lemma GrantsRest(states: seq<Db>, steps: seq<Step>, k: nat)
    requires ValidRun(states, steps) && Inv(states[0]) && k <= |steps|
    ensures ConsentSafety.GrantsRestOnRelationships(states[k].perms)
  {
    RunInv(states, steps, k);
  }

  /** Throughout any run a grant stands exactly if the last step that gave or took it gave it; reconnecting takes
      nothing. */
  lemma GrantedExactly(states: seq<Db>, steps: seq<Step>, i: nat, r: Id, a: Id)
    requires ValidRun(states, steps) && Inv(states[0]) && i <= |steps|
    requires Retention.UniqueDigests(states[0].perms.invitations)
    ensures (r, a) in states[i].perms.grants <==> LastGranted(states, steps, i, r, a)
  {
    for k := 0 to i
      invariant (r, a) in states[k].perms.grants <==> LastGranted(states, steps, k, r, a)
    {
      Retention.RunUnique(states, steps, k);
      GrantsRest(states, steps, k);
      GrantFolds(states, steps, k, r, a);
    }
  }
}
