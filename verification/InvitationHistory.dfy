/** Which invitation codes can be used is what invitations, their use and their deletion last made of them. */
module InvitationHistory {
  import opened Schema
  import opened Wrappers
  import opened Protocol
  import opened ConnectionHistory
  import Relationships
  import Retention

  // What a step writes.

  predicate Unspent(row: Invitation) {
    row.usedAt == None && row.invalidatedAt == None
  }

  predicate ActiveAccount(db: Db, p: Id) {
    p in db.dir.people && db.dir.people[p].active
  }

  /** A table check fails: the identifier or the digest is taken, or the clock is behind an invitation that the new one
      supersedes. */
  ghost predicate Clashes(kept: map<Id, Invitation>, id: Id, inviter: Id, digest: Digest, now: Time) {
    || id in kept
    || (exists i :: i in kept && kept[i].digest == digest)
    || (exists i :: i in kept && kept[i].inviter == inviter && Unspent(kept[i]) && now < kept[i].createdAt)
  }

  /** The step adds an invitation. */
  ghost predicate Creates(db: Db, step: Step) {
    && step.Invite? && ActiveAccount(db, step.inviter)
    && !Clashes(db.perms.invitations - step.deleted, step.id, step.inviter, step.digest, step.now)
  }

  /** An active person gets an invitation for ten minutes, which supersedes the person's unspent ones; after an error
      nothing is changed, not even what was cleaned up. */
  lemma InviteWritesExactly(db: Db, id: Id, inviter: Id, digest: Digest, now: Time, deleted: set<Id>)
    ensures var tx, step := Relationships.CreateInvitation(db, id, inviter, digest, now, deleted),
                            Invite(id, inviter, digest, now, deleted);
            var next, kept := Next(db, step), db.perms.invitations - deleted;
            && (tx.Aborted? <==> ActiveAccount(db, inviter) && Clashes(kept, id, inviter, digest, now))
            && (tx.Committed? ==> (tx.answer == Relationships.Created <==> Creates(db, step)))
            && next == SetInvitations(db, next.perms.invitations)
            && var rows := next.perms.invitations;
            if tx.Aborted? then rows == db.perms.invitations
            else if !Creates(db, step) then rows == kept
            else
              && rows.Keys == kept.Keys + {id}
              && rows[id] == Invitation(inviter, digest, now, now + 600 * SECOND, None, None)
              && forall i :: i in kept ==>
                               rows[i] == if kept[i].inviter == inviter && Unspent(kept[i])
                                          then kept[i].(invalidatedAt := Some(now)) else kept[i]
  {}

  /** Rows are cleaned up only when they have been spent or expired for as long as the caller says. */
  lemma CleanupWritesExactly(db: Db, step: Step, next: Db)
    requires Transition(db, step, next) && step.Cleanup?
    ensures next == SetInvitations(db, db.perms.invitations - step.deleted) && |step.deleted| <= step.limit
    ensures step.deleted != {} ==> 1 <= step.limit <= 500
    ensures forall i :: i in step.deleted ==>
                          i in db.perms.invitations && StaleBefore(db.perms.invitations[i], step.before)
  {}

  predicate StaleBefore(row: Invitation, before: Time) {
    || (row.usedAt.Some? && row.usedAt.value < before)
    || (row.usedAt == None && row.invalidatedAt.Some? && row.invalidatedAt.value < before)
    || (Unspent(row) && row.expiresAt < before)
  }

  /** What inviting and accepting clean up on the way: a hundred rows at most, stale for a day. */
  lemma SweepIsStale(db: Db, step: Step, next: Db)
    requires Transition(db, step, next) && (step.Invite? || step.Accept?)
    ensures |step.deleted| <= 100
    ensures forall i :: i in step.deleted ==>
                          && i in db.perms.invitations
                          && StaleBefore(db.perms.invitations[i], step.now - 24 * HOUR)
  {}

  // Over runs.

  ghost predicate Fails(db: Db, step: Step) {
    match step
    case Invite(id, inviter, digest, now, deleted) =>
      Relationships.CreateInvitation(db, id, inviter, digest, now, deleted).Aborted?
    case Accept(p, digest, now, deleted) => Relationships.AcceptInvitation(db, p, digest, now, deleted).Aborted?
    case _ => false
  }

  ghost predicate Deletes(db: Db, step: Step, i: Id) {
    (step.Invite? || step.Accept? || step.Cleanup?) && i in step.deleted && !Fails(db, step)
  }

  /** The step ends the invitation: it is superseded, used or deleted. */
  ghost predicate Ends(db: Db, step: Step, i: Id, inviter: Id) {
    (Creates(db, step) && step.inviter == inviter) || Redeems(db, step, i) || Deletes(db, step, i)
  }

  /** The step that issued the invitation, if it has not ended since. */
  ghost function Standing(states: seq<Db>, steps: seq<Step>, j: nat, i: Id): (k: Option<nat>)
    requires j <= |steps| < |states|
    ensures k.Some? ==> k.value < j && steps[k.value].Invite?
  {
    if j == 0 then None
    else if Creates(states[j - 1], steps[j - 1]) && steps[j - 1].id == i then Some(j - 1)
    else
      var k := Standing(states, steps, j - 1, i);
      if k.Some? && !Ends(states[j - 1], steps[j - 1], i, steps[k.value].inviter) then k else None
  }

  predicate UnspentRow(db: Db, i: Id) {
    i in db.perms.invitations && Unspent(db.perms.invitations[i])
  }

  lemma InviteSpends(db: Db, step: Step, next: Db, i: Id)
    requires Transition(db, step, next) && step.Invite? && !(Creates(db, step) && step.id == i)
    ensures UnspentRow(next, i) <==>
            UnspentRow(db, i) && !Ends(db, step, i, db.perms.invitations[i].inviter)
    ensures UnspentRow(next, i) ==> next.perms.invitations[i] == db.perms.invitations[i]
  {
    InviteWritesExactly(db, step.id, step.inviter, step.digest, step.now, step.deleted);
  }

  lemma AcceptSpends(db: Db, step: Step, next: Db, i: Id)
    requires Transition(db, step, next) && step.Accept? && Retention.UniqueDigests(db.perms.invitations)
    ensures UnspentRow(next, i) <==>
            UnspentRow(db, i) && !Ends(db, step, i, db.perms.invitations[i].inviter)
    ensures UnspentRow(next, i) ==> next.perms.invitations[i] == db.perms.invitations[i]
  {
    AcceptWritesExactly(db, step.accepter, step.digest, step.now, step.deleted);
    if used :| Redeems(db, step, used) {
      OnlyOneRedeemed(db, step, used);
      assert Joined(db, next, used, step.accepter, step.now, step.deleted);
    }
  }

  lemma StepSpends(db: Db, step: Step, next: Db, i: Id)
    requires Transition(db, step, next) && Retention.UniqueDigests(db.perms.invitations)
    requires !(Creates(db, step) && step.id == i)
    ensures UnspentRow(next, i) <==>
            UnspentRow(db, i) && !Ends(db, step, i, db.perms.invitations[i].inviter)
    ensures UnspentRow(next, i) ==> next.perms.invitations[i] == db.perms.invitations[i]
  {
    if step.Invite? {
      InviteSpends(db, step, next, i);
    } else if step.Accept? {
      AcceptSpends(db, step, next, i);
    } else if step.Cleanup? {
      CleanupWritesExactly(db, step, next);
    } else {
      Retention.OthersKeepInvitations(db, step);
    }
  }

  predicate IssuedBy(row: Invitation, step: Step) {
    step.Invite? && row == Invitation(step.inviter, step.digest, step.now, step.now + 600 * SECOND, None, None)
  }

  /** The unspent rows are those whose issuing step stands, and are as that step issued them. */
  ghost predicate RowsStand(states: seq<Db>, steps: seq<Step>, j: nat, i: Id)
    requires j <= |steps| < |states|
  {
    var k := Standing(states, steps, j, i);
    && (UnspentRow(states[j], i) <==> k.Some?)
    && (k.Some? ==> i in states[j].perms.invitations && IssuedBy(states[j].perms.invitations[i], steps[k.value]))
  }

  lemma StandingFolds(states: seq<Db>, steps: seq<Step>, j: nat, i: Id)
    requires j < |steps| < |states| && Transition(states[j], steps[j], states[j + 1])
    requires Retention.UniqueDigests(states[j].perms.invitations) && RowsStand(states, steps, j, i)
    ensures RowsStand(states, steps, j + 1, i)
  {
    var db, step := states[j], steps[j];
    if Creates(db, step) && step.id == i {
      InviteWritesExactly(db, step.id, step.inviter, step.digest, step.now, step.deleted);
    } else {
      StepSpends(db, step, states[j + 1], i);
    }
  }

  lemma AllStand(states: seq<Db>, steps: seq<Step>, j: nat, i: Id)
    requires ValidRun(states, steps) && Genesis(states[0]) && j <= |steps|
    ensures RowsStand(states, steps, j, i)
  {
    for k := 0 to j
      invariant RowsStand(states, steps, k, i)
    {
      Retention.RunUnique(states, steps, k);
      StandingFolds(states, steps, k, i);
    }
  }

  /** The accept comes in time for an invitation of another active person that stands under its digest. */
  ghost predicate InTime(states: seq<Db>, steps: seq<Step>, j: nat, i: Id)
    requires j < |steps| < |states| && steps[j].Accept?
  {
    var k, step := Standing(states, steps, j, i), steps[j];
    && k.Some? && i !in step.deleted
    && steps[k.value].digest == step.digest
    && steps[k.value].now <= step.now < steps[k.value].now + 600 * SECOND
    && steps[k.value].inviter != step.accepter
    && ActiveAccount(states[j], steps[k.value].inviter) && ActiveAccount(states[j], step.accepter)
  }

  /** A code connects, or finds connected, exactly when it is given by an active person to another within ten minutes
      of being issued, before it is superseded, used or deleted. */
  lemma CodeWorksExactly(states: seq<Db>, steps: seq<Step>, j: nat)
    requires ValidRun(states, steps) && Genesis(states[0]) && j < |steps| && steps[j].Accept?
    ensures var step := steps[j];
            var tx := Relationships.AcceptInvitation(states[j], step.accepter, step.digest, step.now, step.deleted);
            tx.Committed? && tx.answer != Relationships.InvitationUnavailable <==>
            exists i: Id :: InTime(states, steps, j, i)
  {
    var step := steps[j];
    Retention.RunUnique(states, steps, j);
    AcceptWritesExactly(states[j], step.accepter, step.digest, step.now, step.deleted);
    forall i: Id
      ensures InTime(states, steps, j, i) <==> Redeems(states[j], step, i)
    {
      AllStand(states, steps, j, i);
    }
  }
}
