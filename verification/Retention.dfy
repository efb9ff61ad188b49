/** Deleting old invitations is invisible: the store that cleans up and one that never does answer alike. */
module Retention {
  import opened Schema
  import opened Wrappers
  import opened Protocol
  import opened Replies
  import opened Relationships
  import Issuance
  import Consent

  /** The same step in the store that never deletes. */
  function Keeping(step: Step): Step {
    match step
    case Invite(id, inviter, digest, now, _) => Invite(id, inviter, digest, now, {})
    case Accept(p, digest, now, _) => Accept(p, digest, now, {})
    case Cleanup(before, limit, _) => Cleanup(before, limit, {})
    case _ => step
  }

  predicate TouchesInvitations(step: Step) {
    step.Invite? || step.Accept? || step.Cleanup?
  }

  /** The application cleans up rows stale a day before its clock. */
  function ClockOf(step: Step): Time
    requires TouchesInvitations(step)
  {
    if step.Cleanup? then step.before + RETENTION else step.now
  }

  predicate Dead(i: Invitation, clock: Time) {
    !Pending(i) || i.expiresAt <= clock
  }

  ghost predicate UniqueDigests(invitations: map<Id, Invitation>) {
    forall i, j, digest :: IsInvitation(invitations, i, digest) && IsInvitation(invitations, j, digest) ==> i == j
  }

  /** `lean` is `full` without some invitations that can never be used again. */
  ghost predicate Trims(lean: map<Id, Invitation>, full: map<Id, Invitation>, clock: Time) {
    && (forall i :: i in lean ==> i in full && lean[i] == full[i])
    && (forall i :: i in full && i !in lean ==> Dead(full[i], clock))
    && (forall i :: i in full ==> full[i].createdAt <= clock)
    && UniqueDigests(full)
  }

  ghost predicate Retains(lean: Db, full: Db, clock: Time) {
    && lean == SetInvitations(full, lean.perms.invitations)
    && Trims(lean.perms.invitations, full.perms.invitations, clock)
  }

  // Deleting.

  lemma DeletingTrims(lean: map<Id, Invitation>, full: map<Id, Invitation>, clock: Time, now: Time,
                      before: Time, limit: nat, deleted: set<Id>)
    requires Trims(lean, full, clock) && clock <= now && before <= now
    requires CleanupAllowed(lean, before, limit, deleted)
    ensures Trims(lean - deleted, full, now)
  {}

  lemma InvalidatingTrims(lean: map<Id, Invitation>, full: map<Id, Invitation>, inviter: Id, now: Time)
    requires Trims(lean, full, now)
    ensures Trims(Invalidated(lean, inviter, now), Invalidated(full, inviter, now), now)
  {
    var after := Invalidated(full, inviter, now);
    assert forall i, digest :: IsInvitation(after, i, digest) ==> IsInvitation(full, i, digest);
  }

  lemma AddingTrims(lean: map<Id, Invitation>, full: map<Id, Invitation>, id: Id, row: Invitation, now: Time)
    requires Trims(lean, full, now) && id !in full && !DigestUsed(full, row.digest) && row.createdAt <= now
    ensures Trims(lean[id := row], full[id := row], now)
  {
    var after := full[id := row];
    assert forall i, digest :: IsInvitation(after, i, digest) && i != id ==>
        IsInvitation(full, i, digest) && digest != row.digest;
  }

  lemma FoundAlike(lean: map<Id, Invitation>, full: map<Id, Invitation>, digest: Digest, now: Time)
    requires Trims(lean, full, now)
    ensures var l, f := FindInvitation(lean, digest), FindInvitation(full, digest);
            if l.Some? then f == l else f.None? || Dead(full[f.value], now)
  {
    var l := FindInvitation(lean, digest);
    var f := FindInvitation(full, digest);
    if l.Some? {
      assert IsInvitation(full, l.value, digest);
    } else if f.Some? {
      assert !IsInvitation(lean, f.value, digest);
    }
  }

  lemma UsingTrims(lean: map<Id, Invitation>, full: map<Id, Invitation>, i: Id, now: Time)
    requires Trims(lean, full, now) && i in lean
    ensures Trims(lean[i := lean[i].(usedAt := Some(now))], full[i := full[i].(usedAt := Some(now))], now)
  {
    var after := full[i := full[i].(usedAt := Some(now))];
    assert forall j, digest :: IsInvitation(after, j, digest) ==> IsInvitation(full, j, digest);
  }

  // One step.

  ghost predicate FreshInvitation(full: Db, step: Step) {
    step.Invite? ==> step.id !in full.perms.invitations && !DigestUsed(full.perms.invitations, step.digest)
  }

  lemma InvitingTrims(lean: map<Id, Invitation>, full: map<Id, Invitation>, id: Id, row: Invitation, now: Time)
    requires Trims(lean, full, now) && id !in full && !DigestUsed(full, row.digest) && row.createdAt <= now
    ensures Trims(Invalidated(lean, row.inviter, now)[id := row], Invalidated(full, row.inviter, now)[id := row], now)
  {
    InvalidatingTrims(lean, full, row.inviter, now);
    var all := Invalidated(full, row.inviter, now);
    assert forall i :: i in all ==> all[i].digest == full[i].digest;
    AddingTrims(Invalidated(lean, row.inviter, now), all, id, row, now);
  }

  function NewRow(step: Step): Invitation
    requires step.Invite?
  {
    Invitation(step.inviter, step.digest, step.now, step.now + SECRET_LIFETIME, None, None)
  }

  function Invited(invitations: map<Id, Invitation>, step: Step): map<Id, Invitation>
    requires step.Invite?
  {
    Invalidated(invitations, step.inviter, step.now)[step.id := NewRow(step)]
  }

  /** With fresh identifiers and no clock behind the rows, an invitation is refused only for its inviter's account. */
  lemma InviteEffect(db: Db, step: Step, kept: map<Id, Invitation>)
    requires step.Invite? && kept == db.perms.invitations - step.deleted
    requires step.id !in kept && !DigestUsed(kept, step.digest)
    requires forall i :: i in kept ==> kept[i].createdAt <= step.now
    ensures var created := ActivePerson(db, step.inviter);
            && Next(db, step) == SetInvitations(db, if created then Invited(kept, step) else kept)
            && ReplyTo(db, step) == InviteAnswered(if created then Created else AccountUnavailable)
  {}

  /** Neither store refuses the invitation for what it still holds. */
  lemma InviteEffects(lean: Db, full: Db, step: Step, clock: Time)
    requires Retains(lean, full, clock) && step.Invite? && clock <= step.now && FreshInvitation(full, step)
    ensures var created := ActivePerson(full, step.inviter);
            var kept, all := lean.perms.invitations - step.deleted, full.perms.invitations;
            && Next(lean, step) == SetInvitations(lean, if created then Invited(kept, step) else kept)
            && Next(full, Keeping(step)) == SetInvitations(full, if created then Invited(all, step) else all)
            && ReplyTo(lean, step) == ReplyTo(full, Keeping(step))
  {
    var all := full.perms.invitations;
    assert all - {} == all;
    InviteEffect(lean, step, lean.perms.invitations - step.deleted);
    InviteEffect(full, Keeping(step), all);
  }

  lemma InviteKeepsTrim(lean: map<Id, Invitation>, full: map<Id, Invitation>, step: Step, clock: Time)
    requires Trims(lean, full, clock) && step.Invite? && clock <= step.now
    requires CleanupAllowed(lean, step.now - RETENTION, CLEANUP_LIMIT, step.deleted)
    requires step.id !in full && !DigestUsed(full, step.digest)
    ensures Trims(lean - step.deleted, full, step.now)
    ensures Trims(Invited(lean - step.deleted, step), Invited(full, step), step.now)
  {
    DeletingTrims(lean, full, clock, step.now, step.now - RETENTION, CLEANUP_LIMIT, step.deleted);
    InvitingTrims(lean - step.deleted, full, step.id, NewRow(step), step.now);
  }

  lemma InviteAlike(lean: Db, full: Db, step: Step, clock: Time)
    requires Retains(lean, full, clock) && step.Invite? && clock <= step.now
    requires Enabled(lean, step) && FreshInvitation(full, step)
    ensures Retains(Next(lean, step), Next(full, Keeping(step)), step.now)
    ensures ReplyTo(lean, step) == ReplyTo(full, Keeping(step))
  {
    InviteKeepsTrim(lean.perms.invitations, full.perms.invitations, step, clock);
    InviteEffects(lean, full, step, clock);
  }

  lemma AcceptAlike(lean: Db, full: Db, step: Step, clock: Time)
    requires Retains(lean, full, clock) && step.Accept? && clock <= step.now && Enabled(lean, step)
    ensures Retains(Next(lean, step), Next(full, Keeping(step)), step.now)
    ensures ReplyTo(lean, step) == ReplyTo(full, Keeping(step))
  {
    var kept, all := lean.perms.invitations - step.deleted, full.perms.invitations;
    assert all - {} == all;
    DeletingTrims(lean.perms.invitations, all, clock, step.now, step.now - RETENTION, CLEANUP_LIMIT, step.deleted);
    FoundAlike(kept, all, step.digest, step.now);
    var found := FindInvitation(kept, step.digest);
    if found.Some? {
      UsingTrims(kept, all, found.value, step.now);
    }
  }

  // Steps that do not touch invitations do not read them either.

  ghost predicate Ignores(db: Db, rows: map<Id, Invitation>, step: Step) {
    && Next(SetInvitations(db, rows), step) == SetInvitations(Next(db, step), rows)
    && ReplyTo(SetInvitations(db, rows), step) == ReplyTo(db, step)
  }

  lemma PreparedIgnores(db: Db, rows: map<Id, Invitation>, input: Issuance.Input, clock: Time)
    ensures Issuance.Prepared(SetInvitations(db, rows), input, clock) ==
            SetInvitations(Issuance.Prepared(db, input, clock), rows)
    ensures Issuance.WithRecipient(SetInvitations(db, rows), input.recipient, clock) ==
            SetInvitations(Issuance.WithRecipient(db, input.recipient, clock), rows)
  {}

  ghost predicate AlikeBut(a: Tx<Issuance.Answer>, b: Tx<Issuance.Answer>, rows: map<Id, Invitation>) {
    match b
    case Committed(db, answer) => a == Committed(SetInvitations(db, rows), answer)
    case Aborted => a.Aborted?
  }

  lemma DecidedIgnores(db: Db, rows: map<Id, Invitation>, input: Issuance.Input, r: Id, c: Id)
    ensures AlikeBut(Issuance.Decided(SetInvitations(db, rows), input, r, c), Issuance.Decided(db, input, r, c), rows)
  {
    assert Issuance.LoadFacts(SetInvitations(db, rows), input) == Issuance.LoadFacts(db, input);
  }

  lemma IssueAlikeBut(db: Db, rows: map<Id, Invitation>, step: Step)
    requires step.Issue?
    ensures AlikeBut(Issuance.Issue(SetInvitations(db, rows), step.input, step.request, step.command, step.clock),
                     Issuance.Issue(db, step.input, step.request, step.command, step.clock), rows)
  {
    PreparedIgnores(db, rows, step.input, step.clock);
    DecidedIgnores(Issuance.Prepared(db, step.input, step.clock), rows, step.input, step.request, step.command);
  }

  lemma IssueIgnores(db: Db, rows: map<Id, Invitation>, step: Step)
    requires step.Issue?
    ensures Ignores(db, rows, step)
  {
    IssueAlikeBut(db, rows, step);
  }

  lemma PollIgnores(db: Db, rows: map<Id, Invitation>, step: Step)
    requires step.Poll?
    ensures Ignores(db, rows, step)
  {}

  lemma ReportIgnores(db: Db, rows: map<Id, Invitation>, step: Step)
    requires step.Report?
    ensures Ignores(db, rows, step)
  {}

  lemma PauseIgnores(db: Db, rows: map<Id, Invitation>, step: Step)
    requires step.SetPaused?
    ensures Ignores(db, rows, step)
  {}

  lemma WithPolicyIgnores(db: Db, rows: map<Id, Invitation>, recipient: Id, clock: Time)
    ensures Consent.WithPolicy(Issuance.WithRecipient(SetInvitations(db, rows), recipient, clock), recipient) ==
            SetInvitations(Consent.WithPolicy(Issuance.WithRecipient(db, recipient, clock), recipient), rows)
  {}

  lemma GrantingIgnores(db: Db, rows: map<Id, Invitation>, step: Step)
    requires step.SetGrant? && step.granted
    ensures Ignores(db, rows, step)
  {
    WithPolicyIgnores(db, rows, step.recipient, step.clock);
  }

  lemma WithdrawingIgnores(db: Db, rows: map<Id, Invitation>, step: Step)
    requires step.SetGrant? && !step.granted
    ensures Ignores(db, rows, step)
  {
    WithPolicyIgnores(db, rows, step.recipient, step.clock);
  }

  lemma DisconnectIgnores(db: Db, rows: map<Id, Invitation>, step: Step)
    requires step.Disconnect?
    ensures Ignores(db, rows, step)
  {}

  lemma DevicesIgnore(db: Db, rows: map<Id, Invitation>, step: Step)
    requires step.OpenEnrollment? || step.Enroll? || step.RevokeDevice?
    ensures Ignores(db, rows, step)
  {}

  lemma EnvironmentIgnores(db: Db, rows: map<Id, Invitation>, step: Step)
    requires step.Environment?
    ensures Ignores(db, rows, step)
  {}

  lemma OthersIgnore(db: Db, rows: map<Id, Invitation>, step: Step)
    requires !TouchesInvitations(step)
    ensures Ignores(db, rows, step)
  {
    match step
    case Issue(_, _, _, _) => IssueIgnores(db, rows, step);
    case Poll(_, _) => PollIgnores(db, rows, step);
    case Report(_, _, _) => ReportIgnores(db, rows, step);
    case SetPaused(_, _, _, _) => PauseIgnores(db, rows, step);
    case SetGrant(_, _, granted, _, _) =>
      if granted { GrantingIgnores(db, rows, step); } else { WithdrawingIgnores(db, rows, step); }
    case Disconnect(_, _, _) => DisconnectIgnores(db, rows, step);
    case Environment(_) => EnvironmentIgnores(db, rows, step);
    case _ => DevicesIgnore(db, rows, step);
  }

  lemma OthersKeepInvitations(db: Db, step: Step)
    requires !TouchesInvitations(step)
    ensures Next(db, step).perms.invitations == db.perms.invitations
  {
    OthersIgnore(db, db.perms.invitations, step);
    assert SetInvitations(db, db.perms.invitations) == db;
  }

  lemma CleanupAlike(lean: Db, full: Db, step: Step, clock: Time)
    requires Retains(lean, full, clock) && step.Cleanup? && clock <= ClockOf(step) && Enabled(lean, step)
    ensures Retains(Next(lean, step), Next(full, Keeping(step)), ClockOf(step))
  {
    assert full.perms.invitations - {} == full.perms.invitations;
    DeletingTrims(lean.perms.invitations, full.perms.invitations, clock, ClockOf(step), step.before, step.limit,
                  step.deleted);
  }

  function Later(clock: Time, step: Step): Time {
    if TouchesInvitations(step) then ClockOf(step) else clock
  }

  lemma StepAlike(lean: Db, full: Db, step: Step, clock: Time)
    requires Retains(lean, full, clock) && clock <= Later(clock, step)
    requires Enabled(lean, step) && FreshInvitation(full, step)
    ensures Retains(Next(lean, step), Next(full, Keeping(step)), Later(clock, step))
    ensures ReplyTo(lean, step) == ReplyTo(full, Keeping(step))
  {
    if step.Invite? {
      InviteAlike(lean, full, step, clock);
    } else if step.Accept? {
      AcceptAlike(lean, full, step, clock);
    } else if step.Cleanup? {
      CleanupAlike(lean, full, step, clock);
    } else {
      OtherAlike(lean, full, step, clock);
    }
  }

  lemma OtherAlike(lean: Db, full: Db, step: Step, clock: Time)
    requires Retains(lean, full, clock) && !TouchesInvitations(step)
    ensures Retains(Next(lean, step), Next(full, step), clock)
    ensures ReplyTo(lean, step) == ReplyTo(full, step)
  {
    OthersIgnore(full, lean.perms.invitations, step);
    OthersKeepInvitations(lean, step);
    OthersKeepInvitations(full, step);
  }

  // Whole runs.

  /** The latest clock any invitation step has read before step `i`. */
  function ClockAt(steps: seq<Step>, start: Time, i: nat): Time
    requires i <= |steps|
  {
    if i == 0 then start else Later(ClockAt(steps, start, i - 1), steps[i - 1])
  }

  ghost predicate NondecreasingClock(steps: seq<Step>, start: Time) {
    forall i :: 0 <= i < |steps| ==> ClockAt(steps, start, i) <= Later(ClockAt(steps, start, i), steps[i])
  }

  ghost predicate FreshInvitations(full: seq<Db>, steps: seq<Step>) {
    |full| > |steps| && forall i {:trigger steps[i]} :: 0 <= i < |steps| ==> FreshInvitation(full[i], steps[i])
  }

  /** `full` runs the same steps from the same database, deleting nothing. */
  ghost predicate RunsKeeping(lean: seq<Db>, full: seq<Db>, steps: seq<Step>) {
    && ValidRun(lean, steps) && |full| == |steps| + 1 && lean[0] == full[0]
    && forall i {:trigger steps[i]} :: 0 <= i < |steps| ==> full[i + 1] == Next(full[i], Keeping(steps[i]))
  }

  lemma RunsAlike(lean: seq<Db>, full: seq<Db>, steps: seq<Step>, start: Time, i: nat)
    requires RunsKeeping(lean, full, steps) && NondecreasingClock(steps, start) && FreshInvitations(full, steps)
    requires Retains(full[0], full[0], start) && i <= |steps|
    ensures Retains(lean[i], full[i], ClockAt(steps, start, i))
  {
    for k := 0 to i
      invariant Retains(lean[k], full[k], ClockAt(steps, start, k))
    {
      assert Transition(lean[k], steps[k], lean[k + 1]);
      StepAlike(lean[k], full[k], steps[k], ClockAt(steps, start, k));
    }
  }

  /** Whatever a run deletes and whenever, every caller gets the answer of the store that never deletes, and after
      every step both hold the same relationships, grants and everything else but invitations. */
  lemma RetentionIsInvisible(lean: seq<Db>, full: seq<Db>, steps: seq<Step>, start: Time, i: nat)
    requires RunsKeeping(lean, full, steps) && NondecreasingClock(steps, start) && FreshInvitations(full, steps)
    requires Retains(full[0], full[0], start) && i <= |steps|
    ensures lean[i] == SetInvitations(full[i], lean[i].perms.invitations)
    ensures i < |steps| ==> ReplyTo(lean[i], steps[i]) == ReplyTo(full[i], Keeping(steps[i]))
  {
    RunsAlike(lean, full, steps, start, i);
    if i < |steps| {
      assert Transition(lean[i], steps[i], lean[i + 1]);
      StepAlike(lean[i], full[i], steps[i], ClockAt(steps, start, i));
    }
  }

  // One accepter.

  ghost predicate Connects(db: Db, step: Step) {
    step.Accept? && ReplyTo(db, step) in {Accepted(NowConnected), Accepted(AlreadyConnected)}
  }

  ghost predicate Exhausted(invitations: map<Id, Invitation>, digest: Digest) {
    forall i :: IsInvitation(invitations, i, digest) ==> !Pending(invitations[i])
  }

  lemma StepKeepsUnique(db: Db, step: Step)
    requires UniqueDigests(db.perms.invitations)
    ensures UniqueDigests(Next(db, step).perms.invitations)
  {
    if step.Invite? {
      InviteKeepsUnique(db, step);
    } else if step.Accept? || step.Cleanup? {
      var next := Next(db, step).perms.invitations;
      assert forall i, digest :: IsInvitation(next, i, digest) ==> IsInvitation(db.perms.invitations, i, digest);
    } else {
      OthersKeepInvitations(db, step);
    }
  }

  lemma InviteKeepsUnique(db: Db, step: Step)
    requires UniqueDigests(db.perms.invitations) && step.Invite?
    ensures UniqueDigests(Next(db, step).perms.invitations)
  {
    var kept, next := db.perms.invitations - step.deleted, Next(db, step).perms.invitations;
    assert forall i, digest :: IsInvitation(kept, i, digest) ==> IsInvitation(db.perms.invitations, i, digest);
    if ReplyTo(db, step) == InviteAnswered(Created) {
      assert forall i, digest :: IsInvitation(next, i, digest) && i != step.id ==>
                                   IsInvitation(kept, i, digest) && digest != step.digest;
    }
  }

  lemma ConnectingExhausts(db: Db, step: Step)
    requires UniqueDigests(db.perms.invitations) && Connects(db, step)
    ensures Exhausted(Next(db, step).perms.invitations, step.digest)
  {
    var next := Next(db, step).perms.invitations;
    var kept := db.perms.invitations - step.deleted;
    var used := FindInvitation(kept, step.digest).value;
    forall i | IsInvitation(next, i, step.digest)
      ensures !Pending(next[i])
    {
      assert IsInvitation(db.perms.invitations, i, step.digest)
          && IsInvitation(db.perms.invitations, used, step.digest);
    }
  }

  lemma StepKeepsExhausted(db: Db, step: Step, digest: Digest)
    requires Exhausted(db.perms.invitations, digest) && !(step.Invite? && step.digest == digest)
    ensures Exhausted(Next(db, step).perms.invitations, digest)
  {
    if TouchesInvitations(step) {
      var next := Next(db, step).perms.invitations;
      forall i | IsInvitation(next, i, digest)
        ensures !Pending(next[i])
      {
        assert IsInvitation(db.perms.invitations, i, digest);
      }
    } else {
      OthersKeepInvitations(db, step);
    }
  }

  lemma ExhaustedCannotConnect(db: Db, step: Step)
    requires step.Accept? && Exhausted(db.perms.invitations, step.digest)
    ensures !Connects(db, step)
  {
    var kept := db.perms.invitations - step.deleted;
    var found := FindInvitation(kept, step.digest);
    assert found.Some? ==> IsInvitation(db.perms.invitations, found.value, step.digest);
  }

  lemma {:induction false} RunUnique(states: seq<Db>, steps: seq<Step>, i: nat)
    requires ValidRun(states, steps) && UniqueDigests(states[0].perms.invitations) && i <= |steps|
    ensures UniqueDigests(states[i].perms.invitations)
  {
    if i > 0 {
      RunUnique(states, steps, i - 1);
      assert Transition(states[i - 1], steps[i - 1], states[i]);
      StepKeepsUnique(states[i - 1], steps[i - 1]);
    }
  }

  lemma {:induction false} RunExhausted(states: seq<Db>, steps: seq<Step>, i: nat, j: nat, digest: Digest)
    requires ValidRun(states, steps) && i <= j <= |steps| && Exhausted(states[i].perms.invitations, digest)
    requires forall k {:trigger steps[k]} :: i <= k < j ==> !(steps[k].Invite? && steps[k].digest == digest)
    ensures Exhausted(states[j].perms.invitations, digest)
    decreases j
  {
    if i < j {
      RunExhausted(states, steps, i, j - 1, digest);
      assert Transition(states[j - 1], steps[j - 1], states[j]);
      StepKeepsExhausted(states[j - 1], steps[j - 1], digest);
    }
  }

  /** An invitation code connects at most one accepter, whatever the clocks do and whatever is deleted, as long as
      no later invitation reuses its digest. */
  lemma ConnectsAtMostOnce(states: seq<Db>, steps: seq<Step>, i: nat, j: nat)
    requires ValidRun(states, steps) && UniqueDigests(states[0].perms.invitations) && i <= j < |steps|
    requires Connects(states[i], steps[i]) && Connects(states[j], steps[j]) && steps[i].digest == steps[j].digest
    requires forall k {:trigger steps[k]} :: i < k < j ==> !(steps[k].Invite? && steps[k].digest == steps[i].digest)
    ensures i == j
  {
    if i < j {
      RunUnique(states, steps, i);
      assert Transition(states[i], steps[i], states[i + 1]);
      ConnectingExhausts(states[i], steps[i]);
      RunExhausted(states, steps, i + 1, j, steps[i].digest);
      ExhaustedCannotConnect(states[j], steps[j]);
      assert false;
    }
  }
}
