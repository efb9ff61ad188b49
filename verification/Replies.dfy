/** What the callers of the stores see. The count a cleanup returns is for its operator and not part of it. */
module Replies {
  import opened Schema
  import opened Protocol
  import opened Relationships
  import Issuance
  import Transport
  import Consent
  import Devices

  datatype Reply =
    | Threw | Nothing
    | Issued(issue: Issuance.Answer) | Polled(poll: Transport.PollAnswer) | Ingested(ingest: Transport.IngestAnswer)
    | Granted(grant: Consent.GrantAnswer) | InviteAnswered(create: CreateAnswer) | Accepted(accept: AcceptAnswer)
    | Parted(disconnect: DisconnectAnswer)
    | Opened(open: Devices.EnrollAnswer) | Consumed(consume: Devices.ConsumeAnswer)

  ghost function ReplyTo(db: Db, step: Step): Reply {
    match step
    case Issue(input, r, c, clock) =>
      (match Issuance.Issue(db, input, r, c, clock) case Committed(_, a) => Issued(a) case Aborted => Threw)
    case Poll(ctx, now) =>
      (match Transport.Poll(db, ctx, now) case Committed(_, a) => Polled(a) case Aborted => Threw)
    case Report(ctx, o, now) =>
      (match Transport.IngestAgentResult(db, ctx, o, now) case Committed(_, a) => Ingested(a) case Aborted => Threw)
    case SetPaused(r, paused, now, clock) =>
      if Consent.SetPaused(db, r, paused, now, clock).Committed? then Nothing else Threw
    case SetGrant(r, a, granted, now, clock) =>
      (match Consent.SetGrant(db, r, a, granted, now, clock) case Committed(_, x) => Granted(x) case Aborted => Threw)
    case Invite(id, inviter, digest, now, deleted) =>
      (match CreateInvitation(db, id, inviter, digest, now, deleted)
       case Committed(_, a) => InviteAnswered(a) case Aborted => Threw)
    case Accept(p, digest, now, deleted) =>
      (match AcceptInvitation(db, p, digest, now, deleted) case Committed(_, a) => Accepted(a) case Aborted => Threw)
    case Disconnect(p, q, now) =>
      (match Relationships.Disconnect(db, p, q, now) case Committed(_, a) => Parted(a) case Aborted => Threw)
    case OpenEnrollment(id, owner, digest, now) =>
      (match Devices.CreateEnrollment(db, id, owner, digest, now)
       case Committed(_, a) => Opened(a) case Aborted => Threw)
    case Enroll(digest, d, k, publicKey, now) =>
      (match Devices.ConsumeEnrollment(db, digest, d, k, publicKey, now)
       case Committed(_, a) => Consumed(a) case Aborted => Threw)
    case RevokeDevice(owner, d, now) =>
      if Devices.RevokeDevice(db, owner, d, now).Committed? then Nothing else Threw
    case Cleanup(_, limit, _) => if ValidLimit(limit) then Nothing else Threw
    case Environment(_) => Nothing
  }

  lemma StoresThrow(db: Db, step: Step)
    requires ReplyTo(db, step) == Threw && !step.Cleanup?
    ensures Next(db, step) == db
  {}

  /** A call that throws leaves no trace. */
  lemma ThrowingChangesNothing(db: Db, step: Step, next: Db)
    requires Transition(db, step, next) && ReplyTo(db, step) == Threw
    ensures next == db
  {
    if step.Cleanup? {
      assert db.perms.invitations - {} == db.perms.invitations;
    } else {
      StoresThrow(db, step);
    }
  }
}
