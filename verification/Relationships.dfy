/** Invitations, connecting and disconnecting, as functions of the database. */
module Relationships {
  import opened Schema
  import opened Wrappers
  import Issuance
  import LedgerOps

  datatype CreateAnswer = Created | AccountUnavailable
  datatype AcceptAnswer = NowConnected | AlreadyConnected | InvitationUnavailable
  datatype DisconnectAnswer = Disconnected | Unchanged

  const CLEANUP_LIMIT: nat := 100

  /** When a row stopped mattering: used, else invalidated, else expired. */
  function StaleAt(i: Invitation): Time {
    if i.usedAt.Some? then i.usedAt.value
    else if i.invalidatedAt.Some? then i.invalidatedAt.value
    else i.expiresAt
  }

  /** Rows another transaction holds are skipped, so a cleanup may take any stale rows up to its limit. */
  predicate CleanupAllowed(invitations: map<Id, Invitation>, before: Time, limit: nat, deleted: set<Id>) {
    |deleted| <= limit && forall i :: i in deleted ==> i in invitations && StaleAt(invitations[i]) < before
  }

  predicate ValidLimit(limit: int) {
    1 <= limit <= 500
  }

  predicate Pending(i: Invitation) {
    i.usedAt.None? && i.invalidatedAt.None?
  }

  ghost predicate DigestUsed(invitations: map<Id, Invitation>, digest: Digest) {
    exists i :: i in invitations && invitations[i].digest == digest
  }

  function Invalidated(invitations: map<Id, Invitation>, inviter: Id, now: Time): map<Id, Invitation> {
    map i | i in invitations ::
      if invitations[i].inviter == inviter && Pending(invitations[i])
      then invitations[i].(invalidatedAt := Some(now)) else invitations[i]
  }

  ghost function CreateInvitation(db: Db, id: Id, inviter: Id, digest: Digest, now: Time, deleted: set<Id>)
    : Tx<CreateAnswer>
  {
    var kept := db.perms.invitations - deleted;
    if !ActivePerson(db, inviter) then Committed(SetInvitations(db, kept), AccountUnavailable)
    else if exists i :: i in kept && kept[i].inviter == inviter && Pending(kept[i]) && now < kept[i].createdAt then
        Aborted
    else if id in kept || DigestUsed(kept, digest) then Aborted
    else Committed(
        SetInvitations(db, Invalidated(kept, inviter, now)[
                         id := Invitation(inviter, digest, now, now + SECRET_LIFETIME, None, None)]),
        Created)
  }

  ghost predicate IsInvitation(invitations: map<Id, Invitation>, i: Id, digest: Digest) {
    i in invitations && invitations[i].digest == digest
  }

  ghost function FindInvitation(invitations: map<Id, Invitation>, digest: Digest): (found: Option<Id>)
    ensures found.Some? ==> IsInvitation(invitations, found.value, digest)
    ensures found.None? ==> forall i :: !IsInvitation(invitations, i, digest)
  {
    if exists i :: IsInvitation(invitations, i, digest) then
      var i :| IsInvitation(invitations, i, digest); Some(i)
    else None
  }

  predicate Usable(i: Invitation, now: Time) {
    Pending(i) && now < i.expiresAt
  }

  function Unlinked(grants: set<(Id, Id)>, p: Id, q: Id): set<(Id, Id)> {
    grants - {(p, q), (q, p)}
  }

  ghost function AcceptInvitation(db: Db, accepter: Id, digest: Digest, now: Time, deleted: set<Id>): Tx<AcceptAnswer> {
    var kept := db.perms.invitations - deleted;
    match FindInvitation(kept, digest)
    case None => Committed(SetInvitations(db, kept), InvitationUnavailable)
    case Some(i) =>
      var inviter := kept[i].inviter;
      if !Usable(kept[i], now) || inviter == accepter
         || !ActivePerson(db, inviter) || !ActivePerson(db, accepter) then
        Committed(SetInvitations(db, kept), InvitationUnavailable)
      else if now < kept[i].createdAt then Aborted
      else
        var pair := Pair(inviter, accepter);
        var used := SetInvitations(db, kept[i := kept[i].(usedAt := Some(now))]);
        if Related(db.perms, inviter, accepter) then Committed(used, AlreadyConnected)
        else Committed(
            used.(perms := used.perms.(
                  grants := if pair in db.perms.relationships then Unlinked(db.perms.grants, inviter, accepter)
                  else db.perms.grants,
                  relationships := db.perms.relationships[pair := Relationship(true, now, None)])),
            NowConnected)
  }

  predicate Between(c: Command, p: Id, q: Id) {
    (c.recipient == p && c.actor == q) || (c.recipient == q && c.actor == p)
  }

  function OutstandingBetween(l: Ledger, p: Id, q: Id): set<Id> {
    set c | c in l.commands && Between(l.commands[c], p, q) && Outstanding(l.commands[c])
  }

  ghost function Disconnect(db: Db, p: Id, q: Id, now: Time): Tx<DisconnectAnswer> {
    var locked := Issuance.WithRecipient(Issuance.WithRecipient(db, p, now), q, now);
    var pair := Pair(p, q);
    if p == q || p !in locked.counters.recipients || q !in locked.counters.recipients then Committed(locked, Unchanged)
    else if !Related(db.perms, p, q) then Committed(locked, Unchanged)
    else if now < db.perms.relationships[pair].createdAt then Aborted
    else Committed(
        locked.(
        perms := db.perms.(
        relationships := db.perms.relationships[
          pair := db.perms.relationships[pair].(active := false, endedAt := Some(now))],
        grants := Unlinked(db.perms.grants, p, q)),
        ledger := LedgerOps.CancelAll(db.ledger, OutstandingBetween(db.ledger, p, q), PermissionRevoked, now)),
        Disconnected)
  }

  function Cleanup(db: Db, deleted: set<Id>): Tx<nat> {
    Committed(SetInvitations(db, db.perms.invitations - deleted), |deleted|)
  }
}
