/** Device enrollment and revocation, as functions of the database. */
module Devices {
  import opened Schema
  import opened Wrappers
  import Issuance
  import LedgerOps

  datatype EnrollAnswer = SessionCreated | OwnerUnavailable | DeviceExists
  datatype ConsumeAnswer = Enrolled | EnrollmentFailed | DeviceAlreadyRegistered | IdentifierConflict

  predicate OpenSession(s: Enrollment, owner: Id) {
    s.owner == owner && s.usedAt.None?
  }

  function Closed(sessions: map<Id, Enrollment>, owner: Id, now: Time): map<Id, Enrollment> {
    map s | s in sessions ::
      if OpenSession(sessions[s], owner) then sessions[s].(usedAt := Some(now)) else sessions[s]
  }

  /** The check that no session is marked used before it was created. */
  predicate ClosingViolates(sessions: map<Id, Enrollment>, owner: Id, now: Time) {
    exists s :: s in sessions && OpenSession(sessions[s], owner) && now < sessions[s].createdAt
  }

  ghost predicate HasLiveDevice(devices: map<Id, Device>, owner: Id) {
    Issuance.LiveDevice(devices, owner).Some?
  }

  ghost predicate IsSession(sessions: map<Id, Enrollment>, s: Id, digest: Digest) {
    s in sessions && sessions[s].digest == digest
  }

  ghost function FindSession(sessions: map<Id, Enrollment>, digest: Digest): (found: Option<Id>)
    ensures found.Some? ==> IsSession(sessions, found.value, digest)
    ensures found.None? ==> forall s :: !IsSession(sessions, s, digest)
  {
    if exists s :: IsSession(sessions, s, digest) then
      var s :| IsSession(sessions, s, digest); Some(s)
    else None
  }

  ghost function CreateEnrollment(db: Db, id: Id, owner: Id, digest: Digest, now: Time): Tx<EnrollAnswer> {
    if !ActivePerson(db, owner) then Committed(db, OwnerUnavailable)
    else if HasLiveDevice(db.fleet.devices, owner) then Committed(db, DeviceExists)
    else if ClosingViolates(db.fleet.sessions, owner, now) || id in db.fleet.sessions
        || FindSession(db.fleet.sessions, digest).Some? then
      Aborted
    else Committed(
        SetSessions(db, Closed(db.fleet.sessions, owner, now)[
                      id := Enrollment(owner, digest, now, now + SECRET_LIFETIME, None)]),
        SessionCreated)
  }

  ghost function ConsumeEnrollment(db: Db, digest: Digest, device: Id, key: Id, publicKey: nat, now: Time)
    : Tx<ConsumeAnswer>
  {
    match FindSession(db.fleet.sessions, digest)
    case None => Committed(db, EnrollmentFailed)
    case Some(s) =>
      var session := db.fleet.sessions[s];
      if session.usedAt.Some? || session.expiresAt <= now || !ActivePerson(db, session.owner) then
        Committed(db, EnrollmentFailed)
      else if HasLiveDevice(db.fleet.devices, session.owner) then Committed(db, DeviceAlreadyRegistered)
      else if device in db.fleet.devices || key in db.fleet.keys then Committed(db, IdentifierConflict)
      else if now < session.createdAt then Aborted
      else Committed(
          db.(fleet := db.fleet.(
              sessions := db.fleet.sessions[s := session.(usedAt := Some(now))],
              devices := db.fleet.devices[device := Device(session.owner, Setup, Offline, false)],
              keys := db.fleet.keys[key := DeviceKey(device, publicKey, now, None)])),
          Enrolled)
  }

  function OutstandingOn(l: Ledger, device: Id): set<Id> {
    set c | c in l.commands && l.commands[c].device == device && Outstanding(l.commands[c])
  }

  function RevokedKeys(keys: map<Id, DeviceKey>, device: Id, now: Time): map<Id, DeviceKey> {
    map k | k in keys ::
      if keys[k].device == device && keys[k].revokedAt.None? then keys[k].(revokedAt := Some(now)) else keys[k]
  }

  predicate RevokingViolates(keys: map<Id, DeviceKey>, device: Id, now: Time) {
    exists k :: k in keys && keys[k].device == device && keys[k].revokedAt.None? && now < keys[k].createdAt
  }

  ghost function RevokeDevice(db: Db, owner: Id, device: Id, now: Time): Tx<Ack> {
    if owner !in db.dir.people || !Issuance.IsLiveDevice(db.fleet.devices, device, owner) then Committed(db, Done)
    else if RevokingViolates(db.fleet.keys, device, now) || ClosingViolates(db.fleet.sessions, owner, now) then Aborted
    else Committed(
        db.(fleet := db.fleet.(
            devices := db.fleet.devices[device := db.fleet.devices[device].(state := Revoked, availability := Offline)],
            keys := RevokedKeys(db.fleet.keys, device, now),
            sessions := Closed(db.fleet.sessions, owner, now)),
            ledger := LedgerOps.CancelAll(db.ledger, OutstandingOn(db.ledger, device), DeviceRevoked, now)),
        Done)
  }
}
