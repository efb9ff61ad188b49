/** The device-enrollment store's transactions, statement by statement. */
module DeviceStore {
  import opened Schema
  import opened Wrappers
  import opened Database
  import opened Devices
  import FleetInvariants
  import Issuance
  import LedgerOps
  import Stores

  class DeviceEnrollmentStore {
    const database: Database

    constructor (database: Database)
      ensures this.database == database
    {
      this.database := database;
    }

    method OwnsLiveDevice(owner: Id) returns (found: bool)
      ensures found == HasLiveDevice(database.fleet.devices, owner)
    {
      var devices := database.fleet.devices;
      if d :| d in devices && devices[d].owner == owner && devices[d].state != Revoked {
        assert Issuance.IsLiveDevice(devices, d, owner);
        return true;
      }
      return false;
    }

    /** UPDATE device_enrollment_sessions SET used_at; false when a row was created later than that. */
    method CloseSessions(owner: Id, now: Time) returns (done: bool)
      modifies database`fleet
      ensures done == !ClosingViolates(old(database.fleet.sessions), owner, now)
      ensures database.fleet == old(database.fleet).(sessions := Closed(old(database.fleet.sessions), owner, now))
    {
      done := !ClosingViolates(database.fleet.sessions, owner, now);
      database.fleet := database.fleet.(sessions := Closed(database.fleet.sessions, owner, now));
    }

    method SelectSession(digest: Digest) returns (found: Option<Id>)
      requires FleetInvariants.SessionsSingle(database.fleet.sessions)
      ensures found == FindSession(database.fleet.sessions, digest)
    {
      var sessions := database.fleet.sessions;
      if s :| s in sessions && sessions[s].digest == digest {
        assert IsSession(sessions, s, digest);
        return Some(s);
      }
      return None;
    }

    /** None when the transaction throws. */
    method CreateEnrollment(id: Id, owner: Id, digest: Digest, now: Time) returns (answer: Option<EnrollAnswer>)
      requires FleetInvariants.SessionsSingle(database.fleet.sessions)
      modifies database
      ensures var tx := Devices.CreateEnrollment(old(database.Snapshot()), id, owner, digest, now);
              if answer.Some? then tx == Committed(database.Snapshot(), answer.value)
              else tx.Aborted? && database.Snapshot() == old(database.Snapshot())
    {
      var start := database.Snapshot();
      if !ActivePerson(start, owner) {
        return Some(OwnerUnavailable);
      }
      var registered := OwnsLiveDevice(owner);
      if registered {
        return Some(DeviceExists);
      }
      var taken := SelectSession(digest);
      var closed := CloseSessions(owner, now);
      if !closed || id in start.fleet.sessions || taken.Some? {
        database.Become(start);
        return None;
      }
      database.fleet := database.fleet.(
        sessions := database.fleet.sessions[id := Enrollment(owner, digest, now, now + SECRET_LIFETIME, None)]);
      return Some(SessionCreated);
    }

    /** None when the transaction throws. */
    method ConsumeEnrollment(digest: Digest, device: Id, key: Id, publicKey: nat, now: Time)
      returns (answer: Option<ConsumeAnswer>)
      requires FleetInvariants.SessionsSingle(database.fleet.sessions)
      modifies database
      ensures var tx := Devices.ConsumeEnrollment(old(database.Snapshot()), digest, device, key, publicKey, now);
              if answer.Some? then tx == Committed(database.Snapshot(), answer.value)
              else tx.Aborted? && database.Snapshot() == old(database.Snapshot())
    {
      var fleet := database.fleet;
      var selected := SelectSession(digest);
      if selected.None? {
        return Some(EnrollmentFailed);
      }
      var s := selected.value;
      var session := fleet.sessions[s];
      if session.usedAt.Some? || session.expiresAt <= now || !ActivePerson(database.Snapshot(), session.owner) {
        return Some(EnrollmentFailed);
      }
      var registered := OwnsLiveDevice(session.owner);
      if registered {
        return Some(DeviceAlreadyRegistered);
      }
      if device in fleet.devices || key in fleet.keys {
        return Some(IdentifierConflict);
      }
      // CHECK (used_at >= created_at)
      if now < session.createdAt {
        return None;
      }
      database.fleet := database.fleet.(sessions := fleet.sessions[s := session.(usedAt := Some(now))]);
      database.fleet := database.fleet.(devices :=
                                        fleet.devices[device := Device(session.owner, Setup, Offline, false)]);
      database.fleet := database.fleet.(keys := fleet.keys[key := DeviceKey(device, publicKey, now, None)]);
      return Some(Enrolled);
    }

    /** False when the transaction throws. */
    method RevokeDevice(owner: Id, device: Id, now: Time) returns (done: bool)
      requires LedgerOps.Linked(database.ledger)
      modifies database
      ensures var tx := Devices.RevokeDevice(old(database.Snapshot()), owner, device, now);
              if done then tx == Committed(database.Snapshot(), Done)
              else tx.Aborted? && database.Snapshot() == old(database.Snapshot())
    {
      var start := database.Snapshot();
      var devices := database.fleet.devices;
      if owner !in database.dir.people || device !in devices || devices[device].owner != owner
         || devices[device].state == Revoked {
        return true;
      }
      database.fleet := database.fleet.(
        devices := devices[device := devices[device].(state := Revoked, availability := Offline)]);
      var keys := database.fleet.keys;
      database.fleet := database.fleet.(keys := RevokedKeys(keys, device, now));
      var closed := CloseSessions(owner, now);
      // CHECK (revoked_at >= created_at) and CHECK (used_at >= created_at)
      if RevokingViolates(keys, device, now) || !closed {
        database.Become(start);
        return false;
      }
      Stores.CancelEach(database, OutstandingOn(database.ledger, device), DeviceRevoked, now);
      return true;
    }
  }
}
