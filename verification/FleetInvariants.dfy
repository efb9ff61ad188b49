/** Devices, keys and enrollment sessions: who may speak for whom, in every reachable database. */
module FleetInvariants {
  import opened Schema
  import opened Wrappers
  import opened Protocol
  import opened Admission
  import Issuance
  import Devices

  ghost predicate OneLiveDevice(devices: map<Id, Device>) {
    forall d, e, owner :: Issuance.IsLiveDevice(devices, d, owner) && Issuance.IsLiveDevice(devices, e, owner) ==>
        d == e
  }

  predicate LiveKeyOf(keys: map<Id, DeviceKey>, k: Id, d: Id) {
    k in keys && keys[k].device == d && keys[k].revokedAt.None?
  }

  /** Keys belong to known devices, one live key each, none on a revoked device. */
  ghost predicate KeysHeld(devices: map<Id, Device>, keys: map<Id, DeviceKey>) {
    && (forall k :: k in keys ==> keys[k].device in devices)
    && (forall j, k, d :: LiveKeyOf(keys, j, d) && LiveKeyOf(keys, k, d) ==> j == k)
    && (forall k, d :: LiveKeyOf(keys, k, d) && d in devices ==> devices[d].state != Revoked)
  }

  predicate OpenFor(sessions: map<Id, Enrollment>, s: Id, owner: Id) {
    s in sessions && Devices.OpenSession(sessions[s], owner)
  }

  ghost predicate SessionsSingle(sessions: map<Id, Enrollment>) {
    && (forall s, t, digest :: Devices.IsSession(sessions, s, digest) && Devices.IsSession(sessions, t, digest) ==>
        s == t)
    && (forall s, t, owner :: OpenFor(sessions, s, owner) && OpenFor(sessions, t, owner) ==> s == t)
  }

  /** Every command runs on a device of its recipient, and never waits for a revoked one. */
  ghost predicate CommandsOwned(devices: map<Id, Device>, commands: map<Id, Command>) {
    forall c :: c in commands ==>
                  && commands[c].device in devices
                  && devices[commands[c].device].owner == commands[c].recipient
                  && (Outstanding(commands[c]) ==> devices[commands[c].device].state != Revoked)
  }

  ghost predicate FleetInv(db: Db) {
    && OneLiveDevice(db.fleet.devices)
    && KeysHeld(db.fleet.devices, db.fleet.keys)
    && SessionsSingle(db.fleet.sessions)
    && CommandsOwned(db.fleet.devices, db.ledger.commands)
  }

  /** Devices are never forgotten, never change hands and never come back from revocation. */
  ghost predicate DevicesEvolve(a: map<Id, Device>, b: map<Id, Device>) {
    forall d :: d in a ==> d in b && b[d].owner == a[d].owner && (a[d].state == Revoked ==> b[d].state == Revoked)
  }

  /** Steps other than enrolling, revoking, opening sessions and environment changes keep devices, keys and sessions. */
  predicate FleetStep(step: Step) {
    step.OpenEnrollment? || step.Enroll? || step.RevokeDevice? || step.Environment?
  }

  ghost predicate SameFleet(db: Db, next: Db) {
    && next.fleet.devices == db.fleet.devices && next.fleet.keys == db.fleet.keys
    && next.fleet.sessions == db.fleet.sessions
  }

  lemma RelationshipFrame(db: Db, step: Step)
    requires step.Invite? || step.Accept? || step.Disconnect? || step.Cleanup?
    ensures Next(db, step).fleet == db.fleet
  {}

  lemma IssueFrame(db: Db, step: Step)
    requires step.Issue?
    ensures Next(db, step).fleet == db.fleet
  {
    if StepAdmits(db, step) {
      AdmitEffect(db, step.input, step.request, step.command, step.clock);
    } else {
      NoAdmitEffect(db, step.input, step.request, step.command, step.clock);
    }
  }

  lemma TransportFrame(db: Db, step: Step)
    requires step.Poll? || step.Report?
    ensures SameFleet(db, Next(db, step))
  {}

  lemma ConsentFrame(db: Db, step: Step)
    requires step.SetPaused? || step.SetGrant?
    ensures Next(db, step).fleet == db.fleet
  {}

  lemma FleetFrame(db: Db, step: Step)
    requires !FleetStep(step)
    ensures SameFleet(db, Next(db, step))
  {
    if step.Issue? {
      IssueFrame(db, step);
    } else if step.Poll? || step.Report? {
      TransportFrame(db, step);
    } else if step.SetPaused? || step.SetGrant? {
      ConsentFrame(db, step);
    } else {
      RelationshipFrame(db, step);
    }
  }

  lemma StepDevicesEvolve(db: Db, step: Step)
    ensures DevicesEvolve(db.fleet.devices, Next(db, step).fleet.devices)
  {
    if !FleetStep(step) {
      FleetFrame(db, step);
    }
  }

  /** Sessions stay single when every (open) session comes from an (open) one. */
  lemma SessionsKept(a: map<Id, Enrollment>, b: map<Id, Enrollment>)
    requires SessionsSingle(a)
    requires forall s, digest :: Devices.IsSession(b, s, digest) ==> Devices.IsSession(a, s, digest)
    requires forall s, owner :: OpenFor(b, s, owner) ==> OpenFor(a, s, owner)
    ensures SessionsSingle(b)
  {}

  lemma OpeningKeepsSingle(sessions: map<Id, Enrollment>, id: Id, owner: Id, digest: Digest, now: Time, expiresAt: Time)
    requires SessionsSingle(sessions) && id !in sessions && Devices.FindSession(sessions, digest).None?
    ensures SessionsSingle(Devices.Closed(sessions, owner, now)[id := Enrollment(owner, digest, now, expiresAt, None)])
  {
    var closed := Devices.Closed(sessions, owner, now);
    var next := closed[id := Enrollment(owner, digest, now, expiresAt, None)];
    assert forall s, d :: Devices.IsSession(next, s, d) && s != id ==> Devices.IsSession(sessions, s, d);
    assert forall s, o :: OpenFor(next, s, o) && s != id ==> OpenFor(sessions, s, o) && o != owner;
  }

  lemma OpenEnrollmentKeepsFleet(db: Db, step: Step)
    requires FleetInv(db) && step.OpenEnrollment?
    ensures FleetInv(Next(db, step))
  {
    var tx := Devices.CreateEnrollment(db, step.id, step.owner, step.digest, step.now);
    if tx.Committed? && tx.answer == Devices.SessionCreated {
      OpeningKeepsSingle(db.fleet.sessions, step.id, step.owner, step.digest, step.now, step.now + SECRET_LIFETIME);
    }
  }

  ghost predicate Enrolls(db: Db, step: Step) {
    && step.Enroll?
    && var tx := Devices.ConsumeEnrollment(db, step.digest, step.device, step.key, step.publicKey, step.now);
    && tx.Committed? && tx.answer == Devices.Enrolled
  }

  lemma EnrollDevices(db: Db, step: Step)
    requires Enrolls(db, step) && OneLiveDevice(db.fleet.devices)
    ensures OneLiveDevice(Next(db, step).fleet.devices)
  {
    var next := Next(db, step).fleet.devices;
    assert forall d, o :: Issuance.IsLiveDevice(next, d, o) && d != step.device
                          ==> Issuance.IsLiveDevice(db.fleet.devices, d, o);
  }

  lemma EnrollKeys(db: Db, step: Step)
    requires Enrolls(db, step) && KeysHeld(db.fleet.devices, db.fleet.keys)
    ensures KeysHeld(Next(db, step).fleet.devices, Next(db, step).fleet.keys)
  {
    var next := Next(db, step).fleet.keys;
    assert forall k, d :: LiveKeyOf(next, k, d) && k != step.key ==> LiveKeyOf(db.fleet.keys, k, d);
  }

  lemma EnrollSessions(db: Db, step: Step)
    requires Enrolls(db, step) && SessionsSingle(db.fleet.sessions)
    ensures SessionsSingle(Next(db, step).fleet.sessions)
  {
    SessionsKept(db.fleet.sessions, Next(db, step).fleet.sessions);
  }

  lemma EnrollKeepsFleet(db: Db, step: Step)
    requires FleetInv(db) && step.Enroll?
    ensures FleetInv(Next(db, step))
  {
    if Enrolls(db, step) {
      EnrollDevices(db, step);
      EnrollKeys(db, step);
      EnrollSessions(db, step);
    } else {
      assert Next(db, step) == db;
    }
  }

  ghost predicate Revokes(db: Db, step: Step) {
    && step.RevokeDevice? && Issuance.IsLiveDevice(db.fleet.devices, step.device, step.owner)
    && step.owner in db.dir.people
    && Devices.RevokeDevice(db, step.owner, step.device, step.now).Committed?
  }

  lemma RevokeDevicesAndKeys(db: Db, step: Step)
    requires Revokes(db, step) && OneLiveDevice(db.fleet.devices) && KeysHeld(db.fleet.devices, db.fleet.keys)
    ensures OneLiveDevice(Next(db, step).fleet.devices)
    ensures KeysHeld(Next(db, step).fleet.devices, Next(db, step).fleet.keys)
  {
    var next := Next(db, step).fleet;
    assert forall d, o :: Issuance.IsLiveDevice(next.devices, d, o) ==> Issuance.IsLiveDevice(db.fleet.devices, d, o);
    assert forall k, d :: LiveKeyOf(next.keys, k, d) ==> LiveKeyOf(db.fleet.keys, k, d) && d != step.device;
  }

  lemma RevokeSessions(db: Db, step: Step)
    requires Revokes(db, step) && SessionsSingle(db.fleet.sessions)
    ensures SessionsSingle(Next(db, step).fleet.sessions)
  {
    SessionsKept(db.fleet.sessions, Next(db, step).fleet.sessions);
  }

  lemma RevokeKeepsFleet(db: Db, step: Step)
    requires FleetInv(db) && step.RevokeDevice?
    ensures FleetInv(Next(db, step))
  {
    if Revokes(db, step) {
      RevokeDevicesAndKeys(db, step);
      RevokeSessions(db, step);
    } else {
      assert Next(db, step) == db;
    }
  }

  lemma EnvironmentKeepsFleet(db: Db, change: Change)
    requires FleetInv(db)
    ensures FleetInv(Changed(db, change))
  {
    var next := Changed(db, change);
    assert forall d, owner :: Issuance.IsLiveDevice(next.fleet.devices, d, owner)
                              ==> Issuance.IsLiveDevice(db.fleet.devices, d, owner);
  }

  lemma AdmitKeepsFleet(db: Db, step: Step)
    requires FleetInv(db) && StepAdmits(db, step)
    ensures FleetInv(Next(db, step))
  {
    AdmitEffect(db, step.input, step.request, step.command, step.clock);
  }

  lemma StepKeepsFleet(db: Db, step: Step)
    requires FleetInv(db)
    ensures FleetInv(Next(db, step))
  {
    if StepAdmits(db, step) {
      AdmitKeepsFleet(db, step);
    } else if FleetStep(step) {
      match step
      case RevokeDevice(_, _, _) => RevokeKeepsFleet(db, step);
      case Environment(change) => EnvironmentKeepsFleet(db, change);
      case Enroll(_, _, _, _, _) => EnrollKeepsFleet(db, step);
      case OpenEnrollment(_, _, _, _) => OpenEnrollmentKeepsFleet(db, step);
    } else {
      FleetFrame(db, step);
      StepProgress(db, step);
    }
  }
}
