/** The whole control plane as a state machine: every store transaction is one atomic step.

    Each step brings its own clock readings; nothing relates the clocks of
    different steps unless a theorem says so. */
module Protocol {
  import opened Schema
  import Issuance
  import Transport
  import Consent
  import Relationships
  import Devices

  /** Facts that no store writes: what agents, operators and people change elsewhere. */
  datatype Change =
    | DeviceSetUp(device: Id)
    | DeviceStatus(device: Id, availability: Availability, approvedDrive: bool)
    | PersonStatus(person: Id, participation: Participation, availability: Availability)
    | DeliveryPolicy(system: SystemPolicy)
    | SelectLimit(recipient: Id, limit: Ceiling)
    | Entitle(recipient: Id, entitlement: Entitlement)

  datatype Step =
    | Issue(input: Issuance.Input, request: Id, command: Id, clock: Time)
    | Poll(ctx: Transport.Context, now: Time)
    | Report(ctx: Transport.Context, observation: Observation, now: Time)
    | SetPaused(recipient: Id, paused: bool, now: Time, clock: Time)
    | SetGrant(recipient: Id, actor: Id, granted: bool, now: Time, clock: Time)
    | Invite(id: Id, inviter: Id, digest: Digest, now: Time, deleted: set<Id>)
    | Accept(accepter: Id, digest: Digest, now: Time, deleted: set<Id>)
    | Disconnect(person: Id, other: Id, now: Time)
    | Cleanup(before: Time, limit: nat, deleted: set<Id>)
    | OpenEnrollment(id: Id, owner: Id, digest: Digest, now: Time)
    | Enroll(digest: Digest, device: Id, key: Id, publicKey: nat, now: Time)
    | RevokeDevice(owner: Id, device: Id, now: Time)
    | Environment(change: Change)

  function Changed(db: Db, change: Change): Db {
    match change
    case DeviceSetUp(d) =>
      if d in db.fleet.devices && db.fleet.devices[d].state == Setup
      then SetDevices(db, db.fleet.devices[d := db.fleet.devices[d].(state := Ready)]) else db
    case DeviceStatus(d, availability, drive) =>
      if d in db.fleet.devices
      then SetDevices(db, db.fleet.devices[
                           d := db.fleet.devices[d].(availability := availability, approvedDrive := drive)])
      else db
    case PersonStatus(p, participation, availability) =>
      if p in db.dir.people
      then db.(dir := db.dir.(people := db.dir.people[
               p := db.dir.people[p].(participation := participation, availability := availability)]))
      else db
    case DeliveryPolicy(system) => db.(dir := db.dir.(system := system))
    case SelectLimit(r, limit) =>
      if r in db.perms.policies
      then SetPolicies(db, db.perms.policies[r := db.perms.policies[r].(selectedLimit := limit)]) else db
    case Entitle(r, e) => db.(dir := db.dir.(entitlements := db.dir.entitlements[r := e]))
  }

  function After<A>(db: Db, tx: Tx<A>): Db {
    if tx.Committed? then tx.db else db
  }

  ghost function Next(db: Db, step: Step): Db {
    match step
    case Issue(input, r, c, clock) => After(db, Issuance.Issue(db, input, r, c, clock))
    case Poll(ctx, now) => After(db, Transport.Poll(db, ctx, now))
    case Report(ctx, o, now) => After(db, Transport.IngestAgentResult(db, ctx, o, now))
    case SetPaused(r, paused, now, clock) => After(db, Consent.SetPaused(db, r, paused, now, clock))
    case SetGrant(r, a, granted, now, clock) => After(db, Consent.SetGrant(db, r, a, granted, now, clock))
    case Invite(id, inviter, digest, now, deleted) =>
      After(db, Relationships.CreateInvitation(db, id, inviter, digest, now, deleted))
    case Accept(p, digest, now, deleted) => After(db, Relationships.AcceptInvitation(db, p, digest, now, deleted))
    case Disconnect(p, q, now) => After(db, Relationships.Disconnect(db, p, q, now))
    case Cleanup(_, _, deleted) => After(db, Relationships.Cleanup(db, deleted))
    case OpenEnrollment(id, owner, digest, now) => After(db, Devices.CreateEnrollment(db, id, owner, digest, now))
    case Enroll(digest, d, k, publicKey, now) => After(db, Devices.ConsumeEnrollment(db, digest, d, k, publicKey, now))
    case RevokeDevice(owner, d, now) => After(db, Devices.RevokeDevice(db, owner, d, now))
    case Environment(change) => Changed(db, change)
  }

  /** A cleanup deletes stale rows only, no more than its limit, and none for a limit out of range. */
  predicate Enabled(db: Db, step: Step) {
    match step
    case Invite(_, _, _, now, deleted) =>
      Relationships.CleanupAllowed(db.perms.invitations, now - RETENTION, Relationships.CLEANUP_LIMIT, deleted)
    case Accept(_, _, now, deleted) =>
      Relationships.CleanupAllowed(db.perms.invitations, now - RETENTION, Relationships.CLEANUP_LIMIT, deleted)
    case Cleanup(before, limit, deleted) =>
      && Relationships.CleanupAllowed(db.perms.invitations, before, limit, deleted)
      && (deleted != {} ==> Relationships.ValidLimit(limit))
    case _ => true
  }

  ghost predicate Transition(db: Db, step: Step, next: Db) {
    Enabled(db, step) && next == Next(db, step)
  }

  /** `states[i]` is the database before `steps[i]`. */
  ghost predicate ValidRun(states: seq<Db>, steps: seq<Step>) {
    && |states| == |steps| + 1
    && forall i {:trigger steps[i]} :: 0 <= i < |steps| ==> Transition(states[i], steps[i], states[i + 1])
  }

  /** A deployment before its first request: people and their policies may exist, nothing else does. */
  predicate Genesis(db: Db) {
    && db.ledger == Ledger(map[], map[], map[], map[])
    && db.counters.recipients == map[] && db.counters.senders == map[] && db.fleet.nonces == map[]
    && db.fleet.devices == map[] && db.fleet.keys == map[] && db.fleet.sessions == map[]
    && db.perms.invitations == map[] && db.perms.grants == {} && db.perms.relationships == map[]
    && db.perms.policies.Keys <= db.dir.people.Keys
  }
}
