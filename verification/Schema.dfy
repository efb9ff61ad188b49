/** The tables of the control-plane database, one datatype per row type.

    Identifiers are opaque and totally ordered, times are milliseconds. A digest
    is an injective function of what was digested, so a digest column holds that
    content itself. Columns that nothing here depends on (display names, platform
    strings, event identifiers, audit times) are not modelled. */
module Schema {
  import opened Wrappers

  type Id = nat
  type Time = int
  type Digest = nat

  /** A PostgreSQL `integer` column with a `>= 0` check. */
  type Ceiling = n: int | 0 <= n <= 0x7fff_ffff

  const SECOND: int := 1_000
  const HOUR: int := 3_600 * SECOND
  const COMMAND_LIFETIME: int := 30 * SECOND
  const CLOCK_SKEW: int := 30 * SECOND
  const NONCE_LIFETIME: int := 600 * SECOND
  const SECRET_LIFETIME: int := 600 * SECOND
  const RETENTION: int := 24 * HOUR

  /** The default of `hourly_limit`, which nothing changes. */
  const SENDER_LIMIT: Ceiling := 5

  // People and what they permit.

  datatype Participation = AccountOnly | SetupInProgress | ParticipationReady | ParticipationRevoked
  datatype Availability = Available | Paused | Offline
  datatype Person = Person(active: bool, participation: Participation, availability: Availability)

  datatype Scope = Named | Connected | AllAuthenticated
  datatype Eligibility = ReadyParticipantsOnly | AuthenticatedAccounts
  datatype Policy = Policy(
    scope: Scope, eligibility: Eligibility, paused: bool, selectedLimit: Ceiling, cooldownSeconds: nat)

  datatype Relationship = Relationship(active: bool, createdAt: Time, endedAt: Option<Time>)

  datatype Invitation = Invitation(
    inviter: Id, digest: Digest, createdAt: Time, expiresAt: Time,
    usedAt: Option<Time>, invalidatedAt: Option<Time>)

  datatype Entitlement = Entitlement(ceiling: Ceiling, validUntil: Option<Time>)
  datatype SystemPolicy = SystemPolicy(deliveryEnabled: bool, physicalCeiling: Option<Ceiling>)

  // Devices.

  datatype EnrollmentState = Setup | Ready | Revoked
  datatype Device = Device(owner: Id, state: EnrollmentState, availability: Availability, approvedDrive: bool)
  datatype DeviceKey = DeviceKey(device: Id, publicKey: nat, createdAt: Time, revokedAt: Option<Time>)
  datatype Enrollment = Enrollment(
    owner: Id, digest: Digest, createdAt: Time, expiresAt: Time, usedAt: Option<Time>)
  datatype Nonce = Nonce(acceptedAt: Time, expiresAt: Time)

  // Counters.

  datatype RecipientState = RecipientState(
    windowStart: Time, accepted: nat, cooldownUntil: Option<Time>, revision: nat)
  datatype SenderState = SenderState(windowStart: Time, accepted: nat, limit: Ceiling)

  // Requests, commands, their lifecycle and the agents' results.

  datatype Action = Eject | EjectBack
  datatype RejectionReason =
    | PermissionRequired | RecipientPaused | QuietHoursActive | CooldownActive
    | RateLimited | DeviceUnavailable | ActorRestricted
  datatype CancelReason = PermissionRevoked | DeviceRevoked | DeliveryDisabled

  datatype LifecycleState =
    | Requested | Rejected | Authorized | Queued | Dispatched | Delivered
    | RejectedByAgent | Attempted | Expired | Cancelled | Failed | OutcomeUnknown

  datatype Fingerprint = Fingerprint(actor: Id, recipient: Id, action: Action, replyTo: Option<Id>)
  datatype RequestOutcome = WasRejected(reason: RejectionReason) | WasQueued(command: Id)
  datatype Request = Request(
    actor: Id, recipient: Id, key: Id, fingerprint: Fingerprint, action: Action,
    replyTo: Option<Id>, outcome: RequestOutcome, createdAt: Time)

  datatype Command = Command(
    request: Id, actor: Id, recipient: Id, device: Id, status: LifecycleState,
    replyTo: Option<Id>, issuedAt: Time, expiresAt: Time, cancellation: Option<CancelReason>)

  datatype RefusalCode =
    | InvalidCommand | AudienceMismatch | CommandExpired | CommandIssuedInFuture
    | CommandReplayed | AgentPaused | NoApprovedDrive | CommandUnsupported
  datatype AttemptCode =
    | CommandAccepted | DriveNotFound | DriveBusy | DriveNotReady
    | DriveUnsupported | DriveDisconnected | AccessDenied | AttemptFailed

  /** What an agent reports: a refusal is zero attempts, an attempt is exactly one. */
  datatype Observation =
    | Refusal(command: Id, device: Id, recordedAt: Time, refusal: RefusalCode)
    | Attempt(command: Id, device: Id, recordedAt: Time, code: AttemptCode)

  /** The stored fingerprint is the digest of every field of the observation. */
  datatype AgentResult = AgentResult(observation: Observation, receivedAt: Time)

  datatype EventReason =
    | RejectedBecause(rejection: RejectionReason) | CancelledBecause(cancel: CancelReason)
    | LifetimeOver | Refused(refusal: RefusalCode) | NotAccepted(code: AttemptCode)
    | PhysicalOutcomeUnverified
  datatype LifecycleEvent = LifecycleEvent(state: LifecycleState, reason: Option<EventReason>, at: Time)

  // The database.

  /** Requests and all that follows from them; `events` keeps each request's own events in insertion order. */
  datatype Ledger = Ledger(
    requests: map<Id, Request>, commands: map<Id, Command>,
    events: map<Id, seq<LifecycleEvent>>, results: map<(Id, Id), AgentResult>)

  datatype Directory = Directory(people: map<Id, Person>, system: SystemPolicy, entitlements: map<Id, Entitlement>)

  datatype Permissions = Permissions(
    policies: map<Id, Policy>, blocks: set<(Id, Id)>, relationships: map<(Id, Id), Relationship>,
    grants: set<(Id, Id)>, invitations: map<Id, Invitation>)

  datatype Fleet = Fleet(
    devices: map<Id, Device>, keys: map<Id, DeviceKey>, sessions: map<Id, Enrollment>,
    nonces: map<(Id, Digest), Nonce>)

  datatype Counters = Counters(recipients: map<Id, RecipientState>, senders: map<Id, SenderState>)

  datatype Db = Db(dir: Directory, perms: Permissions, fleet: Fleet, counters: Counters, ledger: Ledger)

  /** The answer of a transaction that has none. */
  datatype Ack = Done

  /** A transaction either commits a new database with an answer or leaves no trace. */
  datatype Tx<+A> = Committed(db: Db, answer: A) | Aborted

  // Writes to one table.

  function SetRecipients(db: Db, m: map<Id, RecipientState>): Db { db.(counters := db.counters.(recipients := m)) }

  function SetSenders(db: Db, m: map<Id, SenderState>): Db { db.(counters := db.counters.(senders := m)) }

  function SetPolicies(db: Db, m: map<Id, Policy>): Db { db.(perms := db.perms.(policies := m)) }

  function SetGrants(db: Db, s: set<(Id, Id)>): Db { db.(perms := db.perms.(grants := s)) }

  function SetInvitations(db: Db, m: map<Id, Invitation>): Db { db.(perms := db.perms.(invitations := m)) }

  function SetDevices(db: Db, m: map<Id, Device>): Db { db.(fleet := db.fleet.(devices := m)) }

  function SetSessions(db: Db, m: map<Id, Enrollment>): Db { db.(fleet := db.fleet.(sessions := m)) }

  function SetNonces(db: Db, m: map<(Id, Digest), Nonce>): Db { db.(fleet := db.fleet.(nonces := m)) }

  /** Relationships are stored once, under the ordered pair. */
  function Pair(p: Id, q: Id): (Id, Id) {
    if p < q then (p, q) else (q, p)
  }

  predicate Related(perms: Permissions, p: Id, q: Id) {
    Pair(p, q) in perms.relationships && perms.relationships[Pair(p, q)].active
  }

  predicate ActivePerson(db: Db, p: Id) {
    p in db.dir.people && db.dir.people[p].active
  }

  predicate Outstanding(c: Command) {
    c.status == Queued || c.status == Dispatched
  }
}
