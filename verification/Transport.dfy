/** Agent authentication, polling and result ingestion, as functions of the database. */
module Transport {
  import opened Schema
  import opened Wrappers
  import LedgerOps

  datatype Context = Context(device: Id, key: Id, nonce: Digest)

  // Authentication reads the key in its own transaction, so the key is a parameter here.

  datatype SignedRequest = SignedRequest(
    device: Id, key: Id, timestamp: Time, nonce: Digest, bodyIntact: bool, signature: nat)

  datatype Authentication =
    | Authenticated(context: Context)
    | ContentHashMismatch | AuthenticationFailed | ClockSkew

  predicate LiveKey(db: Db, device: Id, key: Id) {
    && device in db.fleet.devices && db.fleet.devices[device].state == Ready
    && key in db.fleet.keys && db.fleet.keys[key].device == device && db.fleet.keys[key].revokedAt.None?
    && var owner := db.fleet.devices[device].owner;
    && owner in db.dir.people && db.dir.people[owner].active
        && db.dir.people[owner].participation != ParticipationRevoked
  }

  function LoadActivePublicKey(db: Db, device: Id, key: Id): Option<nat> {
    if LiveKey(db, device, key) then Some(db.fleet.keys[key].publicKey) else None
  }

  /** `verify` is the signature check over the canonical request, which names every field of it. */
  function Authenticate(request: SignedRequest, publicKey: Option<nat>,
                        verify: (nat, SignedRequest) -> bool, now: Time): Authentication {
    if !request.bodyIntact then ContentHashMismatch
    else if publicKey.None? || !verify(publicKey.value, request) then AuthenticationFailed
    else if now - request.timestamp > CLOCK_SKEW || request.timestamp - now > CLOCK_SKEW then ClockSkew
    else Authenticated(Context(request.device, request.key, request.nonce))
  }

  // Nonces.

  datatype Gate = Fresh | Unauthenticated | Replayed

  function Purged(nonces: map<(Id, Digest), Nonce>, device: Id, now: Time): map<(Id, Digest), Nonce> {
    map n | n in nonces && !(n.0 == device && nonces[n].expiresAt <= now) :: nonces[n]
  }

  function NonceGate(db: Db, ctx: Context, now: Time): Gate {
    if (ctx.device, ctx.nonce) in Purged(db.fleet.nonces, ctx.device, now) then Replayed
    else if LiveKey(db, ctx.device, ctx.key) then Fresh
    else Unauthenticated
  }

  function ConsumeNonce(db: Db, ctx: Context, now: Time): Db {
    var kept := Purged(db.fleet.nonces, ctx.device, now);
    SetNonces(db, if NonceGate(db, ctx, now) == Fresh
                  then kept[(ctx.device, ctx.nonce) := Nonce(now, now + NONCE_LIFETIME)] else kept)
  }

  // Polling.

  datatype PollAnswer =
    | NoCommand
    | Deliver(command: Id, device: Id, actor: Id, issuedAt: Time, expiresAt: Time)
    | PollRejected(gate: Gate)

  predicate OnDevice(commands: map<Id, Command>, c: Id, device: Id) {
    c in commands && commands[c].device == device && Outstanding(commands[c])
  }

  predicate Precedes(commands: map<Id, Command>, a: Id, b: Id)
    requires a in commands && b in commands
  {
    commands[a].issuedAt < commands[b].issuedAt || (commands[a].issuedAt == commands[b].issuedAt && a < b)
  }

  ghost predicate IsHead(commands: map<Id, Command>, h: Id, device: Id) {
    OnDevice(commands, h, device)
    && forall c :: OnDevice(commands, c, device) && c != h ==> Precedes(commands, h, c)
  }

  ghost function Head(commands: map<Id, Command>, device: Id): (head: Option<Id>)
    ensures head.Some? ==> IsHead(commands, head.value, device)
    ensures head.None? ==> forall c :: !IsHead(commands, c, device)
  {
    if exists h :: IsHead(commands, h, device) then
      var h :| IsHead(commands, h, device); Some(h)
    else None
  }

  predicate CanReceive(db: Db, device: Id) {
    device in db.fleet.devices && db.fleet.devices[device].availability == Available
        && db.fleet.devices[device].approvedDrive
  }

  /** What an accepted poll does with the earliest outstanding command. */
  function Serve(db: Db, h: Id, now: Time): (Db, PollAnswer)
    requires h in db.ledger.commands
  {
    var c := db.ledger.commands[h];
    if c.expiresAt <= now then
      (db.(ledger := LedgerOps.Advance(db.ledger, h, Expired, c.cancellation, Some(LifetimeOver), now)), NoCommand)
    else if !db.dir.system.deliveryEnabled then
      (db.(ledger := LedgerOps.Cancel(db.ledger, h, DeliveryDisabled, now)), NoCommand)
    else if !CanReceive(db, c.device) then (db, NoCommand)
    else
      (if c.status == Queued
       then db.(ledger := LedgerOps.Advance(db.ledger, h, Dispatched, c.cancellation, None, now)) else db,
       Deliver(h, c.device, c.actor, c.issuedAt, c.expiresAt))
  }

  ghost function Poll(db: Db, ctx: Context, now: Time): Tx<PollAnswer> {
    var gate, next := NonceGate(db, ctx, now), ConsumeNonce(db, ctx, now);
    if gate != Fresh then Committed(next, PollRejected(gate))
    else match Head(db.ledger.commands, ctx.device)
      case None => Committed(next, NoCommand)
      case Some(h) => var (served, answer) := Serve(next, h, now); Committed(served, answer)
  }

  // Results.

  datatype IngestAnswer =
    | Stored | AlreadyStored | CommandMismatch | ResultConflict | RecordedInFuture | IngestRejected(gate: Gate)

  function Ingest(db: Db, ctx: Context, o: Observation, receivedAt: Time): Tx<IngestAnswer> {
    var gate, next := NonceGate(db, ctx, receivedAt), ConsumeNonce(db, ctx, receivedAt);
    var l := db.ledger;
    if gate != Fresh then Committed(next, IngestRejected(gate))
    else if o.command !in l.commands || l.commands[o.command].device != ctx.device then
      Committed(next, CommandMismatch)
    else if (ctx.device, o.command) in l.results then
      Committed(next, if l.results[(ctx.device, o.command)].observation == o then AlreadyStored else ResultConflict)
    else if l.commands[o.command].status != Dispatched then Committed(next, CommandMismatch)
    else Committed(next.(ledger := LedgerOps.StoreResult(l, o, ctx.device, receivedAt)), Stored)
  }

  /** The application's gate stands before the transaction. */
  function IngestAgentResult(db: Db, ctx: Context, o: Observation, receivedAt: Time): Tx<IngestAnswer> {
    if o.device != ctx.device then Committed(db, CommandMismatch)
    else if o.recordedAt > receivedAt + CLOCK_SKEW then Committed(db, RecordedInFuture)
    else Ingest(db, ctx, o, receivedAt)
  }
}
