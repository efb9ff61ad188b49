/** Which enrollment secrets work and what state a device is in is what enrolling, setting up and revoking made of
    them. */
module DeviceHistory {
  import opened Schema
  import opened Wrappers
  import opened Protocol
  import opened Reachability
  import opened ConsentHistory
  import opened InvitationHistory
  import Devices
  import DeviceTheorems
  import FleetInvariants
  import Issuance
  import Transport

  // What a step writes.

  /** The owner has a device that is not revoked. */
  ghost predicate Equipped(db: Db, owner: Id) {
    exists d :: d in db.fleet.devices && db.fleet.devices[d].owner == owner && db.fleet.devices[d].state != Revoked
  }

  lemma EquippedExactly(db: Db, owner: Id)
    ensures Devices.HasLiveDevice(db.fleet.devices, owner) <==> Equipped(db, owner)
  {
    assert forall d :: Issuance.IsLiveDevice(db.fleet.devices, d, owner) <==>
        d in db.fleet.devices && db.fleet.devices[d].owner == owner && db.fleet.devices[d].state != Revoked;
  }

  /** The owner's unused sessions are used up at that moment, and no other. */
  ghost predicate ClosesSessions(sessions: map<Id, Enrollment>, next: map<Id, Enrollment>, owner: Id, now: Time) {
    forall s :: s in sessions ==>
                  && s in next
                  && next[s] == if sessions[s].owner == owner && sessions[s].usedAt == None
                                then sessions[s].(usedAt := Some(now)) else sessions[s]
  }

  /** Closing a session that the clock is behind fails a table check. */
  predicate ClosesEarly(db: Db, owner: Id, now: Time) {
    exists s :: s in db.fleet.sessions && db.fleet.sessions[s].owner == owner && db.fleet.sessions[s].usedAt == None
                && now < db.fleet.sessions[s].createdAt
  }

  ghost predicate SecretTaken(db: Db, digest: Digest) {
    exists s :: s in db.fleet.sessions && db.fleet.sessions[s].digest == digest
  }

  /** The step opens an enrollment session. */
  ghost predicate Opens(db: Db, step: Step) {
    && step.OpenEnrollment? && ActiveAccount(db, step.owner) && !Equipped(db, step.owner)
    && !ClosesEarly(db, step.owner, step.now) && step.id !in db.fleet.sessions && !SecretTaken(db, step.digest)
  }

  /** An active person without a device gets a session for ten minutes, which closes the person's other sessions. */
  lemma OpenWritesExactly(db: Db, id: Id, owner: Id, digest: Digest, now: Time)
    ensures var tx := Devices.CreateEnrollment(db, id, owner, digest, now);
            var step := OpenEnrollment(id, owner, digest, now);
            var next := Next(db, step);
            && (tx.Committed? && tx.answer == Devices.OwnerUnavailable <==> !ActiveAccount(db, owner))
            && (tx.Committed? && tx.answer == Devices.DeviceExists <==> ActiveAccount(db, owner) && Equipped(db, owner))
            && (tx.Committed? && tx.answer == Devices.SessionCreated <==> Opens(db, step))
            && next == SetSessions(db, next.fleet.sessions)
            && var sessions := next.fleet.sessions;
            if !Opens(db, step) then sessions == db.fleet.sessions
            else
              && sessions.Keys == db.fleet.sessions.Keys + {id}
              && sessions[id] == Enrollment(owner, digest, now, now + 600 * SECOND, None)
              && ClosesSessions(db.fleet.sessions, sessions, owner, now)
  {
    EquippedExactly(db, owner);
    assert Devices.FindSession(db.fleet.sessions, digest).Some? <==> SecretTaken(db, digest) by {
      assert forall s :: Devices.IsSession(db.fleet.sessions, s, digest) <==>
          s in db.fleet.sessions && db.fleet.sessions[s].digest == digest;
    }
  }

  /** The session is unused and unexpired, and its owner's account is active. */
  predicate OpenTo(db: Db, s: Id, digest: Digest, now: Time) {
    && s in db.fleet.sessions
    && db.fleet.sessions[s].digest == digest && db.fleet.sessions[s].usedAt == None
    && now < db.fleet.sessions[s].expiresAt && ActiveAccount(db, db.fleet.sessions[s].owner)
  }

  predicate IdentifiersTaken(db: Db, device: Id, key: Id) {
    device in db.fleet.devices || key in db.fleet.keys
  }

  /** The step enrolls its device by that session. */
  ghost predicate EnrollsBy(db: Db, step: Step, s: Id) {
    && step.Enroll? && OpenTo(db, s, step.digest, step.now) && !Equipped(db, db.fleet.sessions[s].owner)
    && !IdentifiersTaken(db, step.device, step.key) && db.fleet.sessions[s].createdAt <= step.now
  }

  /** One device in setup, offline and without a drive, and one key. */
  ghost predicate EnrolledIn(db: Db, next: Db, s: Id, device: Id, key: Id, publicKey: nat, now: Time)
    requires s in db.fleet.sessions
  {
    next == db.(fleet := Fleet(
                db.fleet.devices[device := Device(db.fleet.sessions[s].owner, Setup, Offline, false)],
                db.fleet.keys[key := DeviceKey(device, publicKey, now, None)],
                db.fleet.sessions[s := db.fleet.sessions[s].(usedAt := Some(now))], db.fleet.nonces))
  }

  lemma SessionFound(db: Db, s: Id, digest: Digest)
    requires FleetInvariants.SessionsSingle(db.fleet.sessions)
    ensures Devices.FindSession(db.fleet.sessions, digest) == Some(s) <==>
            s in db.fleet.sessions && db.fleet.sessions[s].digest == digest
  {
    var found := Devices.FindSession(db.fleet.sessions, digest);
    if s in db.fleet.sessions && db.fleet.sessions[s].digest == digest {
      assert Devices.IsSession(db.fleet.sessions, s, digest);
      assert Devices.IsSession(db.fleet.sessions, found.value, digest);
    }
  }

  /** A secret enrolls one device, exactly if its session is open to it, its owner has none yet and the identifiers
      are free; every other answer has its own condition. */
  lemma EnrollWritesExactly(db: Db, digest: Digest, device: Id, key: Id, publicKey: nat, now: Time)
    requires FleetInvariants.SessionsSingle(db.fleet.sessions)
    ensures var tx, step := Devices.ConsumeEnrollment(db, digest, device, key, publicKey, now),
                            Enroll(digest, device, key, publicKey, now);
            var next := Next(db, step);
            && (tx.Committed? && tx.answer == Devices.EnrollmentFailed <==> forall s :: !OpenTo(db, s, digest, now))
            && (tx.Committed? && tx.answer == Devices.DeviceAlreadyRegistered <==>
                exists s :: OpenTo(db, s, digest, now) && Equipped(db, db.fleet.sessions[s].owner))
            && (tx.Committed? && tx.answer == Devices.IdentifierConflict <==>
                exists s :: OpenTo(db, s, digest, now) && !Equipped(db, db.fleet.sessions[s].owner)
                            && IdentifiersTaken(db, device, key))
            && (tx.Committed? && tx.answer == Devices.Enrolled <==> exists s :: EnrollsBy(db, step, s))
            && (forall s :: s in db.fleet.sessions && EnrollsBy(db, step, s) ==>
                              EnrolledIn(db, next, s, device, key, publicKey, now))
            && ((forall s :: !EnrollsBy(db, step, s)) ==> next == db)
  {
    forall s: Id
      ensures Devices.FindSession(db.fleet.sessions, digest) == Some(s) <==>
              s in db.fleet.sessions && db.fleet.sessions[s].digest == digest
    {
      SessionFound(db, s, digest);
    }
    var found := Devices.FindSession(db.fleet.sessions, digest);
    if found.Some? {
      EnrollFound(db, digest, device, key, publicKey, now, found.value);
    }
  }

  lemma EnrollFound(db: Db, digest: Digest, device: Id, key: Id, publicKey: nat, now: Time, s: Id)
    requires Devices.FindSession(db.fleet.sessions, digest) == Some(s)
    ensures var tx, step := Devices.ConsumeEnrollment(db, digest, device, key, publicKey, now),
                            Enroll(digest, device, key, publicKey, now);
            var next, open, taken := Next(db, step), OpenTo(db, s, digest, now), IdentifiersTaken(db, device, key);
            var equipped := Equipped(db, db.fleet.sessions[s].owner);
            && (tx.Committed? && tx.answer == Devices.EnrollmentFailed <==> !open)
            && (tx.Committed? && tx.answer == Devices.DeviceAlreadyRegistered <==> open && equipped)
            && (tx.Committed? && tx.answer == Devices.IdentifierConflict <==> open && !equipped && taken)
            && (tx.Committed? && tx.answer == Devices.Enrolled <==> EnrollsBy(db, step, s))
            && if EnrollsBy(db, step, s) then EnrolledIn(db, next, s, device, key, publicKey, now) else next == db
  {
    EquippedExactly(db, db.fleet.sessions[s].owner);
  }

  predicate OwnsLive(db: Db, owner: Id, d: Id) {
    && owner in db.dir.people && d in db.fleet.devices
    && db.fleet.devices[d].owner == owner && db.fleet.devices[d].state != Revoked
  }

  predicate KeyLater(db: Db, d: Id, now: Time) {
    exists k :: k in db.fleet.keys && db.fleet.keys[k].device == d && db.fleet.keys[k].revokedAt == None
                && now < db.fleet.keys[k].createdAt
  }

  /** The step revokes the device. */
  ghost predicate RevokesDevice(db: Db, step: Step, d: Id) {
    && step.RevokeDevice? && step.device == d && OwnsLive(db, step.owner, d)
    && !KeyLater(db, d, step.now) && !ClosesEarly(db, step.owner, step.now)
  }

  function OnTheirWayOn(l: Ledger, d: Id): set<Id> {
    set c | c in l.commands && l.commands[c].device == d && l.commands[c].status in {Queued, Dispatched}
  }

  /** The device is revoked and offline, its keys are revoked, the owner's sessions are closed, and everything on its
      way to the device is called off. */
  ghost predicate RevokedIn(db: Db, next: Db, owner: Id, d: Id, now: Time)
    requires d in db.fleet.devices
  {
    && next.dir == db.dir && next.perms == db.perms && next.counters == db.counters
    && next.fleet.nonces == db.fleet.nonces
    && next.fleet.devices ==
       db.fleet.devices[d := Device(db.fleet.devices[d].owner, Revoked, Offline, db.fleet.devices[d].approvedDrive)]
    && next.fleet.keys.Keys == db.fleet.keys.Keys && next.fleet.sessions.Keys == db.fleet.sessions.Keys
    && (forall k :: k in db.fleet.keys ==>
                      next.fleet.keys[k] == if db.fleet.keys[k].device == d && db.fleet.keys[k].revokedAt == None
                                            then db.fleet.keys[k].(revokedAt := Some(now)) else db.fleet.keys[k])
    && ClosesSessions(db.fleet.sessions, next.fleet.sessions, owner, now)
    && CalledOff(db.ledger, next.ledger, OnTheirWayOn(db.ledger, d), DeviceRevoked, now)
  }

  /** A device is revoked by its owner and nobody else, and only once; a clock behind a key or an open session is an
      error. */
  lemma RevokeWritesExactly(db: Db, owner: Id, d: Id, now: Time)
    ensures var tx, step := Devices.RevokeDevice(db, owner, d, now), RevokeDevice(owner, d, now);
            var next := Next(db, step);
            && (tx.Aborted? <==> OwnsLive(db, owner, d) && (KeyLater(db, d, now) || ClosesEarly(db, owner, now)))
            && if RevokesDevice(db, step, d) then RevokedIn(db, next, owner, d, now) else next == db
  {
    assert OnTheirWayOn(db.ledger, d) == Devices.OutstandingOn(db.ledger, d);
    CancellingCallsOff(db.ledger, OnTheirWayOn(db.ledger, d), DeviceRevoked, now);
  }

  // Secrets over a run.

  /** The step ends the enrollment session: another is opened for its owner, it is used, or the owner's device is
      revoked. */
  ghost predicate Closes(db: Db, step: Step, s: Id, owner: Id) {
    || (Opens(db, step) && step.owner == owner)
    || EnrollsBy(db, step, s)
    || (step.RevokeDevice? && RevokesDevice(db, step, step.device) && step.owner == owner)
  }

  /** The step that opened the session, if nothing has ended it since. */
  ghost function OpenedBy(states: seq<Db>, steps: seq<Step>, j: nat, s: Id): (k: Option<nat>)
    requires j <= |steps| < |states|
    ensures k.Some? ==> k.value < j && steps[k.value].OpenEnrollment?
  {
    if j == 0 then None
    else if Opens(states[j - 1], steps[j - 1]) && steps[j - 1].id == s then Some(j - 1)
    else
      var k := OpenedBy(states, steps, j - 1, s);
      if k.Some? && !Closes(states[j - 1], steps[j - 1], s, steps[k.value].owner) then k else None
  }

  predicate UnusedSession(db: Db, s: Id) {
    s in db.fleet.sessions && db.fleet.sessions[s].usedAt == None
  }

  lemma OthersKeepSessions(db: Db, step: Step)
    requires !step.OpenEnrollment? && !step.Enroll? && !step.RevokeDevice?
    ensures Next(db, step).fleet.sessions == db.fleet.sessions && Next(db, step).fleet.keys == db.fleet.keys
  {
    if !step.Environment? {
      FleetInvariants.FleetFrame(db, step);
    }
  }

  lemma EnrollUses(db: Db, step: Step, next: Db, s: Id)
    requires Transition(db, step, next) && step.Enroll? && FleetInvariants.SessionsSingle(db.fleet.sessions)
    ensures UnusedSession(next, s) <==> UnusedSession(db, s) && !EnrollsBy(db, step, s)
    ensures UnusedSession(next, s) ==> next.fleet.sessions[s] == db.fleet.sessions[s]
  {
    EnrollWritesExactly(db, step.digest, step.device, step.key, step.publicKey, step.now);
    if used :| EnrollsBy(db, step, used) {
      SessionFound(db, used, step.digest);
      SessionFound(db, s, step.digest);
      assert EnrolledIn(db, next, used, step.device, step.key, step.publicKey, step.now);
    }
  }

  lemma StepCloses(db: Db, step: Step, next: Db, s: Id)
    requires Transition(db, step, next) && FleetInvariants.SessionsSingle(db.fleet.sessions)
    requires !(Opens(db, step) && step.id == s)
    ensures UnusedSession(next, s) <==> UnusedSession(db, s) && !Closes(db, step, s, db.fleet.sessions[s].owner)
    ensures UnusedSession(next, s) ==> next.fleet.sessions[s] == db.fleet.sessions[s]
  {
    if step.OpenEnrollment? {
      OpenWritesExactly(db, step.id, step.owner, step.digest, step.now);
    } else if step.Enroll? {
      EnrollUses(db, step, next, s);
    } else if step.RevokeDevice? {
      RevokeWritesExactly(db, step.owner, step.device, step.now);
    } else {
      OthersKeepSessions(db, step);
    }
  }

  predicate OpenedAs(row: Enrollment, step: Step) {
    step.OpenEnrollment? && row == Enrollment(step.owner, step.digest, step.now, step.now + 600 * SECOND, None)
  }

  /** The unused sessions are those whose opening step stands, and are as that step opened them. */
  ghost predicate SessionStands(states: seq<Db>, steps: seq<Step>, j: nat, s: Id)
    requires j <= |steps| < |states|
  {
    var k := OpenedBy(states, steps, j, s);
    && (UnusedSession(states[j], s) <==> k.Some?)
    && (k.Some? ==> s in states[j].fleet.sessions && OpenedAs(states[j].fleet.sessions[s], steps[k.value]))
  }

  lemma SessionFolds(states: seq<Db>, steps: seq<Step>, j: nat, s: Id)
    requires j < |steps| < |states| && Transition(states[j], steps[j], states[j + 1])
    requires FleetInvariants.SessionsSingle(states[j].fleet.sessions) && SessionStands(states, steps, j, s)
    ensures SessionStands(states, steps, j + 1, s)
  {
    var db, step := states[j], steps[j];
    if Opens(db, step) && step.id == s {
      OpenWritesExactly(db, step.id, step.owner, step.digest, step.now);
    } else {
      StepCloses(db, step, states[j + 1], s);
    }
  }

  lemma SessionsAreSingle(states: seq<Db>, steps: seq<Step>, j: nat)
    requires ValidRun(states, steps) && Genesis(states[0]) && j <= |steps|
    ensures FleetInvariants.SessionsSingle(states[j].fleet.sessions)
  {
    GenesisInv(states[0]);
    RunInv(states, steps, j);
  }

  lemma AllSessionsStand(states: seq<Db>, steps: seq<Step>, j: nat, s: Id)
    requires ValidRun(states, steps) && Genesis(states[0]) && j <= |steps|
    ensures SessionStands(states, steps, j, s)
  {
    for k := 0 to j
      invariant SessionStands(states, steps, k, s)
    {
      SessionsAreSingle(states, steps, k);
      SessionFolds(states, steps, k, s);
    }
  }

  /** The secret comes in time, for an active owner without a device, and the identifiers are free. */
  ghost predicate SecretInTime(states: seq<Db>, steps: seq<Step>, j: nat, s: Id)
    requires j < |steps| < |states| && steps[j].Enroll?
  {
    var k, step := OpenedBy(states, steps, j, s), steps[j];
    && k.Some?
    && steps[k.value].digest == step.digest
    && steps[k.value].now <= step.now < steps[k.value].now + 600 * SECOND
    && ActiveAccount(states[j], steps[k.value].owner) && !Equipped(states[j], steps[k.value].owner)
    && !IdentifiersTaken(states[j], step.device, step.key)
  }

  /** A secret enrolls exactly when it is used within ten minutes of being issued, before another is issued to its
      owner, it is used or the owner's device is revoked, by an active owner who has no device. */
  lemma SecretWorksExactly(states: seq<Db>, steps: seq<Step>, j: nat)
    requires ValidRun(states, steps) && Genesis(states[0]) && j < |steps| && steps[j].Enroll?
    ensures var db, step := states[j], steps[j];
            var tx := Devices.ConsumeEnrollment(db, step.digest, step.device, step.key, step.publicKey, step.now);
            tx.Committed? && tx.answer == Devices.Enrolled <==> exists s: Id :: SecretInTime(states, steps, j, s)
  {
    var step := steps[j];
    SessionsAreSingle(states, steps, j);
    EnrollWritesExactly(states[j], step.digest, step.device, step.key, step.publicKey, step.now);
    forall s: Id
      ensures SecretInTime(states, steps, j, s) <==> EnrollsBy(states[j], step, s)
    {
      AllSessionsStand(states, steps, j, s);
    }
  }

  // Devices over a run.

  ghost predicate EnrollsDevice(db: Db, step: Step, d: Id) {
    step.Enroll? && step.device == d && exists s :: EnrollsBy(db, step, s)
  }

  /** What enrolling, setting up and revoking have made of the device, if it is enrolled. */
  ghost function StateOf(states: seq<Db>, steps: seq<Step>, j: nat, d: Id): Option<EnrollmentState>
    requires j <= |steps| < |states|
  {
    if j == 0 then None
    else
      var before := StateOf(states, steps, j - 1, d);
      if EnrollsDevice(states[j - 1], steps[j - 1], d) then Some(Setup)
      else if RevokesDevice(states[j - 1], steps[j - 1], d) then Some(Revoked)
      else if steps[j - 1] == Environment(DeviceSetUp(d)) && before == Some(Setup) then Some(Ready)
      else before
  }

  predicate InState(db: Db, d: Id, state: Option<EnrollmentState>) {
    if d in db.fleet.devices then state == Some(db.fleet.devices[d].state) else state.None?
  }

  lemma StepChangesState(db: Db, step: Step, next: Db, d: Id, before: Option<EnrollmentState>)
    requires Transition(db, step, next) && FleetInvariants.SessionsSingle(db.fleet.sessions) && InState(db, d, before)
    ensures InState(next, d, if EnrollsDevice(db, step, d) then Some(Setup)
                             else if RevokesDevice(db, step, d) then Some(Revoked)
                             else if step == Environment(DeviceSetUp(d)) && before == Some(Setup) then Some(Ready)
                             else before)
  {
    if step.Enroll? {
      EnrollWritesExactly(db, step.digest, step.device, step.key, step.publicKey, step.now);
      if used :| EnrollsBy(db, step, used) {
        assert EnrolledIn(db, next, used, step.device, step.key, step.publicKey, step.now);
      }
    } else if step.RevokeDevice? {
      RevokeWritesExactly(db, step.owner, step.device, step.now);
    } else if step.OpenEnrollment? {
      OpenWritesExactly(db, step.id, step.owner, step.digest, step.now);
    } else if !step.Environment? {
      FleetInvariants.FleetFrame(db, step);
    }
  }

  lemma StateFolds(states: seq<Db>, steps: seq<Step>, j: nat, d: Id)
    requires j < |steps| < |states| && Transition(states[j], steps[j], states[j + 1])
    requires FleetInvariants.SessionsSingle(states[j].fleet.sessions)
    requires InState(states[j], d, StateOf(states, steps, j, d))
    ensures InState(states[j + 1], d, StateOf(states, steps, j + 1, d))
  {
    StepChangesState(states[j], steps[j], states[j + 1], d, StateOf(states, steps, j, d));
  }

  /** Throughout any run a device is in setup from its enrollment on, ready once it is set up, and revoked for good
      once its owner revokes it. */
  lemma DeviceStateExactly(states: seq<Db>, steps: seq<Step>, j: nat, d: Id)
    requires ValidRun(states, steps) && Genesis(states[0]) && j <= |steps|
    ensures InState(states[j], d, StateOf(states, steps, j, d))
  {
    for k := 0 to j
      invariant InState(states[k], d, StateOf(states, steps, k, d))
    {
      SessionsAreSingle(states, steps, k);
      StateFolds(states, steps, k, d);
    }
  }

  lemma RevokedNow(db: Db, step: Step, next: Db, d: Id)
    requires Transition(db, step, next) && RevokesDevice(db, step, d)
    ensures d in next.fleet.devices && next.fleet.devices[d].state == Revoked
  {
    RevokeWritesExactly(db, step.owner, d, step.now);
  }

  /** From the owner's revocation on, a device has no key and nothing on its way, and none of its polls is accepted. */
  lemma RevocationSilences(states: seq<Db>, steps: seq<Step>, i: nat, j: nat, d: Id, ctx: Transport.Context, now: Time)
    requires ValidRun(states, steps) && Inv(states[0]) && i < j <= |steps| && ctx.device == d
    requires RevokesDevice(states[i], steps[i], d)
    ensures forall k :: k in states[j].fleet.keys && states[j].fleet.keys[k].device == d ==>
                          states[j].fleet.keys[k].revokedAt.Some?
    ensures OnTheirWayOn(states[j].ledger, d) == {}
    ensures Transport.Poll(states[j], ctx, now).answer.PollRejected?
  {
    RevokedNow(states[i], steps[i], states[i + 1], d);
    DeviceTheorems.RevokedIsSilent(states, steps, i + 1, j, d, ctx, now);
    assert forall k :: k in states[j].fleet.keys && states[j].fleet.keys[k].device == d ==>
        !FleetInvariants.LiveKeyOf(states[j].fleet.keys, k, d);
  }
}
