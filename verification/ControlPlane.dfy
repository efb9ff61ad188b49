/** The stores run the protocol: every call on them is one of its steps, so what holds of all runs holds of them. */
module ControlPlane {
  import opened Schema
  import opened Database
  import opened Protocol
  import opened Reachability
  import opened Replies
  import ConsentStore
  import DeviceStore
  import FleetInvariants
  import IssuanceStore
  import LedgerInvariants
  import LedgerOps
  import RelationshipStore
  import Retention
  import TransportStore

  /** The same call; only the rows its cleanup deleted are settled by the store. */
  predicate SameCall(call: Step, step: Step) {
    Retention.Keeping(call) == Retention.Keeping(step)
  }

  ghost predicate Sound(db: Db) {
    Inv(db) && Retention.UniqueDigests(db.perms.invitations)
  }

  method RunIssue(database: Database, step: Step) returns (reply: Reply)
    requires step.Issue? && LedgerInvariants.IssuedOnce(database.ledger)
    requires FleetInvariants.OneLiveDevice(database.fleet.devices)
    modifies database
    ensures database.Snapshot() == Next(old(database.Snapshot()), step)
    ensures reply == ReplyTo(old(database.Snapshot()), step)
  {
    var useCase := new IssuanceStore.IssueEject(database);
    var answer := useCase.Issue(step.input, step.request, step.command, step.clock);
    reply := if answer.Some? then Issued(answer.value) else Threw;
  }

  method RunTransport(database: Database, step: Step) returns (reply: Reply)
    requires step.Poll? || step.Report?
    modifies database
    ensures database.Snapshot() == Next(old(database.Snapshot()), step)
    ensures reply == ReplyTo(old(database.Snapshot()), step)
  {
    var store := new TransportStore.AgentTransportStore(database);
    if step.Poll? {
      var answer := store.Poll(step.ctx, step.now);
      reply := Polled(answer);
    } else {
      var answer := store.IngestAgentResult(step.ctx, step.observation, step.now);
      reply := Ingested(answer);
    }
  }

  method RunConsent(database: Database, step: Step) returns (reply: Reply)
    requires step.SetPaused? || step.SetGrant?
    requires LedgerOps.Linked(database.ledger)
    modifies database
    ensures database.Snapshot() == Next(old(database.Snapshot()), step)
    ensures reply == ReplyTo(old(database.Snapshot()), step)
  {
    var store := new ConsentStore.RecipientConsentStore(database);
    if step.SetPaused? {
      var done := store.SetPaused(step.recipient, step.paused, step.now, step.clock);
      reply := if done then Nothing else Threw;
    } else {
      var answer := store.SetGrant(step.recipient, step.actor, step.granted, step.now, step.clock);
      reply := if answer.Some? then Granted(answer.value) else Threw;
    }
  }

  method RunDevices(database: Database, step: Step) returns (reply: Reply)
    requires step.OpenEnrollment? || step.Enroll? || step.RevokeDevice?
    requires LedgerOps.Linked(database.ledger) && FleetInvariants.SessionsSingle(database.fleet.sessions)
    modifies database
    ensures database.Snapshot() == Next(old(database.Snapshot()), step)
    ensures reply == ReplyTo(old(database.Snapshot()), step)
  {
    var store := new DeviceStore.DeviceEnrollmentStore(database);
    if step.OpenEnrollment? {
      var answer := store.CreateEnrollment(step.id, step.owner, step.digest, step.now);
      reply := if answer.Some? then Opened(answer.value) else Threw;
    } else if step.Enroll? {
      var answer := store.ConsumeEnrollment(step.digest, step.device, step.key, step.publicKey, step.now);
      reply := if answer.Some? then Consumed(answer.value) else Threw;
    } else {
      var done := store.RevokeDevice(step.owner, step.device, step.now);
      reply := if done then Nothing else Threw;
    }
  }

  method RunDisconnect(database: Database, step: Step) returns (reply: Reply)
    requires step.Disconnect? && LedgerOps.Linked(database.ledger)
    modifies database
    ensures database.Snapshot() == Next(old(database.Snapshot()), step)
    ensures reply == ReplyTo(old(database.Snapshot()), step)
  {
    var store := new RelationshipStore.RelationshipStore(database);
    var answer := store.DisconnectRelationship(step.person, step.other, step.now);
    reply := if answer.Some? then Parted(answer.value) else Threw;
  }

  method RunCleanup(database: Database, call: Step, held: set<Id>) returns (step: Step, reply: Reply)
    requires call.Cleanup?
    modifies database
    ensures SameCall(call, step) && Transition(old(database.Snapshot()), step, database.Snapshot())
    ensures reply == ReplyTo(old(database.Snapshot()), step)
  {
    var store := new RelationshipStore.RelationshipStore(database);
    var count, deleted := store.CleanupInvitations(call.before, call.limit, held);
    step := Cleanup(call.before, call.limit, deleted);
    reply := if count.Some? then Nothing else Threw;
    assert database.perms.invitations == old(database.perms.invitations) - deleted;
  }

  method RunInvitations(database: Database, call: Step, held: set<Id>) returns (step: Step, reply: Reply)
    requires call.Invite? || call.Accept?
    requires Retention.UniqueDigests(database.perms.invitations)
    modifies database
    ensures SameCall(call, step) && Transition(old(database.Snapshot()), step, database.Snapshot())
    ensures reply == ReplyTo(old(database.Snapshot()), step)
  {
    var store := new RelationshipStore.RelationshipStore(database);
    if call.Invite? {
      var answer, deleted := store.CreateInvitation(call.id, call.inviter, call.digest, call.now, held);
      step := Invite(call.id, call.inviter, call.digest, call.now, deleted);
      reply := if answer.Some? then InviteAnswered(answer.value) else Threw;
    } else {
      var answer, deleted := store.AcceptInvitation(call.accepter, call.digest, call.now, held);
      step := Accept(call.accepter, call.digest, call.now, deleted);
      reply := if answer.Some? then Accepted(answer.value) else Threw;
    }
  }

  lemma SoundGives(db: Db)
    requires Sound(db)
    ensures LedgerInvariants.IssuedOnce(db.ledger) && LedgerOps.Linked(db.ledger)
    ensures FleetInvariants.OneLiveDevice(db.fleet.devices) && FleetInvariants.SessionsSingle(db.fleet.sessions)
  {}

  method Dispatch(database: Database, call: Step, held: set<Id>) returns (step: Step, reply: Reply)
    requires LedgerInvariants.IssuedOnce(database.ledger) && LedgerOps.Linked(database.ledger)
    requires FleetInvariants.OneLiveDevice(database.fleet.devices)
    requires FleetInvariants.SessionsSingle(database.fleet.sessions)
    requires Retention.UniqueDigests(database.perms.invitations)
    modifies database
    ensures SameCall(call, step) && Transition(old(database.Snapshot()), step, database.Snapshot())
    ensures reply == ReplyTo(old(database.Snapshot()), step)
  {
    step := call;
    match call
    case Issue(_, _, _, _) => reply := RunIssue(database, call);
    case Poll(_, _) => reply := RunTransport(database, call);
    case Report(_, _, _) => reply := RunTransport(database, call);
    case SetPaused(_, _, _, _) => reply := RunConsent(database, call);
    case SetGrant(_, _, _, _, _) => reply := RunConsent(database, call);
    case Disconnect(_, _, _) => reply := RunDisconnect(database, call);
    case OpenEnrollment(_, _, _, _) => reply := RunDevices(database, call);
    case Enroll(_, _, _, _, _) => reply := RunDevices(database, call);
    case RevokeDevice(_, _, _) => reply := RunDevices(database, call);
    case Environment(change) =>
      database.Become(Changed(database.Snapshot(), change));
      reply := Nothing;
    case Cleanup(_, _, _) => step, reply := RunCleanup(database, call, held);
    case _ => step, reply := RunInvitations(database, call, held);
  }

  lemma StaysSound(db: Db, step: Step, next: Db)
    requires Sound(db) && Transition(db, step, next)
    ensures Sound(next)
  {
    StepKeepsInv(db, step);
    Retention.StepKeepsUnique(db, step);
  }

  /** One transaction: any call in any reachable database, whatever rows other transactions hold, takes a step of the
      protocol and answers as that step does. */
  method Execute(database: Database, call: Step, held: set<Id>) returns (step: Step, reply: Reply)
    requires Sound(database.Snapshot())
    modifies database
    ensures SameCall(call, step) && Transition(old(database.Snapshot()), step, database.Snapshot())
    ensures reply == ReplyTo(old(database.Snapshot()), step)
    ensures Sound(database.Snapshot())
  {
    ghost var start := database.Snapshot();
    SoundGives(start);
    step, reply := Dispatch(database, call, held);
    StaysSound(start, step, database.Snapshot());
  }
}
