/** Revocation is final, and an enrollment secret enrolls at most one device. */
module DeviceTheorems {
  import opened Schema
  import opened Wrappers
  import opened Protocol
  import opened FleetInvariants
  import opened Reachability
  import Devices
  import Issuance
  import Transport

  lemma {:induction false} RevokedForever(states: seq<Db>, steps: seq<Step>, i: nat, j: nat, d: Id)
    requires ValidRun(states, steps) && i <= j <= |steps|
    requires d in states[i].fleet.devices && states[i].fleet.devices[d].state == Revoked
    ensures d in states[j].fleet.devices && states[j].fleet.devices[d].state == Revoked
    decreases j
  {
    if i < j {
      RevokedForever(states, steps, i, j - 1, d);
      assert Transition(states[j - 1], steps[j - 1], states[j]);
      StepDevicesEvolve(states[j - 1], steps[j - 1]);
    }
  }

  /** Once a device is revoked it never speaks again: no key, nothing outstanding, no poll or report accepted. */
  lemma RevokedIsSilent(states: seq<Db>, steps: seq<Step>, i: nat, j: nat, d: Id, ctx: Transport.Context, now: Time)
    requires ValidRun(states, steps) && Inv(states[0]) && i <= j <= |steps|
    requires d in states[i].fleet.devices && states[i].fleet.devices[d].state == Revoked && ctx.device == d
    ensures forall k :: !LiveKeyOf(states[j].fleet.keys, k, d)
    ensures forall c :: c in states[j].ledger.commands && states[j].ledger.commands[c].device == d ==>
                          !Outstanding(states[j].ledger.commands[c])
    ensures Transport.NonceGate(states[j], ctx, now) != Transport.Fresh
    ensures Transport.LoadActivePublicKey(states[j], d, ctx.key) == None
    ensures Transport.Poll(states[j], ctx, now).answer.PollRejected?
  {
    RevokedForever(states, steps, i, j, d);
    RunInv(states, steps, j);
  }

  /** The device an issue targets is determined: a recipient has at most one that is not revoked. */
  lemma TargetIsDetermined(db: Db, owner: Id, d: Id)
    requires Inv(db) && Issuance.IsLiveDevice(db.fleet.devices, d, owner)
    ensures Issuance.LiveDevice(db.fleet.devices, owner) == Some(d)
  {}

  // Enrollment.

  ghost predicate SessionsEvolve(a: map<Id, Enrollment>, b: map<Id, Enrollment>) {
    forall s :: s in a ==> s in b && b[s].digest == a[s].digest && (a[s].usedAt.Some? ==> b[s].usedAt.Some?)
  }

  lemma StepSessionsEvolve(db: Db, step: Step)
    ensures SessionsEvolve(db.fleet.sessions, Next(db, step).fleet.sessions)
  {
    if !FleetStep(step) {
      FleetFrame(db, step);
    }
  }

  ghost predicate Spent(sessions: map<Id, Enrollment>, s: Id, digest: Digest) {
    Devices.IsSession(sessions, s, digest) && sessions[s].usedAt.Some?
  }

  lemma {:induction false} SpentForever(states: seq<Db>, steps: seq<Step>, i: nat, j: nat, s: Id, digest: Digest)
    requires ValidRun(states, steps) && i <= j <= |steps| && Spent(states[i].fleet.sessions, s, digest)
    ensures Spent(states[j].fleet.sessions, s, digest)
    decreases j
  {
    if i < j {
      SpentForever(states, steps, i, j - 1, s, digest);
      assert Transition(states[j - 1], steps[j - 1], states[j]);
      StepSessionsEvolve(states[j - 1], steps[j - 1]);
    }
  }

  lemma EnrollingSpends(db: Db, step: Step)
    requires Enrolls(db, step)
    ensures exists s :: Spent(Next(db, step).fleet.sessions, s, step.digest)
  {
    var s := Devices.FindSession(db.fleet.sessions, step.digest).value;
    assert Spent(Next(db, step).fleet.sessions, s, step.digest);
  }

  lemma SpentCannotEnroll(db: Db, step: Step, s: Id)
    requires SessionsSingle(db.fleet.sessions) && step.Enroll? && Spent(db.fleet.sessions, s, step.digest)
    ensures !Enrolls(db, step)
  {
    assert Devices.FindSession(db.fleet.sessions, step.digest) == Some(s);
  }

  /** An enrollment secret enrolls at most once in any run. */
  lemma EnrollsAtMostOnce(states: seq<Db>, steps: seq<Step>, i: nat, j: nat)
    requires ValidRun(states, steps) && Inv(states[0]) && i <= j < |steps|
    requires Enrolls(states[i], steps[i]) && Enrolls(states[j], steps[j]) && steps[i].digest == steps[j].digest
    ensures i == j
  {
    if i < j {
      assert Transition(states[i], steps[i], states[i + 1]);
      EnrollingSpends(states[i], steps[i]);
      var s :| Spent(states[i + 1].fleet.sessions, s, steps[i].digest);
      SpentForever(states, steps, i + 1, j, s, steps[i].digest);
      RunInv(states, steps, j);
      SpentCannotEnroll(states[j], steps[j], s);
      assert false;
    }
  }
}
