/** What it takes for a step to put a new command in the queue, and what every other step does to commands. */
module Admission {
  import opened Schema
  import opened Wrappers
  import opened Protocol
  import opened LedgerMoves
  import Domain
  import Issuance
  import LedgerOps

  /** The issue commits a command that was not there before. */
  ghost predicate Admits(db: Db, input: Issuance.Input, r: Id, c: Id, clock: Time) {
    && Issuance.FindRequest(db.ledger, input.actor, input.key).None?
    && var tx := Issuance.Issue(db, input, r, c, clock);
    && tx.Committed? && tx.answer.QueuedAs?
  }

  ghost function LoadedFor(db: Db, input: Issuance.Input, clock: Time): Option<Issuance.Loaded> {
    Issuance.LoadFacts(Issuance.Prepared(db, input, clock), input)
  }

  /** Admission requires every check to pass, and writes exactly the request, the command, its events and two
      counters. */
  lemma AdmitEffect(db: Db, input: Issuance.Input, r: Id, c: Id, clock: Time)
    requires Admits(db, input, r, c, clock)
    ensures LoadedFor(db, input, clock).Some?
    ensures var loaded := LoadedFor(db, input, clock).value;
            && Domain.AuthorizeEject(loaded.facts, input.now).Allow?
            && loaded.device.Some? && loaded.device == Issuance.LiveDevice(db.fleet.devices, input.recipient)
            && Issuance.ActionMatchesReply(input)
            && r !in db.ledger.requests && c !in db.ledger.commands
            && var prepared := Issuance.Prepared(db, input, clock);
            && input.recipient in prepared.counters.recipients && input.actor in prepared.counters.senders
            && Next(db, Issue(input, r, c, clock)) ==
               Db(db.dir, db.perms, db.fleet,
                  Issuance.Counted(prepared.counters, input, loaded.cooldownSeconds),
                  LedgerOps.RecordQueued(db.ledger, r, Issuance.RequestRow(input, WasQueued(c)),
                                         c, Issuance.CommandRow(input, r, loaded.device.value), input.now))
  {
    var prepared := Issuance.Prepared(db, input, clock);
    assert prepared.fleet == db.fleet && prepared.ledger == db.ledger && prepared.perms == db.perms
        && prepared.dir == db.dir;
    var loaded := LoadedFor(db, input, clock).value;
    assert Domain.AuthorizeEject(loaded.facts, input.now).Allow?;
  }

  /** An unanswered request that passes every check and breaks no constraint is admitted. */
  lemma AllowedAdmits(db: Db, input: Issuance.Input, r: Id, c: Id, clock: Time)
    requires Issuance.FindRequest(db.ledger, input.actor, input.key).None? && Issuance.ActionMatchesReply(input)
    requires r !in db.ledger.requests && c !in db.ledger.commands
    requires LoadedFor(db, input, clock).Some? && LoadedFor(db, input, clock).value.device.Some?
    requires Domain.AuthorizeEject(LoadedFor(db, input, clock).value.facts, input.now).Allow?
    ensures Admits(db, input, r, c, clock)
  {
    assert Issuance.Prepared(db, input, clock).ledger == db.ledger;
  }

  /** An issue that admits nothing leaves commands, permissions and devices alone. */
  lemma NoAdmitEffect(db: Db, input: Issuance.Input, r: Id, c: Id, clock: Time)
    requires !Admits(db, input, r, c, clock)
    ensures var next := Next(db, Issue(input, r, c, clock));
            next.ledger.commands == db.ledger.commands && next.dir == db.dir && next.perms == db.perms
                && next.fleet == db.fleet
  {
    var prepared := Issuance.Prepared(db, input, clock);
    assert prepared.fleet == db.fleet && prepared.ledger == db.ledger && prepared.perms == db.perms
        && prepared.dir == db.dir;
  }

  ghost predicate StepAdmits(db: Db, step: Step) {
    step.Issue? && Admits(db, step.input, step.request, step.command, step.clock)
  }

  predicate SameCommand(a: Command, b: Command) {
    b == a.(status := b.status, cancellation := b.cancellation)
  }

  /** No new commands; existing ones keep everything but status, and never become outstanding again. */
  ghost predicate OnlyProgress(a: map<Id, Command>, b: map<Id, Command>) {
    && a.Keys == b.Keys
    && forall c :: c in a ==> SameCommand(a[c], b[c]) && (Outstanding(b[c]) ==> Outstanding(a[c]))
  }

  lemma MoveProgress(l: Ledger, m: Move)
    requires Legal(l, m) && !m.Admit?
    ensures OnlyProgress(l.commands, Moved(l, m).commands)
  {}

  lemma StepProgress(db: Db, step: Step)
    requires !StepAdmits(db, step)
    ensures OnlyProgress(db.ledger.commands, Next(db, step).ledger.commands)
  {
    StepMoves(db, step);
    MoveProgress(db.ledger, MoveOf(db, step));
  }
}
