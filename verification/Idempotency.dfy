/** A repeated request is answered with its first answer, whatever has changed since. */
module Idempotency {
  import opened Schema
  import opened Protocol
  import opened Reachability
  import opened Verdicts
  import Issuance
  import LedgerTheorems

  /** The issue commits that answer. */
  ghost predicate Answered(db: Db, step: Step, answer: Issuance.Answer) {
    && step.Issue?
    && var tx := Issuance.Issue(db, step.input, step.request, step.command, step.clock);
    && tx.Committed? && tx.answer == answer
  }

  predicate SameKeyOf(a: Step, b: Step) {
    a.Issue? && b.Issue? && a.input.actor == b.input.actor && a.input.key == b.input.key
  }

  predicate SameRequest(a: Issuance.Input, b: Issuance.Input) {
    a.recipient == b.recipient && a.action == b.action && a.replyTo == b.replyTo
  }

  /** The stored answer and the request it was given to. */
  predicate Keeps(l: Ledger, r: Id, input: Issuance.Input, answer: Issuance.Answer) {
    && r in l.requests
    && l.requests[r] == Request(input.actor, input.recipient, input.key,
                                Fingerprint(input.actor, input.recipient, input.action, input.replyTo),
                                input.action, input.replyTo, l.requests[r].outcome, l.requests[r].createdAt)
    && answer == (match l.requests[r].outcome
                  case WasQueued(c) => Issuance.QueuedAs(r, c)
                  case WasRejected(reason) => Issuance.RejectedAs(r, reason))
  }

  lemma RepeatKeeps(db: Db, step: Step, answer: Issuance.Answer, q: Id)
    requires Inv(db) && Answered(db, step, answer) && answer != Issuance.IdempotencyConflict
    requires Issuance.IsRequestOf(db.ledger, q, step.input.actor, step.input.key)
    ensures Keeps(Next(db, step).ledger, q, step.input, answer)
  {
    LedgerTheorems.FoundIsBound(db.ledger, q);
  }

  lemma AnswerIsKept(db: Db, step: Step, next: Db, answer: Issuance.Answer) returns (r: Id)
    requires Inv(db) && Transition(db, step, next)
    requires Answered(db, step, answer) && answer != Issuance.IdempotencyConflict
    ensures Keeps(next.ledger, r, step.input, answer)
  {
    if NewKey(db.ledger, step.input) {
      VerdictIsRecorded(db, step.input, step.request, step.command, step.clock);
      r := step.request;
    } else {
      r :| r in db.ledger.requests && Issuance.IsRequestOf(db.ledger, r, step.input.actor, step.input.key);
      RepeatKeeps(db, step, answer, r);
    }
  }

  lemma KeptAt(states: seq<Db>, steps: seq<Step>, i: nat, answer: Issuance.Answer) returns (r: Id)
    requires ValidRun(states, steps) && Inv(states[0]) && i < |steps|
    requires Answered(states[i], steps[i], answer) && answer != Issuance.IdempotencyConflict
    ensures Keeps(states[i + 1].ledger, r, steps[i].input, answer)
  {
    RunInv(states, steps, i);
    r := AnswerIsKept(states[i], steps[i], states[i + 1], answer);
  }

  lemma KeptFrom(states: seq<Db>, steps: seq<Step>, i: nat, j: nat, r: Id, input: Issuance.Input,
                 answer: Issuance.Answer)
    requires ValidRun(states, steps) && Inv(states[0]) && i <= j < |steps|
    requires Keeps(states[i].ledger, r, input, answer)
    requires steps[j].Issue? && steps[j].input.actor == input.actor && steps[j].input.key == input.key
    ensures Answered(states[j], steps[j],
                     if SameRequest(input, steps[j].input) then answer else Issuance.IdempotencyConflict)
    ensures states[j + 1].ledger == states[j].ledger
  {
    var step := steps[j];
    assert Transition(states[j], step, states[j + 1]);
    LedgerTheorems.KeyBoundForever(states, steps, i, j, r, step.input, step.request, step.command, step.clock);
  }

  /** After its first answer a key is answered alike at every later point of the run: with that answer if the request
      is the same, and as a conflict otherwise. */
  lemma SameAnswerForever(states: seq<Db>, steps: seq<Step>, i: nat, j: nat, answer: Issuance.Answer)
    requires ValidRun(states, steps) && Inv(states[0]) && i < j < |steps| && SameKeyOf(steps[i], steps[j])
    requires Answered(states[i], steps[i], answer) && answer != Issuance.IdempotencyConflict
    ensures Answered(states[j], steps[j], if SameRequest(steps[i].input, steps[j].input) then answer
                                          else Issuance.IdempotencyConflict)
    ensures states[j + 1].ledger == states[j].ledger
  {
    var r := KeptAt(states, steps, i, answer);
    KeptFrom(states, steps, i + 1, j, r, steps[i].input, answer);
  }
}
