/** Where commands come from: every one was admitted by a step that passed every check, and every chain of
    replies goes back to a standard command that its recipient's audience allowed. */
module ReplyChains {
  import opened Schema
  import opened Protocol
  import opened Admission
  import opened Reachability
  import opened LedgerInvariants
  import ConsentSafety
  import Domain
  import LedgerTheorems

  ghost predicate AdmittedAt(states: seq<Db>, steps: seq<Step>, k: nat, c: Id) {
    k < |steps| && k < |states| && StepAdmits(states[k], steps[k]) && steps[k].command == c
  }

  lemma NotAdmittedHere(db: Db, step: Step, c: Id)
    requires c in Next(db, step).ledger.commands && c !in db.ledger.commands
    ensures StepAdmits(db, step) && step.command == c
  {
    if StepAdmits(db, step) {
      AdmitEffect(db, step.input, step.request, step.command, step.clock);
    } else {
      StepProgress(db, step);
    }
  }

  /** A command that exists was admitted by some earlier step. */
  lemma {:induction false} Provenance(states: seq<Db>, steps: seq<Step>, i: nat, c: Id)
    requires ValidRun(states, steps) && i <= |steps|
    requires c in states[i].ledger.commands && c !in states[0].ledger.commands
    ensures exists k: nat :: k < i && AdmittedAt(states, steps, k, c)
  {
    if i > 0 {
      if c in states[i - 1].ledger.commands {
        Provenance(states, steps, i - 1, c);
      } else {
        NotAdmittedHere(states[i - 1], steps[i - 1], c);
        assert AdmittedAt(states, steps, i - 1, c);
      }
    }
  }

  /** The recipient, actor and reply source of the admitted command, and the audience check a standard one passed. */
  lemma AdmissionChecked(db: Db, step: Step)
    requires StepAdmits(db, step)
    ensures var c, next := step.command, Next(db, step).ledger.commands;
            && c in next && next[c].recipient == step.input.recipient && next[c].actor == step.input.actor
            && next[c].replyTo == step.input.replyTo
            && step.input.recipient in db.perms.policies && !db.perms.policies[step.input.recipient].paused
            && (step.input.replyTo.None? ==> ConsentSafety.InAudience(db.perms, step.input.recipient, step.input.actor))
  {
    AdmitEffect(db, step.input, step.request, step.command, step.clock);
    var facts := LoadedFor(db, step.input, step.clock).value.facts;
    assert Domain.HasAccess(facts) && !facts.recipientPaused;
  }

  ghost function Root(commands: map<Id, Command>, c: Id, fuel: nat): Id
    requires ChainEnds(commands, c, fuel)
    decreases fuel
  {
    if commands[c].replyTo.None? then c else Root(commands, commands[c].replyTo.value, fuel - 1)
  }

  lemma {:induction false} RootIsStandard(commands: map<Id, Command>, c: Id, fuel: nat)
    requires ChainEnds(commands, c, fuel)
    ensures Root(commands, c, fuel) in commands && commands[Root(commands, c, fuel)].replyTo.None?
    decreases fuel
  {
    if commands[c].replyTo.Some? {
      RootIsStandard(commands, commands[c].replyTo.value, fuel - 1);
    }
  }

  /** Both ends of a chain are the same two people, possibly the other way round. */
  lemma {:induction false} RootHasSamePeople(commands: map<Id, Command>, c: Id, fuel: nat)
    requires ChainEnds(commands, c, fuel) && RepliesSwap(commands)
    ensures var root := Root(commands, c, fuel);
            && root in commands
            && {commands[root].actor, commands[root].recipient} == {commands[c].actor, commands[c].recipient}
    decreases fuel
  {
    if commands[c].replyTo.Some? {
      assert Answers(commands, c, commands[c].replyTo.value);
      RootHasSamePeople(commands, commands[c].replyTo.value, fuel - 1);
    }
  }

  ghost predicate Audience(states: seq<Db>, steps: seq<Step>, k: nat, recipient: Id, actor: Id) {
    && k < |steps| && k < |states| && recipient in states[k].perms.policies
    && ConsentSafety.InAudience(states[k].perms, recipient, actor)
  }

  /** Replies never widen who can reach whom: the chain behind any command starts at a standard command between
      the same two people whose recipient's audience admitted its actor when it was issued. */
  lemma ChainStartsConsented(states: seq<Db>, steps: seq<Step>, i: nat, c: Id)
    requires ValidRun(states, steps) && Genesis(states[0]) && i <= |steps|
    requires c in states[i].ledger.commands
    ensures var commands := states[i].ledger.commands;
            && ChainEnds(commands, c, |commands|)
            && var root := Root(commands, c, |commands|);
            && root in commands && commands[root].replyTo.None?
            && {commands[root].actor, commands[root].recipient} == {commands[c].actor, commands[c].recipient}
            && exists k: nat :: k < i && AdmittedAt(states, steps, k, root)
                           && Audience(states, steps, k, commands[root].recipient, commands[root].actor)
  {
    GenesisInv(states[0]);
    RunInv(states, steps, i);
    var commands := states[i].ledger.commands;
    var root := Root(commands, c, |commands|);
    RootIsStandard(commands, c, |commands|);
    RootHasSamePeople(commands, c, |commands|);
    RootConsented(states, steps, i, root);
  }

  /** An admitted command stays what its issue asked for. */
  lemma AdmittedStays(states: seq<Db>, steps: seq<Step>, k: nat, i: nat, c: Id)
    requires ValidRun(states, steps) && Inv(states[0]) && k < i <= |steps| && AdmittedAt(states, steps, k, c)
    ensures c in states[i].ledger.commands
    ensures var command, input := states[i].ledger.commands[c], steps[k].input;
            command.recipient == input.recipient && command.actor == input.actor && command.replyTo == input.replyTo
  {
    assert Transition(states[k], steps[k], states[k + 1]);
    AdmissionChecked(states[k], steps[k]);
    LedgerTheorems.RunExtends(states, steps, k + 1, i);
  }

  lemma RootConsented(states: seq<Db>, steps: seq<Step>, i: nat, root: Id)
    requires ValidRun(states, steps) && Genesis(states[0]) && i <= |steps|
    requires root in states[i].ledger.commands && states[i].ledger.commands[root].replyTo.None?
    ensures var commands := states[i].ledger.commands;
            exists k: nat :: k < i && AdmittedAt(states, steps, k, root)
                             && Audience(states, steps, k, commands[root].recipient, commands[root].actor)
  {
    GenesisInv(states[0]);
    Provenance(states, steps, i, root);
    var k: nat :| k < i && AdmittedAt(states, steps, k, root);
    AdmittedStays(states, steps, k, i, root);
    AdmissionChecked(states[k], steps[k]);
    assert Audience(states, steps, k, states[i].ledger.commands[root].recipient, states[i].ledger.commands[root].actor);
  }

  /** In any run a command is answered at most once, by its recipient and to its actor. */
  lemma RepliedAtMostOnce(states: seq<Db>, steps: seq<Step>, i: nat, source: Id, c: Id, d: Id)
    requires ValidRun(states, steps) && Genesis(states[0]) && i <= |steps|
    requires Answers(states[i].ledger.commands, c, source) && Answers(states[i].ledger.commands, d, source)
    ensures var commands := states[i].ledger.commands;
            && c == d && source in commands
            && commands[c].actor == commands[source].recipient && commands[c].recipient == commands[source].actor
  {
    GenesisInv(states[0]);
    RunInv(states, steps, i);
  }
}
