/** A small deployment that the concrete runs start from. */
module Scenario {
  import opened Schema
  import opened Wrappers
  import opened Protocol
  import opened Reachability
  import FleetInvariants

  /** Person 2 may eject person 1 on device 7, whose agent signs with key 3; nothing has been issued yet. */
  function IdleDb(cooldownSeconds: nat): Db {
    var person := Person(true, ParticipationReady, Available);
    Db(Directory(map[1 := person, 2 := person], SystemPolicy(true, Some(5)), map[1 := Entitlement(5, None)]),
       Permissions(map[1 := Policy(AllAuthenticated, AuthenticatedAccounts, false, 5, cooldownSeconds)],
                   {}, map[], {}, map[]),
       Fleet(map[7 := Device(1, Ready, Available, true)], map[3 := DeviceKey(7, 0, 0, None)], map[], map[]),
       Counters(map[], map[]), Ledger(map[], map[], map[], map[]))
  }

  lemma IdleFleet(cooldownSeconds: nat)
    ensures FleetInvariants.FleetInv(IdleDb(cooldownSeconds))
  {}

  lemma IdleInv(cooldownSeconds: nat)
    ensures Inv(IdleDb(cooldownSeconds))
  {
    IdleFleet(cooldownSeconds);
    GenesisInv(IdleDb(cooldownSeconds).(fleet := Fleet(map[], map[], map[], map[])));
  }

  function Below(n: nat): (ids: set<Id>)
    ensures |ids| == n && forall j: nat :: j in ids <==> j < n
  {
    if n == 0 then {} else Below(n - 1) + {n - 1}
  }

  lemma AppendStep(states: seq<Db>, steps: seq<Step>, step: Step, next: Db)
    requires ValidRun(states, steps) && Transition(states[|steps|], step, next)
    ensures ValidRun(states + [next], steps + [step])
  {}
}
