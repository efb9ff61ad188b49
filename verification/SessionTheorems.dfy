/** What holds of session recovery under every interleaving. */
module SessionTheorems {
  import opened SessionModel
  import opened Wrappers

  // Single flight and rotations.

  predicate Finished(s: State, r: nat) {
    r < |s.refreshes| && s.refreshes[r].phase.Cleared?
  }

  /** Only the last refresh can be unfinished, and then it is the one in flight. */
  ghost predicate SingleFlight(s: State) {
    && (forall r: nat :: r < |s.refreshes| - 1 ==> Finished(s, r))
    && s.refreshInFlight == if |s.refreshes| == 0 || Finished(s, |s.refreshes| - 1) then None
        else Some(|s.refreshes| - 1)
  }

  /** A refresh is at the current generation while it waits, and behind it once it succeeded. */
  predicate Placed(s: State, r: nat)
    requires r < |s.refreshes|
  {
    && s.refreshes[r].session <= s.sessionGeneration
    && (if s.refreshes[r].Succeeded() then s.refreshes[r].generation < s.refreshGeneration
        else s.refreshes[r].generation <= s.refreshGeneration)
    && (s.refreshes[r].phase == Sent ==> s.refreshes[r].generation == s.refreshGeneration)
  }

  /** Nothing is ever sent again for a generation that has been rotated. */
  predicate After(s: State, q: nat, r: nat)
    requires q < |s.refreshes| && r < |s.refreshes|
  {
    if s.refreshes[q].Succeeded() then s.refreshes[q].generation < s.refreshes[r].generation
    else s.refreshes[q].generation <= s.refreshes[r].generation
  }

  ghost predicate Rotations(s: State) {
    && (forall r: nat :: r < |s.refreshes| ==> Placed(s, r))
    && (forall q: nat, r: nat :: q < r < |s.refreshes| ==> After(s, q, r))
  }

  ghost predicate FlightInv(s: State) {
    SingleFlight(s) && Rotations(s)
  }

  ghost predicate SameFlight(s: State, next: State) {
    && next.refreshes == s.refreshes && next.refreshInFlight == s.refreshInFlight
    && next.refreshGeneration == s.refreshGeneration && next.sessionGeneration >= s.sessionGeneration
  }

  lemma SameFlightKeeps(s: State, next: State)
    requires FlightInv(s) && SameFlight(s, next)
    ensures FlightInv(next)
  {
    forall r: nat | r < |s.refreshes| - 1 ensures Finished(next, r) { assert Finished(s, r); }
    forall r: nat | r < |s.refreshes| ensures Placed(next, r) { assert Placed(s, r); }
    forall q: nat, r: nat | q < r < |s.refreshes| ensures After(next, q, r) { assert After(s, q, r); }
  }

  lemma SendKeepsFlight(s: State, session: nat, generation: nat)
    requires FlightInv(s)
    ensures FlightInv(RefreshFor(s, session, generation).0)
  {
    var next := RefreshFor(s, session, generation).0;
    if |next.refreshes| > |s.refreshes| {
      forall r: nat | r < |next.refreshes| - 1
        ensures Finished(next, r)
      {
        assert r < |s.refreshes| - 1 ==> Finished(s, r);
      }
      forall r: nat | r < |next.refreshes| ensures Placed(next, r) { assert r < |s.refreshes| ==> Placed(s, r); }
      forall q: nat, r: nat | q < r < |next.refreshes|
        ensures After(next, q, r)
      {
        assert Placed(s, q);
        assert r < |s.refreshes| ==> After(s, q, r);
      }
    }
  }

  /** One callback of the refresh in flight. */
  predicate Advances(s: State, next: State, r: nat) {
    && r < |s.refreshes| && !Finished(s, r)
    && next.sessionGeneration >= s.sessionGeneration
    && r < |next.refreshes| && next.refreshes == s.refreshes[r := s.refreshes[r].(phase := next.refreshes[r].phase)]
    && match next.refreshes[r].phase
       case Sent => false
       case Settled(ok) =>
         s.refreshes[r].phase == Sent && next.refreshInFlight == s.refreshInFlight
         && next.refreshGeneration == s.refreshGeneration + (if ok then 1 else 0)
       case Cleared(ok) =>
         s.refreshes[r].phase == Settled(ok) && next.refreshInFlight == None
             && next.refreshGeneration == s.refreshGeneration
  }

  lemma AdvanceKeepsFlight(s: State, next: State, r: nat)
    requires FlightInv(s) && Advances(s, next, r)
    ensures FlightInv(next)
  {
    assert r < |s.refreshes| - 1 ==> Finished(s, r);
    forall q: nat | q < |s.refreshes| - 1 ensures Finished(next, q) { assert Finished(s, q); }
    forall q: nat | q < |s.refreshes|
      ensures Placed(next, q)
    {
      assert Placed(s, q);
      assert q != r ==> Finished(s, q);
    }
    forall p: nat, q: nat | p < q < |s.refreshes| ensures After(next, p, q) { assert After(s, p, q); }
  }

  lemma AnswerAdvances(s: State, r: nat, response: Response)
    requires r < |s.refreshes| && s.refreshes[r].phase == Sent
    ensures Advances(s, RefreshResponse(s, r, response), r)
  {}

  lemma StepKeepsFlight(s: State, e: Event)
    requires FlightInv(s) && Enabled(s, e)
    ensures FlightInv(Next(s, e))
  {
    match e
    case First(i, response, aborted) =>
      SendKeepsFlight(s, s.calls[i].session, s.calls[i].refresh);
      if response != Status(401) || s.signedOut || aborted {
        SameFlightKeeps(s, Next(s, e));
      } else {
        SameFlightKeeps(RefreshFor(s, s.calls[i].session, s.calls[i].refresh).0, Next(s, e));
      }
    case Answer(r, response) =>
      AnswerAdvances(s, r, response);
      AdvanceKeepsFlight(s, Next(s, e), r);
    case Finally(r) => AdvanceKeepsFlight(s, Next(s, e), r);
    case _ => SameFlightKeeps(s, Next(s, e));
  }

  lemma {:induction false} RunFlight(states: seq<State>, events: seq<Event>, i: nat)
    requires ValidRun(states, events) && i <= |events|
    ensures FlightInv(states[i])
  {
    if i > 0 {
      RunFlight(states, events, i - 1);
      assert Transition(states[i - 1], events[i - 1], states[i]);
      StepKeepsFlight(states[i - 1], events[i - 1]);
    }
  }

  predicate SameRotation(q: Refresh, r: Refresh) {
    q.generation == r.generation && q.Succeeded() && r.Succeeded()
  }

  /** Two refresh requests are never outstanding together, and one generation of one session is rotated at most once,
      however the calls that need it are staggered. */
  lemma RotatesAtMostOnce(states: seq<State>, events: seq<Event>, i: nat, q: nat, r: nat)
    requires ValidRun(states, events) && i <= |events| && q < |states[i].refreshes| && r < |states[i].refreshes|
    ensures states[i].refreshes[q].phase == Sent && states[i].refreshes[r].phase == Sent ==> q == r
    ensures SameRotation(states[i].refreshes[q], states[i].refreshes[r]) ==> q == r
  {
    RunFlight(states, events, i);
    var s := states[i];
    if q < r {
      assert After(s, q, r) && Finished(s, q);
    } else if r < q {
      assert After(s, r, q) && Finished(s, r);
    }
  }

  /** A refresh is sent for exactly the session and generation its caller started in, which are then the current
      ones; so those two numbers identify all the calls that share it. */
  lemma SentForItsCaller(s: State, e: Event)
    requires Enabled(s, e) && |Next(s, e).refreshes| > |s.refreshes|
    ensures e.First? && IsCurrent(s, s.calls[e.i].session) && s.calls[e.i].refresh == s.refreshGeneration
            && s.refreshInFlight.None?
            && Next(s, e).refreshes == s.refreshes + [Refresh(s.calls[e.i].session, s.calls[e.i].refresh, Sent)]
  {}

  /** Some call of the run was the first of its session and generation to fail, and the refresh was sent for it. */
  ghost predicate SentAt(states: seq<State>, events: seq<Event>, k: nat, r: nat)
    requires |states| == |events| + 1
  {
    && k < |events| && Enabled(states[k], events[k]) && events[k].First? && r == |states[k].refreshes|
    && r < |states[k + 1].refreshes|
    && IsCurrent(states[k], states[k].calls[events[k].i].session)
    && states[k + 1].refreshes[r].session == states[k].calls[events[k].i].session
    && states[k + 1].refreshes[r].generation == states[k].calls[events[k].i].refresh
  }

  lemma StepKeepsSent(s: State, e: Event, next: State, r: nat)
    requires Transition(s, e, next) && r < |s.refreshes|
    ensures r < |next.refreshes| && next.refreshes[r].session == s.refreshes[r].session
    ensures next.refreshes[r].generation == s.refreshes[r].generation
  {}

  /** Every refresh of a run was sent for a current call, in that call's session and generation; so refreshes answer
      exactly the calls with which they share those two numbers. */
  lemma EveryRefreshHasItsCaller(states: seq<State>, events: seq<Event>, i: nat, r: nat)
    requires ValidRun(states, events) && i <= |events| && r < |states[i].refreshes|
    ensures exists k: nat {:trigger SentAt(states, events, k, r)} ::
              && k < i && SentAt(states, events, k, r)
              && states[i].refreshes[r].session == states[k].calls[events[k].i].session
              && states[i].refreshes[r].generation == states[k].calls[events[k].i].refresh
  {
    var k: nat := i;
    while k > 0 && r < |states[k - 1].refreshes|
      invariant k <= i && r < |states[k].refreshes|
      invariant states[k].refreshes[r].session == states[i].refreshes[r].session
      invariant states[k].refreshes[r].generation == states[i].refreshes[r].generation
    {
      StepKeepsSent(states[k - 1], events[k - 1], states[k], r);
      k := k - 1;
    }
    assert Transition(states[k - 1], events[k - 1], states[k]);
    SentForItsCaller(states[k - 1], events[k - 1]);
    assert SentAt(states, events, k - 1, r);
  }
}
