/** What a single `fetch` call may do, and when a session may be ended by a response. */
module SessionCalls {
  import opened SessionModel
  import opened SessionTheorems
  import opened Wrappers

  /** A refresh that rotated the call's own session at or after the generation the call started in. */
  predicate OwnRefresh(s: State, call: Call, r: nat) {
    && r < |s.refreshes| && s.refreshes[r].Succeeded()
    && s.refreshes[r].session == call.session && s.refreshes[r].generation >= call.refresh
  }

  ghost predicate Refreshed(s: State, call: Call) {
    exists r: nat :: OwnRefresh(s, call, r)
  }

  /** The call waits for a refresh that had already succeeded when the call started. */
  predicate JoinedLate(s: State, call: Call) {
    && call.pc.AwaitingRefresh? && call.pc.wait.On? && call.pc.wait.refresh < |s.refreshes|
    && s.refreshes[call.pc.wait.refresh].generation < call.refresh
  }

  predicate Joins(s: State, call: Call, r: nat) {
    && r < |s.refreshes| && s.refreshes[r].session <= call.session && s.refreshes[r].generation <= call.refresh
    && (s.refreshes[r].Succeeded() ==> s.refreshes[r].generation < s.refreshGeneration)
  }

  ghost predicate CallOk(s: State, call: Call) {
    && call.session <= s.sessionGeneration && call.refresh <= s.refreshGeneration
    && (match call.pc
        case FirstSent => call.sends == 1
        case AwaitingRefresh(wait) =>
          call.sends == 1 && (if wait.Resolved? then wait.refreshed ==> Refreshed(s, call)
                              else Joins(s, call, wait.refresh))
        case SecondSent => call.sends == 2
        case Returned => 1 <= call.sends <= 2)
    && (forall r: nat ::
          r < |s.refreshes| && s.refreshes[r].Succeeded() && s.refreshes[r].generation >= call.refresh ==>
            s.refreshes[r].session >= call.session)
  }

  /** Every generation below the current one was rotated by some refresh. */
  ghost predicate AllRotated(s: State) {
    forall g: nat :: g < s.refreshGeneration ==> RotatedAt(s, g)
  }

  ghost predicate RotatedAt(s: State, g: nat) {
    exists r: nat :: r < |s.refreshes| && s.refreshes[r].Succeeded() && s.refreshes[r].generation == g
  }

  ghost predicate CallsInv(s: State) {
    AllRotated(s) && forall i: nat :: i < |s.calls| ==> CallOk(s, s.calls[i])
  }

  /** Refreshes only ever gain successes, in the current session, one generation at a time. */
  ghost predicate Grows(s: State, next: State) {
    && next.sessionGeneration >= s.sessionGeneration && next.refreshGeneration >= s.refreshGeneration
    && |next.refreshes| >= |s.refreshes|
    && (forall r: nat :: r < |s.refreshes| ==>
                           && next.refreshes[r].session == s.refreshes[r].session
                           && next.refreshes[r].generation == s.refreshes[r].generation
                           && (s.refreshes[r].Succeeded() ==> next.refreshes[r].Succeeded()))
    && (forall r: nat :: r < |next.refreshes| && next.refreshes[r].Succeeded() ==>
                           || (r < |s.refreshes| && s.refreshes[r].Succeeded())
                           || next.refreshes[r].session >= s.sessionGeneration)
    && (forall r: nat :: r < |next.refreshes| && next.refreshes[r].Succeeded() ==>
                           next.refreshes[r].generation < next.refreshGeneration)
  }

  lemma GrowsKeepsCall(s: State, next: State, call: Call)
    requires CallOk(s, call) && Grows(s, next)
    ensures CallOk(next, call)
  {
    if call.pc.AwaitingRefresh? && call.pc.wait == Resolved(true) {
      var r: nat :| OwnRefresh(s, call, r);
      assert OwnRefresh(next, call, r);
    }
  }

  lemma StepKeepsRefresh(s: State, e: Event, r: nat)
    requires Enabled(s, e) && r < |s.refreshes|
    ensures r < |Next(s, e).refreshes|
    ensures Next(s, e).refreshes[r].session == s.refreshes[r].session
    ensures Next(s, e).refreshes[r].generation == s.refreshes[r].generation
    ensures s.refreshes[r].Succeeded() ==> Next(s, e).refreshes[r].Succeeded()
  {}

  /** Only an answer to a refresh of the current session makes a refresh succeed. */
  lemma NewSuccess(s: State, e: Event, r: nat)
    requires Enabled(s, e) && r < |Next(s, e).refreshes| && Next(s, e).refreshes[r].Succeeded()
    ensures (r < |s.refreshes| && s.refreshes[r].Succeeded()) || Next(s, e).refreshes[r].session >= s.sessionGeneration
  {}

  lemma StepGrows(s: State, e: Event)
    requires FlightInv(s) && Enabled(s, e)
    ensures Grows(s, Next(s, e))
  {
    StepKeepsFlight(s, e);
    var next := Next(s, e);
    forall r: nat | r < |s.refreshes|
      ensures next.refreshes[r].session == s.refreshes[r].session
      ensures next.refreshes[r].generation == s.refreshes[r].generation
      ensures s.refreshes[r].Succeeded() ==> next.refreshes[r].Succeeded()
    {
      StepKeepsRefresh(s, e, r);
    }
    forall r: nat | r < |next.refreshes| && next.refreshes[r].Succeeded()
      ensures next.refreshes[r].generation < next.refreshGeneration
      ensures (r < |s.refreshes| && s.refreshes[r].Succeeded()) || next.refreshes[r].session >= s.sessionGeneration
    {
      assert Placed(next, r);
      NewSuccess(s, e, r);
    }
  }

  lemma StepKeepsAllRotated(s: State, e: Event)
    requires FlightInv(s) && AllRotated(s) && Enabled(s, e)
    ensures AllRotated(Next(s, e))
  {
    StepGrows(s, e);
    var next := Next(s, e);
    forall g: nat | g < next.refreshGeneration
      ensures RotatedAt(next, g)
    {
      if g < s.refreshGeneration {
        assert RotatedAt(s, g);
        var r: nat :| r < |s.refreshes| && s.refreshes[r].Succeeded() && s.refreshes[r].generation == g;
        assert next.refreshes[r].Succeeded();
      } else {
        assert Placed(s, e.r) && next.refreshes[e.r].Succeeded();
      }
    }
  }

  /** What a call decides to wait for is sound. */
  lemma RefreshForSound(s: State, call: Call)
    requires FlightInv(s) && AllRotated(s) && CallOk(s, call) && call.pc == FirstSent
    ensures var (next, wait) := RefreshFor(s, call.session, call.refresh);
            CallOk(next, call.(pc := AwaitingRefresh(wait)))
  {
    var (next, wait) := RefreshFor(s, call.session, call.refresh);
    if wait == Resolved(true) {
      assert RotatedAt(s, call.refresh);
      var r: nat :| r < |s.refreshes| && s.refreshes[r].Succeeded() && s.refreshes[r].generation == call.refresh;
      assert Placed(s, r);
      assert OwnRefresh(next, call.(pc := AwaitingRefresh(wait)), r);
    } else if wait.On? && next == s {
      assert Placed(s, wait.refresh);
    }
  }

  lemma FirstKeepsCall(s: State, e: Event)
    requires FlightInv(s) && CallsInv(s) && Enabled(s, e) && e.First?
    ensures CallOk(Next(s, e), Next(s, e).calls[e.i])
  {
    var call, next := s.calls[e.i], Next(s, e);
    assert CallOk(s, call);
    StepGrows(s, e);
    if e.response != Status(401) || s.signedOut || e.aborted {
      GrowsKeepsCall(s, next, call);
    } else {
      RefreshForSound(s, call);
      var (mid, wait) := RefreshFor(s, call.session, call.refresh);
      if wait == Resolved(true) {
        var r: nat :| OwnRefresh(mid, call.(pc := AwaitingRefresh(wait)), r);
        assert OwnRefresh(next, next.calls[e.i], r);
      }
    }
  }

  lemma StepKeepsCalls(s: State, e: Event)
    requires FlightInv(s) && CallsInv(s) && Enabled(s, e)
    ensures CallsInv(Next(s, e))
  {
    StepGrows(s, e);
    StepKeepsFlight(s, e);
    StepKeepsAllRotated(s, e);
    var next := Next(s, e);
    forall i: nat | i < |next.calls|
      ensures CallOk(next, next.calls[i])
    {
      if i < |s.calls| {
        assert CallOk(s, s.calls[i]);
        GrowsKeepsCall(s, next, s.calls[i]);
        if e.First? && e.i == i {
          FirstKeepsCall(s, e);
        }
      } else {
        FreshCallOk(next, next.calls[i]);
      }
    }
  }

  lemma FreshCallOk(s: State, call: Call)
    requires FlightInv(s) && call == Call(s.sessionGeneration, s.refreshGeneration, FirstSent, 1)
    ensures CallOk(s, call)
  {
    forall r: nat | r < |s.refreshes| && s.refreshes[r].Succeeded()
      ensures s.refreshes[r].generation < call.refresh
    {
      assert Placed(s, r);
    }
  }

  lemma {:induction false} RunCalls(states: seq<State>, events: seq<Event>, i: nat)
    requires ValidRun(states, events) && i <= |events|
    ensures FlightInv(states[i]) && CallsInv(states[i])
  {
    RunFlight(states, events, i);
    if i > 0 {
      RunCalls(states, events, i - 1);
      assert Transition(states[i - 1], events[i - 1], states[i]);
      StepKeepsCalls(states[i - 1], events[i - 1]);
    }
  }

  /** A call sends its own request at most twice. */
  lemma SendsAtMostTwice(states: seq<State>, events: seq<Event>, i: nat, c: nat)
    requires ValidRun(states, events) && i <= |events| && c < |states[i].calls|
    ensures 1 <= states[i].calls[c].sends <= 2
  {
    RunCalls(states, events, i);
    assert CallOk(states[i], states[i].calls[c]);
  }

  predicate SendsAgain(s: State, e: Event)
    requires Enabled(s, e)
  {
    e.Resume? && Next(s, e).calls[e.i].sends > s.calls[e.i].sends
  }

  /** The call waits for a refresh that had succeeded, for whatever session, before the call started. */
  predicate JoinedSuccess(s: State, call: Call) {
    JoinedLate(s, call) && s.refreshes[call.pc.wait.refresh].Succeeded()
  }

  lemma RepeatIsJustified(s: State, e: Event)
    requires FlightInv(s) && CallsInv(s) && Enabled(s, e) && SendsAgain(s, e)
    ensures IsCurrent(s, s.calls[e.i].session)
    ensures JoinedSuccess(s, s.calls[e.i]) || Refreshed(s, s.calls[e.i])
  {
    var call := s.calls[e.i];
    assert CallOk(s, call);
    if call.pc.wait.On? && !JoinedLate(s, call) {
      assert OwnRefresh(s, call, call.pc.wait.refresh);
    }
  }

  // Sessions.

  /** What a response can do to a session: nothing, except to rotate or end it. */
  predicate SessionUntouched(s: State, next: State) {
    && next.sessionGeneration == s.sessionGeneration && next.signedOut == s.signedOut
    && next.refreshGeneration == s.refreshGeneration && next.notified == s.notified && next.starts == s.starts
  }

  /** The session an event belongs to, when it belongs to one. */
  function SessionOf(s: State, e: Event): Option<nat>
    requires Enabled(s, e)
  {
    match e
    case First(i, _, _) => Some(s.calls[i].session)
    case Resume(i, _) => Some(s.calls[i].session)
    case Second(i, _, _) => Some(s.calls[i].session)
    case Answer(r, _) => Some(s.refreshes[r].session)
    case Finally(r) => Some(s.refreshes[r].session)
    case _ => None
  }

  /** Whatever still arrives for a session that is over changes no session and sends nothing. */
  lemma StaleSessionIsInert(s: State, e: Event)
    requires Enabled(s, e) && SessionOf(s, e).Some? && !IsCurrent(s, SessionOf(s, e).value)
    ensures SessionUntouched(s, Next(s, e))
    ensures |Next(s, e).refreshes| == |s.refreshes| && |Next(s, e).calls| == |s.calls|
    ensures forall i :: 0 <= i < |s.calls| ==> Next(s, e).calls[i].sends == s.calls[i].sends
  {}

  /** A session ends without `endSession` exactly when a 401 answers its own refresh, or its own repeated request
      that was not aborted; then, and only then, `onUnauthorized` is called. */
  lemma EndsExactlyOnOwn401(s: State, e: Event)
    requires Enabled(s, e) && e != End && e != Start
    ensures var own401 := SessionOf(s, e).Some? && IsCurrent(s, SessionOf(s, e).value)
                          && ((e.Answer? && e.response == Status(401))
                              || (e.Second? && e.response == Status(401) && !e.aborted));
            && (own401 <==> Next(s, e).sessionGeneration != s.sessionGeneration)
            && (own401 <==> Next(s, e).notified != s.notified)
            && (own401 ==> Next(s, e).signedOut && !s.signedOut && Next(s, e).notified == s.notified + 1)
            && (!own401 ==> Next(s, e).signedOut == s.signedOut)
  {}

  lemma StepNotifies(s: State, e: Event)
    requires Enabled(s, e) && s.notified <= 1 && (s.notified == 1 ==> s.signedOut)
    ensures Next(s, e).notified <= 1 && (Next(s, e).notified == 1 ==> Next(s, e).signedOut)
  {
    if e != End && e != Start {
      EndsExactlyOnOwn401(s, e);
    }
  }

  /** `onUnauthorized` is called at most once between two starts. */
  lemma {:induction false} NotifiedAtMostOnce(states: seq<State>, events: seq<Event>, i: nat)
    requires ValidRun(states, events) && i <= |events|
    ensures states[i].notified <= 1 && (states[i].notified == 1 ==> states[i].signedOut)
  {
    if i > 0 {
      NotifiedAtMostOnce(states, events, i - 1);
      assert Transition(states[i - 1], events[i - 1], states[i]);
      StepNotifies(states[i - 1], events[i - 1]);
    }
  }

  // Signing out.

  /** Everything sent before the call is finished, except what its promise waits for; and nothing was sent since,
      unless a session was started again. */
  ghost predicate EndingOk(s: State, ending: Ending) {
    && ending.sentBefore <= |s.refreshes| && ending.starts <= s.starts
    && (forall r: nat :: r < ending.sentBefore ==> Finished(s, r) || ending.waitsFor == Some(r))
    && (ending.waitsFor.Some? ==> ending.waitsFor.value < ending.sentBefore)
    && (ending.starts == s.starts ==> s.signedOut && |s.refreshes| == ending.sentBefore)
  }

  ghost predicate EndingsInv(s: State) {
    forall k: nat :: k < |s.endings| ==> EndingOk(s, s.endings[k])
  }

  lemma NewEndingOk(s: State)
    requires FlightInv(s)
    ensures EndingOk(EndSession(s), Ending(s.refreshInFlight, |s.refreshes|, s.starts))
  {
    var next := EndSession(s);
    forall r: nat | r < |s.refreshes|
      ensures Finished(next, r) || s.refreshInFlight == Some(r)
    {
      assert r < |s.refreshes| - 1 ==> Finished(s, r);
    }
  }

  lemma EndingStaysOk(s: State, e: Event, ending: Ending)
    requires Enabled(s, e) && EndingOk(s, ending)
    ensures EndingOk(Next(s, e), ending)
  {
    var next := Next(s, e);
    forall r: nat | r < ending.sentBefore
      ensures Finished(next, r) || ending.waitsFor == Some(r)
    {
      assert Finished(s, r) ==> Finished(next, r);
    }
  }

  lemma StepKeepsEndings(s: State, e: Event)
    requires FlightInv(s) && EndingsInv(s) && Enabled(s, e)
    ensures EndingsInv(Next(s, e))
  {
    var next := Next(s, e);
    NewEndingOk(s);
    forall k: nat | k < |next.endings|
      ensures EndingOk(next, next.endings[k])
    {
      if k < |s.endings| {
        assert EndingOk(s, s.endings[k]);
        EndingStaysOk(s, e, s.endings[k]);
      } else {
        EndingAfterRejection(s, e);
      }
    }
  }

  /** A new ending comes from `endSession`, called from outside or by a rejecting response. */
  lemma EndingAfterRejection(s: State, e: Event)
    requires FlightInv(s) && Enabled(s, e) && |Next(s, e).endings| > |s.endings|
    ensures |Next(s, e).endings| == |s.endings| + 1
    ensures EndingOk(Next(s, e), Next(s, e).endings[|s.endings|])
  {
    NewEndingOk(s);
    var next, ending := Next(s, e), Ending(s.refreshInFlight, |s.refreshes|, s.starts);
    assert EndingOk(EndSession(s), ending);
    forall r: nat | r < ending.sentBefore
      ensures Finished(next, r) || ending.waitsFor == Some(r)
    {
      assert Finished(EndSession(s), r) ==> Finished(next, r);
    }
  }

  lemma {:induction false} RunEndings(states: seq<State>, events: seq<Event>, i: nat)
    requires ValidRun(states, events) && i <= |events|
    ensures EndingsInv(states[i])
  {
    if i > 0 {
      RunEndings(states, events, i - 1);
      RunFlight(states, events, i - 1);
      assert Transition(states[i - 1], events[i - 1], states[i]);
      StepKeepsEndings(states[i - 1], events[i - 1]);
    }
  }

  /** The promise of an `endSession` has settled. */
  predicate EndingSettled(s: State, ending: Ending) {
    ending.waitsFor.Some? ==> Finished(s, ending.waitsFor.value)
  }

  /** Once the promise of an `endSession` settles, no refresh sent before it is outstanding; and until a session is
      started again none is outstanding at all, so a logout request sent then is not overtaken by a rotation. */
  lemma SignOutIsOrdered(states: seq<State>, events: seq<Event>, i: nat, k: nat)
    requires ValidRun(states, events) && i <= |events| && k < |states[i].endings|
    requires EndingSettled(states[i], states[i].endings[k])
    ensures var s, ending := states[i], states[i].endings[k];
            && (forall r: nat :: r < ending.sentBefore ==> Finished(s, r))
            && (ending.starts == s.starts ==>
                  s.signedOut && s.refreshInFlight.None? && forall r: nat :: r < |s.refreshes| ==> Finished(s, r))
  {
    RunEndings(states, events, i);
    RunFlight(states, events, i);
    assert EndingOk(states[i], states[i].endings[k]);
  }
}
