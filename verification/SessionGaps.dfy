/** The two gaps in session recovery, and exactly when each opens: a refresh that is still in flight when a session
    starts, and one that has succeeded but is not cleaned up when a call starts and fails. The second needs a 401 to
    arrive between two callbacks of one promise. A browser's responses arrive as tasks of their own, which never run
    there; only a fetcher that answers with promises settled already can open it. */
module SessionGaps {
  import opened SessionModel
  import opened SessionTheorems
  import opened SessionCalls
  import opened Wrappers

  /** A run from any state on. */
  ghost predicate Continues(states: seq<State>, events: seq<Event>) {
    && |states| == |events| + 1
    && forall i {:trigger events[i]} :: 0 <= i < |events| ==> Transition(states[i], events[i], states[i + 1])
  }

  /** What every reachable state satisfies. */
  ghost predicate Reachable(s: State) {
    FlightInv(s) && CallsInv(s)
  }

  lemma StepKeepsReachable(s: State, e: Event, next: State)
    requires Reachable(s) && Transition(s, e, next)
    ensures Reachable(next)
  {
    StepKeepsFlight(s, e);
    StepKeepsCalls(s, e);
  }

  // Repeating without a refresh of one's own.

  /** A refresh has succeeded and its promise has not been cleaned up. */
  predicate Succeeding(s: State) {
    && s.refreshInFlight.Some? && s.refreshInFlight.value < |s.refreshes|
    && s.refreshes[s.refreshInFlight.value].phase == Settled(true)
  }

  ghost predicate RepeatsUnrefreshed(s: State, e: Event, c: nat) {
    Enabled(s, e) && SendsAgain(s, e) && e.i == c && !Refreshed(s, s.calls[c])
  }

  /** Responses arrive as tasks: none arrives between a refresh's success and its cleanup, which one task runs. */
  ghost predicate TaskOrdered(states: seq<State>, events: seq<Event>)
    requires |states| == |events| + 1
  {
    forall k: nat {:trigger events[k]} :: k < |events| && events[k].First? ==> !Succeeding(states[k])
  }

  /** A call that starts in `s` can later repeat its request although nothing has rotated its session since; with
      responses arriving as tasks, or in any order. */
  ghost predicate CanRepeatUnrefreshed(s: State, tasks: bool) {
    exists states: seq<State>, events: seq<Event>, e: Event ::
      && Continues(states, events) && (tasks ==> TaskOrdered(states, events))
      && states[0] == s && |events| > 0 && events[0] == Fetch
      && RepeatsUnrefreshed(states[|events|], e, |s.calls|)
  }

  predicate Failed(s: State, r: nat) {
    r < |s.refreshes| && (s.refreshes[r].phase == Settled(false) || s.refreshes[r].phase == Cleared(false))
  }

  /** The call waits for no refresh of an earlier generation than its own, except for one that has failed. */
  predicate OnTime(s: State, c: nat) {
    c < |s.calls| && (JoinedLate(s, s.calls[c]) ==> Failed(s, s.calls[c].pc.wait.refresh))
  }

  /** Besides, every such refresh is over or has failed. */
  ghost predicate NotLate(s: State, c: nat) {
    && OnTime(s, c)
    && forall r: nat :: r < |s.refreshes| && s.refreshes[r].generation < s.calls[c].refresh ==>
                          Failed(s, r) || Finished(s, r)
  }

  lemma StartsNotLate(s: State)
    requires Reachable(s) && !Succeeding(s)
    ensures NotLate(BeginFetch(s), |s.calls|)
  {
    forall r: nat | r < |s.refreshes| && s.refreshes[r].generation < s.refreshGeneration
      ensures Failed(s, r) || Finished(s, r)
    {
      assert Placed(s, r);
      assert r < |s.refreshes| - 1 ==> Finished(s, r);
    }
  }

  /** What is over or has failed stays so, and nothing is sent for an earlier generation. */
  lemma EarlierStayOver(s: State, e: Event, generation: nat, r: nat)
    requires Reachable(s) && Enabled(s, e) && generation <= s.refreshGeneration
    requires forall q: nat :: q < |s.refreshes| && s.refreshes[q].generation < generation ==>
             Failed(s, q) || Finished(s, q)
    requires r < |Next(s, e).refreshes| && Next(s, e).refreshes[r].generation < generation
    ensures r < |s.refreshes| && (Failed(Next(s, e), r) || Finished(Next(s, e), r))
    ensures Failed(s, r) ==> Failed(Next(s, e), r)
  {}

  /** Only its own first response makes a call wait. */
  lemma OnlyFirstJoins(s: State, e: Event, c: nat)
    requires Enabled(s, e) && c < |s.calls| && !(e.First? && e.i == c)
    ensures c < |Next(s, e).calls| && Next(s, e).calls[c].refresh == s.calls[c].refresh
    ensures Next(s, e).calls[c].session == s.calls[c].session
    ensures Next(s, e).calls[c].pc.AwaitingRefresh? ==> Next(s, e).calls[c].pc == s.calls[c].pc
  {}

  lemma OthersStayNotLate(s: State, e: Event, c: nat)
    requires Reachable(s) && Enabled(s, e) && NotLate(s, c) && !(e.First? && e.i == c)
    ensures NotLate(Next(s, e), c)
  {
    var next := Next(s, e);
    assert CallOk(s, s.calls[c]);
    OnlyFirstJoins(s, e, c);
    forall r: nat | r < |next.refreshes| && next.refreshes[r].generation < s.calls[c].refresh
      ensures Failed(next, r) || Finished(next, r)
      ensures r < |s.refreshes| && (Failed(s, r) ==> Failed(next, r))
    {
      EarlierStayOver(s, e, s.calls[c].refresh, r);
    }
    LateStaysLate(s, e, c);
  }

  lemma LateStaysLate(s: State, e: Event, c: nat)
    requires Reachable(s) && Enabled(s, e) && c < |s.calls| && !(e.First? && e.i == c)
    requires JoinedLate(s, s.calls[c]) ==> Failed(s, s.calls[c].pc.wait.refresh)
    ensures c < |Next(s, e).calls|
    ensures JoinedLate(Next(s, e), Next(s, e).calls[c]) ==> Failed(Next(s, e), Next(s, e).calls[c].pc.wait.refresh)
  {
    OnlyFirstJoins(s, e, c);
    assert CallOk(s, s.calls[c]);
  }

  lemma JoiningStaysNotLate(s: State, e: Event, c: nat)
    requires Reachable(s) && Enabled(s, e) && NotLate(s, c) && e.First? && e.i == c
    ensures NotLate(Next(s, e), c)
  {
    var next := Next(s, e);
    assert CallOk(s, s.calls[c]);
    forall r: nat | r < |next.refreshes| && next.refreshes[r].generation < next.calls[c].refresh
      ensures Failed(next, r) || Finished(next, r)
    {
      assert r < |s.refreshes| && (Failed(s, r) || Finished(s, r));
    }
    if JoinedLate(next, next.calls[c]) {
      var r := next.calls[c].pc.wait.refresh;
      assert r < |s.refreshes| && !Finished(s, r);
    }
  }

  lemma StaysNotLate(s: State, e: Event, next: State, c: nat)
    requires Reachable(s) && Transition(s, e, next) && NotLate(s, c)
    ensures NotLate(next, c)
  {
    if e.First? && e.i == c {
      JoiningStaysNotLate(s, e, c);
    } else {
      OthersStayNotLate(s, e, c);
    }
  }

  lemma OnTimeIsRefreshed(s: State, e: Event, c: nat)
    requires Reachable(s) && OnTime(s, c)
    ensures !RepeatsUnrefreshed(s, e, c)
  {
    if RepeatsUnrefreshed(s, e, c) {
      RepeatIsJustified(s, e);
      assert false;
    }
  }

  /** A call joins a refresh that had succeeded before the call started exactly when its 401 arrives, in its own live
      session and with no rotation since it started, between that refresh's success and its cleanup. */
  lemma JoinsSuccessExactly(s: State, e: Event)
    requires Reachable(s) && Enabled(s, e) && e.First?
    ensures var call := s.calls[e.i];
            JoinedSuccess(Next(s, e), Next(s, e).calls[e.i]) <==>
              && e.response == Status(401) && !e.aborted && IsCurrent(s, call.session)
              && call.refresh == s.refreshGeneration && Succeeding(s)
  {
    if s.refreshInFlight.Some? {
      assert Placed(s, s.refreshInFlight.value) && CallOk(s, s.calls[e.i]);
    }
  }

  lemma StaysOnTime(s: State, e: Event, next: State, c: nat)
    requires Reachable(s) && Transition(s, e, next) && OnTime(s, c) && (e.First? ==> !Succeeding(s))
    ensures OnTime(next, c)
  {
    if e.First? && e.i == c {
      JoiningStaysOnTime(s, e);
    } else {
      OnlyFirstJoins(s, e, c);
      LateStaysLate(s, e, c);
    }
  }

  lemma JoiningStaysOnTime(s: State, e: Event)
    requires Reachable(s) && Enabled(s, e) && e.First? && !Succeeding(s)
    ensures OnTime(Next(s, e), e.i)
  {
    assert CallOk(s, s.calls[e.i]);
    if s.refreshInFlight.Some? {
      assert Placed(s, s.refreshInFlight.value) && !Finished(s, s.refreshInFlight.value);
    }
  }

  lemma TasksCannotRepeat(states: seq<State>, events: seq<Event>, e: Event)
    requires Continues(states, events) && TaskOrdered(states, events) && Reachable(states[0])
    requires |events| > 0 && events[0] == Fetch
    ensures !RepeatsUnrefreshed(states[|events|], e, |states[0].calls|)
  {
    var c := |states[0].calls|;
    assert Transition(states[0], events[0], states[1]);
    StepKeepsReachable(states[0], events[0], states[1]);
    for k := 1 to |events|
      invariant Reachable(states[k]) && OnTime(states[k], c)
    {
      StepKeepsReachable(states[k], events[k], states[k + 1]);
      StaysOnTime(states[k], events[k], states[k + 1], c);
    }
    OnTimeIsRefreshed(states[|events|], e, c);
  }

  /** The session can never be current again. */
  predicate Past(s: State, session: nat) {
    session < s.sessionGeneration || (session == s.sessionGeneration && s.signedOut)
  }

  lemma StaysPast(s: State, e: Event, next: State, session: nat)
    requires Transition(s, e, next) && Past(s, session)
    ensures Past(next, session)
  {}

  predicate KeepsCall(s: State, c: nat, call: Call) {
    c < |s.calls| && s.calls[c].session == call.session
  }

  lemma SignedOutCannotRepeat(states: seq<State>, events: seq<Event>, e: Event)
    requires Continues(states, events) && |events| > 0 && events[0] == Fetch && states[0].signedOut
    ensures !RepeatsUnrefreshed(states[|events|], e, |states[0].calls|)
  {
    var s := states[0];
    var c := |s.calls|;
    assert Transition(states[0], events[0], states[1]);
    for k := 1 to |events|
      invariant Past(states[k], s.sessionGeneration)
      invariant KeepsCall(states[k], c, Call(s.sessionGeneration, s.refreshGeneration, FirstSent, 1))
    {
      StaysPast(states[k], events[k], states[k + 1], s.sessionGeneration);
    }
  }

  lemma CleanStartCannotRepeat(states: seq<State>, events: seq<Event>, e: Event)
    requires Continues(states, events) && |events| > 0 && events[0] == Fetch
    requires Reachable(states[0]) && !Succeeding(states[0])
    ensures !RepeatsUnrefreshed(states[|events|], e, |states[0].calls|)
  {
    var c := |states[0].calls|;
    StartsNotLate(states[0]);
    StepKeepsReachable(states[0], events[0], states[1]);
    for k := 1 to |events|
      invariant Reachable(states[k]) && NotLate(states[k], c)
    {
      StepKeepsReachable(states[k], events[k], states[k + 1]);
      StaysNotLate(states[k], events[k], states[k + 1], c);
    }
    OnTimeIsRefreshed(states[|events|], e, c);
  }

  /** Start, fail with 401, join the refresh that succeeded before, see it cleaned up. */
  lemma JoinSucceeding(s: State)
    requires Reachable(s) && !s.signedOut && Succeeding(s)
    ensures CanRepeatUnrefreshed(s, false)
  {
    var c, f := |s.calls|, s.refreshInFlight.value;
    var s1 := BeginFetch(s);
    var s2 := FirstResponse(s1, c, Status(401), false);
    assert s2.calls[c] == Call(s.sessionGeneration, s.refreshGeneration, AwaitingRefresh(On(f)), 1);
    var s3 := RefreshFinally(s2, f);
    var states, events := [s, s1, s2, s3], [Fetch, First(c, Status(401), false), Finally(f)];
    assert Continues(states, events);
    forall r: nat ensures !OwnRefresh(s3, s3.calls[c], r) { assert r < |s.refreshes| ==> Placed(s, r); }
    assert RepeatsUnrefreshed(s3, Resume(c, false), c);
    assert states[|events|] == s3;
  }

  /** A call can repeat its request without a refresh of its session since it started exactly when it starts in a live
      session between a refresh's success and its cleanup, and responses may arrive in any order. */
  lemma UnrefreshedExactly(s: State, tasks: bool)
    requires Reachable(s)
    ensures CanRepeatUnrefreshed(s, tasks) <==> !tasks && !s.signedOut && Succeeding(s)
  {
    if CanRepeatUnrefreshed(s, tasks) {
      var states: seq<State>, events: seq<Event>, e: Event :|
        && Continues(states, events) && (tasks ==> TaskOrdered(states, events))
        && states[0] == s && |events| > 0 && events[0] == Fetch
        && RepeatsUnrefreshed(states[|events|], e, |s.calls|);
      if tasks {
        TasksCannotRepeat(states, events, e);
      } else if s.signedOut {
        SignedOutCannotRepeat(states, events, e);
      } else if !Succeeding(s) {
        CleanStartCannotRepeat(states, events, e);
      }
    } else if !tasks && !s.signedOut && Succeeding(s) {
      JoinSucceeding(s);
    }
  }

  /** With responses arriving as tasks no call of any run ever repeats its request without a refresh of its own session
      since it started, whatever its callers do. */
  lemma TaskOrderClosesGap(states: seq<State>, events: seq<Event>, i: nat, e: Event, c: nat)
    requires ValidRun(states, events) && TaskOrdered(states, events) && i <= |events|
    ensures !RepeatsUnrefreshed(states[i], e, c)
  {
    for k := 0 to i
      invariant Reachable(states[k]) && forall d: nat :: d < |states[k].calls| ==> OnTime(states[k], d)
    {
      StepKeepsReachable(states[k], events[k], states[k + 1]);
      AllStayOnTime(states[k], events[k], states[k + 1]);
    }
    if c < |states[i].calls| {
      OnTimeIsRefreshed(states[i], e, c);
    }
  }

  lemma AllStayOnTime(s: State, e: Event, next: State)
    requires Reachable(s) && Transition(s, e, next) && (e.First? ==> !Succeeding(s))
    requires forall c: nat :: c < |s.calls| ==> OnTime(s, c)
    ensures forall c: nat :: c < |next.calls| ==> OnTime(next, c)
  {
    forall c: nat | c < |next.calls|
      ensures OnTime(next, c)
    {
      if c < |s.calls| {
        StaysOnTime(s, e, next, c);
      }
    }
  }

  // Waiting for another session's refresh.

  predicate WaitsForOther(s: State, c: nat) {
    && c < |s.calls| && s.calls[c].pc.AwaitingRefresh? && s.calls[c].pc.wait.On?
    && s.calls[c].pc.wait.refresh < |s.refreshes|
    && s.refreshes[s.calls[c].pc.wait.refresh].session != s.calls[c].session
  }

  /** A call of the session that starts in `s` can later wait for a refresh of another session; with responses arriving
      as tasks, or in any order. */
  ghost predicate CanWaitForOther(s: State, tasks: bool) {
    exists states: seq<State>, events: seq<Event>, c: nat ::
      && Continues(states, events) && (tasks ==> TaskOrdered(states, events))
      && states[0] == s && |events| > 0 && events[0] == Start
      && WaitsForOther(states[|events|], c) && states[|events|].calls[c].session == s.sessionGeneration + 1
  }

  /** The refresh is over; or it has succeeded, if no response can arrive before its cleanup. */
  predicate Over(s: State, r: nat, tasks: bool) {
    Finished(s, r) || (tasks && r < |s.refreshes| && s.refreshes[r].phase == Settled(true))
  }

  /** Refreshes of sessions before `session` are over, and the calls of `session` wait for its own. */
  ghost predicate Separate(s: State, session: nat, tasks: bool) {
    && session <= s.sessionGeneration
    && (forall r: nat :: r < |s.refreshes| && s.refreshes[r].session < session ==> Over(s, r, tasks))
    && (forall c: nat :: c < |s.calls| && s.calls[c].session == session ==> !WaitsForOther(s, c))
  }

  lemma StartSeparates(s: State, tasks: bool)
    requires Reachable(s) && (s.refreshInFlight.None? || (tasks && Succeeding(s)))
    ensures Separate(StartSession(s), s.sessionGeneration + 1, tasks)
  {
    var next := StartSession(s);
    forall r: nat | r < |s.refreshes| ensures Over(next, r, tasks) { assert r < |s.refreshes| - 1 ==> Finished(s, r); }
    forall c: nat | c < |s.calls| ensures s.calls[c].session <= s.sessionGeneration { assert CallOk(s, s.calls[c]); }
  }

  lemma OthersStaySeparate(s: State, e: Event, c: nat)
    requires Reachable(s) && Enabled(s, e) && c < |s.calls| && !WaitsForOther(s, c) && !(e.First? && e.i == c)
    ensures !WaitsForOther(Next(s, e), c)
  {
    OnlyFirstJoins(s, e, c);
    assert CallOk(s, s.calls[c]);
  }

  /** A call joins a refresh of its own session, if none of an earlier session is left. */
  lemma JoiningStaysSeparate(s: State, e: Event, tasks: bool)
    requires Reachable(s) && Enabled(s, e) && e.First? && (tasks ==> !Succeeding(s))
    requires forall r: nat :: r < |s.refreshes| && s.refreshes[r].session < s.calls[e.i].session ==> Over(s, r, tasks)
    ensures !WaitsForOther(Next(s, e), e.i)
  {
    assert CallOk(s, s.calls[e.i]);
    if s.refreshInFlight.Some? {
      assert Placed(s, s.refreshInFlight.value);
    }
  }

  lemma RefreshesStaySeparate(s: State, e: Event, session: nat, r: nat, tasks: bool)
    requires Reachable(s) && Enabled(s, e) && session <= s.sessionGeneration
    requires r < |Next(s, e).refreshes| && Next(s, e).refreshes[r].session < session
    requires r < |s.refreshes| && s.refreshes[r].session < session ==> Over(s, r, tasks)
    ensures Over(Next(s, e), r, tasks)
  {}

  lemma StaysSeparate(s: State, e: Event, next: State, session: nat, tasks: bool)
    requires Reachable(s) && Transition(s, e, next) && Separate(s, session, tasks)
    requires tasks && e.First? ==> !Succeeding(s)
    ensures Separate(next, session, tasks)
  {
    forall r: nat | r < |next.refreshes| && next.refreshes[r].session < session
      ensures Over(next, r, tasks)
    {
      RefreshesStaySeparate(s, e, session, r, tasks);
    }
    forall c: nat | c < |next.calls| && next.calls[c].session == session
      ensures !WaitsForOther(next, c)
    {
      CallStaysSeparate(s, e, session, c, tasks);
    }
  }

  lemma CallStaysSeparate(s: State, e: Event, session: nat, c: nat, tasks: bool)
    requires Reachable(s) && Enabled(s, e) && Separate(s, session, tasks) && (tasks && e.First? ==> !Succeeding(s))
    requires c < |Next(s, e).calls| && Next(s, e).calls[c].session == session
    ensures !WaitsForOther(Next(s, e), c)
  {
    if e.First? && e.i == c {
      JoiningStaysSeparate(s, e, tasks);
    } else if c < |s.calls| {
      OnlyFirstJoins(s, e, c);
      OthersStaySeparate(s, e, c);
    }
  }

  lemma CleanSessionWaitsForItself(states: seq<State>, events: seq<Event>, c: nat, tasks: bool)
    requires Continues(states, events) && (tasks ==> TaskOrdered(states, events))
    requires Reachable(states[0]) && |events| > 0 && events[0] == Start
    requires states[0].refreshInFlight.None? || (tasks && Succeeding(states[0]))
    requires c < |states[|events|].calls| && states[|events|].calls[c].session == states[0].sessionGeneration + 1
    ensures !WaitsForOther(states[|events|], c)
  {
    var session := states[0].sessionGeneration + 1;
    StartSeparates(states[0], tasks);
    StepKeepsReachable(states[0], events[0], states[1]);
    for k := 1 to |events|
      invariant Reachable(states[k]) && Separate(states[k], session, tasks)
    {
      StepKeepsReachable(states[k], events[k], states[k + 1]);
      StaysSeparate(states[k], events[k], states[k + 1], session, tasks);
    }
  }

  lemma JoinOther(s: State, tasks: bool)
    requires Reachable(s) && s.refreshInFlight.Some? && (tasks ==> !Succeeding(s))
    ensures CanWaitForOther(s, tasks)
  {
    var c, f := |s.calls|, s.refreshInFlight.value;
    var s1 := StartSession(s);
    var s2 := BeginFetch(s1);
    var s3 := FirstResponse(s2, c, Status(401), false);
    assert s3.calls[c] == Call(s.sessionGeneration + 1, s.refreshGeneration, AwaitingRefresh(On(f)), 1);
    assert Placed(s, f);
    var states, events := [s, s1, s2, s3], [Start, Fetch, First(c, Status(401), false)];
    assert Continues(states, events);
    assert tasks ==> TaskOrdered(states, events);
    assert states[|events|] == s3 && WaitsForOther(s3, c);
  }

  /** The calls of a session can wait for another session's refresh exactly when one is in flight as it starts, and, if
      responses arrive as tasks, has not already succeeded. */
  lemma OtherSessionExactly(s: State, tasks: bool)
    requires Reachable(s)
    ensures CanWaitForOther(s, tasks) <==> s.refreshInFlight.Some? && !(tasks && Succeeding(s))
  {
    if CanWaitForOther(s, tasks) {
      var states: seq<State>, events: seq<Event>, c: nat :|
        && Continues(states, events) && (tasks ==> TaskOrdered(states, events)) && states[0] == s
        && |events| > 0 && events[0] == Start
        && WaitsForOther(states[|events|], c) && states[|events|].calls[c].session == s.sessionGeneration + 1;
      if s.refreshInFlight.None? || (tasks && Succeeding(s)) {
        CleanSessionWaitsForItself(states, events, c, tasks);
      }
    } else if s.refreshInFlight.Some? && !(tasks && Succeeding(s)) {
      JoinOther(s, tasks);
    }
  }

  // What waiting for another session's refresh does.

  /** The state in which a call of session 1 waits for session 0's refresh, which had or had not succeeded before. */
  function Crossed(succeededBefore: bool): State {
    var sent := FirstResponse(BeginFetch(INITIAL), 0, Status(401), false);
    var before := if succeededBefore then RefreshResponse(sent, 0, Status(204)) else sent;
    FirstResponse(BeginFetch(StartSession(before)), 1, Status(401), false)
  }

  lemma CrossedState(succeededBefore: bool)
    ensures var s := Crossed(succeededBefore);
            && s.sessionGeneration == 1 && !s.signedOut && s.refreshInFlight == Some(0)
            && s.refreshes == [Refresh(0, 0, if succeededBefore then Settled(true) else Sent)]
            && |s.calls| == 2 && s.calls[1] == Call(1, s.refreshGeneration, AwaitingRefresh(On(0)), 1)
  {
    var sent := FirstResponse(BeginFetch(INITIAL), 0, Status(401), false);
    assert sent.refreshes == [Refresh(0, 0, Sent)] && sent.refreshInFlight == Some(0);
    var before := if succeededBefore then RefreshResponse(sent, 0, Status(204)) else sent;
    assert |before.refreshes| == 1 && before.refreshes[0]
        == Refresh(0, 0, if succeededBefore then Settled(true) else Sent);
    var fetched := BeginFetch(StartSession(before));
    assert |fetched.calls| == 2 && fetched.calls[1] == Call(1, fetched.refreshGeneration, FirstSent, 1);
  }

  /** A call of session 1 repeats its request on the strength of session 0's refresh. */
  lemma OthersSuccessRepeats()
    ensures var s := RefreshFinally(Crossed(true), 0);
            && Enabled(s, Resume(1, false)) && SendsAgain(s, Resume(1, false))
            && s.calls[1].session == 1 && s.refreshes == [Refresh(0, 0, Cleared(true))]
  {
    CrossedState(true);
  }

  /** Session 0's refresh, even if the server answers it with 204, makes a call of session 1 give up on its 401
      although no refresh was ever sent for session 1. */
  lemma OthersRefreshStarves()
    ensures var s := RefreshFinally(RefreshResponse(Crossed(false), 0, Status(204)), 0);
            && Enabled(s, Resume(1, false)) && IsCurrent(s, s.calls[1].session)
            && Next(s, Resume(1, false)).calls[1].pc == Returned && Next(s, Resume(1, false)).calls[1].sends == 1
            && s.refreshes == [Refresh(0, 0, Cleared(false))] && s.calls[1].session == 1
  {
    CrossedState(false);
  }

  // A caller's discipline that closes both gaps.

  /** Sessions start with no refresh in flight. */
  ghost predicate ClearStarts(states: seq<State>, events: seq<Event>)
    requires |states| == |events| + 1
  {
    forall k: nat {:trigger events[k]} :: k < |events| && events[k] == Start ==> states[k].refreshInFlight.None?
  }

  /** Calls start outside the moment between a refresh's success and its cleanup. */
  ghost predicate ClearFetches(states: seq<State>, events: seq<Event>)
    requires |states| == |events| + 1
  {
    forall k: nat {:trigger events[k]} :: k < |events| && events[k] == Fetch ==> !Succeeding(states[k])
  }

  /** In a live session the refresh in flight is its own. */
  predicate OwnFlight(s: State) {
    s.refreshInFlight.Some? && s.refreshInFlight.value < |s.refreshes| ==>
      s.signedOut || s.refreshes[s.refreshInFlight.value].session == s.sessionGeneration
  }

  ghost predicate Apart(s: State) {
    OwnFlight(s) && forall c: nat :: c < |s.calls| ==> !WaitsForOther(s, c)
  }

  lemma StaysInSession(s: State, e: Event)
    requires Reachable(s) && Enabled(s, e) && OwnFlight(s) && (e == Start ==> s.refreshInFlight.None?)
    ensures OwnFlight(Next(s, e))
  {}

  lemma JoiningOwnFlight(s: State, e: Event)
    requires Reachable(s) && Enabled(s, e) && e.First? && OwnFlight(s)
    ensures !WaitsForOther(Next(s, e), e.i)
  {
    assert CallOk(s, s.calls[e.i]);
  }

  lemma StaysApart(s: State, e: Event, next: State)
    requires Reachable(s) && Transition(s, e, next) && Apart(s) && (e == Start ==> s.refreshInFlight.None?)
    ensures Apart(next)
  {
    StaysInSession(s, e);
    forall c: nat | c < |next.calls|
      ensures !WaitsForOther(next, c)
    {
      if e.First? && e.i == c {
        JoiningOwnFlight(s, e);
      } else if c < |s.calls| {
        OthersStaySeparate(s, e, c);
      }
    }
  }

  /** If no session starts with a refresh in flight, no call of any session ever waits for another session's. */
  lemma ClearStartsKeepApart(states: seq<State>, events: seq<Event>, i: nat)
    requires ValidRun(states, events) && ClearStarts(states, events) && i <= |events|
    ensures forall c: nat :: !WaitsForOther(states[i], c)
  {
    for k := 0 to i
      invariant Reachable(states[k]) && Apart(states[k])
    {
      StepKeepsReachable(states[k], events[k], states[k + 1]);
      StaysApart(states[k], events[k], states[k + 1]);
    }
  }

  ghost predicate NoneLate(s: State) {
    forall c: nat :: c < |s.calls| ==> NotLate(s, c)
  }

  lemma NoneBecomesLate(s: State, e: Event, next: State)
    requires Reachable(s) && Transition(s, e, next) && NoneLate(s) && (e == Fetch ==> !Succeeding(s))
    ensures NoneLate(next)
  {
    forall c: nat | c < |next.calls|
      ensures NotLate(next, c)
    {
      if c < |s.calls| {
        StaysNotLate(s, e, next, c);
      } else {
        StartsNotLate(s);
      }
    }
  }

  lemma ClearFetchesRepeatRefreshed(states: seq<State>, events: seq<Event>, i: nat, e: Event, c: nat)
    requires ValidRun(states, events) && ClearFetches(states, events) && i <= |events|
    ensures !RepeatsUnrefreshed(states[i], e, c)
  {
    for k := 0 to i
      invariant Reachable(states[k]) && NoneLate(states[k])
    {
      StepKeepsReachable(states[k], events[k], states[k + 1]);
      NoneBecomesLate(states[k], events[k], states[k + 1]);
    }
    if c < |states[i].calls| {
      assert NotLate(states[i], c);
      OnTimeIsRefreshed(states[i], e, c);
    }
  }

  /** With clear starts, and with responses that arrive as tasks or calls that start clear, a request is repeated only
      after a refresh of the call's own session since the call started, and no call waits for another session. */
  lemma DisciplineClosesGaps(states: seq<State>, events: seq<Event>, i: nat)
    requires ValidRun(states, events) && i <= |events| && ClearStarts(states, events)
    requires TaskOrdered(states, events) || ClearFetches(states, events)
    ensures forall c: nat :: !WaitsForOther(states[i], c)
    ensures forall e: Event, c: nat :: !RepeatsUnrefreshed(states[i], e, c)
  {
    ClearStartsKeepApart(states, events, i);
    forall e: Event, c: nat
      ensures !RepeatsUnrefreshed(states[i], e, c)
    {
      if TaskOrdered(states, events) {
        TaskOrderClosesGap(states, events, i, e, c);
      } else {
        ClearFetchesRepeatRefreshed(states, events, i, e, c);
      }
    }
  }
}
