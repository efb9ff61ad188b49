/** What each turn of session recovery depends on, and what has to have happened before a request is repeated. */
module SessionCauses {
  import opened SessionModel
  import opened SessionTheorems
  import opened SessionCalls
  import opened Wrappers

  // One turn.

  /** The response rotates the session: a 204 to a refresh of the live session that sent it. */
  predicate Rotates(s: State, e: Event, r: nat) {
    && e == Answer(r, Status(204)) && r < |s.refreshes|
    && !s.signedOut && s.refreshes[r].session == s.sessionGeneration
  }

  /** A refresh succeeds, and the generation advances by one, exactly with a 204 to the live session that sent it; any
      other response settles the refresh as failed. */
  lemma RotatesExactly(s: State, e: Event)
    requires Enabled(s, e)
    ensures e.Answer? ==> Next(s, e).refreshes[e.r].phase == Settled(Rotates(s, e, e.r))
    ensures Next(s, e).refreshGeneration == s.refreshGeneration + if e.Answer? && Rotates(s, e, e.r) then 1 else 0
    ensures forall r: nat :: r < |s.refreshes| ==>
                               (Next(s, e).refreshes[r].Succeeded() <==> s.refreshes[r].Succeeded() || Rotates(s, e, r))
    ensures |s.refreshes| <= |Next(s, e).refreshes| <= |s.refreshes| + 1
    ensures |Next(s, e).refreshes| > |s.refreshes| ==> Next(s, e).refreshes[|s.refreshes|].phase == Sent
  {}

  /** The first response asks for a refresh: an unaborted 401 while signed in. */
  predicate Asks(s: State, e: Event) {
    e.First? && e.response == Status(401) && !e.aborted && !s.signedOut
  }

  /** A call of a session that is over is told so; one whose generation has been rotated goes on at once; any other
      waits for the refresh in flight, which is sent for it if there is none. */
  lemma FirstTurnsExactly(s: State, e: Event)
    requires Enabled(s, e) && e.First?
    ensures var call, next := s.calls[e.i], Next(s, e);
            var current, same := call.session == s.sessionGeneration, call.refresh == s.refreshGeneration;
            var sends := Asks(s, e) && current && same && s.refreshInFlight == None;
            && (next.calls[e.i].pc == Returned <==> !Asks(s, e))
            && (next.calls[e.i].pc == AwaitingRefresh(Resolved(false)) <==> Asks(s, e) && !current)
            && (next.calls[e.i].pc == AwaitingRefresh(Resolved(true)) <==> Asks(s, e) && current && !same)
            && (forall r: nat :: next.calls[e.i].pc == AwaitingRefresh(On(r)) <==>
                                   && Asks(s, e) && current && same
                                   && s.refreshInFlight in {Some(r), None} && (s.refreshInFlight == None ==>
                                                                                 r == |s.refreshes|))
            && next == s.(calls := s.calls[e.i := call.(pc := next.calls[e.i].pc)],
                          refreshes := next.refreshes, refreshInFlight := next.refreshInFlight)
            && next.refreshes == s.refreshes + (if sends then [Refresh(call.session, call.refresh, Sent)] else [])
            && next.refreshInFlight == (if sends then Some(|s.refreshes|) else s.refreshInFlight)
  {}

  /** The refresh that the call waited for, or did not have to wait for, turned out well. */
  predicate WaitedWell(s: State, call: Call) {
    && call.pc.AwaitingRefresh?
    && match call.pc.wait
       case Resolved(refreshed) => refreshed
       case On(r) => r < |s.refreshes| && s.refreshes[r].phase == Cleared(true)
  }

  /** The request is sent again exactly if the refresh went well, the call's session is the live one and the caller has
      not aborted; otherwise the call returns. */
  lemma ResumeTurnsExactly(s: State, e: Event)
    requires Enabled(s, e) && e.Resume?
    ensures var call, next := s.calls[e.i], Next(s, e);
            var again := WaitedWell(s, call) && !s.signedOut && call.session == s.sessionGeneration && !e.aborted;
            && (SendsAgain(s, e) <==> again)
            && next.calls[e.i] == (if again then Call(call.session, call.refresh, SecondSent, call.sends + 1)
                                   else Call(call.session, call.refresh, Returned, call.sends))
            && next == s.(calls := s.calls[e.i := next.calls[e.i]])
  {}

  /** What ends the live session, called from outside or for a 401. */
  predicate Ended(s: State, next: State) {
    && next.signedOut && next.sessionGeneration == s.sessionGeneration + 1
    && next.endings == s.endings + [Ending(s.refreshInFlight, |s.refreshes|, s.starts)]
  }

  /** The second response always ends the call, and an unaborted 401 to the live session also ends the session. */
  lemma SecondTurnsExactly(s: State, e: Event)
    requires Enabled(s, e) && e.Second?
    ensures var call, next := s.calls[e.i], Next(s, e);
            && next.calls == s.calls[e.i := Call(call.session, call.refresh, Returned, call.sends)]
            && if e.response == Status(401) && !e.aborted && !s.signedOut && call.session == s.sessionGeneration then
                 Ended(s, next) && next.notified == s.notified + 1
               else next == s.(calls := next.calls)
  {}

  /** A refresh response settles that refresh; a 401 to the live session that sent it also ends the session. */
  lemma AnswerTurnsExactly(s: State, e: Event)
    requires Enabled(s, e) && e.Answer?
    ensures var next, live := Next(s, e), !s.signedOut && s.refreshes[e.r].session == s.sessionGeneration;
            && next.refreshes == s.refreshes[e.r := s.refreshes[e.r].(phase := Settled(Rotates(s, e, e.r)))]
            && next.calls == s.calls && next.refreshInFlight == s.refreshInFlight && next.starts == s.starts
            && if e.response == Status(401) && live then Ended(s, next) && next.notified == s.notified + 1
               else next == s.(refreshes := next.refreshes, refreshGeneration := next.refreshGeneration)
  {}

  /** Cleaning up clears the flight; signing in and out always starts another session generation. */
  lemma OtherTurnsExactly(s: State, e: Event)
    requires Enabled(s, e) && (e.Finally? || e.Start? || e.End? || e.Fetch?)
    ensures var next := Next(s, e);
            && (e.Finally? ==>
                  && next == s.(refreshInFlight := None, refreshes := next.refreshes)
                  && var refresh := s.refreshes[e.r];
                  next.refreshes == s.refreshes[e.r := refresh.(phase := Cleared(refresh.phase.ok))])
            && (e.Start? ==>
                  next == s.(signedOut := false, sessionGeneration := s.sessionGeneration + 1, starts := s.starts + 1,
                  notified := 0))
            && (e.End? ==>
                  && Ended(s, next)
                  && next == s.(signedOut := true, sessionGeneration := next.sessionGeneration,
                     endings := next.endings))
            && (e.Fetch? ==>
                  next == s.(calls := s.calls + [Call(s.sessionGeneration, s.refreshGeneration, FirstSent, 1)]))
  {}

  // Over runs.

  ghost predicate RotatedAtStep(states: seq<State>, events: seq<Event>, k: nat, r: nat) {
    k < |events| && k < |states| && Rotates(states[k], events[k], r)
  }

  /** A refresh that has succeeded was answered with a 204 while its session was live. */
  lemma {:induction false} SuccessWasRotation(states: seq<State>, events: seq<Event>, i: nat, r: nat)
    requires ValidRun(states, events) && i <= |events|
    requires r < |states[i].refreshes| && states[i].refreshes[r].Succeeded()
    ensures exists k: nat :: k < i && RotatedAtStep(states, events, k, r)
  {
    if i > 0 {
      assert Transition(states[i - 1], events[i - 1], states[i]);
      RotatesExactly(states[i - 1], events[i - 1]);
      if RotatedAtStep(states, events, i - 1, r) {
      } else {
        SuccessWasRotation(states, events, i - 1, r);
      }
    }
  }

  /** The call was started by that event. */
  predicate StartedAt(states: seq<State>, events: seq<Event>, f: nat, c: nat) {
    f < |events| && f < |states| && events[f] == Fetch && |states[f].calls| == c
  }

  lemma StepKeepsStart(s: State, e: Event, next: State, c: nat)
    requires Transition(s, e, next) && c < |next.calls|
    ensures if c < |s.calls| then
              next.calls[c].session == s.calls[c].session && next.calls[c].refresh == s.calls[c].refresh
            else e == Fetch && c == |s.calls| && next.calls[c].session == s.sessionGeneration
                 && next.calls[c].refresh == s.refreshGeneration
  {}

  /** Every call was started in the session and generation it carries. */
  lemma {:induction false} StartOf(states: seq<State>, events: seq<Event>, i: nat, c: nat) returns (f: nat)
    requires ValidRun(states, events) && i <= |events| && c < |states[i].calls|
    ensures f < i && StartedAt(states, events, f, c)
    ensures states[i].calls[c].session == states[f].sessionGeneration
    ensures states[i].calls[c].refresh == states[f].refreshGeneration
  {
    StepKeepsStart(states[i - 1], events[i - 1], states[i], c);
    if c < |states[i - 1].calls| {
      f := StartOf(states, events, i - 1, c);
    } else {
      f := i - 1;
    }
  }

  lemma {:induction false} GenerationsGrow(states: seq<State>, events: seq<Event>, i: nat, j: nat)
    requires ValidRun(states, events) && i <= j <= |events|
    ensures states[i].refreshGeneration <= states[j].refreshGeneration
    decreases j
  {
    if i < j {
      GenerationsGrow(states, events, i, j - 1);
      assert Transition(states[j - 1], events[j - 1], states[j]);
      RotatesExactly(states[j - 1], events[j - 1]);
    }
  }

  lemma {:induction false} SameRefresh(states: seq<State>, events: seq<Event>, i: nat, j: nat, r: nat)
    requires ValidRun(states, events) && i <= j <= |events| && r < |states[i].refreshes|
    ensures r < |states[j].refreshes| && states[j].refreshes[r].session == states[i].refreshes[r].session
    ensures states[j].refreshes[r].generation == states[i].refreshes[r].generation
    decreases j
  {
    if i < j {
      SameRefresh(states, events, i, j - 1, r);
      StepKeepsSent(states[j - 1], events[j - 1], states[j], r);
    }
  }

  /** A rotation uses up the generation it finds. */
  lemma RotationUses(states: seq<State>, events: seq<Event>, k: nat, i: nat, r: nat)
    requires ValidRun(states, events) && k < i <= |events| && RotatedAtStep(states, events, k, r)
    ensures r < |states[i].refreshes| && states[i].refreshes[r].generation == states[k].refreshGeneration
    ensures states[k + 1].refreshGeneration == states[k].refreshGeneration + 1
  {
    RunFlight(states, events, k);
    assert Transition(states[k], events[k], states[k + 1]);
    assert Placed(states[k], r);
    RotatesExactly(states[k], events[k]);
    SameRefresh(states, events, k, i, r);
  }

  /** Rotations and starts of calls are in the order of their generations. */
  lemma RotationOrder(states: seq<State>, events: seq<Event>, i: nat, f: nat, k: nat, r: nat, c: nat)
    requires ValidRun(states, events) && f < i <= |events| && k < i
    requires StartedAt(states, events, f, c) && RotatedAtStep(states, events, k, r)
    ensures r < |states[i].refreshes|
    ensures f < k <==> states[f].refreshGeneration <= states[i].refreshes[r].generation
  {
    RotationUses(states, events, k, i, r);
    if f < k {
      GenerationsGrow(states, events, f, k);
    } else {
      GenerationsGrow(states, events, k + 1, f);
    }
  }

  /** The rotation allows the call to repeat: it rotated the call's session after the call started, or the call joined
      the refresh although its rotation came before the call's start. */
  predicate Allows(s: State, call: Call, f: nat, k: nat, r: nat) {
    && r < |s.refreshes| && call.pc.AwaitingRefresh?
    && if f < k then s.refreshes[r].session == call.session else call.pc.wait == On(r)
  }

  ghost predicate AllowedBy(states: seq<State>, events: seq<Event>, i: nat, c: nat, f: nat, k: nat, r: nat)
    requires i < |states| && c < |states[i].calls|
  {
    && f < i && StartedAt(states, events, f, c) && k < i && RotatedAtStep(states, events, k, r)
    && Allows(states[i], states[i].calls[c], f, k, r)
  }

  /** The second request goes out only while the call's session is live, and only after a 204 was answered to a refresh
      whose session was live: a refresh of the call's own session, answered after the call started, or the one the call
      waited for, answered before. */
  lemma SecondRequestIsJustified(states: seq<State>, events: seq<Event>, i: nat)
    requires ValidRun(states, events) && i < |events| && Transition(states[i], events[i], states[i + 1])
    requires SendsAgain(states[i], events[i])
    ensures IsCurrent(states[i], states[i].calls[events[i].i].session)
    ensures exists f: nat, k: nat, r: nat :: AllowedBy(states, events, i, events[i].i, f, k, r)
  {
    var s, c := states[i], events[i].i;
    RunCalls(states, events, i);
    RepeatIsJustified(s, events[i]);
    var f := StartOf(states, events, i, c);
    var r: nat;
    if JoinedSuccess(s, s.calls[c]) {
      r := s.calls[c].pc.wait.refresh;
    } else {
      r :| OwnRefresh(s, s.calls[c], r);
    }
    SuccessWasRotation(states, events, i, r);
    var k: nat :| k < i && RotatedAtStep(states, events, k, r);
    RotationOrder(states, events, i, f, k, r, c);
    assert AllowedBy(states, events, i, c, f, k, r);
  }
}
