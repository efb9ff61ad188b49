/** The browser's session recovery as a state machine in which any number of `fetch` calls interleave.

    A step resumes one suspended call at its `await`, runs one callback of the
    refresh promise, or is a call from outside. Every order of steps is allowed,
    including orders that the browser's own task queue would rule out. */
module SessionModel {
  import opened Wrappers

  datatype Response = Status(code: int) | NetworkFailure

  /** The refresh request and its promise chain: sent, then settled by `then`/`catch`, then cleared by `finally`. */
  datatype Phase = Sent | Settled(ok: bool) | Cleared(ok: bool)
  datatype Refresh = Refresh(session: nat, generation: nat, phase: Phase) {
    predicate Succeeded() {
      phase == Settled(true) || phase == Cleared(true)
    }
  }

  datatype Wait = Resolved(refreshed: bool) | On(refresh: nat)
  datatype Pc = FirstSent | AwaitingRefresh(wait: Wait) | SecondSent | Returned
  datatype Call = Call(session: nat, refresh: nat, pc: Pc, sends: nat)

  /** What the promise of an `endSession` waits for, and what had happened when it was called. */
  datatype Ending = Ending(waitsFor: Option<nat>, sentBefore: nat, starts: nat)

  /** The object's four fields, then what its environment holds: requests, suspended calls and promises. */
  datatype State = State(
    sessionGeneration: nat, refreshGeneration: nat, signedOut: bool, refreshInFlight: Option<nat>,
    refreshes: seq<Refresh>, calls: seq<Call>, endings: seq<Ending>,
    starts: nat, notified: nat)

  const INITIAL: State := State(0, 0, false, None, [], [], [], 0, 0)

  predicate IsCurrent(s: State, identity: nat) {
    !s.signedOut && identity == s.sessionGeneration
  }

  /** `notified` counts calls of `onUnauthorized` since the last start. */
  function StartSession(s: State): State {
    s.(signedOut := false, sessionGeneration := s.sessionGeneration + 1, starts := s.starts + 1, notified := 0)
  }

  function EndSession(s: State): State {
    s.(signedOut := true, sessionGeneration := s.sessionGeneration + 1,
       endings := s.endings + [Ending(s.refreshInFlight, |s.refreshes|, s.starts)])
  }

  function RejectSession(s: State): State {
    if s.signedOut then s else EndSession(s).(notified := s.notified + 1)
  }

  function BeginFetch(s: State): State {
    s.(calls := s.calls + [Call(s.sessionGeneration, s.refreshGeneration, FirstSent, 1)])
  }

  function SetPc(s: State, i: nat, pc: Pc): State
    requires i < |s.calls|
  {
    s.(calls := s.calls[i := s.calls[i].(pc := pc)])
  }

  /** The private `refresh`: what the caller will wait for, sending a request if none is in flight. */
  function RefreshFor(s: State, session: nat, generation: nat): (State, Wait) {
    if session != s.sessionGeneration || s.signedOut then (s, Resolved(false))
    else if generation != s.refreshGeneration then (s, Resolved(true))
    else if s.refreshInFlight.Some? then (s, On(s.refreshInFlight.value))
    else
      (s.(refreshes := s.refreshes + [Refresh(s.sessionGeneration, s.refreshGeneration, Sent)],
          refreshInFlight := Some(|s.refreshes|)),
       On(|s.refreshes|))
  }

  function FirstResponse(s: State, i: nat, response: Response, aborted: bool): State
    requires i < |s.calls|
  {
    if response != Status(401) || s.signedOut || aborted then SetPc(s, i, Returned)
    else
      var (next, wait) := RefreshFor(s, s.calls[i].session, s.calls[i].refresh);
      SetPc(next, i, AwaitingRefresh(wait))
  }

  predicate WaitOver(s: State, wait: Wait) {
    wait.Resolved? || (wait.refresh < |s.refreshes| && s.refreshes[wait.refresh].phase.Cleared?)
  }

  predicate WaitResult(s: State, wait: Wait)
    requires WaitOver(s, wait)
  {
    if wait.Resolved? then wait.refreshed else s.refreshes[wait.refresh].phase.ok
  }

  function ResumeFetch(s: State, i: nat, aborted: bool): State
    requires i < |s.calls| && s.calls[i].pc.AwaitingRefresh? && WaitOver(s, s.calls[i].pc.wait)
  {
    var call := s.calls[i];
    if !WaitResult(s, call.pc.wait) || !IsCurrent(s, call.session) || aborted then SetPc(s, i, Returned)
    else s.(calls := s.calls[i := call.(pc := SecondSent, sends := call.sends + 1)])
  }

  function SecondResponse(s: State, i: nat, response: Response, aborted: bool): State
    requires i < |s.calls|
  {
    var next := if response == Status(401) && IsCurrent(s, s.calls[i].session) && !aborted then RejectSession(s) else s;
    SetPc(next, i, Returned)
  }

  function SetPhase(s: State, r: nat, phase: Phase): State
    requires r < |s.refreshes|
  {
    s.(refreshes := s.refreshes[r := s.refreshes[r].(phase := phase)])
  }

  /** The refresh response, through `then` and `catch`. */
  function RefreshResponse(s: State, r: nat, response: Response): State
    requires r < |s.refreshes|
  {
    if response.NetworkFailure? || s.signedOut || s.refreshes[r].session != s.sessionGeneration then
      SetPhase(s, r, Settled(false))
    else if response.code == 204 then
      SetPhase(s.(refreshGeneration := s.refreshGeneration + 1), r, Settled(true))
    else SetPhase(if response.code == 401 then RejectSession(s) else s, r, Settled(false))
  }

  /** `finally`. */
  function RefreshFinally(s: State, r: nat): State
    requires r < |s.refreshes| && s.refreshes[r].phase.Settled?
  {
    SetPhase(s.(refreshInFlight := None), r, Cleared(s.refreshes[r].phase.ok))
  }

  datatype Event =
    | Start | End | Fetch
    | First(i: nat, response: Response, aborted: bool)
    | Resume(i: nat, aborted: bool)
    | Second(i: nat, response: Response, aborted: bool)
    | Answer(r: nat, response: Response)
    | Finally(r: nat)

  predicate Enabled(s: State, e: Event) {
    match e
    case First(i, _, _) => i < |s.calls| && s.calls[i].pc == FirstSent
    case Resume(i, _) => i < |s.calls| && s.calls[i].pc.AwaitingRefresh? && WaitOver(s, s.calls[i].pc.wait)
    case Second(i, _, _) => i < |s.calls| && s.calls[i].pc == SecondSent
    case Answer(r, _) => r < |s.refreshes| && s.refreshes[r].phase == Sent
    case Finally(r) => r < |s.refreshes| && s.refreshes[r].phase.Settled?
    case _ => true
  }

  function Next(s: State, e: Event): State
    requires Enabled(s, e)
  {
    match e
    case Start => StartSession(s)
    case End => EndSession(s)
    case Fetch => BeginFetch(s)
    case First(i, response, aborted) => FirstResponse(s, i, response, aborted)
    case Resume(i, aborted) => ResumeFetch(s, i, aborted)
    case Second(i, response, aborted) => SecondResponse(s, i, response, aborted)
    case Answer(r, response) => RefreshResponse(s, r, response)
    case Finally(r) => RefreshFinally(s, r)
  }

  ghost predicate Transition(s: State, e: Event, next: State) {
    Enabled(s, e) && next == Next(s, e)
  }

  /** `states[i]` is the state before `events[i]`; the object starts out fresh. */
  ghost predicate ValidRun(states: seq<State>, events: seq<Event>) {
    && |states| == |events| + 1 && states[0] == INITIAL
    && forall i {:trigger events[i]} :: 0 <= i < |events| ==> Transition(states[i], events[i], states[i + 1])
  }
}
