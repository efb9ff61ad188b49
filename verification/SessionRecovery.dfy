/** The recovery object itself: its methods, cut at every `await`, assign its four fields one statement at a time. */
module SessionRecovery {
  import opened SessionModel
  import opened Wrappers

  /** What the object cannot see: the requests and promises it has created, and what `fetch` calls are suspended on. */
  class Browser {
    var refreshes: seq<Refresh>
    var calls: seq<Call>
    var endings: seq<Ending>
    var starts: nat
    var notified: nat

    constructor ()
      ensures refreshes == [] && calls == [] && endings == [] && starts == 0 && notified == 0
    {
      refreshes, calls, endings, starts, notified := [], [], [], 0, 0;
    }

    method Suspend(i: nat, pc: Pc)
      requires i < |calls|
      modifies this`calls
      ensures calls == old(calls)[i := old(calls[i]).(pc := pc)]
    {
      calls := calls[i := calls[i].(pc := pc)];
    }

    method Settle(r: nat, phase: Phase)
      requires r < |refreshes|
      modifies this`refreshes
      ensures refreshes == old(refreshes)[r := old(refreshes[r]).(phase := phase)]
    {
      refreshes := refreshes[r := refreshes[r].(phase := phase)];
    }
  }

  class PersonSessionRecovery {
    const browser: Browser
    var sessionGeneration: nat
    var refreshGeneration: nat
    var signedOut: bool
    /** The promise in flight, as the position of its request. */
    var refreshInFlight: Option<nat>

    constructor (browser: Browser)
      requires browser.refreshes == [] && browser.calls == [] && browser.endings == []
      requires browser.starts == 0 && browser.notified == 0
      ensures this.browser == browser && View() == INITIAL
    {
      this.browser := browser;
      sessionGeneration, refreshGeneration, signedOut, refreshInFlight := 0, 0, false, None;
    }

    function View(): State
      reads this, browser
    {
      State(sessionGeneration, refreshGeneration, signedOut, refreshInFlight,
            browser.refreshes, browser.calls, browser.endings, browser.starts, browser.notified)
    }

    method StartSession()
      modifies this, browser
      ensures View() == SessionModel.StartSession(old(View()))
    {
      signedOut := false;
      sessionGeneration := sessionGeneration + 1;
      browser.starts, browser.notified := browser.starts + 1, 0;
    }

    /** Answers the promise to wait for; None is one that has already resolved. */
    method EndSession() returns (promise: Option<nat>)
      modifies this, browser
      ensures View() == SessionModel.EndSession(old(View()))
      ensures promise == old(refreshInFlight)
    {
      signedOut := true;
      sessionGeneration := sessionGeneration + 1;
      promise := refreshInFlight;
      browser.endings := browser.endings + [Ending(promise, |browser.refreshes|, browser.starts)];
    }

    method IsCurrent(identity: nat) returns (current: bool)
      ensures current <==> SessionModel.IsCurrent(View(), identity)
    {
      current := !signedOut && identity == sessionGeneration;
    }

    method RejectSession()
      modifies this, browser
      ensures View() == SessionModel.RejectSession(old(View()))
    {
      if signedOut {
        return;
      }
      var _ := EndSession();
      browser.notified := browser.notified + 1;
    }

    /** `fetch`, up to the first `await`. */
    method Fetch()
      modifies browser
      ensures View() == BeginFetch(old(View()))
    {
      var requestSession := sessionGeneration;
      var requestRefresh := refreshGeneration;
      browser.calls := browser.calls + [Call(requestSession, requestRefresh, FirstSent, 1)];
    }

    /** `fetch`, from the first response up to the second `await`. */
    method FetchAnswered(i: nat, response: Response, aborted: bool)
      requires i < |browser.calls|
      modifies this, browser
      ensures View() == FirstResponse(old(View()), i, response, aborted)
    {
      if response != Status(401) || signedOut || aborted {
        browser.Suspend(i, Returned);
        return;
      }
      var refreshed := Refresh(browser.calls[i].session, browser.calls[i].refresh);
      browser.Suspend(i, AwaitingRefresh(refreshed));
    }

    /** `fetch`, from the end of the refresh up to the third `await`. */
    method FetchRefreshed(i: nat, aborted: bool)
      requires i < |browser.calls| && browser.calls[i].pc.AwaitingRefresh? && WaitOver(View(), browser.calls[i].pc.wait)
      modifies browser
      ensures View() == ResumeFetch(old(View()), i, aborted)
    {
      var call := browser.calls[i];
      var refreshed := WaitResult(View(), call.pc.wait);
      var current := IsCurrent(call.session);
      if !refreshed || !current || aborted {
        browser.Suspend(i, Returned);
        return;
      }
      browser.calls := browser.calls[i := call.(pc := SecondSent, sends := call.sends + 1)];
    }

    /** `fetch`, from the second response to its return. */
    method FetchRetried(i: nat, response: Response, aborted: bool)
      requires i < |browser.calls|
      modifies this, browser
      ensures View() == SecondResponse(old(View()), i, response, aborted)
    {
      var current := IsCurrent(browser.calls[i].session);
      if response == Status(401) && current && !aborted {
        RejectSession();
      }
      browser.Suspend(i, Returned);
    }

    method Refresh(requestSession: nat, requestRefresh: nat) returns (promise: Wait)
      modifies this, browser
      ensures (View(), promise) == RefreshFor(old(View()), requestSession, requestRefresh)
    {
      if requestSession != sessionGeneration || signedOut {
        return Resolved(false);
      }
      if requestRefresh != refreshGeneration {
        return Resolved(true);
      }
      if refreshInFlight.Some? {
        return On(refreshInFlight.value);
      }
      var refreshSession := sessionGeneration;
      refreshInFlight := Some(|browser.refreshes|);
      browser.refreshes := browser.refreshes + [SessionModel.Refresh(refreshSession, refreshGeneration, Sent)];
      return On(refreshInFlight.value);
    }

    /** The `then` and `catch` callbacks of the refresh request. */
    method RefreshAnswered(r: nat, response: Response)
      requires r < |browser.refreshes|
      modifies this, browser
      ensures View() == RefreshResponse(old(View()), r, response)
    {
      var ok := false;
      if response.Status? && !signedOut && browser.refreshes[r].session == sessionGeneration {
        if response.code == 204 {
          refreshGeneration := refreshGeneration + 1;
          ok := true;
        } else if response.code == 401 {
          RejectSession();
        }
      }
      browser.Settle(r, Settled(ok));
    }

    /** The `finally` callback. */
    method RefreshCleared(r: nat)
      requires r < |browser.refreshes| && browser.refreshes[r].phase.Settled?
      modifies this, browser
      ensures View() == RefreshFinally(old(View()), r)
    {
      refreshInFlight := None;
      browser.Settle(r, Cleared(browser.refreshes[r].phase.ok));
    }

    /** One turn of the event loop. */
    method Turn(e: Event)
      requires Enabled(View(), e)
      modifies this, browser
      ensures Transition(old(View()), e, View())
    {
      match e
      case Start => StartSession();
      case End => var _ := EndSession();
      case Fetch => Fetch();
      case First(i, response, aborted) => FetchAnswered(i, response, aborted);
      case Resume(i, aborted) => FetchRefreshed(i, aborted);
      case Second(i, response, aborted) => FetchRetried(i, response, aborted);
      case Answer(r, response) => RefreshAnswered(r, response);
      case Finally(r) => RefreshCleared(r);
    }
  }
}
