/**
 * One monitoring session (`startMonitoringSession`): dial the target, send
 * the subscription frame, then repeatedly arm the read deadline and wait for
 * the next frame. The network calls are abstracted to their results: the
 * session consumes a finite trace of step results, one per call, in the order
 * dial, subscribe, then (arm deadline, read) per loop iteration. The first
 * failing call ends the session with an outcome naming that call; there is no
 * successful exit. When the trace runs out without a failure the session is
 * still listening.
 */
module Session {
  import opened Wrappers

  /** The single text frame sent after dialling: a subscription to the global timeline. */
  const SubscribePayload: string :=
    "{\"type\":\"connect\",\"body\":{\"channel\":\"globalTimeline\",\"id\":\"1\",\"params\":{\"withRenotes\":true,\"minimize\":true}}}"

  /** The result of one network call; `cause` is the error Go would wrap. */
  datatype StepResult = Ok | Err(cause: string)

  /** Why a session ended; each tag names the call that failed. */
  datatype Outcome =
    | ConnectFailed(cause: string)
    | SubscribeFailed(cause: string)
    | DeadlineSetFailed(cause: string)
    | ReadFailedOrTimedOut(cause: string)

  datatype SessionEnd = Listening | Ended(outcome: Outcome)

  /** The calls a session makes on the connection, in order. */
  datatype Op =
    | Dial(url: string)
    | WriteText(payload: string)
    | SetReadDeadline(timeoutSeconds: int)  // now + timeout, armed afresh each iteration
    | ReadMessage
    | Close

  datatype SessionRun = SessionRun(end: SessionEnd, ops: seq<Op>, closed: bool)

  /** The call that consumes step result number `i`. */
  function OpAt(url: string, timeout: int, i: nat): Op {
    if i == 0 then Dial(url)
    else if i == 1 then WriteText(SubscribePayload)
    else if i % 2 == 0 then SetReadDeadline(timeout)
    else ReadMessage
  }

  /** The outcome when step result number `i` is the first failure. */
  function OutcomeAt(i: nat, cause: string): Outcome {
    if i == 0 then ConnectFailed(cause)
    else if i == 1 then SubscribeFailed(cause)
    else if i % 2 == 0 then DeadlineSetFailed(cause)
    else ReadFailedOrTimedOut(cause)
  }

  /** The first `n` calls of a session. */
  function Attempted(url: string, timeout: int, n: nat): seq<Op> {
    seq(n, i requires 0 <= i < n => OpAt(url, timeout, i))
  }

  predicate AllOk(results: seq<StepResult>) {
    forall j :: 0 <= j < |results| ==> results[j].Ok?
  }

  /** The position of the first failing step result, if any. */
  function FirstFailure(results: seq<StepResult>): (f: Option<nat>)
    ensures f.None? <==> AllOk(results)
    ensures f.Some? ==> f.value < |results| && results[f.value].Err? && AllOk(results[..f.value])
  {
    if results == [] then None
    else if results[0].Err? then Some(0)
    else match FirstFailure(results[1..])
      case None => None
      case Some(k) =>
        assert results[..k + 1] == [results[0]] + results[1..][..k];
        Some(k + 1)
  }

  /** How the session stands once the trace has been consumed. */
  function EndOf(results: seq<StepResult>): SessionEnd {
    match FirstFailure(results)
    case None => Listening
    case Some(f) => Ended(OutcomeAt(f, results[f].cause))
  }

  /** The calls made: all of them up to and including the first failing one. */
  function CallsOf(url: string, timeout: int, results: seq<StepResult>): seq<Op> {
    match FirstFailure(results)
    case None => Attempted(url, timeout, |results|)
    case Some(f) => Attempted(url, timeout, f + 1)
  }

  /**
   * The session as a whole: its calls, followed by the deferred close when
   * the session ended after a successful dial.
   */
  function ExpectedSession(url: string, timeout: int, results: seq<StepResult>): SessionRun {
    var end := EndOf(results);
    var closes := end.Ended? && !end.outcome.ConnectFailed?;
    SessionRun(end, CallsOf(url, timeout, results) + (if closes then [Close] else []), closes)
  }

  lemma FirstFailureAt(results: seq<StepResult>, k: nat)
    requires k < |results| && results[k].Err? && AllOk(results[..k])
    ensures FirstFailure(results) == Some(k)
  {
  }

  lemma AttemptedNext(url: string, timeout: int, n: nat)
    ensures Attempted(url, timeout, n + 1) == Attempted(url, timeout, n) + [OpAt(url, timeout, n)]
  {
  }

  /**
   * `startMonitoringSession` over a trace of step results. `dialed` stands for
   * the `defer c.Close()` registered after a successful dial: the close runs
   * once, at the single exit, on every path that got past the dial.
   */
  method RunSession(url: string, timeout: int, results: seq<StepResult>)
    returns (end: SessionEnd, ops: seq<Op>, closed: bool)
    ensures SessionRun(end, ops, closed) == ExpectedSession(url, timeout, results)
  {
    end, ops, closed := Listening, [], false;
    var dialed := false;
    if |results| > 0 {
      ops := [Dial(url)];
      if results[0].Err? {
        end := Ended(ConnectFailed(results[0].cause));
        FirstFailureAt(results, 0);
      } else {
        dialed := true;
        if |results| > 1 {
          AttemptedNext(url, timeout, 1);
          ops := ops + [WriteText(SubscribePayload)];
          if results[1].Err? {
            end := Ended(SubscribeFailed(results[1].cause));
            FirstFailureAt(results, 1);
          } else {
            end, ops := Listen(url, timeout, results);
          }
        } else {
          assert AllOk(results);
        }
      }
    }
    // The deferred close.
    if dialed && end.Ended? {
      ops := ops + [Close];
      closed := true;
    }
  }

  /**
   * The `for {}` loop of a session: arm the deadline, then read; the first
   * failure of either ends the loop, a successful read goes round again.
   */
  method Listen(url: string, timeout: int, results: seq<StepResult>)
    returns (end: SessionEnd, ops: seq<Op>)
    requires |results| >= 2 && results[0].Ok? && results[1].Ok?
    ensures end == EndOf(results) && ops == CallsOf(url, timeout, results)
    ensures end.Ended? ==> !end.outcome.ConnectFailed? && !end.outcome.SubscribeFailed?
  {
    end, ops := Listening, Attempted(url, timeout, 2);
    var i := 2;
    assert results[..2] == [results[0], results[1]];
    while i < |results| && end == Listening
      invariant 2 <= i <= |results| + 1 && i % 2 == 0
      invariant 2 <= |ops| <= |results| && ops == Attempted(url, timeout, |ops|)
      invariant end == Listening ==> AllOk(results[..|ops|]) && |ops| == Min(i, |results|)
      invariant end.Ended? ==>
                  FirstFailure(results) == Some(|ops| - 1)
                  && end == Ended(OutcomeAt(|ops| - 1, results[|ops| - 1].cause))
    {
      Consume(url, timeout, results, ops);
      ops := ops + [SetReadDeadline(timeout)];
      if results[i].Err? {
        end := Ended(DeadlineSetFailed(results[i].cause));
      } else if i + 1 < |results| {
        Consume(url, timeout, results, ops);
        ops := ops + [ReadMessage];
        if results[i + 1].Err? {
          end := Ended(ReadFailedOrTimedOut(results[i + 1].cause));
        }
      }
      i := i + 2;
    }
    if end == Listening {
      assert results[..|results|] == results;
    }
  }

  /**
   * One call of a session that has been healthy so far: its result either
   * extends the healthy prefix or is the first failure.
   */
  lemma Consume(url: string, timeout: int, results: seq<StepResult>, ops: seq<Op>)
    requires |ops| < |results| && ops == Attempted(url, timeout, |ops|) && AllOk(results[..|ops|])
    ensures ops + [OpAt(url, timeout, |ops|)] == Attempted(url, timeout, |ops| + 1)
    ensures results[|ops|].Ok? ==> AllOk(results[..|ops| + 1])
    ensures results[|ops|].Err? ==> FirstFailure(results) == Some(|ops|)
  {
    AttemptedNext(url, timeout, |ops|);
    HealthyPrefixGrows(results, |ops|);
    if results[|ops|].Err? {
      FirstFailureAt(results, |ops|);
    }
  }

  lemma HealthyPrefixGrows(results: seq<StepResult>, n: nat)
    requires n < |results| && AllOk(results[..n])
    ensures results[n].Ok? ==> AllOk(results[..n + 1])
  {
    assert results[..n + 1] == results[..n] + [results[n]];
  }

  /** The call whose failure ended a session: the last one before the deferred close. */
  function FailedCall(run: SessionRun): Op
    requires run.ops != [] && (run.closed ==> |run.ops| >= 2)
  {
    if run.closed then run.ops[|run.ops| - 2] else run.ops[|run.ops| - 1]
  }

  /** A failed dial is the whole session: no subscription, nothing to close. */
  lemma ConnectFailureOnlyDials(url: string, timeout: int, results: seq<StepResult>)
    requires |results| > 0 && results[0].Err?
    ensures ExpectedSession(url, timeout, results) ==
              SessionRun(Ended(ConnectFailed(results[0].cause)), [Dial(url)], false)
  {
  }

  /**
   * An ended session names the call that failed: ConnectFailed for the dial,
   * SubscribeFailed for the subscription frame, DeadlineSetFailed for arming
   * the deadline and ReadFailedOrTimedOut for the read; the cause is that
   * call's error.
   */
  lemma OutcomeNamesFailedCall(url: string, timeout: int, results: seq<StepResult>)
    requires ExpectedSession(url, timeout, results).end.Ended?
    ensures var run := ExpectedSession(url, timeout, results);
            var o := run.end.outcome;
            run.ops != [] && (run.closed ==> |run.ops| >= 2)
            && (o.ConnectFailed? <==> FailedCall(run).Dial?)
            && (o.SubscribeFailed? <==> FailedCall(run).WriteText?)
            && (o.DeadlineSetFailed? <==> FailedCall(run).SetReadDeadline?)
            && (o.ReadFailedOrTimedOut? <==> FailedCall(run).ReadMessage?)
            && o.cause == results[|run.ops| - (if run.closed then 2 else 1)].cause
  {
  }

  /**
   * Ordering of the calls: the dial comes first, the subscription second,
   * every read directly follows the arming of its deadline, and only the
   * final call may be the close, which happens exactly when the session
   * ended after a successful dial.
   */
  lemma CallOrder(url: string, timeout: int, results: seq<StepResult>)
    ensures var run := ExpectedSession(url, timeout, results);
            (results != [] ==> run.ops[0] == Dial(url))
            && (forall i :: 1 <= i < |run.ops| && run.ops[i].WriteText? ==> i == 1 && run.ops[i].payload == SubscribePayload)
            && (forall i :: 0 <= i < |run.ops| && run.ops[i] == ReadMessage ==> i >= 3 && run.ops[i - 1] == SetReadDeadline(timeout))
            && (forall i :: 0 <= i < |run.ops| && run.ops[i] == Close ==> i == |run.ops| - 1)
            && (run.closed <==> Close in run.ops)
            && (run.closed <==> run.end.Ended? && !run.end.outcome.ConnectFailed?)
  {
  }

  lemma {:induction false} FirstFailureAppend(results: seq<StepResult>, more: seq<StepResult>)
    ensures FirstFailure(results).Some? ==> FirstFailure(results + more) == FirstFailure(results)
    ensures FirstFailure(results).None? && FirstFailure(more).Some? ==>
              FirstFailure(results + more) == Some(|results| + FirstFailure(more).value)
    ensures FirstFailure(results).None? && FirstFailure(more).None? ==> FirstFailure(results + more).None?
  {
    var all := results + more;
    match FirstFailure(results)
    case Some(f) =>
      assert all[..f] == results[..f];
      FirstFailureAt(all, f);
    case None =>
      match FirstFailure(more)
      case Some(g) =>
        assert all[..|results| + g] == results + more[..g];
        assert all[|results| + g] == more[g];
        FirstFailureAt(all, |results| + g);
      case None =>
        assert forall j :: |results| <= j < |all| ==> all[j] == more[j - |results|];
  }

  /**
   * A session ends on its first failure: once it has ended, whatever the
   * trace holds afterwards is never consumed.
   */
  lemma EndsOnFirstFailure(url: string, timeout: int, results: seq<StepResult>, more: seq<StepResult>)
    requires ExpectedSession(url, timeout, results).end.Ended?
    ensures ExpectedSession(url, timeout, results + more) == ExpectedSession(url, timeout, results)
  {
    FirstFailureAppend(results, more);
    var f := FirstFailure(results).value;
    assert (results + more)[f] == results[f];
  }

  /**
   * There is no successful exit: the session is still listening exactly when
   * every call so far succeeded, and then every result has been spent on a
   * call and the connection, if one was dialled, has not been closed. Extending such a trace only adds
   * calls after the ones already made.
   */
  lemma ListeningWhileHealthy(url: string, timeout: int, results: seq<StepResult>, more: seq<StepResult>)
    ensures ExpectedSession(url, timeout, results).end == Listening <==> AllOk(results)
    ensures AllOk(results) ==>
              var run := ExpectedSession(url, timeout, results);
              |run.ops| == |results| && !run.closed
              && ExpectedSession(url, timeout, results + more).ops[..|results|] == run.ops
  {
  }

  function Min(a: int, b: int): int {
    if a < b then a else b
  }
}
