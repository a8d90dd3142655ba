/**
 * The watchdog's `main`: resolve the settings once, then repeat forever one
 * cycle of session, error report, recovery command, flush and cooldown pause.
 * Telemetry, logging and sleeping are recorded as abstract actions on a trace.
 */
module Supervisor {
  import opened Wrappers
  import opened Config
  import opened Target
  import opened Cooldown
  import opened Session
  import opened Recovery

  /** What the loop runs with: fixed before the first cycle. */
  datatype Settings = Settings(targetURL: string, timeout: int, cooldownSeconds: int, command: string)

  datatype Action =
    | Monitor(ops: seq<Op>, end: SessionEnd)  // one call of startMonitoringSession
    | CaptureError(outcome: Outcome)          // the session's error, reported at error level
    | Command(event: CommandEvent)            // executeCommandAndReport
    | Flush                                   // waiting for telemetry delivery
    | Sleep(seconds: int)                     // the cooldown pause

  /**
   * Startup after the file has been parsed: resolve the target (a failure is
   * fatal to the process) and compute the effective cooldown. The idle timeout
   * is taken as configured, without a default.
   */
  method Configure(cfg: Config) returns (r: Result<Settings, string>)
    ensures r.Failure? <==> cfg.target.url == "" && cfg.target.domain == ""
    ensures r.Failure? ==> r.error == "Configuration Error: " + MissingTargetError
    ensures r.Success? ==>
              r.value.targetURL == GetTargetURL(cfg).url && r.value.targetURL != ""
              && r.value.timeout == cfg.timeout && r.value.command == cfg.command
    ensures r.Success? ==>
              r.value.cooldownSeconds > 0
              && (cfg.cooldown <= 0 ==> r.value.cooldownSeconds == DefaultCooldownSeconds)
              && (cfg.cooldown > 0 ==> r.value.cooldownSeconds == cfg.cooldown)
  {
    var target := GetTargetURL(cfg);
    if target.err.Some? {
      return Failure("Configuration Error: " + target.err.value);
    }
    ResolutionFailsIff(cfg);
    var cooldown := EffectiveCooldown(cfg.cooldown);
    r := Success(Settings(target.url, cfg.timeout, cooldown, cfg.command));
  }

  function CommandActions(events: seq<CommandEvent>): (actions: seq<Action>)
    ensures |actions| == |events|
    ensures forall i :: 0 <= i < |events| ==> actions[i] == Command(events[i])
  {
    if events == [] then [] else [Command(events[0])] + CommandActions(events[1..])
  }

  /**
   * What one cycle does. A session that is still listening holds the loop:
   * nothing follows it. An ended session is followed by its error report,
   * the recovery command, a flush and the cooldown pause.
   */
  function CycleActions(settings: Settings, session: seq<StepResult>, run: CommandRun): seq<Action> {
    var s := ExpectedSession(settings.targetURL, settings.timeout, session);
    [Monitor(s.ops, s.end)]
    + if s.end.Listening? then []
      else [CaptureError(s.end.outcome)]
           + CommandActions(ExecuteCommandAndReport(settings.command, run))
           + [Flush, Sleep(settings.cooldownSeconds)]
  }

  /** One pass of the `for {}` loop, appended to the trace of what happened so far. */
  method Cycle(settings: Settings, trace: seq<Action>, session: seq<StepResult>, run: CommandRun)
    returns (trace': seq<Action>, finished: bool)
    ensures trace' == trace + CycleActions(settings, session, run)
    ensures finished <==> ExpectedSession(settings.targetURL, settings.timeout, session).end.Ended?
  {
    var end, ops, closed := RunSession(settings.targetURL, settings.timeout, session);
    trace' := trace + [Monitor(ops, end)];
    finished := end.Ended?;
    if finished {
      trace' := trace' + [CaptureError(end.outcome)];
      trace' := trace' + CommandActions(ExecuteCommandAndReport(settings.command, run));
      trace' := trace' + [Flush];
      trace' := trace' + [Sleep(settings.cooldownSeconds)];
    }
  }

  predicate IsCommandAttempt(a: Action) {
    a.Command? && IsAttempt(a.event)
  }

  function CountCommandAttempts(actions: seq<Action>): nat {
    if actions == [] then 0
    else (if IsCommandAttempt(actions[0]) then 1 else 0) + CountCommandAttempts(actions[1..])
  }

  lemma {:induction false} CountCommandAttemptsAppend(a: seq<Action>, b: seq<Action>)
    ensures CountCommandAttempts(a + b) == CountCommandAttempts(a) + CountCommandAttempts(b)
    decreases |a|
  {
    if a == [] {
      assert a + b == b;
    } else {
      assert (a + b)[0] == a[0];
      assert (a + b)[1..] == a[1..] + b;
      CountCommandAttemptsAppend(a[1..], b);
    }
  }

  lemma {:induction false} CountCommandAttemptsOfEvents(events: seq<CommandEvent>)
    ensures CountCommandAttempts(CommandActions(events)) == CountAttempts(events)
    decreases |events|
  {
    if events != [] {
      assert CommandActions(events)[1..] == CommandActions(events[1..]);
      CountCommandAttemptsOfEvents(events[1..]);
    }
  }

  /**
   * Order of an ended cycle: the session, then its error report, then the
   * recovery command's own events and nothing else (exactly one attempt among
   * them), and last a flush followed by the cooldown pause.
   */
  lemma CycleOrder(settings: Settings, session: seq<StepResult>, run: CommandRun)
    requires ExpectedSession(settings.targetURL, settings.timeout, session).end.Ended?
    ensures var s := ExpectedSession(settings.targetURL, settings.timeout, session);
            var a := CycleActions(settings, session, run);
            |a| >= 5
            && a[0] == Monitor(s.ops, s.end)
            && a[1] == CaptureError(s.end.outcome)
            && a[2].Command?
            && a[|a| - 2] == Flush
            && a[|a| - 1] == Sleep(settings.cooldownSeconds)
            && CountCommandAttempts(a) == 1
    ensures var ev := ExecuteCommandAndReport(settings.command, run);
            var a := CycleActions(settings, session, run);
            |a| == 4 + |ev|
            && forall i :: 2 <= i < |a| - 2 ==> a[i] == Command(ev[i - 2])
  {
    var s := ExpectedSession(settings.targetURL, settings.timeout, session);
    var events := ExecuteCommandAndReport(settings.command, run);
    var head: seq<Action> := [Monitor(s.ops, s.end), CaptureError(s.end.outcome)];
    var tail: seq<Action> := [Flush, Sleep(settings.cooldownSeconds)];
    var a := CycleActions(settings, session, run);
    assert a == head + CommandActions(events) + tail;
    ExactlyOneAttempt(settings.command, run);
    CountCommandAttemptsOfEvents(events);
    CountCommandAttemptsAppend(head, CommandActions(events));
    CountCommandAttemptsAppend(head + CommandActions(events), tail);
    assert CountCommandAttempts(head) == 0 by {
      assert head[1..][1..] == [];
    }
    assert CountCommandAttempts(tail) == 0 by {
      assert tail[1..][1..] == [];
    }
  }

  /**
   * The recovery command's result does not change the cycle's shape: two
   * cycles that differ only in it differ only in the command report, and both
   * flush and pause.
   */
  lemma CycleIgnoresCommandResult(settings: Settings, session: seq<StepResult>, run1: CommandRun, run2: CommandRun)
    ensures var a1 := CycleActions(settings, session, run1);
            var a2 := CycleActions(settings, session, run2);
            |a1| == |a2|
            && forall i :: 0 <= i < |a1| && a1[i] != a2[i] ==>
                 a1[i].Command? && a1[i].event.Capture? && a2[i].Command? && a2[i].event.Capture?
  {
  }

  /** While the session is still listening the cycle goes no further. */
  lemma ListeningHoldsCycle(settings: Settings, session: seq<StepResult>, run: CommandRun)
    requires AllOk(session)
    ensures |CycleActions(settings, session, run)| == 1
    ensures CountCommandAttempts(CycleActions(settings, session, run)) == 0
  {
  }

  /**
   * The `for {}` loop over finitely many cycles: the i-th cycle meets the
   * i-th session trace and the i-th command result; a session that never
   * ends holds the loop for good.
   */
  function Supervision(settings: Settings, sessions: seq<seq<StepResult>>, runs: seq<CommandRun>): seq<Action>
    requires |runs| == |sessions|
    decreases |sessions|
  {
    if sessions == [] then []
    else
      var ended := ExpectedSession(settings.targetURL, settings.timeout, sessions[0]).end.Ended?;
      CycleActions(settings, sessions[0], runs[0])
      + if ended then Supervision(settings, sessions[1..], runs[1..]) else []
  }

  // Associativity of `+` stated on its own: asserted inline next to the large
  // trace terms of `SupervisionStep`, it exhausts the solver's resources.
  lemma ConcatAssoc(a: seq<Action>, b: seq<Action>, c: seq<Action>)
    ensures (a + b) + c == a + (b + c)
  {
  }

  /**
   * One more cycle of the loop: if the trace so far followed by the remaining
   * cycles is the whole run, the same holds after cycle `k` has been appended.
   */
  lemma SupervisionStep(settings: Settings, sessions: seq<seq<StepResult>>, runs: seq<CommandRun>, k: nat,
                        before: seq<Action>, after: seq<Action>, finished: bool)
    requires |runs| == |sessions| && k < |sessions|
    requires before + Supervision(settings, sessions[k..], runs[k..]) == Supervision(settings, sessions, runs)
    requires after == before + CycleActions(settings, sessions[k], runs[k])
    requires finished <==> ExpectedSession(settings.targetURL, settings.timeout, sessions[k]).end.Ended?
    ensures finished ==> after + Supervision(settings, sessions[k + 1..], runs[k + 1..]) == Supervision(settings, sessions, runs)
    ensures !finished ==> after == Supervision(settings, sessions, runs)
  {
    assert sessions[k..][1..] == sessions[k + 1..] && runs[k..][1..] == runs[k + 1..];
    var cycle := CycleActions(settings, sessions[k], runs[k]);
    var rest := Supervision(settings, sessions[k + 1..], runs[k + 1..]);
    if finished {
      assert Supervision(settings, sessions[k..], runs[k..]) == cycle + rest;
      ConcatAssoc(before, cycle, rest);
    } else {
      assert cycle + [] == cycle;
      assert Supervision(settings, sessions[k..], runs[k..]) == cycle;
      assert after == before + Supervision(settings, sessions[k..], runs[k..]);
    }
  }

  /** Runs the cycles one after another, as long as each session ends. */
  method Supervise(settings: Settings, sessions: seq<seq<StepResult>>, runs: seq<CommandRun>)
    returns (trace: seq<Action>)
    requires |runs| == |sessions|
    ensures trace == Supervision(settings, sessions, runs)
  {
    trace := [];
    var k := 0;
    var going := true;
    assert sessions[0..] == sessions && runs[0..] == runs;
    while k < |sessions| && going
      invariant 0 <= k <= |sessions|
      invariant going ==> trace + Supervision(settings, sessions[k..], runs[k..]) == Supervision(settings, sessions, runs)
      invariant !going ==> trace == Supervision(settings, sessions, runs)
    {
      ghost var before := trace;
      var finished;
      trace, finished := Cycle(settings, trace, sessions[k], runs[k]);
      SupervisionStep(settings, sessions, runs, k, before, trace, finished);
      going := finished;
      k := k + 1;
    }
    if going {
      assert sessions[k..] == [];
    }
  }

  /** Only the first action of a cycle is a session. */
  lemma CycleMonitorFirst(settings: Settings, session: seq<StepResult>, run: CommandRun)
    ensures var a := CycleActions(settings, session, run);
            var s := ExpectedSession(settings.targetURL, settings.timeout, session);
            a[0] == Monitor(s.ops, s.end)
            && (forall i :: 1 <= i < |a| ==> !a[i].Monitor?)
            && (s.end.Ended? <==> |a| > 1)
            && (forall i :: 0 <= i < |a| && a[i].Sleep? ==> a[i].seconds == settings.cooldownSeconds)
  {
  }

  /** Every session in the trace begins by dialling the target afresh. */
  predicate FreshDials(url: string, t: seq<Action>) {
    forall i :: 0 <= i < |t| && t[i].Monitor? && t[i].ops != [] ==> t[i].ops[0] == Dial(url)
  }

  /** A session that has ended and holds no connection: it never got one, or closed it. */
  predicate Released(m: Action) {
    m.Monitor? && m.end.Ended? && (m.end.outcome.ConnectFailed? || Close in m.ops)
  }

  /** Every session except one that is the trace's last action is over and released. */
  predicate ReleasedBeforeNext(t: seq<Action>) {
    forall i :: 0 <= i < |t| - 1 && t[i].Monitor? ==> Released(t[i])
  }

  predicate PausesAre(seconds: int, t: seq<Action>) {
    forall i :: 0 <= i < |t| && t[i].Sleep? ==> t[i].seconds == seconds
  }

  lemma CycleHolds(settings: Settings, session: seq<StepResult>, run: CommandRun)
    ensures var a := CycleActions(settings, session, run);
            FreshDials(settings.targetURL, a) && PausesAre(settings.cooldownSeconds, a)
            && (ExpectedSession(settings.targetURL, settings.timeout, session).end.Ended? ==>
                  forall i :: 0 <= i < |a| && a[i].Monitor? ==> Released(a[i]))
  {
  }

  lemma ConcatHolds(url: string, seconds: int, a: seq<Action>, b: seq<Action>)
    requires FreshDials(url, a) && FreshDials(url, b)
    requires PausesAre(seconds, a) && PausesAre(seconds, b)
    requires forall i :: 0 <= i < |a| && a[i].Monitor? ==> Released(a[i])
    requires ReleasedBeforeNext(b)
    ensures FreshDials(url, a + b) && PausesAre(seconds, a + b) && ReleasedBeforeNext(a + b)
  {
  }

  /**
   * Sessions run one at a time and each one starts a fresh connection: every
   * session in the trace dials the target first, and every session but the
   * last action of the trace has ended and let go of its connection. Every
   * pause lasts the configured cooldown.
   */
  lemma {:induction false} OneSessionAtATime(settings: Settings, sessions: seq<seq<StepResult>>, runs: seq<CommandRun>)
    requires |runs| == |sessions|
    ensures var t := Supervision(settings, sessions, runs);
            FreshDials(settings.targetURL, t) && ReleasedBeforeNext(t) && PausesAre(settings.cooldownSeconds, t)
    decreases |sessions|
  {
    if sessions != [] {
      var a := CycleActions(settings, sessions[0], runs[0]);
      CycleHolds(settings, sessions[0], runs[0]);
      CycleMonitorFirst(settings, sessions[0], runs[0]);
      if ExpectedSession(settings.targetURL, settings.timeout, sessions[0]).end.Ended? {
        OneSessionAtATime(settings, sessions[1..], runs[1..]);
        ConcatHolds(settings.targetURL, settings.cooldownSeconds, a, Supervision(settings, sessions[1..], runs[1..]));
      } else {
        assert Supervision(settings, sessions, runs) == a + [];
        assert |a| == 1;
      }
    }
  }
}
