# misskey-timeline-watchdog, modelled in Dafny

The watchdog keeps one subscription open to a Misskey streaming endpoint. When
the stream fails or goes quiet, it reports the failure, runs an
operator-supplied recovery command, waits out a cooldown and reconnects,
forever. The program is a single Go file, `main.go`. This project models its
decision-making in Dafny:

- `Target` (target.dfy): resolving the endpoint address (`getTargetURL`). An
  explicit URL wins verbatim. Otherwise the domain loses one leading
  `https://` and one trailing `/` and becomes `wss://<domain>/streaming`. With
  neither set, the result is an error together with the empty string.
- `GoStrings` (strings.dfy): the Go library functions that resolution and the
  recovery executor rely on. These are `strings.TrimPrefix`/`TrimSuffix`,
  `unicode.IsSpace` (the full Unicode White_Space set, as Go defines it) and
  `strings.Fields`.
- `Cooldown` (cooldown.dfy): the effective cooldown. `main` assigns the
  configured seconds, then overwrites them with five minutes when they are not
  positive.
- `Recovery` (recovery.dfy): `executeCommandAndReport`. The command is split
  into fields. With no fields, only an "empty command" note is logged.
  Otherwise a launch of the first field with the rest as arguments is attempted
  (a program that cannot be found or started fails with an error), and the run
  is reported at fatal level on failure or info level on success, with the
  output attached.
- `Session` (session.dfy): `startMonitoringSession` as an imperative method.
  The network calls are replaced by a finite trace of step results, one per
  call, in the order dial, subscribe, then (arm read deadline, read) per loop
  iteration. The first failure ends the session with `ConnectFailed`,
  `SubscribeFailed`, `DeadlineSetFailed` or `ReadFailedOrTimedOut`. A
  `dialed` flag plays the part of `defer c.Close()`, so the connection is
  closed once on every exit after a successful dial. A trace without failures
  leaves the session listening; there is no successful exit.
- `Supervisor` (supervisor.dfy): startup (`Configure`), then one cycle of the
  `for {}` loop as a method that appends to an action trace: session, error
  report, recovery command, flush, cooldown pause. A bounded run of many
  cycles (`Supervise`) is also modelled.
- `Config` (config.dfy) and `Wrappers` (wrappers.dfy): the parsed
  configuration record and the `Option`/`Result` types.

Three points of `main.go` the model keeps as written:
- The idle timeout is used as configured, with no default (main.go:167).
- Only the literal `https://` prefix is stripped from a domain, not any scheme
  (main.go:63).
- An empty recovery command is only logged (main.go:183-185).

## Model

| member | source | states |
|---|---|---|
| GoStrings.IsSpace | main.go:182 | the white space `strings.Fields` splits on, as `unicode.IsSpace` defines it: tab, line feed, vertical tab, form feed, carriage return, space, U+0085, U+00A0, U+1680, U+2000 to U+200A, U+2028, U+2029, U+202F, U+205F and U+3000 |
| GoStrings.IsSpaceLatin1 | main.go:182 | below U+0100 the white space characters are exactly tab, line feed, vertical tab, form feed, carriage return, space, U+0085 and U+00A0 |
| GoStrings.TrimPrefix | main.go:63 | the prefix is removed exactly when present: `prefix + r == s` then, otherwise `r == s` |
| GoStrings.TrimSuffix | main.go:63 | the suffix is removed exactly when present: `r + suffix == s` then, otherwise `r == s` |
| GoStrings.TrimPrefixRoundTrip | main.go:63 | trimming a prefix that was prepended gives back the original |
| GoStrings.TrimSuffixRoundTrip | main.go:63 | trimming a suffix that was appended gives back the original |
| GoStrings.Fields | main.go:182 | every field is non-empty and contains no white space |
| GoStrings.FieldsEmptyIff | main.go:182-183 | there are no fields exactly when the command is empty or white space only |
| GoStrings.FieldsKeepText | main.go:182 | the fields, concatenated in order, are the input with its white space removed: nothing else is lost or reordered |
| GoStrings.FieldsSkipsSpace | main.go:182 | white space before the input is skipped: `Fields(ws + s) == Fields(s)` for any all-white-space `ws` |
| GoStrings.FieldsJoinRoundTrip | main.go:182 | fields joined with single spaces split back into the same fields |
| GoStrings.FieldsOfWordThen | main.go:182 | a field followed by white space or by the end of input is split off whole |
| Target.CleanDomain | main.go:63 | one leading `https://` is removed exactly when present, and then one trailing `/` exactly when the rest ends in one; all four combinations are stated, so `https://host` loses only the prefix, `host/` only the slash, and `https://https://x` only one prefix |
| Target.GetTargetURL | main.go:58-67 | a non-empty URL is returned verbatim with no error; otherwise a non-empty domain gives `wss://` + cleaned domain + `/streaming` with no error; otherwise an error and the empty string |
| Target.ResolutionFailsIff | main.go:58-67 | resolution fails exactly when both URL and domain are empty, and a success is never the empty string |
| Target.UrlIgnoresDomain | main.go:59-61 | with a URL configured, changing the domain never changes the result |
| Target.CleanDomainForms | main.go:62-64 | `host`, `https://host`, `host/` and `https://host/` all clean to `host` |
| Target.CleanDomainStripsOneSlash | main.go:63 | only one trailing `/` is removed: `https://host//` cleans to `host/` |
| Target.CleanDomainKeepsHttp | main.go:63 | an `http://` prefix is not stripped |
| Target.MisskeyDomainForms | main.go:63 | `misskey.io`, `https://misskey.io` and `https://misskey.io/` all clean to `misskey.io`; `http://misskey.io` stays as it is |
| Cooldown.EffectiveCooldown | main.go:120-123 | the cooldown is always positive: 300 s when the configured value is ≤ 0, exactly the configured value otherwise |
| Cooldown.WrapInt64 | main.go:120 | Go's signed 64-bit wrap-around: the result is always in the int64 range, differs from the input by a multiple of 2^64, and a value already in range is unchanged |
| Cooldown.CooldownNanosAsWritten | main.go:120-123 | Go's int64 nanosecond computation: always in the int64 range, and five minutes when the configured value is ≤ 0 |
| Cooldown.CooldownNanosWithoutOverflow | main.go:120 | up to 9223372036 s, Go's computation is the configured seconds in nanoseconds and is positive |
| Cooldown.CooldownOverflowIsNegative | main.go:120-123 | at 9223372037 s, Go's computation wraps to a negative duration |
| Recovery.Dispatch | main.go:182-188 | no launch is attempted exactly when the command is white space only; otherwise the program followed by the arguments are the fields, in order, each non-empty and free of white space |
| Recovery.ExecuteCommandAndReport | main.go:181-210 | an empty command yields only the "empty" note; otherwise one launch attempt of the dispatched invocation, then one report carrying the output, at fatal level on error and info level on success |
| Recovery.ExactlyOneAttempt | main.go:182-189 | every execution is exactly one attempt; a launch is attempted (`exec.Command(...).CombinedOutput()` is called) exactly when the command is not white space only |
| Recovery.DispatchOfJoinedFields | main.go:182-188 | a command written as space-separated fields attempts to launch exactly that program with exactly those arguments |
| Session.FirstFailure | main.go:155-177 | the position found is a failure with only successes before it, and none is found exactly when all results succeed |
| Session.RunSession | main.go:152-179 | the outcome, the calls made and the closed flag are those of `ExpectedSession`: every call up to the first failure, then the deferred close after a successful dial |
| Session.Listen | main.go:169-178 | the read loop ends on the first failing deadline or read with the matching outcome (never connect or subscribe), having made every call up to it |
| Session.ConnectFailureOnlyDials | main.go:155-158 | a failed dial gives `ConnectFailed` with its cause, after one dial and nothing else: no subscription and no close |
| Session.OutcomeNamesFailedCall | main.go:155-177 | each outcome tag names the call that failed (dial, subscribe write, deadline or read), and its cause is that call's error |
| Session.CallOrder | main.go:155-178 | the dial comes first; the subscribe payload is written only second; every read directly follows the arming of its deadline; the close comes only last, and happens exactly when the session ended after a successful dial |
| Session.EndsOnFirstFailure | main.go:169-178 | once a session has ended, later step results are never consumed |
| Session.ListeningWhileHealthy | main.go:169-178 | the session is still listening exactly when every call succeeded; it then has not closed its connection (if one was dialled), and a longer trace only adds calls after the ones already made |
| Supervisor.Configure | main.go:115-123 | startup fails exactly when neither URL nor domain is set; otherwise the target is the resolved URL, the timeout is taken as configured, and the cooldown is positive with the 300 s default |
| Supervisor.Cycle | main.go:127-149 | the trace gains exactly one cycle's actions; the cycle finishes exactly when the session ended |
| Supervisor.CycleOrder | main.go:128-146 | an ended cycle runs the session, then its error report, then exactly the recovery command's events and nothing else (one attempt among them), then a flush and last the cooldown pause |
| Supervisor.CycleIgnoresCommandResult | main.go:138-146 | the command's result changes only the command report: the flush and the pause happen either way |
| Supervisor.ListeningHoldsCycle | main.go:129 | while the session is listening there is no report, no command and no pause |
| Supervisor.CycleMonitorFirst | main.go:127-149 | a cycle holds one session, as its first action; it has more actions exactly when the session ended, and every pause is the cooldown |
| Supervisor.Supervise | main.go:127-149 | running cycles in a loop yields the cycles' actions in order, stopping after a session that never ends |
| Supervisor.OneSessionAtATime | main.go:127-149 | every session dials afresh; every session before the trace's last action has ended and released its connection; every pause is the cooldown |

## Findings

| source | as written | input that shows it | evidently intended | confidence | as-written member | corrected member |
|---|---|---|---|---|---|---|
| main.go:120-123 | on 64-bit platforms (Go `int` of 64 bits), `time.Duration(cfg.Cooldown) * time.Second` wraps around in int64, and the `<= 0` guard tests only the configured seconds | `cooldown: 9223372037` gives a negative duration, so `time.Sleep` returns at once and the watchdog reconnects with no pause | a strictly positive pause of the configured length | low (needs a cooldown of about 292 years); not executed | Cooldown.CooldownOverflowIsNegative | Cooldown.EffectiveCooldown |

The rest of the model uses the corrected cooldown: whole seconds as unbounded
integers. On 32-bit platforms the largest configurable cooldown,
2147483647 s, does not overflow.

## Left out

- Supervisor.Configure: uses the corrected cooldown of the finding above, so it
  does not reproduce the negative duration that `main` computes for a cooldown
  above 9223372036 s on 64-bit platforms; that behaviour is modelled only by
  `Cooldown.CooldownNanosAsWritten`.

- Reading, parsing and writing the configuration file (`loadConfig`, the
  template written on first run, `os.Stat`) and flag parsing. They are file
  I/O and a YAML library. A `Config` value stands for their result, with Go's
  zero values for absent keys.
- Sentry initialisation, scopes, flushing, and the startup fatal path
  (`logFatalf`: report, flush, exit 1). They are a foreign telemetry client and
  process exit. Startup failure is `Configure` returning `Failure`. Session
  and command reports and the per-cycle flush are abstract actions.
- The telemetry message sent by every `logPrintf` call, and all `log` output.
  They are logging. Only the "recovery command is empty" note is kept, as the
  executor's no-launch marker.
- The websocket dial, write, read deadline and read. They are network I/O, so
  each is a step result in the trace. Wall-clock behaviour is not modelled:
  the read deadline is recorded as the configured seconds, and "ends within
  T+ε" does not appear.
- `exec.Command`/`CombinedOutput` and `time.Sleep`. They are a subprocess and a
  timer. The run's output and error are inputs (a start failure, such as a
  program not on the path, arrives as the run's error), and the pause is a `Sleep`
  action.
- The subscription payload's JSON content. There is no JSON parser here, so the
  payload is kept only as the exact string constant written on the wire.
- Byte-level UTF-8. Strings are sequences of code points, so invalid UTF-8 in a
  command is not modelled.
- The endless `for {}` loops. The supervisor and the read loop run over finite
  traces: a session whose trace runs out is "listening", and `Supervise` stops
  after the last trace it is given.
