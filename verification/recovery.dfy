/**
 * The recovery executor (`executeCommandAndReport`): the configured command
 * string is split into fields; no fields means no launch is attempted, otherwise
 * the first field is the program and the rest are its arguments. Launching
 * the process and collecting its combined output are outside the model: their
 * result comes in as a `CommandRun`.
 */
module Recovery {
  import opened Wrappers
  import opened GoStrings

  datatype Invocation = Invocation(program: string, args: seq<string>)

  /** What `cmd.CombinedOutput()` gave back: the merged output and the error, if any. */
  datatype CommandRun = CommandRun(output: string, err: Option<string>)

  /** The telemetry levels the executor reports at. */
  datatype Level = Info | Fatal

  datatype CommandEvent =
    | EmptyCommandLogged                   // "recovery command string is empty", no launch attempted
    | Launch(invocation: Invocation)       // exec.Command(program, args...).CombinedOutput() called
    | Capture(level: Level, output: string) // the report of the run, with its output attached

  /** The launch decision: which program with which arguments, if any. */
  function Dispatch(command: string): (r: Option<Invocation>)
    ensures r.None? <==> AllSpace(command)
    ensures r.Some? ==> [r.value.program] + r.value.args == Fields(command)
    ensures r.Some? ==> IsField(r.value.program) && AllFields(r.value.args)
  {
    var parts := Fields(command);
    FieldsEmptyIff(command);
    if |parts| == 0 then None else Some(Invocation(parts[0], parts[1..]))
  }

  /**
   * One execution of the recovery command: either the "empty command" note
   * alone, or one launch attempt followed by one report that is fatal when the run
   * failed and informational when it succeeded, carrying the output either way.
   */
  function ExecuteCommandAndReport(command: string, run: CommandRun): (events: seq<CommandEvent>)
    ensures AllSpace(command) ==> events == [EmptyCommandLogged]
    ensures !AllSpace(command) ==>
              |events| == 2 && events[0].Launch? && Dispatch(command) == Some(events[0].invocation)
    ensures !AllSpace(command) ==>
              events[1] == Capture(if run.err.Some? then Fatal else Info, run.output)
  {
    match Dispatch(command)
    case None => [EmptyCommandLogged]
    case Some(invocation) =>
      var level := if run.err.Some? then Fatal else Info;
      [Launch(invocation), Capture(level, run.output)]
  }

  predicate IsAttempt(e: CommandEvent) {
    e.EmptyCommandLogged? || e.Launch?
  }

  function CountAttempts(events: seq<CommandEvent>): nat {
    if events == [] then 0
    else (if IsAttempt(events[0]) then 1 else 0) + CountAttempts(events[1..])
  }

  function CountLaunches(events: seq<CommandEvent>): nat {
    if events == [] then 0
    else (if events[0].Launch? then 1 else 0) + CountLaunches(events[1..])
  }

  /**
   * Every execution is exactly one attempt, whatever the command's result;
   * a launch is attempted exactly when the command has a non-space character.
   */
  lemma ExactlyOneAttempt(command: string, run: CommandRun)
    ensures CountAttempts(ExecuteCommandAndReport(command, run)) == 1
    ensures CountLaunches(ExecuteCommandAndReport(command, run)) == (if AllSpace(command) then 0 else 1)
  {
    var events := ExecuteCommandAndReport(command, run);
    if AllSpace(command) {
      assert events[1..] == [];
    } else {
      assert events[1..] == [events[1]];
      assert events[1..][1..] == [];
      assert !IsAttempt(events[1]) && !events[1].Launch?;
      assert CountAttempts(events[1..]) == 0 && CountLaunches(events[1..]) == 0;
    }
  }

  /** A command written as single-space-separated fields is dispatched as exactly those fields. */
  lemma DispatchOfJoinedFields(program: string, args: seq<string>)
    requires IsField(program) && AllFields(args)
    ensures Dispatch(JoinWithSpace([program] + args)) == Some(Invocation(program, args))
  {
    FieldsJoinRoundTrip([program] + args);
    FieldsEmptyIff(JoinWithSpace([program] + args));
  }
}
