/** pkg/logger: levels, their labels, and the standard logger that formats a
    line per call and writes it through Go's `log.Logger` when the level passes
    the configured threshold. The clock is a parameter (`now`, already
    formatted as RFC 3339); the output writer is the text written so far. */
module Logger {
  import opened Wrappers
  import opened Text

  // Go's `type Level int`: any integer is a level, the named ones are 0..6.
  const NoOp := 0
  const TraceLevel := 1
  const DebugLevel := 2
  const InfoLevel := 3
  const WarnLevel := 4
  const ErrorLevel := 5
  const FatalLevel := 6

  /** `LevelLabelMap[level]`; a missing key reads as the empty string. */
  function LevelLabel(level: int): (text: string)
    ensures text != "" <==> TraceLevel <= level <= FatalLevel
  {
    match level
    case 1 => "TRACE"
    case 2 => "DEBUG"
    case 3 => "INFO"
    case 4 => "WARN"
    case 5 => "ERROR"
    case 6 => "FATAL"
    case _ => ""
  }

  /** `isLevelWritableAndInRange`: Trace through Fatal, the levels with a label. */
  predicate IsLevelWritableAndInRange(level: int): (writable: bool)
    ensures writable <==> LevelLabel(level) != ""
    ensures writable ==> level != NoOp
  {
    TraceLevel <= level <= FatalLevel
  }

  /** Exactly the writable levels have a label, and no two share one. */
  lemma LevelLabels(a: int, b: int)
    ensures LevelLabel(a) != "" <==> IsLevelWritableAndInRange(a)
    ensures IsLevelWritableAndInRange(a) && LevelLabel(a) == LevelLabel(b) ==> a == b
  {
  }

  /** `Formatter.Format(ctx, fields, message)`; the context is left out. */
  type Formatter = (map<string, string>, string) -> string

  /** `fields[key]` on a Go map: the empty string when the key is missing. */
  function Get(fields: map<string, string>, key: string): string
  {
    if key in fields then fields[key] else ""
  }

  /** `StandardFormatter.Format`: "%v %v %v %v" of the timestamp, the severity
      text, the severity number and the message. */
  function StandardFormat(fields: map<string, string>, message: string): (line: string)
    ensures var ts := Get(fields, "timestamp");
      && |line| == |ts| + |Get(fields, "severityText")| + |Get(fields, "severityNumber")| + |message| + 3
      && line[..|ts|] == ts && line[|ts|] == ' '
      && line[|line| - |message|..] == message && line[|line| - |message| - 1] == ' '
  {
    Get(fields, "timestamp") + " " + Get(fields, "severityText") + " "
      + Get(fields, "severityNumber") + " " + message
  }

  /** The fields `log` hands to the formatter. */
  function LogFields(level: int, now: string): map<string, string>
  {
    map["timestamp" := now, "severityText" := LevelLabel(level), "severityNumber" := IntToString(level)]
  }

  /** The standard line reads: timestamp, label, number, message. */
  lemma StandardLine(level: int, now: string, message: string)
    ensures StandardFormat(LogFields(level, now), message)
         == now + " " + LevelLabel(level) + " " + IntToString(level) + " " + message
  {
  }

  /** `StandardLogOptions` without its writer, which is the logger's `output`. */
  datatype StandardLogOptions = StandardLogOptions(level: int, formatter: Formatter)

  /** The default options: Info and the standard formatter. */
  function DefaultOptions(): (o: StandardLogOptions)
    ensures o.formatter == StandardFormat
    ensures forall level :: Writes(o, level) <==> InfoLevel <= level <= FatalLevel
  {
    StandardLogOptions(InfoLevel, StandardFormat)
  }

  /** The exit call: `os.Exit(1)`, or a hook that logs one message below Fatal,
      such as the one the logger's tests install. */
  datatype ExitCall = ExitProcess | LogMessage(level: int, message: string)

  predicate ValidExitCall(e: ExitCall)
  {
    e.LogMessage? ==> e.level < FatalLevel
  }

  /** Whether `log` writes at `level`. */
  predicate Writes(options: StandardLogOptions, level: int)
  {
    options.level != NoOp && IsLevelWritableAndInRange(level) && level >= options.level
  }

  /** `log.Logger.Println(line)`: the line and a newline. */
  function PrintlnText(line: string): string
  {
    line + "\n"
  }

  /** `log.Logger.Output(2, line)`: a newline is added only when missing. */
  function OutputText(line: string): string
  {
    if line != [] && line[|line| - 1] == '\n' then line else line + "\n"
  }

  /** What one `log` call writes itself, before any exit call. */
  function Record(options: StandardLogOptions, level: int, message: string, now: string): string
  {
    if !Writes(options, level) then ""
    else
      var line := options.formatter(LogFields(level, now), message);
      if level >= FatalLevel then OutputText(line) else PrintlnText(line)
  }

  /** What the exit call writes. */
  function ExitRecord(options: StandardLogOptions, exitCall: ExitCall, now: string): string
  {
    match exitCall
    case ExitProcess => ""
    case LogMessage(level, message) => Record(options, level, message, now)
  }

  /** Whether one `log` call ends in the exit call. */
  predicate Exits(options: StandardLogOptions, level: int)
  {
    Writes(options, level) && level >= FatalLevel
  }

  /** Everything one `log` call writes, the exit call's output included. */
  function CallOutput(options: StandardLogOptions, exitCall: ExitCall, level: int, message: string, now: string): string
  {
    Record(options, level, message, now) + (if Exits(options, level) then ExitRecord(options, exitCall, now) else "")
  }

  /** A call writes exactly when its level is writable and at or above the
      threshold, and then ends with a newline. */
  lemma RecordWritten(options: StandardLogOptions, level: int, message: string, now: string)
    ensures Record(options, level, message, now) != []
        <==> options.level != NoOp && TraceLevel <= level <= FatalLevel && level >= options.level
    ensures Record(options, level, message, now) != [] ==> Record(options, level, message, now)[|Record(options, level, message, now)| - 1] == '\n'
  {
  }

  /** The NoOp threshold silences every call, Fatal ones included: nothing is
      written and the exit call is not made. */
  lemma NoOpSilent(options: StandardLogOptions, exitCall: ExitCall, level: int, message: string, now: string)
    requires options.level == NoOp
    ensures CallOutput(options, exitCall, level, message, now) == "" && !Exits(options, level)
  {
  }

  /** Raising a call's level (within range) never stops it from being written. */
  lemma ThresholdMonotone(options: StandardLogOptions, level: int, higher: int)
    requires Writes(options, level) && level <= higher <= FatalLevel
    ensures Writes(options, higher)
  {
  }

  /** The logger exits after a Fatal call unless logging is off or the
      threshold is out of range above Fatal. */
  lemma FatalExits(options: StandardLogOptions)
    ensures Exits(options, FatalLevel) <==> NoOp != options.level <= FatalLevel
  {
  }

  class StandardLog {
    /** Everything written to the options' writer. */
    var output: string
    var options: StandardLogOptions
    var exitCall: ExitCall
    /** The process exit status once `os.Exit` has been called. */
    var exitStatus: Option<int>

    ghost predicate Valid()
      reads this
    {
      ValidExitCall(exitCall)
    }

    /** `NewStandardLog(options)`: nil options mean Info and the standard
        formatter; the exit call is `os.Exit(1)`. */
    constructor(opts: Option<StandardLogOptions>)
      ensures Valid()
      ensures options == (if opts.None? then DefaultOptions() else opts.value)
      ensures exitCall == ExitProcess && output == "" && exitStatus == None
    {
      output := "";
      options := if opts.None? then DefaultOptions() else opts.value;
      exitCall := ExitProcess;
      exitStatus := None;
    }

    method SetExitCall(e: ExitCall)
      requires ValidExitCall(e)
      modifies this
      ensures Valid()
      ensures exitCall == e && output == old(output) && options == old(options) && exitStatus == old(exitStatus)
    {
      exitCall := e;
    }

    /** `exit()`: runs the exit call. Once `os.Exit` has run the process is
        gone, so no call is made after it (`exitStatus.None?`). */
    method Exit(now: string)
      requires Valid() && exitStatus.None?
      modifies this
      ensures Valid() && exitCall == old(exitCall) && options == old(options)
      ensures output == old(output) + ExitRecord(options, exitCall, now)
      ensures exitStatus == if exitCall.ExitProcess? then Some(1) else old(exitStatus)
      decreases 1
    {
      match exitCall {
        case ExitProcess =>
          exitStatus := Some(1);
        case LogMessage(level, message) =>
          Log(level, message, now);
      }
    }

    /** `log(ctx, level, message)`. */
    method Log(level: int, message: string, now: string)
      requires Valid() && exitStatus.None?
      modifies this
      ensures Valid() && exitCall == old(exitCall) && options == old(options)
      ensures output == old(output) + CallOutput(options, exitCall, level, message, now)
      ensures exitStatus == if Exits(options, level) && exitCall.ExitProcess? then Some(1) else old(exitStatus)
      decreases if level >= FatalLevel then 2 else 0
    {
      if options.level == NoOp {
        return;
      }

      var line := options.formatter(LogFields(level, now), message);

      if IsLevelWritableAndInRange(level) && level >= options.level {
        if level >= FatalLevel {
          output := output + OutputText(line);
          Exit(now);
        } else {
          output := output + PrintlnText(line);
        }
      }
    }

    method Trace(message: string, now: string)
      requires Valid() && exitStatus.None?
      modifies this
      ensures Valid() && exitCall == old(exitCall) && options == old(options) && exitStatus == old(exitStatus)
      ensures output == old(output) + Record(options, TraceLevel, message, now)
    {
      Log(TraceLevel, message, now);
    }

    method Debug(message: string, now: string)
      requires Valid() && exitStatus.None?
      modifies this
      ensures Valid() && exitCall == old(exitCall) && options == old(options) && exitStatus == old(exitStatus)
      ensures output == old(output) + Record(options, DebugLevel, message, now)
    {
      Log(DebugLevel, message, now);
    }

    method Info(message: string, now: string)
      requires Valid() && exitStatus.None?
      modifies this
      ensures Valid() && exitCall == old(exitCall) && options == old(options) && exitStatus == old(exitStatus)
      ensures output == old(output) + Record(options, InfoLevel, message, now)
    {
      Log(InfoLevel, message, now);
    }

    method Warn(message: string, now: string)
      requires Valid() && exitStatus.None?
      modifies this
      ensures Valid() && exitCall == old(exitCall) && options == old(options) && exitStatus == old(exitStatus)
      ensures output == old(output) + Record(options, WarnLevel, message, now)
    {
      Log(WarnLevel, message, now);
    }

    method Error(message: string, now: string)
      requires Valid() && exitStatus.None?
      modifies this
      ensures Valid() && exitCall == old(exitCall) && options == old(options) && exitStatus == old(exitStatus)
      ensures output == old(output) + Record(options, ErrorLevel, message, now)
    {
      Log(ErrorLevel, message, now);
    }

    /** `Fatal`: writes and then, when written, runs the exit call. */
    method Fatal(message: string, now: string)
      requires Valid() && exitStatus.None?
      modifies this
      ensures Valid() && exitCall == old(exitCall) && options == old(options)
      ensures output == old(output) + CallOutput(options, exitCall, FatalLevel, message, now)
      ensures exitStatus == if Exits(options, FatalLevel) && exitCall.ExitProcess? then Some(1) else old(exitStatus)
    {
      Log(FatalLevel, message, now);
    }
  }

  // ---------------------------------------------------------------------------
  // A sequence of calls, as the logger's tests make them

  datatype LogCall = LogCall(level: int, message: string)

  /** What a sequence of `log` calls writes, in order. */
  function Transcript(options: StandardLogOptions, exitCall: ExitCall, calls: seq<LogCall>, now: string): string
    decreases |calls|
  {
    if calls == [] then ""
    else
      var last := calls[|calls| - 1];
      Transcript(options, exitCall, calls[..|calls| - 1], now) + CallOutput(options, exitCall, last.level, last.message, now)
  }

  /** The tests' formatter: the message alone. */
  function MessageOnly(fields: map<string, string>, message: string): string
  {
    message
  }

  const HookMessage := "Exit call was called"

  /** A line of the transcript below: the message and a newline when its level passes. */
  function Line(threshold: int, level: int, message: string): string
  {
    if threshold != NoOp && level >= threshold then message + "\n" else ""
  }

  /** The calls below Fatal of the logger's tests: Trace through Error. */
  predicate BelowFatal(calls: seq<LogCall>)
  {
    forall i :: 0 <= i < |calls| ==> TraceLevel <= calls[i].level < FatalLevel
  }

  /** The messages of the calls whose level passes the threshold, one per line. */
  function Passing(threshold: int, calls: seq<LogCall>): string
    decreases |calls|
  {
    if calls == [] then ""
    else
      var last := calls[|calls| - 1];
      Passing(threshold, calls[..|calls| - 1]) + Line(threshold, last.level, last.message)
  }

  /** With the tests' formatter, calls below Fatal write the passing messages. */
  lemma {:induction false} MessageOnlyTranscript(threshold: int, calls: seq<LogCall>, now: string)
    requires NoOp <= threshold <= FatalLevel && BelowFatal(calls)
    ensures Transcript(StandardLogOptions(threshold, MessageOnly), LogMessage(InfoLevel, HookMessage), calls, now)
         == Passing(threshold, calls)
    decreases |calls|
  {
    if calls != [] {
      var n := |calls| - 1;
      assert BelowFatal(calls[..n]);
      MessageOnlyTranscript(threshold, calls[..n], now);
      MessageOnlyCall(threshold, calls[n].level, calls[n].message, now);
    }
  }

  /** The table of the logger's tests, for every threshold from NoOp to Fatal:
      calls below Fatal write the messages that pass the threshold; a final
      Fatal call writes its message and then the hook's Info line, which itself
      appears only when Info passes the threshold. With threshold Warn the
      hook's line is missing; with NoOp nothing at all is written. */
  lemma TestTable(threshold: int, calls: seq<LogCall>, fatal: string, now: string)
    requires NoOp <= threshold <= FatalLevel && BelowFatal(calls)
    requires fatal == [] || fatal[|fatal| - 1] != '\n'
    ensures Transcript(StandardLogOptions(threshold, MessageOnly), LogMessage(InfoLevel, HookMessage),
                       calls + [LogCall(FatalLevel, fatal)], now)
         == Passing(threshold, calls) + Line(threshold, FatalLevel, fatal)
          + (if threshold != NoOp then Line(threshold, InfoLevel, HookMessage) else "")
  {
    var o := StandardLogOptions(threshold, MessageOnly);
    var hook := LogMessage(InfoLevel, HookMessage);
    MessageOnlyTranscript(threshold, calls, now);
    TranscriptSnoc(o, hook, calls, LogCall(FatalLevel, fatal), now);
    MessageOnlyFatal(threshold, fatal, now);
    ConcatAssoc(Passing(threshold, calls), Line(threshold, FatalLevel, fatal),
                if threshold != NoOp then Line(threshold, InfoLevel, HookMessage) else "");
  }

  lemma ConcatAssoc(a: string, b: string, c: string)
    ensures a + (b + c) == a + b + c
  {
  }

  /** One more call appends its output to the transcript. */
  lemma TranscriptSnoc(o: StandardLogOptions, hook: ExitCall, calls: seq<LogCall>, c: LogCall, now: string)
    ensures Transcript(o, hook, calls + [c], now) == Transcript(o, hook, calls, now) + CallOutput(o, hook, c.level, c.message, now)
  {
    assert (calls + [c])[..|calls|] == calls;
  }

  /** Below Fatal, a call with the tests' formatter writes its line or nothing. */
  lemma MessageOnlyCall(threshold: int, level: int, message: string, now: string)
    requires NoOp <= threshold <= FatalLevel && TraceLevel <= level < FatalLevel
    ensures CallOutput(StandardLogOptions(threshold, MessageOnly), LogMessage(InfoLevel, HookMessage), level, message, now)
         == Line(threshold, level, message)
  {
  }

  /** A Fatal call with the tests' formatter and hook. */
  lemma MessageOnlyFatal(threshold: int, message: string, now: string)
    requires NoOp <= threshold <= FatalLevel
    requires message == [] || message[|message| - 1] != '\n'
    ensures CallOutput(StandardLogOptions(threshold, MessageOnly), LogMessage(InfoLevel, HookMessage), FatalLevel, message, now)
         == Line(threshold, FatalLevel, message) + (if threshold != NoOp then Line(threshold, InfoLevel, HookMessage) else "")
  {
    MessageOnlyCall(threshold, InfoLevel, HookMessage, now);
  }

}
