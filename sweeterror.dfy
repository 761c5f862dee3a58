/**
 * The `SweetError` constructor: it checks its arguments, resolves the configuration
 * defaults, turns the captured stack text into frames, hands the error to the
 * configured logger and finally asks the process to exit.
 *
 * Stack capture (`StackUtils.captureString`) and line parsing (`StackUtils.parseLine`)
 * are parameters: `captured` is the text the capture returned and `parse` is the parser,
 * `None` standing for the `null` it returns on a line it cannot read.
 */
module SweetErrors {
  import opened Wrappers
  import opened Strings
  import opened Types
  import opened Logger

  /** The exceptions the constructor lets escape. */
  datatype Failure =
    | MessagesNotArray(received: string)    // `messages` is not an array
    | LoggerNotFunction(received: string)   // `config.logger` is truthy but not a function
    | FrameNotParsed(line: string)          // `'file' in null` for a line `parseLine` rejects

  /** The `messages` argument: an array of messages, or a value of another type. */
  datatype MessagesArg = Array(items: seq<Message>) | NotArray(typeName: string)

  // ---------------------------------------------------------------------------
  // option defaults

  /** `config.autoExit ?? true` and `config.colorize ?? true`: a missing flag is on. */
  function FlagOrTrue(flag: Option<bool>): (on: bool)
    ensures !on <==> flag == Some(false)
  {
    flag.GetOr(true)
  }

  /** `config.locationStyle || 'label'`: a missing or empty style is `label`; any other
      string names a layout, or no known one. */
  function ResolveStyle(style: Option<string>): (r: LocationStyle)
    ensures r == Label <==> style.None? || style.value in {"", "label"}
    ensures r == Coords <==> style == Some("coords")
    ensures r == Full <==> style == Some("full")
    ensures r.Unknown? ==> style == Some(r.name) && r.name !in {"", "label", "coords", "full"}
  {
    match style
    case None => Label
    case Some(s) =>
      if s == "" || s == "label" then Label
      else if s == "coords" then Coords
      else if s == "full" then Full
      else Unknown(s)
  }

  // ---------------------------------------------------------------------------
  // the stack pipeline

  /** `object['file'] = object['file'].replace('file://', '')` when the frame has a file:
      the first `file://`, wherever it is, is removed; nothing else changes. */
  function NormaliseFrame(f: Frame): (g: Frame)
    ensures g.line == f.line && g.column == f.column && g.rest == f.rest
    ensures g.file.Some? <==> f.file.Some?
  {
    match f.file
    case None => f
    case Some(path) => f.(file := Some(ReplaceFirst(path, "file://", "")))
  }

  /** A `file://` URL loses its scheme, and a path without `file://` is left alone. */
  lemma NormaliseFileUrl(f: Frame, path: string)
    ensures NormaliseFrame(f.(file := Some("file://" + path))).file == Some(path)
    ensures f.file.Some? && (forall j :: 0 <= j <= |f.file.value| ==> !OccursAt(f.file.value, "file://", j)) ==>
              NormaliseFrame(f) == f
  {
    var s := "file://" + path;
    assert OccursAt(s, "file://", 0);
    assert s[7..] == path;
    assert FindFrom(s, "file://", 0) == Some(0);
    assert ReplaceFirst(s, "file://", "") == s[..0] + "" + s[0 + 7..];
    assert s[..0] + "" + s[0 + 7..] == path;
  }

  /** `.map(line => …)`: parse every line and normalise its file; `'file' in null` throws
      on the first line the parser rejects. */
  function ParseFrames(lines: seq<string>, parse: string -> Option<Frame>): (r: Result<seq<Frame>, Failure>)
    ensures r.Ok? <==> forall i :: 0 <= i < |lines| ==> parse(lines[i]).Some?
    ensures r.Ok? ==> |r.value| == |lines|
    ensures r.Ok? ==> forall i :: 0 <= i < |lines| ==> r.value[i] == NormaliseFrame(parse(lines[i]).value)
    ensures r.Err? ==> exists i :: (0 <= i < |lines| && r.error == FrameNotParsed(lines[i]) &&
              parse(lines[i]).None? && forall j :: 0 <= j < i ==> parse(lines[j]).Some?)
    decreases |lines|
  {
    if lines == [] then Ok([])
    else
      match parse(lines[0])
      case None => Err(FrameNotParsed(lines[0]))
      case Some(f) =>
        match ParseFrames(lines[1..], parse)
        case Err(e) => Err(e)
        case Ok(fs) => Ok([NormaliseFrame(f)] + fs)
  }

  /** `stackUtils.captureString().split('\n').filter(line => line && …).map(…)`: the
      filter keeps the non-empty lines (`NonEmpty`). */
  function CaptureFrames(captured: string, parse: string -> Option<Frame>): Result<seq<Frame>, Failure> {
    ParseFrames(NonEmpty(Lines(captured)), parse)
  }

  // ---------------------------------------------------------------------------
  // the exit decision

  /** `this.exitCode ? …`: an exit code JavaScript treats as true (not `0`, not `''`). */
  predicate TruthyExitCode(c: Option<ExitCode>) {
    match c
    case None => false
    case Some(Code(n)) => n != 0
    case Some(Signal(s)) => s != ""
  }

  /** The argument `process.exit` is called with: the exit code when it is truthy,
      otherwise none at all. */
  function ExitArgument(exitCode: Option<ExitCode>): (arg: Option<ExitCode>)
    ensures arg.Some? <==> TruthyExitCode(exitCode)
    ensures arg.Some? ==> arg == exitCode
  {
    if TruthyExitCode(exitCode) then exitCode else None
  }

  /** The calls to `process.exit` the constructor makes: one, after rendering, unless
      `autoExit` is `false`. */
  function ExitCalls(autoExit: bool, exitCode: Option<ExitCode>): (calls: seq<Option<ExitCode>>)
    ensures |calls| <= 1
    ensures |calls| == 1 <==> autoExit
    ensures autoExit ==> calls[0] == ExitArgument(exitCode)
  {
    if autoExit then [ExitArgument(exitCode)] else []
  }

  /** The exit calls `calls`, each made once `printed` lines are out and `customs` custom
      loggers have run. */
  function ExitsAt(calls: seq<Option<ExitCode>>, printed: nat, customs: nat): (r: seq<ExitCall>)
    ensures |r| == |calls|
    ensures forall i :: 0 <= i < |r| ==>
              r[i].code == calls[i] && r[i].printed == printed && r[i].customs == customs
  {
    seq(|calls|, i requires 0 <= i < |calls| => ExitCall(calls[i], printed, customs))
  }

  /** An exit code of `0` (or `''`) is shown by the report but not passed to `process.exit`. */
  lemma ZeroExitCodeNotPassed(autoExit: bool)
    ensures ExitCalls(autoExit, Some(Code(0))) == if autoExit then [None] else []
    ensures ExitCalls(autoExit, Some(Signal(""))) == if autoExit then [None] else []
  {
  }

  // ---------------------------------------------------------------------------
  // the error object

  class SweetError {
    var messages: seq<Message>
    var name: Option<string>
    var code: Option<string>
    var exitCode: Option<ExitCode>
    var autoExit: bool
    var colorize: bool
    var locationStyle: LocationStyle
    /** The captured frames; the default logger shifts the first one off. */
    const stack: StackArray

    /** What the default logger reads from the error. */
    function Data(): ErrorData
      reads this
    {
      ErrorData(messages, name, code, exitCode, colorize, locationStyle)
    }

    /** The constructor after its checks: set the fields, run the logger (the custom one
        when `config.logger` is a function, the default one when it is missing or falsy),
        then exit unless `autoExit` is `false`. */
    constructor (messages: seq<Message>, config: Config, frames: seq<Frame>, host: Host,
                 format: Value -> string)
      requires !config.logger.NotFunction?
      modifies host
      ensures this.messages == messages && name == config.name && code == config.code
      ensures exitCode == config.exitCode
      ensures autoExit == FlagOrTrue(config.autoExit) && colorize == FlagOrTrue(config.colorize)
      ensures locationStyle == ResolveStyle(config.locationStyle)
      ensures fresh(stack)
      ensures config.logger.Function? ==>
                stack.frames == frames && host.out == old(host.out) && host.drawn == old(host.drawn) &&
                host.customRuns == old(host.customRuns) + [config.logger.id]
      ensures !config.logger.Function? ==>
                var r := Report(Data(), Shifted(frames), Wrapping.DefaultWidth(host.columns), format,
                                host.random, old(host.drawn));
                stack.frames == Shifted(frames) && host.out == old(host.out) + r.value &&
                host.drawn == r.next && host.customRuns == old(host.customRuns)
      ensures host.exits == old(host.exits) + ExitsAt(ExitCalls(autoExit, exitCode), |host.out|, |host.customRuns|)
    {
      this.messages := messages;
      name := config.name;
      code := config.code;
      exitCode := config.exitCode;
      autoExit := FlagOrTrue(config.autoExit);
      colorize := FlagOrTrue(config.colorize);
      locationStyle := ResolveStyle(config.locationStyle);
      stack := new StackArray(frames);
      new;
      if config.logger.Function? {
        host.RunCustom(config.logger.id);
      } else {
        Log(Data(), stack, host, format);
      }
      if autoExit {
        host.Exit(ExitArgument(exitCode));
      }
    }

    /** `new SweetError(messages, config)`: the argument checks come first and throw before
        anything is captured or printed; then the stack is captured, filtered and parsed;
        then the constructor proper runs. */
    static method New(messages: MessagesArg, config: Config, captured: string,
                      parse: string -> Option<Frame>, host: Host, format: Value -> string)
      returns (r: Result<SweetError, Failure>)
      modifies host
      ensures messages.NotArray? ==> r == Err(MessagesNotArray(messages.typeName))
      ensures messages.Array? && config.logger.NotFunction? ==>
                r == Err(LoggerNotFunction(config.logger.typeName))
      ensures messages.Array? && !config.logger.NotFunction? && CaptureFrames(captured, parse).Err? ==>
                r == Err(CaptureFrames(captured, parse).error)
      ensures r.Err? ==>
                host.out == old(host.out) && host.exits == old(host.exits) &&
                host.customRuns == old(host.customRuns) && host.drawn == old(host.drawn)
      ensures r.Ok? <==> messages.Array? && !config.logger.NotFunction? && CaptureFrames(captured, parse).Ok?
      ensures r.Ok? ==>
                fresh(r.value) && fresh(r.value.stack) && r.value.messages == messages.items &&
                r.value.name == config.name && r.value.code == config.code &&
                r.value.exitCode == config.exitCode &&
                r.value.autoExit == FlagOrTrue(config.autoExit) &&
                r.value.colorize == FlagOrTrue(config.colorize) &&
                r.value.locationStyle == ResolveStyle(config.locationStyle) &&
                host.exits == old(host.exits) +
                              ExitsAt(ExitCalls(r.value.autoExit, r.value.exitCode), |host.out|, |host.customRuns|)
      ensures r.Ok? && config.logger.Function? ==>
                r.value.stack.frames == CaptureFrames(captured, parse).value &&
                host.out == old(host.out) && host.drawn == old(host.drawn) &&
                host.customRuns == old(host.customRuns) + [config.logger.id]
      ensures r.Ok? && !config.logger.Function? ==>
                var frames := CaptureFrames(captured, parse).value;
                var rep := Report(r.value.Data(), Shifted(frames), Wrapping.DefaultWidth(host.columns),
                                  format, host.random, old(host.drawn));
                r.value.stack.frames == Shifted(frames) && host.out == old(host.out) + rep.value &&
                host.drawn == rep.next && host.customRuns == old(host.customRuns)
    {
      if messages.NotArray? {
        return Err(MessagesNotArray(messages.typeName));
      }
      if config.logger.NotFunction? {
        return Err(LoggerNotFunction(config.logger.typeName));
      }
      var frames := CaptureFrames(captured, parse);
      if frames.Err? {
        return Err(frames.error);
      }
      var e := new SweetError(messages.items, config, frames.value, host, format);
      return Ok(e);
    }
  }
}
