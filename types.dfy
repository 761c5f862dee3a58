/**
 * The data a report is built from (the configuration of `types.ts` and the values the
 * constructor receives), and the mutable objects the pipeline shares: the captured stack
 * array, which `logStack` shifts in place, and the host process (console, exit, random
 * numbers and terminal width).
 */
module Types {
  import opened Wrappers
  import opened Colouring

  /** `locationStyle`: the three documented layouts, or any other string a caller passes. */
  datatype LocationStyle = Label | Coords | Full | Unknown(name: string)

  /** `exitCode?: number | string`: an exit code or a signal name. */
  datatype ExitCode = Code(n: int) | Signal(name: string)

  /** A value that `json5.stringify` serialises (an object, an array or `null`). */
  type Value

  /** One entry of `messages`, classified by `typeof`: a string, an object (serialised),
      or anything else (a number, a boolean, ...), shown through `String(message)`. */
  datatype Message = Text(text: string) | Structured(value: Value) | Scalar(shown: string)

  /** `config.logger` as the constructor tests it: missing, falsy (`null`, `0`, `''`,
      `false`), a function (named by `id`), or a truthy value of another type. */
  datatype LoggerOption = Absent | Falsy | Function(id: nat) | NotFunction(typeName: string)

  /** `ErrorConfig`; `None` is a missing (or `undefined`) property. */
  datatype Config = Config(
    name: Option<string>,
    code: Option<string>,
    exitCode: Option<ExitCode>,
    autoExit: Option<bool>,
    colorize: Option<bool>,
    locationStyle: Option<string>,
    logger: LoggerOption)

  /** A frame as `StackUtils.parseLine` returns it: the optional line, column and file,
      then the other properties (function, method, native, ...) in key order, each with
      its value as `String` shows it. */
  datatype Frame = Frame(
    line: Option<int>,
    column: Option<int>,
    file: Option<string>,
    rest: seq<(string, string)>)

  /** A call to `process.exit`: its argument, and how many lines had been printed and how
      many custom loggers had run when it was made, which places it among the other
      effects. */
  datatype ExitCall = ExitCall(code: Option<ExitCode>, printed: nat, customs: nat)

  /** The error's `stack` array: the property is read-only, its contents are not. */
  class StackArray {
    var frames: seq<Frame>

    constructor (frames: seq<Frame>)
      ensures this.frames == frames
    {
      this.frames := frames;
    }

    /** `Array.prototype.shift`, its result discarded: drop the first frame, if any. */
    method Shift()
      modifies this
      ensures frames == if old(frames) == [] then [] else old(frames)[1..]
    {
      if frames != [] {
        frames := frames[1..];
      }
    }
  }

  /**
   * The process the report runs in. `out` is everything written by `console.log`, one
   * entry per call; `exits` records the calls to `process.exit` (with their argument, if
   * any, and the point of the run they were made at); `customRuns` records the custom loggers called; `random(drawn)` is the next
   * value `Math.random()` returns; `columns` is `process.stdout.columns`.
   */
  class Host {
    var out: seq<string>
    var exits: seq<ExitCall>
    var customRuns: seq<nat>
    var drawn: nat
    const random: nat -> Draw
    const columns: Option<int>

    constructor (random: nat -> Draw, columns: Option<int>)
      ensures out == [] && exits == [] && customRuns == [] && drawn == 0
      ensures this.random == random && this.columns == columns
    {
      out := [];
      exits := [];
      customRuns := [];
      drawn := 0;
      this.random := random;
      this.columns := columns;
    }

    /** `console.log(line)`. */
    method Log(line: string)
      modifies this
      ensures out == old(out) + [line]
      ensures exits == old(exits) && customRuns == old(customRuns) && drawn == old(drawn)
    {
      out := out + [line];
    }

    /** `process.exit(code)`, or `process.exit()` when `code` is `None`, after the lines and
        custom runs recorded so far. */
    method Exit(code: Option<ExitCode>)
      modifies this
      ensures exits == old(exits) + [ExitCall(code, |out|, |customRuns|)]
      ensures out == old(out) && customRuns == old(customRuns) && drawn == old(drawn)
    {
      exits := exits + [ExitCall(code, |out|, |customRuns|)];
    }

    /** `config.logger.call(error)` for the custom logger `id`. Only the call is recorded:
        what the logger's own body prints, draws, shifts or exits is not modelled. */
    method RunCustom(id: nat)
      modifies this
      ensures customRuns == old(customRuns) + [id]
      ensures out == old(out) && exits == old(exits) && drawn == old(drawn)
    {
      customRuns := customRuns + [id];
    }
  }
}
