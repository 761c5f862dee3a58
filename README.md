# sweet-error, modelled in Dafny

`sweet-error` is a TypeScript error class for command-line programs. Its constructor
checks its arguments, fills in configuration defaults and captures the call stack.
It then prints a styled report to the console and, unless told otherwise, ends the
process. The report is, in order:

- a banner with the error name;
- the messages, word-wrapped, indented and randomly coloured;
- the stack frames, in one of three location layouts;
- the error code;
- the exit code.

This project models the report pipeline and the constructor, and proves properties
about them:

- `strings.dfy` (`Strings`): the JavaScript string operations the code relies on, each
  stated as a function: `length`, `split`, `join`, `trim`, `repeat`, `replace` with a
  string pattern, `String(n)`, and the filter that keeps non-empty strings.
- `styles.dfy` (`Styles`): `chalk` styling. A style is a pair of private-use marker
  characters around the text. `Strip` removes the markers, so "what a reader sees"
  becomes a function that can be reasoned about.
- `wrap.dfy` (`Wrapping`): `wrap(text, width)`, the greedy word wrap, as a method with
  its loop. It is proved against the fold `WrapText` that specifies it. Lengths are
  JavaScript's `length`, in UTF-16 code units (`Strings.JsLength`), so a character
  outside the Basic Multilingual Plane counts twice.
- `indent.dfy` (`Indenting`): `indent(string, padding)`.
- `colorize.dfy` (`Colouring`): `colorize(sentence)`, with `Math.random()` as a
  sequence of draws in [0, 1).
- `types.dfy` (`Types`): the configuration and frame records. It also holds the two
  mutable objects the pipeline shares:
  - `StackArray`: the error's stack array, which `logStack` shifts in place;
  - `Host`: the console output, the `process.exit` calls, the custom-logger calls, the
    draw counter and the terminal width. Each exit call is stamped with the number of
    lines printed and custom loggers run before it, which orders it against them.
- `logger.dfy` (`Logger`): the default logger and its block printers. Each block is
  specified by a function from the error's data to the lines it prints. The methods
  print those lines on the `Host`.
- `sweeterror.dfy` (`SweetErrors`): the `SweetError` class and its constructor: argument
  checks, defaults, the stack pipeline, logger dispatch and the exit decision.

Randomness is an explicit parameter. The `k`-th value `Math.random()` returns is
`random(k)`. Every function that colours text takes the number of values already
drawn and returns the number drawn after it (`Drawn<T>`).

## Model

| member | source | states |
|---|---|---|
| Wrapping.DefaultWidth | src/utils/wrap.ts:12 | The default width always lies in [20, 80]. It is 80 when the terminal width is unknown; otherwise the terminal width clamped to [20, 80]. |
| Wrapping.Wrap | src/utils/wrap.ts:8-32 | The loop computes `WrapText`. The output has exactly the words of the input (maximal runs without spaces or line breaks), in order, and the same text once spaces and line breaks are squeezed out. For a text without line breaks, every output line is at most `width + 1` UTF-16 code units long, empty, or a single word. Each break comes before a word that would not have fitted on the line before it. |
| Wrapping.WrapKeepsWords | src/utils/wrap.ts:17-28 | No word is split, merged, dropped or reordered: the words of the output are the words of the input, for every text and width. Squeezing out spaces and line breaks gives the same text before and after wrapping. |
| Wrapping.FoldWords | src/utils/wrap.ts:17-28 | After any number of iterations, the words of the output are the words of the pieces consumed so far, piece after piece. |
| Wrapping.StepWords | src/utils/wrap.ts:18-28 | Each iteration adds the words of its piece after the words already output: the piece follows a line break or a space, or is glued only to an empty output or one that ends with a line break. |
| Wrapping.FoldLineStart | src/utils/wrap.ts:15-28 | `lineLength` never goes negative, and when it is zero the output so far is empty or ends with a line break. |
| Wrapping.SurrogatePairsCount | src/utils/wrap.ts:18-20 | Word lengths are UTF-16 lengths: three emoji followed by ` a` at width 5 come out as a line break, the emoji, a line break and `a`. |
| Strings.JsLengthAppend | src/utils/wrap.ts:18 | `length` of a concatenation is the sum of the lengths. |
| Strings.JsLengthBmp | src/utils/wrap.ts:18 | `length` equals the character count exactly when no character lies outside the Basic Multilingual Plane. |
| Wrapping.WrapLineBounds | src/utils/wrap.ts:17-28 | For a text without line breaks, every output line has at most `width + 1` UTF-16 code units, unless it is empty or a single word of the input. Every line, together with the next line's first word, exceeds `width`. |
| Wrapping.FoldLines | src/utils/wrap.ts:14-29 | Loop invariant over any words without spaces or line breaks. `lineLength` is the UTF-16 length of the text after the last line break. A line longer than `width + 1` is a single word. Each line plus the next line's first word exceeds `width`. |
| Wrapping.StepLines | src/utils/wrap.ts:18-28 | One iteration preserves the line invariant, in all three branches. |
| Wrapping.StepBreak | src/utils/wrap.ts:18-20 | A word that overflows starts a new line of its own. |
| Wrapping.StepSpace | src/utils/wrap.ts:22-27 | A word that fits joins the current line after one space; the space is not counted by the overflow test. |
| Wrapping.StepStart | src/utils/wrap.ts:26-27 | A word that fits on an empty line is put there without a space. |
| Wrapping.FoldPrefix | src/utils/wrap.ts:17-29 | The output only grows: the text after the first `i` words is a prefix of the final text. |
| Wrapping.LongFirstWord | src/utils/wrap.ts:18-20 | A first word longer than `width` makes the output begin with a line break. |
| Wrapping.WrapEmpty | src/utils/wrap.ts:14-31 | The empty text wraps to itself when `width >= 0`, and to one line break when `width < 0`. |
| Indenting.IndentArg | src/utils/indent.ts:8-16 | `indent` fails exactly when the padding is negative, because `repeat` rejects it. A missing padding means no padding. Otherwise the result is `Indent`. |
| Indenting.IndentLines | src/utils/indent.ts:9-15 | Output line `i` is `padding` spaces followed by line `i` of the trimmed input, blank lines included. The line count is kept. |
| Indenting.IndentLength | src/utils/indent.ts:10-15 | The output is as long as the trimmed input plus `padding` per line. |
| Indenting.IndentZero | src/utils/indent.ts:13 | `indent(s, 0)` and `indent(s)` both equal `trim(s)`. |
| Indenting.IndentZeroIdempotent | src/utils/indent.ts:10 | Indenting by zero twice is the same as indenting by zero once. |
| Indenting.IndentOneLine | src/utils/indent.ts:10-15 | A one-line text with visible characters at both ends only gets the spaces in front. |
| Strings.TrimInfix | src/utils/indent.ts:10 | `trim` removes only whitespace: the result is the slice of the text between a leading and a trailing whitespace run. |
| Strings.TrimFixed | src/utils/indent.ts:10 | `trim` leaves a text unchanged exactly when it is empty or has no whitespace at either end. |
| Colouring.ColourIndex | src/utils/colorize.ts:32 | `floor(r * 14)` for a draw `r` in [0, 1) always indexes the 14-colour palette. |
| Colouring.TokenizeRoundTrip | src/utils/colorize.ts:27 | The tokens of `split(/(\s+)/)` concatenate back to the sentence. |
| Colouring.TokenizeShape | src/utils/colorize.ts:27 | There is an odd number of tokens. Words (possibly empty) sit at even positions and non-empty whitespace runs at odd ones. Inner words are non-empty. A sentence with a visible first or last character has a non-empty first or last word. |
| Colouring.PaintAt | src/utils/colorize.ts:30-36 | A whitespace-only token is returned unchanged. A token with a visible character is wrapped in exactly one colour: the one picked by its own draw, which is the draw after all earlier painted tokens. |
| Colouring.StripPaint | src/utils/colorize.ts:30-37 | Painting the tokens does not change the visible text of their concatenation. |
| Colouring.ColorizeStrip | src/utils/colorize.ts:29-37 | `colorize` keeps the visible text. A sentence without markers comes back exactly as it was once the styles are stripped. |
| Colouring.ColorizeEdges | src/utils/colorize.ts:29-37 | A sentence with visible characters at both ends is coloured into a string that starts and ends with a style marker. |
| Types.StackArray.Shift | src/utils/logger.ts:125 | `shift()` drops the first frame in place, if there is one, and keeps the rest in order. |
| Types.Host.Exit | src/SweetError.ts:155 | Records one `process.exit` call, with its argument and the number of lines printed and custom loggers run before it, and changes nothing else. |
| Logger.LogBlocks | src/utils/logger.ts:32-63 | The message loop prints the blocks in index order, each coloured from the draws the earlier blocks left. The output is `EmitUpTo`. |
| Logger.LogName | src/utils/logger.ts:77-83 | Prints the banner lines, and nothing when the name is missing or empty. |
| Logger.LogCode | src/utils/logger.ts:90-100 | Prints the code block: a blank line, then the underlined code, grey when colouring. |
| Logger.LogExitCode | src/utils/logger.ts:107-117 | Prints the exit-code block when an exit code is given. |
| Logger.LogStack | src/utils/logger.ts:124-176 | Shifts the shared stack in place, then prints a blank line and the lines of the remaining frames. |
| Logger.Log | src/utils/logger.ts:29-70 | The output is exactly `Report`: banner, messages, stack, code, exit code, in that order. The stack loses its first frame. No exit or custom logger is triggered. |
| Logger.EmitPrefix | src/utils/logger.ts:29-70 | The lines of the first `n` blocks begin the lines of the first `m`: nothing is reordered or printed twice. |
| Logger.EmitBlockAt | src/utils/logger.ts:32-63 | Block `i` sits right after the blocks before it, printed from the draws they left. |
| Logger.EmitCount | src/utils/logger.ts:129-176 | Blocks of `c` lines each give `n * c` lines. |
| Logger.BannerShape | src/utils/logger.ts:77-83 | A banner is printed exactly when the name is truthy. For a name without style markers, it shows `🔴 ` followed by the name. |
| Logger.TextMessage | src/utils/logger.ts:36-49 | A string message is one line. Its visible text is the wrapped text, indented by two under a name. Colour changes only the styling, uses the draws, and is applied after indenting. |
| Logger.MessageDraws | src/utils/logger.ts:50-62 | Only a coloured string message draws random numbers. A scalar prints as two spaces and its text. An object prints `indent(format(message), 2)`, preceded by a blank line unless it is first and followed by one unless it is last; every other line of its block is blank. |
| Logger.LoneObject | src/utils/logger.ts:50-59 | An object message alone in the list prints only its indented serialisation. |
| Logger.AdjacentObjects | src/utils/logger.ts:50-59 | Two object messages in a row are separated by two blank lines. |
| Logger.ReportWithoutColour | src/utils/logger.ts:29-70 | With colouring off, the report draws no random number and does not depend on the draws. |
| Logger.MessagesWithoutColour | src/utils/logger.ts:36-49 | With colouring off, the message lines draw nothing and do not depend on the draws. |
| Logger.StackWithoutColour | src/utils/logger.ts:187-196 | With colouring off, the stack lines draw nothing and do not depend on the draws. |
| Logger.FieldTextsUndrawn | src/utils/logger.ts:189-193 | Uncoloured property texts draw nothing and do not depend on the draws. |
| Logger.ReportNotEmpty | src/utils/logger.ts:124-127 | The report always prints at least the stack's blank line, right after the banner and the messages. |
| Logger.StackShape | src/utils/logger.ts:124-176 | The stack block is one blank line, even with no frames left, plus one line per frame for the three known layouts and none for any other style. |
| Logger.StackLineAt | src/utils/logger.ts:129-175 | In a known layout, line `1 + i` of the stack block is the line of frame `i`, coloured from the draws the frames before it left: frames print in stack order, one line each. |
| Logger.CodeShape | src/utils/logger.ts:90-100 | The code block appears exactly when the code is truthy. It is a blank line, then, for a one-line code without style markers, the code visible after two spaces. |
| Logger.ExitShape | src/utils/logger.ts:107-117 | The exit-code block appears exactly when an exit code is given, `0` included. For a code whose text holds no style marker, it shows `🟡 Exit code: ` and the code. |
| Logger.ExitZeroShown | src/utils/logger.ts:108-116 | An exit code of 0 is printed. |
| Logger.FieldTextsVisible | src/utils/logger.ts:188-194 | For properties whose keys and values hold no style marker and no line break, the property texts show `key: value ` for every property, in key order. |
| Logger.FormatStackLineVisible | src/utils/logger.ts:187-196 | For properties whose keys and values hold no style marker and no line break, with a non-empty first key and a non-empty last value, `formatStackLine` shows the properties in key order and trims exactly the final space. Its result then starts and ends with a style marker. |
| Logger.FrameLineVisible | src/utils/logger.ts:129-176 | A frame in a known layout whose values hold no style marker and no line break, whose file is non-empty when given and whose extra values are non-empty, prints one line. It shows two spaces, the arrow, and the properties of its layout. |
| Logger.StackLineVisible | src/utils/logger.ts:134-145 | Under the same conditions as `FormatStackLineVisible` (no marker or line break in keys and values, a non-empty first key and last value), `indent('→ ' + formatStackLine(...), 2)` shows `  → ` followed by the properties. |
| Logger.FrameLineShows | src/utils/logger.ts:129-176 | For a frame in a known layout whose values hold no style marker and no line break, with a non-empty file when one is given and non-empty extra values, the visible frame line is `  → ` followed by the properties without the trailing space. |
| Logger.LabelLayoutExample | src/utils/logger.ts:133-146 | The `label` layout of line 3, column 1, `index.ts` shows `→ line: 3 column: 1 file: index.ts`. |
| Logger.CoordsLayoutExample | src/utils/logger.ts:147-158 | The `coords` layout of the same frame shows `→ file: index.ts:3:1`. |
| Logger.FullLayoutExample | src/utils/logger.ts:159-172 | The `full` layout of the same frame shows `→ line: 3 column: 1 file: index.ts:3:1`. |
| SweetErrors.FlagOrTrue | src/SweetError.ts:134-135 | A flag is off exactly when it is explicitly `false`. |
| SweetErrors.ResolveStyle | src/SweetError.ts:136 | A missing or empty style, or `label`, gives the label layout; `coords` and `full` give theirs; any other string gives no layout. |
| Strings.NonEmpty | src/SweetError.ts:141 | The filter keeps only non-empty lines taken from the input. |
| Strings.NonEmptyAppend | src/SweetError.ts:141 | Filtering distributes over concatenation, so surviving lines keep their order. |
| Strings.NonEmptyKeeps | src/SweetError.ts:141 | Every non-empty line survives; a stack with no empty line is kept whole. |
| SweetErrors.NormaliseFrame | src/SweetError.ts:145-147 | Only the file changes. A frame has a file after normalisation exactly when it had one before. |
| SweetErrors.NormaliseFileUrl | src/SweetError.ts:145-147 | A `file://` URL loses its scheme. A file without `file://` is left alone. |
| SweetErrors.ParseFrames | src/SweetError.ts:142-150 | Succeeds exactly when every line parses, and maps lines to normalised frames one to one. Otherwise it fails on the first line the parser rejects. |
| SweetErrors.ExitArgument | src/SweetError.ts:155 | `process.exit` gets the exit code exactly when it is truthy, so `0` and `''` give a call without an argument. |
| SweetErrors.ExitCalls | src/SweetError.ts:154-156 | Exactly one exit call is made when `autoExit` is on, none otherwise. |
| SweetErrors.ZeroExitCodeNotPassed | src/SweetError.ts:155 | Exit code `0` or `''` leads to a call to `process.exit()` without an argument. |
| SweetErrors.SweetError.constructor | src/SweetError.ts:130-156 | Sets the fields from the configuration with their defaults. A function logger is called once and the default report is not printed; the custom logger's own effects are not modelled. Otherwise the output is the `Report` of the shifted stack. The exit calls are those of `ExitCalls`, each made after every line printed and every custom logger run, so exit comes after rendering. |
| SweetErrors.SweetError.New | src/SweetError.ts:113-157 | A non-array `messages` fails first, then a truthy non-function logger, then an unparsable stack line. Any failure leaves the host untouched. Otherwise every field is set from the configuration with its defaults. A function logger is called once and the default report is not printed; the custom logger's own effects are not modelled, and the stack keeps every captured frame. Otherwise the output is the `Report` of the shifted stack, the draws advance by what it drew, and no custom logger runs. Finally exit is requested as `ExitCalls` says, after every line printed and every custom logger run. |

## Left out

- `src/utils/format.ts` (`json5.stringify`) is not part of this model. Serialisation is the parameter `format: Value -> string`, with `Value` an abstract type.
- `chalk`: real ANSI escape codes, colour support detection, and the re-opening of styles after a line break inside styled text are not modelled. A style is one marker pair around the whole text, and the empty string stays unstyled, as in chalk. The markers are the characters U+E000 to U+E0FF: the visible-text lemmas (`BannerShape`, `CodeShape`, `ExitShape`, `FieldTextsVisible` and those built on them) assume user text holds none of them.
- `stack-utils` (`captureString`, `parseLine`) is not part of this model. The captured text and the parser are parameters. A line the parser rejects (`null`) makes `'file' in null` throw; that is the `FrameNotParsed` failure.
- `process.cwd()` only configures stack-utils and is not modelled. `process.stdout.columns` is `Host.columns`.
- `console.log` and `process.exit` are recorded on the `Host`: the printed lines, and the exit calls with their arguments. `console.log(a, b, c)` is one line, `a b c`. The process does not actually stop, so the model records what happens after the exit call instead of ending there.
- The body of a custom `config.logger` is arbitrary user code. Only the call is recorded (`Host.customRuns`).
- Types.Host.RunCustom: a custom logger's own effects are abstracted to none. The logger documented in `src/utils/logger.ts:18-24` prints lines and draws colours, and a custom logger may also shift `this.stack` or call `process.exit`. The model records only the call, so the constructor's and `New`'s claims that, under a function logger, the output, the draws and the stack stay as they were mean only that the constructor itself prints nothing, draws nothing and does not shift.
- SweetErrors.SweetError.constructor: under a function logger it promises only the constructor's own effects (the call, then the exit), for the reason given on the `Types.Host.RunCustom` line.
- SweetErrors.SweetError.New: under a function logger, its unchanged output, draws and stack are likewise only the constructor's own effects.
- The `func` bundle the constructor exposes to custom loggers (`colorize`, `format`, `indent`, `wrap`) only re-exports the modelled functions; the property itself is not modelled.
- `src/types.ts` is declarations only; its shapes are the datatypes in `types.dfy`. `rollup.config.mjs` and `tsup.config.ts` are build configuration.
- Message values are classified by `typeof`. A message that is neither a string nor an object is printed as `'  ' + message` (`Scalar`, holding the text that concatenation produces). An exit code is an integer or a string; `NaN` and non-integer numbers are not modelled.
- The default logger's exceptions are not modelled: `Log` and the `format` parameter are total. A Symbol message makes `'  ' + message` throw a `TypeError`. `json5.stringify` throws on a cyclic object, and `indent` throws when serialisation yields `undefined` (a value whose `toJSON` returns `undefined`). In each case the real constructor throws after printing part of the report and never reaches `process.exit`; the model has no such message or value.
- Wrapping.Wrap: its line-length and break facts are stated only for texts without line breaks. A `'\n'` inside a word is counted by `lineLength` as an ordinary character, so those facts do not hold for such texts; the word-preservation fact holds for all texts.
- Colouring.ColorizeEdges: stated for sentences whose first and last characters are visible, the only ones the stack-line lemmas need.
- Logger.FormatStackLineVisible, Logger.StackLineVisible: stated for properties whose keys and values hold no style marker and no line break, with a non-empty first key and a non-empty last value. An empty last value leaves the line ending in `:`: `trim` then removes two spaces, and the line does not end in a marker.
- Logger.FrameLineShows: stated under the conditions of `Logger.FrameLineVisible` below.
- Logger.FrameLineVisible: stated for frames whose values hold no style marker and no line break, and whose other properties have non-empty values. With a line break inside a value, `indent` would split the line.

Three behaviours of the code worth knowing, all modelled as the code has them:

- A negative `padding` makes `indent` throw, because `' '.repeat` rejects it; `IndentArg` returns an error.
- In the `label` and `full` layouts, a missing line, column or file is printed as `undefined`.
- A stack line that `parseLine` cannot parse (it returns `null`) makes the constructor throw at `'file' in null`; it is not skipped.
