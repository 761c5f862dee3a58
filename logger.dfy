/**
 * The default report renderer (`logger`) and its block printers (`logName`,
 * `logStack` with its line formatter `formatStackLine`, `logCode`, `logExitCode`).
 *
 * Each block is specified by a function from the error's data to the lines it prints;
 * where colouring is on, the functions also thread the number `k` of values already
 * drawn from `Math.random()`, and return the number drawn afterwards. The methods print
 * those lines on the host, in order, and the lemmas state what the lines look like.
 */
module Logger {
  import opened Wrappers
  import opened Strings
  import opened Styles
  import opened Colouring
  import opened Wrapping
  import opened Indenting
  import opened Types

  /** What the default logger reads from the error (its `this`), after the constructor
      resolved the defaults. */
  datatype ErrorData = ErrorData(
    messages: seq<Message>,
    name: Option<string>,
    code: Option<string>,
    exitCode: Option<ExitCode>,
    colorize: bool,
    locationStyle: LocationStyle)

  /** A value computed together with the number of random draws made up to it. */
  datatype Drawn<T> = Drawn(value: T, next: nat)

  /** A string option that JavaScript treats as true: present and not empty. */
  predicate Truthy(s: Option<string>) {
    s.Some? && s.value != []
  }

  const RedCircle: string := "\U{1F534}"
  const YellowCircle: string := "\U{1F7E1}"
  const Arrow: string := "\U{2192}"

  // ---------------------------------------------------------------------------
  // the blocks, as functions

  /** `logName`: the banner, `console.log('🔴', chalk.red.bold.underline(name))`. */
  function BannerLines(name: Option<string>): seq<string> {
    if Truthy(name) then [RedCircle + " " + Style([Fg(Red), Bold, Underline], name.value)] else []
  }

  /** The line printed for a string message, before colouring: wrapped to `width`, and
      indented by two when the error has a name. */
  function TextBase(text: string, named: bool, width: int): string {
    if named then Indent(WrapText(text, width), 2) else WrapText(text, width)
  }

  /** The lines printed for message `i` of the error. */
  function MessageLines(e: ErrorData, i: nat, width: int, format: Value -> string,
                        random: nat -> Draw, k: nat): Drawn<seq<string>>
    requires i < |e.messages|
  {
    match e.messages[i]
    case Text(t) =>
      var base := TextBase(t, Truthy(e.name), width);
      if e.colorize then Drawn([Colorize(base, random, k)], k + DrawsOf(base))
      else Drawn([base], k)
    case Structured(v) =>
      Drawn((if i != 0 then [""] else []) + [Indent(format(v), 2)] +
            (if i != |e.messages| - 1 then [""] else []), k)
    case Scalar(shown) =>
      Drawn(["  " + shown], k)
  }

  /** Message `i` as a block of the report (no lines past the last message). */
  function MessageBlock(e: ErrorData, width: int, format: Value -> string, random: nat -> Draw): (nat, nat) -> Drawn<seq<string>> {
    (i: nat, k: nat) => if i < |e.messages| then MessageLines(e, i, width, format, random, k) else Drawn([], k)
  }

  /** The lines of blocks `0` to `n - 1`, in order; each block is printed from the
      number of draws the blocks before it left. */
  function EmitUpTo(n: nat, block: (nat, nat) -> Drawn<seq<string>>, k: nat): Drawn<seq<string>>
    decreases n
  {
    if n == 0 then Drawn([], k)
    else
      var prev := EmitUpTo(n - 1, block, k);
      var b := block(n - 1, prev.next);
      Drawn(prev.value + b.value, b.next)
  }

  /** A number as a template literal shows it; a missing one is `undefined`. */
  function ShowInt(o: Option<int>): string {
    match o
    case Some(n) => IntToString(n)
    case None => "undefined"
  }

  function ShowFile(o: Option<string>): string {
    match o
    case Some(f) => f
    case None => "undefined"
  }

  /** `${file}:${line}:${column}`. */
  function Location(f: Frame): string {
    ShowFile(f.file) + ":" + ShowInt(f.line) + ":" + ShowInt(f.column)
  }

  /** The object handed to `formatStackLine` for a frame, as its keys and values in order. */
  function Fields(f: Frame, style: LocationStyle): seq<(string, string)>
    requires !style.Unknown?
  {
    match style
    case Label => [("line", ShowInt(f.line)), ("column", ShowInt(f.column)), ("file", ShowFile(f.file))] + f.rest
    case Coords => [("file", Location(f))] + f.rest
    case Full => [("line", ShowInt(f.line)), ("column", ShowInt(f.column)), ("file", Location(f))] + f.rest
  }

  /** The text `formatStackLine` maps one property to: bold key, colon, italic value
      (coloured when `colorize`), and a trailing space. */
  function FieldText(field: (string, string), colorize: bool, random: nat -> Draw, k: nat): Drawn<string> {
    var v := Style([Italic], field.1);
    if colorize then Drawn(Style([Bold], field.0) + ": " + Colorize(v, random, k) + " ", k + DrawsOf(v))
    else Drawn(Style([Bold], field.0) + ": " + v + " ", k)
  }

  /** The mapped texts of all the properties, in key order. */
  function FieldTexts(fields: seq<(string, string)>, colorize: bool, random: nat -> Draw, k: nat): (r: Drawn<seq<string>>)
    ensures |r.value| == |fields|
    decreases |fields|
  {
    if fields == [] then Drawn([], k)
    else
      var head := FieldText(fields[0], colorize, random, k);
      var tail := FieldTexts(fields[1..], colorize, random, head.next);
      Drawn([head.value] + tail.value, tail.next)
  }

  /** `formatStackLine`: the mapped texts, joined with nothing and trimmed. */
  function FormatStackLine(fields: seq<(string, string)>, colorize: bool, random: nat -> Draw, k: nat): Drawn<string> {
    var t := FieldTexts(fields, colorize, random, k);
    Drawn(Trim(Concat(t.value)), t.next)
  }

  /** The line printed for one frame: none for an unknown style. */
  function FrameLines(f: Frame, style: LocationStyle, colorize: bool, random: nat -> Draw, k: nat): Drawn<seq<string>> {
    if style.Unknown? then Drawn([], k)
    else
      var s := FormatStackLine(Fields(f, style), colorize, random, k);
      Drawn([Indent(Arrow + " " + s.value, 2)], s.next)
  }

  /** Frame `i` as a block of the stack (no lines past the last frame). */
  function FrameBlock(frames: seq<Frame>, style: LocationStyle, colorize: bool, random: nat -> Draw): (nat, nat) -> Drawn<seq<string>> {
    (i: nat, k: nat) => if i < |frames| then FrameLines(frames[i], style, colorize, random, k) else Drawn([], k)
  }

  /** The stack block for the frames left after the shift: a blank line, then the frames. */
  function StackLines(frames: seq<Frame>, style: LocationStyle, colorize: bool,
                      random: nat -> Draw, k: nat): Drawn<seq<string>> {
    var f := EmitUpTo(|frames|, FrameBlock(frames, style, colorize, random), k);
    Drawn([""] + f.value, f.next)
  }

  /** `logCode`: a blank line, then the underlined code (also grey when colouring). */
  function CodeLines(code: Option<string>, colorize: bool): seq<string> {
    if !Truthy(code) then []
    else
      var attrs := if colorize then [Fg(Gray), Underline] else [Underline];
      ["", Indent(Style(attrs, code.value), 2)]
  }

  /** An exit code as `console.log` prints it: a number in decimal, a string as it is. */
  function ShowExitCode(c: ExitCode): string {
    match c
    case Code(n) => IntToString(n)
    case Signal(s) => s
  }

  /** `logExitCode`: a blank line, then `🟡 Exit code: <exitCode>`. */
  function ExitLines(exitCode: Option<ExitCode>, colorize: bool): seq<string> {
    match exitCode
    case None => []
    case Some(c) =>
      var caption := if colorize then Style([Fg(Yellow)], "Exit code:") else "Exit code:";
      ["", YellowCircle + " " + caption + " " + ShowExitCode(c)]
  }

  /** Everything `logger` prints, given the frames left after the shift. */
  function Report(e: ErrorData, frames: seq<Frame>, width: int, format: Value -> string,
                  random: nat -> Draw, k: nat): Drawn<seq<string>> {
    var m := EmitUpTo(|e.messages|, MessageBlock(e, width, format, random), k);
    var s := StackLines(frames, e.locationStyle, e.colorize, random, m.next);
    Drawn(BannerLines(e.name) + m.value + s.value + CodeLines(e.code, e.colorize) +
          ExitLines(e.exitCode, e.colorize), s.next)
  }

  /** The report is never empty: `logStack` always prints its blank line, right after the
      banner and the messages. */
  lemma ReportNotEmpty(e: ErrorData, frames: seq<Frame>, width: int, format: Value -> string,
                       random: nat -> Draw, k: nat)
    ensures var r := Report(e, frames, width, format, random, k).value;
            var at := |BannerLines(e.name)| + |EmitUpTo(|e.messages|, MessageBlock(e, width, format, random), k).value|;
            at < |r| && r[at] == ""
  {
  }

  /** The frames left by `shift`. */
  function Shifted(frames: seq<Frame>): seq<Frame> {
    if frames == [] then [] else frames[1..]
  }

  // ---------------------------------------------------------------------------
  // the printers

  lemma AppendAssoc<T>(a: seq<T>, b: seq<T>, c: seq<T>)
    ensures a + b + c == a + (b + c)
  {
  }

  lemma AppendAssoc5<T>(o: seq<T>, a: seq<T>, b: seq<T>, c: seq<T>, d: seq<T>, e: seq<T>)
    ensures o + a + b + c + d + e == o + (a + b + c + d + e)
  {
  }

  /** `console.log` for each of the given lines, in order. */
  method LogLines(lines: seq<string>, host: Host)
    modifies host
    ensures host.out == old(host.out) + lines
    ensures host.drawn == old(host.drawn) && host.exits == old(host.exits) &&
            host.customRuns == old(host.customRuns)
  {
    for j := 0 to |lines|
      invariant host.out == old(host.out) + lines[..j]
      invariant host.drawn == old(host.drawn) && host.exits == old(host.exits) &&
                host.customRuns == old(host.customRuns)
    {
      host.Log(lines[j]);
      assert lines[..j + 1] == lines[..j] + [lines[j]];
    }
    assert lines[..|lines|] == lines;
  }

  /** The loops of `logger` and `logStack`: print blocks `0` to `n - 1` in order, each
      drawing its colours after the ones before it. */
  method LogBlocks(n: nat, block: (nat, nat) -> Drawn<seq<string>>, host: Host)
    modifies host
    ensures var r := EmitUpTo(n, block, old(host.drawn));
            host.out == old(host.out) + r.value && host.drawn == r.next
    ensures host.exits == old(host.exits) && host.customRuns == old(host.customRuns)
  {
    var start := host.out;
    var k := host.drawn;
    for i := 0 to n
      invariant var r := EmitUpTo(i, block, k);
                host.out == start + r.value && host.drawn == r.next
      invariant host.exits == old(host.exits) && host.customRuns == old(host.customRuns)
    {
      ghost var before := EmitUpTo(i, block, k);
      var b := block(i, host.drawn);
      LogLines(b.value, host);
      host.drawn := b.next;
      AppendAssoc(start, before.value, b.value);
    }
  }

  method LogName(e: ErrorData, host: Host)
    modifies host
    ensures host.out == old(host.out) + BannerLines(e.name)
    ensures host.drawn == old(host.drawn) && host.exits == old(host.exits) &&
            host.customRuns == old(host.customRuns)
  {
    if !Truthy(e.name) {
      return;
    }
    host.Log(RedCircle + " " + Style([Fg(Red), Bold, Underline], e.name.value));
  }

  method LogCode(e: ErrorData, host: Host)
    modifies host
    ensures host.out == old(host.out) + CodeLines(e.code, e.colorize)
    ensures host.drawn == old(host.drawn) && host.exits == old(host.exits) &&
            host.customRuns == old(host.customRuns)
  {
    if !Truthy(e.code) {
      return;
    }
    host.Log("");
    if e.colorize {
      host.Log(Indent(Style([Fg(Gray), Underline], e.code.value), 2));
    } else {
      host.Log(Indent(Style([Underline], e.code.value), 2));
    }
  }

  method LogExitCode(e: ErrorData, host: Host)
    modifies host
    ensures host.out == old(host.out) + ExitLines(e.exitCode, e.colorize)
    ensures host.drawn == old(host.drawn) && host.exits == old(host.exits) &&
            host.customRuns == old(host.customRuns)
  {
    if e.exitCode.None? {
      return;
    }
    host.Log("");
    if e.colorize {
      host.Log(YellowCircle + " " + Style([Fg(Yellow)], "Exit code:") + " " + ShowExitCode(e.exitCode.value));
    } else {
      host.Log(YellowCircle + " " + "Exit code:" + " " + ShowExitCode(e.exitCode.value));
    }
  }

  /** `logStack`: drop the first frame from the shared stack array, print a blank line,
      then the line of each remaining frame in the error's location style. */
  method LogStack(e: ErrorData, stack: StackArray, host: Host)
    modifies stack, host
    ensures stack.frames == Shifted(old(stack.frames))
    ensures var s := StackLines(stack.frames, e.locationStyle, e.colorize, host.random, old(host.drawn));
            host.out == old(host.out) + s.value && host.drawn == s.next
    ensures host.exits == old(host.exits) && host.customRuns == old(host.customRuns)
  {
    stack.Shift();
    host.Log("");
    var frames := stack.frames;
    LogBlocks(|frames|, FrameBlock(frames, e.locationStyle, e.colorize, host.random), host);
    AppendAssoc(old(host.out), [""], EmitUpTo(|frames|, FrameBlock(frames, e.locationStyle, e.colorize, host.random), old(host.drawn)).value);
  }

  /** `logger`: banner, messages in order, stack, code, exit code. */
  method Log(e: ErrorData, stack: StackArray, host: Host, format: Value -> string)
    modifies stack, host
    ensures stack.frames == Shifted(old(stack.frames))
    ensures var r := Report(e, stack.frames, DefaultWidth(host.columns), format, host.random, old(host.drawn));
            host.out == old(host.out) + r.value && host.drawn == r.next
    ensures host.exits == old(host.exits) && host.customRuns == old(host.customRuns)
  {
    var width := DefaultWidth(host.columns);
    LogName(e, host);
    LogBlocks(|e.messages|, MessageBlock(e, width, format, host.random), host);
    ghost var m := EmitUpTo(|e.messages|, MessageBlock(e, width, format, host.random), old(host.drawn));
    LogStack(e, stack, host);
    ghost var st := StackLines(stack.frames, e.locationStyle, e.colorize, host.random, m.next);
    LogCode(e, host);
    LogExitCode(e, host);
    AppendAssoc5(old(host.out), BannerLines(e.name), m.value, st.value,
                 CodeLines(e.code, e.colorize), ExitLines(e.exitCode, e.colorize));
  }

  // ---------------------------------------------------------------------------
  // properties of the blocks

  /** The blocks come out in order: the lines of the first `n` blocks begin the lines of
      the first `m`, so nothing is reordered or printed twice. */
  lemma {:induction false} EmitPrefix(n: nat, m: nat, block: (nat, nat) -> Drawn<seq<string>>, k: nat)
    requires n <= m
    ensures var a := EmitUpTo(n, block, k).value;
            var b := EmitUpTo(m, block, k).value;
            |a| <= |b| && b[..|a|] == a
    decreases m
  {
    if n < m {
      EmitPrefix(n, m - 1, block, k);
      var prev := EmitUpTo(m - 1, block, k);
      var a := EmitUpTo(n, block, k).value;
      assert EmitUpTo(m, block, k).value == prev.value + block(m - 1, prev.next).value;
      assert (prev.value + block(m - 1, prev.next).value)[..|a|] == prev.value[..|a|];
    }
  }

  /** The lines of block `i`, printed from the draws the blocks before it left, sit right
      after the lines of those blocks. */
  lemma EmitBlockAt(i: nat, n: nat, block: (nat, nat) -> Drawn<seq<string>>, k: nat)
    requires i < n
    ensures var before := EmitUpTo(i, block, k);
            var b := block(i, before.next).value;
            var all := EmitUpTo(n, block, k).value;
            |before.value| + |b| <= |all| && all[|before.value|..|before.value| + |b|] == b
  {
    EmitPrefix(i + 1, n, block, k);
    var before := EmitUpTo(i, block, k);
    var b := block(i, before.next).value;
    var upto := EmitUpTo(i + 1, block, k).value;
    assert upto == before.value + b;
    assert upto[|before.value|..] == b;
  }

  /** Blocks of `c` lines each give `n * c` lines. */
  lemma {:induction false} EmitCount(n: nat, block: (nat, nat) -> Drawn<seq<string>>, k: nat, c: nat)
    requires forall i: nat, j: nat :: i < n ==> |block(i, j).value| == c
    ensures |EmitUpTo(n, block, k).value| == n * c
  {
    if n > 0 {
      EmitCount(n - 1, block, k, c);
    }
  }

  /** Blocks that draw nothing, and whose lines do not depend on the draws, print the same
      lines under any two sequences of draws, and draw nothing all together. */
  lemma {:induction false} EmitUndrawn(n: nat, b1: (nat, nat) -> Drawn<seq<string>>, b2: (nat, nat) -> Drawn<seq<string>>,
                                       k1: nat, k2: nat)
    requires forall i: nat, j: nat :: i < n ==> b1(i, j).next == j && b2(i, j).next == j
    requires forall i: nat, j: nat :: i < n ==> b1(i, j).value == b1(i, 0).value && b2(i, j).value == b2(i, 0).value
    requires forall i: nat :: i < n ==> b1(i, 0).value == b2(i, 0).value
    ensures EmitUpTo(n, b1, k1).value == EmitUpTo(n, b2, k2).value
    ensures EmitUpTo(n, b1, k1).next == k1
  {
    if n > 0 {
      EmitUndrawn(n - 1, b1, b2, k1, k2);
      var p1 := EmitUpTo(n - 1, b1, k1);
      var p2 := EmitUpTo(n - 1, b2, k2);
      assert b1(n - 1, p1.next).value == b1(n - 1, 0).value;
      assert b2(n - 1, p2.next).value == b2(n - 1, 0).value;
    }
  }

  /** The banner is printed exactly when the name is truthy, and shows `🔴 ` then the name. */
  lemma BannerShape(name: Option<string>)
    ensures |BannerLines(name)| == if Truthy(name) then 1 else 0
    ensures Truthy(name) && Plain(name.value) ==>
              Strip(BannerLines(name)[0]) == RedCircle + " " + name.value
  {
    if Truthy(name) && Plain(name.value) {
      var styled := Style([Fg(Red), Bold, Underline], name.value);
      StripAppend(RedCircle + " ", styled);
      StripPlain(RedCircle + " ");
      StripStyle([Fg(Red), Bold, Underline], name.value);
      StripPlain(name.value);
    }
  }

  /** A string message is one line: its wrapped (and, under a name, indented) text,
      coloured when `colorize` is on, which changes the styling and nothing visible. */
  lemma TextMessage(e: ErrorData, i: nat, width: int, format: Value -> string, random: nat -> Draw, k: nat)
    requires i < |e.messages| && e.messages[i].Text?
    ensures var m := MessageLines(e, i, width, format, random, k);
            var base := TextBase(e.messages[i].text, Truthy(e.name), width);
            |m.value| == 1 && Strip(m.value[0]) == Strip(base) &&
            (!e.colorize ==> m.value[0] == base && m.next == k) &&
            (e.colorize ==> m.next == k + DrawsOf(base))
  {
    var base := TextBase(e.messages[i].text, Truthy(e.name), width);
    ColorizeStrip(base, random, k);
  }

  /** Only a string message under `colorize` draws random numbers; any other message is
      printed as it is, a scalar as two spaces and its `String` form. */
  lemma MessageDraws(e: ErrorData, i: nat, width: int, format: Value -> string, random: nat -> Draw, k: nat)
    requires i < |e.messages|
    ensures var m := MessageLines(e, i, width, format, random, k);
            (m.next != k ==> e.colorize && e.messages[i].Text?) &&
            (e.messages[i].Scalar? ==> m.value == ["  " + e.messages[i].shown]) &&
            (e.messages[i].Structured? ==>
               var at := if i != 0 then 1 else 0;
               |m.value| == at + 1 + (if i != |e.messages| - 1 then 1 else 0) &&
               m.value[at] == Indent(format(e.messages[i].value), 2) &&
               forall j :: 0 <= j < |m.value| && j != at ==> m.value[j] == "")
  {
  }

  /** An object message alone in the list prints one line, the indented serialisation,
      with no blank line around it. */
  lemma LoneObject(e: ErrorData, width: int, format: Value -> string, random: nat -> Draw, k: nat)
    requires |e.messages| == 1 && e.messages[0].Structured?
    ensures MessageLines(e, 0, width, format, random, k).value == [Indent(format(e.messages[0].value), 2)]
  {
  }

  /** Two object messages in a row are separated by two blank lines: one after the first
      (it is not the last) and one before the second (it is not the first). */
  lemma AdjacentObjects(e: ErrorData, i: nat, width: int, format: Value -> string, random: nat -> Draw, k: nat, k': nat)
    requires i + 1 < |e.messages| && e.messages[i].Structured? && e.messages[i + 1].Structured?
    ensures var a := MessageLines(e, i, width, format, random, k).value;
            var b := MessageLines(e, i + 1, width, format, random, k').value;
            |a| >= 2 && |b| >= 2 &&
            a[|a| - 2..] == [Indent(format(e.messages[i].value), 2), ""] &&
            b[..2] == ["", Indent(format(e.messages[i + 1].value), 2)]
  {
    var a := MessageLines(e, i, width, format, random, k).value;
    var b := MessageLines(e, i + 1, width, format, random, k').value;
    MessageDraws(e, i, width, format, random, k);
    MessageDraws(e, i + 1, width, format, random, k');
    assert a[|a| - 2..] == [a[|a| - 2], a[|a| - 1]];
    assert b[..2] == [b[0], b[1]];
  }

  /** The mapped text of each property: which draws it uses, and that it draws none
      without colouring. */
  lemma {:induction false} FieldTextsUndrawn(fields: seq<(string, string)>, r1: nat -> Draw, r2: nat -> Draw, k1: nat, k2: nat)
    ensures FieldTexts(fields, false, r1, k1).value == FieldTexts(fields, false, r2, k2).value
    ensures FieldTexts(fields, false, r1, k1).next == k1
    decreases |fields|
  {
    if fields != [] {
      FieldTextsUndrawn(fields[1..], r1, r2, k1, k2);
    }
  }

  /** Without colouring, the report draws no random number and does not depend on the
      draws: `Math.random` only picks colours. */
  lemma ReportWithoutColour(e: ErrorData, frames: seq<Frame>, width: int, format: Value -> string,
                            r1: nat -> Draw, r2: nat -> Draw, k1: nat, k2: nat)
    requires !e.colorize
    ensures Report(e, frames, width, format, r1, k1).value == Report(e, frames, width, format, r2, k2).value
    ensures Report(e, frames, width, format, r1, k1).next == k1
  {
    MessagesWithoutColour(e, width, format, r1, r2, k1, k2);
    var m1 := EmitUpTo(|e.messages|, MessageBlock(e, width, format, r1), k1);
    var m2 := EmitUpTo(|e.messages|, MessageBlock(e, width, format, r2), k2);
    StackWithoutColour(frames, e.locationStyle, r1, r2, m1.next, m2.next);
  }

  /** Without colour, the message blocks draw nothing and do not depend on the draws. */
  lemma MessagesWithoutColour(e: ErrorData, width: int, format: Value -> string,
                              r1: nat -> Draw, r2: nat -> Draw, k1: nat, k2: nat)
    requires !e.colorize
    ensures EmitUpTo(|e.messages|, MessageBlock(e, width, format, r1), k1).value ==
            EmitUpTo(|e.messages|, MessageBlock(e, width, format, r2), k2).value
    ensures EmitUpTo(|e.messages|, MessageBlock(e, width, format, r1), k1).next == k1
  {
    var mb1, mb2 := MessageBlock(e, width, format, r1), MessageBlock(e, width, format, r2);
    forall i: nat, j: nat | i < |e.messages|
      ensures mb1(i, j).next == j && mb2(i, j).next == j
      ensures mb1(i, j).value == mb1(i, 0).value && mb2(i, j).value == mb2(i, 0).value
      ensures mb1(i, 0).value == mb2(i, 0).value
    {
    }
    EmitUndrawn(|e.messages|, mb1, mb2, k1, k2);
  }

  /** Without colour, the stack block draws nothing and does not depend on the draws. */
  lemma StackWithoutColour(frames: seq<Frame>, style: LocationStyle, r1: nat -> Draw, r2: nat -> Draw,
                           k1: nat, k2: nat)
    ensures StackLines(frames, style, false, r1, k1).value == StackLines(frames, style, false, r2, k2).value
    ensures StackLines(frames, style, false, r1, k1).next == k1
  {
    var fb1, fb2 := FrameBlock(frames, style, false, r1), FrameBlock(frames, style, false, r2);
    forall i: nat, j: nat | i < |frames|
      ensures fb1(i, j).next == j && fb2(i, j).next == j
      ensures fb1(i, j).value == fb1(i, 0).value && fb2(i, j).value == fb2(i, 0).value
      ensures fb1(i, 0).value == fb2(i, 0).value
    {
      FrameUndrawn(frames[i], style, r1, r1, j, 0);
      FrameUndrawn(frames[i], style, r2, r2, j, 0);
      FrameUndrawn(frames[i], style, r1, r2, 0, 0);
    }
    EmitUndrawn(|frames|, fb1, fb2, k1, k2);
  }

  /** Without colour, the line of a frame draws nothing and does not depend on the draws. */
  lemma FrameUndrawn(f: Frame, style: LocationStyle, r1: nat -> Draw, r2: nat -> Draw, k1: nat, k2: nat)
    ensures FrameLines(f, style, false, r1, k1).value == FrameLines(f, style, false, r2, k2).value
    ensures FrameLines(f, style, false, r1, k1).next == k1
  {
    if !style.Unknown? {
      FieldTextsUndrawn(Fields(f, style), r1, r2, k1, k2);
    }
  }

  /** The stack block is a blank line, then one line per frame for `label`, `coords` and
      `full`, and nothing more for any other style, even when no frame is left. */
  lemma StackShape(frames: seq<Frame>, style: LocationStyle, colorize: bool, random: nat -> Draw, k: nat)
    ensures var s := StackLines(frames, style, colorize, random, k).value;
            |s| == 1 + (if style.Unknown? then 0 else |frames|) && s[0] == ""
  {
    var c := if style.Unknown? then 0 else 1;
    EmitCount(|frames|, FrameBlock(frames, style, colorize, random), k, c);
  }

  /** Line `1 + i` of the stack block is the line of frame `i`, printed from the draws
      the frames before it left: the frames are printed in stack order. */
  lemma StackLineAt(frames: seq<Frame>, style: LocationStyle, colorize: bool, random: nat -> Draw,
                    k: nat, i: nat)
    requires i < |frames| && !style.Unknown?
    ensures var block := FrameBlock(frames, style, colorize, random);
            var s := StackLines(frames, style, colorize, random, k).value;
            |s| == 1 + |frames| &&
            s[1 + i] == FrameLines(frames[i], style, colorize, random, EmitUpTo(i, block, k).next).value[0]
  {
    var block := FrameBlock(frames, style, colorize, random);
    FrameLineAt(frames, style, colorize, random, k, i);
    StackShape(frames, style, colorize, random, k);
    assert StackLines(frames, style, colorize, random, k).value == [""] + EmitUpTo(|frames|, block, k).value;
  }

  /** Line `i` of the frame lines is the line of frame `i`. */
  lemma FrameLineAt(frames: seq<Frame>, style: LocationStyle, colorize: bool, random: nat -> Draw,
                    k: nat, i: nat)
    requires i < |frames| && !style.Unknown?
    ensures var block := FrameBlock(frames, style, colorize, random);
            var all := EmitUpTo(|frames|, block, k).value;
            i < |all| && all[i] == FrameLines(frames[i], style, colorize, random, EmitUpTo(i, block, k).next).value[0]
  {
    var block := FrameBlock(frames, style, colorize, random);
    var before := EmitUpTo(i, block, k);
    FramesBefore(frames, style, colorize, random, k, i);
    assert block(i, before.next).value == FrameLines(frames[i], style, colorize, random, before.next).value;
    LineAt(i, |frames|, block, k);
  }

  /** With one line per block, line `i` of the output is the line of block `i`. */
  lemma LineAt(i: nat, n: nat, block: (nat, nat) -> Drawn<seq<string>>, k: nat)
    requires i < n
    requires |EmitUpTo(i, block, k).value| == i
    requires |block(i, EmitUpTo(i, block, k).next).value| == 1
    ensures var all := EmitUpTo(n, block, k).value;
            i < |all| && all[i] == block(i, EmitUpTo(i, block, k).next).value[0]
  {
    EmitBlockAt(i, n, block, k);
    var all := EmitUpTo(n, block, k).value;
    var b := block(i, EmitUpTo(i, block, k).next).value;
    assert all[i..i + 1] == b;
    assert all[i] == all[i..i + 1][0];
  }

  /** The first `n` frames of a known layout print `n` lines. */
  lemma FramesBefore(frames: seq<Frame>, style: LocationStyle, colorize: bool, random: nat -> Draw,
                     k: nat, n: nat)
    requires n <= |frames| && !style.Unknown?
    ensures |EmitUpTo(n, FrameBlock(frames, style, colorize, random), k).value| == n
  {
    EmitCount(n, FrameBlock(frames, style, colorize, random), k, 1);
  }

  /** The code block is printed exactly when the code is truthy; a one-line code shows
      after two spaces, untrimmed, since the styles enclose it. */
  lemma CodeShape(code: Option<string>, colorize: bool)
    ensures |CodeLines(code, colorize)| == if Truthy(code) then 2 else 0
    ensures Truthy(code) ==> CodeLines(code, colorize)[0] == ""
    ensures Truthy(code) && Plain(code.value) && '\n' !in code.value ==>
              Strip(CodeLines(code, colorize)[1]) == "  " + code.value
  {
    if Truthy(code) && Plain(code.value) && '\n' !in code.value {
      var attrs := if colorize then [Fg(Gray), Underline] else [Underline];
      var styled := Style(attrs, code.value);
      StyleEdges(attrs, code.value);
      IndentOneLine(styled, 2);
      assert Spaces(2) == "  ";
      StripAppend("  ", styled);
      StripPlain("  ");
      StripStyle(attrs, code.value);
      StripPlain(code.value);
    }
  }

  /** The exit-code block is printed exactly when an exit code is given, `0` included,
      and shows `🟡 Exit code: ` then the code. */
  lemma ExitShape(exitCode: Option<ExitCode>, colorize: bool)
    ensures |ExitLines(exitCode, colorize)| == if exitCode.Some? then 2 else 0
    ensures exitCode.Some? ==> ExitLines(exitCode, colorize)[0] == ""
    ensures exitCode.Some? && Plain(ShowExitCode(exitCode.value)) ==>
              Strip(ExitLines(exitCode, colorize)[1]) == YellowCircle + " Exit code: " + ShowExitCode(exitCode.value)
  {
    if exitCode.Some? && Plain(ShowExitCode(exitCode.value)) {
      ExitLineVisible(colorize, ShowExitCode(exitCode.value));
    }
  }

  lemma ExitLineVisible(colorize: bool, shown: string)
    requires Plain(shown)
    ensures var caption := if colorize then Style([Fg(Yellow)], "Exit code:") else "Exit code:";
            Strip(YellowCircle + " " + caption + " " + shown) == YellowCircle + " Exit code: " + shown
  {
    CaptionVisible(colorize);
    PlainAround(if colorize then Style([Fg(Yellow)], "Exit code:") else "Exit code:", shown);
  }

  lemma PlainAround(caption: string, shown: string)
    requires Plain(shown) && Strip(caption) == "Exit code:"
    ensures Strip(YellowCircle + " " + caption + " " + shown) == YellowCircle + " Exit code: " + shown
  {
    var pre, post := YellowCircle + " ", " " + shown;
    assert Plain(pre);
    assert Plain(post) by {
      forall j | 0 <= j < |post| ensures !IsMarker(post[j]) {
        if j > 0 { assert post[j] == shown[j - 1]; }
      }
    }
    assert YellowCircle + " " + caption + " " + shown == pre + caption + post;
    StripBetween(pre, caption, post);
    assert pre + "Exit code:" + post == YellowCircle + " Exit code: " + shown;
  }

  lemma CaptionVisible(colorize: bool)
    ensures Strip(if colorize then Style([Fg(Yellow)], "Exit code:") else "Exit code:") == "Exit code:"
  {
    var caption := "Exit code:";
    StripPlain(caption);
    if colorize {
      StripStyle([Fg(Yellow)], caption);
    }
  }

  /** A zero exit code is still printed. */
  lemma ExitZeroShown(colorize: bool)
    ensures Strip(ExitLines(Some(Code(0)), colorize)[1]) == YellowCircle + " Exit code: 0"
  {
    assert ShowExitCode(Code(0)) == "0";
    ExitShape(Some(Code(0)), colorize);
  }

  // ---------------------------------------------------------------------------
  // properties of the stack lines

  /** What a reader sees of `formatStackLine`'s pieces before the trim: `key: value `
      for every property, in key order. */
  function VisibleFields(fields: seq<(string, string)>): string {
    if fields == [] then "" else fields[0].0 + ": " + fields[0].1 + " " + VisibleFields(fields[1..])
  }

  /** A property whose key and value hold no style marker and no line break. */
  predicate PlainField(field: (string, string)) {
    Plain(field.0) && Plain(field.1) && '\n' !in field.0 && '\n' !in field.1
  }

  /** Every piece is a bold key, a colon, the italic (possibly coloured) value and a space,
      so the pieces show the keys and values in order. */
  lemma {:induction false} FieldTextsVisible(fields: seq<(string, string)>, colorize: bool,
                                             random: nat -> Draw, k: nat)
    requires forall i :: 0 <= i < |fields| ==> PlainField(fields[i])
    ensures Strip(Concat(FieldTexts(fields, colorize, random, k).value)) == VisibleFields(fields)
    decreases |fields|
  {
    if fields != [] {
      var head := FieldText(fields[0], colorize, random, k);
      var tail := FieldTexts(fields[1..], colorize, random, head.next);
      FieldTextsVisible(fields[1..], colorize, random, head.next);
      assert FieldTexts(fields, colorize, random, k).value == [head.value] + tail.value;
      assert ([head.value] + tail.value)[1..] == tail.value;
      StripAppend(head.value, Concat(tail.value));
      FieldTextVisible(fields[0], colorize, random, k);
    }
  }

  /** One piece shows its key, a colon, its value and a space. */
  lemma FieldTextVisible(field: (string, string), colorize: bool, random: nat -> Draw, k: nat)
    requires PlainField(field)
    ensures Strip(FieldText(field, colorize, random, k).value) == field.0 + ": " + field.1 + " "
  {
    var key, value := field.0, field.1;
    var head := FieldText(field, colorize, random, k);
    var italic := Style([Italic], value);
    var shown := if colorize then Colorize(italic, random, k) else italic;
    assert head.value == Style([Bold], key) + ": " + shown + " ";
    ColorizeStrip(italic, random, k);
    StripStyle([Italic], value);
    StripPlain(value);
    StripStyle([Bold], key);
    StripPlain(key);
    StripAppend(Style([Bold], key) + ": " + shown, " ");
    StripAppend(Style([Bold], key) + ": ", shown);
    StripAppend(Style([Bold], key), ": ");
    StripPlain(": ");
    StripPlain(" ");
  }

  /** The piece of a property with a non-empty value ends with a marker and a space. */
  lemma FieldTextEnd(field: (string, string), colorize: bool, random: nat -> Draw, k: nat)
    requires field.1 != []
    ensures EndsMarkedSpace(FieldText(field, colorize, random, k).value)
  {
    var italic := Style([Italic], field.1);
    StyleMarked([Italic], field.1);
    if colorize {
      ColorizeEdges(italic, random, k);
    }
  }

  /** The piece of a property with a non-empty key starts with a marker. */
  lemma FieldTextStart(field: (string, string), colorize: bool, random: nat -> Draw, k: nat)
    requires field.0 != []
    ensures var t := FieldText(field, colorize, random, k).value;
            t != [] && IsMarker(t[0])
  {
    StyleMarked([Bold], field.0);
  }

  /** The first piece starts with a marker when the first key is not empty. */
  lemma FieldTextsFirst(fields: seq<(string, string)>, colorize: bool, random: nat -> Draw, k: nat)
    requires fields != [] && fields[0].0 != []
    ensures var texts := FieldTexts(fields, colorize, random, k).value;
            texts[0] != [] && IsMarker(texts[0][0])
  {
    FieldTextStart(fields[0], colorize, random, k);
  }

  /** A text that ends with a style marker followed by one space. */
  predicate EndsMarkedSpace(t: string) {
    |t| >= 2 && t[|t| - 1] == ' ' && IsMarker(t[|t| - 2])
  }

  /** The last piece ends with a marker and a space when the last value is not empty. */
  lemma {:induction false} FieldTextsLast(fields: seq<(string, string)>, colorize: bool,
                                          random: nat -> Draw, k: nat)
    requires fields != [] && fields[|fields| - 1].1 != []
    ensures var texts := FieldTexts(fields, colorize, random, k).value;
            EndsMarkedSpace(texts[|texts| - 1])
    decreases |fields|
  {
    var head := FieldText(fields[0], colorize, random, k);
    var tail := FieldTexts(fields[1..], colorize, random, head.next).value;
    var texts := FieldTexts(fields, colorize, random, k).value;
    assert texts == [head.value] + tail;
    if |fields| == 1 {
      FieldTextEnd(fields[0], colorize, random, k);
    } else {
      FieldTextsLast(fields[1..], colorize, random, head.next);
      LastOfCons(head.value, tail);
    }
  }

  lemma LastOfCons(h: string, tail: seq<string>)
    requires tail != []
    ensures ([h] + tail)[|tail|] == tail[|tail| - 1]
  {
  }

  /** Pieces that start with a marker and end with a marker and a space glue into a text
      with the same edges. */
  lemma ConcatEdges(texts: seq<string>)
    requires texts != [] && texts[0] != [] && IsMarker(texts[0][0])
    requires EndsMarkedSpace(texts[|texts| - 1])
    ensures var c := Concat(texts); IsMarker(c[0]) && EndsMarkedSpace(c)
  {
    assert IsMarker(Concat(texts)[0]) by {
      ConcatFirst(texts);
    }
    var n := |texts|;
    var last := texts[n - 1];
    var init := texts[..n - 1];
    assert Concat(texts) == Concat(init) + last by {
      assert texts == init + [last];
      ConcatAppend(init, [last]);
      assert Concat([last]) == last + Concat([]);
    }
    EndsMarkedSpaceAppend(Concat(init), last);
  }

  lemma EndsMarkedSpaceAppend(a: string, b: string)
    requires EndsMarkedSpace(b)
    ensures EndsMarkedSpace(a + b)
  {
    var c := a + b;
    assert c[|c| - 1] == b[|b| - 1];
    assert c[|c| - 2] == b[|b| - 2];
  }

  /** `formatStackLine` trims exactly the space after the last value: what is left
      starts and ends with a style marker and shows `key: value` pairs separated by one
      space. */
  lemma FormatStackLineVisible(fields: seq<(string, string)>, colorize: bool,
                               random: nat -> Draw, k: nat)
    requires fields != [] && fields[0].0 != [] && fields[|fields| - 1].1 != []
    requires forall i :: 0 <= i < |fields| ==> PlainField(fields[i])
    ensures var s := FormatStackLine(fields, colorize, random, k).value;
            s != [] && IsMarker(s[0]) && IsMarker(s[|s| - 1]) && Strip(s) + " " == VisibleFields(fields)
  {
    var texts := FieldTexts(fields, colorize, random, k).value;
    var c := Concat(texts);
    assert |c| >= 1 && IsMarker(c[0]) && EndsMarkedSpace(c) by {
      FieldTextsFirst(fields, colorize, random, k);
      FieldTextsLast(fields, colorize, random, k);
      ConcatEdges(texts);
    }
    assert Strip(c) == VisibleFields(fields) by {
      FieldTextsVisible(fields, colorize, random, k);
    }
    var s := FormatStackLine(fields, colorize, random, k).value;
    assert s == Trim(c);
    TrimMarkedSpace(c, VisibleFields(fields));
    assert s != [] && IsMarker(s[0]) && IsMarker(s[|s| - 1]) && Strip(s) + " " == VisibleFields(fields);
  }

  /** `trim` on a text that starts with a marker and ends with a marker and a space drops
      only that space, which the visible text loses too. */
  lemma TrimMarkedSpace(c: string, visible: string)
    requires |c| >= 1 && IsMarker(c[0]) && EndsMarkedSpace(c) && Strip(c) == visible
    ensures var t := Trim(c);
            t != [] && IsMarker(t[0]) && IsMarker(t[|t| - 1]) && Strip(t) + " " == visible
  {
    var t := c[..|c| - 1];
    assert c == t + " ";
    MarkerNotSpace(t[0]);
    MarkerNotSpace(t[|t| - 1]);
    TrimOneTrailingSpace(t);
    StripAppend(t, " ");
    StripPlain(" ");
  }

  /** No property line breaks: the visible text is one line. */
  lemma {:induction false} VisibleFieldsOneLine(fields: seq<(string, string)>)
    requires forall i :: 0 <= i < |fields| ==> PlainField(fields[i])
    ensures '\n' !in VisibleFields(fields)
    decreases |fields|
  {
    if fields != [] {
      VisibleFieldsOneLine(fields[1..]);
      var f := fields[0];
      assert VisibleFields(fields) == f.0 + (": " + (f.1 + (" " + VisibleFields(fields[1..]))));
    }
  }

  /** A frame whose file and extra properties hold no marker and no line break, with no
      empty file name and no empty extra value. */
  predicate PlainFrame(f: Frame) {
    && (f.file.Some? ==> f.file.value != [] && Plain(f.file.value) && '\n' !in f.file.value)
    && forall i :: 0 <= i < |f.rest| ==> PlainField(f.rest[i]) && f.rest[i].1 != []
  }

  lemma ShowIntPlain(o: Option<int>)
    ensures ShowInt(o) != [] && Plain(ShowInt(o)) && '\n' !in ShowInt(o)
  {
  }

  lemma FieldsPlain(f: Frame, style: LocationStyle)
    requires PlainFrame(f) && !style.Unknown?
    ensures var fs := Fields(f, style);
            fs != [] && fs[0].0 != [] && fs[|fs| - 1].1 != [] &&
            forall i :: 0 <= i < |fs| ==> PlainField(fs[i])
  {
    ShowIntPlain(f.line);
    ShowIntPlain(f.column);
    var file := ShowFile(f.file);
    var loc := Location(f);
    PlainAppend(file, ":");
    PlainAppend(file + ":", ShowInt(f.line));
    PlainAppend(file + ":" + ShowInt(f.line), ":");
    PlainAppend(file + ":" + ShowInt(f.line) + ":", ShowInt(f.column));
    assert '\n' !in loc;
    var fs := Fields(f, style);
    forall i | 0 <= i < |fs| ensures PlainField(fs[i]) {
      var head := if style.Coords? then 1 else 3;
      if i >= head {
        assert fs[i] == f.rest[i - head];
      }
    }
  }

  /** A printed stack line shows two spaces, the arrow, and the frame's properties as
      `key: value` pairs: for `label` the line, column and file, for `coords` only the
      combined `file:line:column`, for `full` both; then the other properties. */
  lemma FrameLineVisible(f: Frame, style: LocationStyle, colorize: bool, random: nat -> Draw, k: nat)
    requires PlainFrame(f) && !style.Unknown?
    ensures var lines := FrameLines(f, style, colorize, random, k).value;
            |lines| == 1 && Strip(lines[0]) + " " == "  " + Arrow + " " + VisibleFields(Fields(f, style))
  {
    FieldsPlain(f, style);
    StackLineVisible(Fields(f, style), colorize, random, k, FormatStackLine(Fields(f, style), colorize, random, k).value);
  }

  /** The arrow line of any properties that `formatStackLine` can trim cleanly. */
  lemma {:induction false} StackLineVisible(fields: seq<(string, string)>, colorize: bool, random: nat -> Draw, k: nat,
                                            line: string)
    requires fields != [] && fields[0].0 != [] && fields[|fields| - 1].1 != []
    requires forall i :: 0 <= i < |fields| ==> PlainField(fields[i])
    requires line == FormatStackLine(fields, colorize, random, k).value
    ensures Strip(Indent(Arrow + " " + line, 2)) + " " == "  " + Arrow + " " + VisibleFields(fields)
  {
    var visible := VisibleFields(fields);
    assert line != [] && IsMarker(line[0]) && IsMarker(line[|line| - 1]) && Strip(line) + " " == visible by {
      FormatStackLineVisible(fields, colorize, random, k);
    }
    assert '\n' !in visible by {
      VisibleFieldsOneLine(fields);
    }
    ArrowLineVisible(line, visible);
  }

  /** `indent('→ ' + s, 2)` for a one-line `s` that starts and ends with a marker: the
      arrow line shows two spaces, the arrow, a space and what `s` shows. */
  lemma ArrowLineVisible(s: string, visible: string)
    requires s != [] && IsMarker(s[0]) && IsMarker(s[|s| - 1])
    requires Strip(s) + " " == visible && '\n' !in visible
    ensures Strip(Indent(Arrow + " " + s, 2)) + " " == "  " + Arrow + " " + visible
  {
    if '\n' in s {
      StripShows(s, '\n');
      assert false;
    }
    ArrowLineShown(s);
  }

  /** The visible text of an arrow line of one line. */
  lemma ArrowLineShown(s: string)
    requires s != [] && IsMarker(s[0]) && IsMarker(s[|s| - 1]) && '\n' !in s
    ensures Strip(Indent(Arrow + " " + s, 2)) + " " == "  " + Arrow + " " + (Strip(s) + " ")
  {
    IndentArrow(s);
    StripArrowLead(s);
    var lead, v := "  " + Arrow + " ", Strip(s);
    assert lead + v + " " == lead + (v + " ");
  }

  /** The arrow line is one line with visible edges, so `indent` only adds two spaces. */
  lemma IndentArrow(s: string)
    requires s != [] && IsMarker(s[|s| - 1]) && '\n' !in s
    ensures Indent(Arrow + " " + s, 2) == "  " + Arrow + " " + s
  {
    var x := Arrow + " " + s;
    MarkerNotSpace(s[|s| - 1]);
    assert x[|x| - 1] == s[|s| - 1];
    IndentOneLine(x, 2);
    assert Spaces(2) == "  ";
  }

  lemma StripArrowLead(s: string)
    ensures Strip("  " + Arrow + " " + s) == "  " + Arrow + " " + Strip(s)
  {
    var lead := "  " + Arrow + " ";
    StripAppend(lead, s);
    assert Plain(lead) by {
      assert lead == [' ', ' ', '\U{2192}', ' '];
    }
    StripPlain(lead);
  }

  /** The arrow line of a frame shows exactly its visible properties, once the trailing
      space that `formatStackLine` trims is taken off. */
  lemma {:induction false} FrameLineShows(f: Frame, style: LocationStyle, colorize: bool,
                                          random: nat -> Draw, k: nat, shown: string)
    requires PlainFrame(f) && !style.Unknown?
    requires VisibleFields(Fields(f, style)) == shown + " "
    ensures Strip(FrameLines(f, style, colorize, random, k).value[0]) == "  " + Arrow + " " + shown
  {
    FrameLineVisible(f, style, colorize, random, k);
    DropTrailingSpace(Strip(FrameLines(f, style, colorize, random, k).value[0]), shown,
                      VisibleFields(Fields(f, style)));
  }

  /** An arrow line that shows `shown` and a space once a space is added shows `shown`. */
  lemma DropTrailingSpace(line: string, shown: string, v: string)
    requires line + " " == "  " + Arrow + " " + v && v == shown + " "
    ensures line == "  " + Arrow + " " + shown
  {
    var lead := "  " + Arrow + " ";
    assert lead + (shown + " ") == (lead + shown) + " ";
    assert line == (line + " ")[..|line|];
    assert lead + shown == ((lead + shown) + " ")[..|lead + shown|];
  }

  /** The frame `{line: 3, column: 1, file: 'index.ts'}` of the layout examples below. */
  predicate IsSampleFrame(f: Frame) {
    f == Frame(Some(3), Some(1), Some("index.ts"), [])
  }

  lemma {:induction false} SampleFrameShown(f: Frame)
    requires IsSampleFrame(f)
    ensures PlainFrame(f)
    ensures ShowInt(f.line) == "3" && ShowInt(f.column) == "1"
    ensures Location(f) == "index.ts:3:1"
  {
    assert Digits(3) == "3" && Digits(1) == "1";
    assert Plain("index.ts");
  }

  /** The label layout: line, column and file as separate properties. */
  lemma {:induction false} LabelLayoutExample(f: Frame, colorize: bool, random: nat -> Draw, k: nat)
    requires IsSampleFrame(f)
    ensures Strip(FrameLines(f, Label, colorize, random, k).value[0]) ==
            "  " + Arrow + " " + "line: 3 column: 1 file: index.ts"
  {
    SampleFrameShown(f);
    assert Fields(f, Label) == [("line", "3"), ("column", "1"), ("file", "index.ts")];
    SampleFieldsShown("line", "3", "column", "1", "file", "index.ts");
    SampleText("index.ts");
    FrameLineShows(f, Label, colorize, random, k, "line: 3 column: 1 file: index.ts");
  }

  /** The coords layout: one `file` property holding `file:line:column`. */
  lemma {:induction false} CoordsLayoutExample(f: Frame, colorize: bool, random: nat -> Draw, k: nat)
    requires IsSampleFrame(f)
    ensures Strip(FrameLines(f, Coords, colorize, random, k).value[0]) ==
            "  " + Arrow + " " + "file: index.ts:3:1"
  {
    SampleFrameShown(f);
    var fs := Fields(f, Coords);
    assert fs == [("file", "index.ts:3:1")];
    assert VisibleFields(fs[1..]) == "";
    FrameLineShows(f, Coords, colorize, random, k, "file: index.ts:3:1");
  }

  /** The full layout: line, column, and the file as `file:line:column`. */
  lemma {:induction false} FullLayoutExample(f: Frame, colorize: bool, random: nat -> Draw, k: nat)
    requires IsSampleFrame(f)
    ensures Strip(FrameLines(f, Full, colorize, random, k).value[0]) ==
            "  " + Arrow + " " + "line: 3 column: 1 file: index.ts:3:1"
  {
    SampleFrameShown(f);
    assert Fields(f, Full) == [("line", "3"), ("column", "1"), ("file", "index.ts:3:1")];
    SampleFieldsShown("line", "3", "column", "1", "file", "index.ts:3:1");
    SampleText("index.ts:3:1");
    FrameLineShows(f, Full, colorize, random, k, "line: 3 column: 1 file: index.ts:3:1");
  }

  /** Three properties show as `k1: v1 k2: v2 k3: v3 `. */
  lemma {:induction false} SampleFieldsShown(k1: string, v1: string, k2: string, v2: string, k3: string, v3: string)
    ensures VisibleFields([(k1, v1), (k2, v2), (k3, v3)]) ==
            k1 + ": " + v1 + " " + k2 + ": " + v2 + " " + k3 + ": " + v3 + " "
  {
    var fs := [(k1, v1), (k2, v2), (k3, v3)];
    assert fs[1..][1..][1..] == [];
    assert VisibleFields(fs[2..]) == k3 + ": " + v3 + " ";
  }

  /** The line, column and file properties of the sample frame, for a given file text. */
  lemma {:induction false} SampleText(file: string)
    ensures "line" + ": " + "3" + " " + "column" + ": " + "1" + " " + "file" + ": " + file + " " ==
            ("line: 3 column: 1 file: " + file) + " "
  {
  }
}
