/**
 * Greedy word wrap (`wrap(text, width)`).
 *
 * The text is split on single spaces and the words are laid down one after the
 * other. Before a word, if the current line length plus the word's length exceeds
 * `width`, a line break is emitted and the word starts the new line; otherwise the
 * word is appended, after a space when the line is not empty. The space is not
 * counted by the test, so a line of several words may reach `width + 1`. Lengths are
 * JavaScript's `length`: UTF-16 code units (`JsLength`).
 */
module Wrapping {
  import opened Wrappers
  import opened Strings

  /** The default `width`: `Math.min(Math.max(20, columns) || 80, 80)`, where `columns`
      is the terminal width (`process.stdout.columns`, undefined when output is not a
      terminal; `Math.max(20, undefined)` is `NaN`, which `|| 80` replaces). */
  function DefaultWidth(columns: Option<int>): (w: int)
    ensures 20 <= w <= 80
    ensures columns.None? ==> w == 80
    ensures columns.Some? && 20 <= columns.value <= 80 ==> w == columns.value
    ensures columns.Some? && columns.value < 20 ==> w == 20
    ensures columns.Some? && columns.value > 80 ==> w == 80
  {
    match columns
    case None => 80
    case Some(c) => var m := if c > 20 then c else 20; if m < 80 then m else 80
  }

  /** The loop state of `wrap`: the text produced so far and the current line length. */
  datatype WrapState = WrapState(result: string, lineLength: int)

  /** One iteration of the loop, on one word. */
  function Step(st: WrapState, word: string, width: int): WrapState {
    if st.lineLength + JsLength(word) > width then
      WrapState(st.result + "\n" + word, JsLength(word))
    else if st.lineLength > 0 then
      WrapState(st.result + " " + word, st.lineLength + 1 + JsLength(word))
    else
      WrapState(st.result + word, st.lineLength + JsLength(word))
  }

  /** The loop state after the given words. */
  function Fold(words: seq<string>, width: int): WrapState
    decreases |words|
  {
    if words == [] then WrapState("", 0)
    else Step(Fold(words[..|words| - 1], width), words[|words| - 1], width)
  }

  /** What `wrap(text, width)` returns. */
  function WrapText(text: string, width: int): string {
    Fold(Split(text, ' '), width).result
  }

  /** `text` without its spaces and line breaks: the characters of its words, in order. */
  function Squeeze(s: string): string
    decreases |s|
  {
    if s == [] then []
    else Squeeze(s[..|s| - 1]) + (if s[|s| - 1] in {' ', '\n'} then [] else [s[|s| - 1]])
  }

  /** A character that ends a word of the output: a space or a line break. */
  predicate IsBreak(c: char) {
    c == ' ' || c == '\n'
  }

  /** `s` with each line break turned into a space. */
  function BreaksToSpaces(s: string): (r: string)
    ensures |r| == |s|
    ensures forall i :: 0 <= i < |s| ==> r[i] == if s[i] == '\n' then ' ' else s[i]
  {
    seq(|s|, i requires 0 <= i < |s| => if s[i] == '\n' then ' ' else s[i])
  }

  /** The words of a text: its maximal non-empty runs without spaces or line breaks,
      in order. */
  function Words(s: string): seq<string> {
    NonEmpty(Split(BreaksToSpaces(s), ' '))
  }

  /** The words of the given pieces, piece after piece. */
  function WordsOf(parts: seq<string>): seq<string>
    decreases |parts|
  {
    if parts == [] then [] else WordsOf(parts[..|parts| - 1]) + Words(parts[|parts| - 1])
  }

  function Last(lines: seq<string>): string
    requires |lines| >= 1
  {
    lines[|lines| - 1]
  }

  /** The first word of a line. */
  function FirstWord(line: string): string {
    Split(line, ' ')[0]
  }

  method Wrap(text: string, width: int) returns (result: string)
    ensures result == WrapText(text, width)
    ensures Words(result) == Words(text) && Squeeze(result) == Squeeze(text)
    ensures '\n' !in text ==>
              forall j :: 0 <= j < |Lines(result)| ==>
                JsLength(Lines(result)[j]) <= width + 1 || Lines(result)[j] == [] ||
                Lines(result)[j] in Split(text, ' ')
    ensures '\n' !in text ==>
              forall j :: 0 <= j < |Lines(result)| - 1 ==>
                JsLength(Lines(result)[j]) + JsLength(FirstWord(Lines(result)[j + 1])) > width
  {
    var words := Split(text, ' ');
    result := "";
    var lineLength := 0;
    for i := 0 to |words|
      invariant WrapState(result, lineLength) == Fold(words[..i], width)
    {
      var word := words[i];
      assert words[..i + 1][..i] == words[..i];
      if lineLength + JsLength(word) > width {
        result := result + "\n" + word;
        lineLength := JsLength(word);
      } else {
        if lineLength > 0 {
          result := result + " ";
          lineLength := lineLength + 1;
        }
        result := result + word;
        lineLength := lineLength + JsLength(word);
      }
    }
    assert words[..|words|] == words;
    WrapKeepsWords(text, width);
    if '\n' !in text {
      WrapLineBounds(text, width);
    }
  }

  /** For a text without line breaks, every line of the output is at most `width + 1`
      long, empty, or a single word, and each break comes before a word that would not
      have fitted on the line before it. */
  lemma WrapLineBounds(text: string, width: int)
    requires '\n' !in text
    ensures var lines := Lines(WrapText(text, width));
            forall j :: 0 <= j < |lines| ==>
              JsLength(lines[j]) <= width + 1 || lines[j] == [] || lines[j] in Split(text, ' ')
    ensures var lines := Lines(WrapText(text, width));
            forall j :: 0 <= j < |lines| - 1 ==>
              JsLength(lines[j]) + JsLength(FirstWord(lines[j + 1])) > width
  {
    SplitKeepsAbsent(text, ' ', '\n');
    FoldLines(Split(text, ' '), width);
  }

  // ---------------------------------------------------------------------------
  // properties of the loop

  lemma {:induction false} SqueezeAppend(a: string, b: string)
    ensures Squeeze(a + b) == Squeeze(a) + Squeeze(b)
    decreases |b|
  {
    if b == [] {
      assert a + b == a;
    } else {
      var b' := b[..|b| - 1];
      assert (a + b)[..|a + b| - 1] == a + b';
      SqueezeAppend(a, b');
    }
  }

  /** A space or a line break squeezes out. */
  lemma SqueezeBreak(a: string, c: char, w: string)
    requires IsBreak(c)
    ensures Squeeze(a + [c] + w) == Squeeze(a) + Squeeze(w)
  {
    SqueezeAppend(a + [c], w);
    assert (a + [c])[..|a|] == a;
  }

  /** Each word goes into the output once, in order, and nothing but spaces and line
      breaks goes in between. */
  lemma {:induction false} FoldKeepsWords(words: seq<string>, width: int)
    ensures Squeeze(Fold(words, width).result) == Squeeze(Concat(words))
    decreases |words|
  {
    if words != [] {
      var init, w := words[..|words| - 1], words[|words| - 1];
      FoldKeepsWords(init, width);
      assert words == init + [w];
      ConcatAppend(init, [w]);
      assert Concat([w]) == w;
      StepKeepsWords(Fold(init, width), w, width);
      SqueezeAppend(Concat(init), w);
    }
  }

  /** One iteration adds the characters of its word after the output so far. */
  lemma StepKeepsWords(st: WrapState, w: string, width: int)
    ensures Squeeze(Step(st, w, width).result) == Squeeze(st.result) + Squeeze(w)
  {
    if st.lineLength + JsLength(w) > width {
      SqueezeBreak(st.result, '\n', w);
    } else if st.lineLength > 0 {
      SqueezeBreak(st.result, ' ', w);
    } else {
      SqueezeAppend(st.result, w);
    }
  }

  lemma {:induction false} SqueezeJoin(parts: seq<string>)
    ensures Squeeze(Join(parts, " ")) == Squeeze(Concat(parts))
    decreases |parts|
  {
    if |parts| == 1 {
      assert parts[1..] == [];
      assert Concat(parts) == parts[0] + Concat([]);
      assert parts[0] + [] == parts[0];
    } else if |parts| > 1 {
      SqueezeJoin(parts[1..]);
      SqueezeAppend(parts[0] + " ", Join(parts[1..], " "));
      SqueezeAppend(parts[0], " ");
      assert Squeeze(" ") == Squeeze([]) + [];
      SqueezeAppend(parts[0], Concat(parts[1..]));
    }
  }

  /** Words are never split, merged, dropped or reordered: the output has the words of
      the input, and dropping spaces and line breaks from either gives the same text. */
  lemma WrapKeepsWords(text: string, width: int)
    ensures Words(WrapText(text, width)) == Words(text)
    ensures Squeeze(WrapText(text, width)) == Squeeze(text)
  {
    var words := Split(text, ' ');
    FoldKeepsWords(words, width);
    SqueezeJoin(words);
    FoldWords(words, width);
    WordsJoin(words);
    JoinSplit(text, ' ');
  }

  /** A space or a line break between two texts separates their words. */
  lemma WordsAppendBreak(a: string, c: char, b: string)
    requires IsBreak(c)
    ensures Words(a + [c] + b) == Words(a) + Words(b)
  {
    var fa, fb := BreaksToSpaces(a), BreaksToSpaces(b);
    assert BreaksToSpaces(a + [c] + b) == fa + [' '] + fb;
    SplitAppendSep(fa, fb, ' ');
    NonEmptyAppend(Split(fa, ' '), Split(fb, ' '));
  }

  /** Joining pieces with spaces keeps the words of each piece, in order. */
  lemma {:induction false} WordsJoin(parts: seq<string>)
    ensures Words(Join(parts, " ")) == WordsOf(parts)
    decreases |parts|
  {
    if |parts| == 1 {
      assert parts[..0] == [];
    } else if |parts| > 1 {
      var init, p := parts[..|parts| - 1], parts[|parts| - 1];
      assert parts == init + [p];
      WordsJoin(init);
      JoinAppendOne(init, p, " ");
      WordsAppendBreak(Join(init, " "), ' ', p);
    }
  }

  /** When the line length is zero, the output so far is empty or ends with a line break. */
  lemma {:induction false} FoldLineStart(words: seq<string>, width: int)
    ensures var st := Fold(words, width);
            st.lineLength >= 0 &&
            (st.lineLength == 0 ==> st.result == [] || st.result[|st.result| - 1] == '\n')
    decreases |words|
  {
    if words != [] {
      FoldLineStart(words[..|words| - 1], width);
    }
  }

  /** The loop output has the words of the loop input, word after word. */
  lemma {:induction false} FoldWords(words: seq<string>, width: int)
    ensures Words(Fold(words, width).result) == WordsOf(words)
    decreases |words|
  {
    if words != [] {
      var init, w := words[..|words| - 1], words[|words| - 1];
      FoldWords(init, width);
      FoldLineStart(init, width);
      StepWords(Fold(init, width), w, width);
    }
  }

  /** One iteration adds the words of its word after the words so far: a word is glued
      to the output only when the output is empty or ends with a line break. */
  lemma StepWords(st: WrapState, w: string, width: int)
    requires st.lineLength >= 0
    requires st.lineLength == 0 ==> st.result == [] || st.result[|st.result| - 1] == '\n'
    ensures Words(Step(st, w, width).result) == Words(st.result) + Words(w)
  {
    if st.lineLength + JsLength(w) > width {
      WordsAppendBreak(st.result, '\n', w);
    } else if st.lineLength > 0 {
      WordsAppendBreak(st.result, ' ', w);
    } else if st.result == [] {
      assert st.result + w == w;
      assert Words([]) == [];
    } else {
      var r := st.result[..|st.result| - 1];
      assert st.result == r + ['\n'] + [];
      assert st.result + w == r + ['\n'] + w;
      WordsAppendBreak(r, '\n', []);
      WordsAppendBreak(r, '\n', w);
      assert Words([]) == [];
    }
  }

  lemma {:induction false} SplitKeepsAbsent(s: string, c: char, d: char)
    requires d !in s
    ensures forall k :: 0 <= k < |Split(s, c)| ==> d !in Split(s, c)[k]
    decreases |s|
  {
    var i := IndexOf(s, c);
    if i < |s| {
      SplitKeepsAbsent(s[i + 1..], c, d);
      assert forall k :: 0 <= k < i ==> s[..i][k] == s[k];
    }
  }

  /** The line structure the loop maintains, for words without line breaks or spaces. */
  ghost predicate Layout(lines: seq<string>, lineLength: int, words: seq<string>, width: int) {
    && |lines| >= 1
    && lineLength == JsLength(Last(lines))
    && (forall j :: 0 <= j < |lines| ==>
          JsLength(lines[j]) <= width + 1 || lines[j] == [] || lines[j] in words)
    && (forall j :: 0 <= j < |lines| - 1 ==>
          JsLength(lines[j]) + JsLength(FirstWord(lines[j + 1])) > width)
  }

  ghost predicate LinesInvariant(st: WrapState, words: seq<string>, width: int) {
    Layout(Lines(st.result), st.lineLength, words, width)
  }

  /** `lineLength` is the length of the text after the last line break; a line longer
      than `width + 1` is a single word; and each break comes before a word that would
      not have fitted on the previous line. */
  lemma {:induction false} FoldLines(words: seq<string>, width: int)
    requires forall k :: 0 <= k < |words| ==> '\n' !in words[k] && ' ' !in words[k]
    ensures LinesInvariant(Fold(words, width), words, width)
    decreases |words|
  {
    if words == [] {
      SplitNoSep("", '\n');
    } else {
      var init, w := words[..|words| - 1], words[|words| - 1];
      assert words == init + [w];
      FoldLines(init, width);
      StepLines(Fold(init, width), init, w, width);
    }
  }

  lemma StepLines(st: WrapState, words: seq<string>, w: string, width: int)
    requires '\n' !in w && ' ' !in w
    requires LinesInvariant(st, words, width)
    ensures LinesInvariant(Step(st, w, width), words + [w], width)
  {
    SplitNoSep(w, ' ');
    if st.lineLength + JsLength(w) > width {
      StepBreak(st, words, w, width);
    } else if st.lineLength > 0 {
      StepSpace(st, words, w, width);
    } else {
      StepStart(st, words, w, width);
    }
  }

  /** A word that does not fit goes on a new line of its own. */
  lemma StepBreak(st: WrapState, words: seq<string>, w: string, width: int)
    requires '\n' !in w && FirstWord(w) == w
    requires LinesInvariant(st, words, width) && st.lineLength + JsLength(w) > width
    ensures LinesInvariant(Step(st, w, width), words + [w], width)
  {
    var lines := Lines(st.result);
    SplitAppendSep(st.result, w, '\n');
    SplitNoSep(w, '\n');
    assert Lines(Step(st, w, width).result) == lines + [w];
    LayoutBreak(lines, st.lineLength, words, w, width);
  }

  /** A word that fits goes after a space on the current line. */
  lemma StepSpace(st: WrapState, words: seq<string>, w: string, width: int)
    requires '\n' !in w && ' ' !in w
    requires LinesInvariant(st, words, width) && st.lineLength + JsLength(w) <= width && st.lineLength > 0
    ensures LinesInvariant(Step(st, w, width), words + [w], width)
  {
    var lines := Lines(st.result);
    var last := Last(lines);
    SpaceLines(st.result, w);
    FirstWordKept(last, w);
    SpacedLength(last, w);
    LayoutSpace(lines, st.lineLength, words, w, width, last + " " + w);
  }

  /** Appending a space and a word without line breaks extends the last line. */
  lemma SpaceLines(result: string, w: string)
    requires '\n' !in w
    ensures var lines := Lines(result);
            Lines(result + " " + w) == lines[..|lines| - 1] + [Last(lines) + " " + w]
  {
    var lines := Lines(result);
    SplitAppendPlain(result, " " + w, '\n');
    assert result + " " + w == result + (" " + w);
    assert Last(lines) + " " + w == Last(lines) + (" " + w);
  }

  /** A space counts one code unit. */
  lemma SpacedLength(line: string, w: string)
    ensures JsLength(line + " " + w) == JsLength(line) + 1 + JsLength(w)
  {
    JsLengthAppend(line + " ", w);
    JsLengthAppend(line, " ");
  }

  /** Appending a space and a word to a line does not change its first word. */
  lemma FirstWordKept(line: string, w: string)
    ensures FirstWord(line + " " + w) == FirstWord(line)
  {
    assert line + " " + w == line + [' '] + w;
    SplitAppendSep(line, w, ' ');
  }

  /** The first word of an empty line is put there as it is. */
  lemma StepStart(st: WrapState, words: seq<string>, w: string, width: int)
    requires '\n' !in w && FirstWord(w) == w
    requires LinesInvariant(st, words, width) && st.lineLength + JsLength(w) <= width && st.lineLength <= 0
    ensures LinesInvariant(Step(st, w, width), words + [w], width)
  {
    var lines := Lines(st.result);
    assert Last(lines) == [];
    StartLines(st.result, w);
    SplitNoSep([], ' ');
    LayoutStart(lines, st.lineLength, words, w, width);
  }

  /** A word without line breaks appended to an empty last line becomes that line. */
  lemma StartLines(result: string, w: string)
    requires '\n' !in w && Last(Lines(result)) == []
    ensures var lines := Lines(result);
            Lines(result + w) == lines[..|lines| - 1] + [w]
  {
    SplitAppendPlain(result, w, '\n');
    assert Last(Lines(result)) + w == w;
  }

  lemma LayoutBreak(lines: seq<string>, lineLength: int, words: seq<string>, w: string,
                    width: int)
    requires Layout(lines, lineLength, words, width)
    requires lineLength + JsLength(w) > width && FirstWord(w) == w
    ensures Layout(lines + [w], JsLength(w), words + [w], width)
  {
    var lines' := lines + [w];
    assert (words + [w])[|words|] == w;
    forall j | 0 <= j < |lines'|
      ensures JsLength(lines'[j]) <= width + 1 || lines'[j] == [] || lines'[j] in words + [w]
    {
      if j < |lines| {
        assert lines'[j] == lines[j];
        assert lines[j] in words ==> lines[j] in words + [w];
      } else {
        assert lines'[j] == w;
      }
    }
    forall j | 0 <= j < |lines'| - 1
      ensures JsLength(lines'[j]) + JsLength(FirstWord(lines'[j + 1])) > width
    {
      assert lines'[j] == lines[j];
      if j + 1 < |lines| {
        assert lines'[j + 1] == lines[j + 1];
      } else {
        assert lines'[j + 1] == w && lines[j] == Last(lines);
      }
    }
    assert Last(lines') == w;
  }

  /** The current line, extended by a space and a word that fit, as `line`. */
  lemma LayoutSpace(lines: seq<string>, lineLength: int, words: seq<string>, w: string,
                    width: int, line: string)
    requires Layout(lines, lineLength, words, width)
    requires lineLength + JsLength(w) <= width && lineLength > 0
    requires JsLength(line) == lineLength + 1 + JsLength(w)
    requires FirstWord(line) == FirstWord(Last(lines))
    ensures var n := |lines|;
            Layout(lines[..n - 1] + [line], lineLength + 1 + JsLength(w), words + [w], width)
  {
    var n := |lines|;
    var lines' := lines[..n - 1] + [line];
    forall j | 0 <= j < |lines'|
      ensures JsLength(lines'[j]) <= width + 1 || lines'[j] == [] || lines'[j] in words + [w]
    {
      if j < n - 1 {
        assert lines'[j] == lines[j];
        assert lines[j] in words ==> lines[j] in words + [w];
      }
    }
    forall j | 0 <= j < |lines'| - 1
      ensures JsLength(lines'[j]) + JsLength(FirstWord(lines'[j + 1])) > width
    {
      assert lines'[j] == lines[j];
      if j + 1 < n - 1 {
        assert lines'[j + 1] == lines[j + 1];
      }
    }
  }

  lemma LayoutStart(lines: seq<string>, lineLength: int, words: seq<string>, w: string,
                    width: int)
    requires Layout(lines, lineLength, words, width)
    requires lineLength + JsLength(w) <= width && lineLength <= 0
    requires FirstWord([]) == []
    ensures var n := |lines|;
            Layout(lines[..n - 1] + [w], lineLength + JsLength(w), words + [w], width)
  {
    var n := |lines|;
    var lines' := lines[..n - 1] + [w];
    assert Last(lines) == [];
    forall j | 0 <= j < |lines'|
      ensures JsLength(lines'[j]) <= width + 1 || lines'[j] == [] || lines'[j] in words + [w]
    {
      if j < n - 1 {
        assert lines'[j] == lines[j];
        assert lines[j] in words ==> lines[j] in words + [w];
      }
    }
    forall j | 0 <= j < |lines'| - 1
      ensures JsLength(lines'[j]) + JsLength(FirstWord(lines'[j + 1])) > width
    {
      assert lines'[j] == lines[j];
      if j + 1 < n - 1 {
        assert lines'[j + 1] == lines[j + 1];
      } else {
        assert JsLength(lines[j]) + JsLength(FirstWord(lines[j + 1])) > width;
      }
    }
  }

  lemma {:induction false} FoldPrefix(words: seq<string>, i: nat, width: int)
    requires i <= |words|
    ensures var r := Fold(words, width).result;
            var p := Fold(words[..i], width).result;
            |p| <= |r| && r[..|p|] == p
    decreases |words|
  {
    if i < |words| {
      var init := words[..|words| - 1];
      assert init[..i] == words[..i];
      FoldPrefix(init, i, width);
    } else {
      assert words[..i] == words;
    }
  }

  /** A first word longer than `width` is moved to a second line, so the output starts
      with a line break. */
  lemma LongFirstWord(text: string, width: int)
    requires JsLength(Split(text, ' ')[0]) > width
    ensures WrapText(text, width) != [] && WrapText(text, width)[0] == '\n'
  {
    var words := Split(text, ' ');
    FoldPrefix(words, 1, width);
    assert words[..1][..0] == [];
  }

  /** The empty text wraps to itself for a non-negative width; a negative width makes
      even the empty word overflow the first line. */
  lemma WrapEmpty(width: int)
    ensures WrapText("", width) == if width >= 0 then "" else "\n"
  {
    assert Split("", ' ') == [""];
    assert [""][..0] == [];
  }

  /** Widths are UTF-16 lengths: three emoji are six code units, so at width 5 they
      overflow the empty first line and are moved to a line of their own. */
  lemma SurrogatePairsCount()
    ensures WrapText("\U{1F600}\U{1F600}\U{1F600} a", 5) == "\n\U{1F600}\U{1F600}\U{1F600}\na"
  {
    var e := "\U{1F600}\U{1F600}\U{1F600}";
    var text := e + " " + "a";
    assert text == "\U{1F600}\U{1F600}\U{1F600} a";
    SplitAt(e, "a", ' ');
    SplitNoSep("a", ' ');
    var words := [e, "a"];
    assert JsLength(e) == 6;
    assert words[..1][..0] == [] && words[..1] == [e];
    assert Fold([e], 5) == WrapState("\n" + e, 6);
  }
}
