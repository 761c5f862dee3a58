/**
 * `indent(string, padding)`: trim the text, split it into lines, put `padding`
 * spaces in front of every line (blank lines included) and join the lines again.
 */
module Indenting {
  import opened Wrappers
  import opened Strings

  /** `String.prototype.repeat` rejects a negative count. */
  datatype RangeError = InvalidCount(count: int)

  /** Every line with `pad` in front of it. */
  function Prefixed(lines: seq<string>, pad: string): (r: seq<string>)
    ensures |r| == |lines| && forall i :: 0 <= i < |lines| ==> r[i] == pad + lines[i]
  {
    seq(|lines|, i requires 0 <= i < |lines| => pad + lines[i])
  }

  /** `indent(s, padding)` for a count that `repeat` accepts. */
  function Indent(s: string, padding: nat): string {
    Join(Prefixed(Lines(Trim(s)), Spaces(padding)), "\n")
  }

  /** `indent(s, padding)` with the optional JavaScript argument: `padding || 0` turns
      `undefined` into no padding, and `' '.repeat` throws for a negative count. */
  function IndentArg(s: string, padding: Option<int>): (r: Result<string, RangeError>)
    ensures r.Err? <==> padding.Some? && padding.value < 0
    ensures r.Ok? ==> r.value == Indent(s, padding.GetOr(0))
  {
    match padding
    case None => Ok(Indent(s, 0))
    case Some(n) => if n < 0 then Err(InvalidCount(n)) else Ok(Indent(s, n))
  }

  /** Output line `i` is `padding` spaces followed by line `i` of the trimmed input. */
  lemma IndentLines(s: string, padding: nat)
    ensures var src := Lines(Trim(s));
            var out := Lines(Indent(s, padding));
            |out| == |src| && forall i :: 0 <= i < |src| ==> out[i] == Spaces(padding) + src[i]
  {
    var src := Lines(Trim(s));
    var pre := Prefixed(src, Spaces(padding));
    forall k | 0 <= k < |pre| ensures '\n' !in pre[k] {
      assert pre[k] == Spaces(padding) + src[k];
    }
    SplitJoin(pre, '\n');
  }

  lemma {:induction false} JoinPrefixedLength(lines: seq<string>, pad: string)
    ensures |Join(Prefixed(lines, pad), "\n")| == |Join(lines, "\n")| + |pad| * |lines|
    decreases |lines|
  {
    var pre := Prefixed(lines, pad);
    if |lines| > 1 {
      JoinPrefixedLength(lines[1..], pad);
      assert pre[1..] == Prefixed(lines[1..], pad);
      assert |pad| * |lines| == |pad| * |lines[1..]| + |pad|;
    }
  }

  /** The padding adds exactly `padding` characters per line. */
  lemma IndentLength(s: string, padding: nat)
    ensures |Indent(s, padding)| == |Trim(s)| + padding * |Lines(Trim(s))|
  {
    JoinPrefixedLength(Lines(Trim(s)), Spaces(padding));
    JoinSplit(Trim(s), '\n');
  }

  lemma {:induction false} JoinPrefixedEmpty(lines: seq<string>)
    ensures Prefixed(lines, "") == lines
  {
    assert forall i :: 0 <= i < |lines| ==> "" + lines[i] == lines[i];
  }

  /** With no padding (`0` or `undefined`) indentation is just trimming. */
  lemma IndentZero(s: string)
    ensures Indent(s, 0) == Trim(s)
    ensures IndentArg(s, None) == Ok(Trim(s)) && IndentArg(s, Some(0)) == Ok(Trim(s))
  {
    assert Spaces(0) == "";
    JoinPrefixedEmpty(Lines(Trim(s)));
    JoinSplit(Trim(s), '\n');
  }

  /** Indenting by zero twice is indenting by zero once. */
  lemma IndentZeroIdempotent(s: string)
    ensures Indent(Indent(s, 0), 0) == Indent(s, 0)
  {
    IndentZero(s);
    IndentZero(Trim(s));
    TrimIdempotent(s);
  }

  /** A one-line text that starts and ends with a visible character keeps its shape:
      it only gets the spaces in front. */
  lemma IndentOneLine(s: string, padding: nat)
    requires s != [] && !IsSpace(s[0]) && !IsSpace(s[|s| - 1]) && '\n' !in s
    ensures Indent(s, padding) == Spaces(padding) + s
  {
    TrimFixed(s);
    SplitNoSep(s, '\n');
  }
}
