/**
 * `colorize(sentence)`: split the sentence into word and whitespace tokens
 * (`sentence.split(/(\s+)/)`), give every token that holds a visible character a
 * colour drawn at random from a fourteen-colour palette, leave the other tokens as
 * they are, and glue the tokens back together in order.
 *
 * `Math.random()` is the sequence `random` of values in [0, 1); the call that paints
 * the `j`-th painted token of this sentence reads `random(k + j)`, where `k` counts
 * the values drawn before the call.
 */
module Colouring {
  import opened Strings
  import opened Styles

  /** A value returned by `Math.random()`. */
  type Draw = r: real | 0.0 <= r < 1.0

  /** The palette, in the order of the source. */
  const Palette: seq<Colour> :=
    [Red, Green, RedBright, Yellow, Blue, GreenBright, Magenta, Cyan,
     YellowBright, White, BlueBright, MagentaBright, CyanBright, WhiteBright]

  /** `Math.floor(Math.random() * colors.length)`: always an index of the palette. */
  function ColourIndex(r: Draw): (i: int)
    ensures 0 <= i < |Palette| == 14
  {
    (r * (|Palette| as real)).Floor
  }

  /** No whitespace at all (possibly empty). */
  predicate NoSpace(t: string) {
    forall i :: 0 <= i < |t| ==> !IsSpace(t[i])
  }

  /** Length of the leading run of non-whitespace characters. */
  function WordRun(s: string): (n: nat)
    ensures n <= |s| && NoSpace(s[..n])
    ensures n < |s| ==> IsSpace(s[n])
  {
    if s != [] && !IsSpace(s[0]) then
      var n := 1 + WordRun(s[1..]);
      assert forall i :: 1 <= i < n ==> s[..n][i] == s[1..][..n - 1][i - 1];
      n
    else 0
  }

  /** Length of the leading run of whitespace characters. */
  function SpaceRun(s: string): (n: nat)
    ensures n <= |s| && AllSpace(s[..n])
    ensures n < |s| ==> !IsSpace(s[n])
  {
    if s != [] && IsSpace(s[0]) then
      var n := 1 + SpaceRun(s[1..]);
      assert forall i :: 1 <= i < n ==> s[..n][i] == s[1..][..n - 1][i - 1];
      n
    else 0
  }

  /** `s.split(/(\s+)/)`: word runs (possibly empty) alternating with the maximal
      whitespace runs, which the capturing group keeps. */
  function Tokenize(s: string): (tokens: seq<string>)
    ensures |tokens| >= 1
    decreases |s|
  {
    var n := WordRun(s);
    if n == |s| then [s]
    else
      var m := SpaceRun(s[n..]);
      [s[..n], s[n..n + m]] + Tokenize(s[n + m..])
  }

  /** The shape of the tokens: an odd number of them, words at even positions and
      non-empty whitespace runs at odd ones; a word between two whitespace runs is not
      empty (the runs are maximal), and a sentence that starts or ends with a visible
      character starts or ends with a non-empty word. */
  ghost predicate Alternating(s: string, tokens: seq<string>) {
    && |tokens| % 2 == 1
    && (forall k :: 0 <= k < |tokens| && k % 2 == 0 ==> NoSpace(tokens[k]))
    && (forall k :: 0 <= k < |tokens| && k % 2 == 1 ==> tokens[k] != [] && AllSpace(tokens[k]))
    && (forall k :: 0 < k < |tokens| - 1 && k % 2 == 0 ==> tokens[k] != [])
    && (s != [] && !IsSpace(s[0]) ==> tokens[0] != [])
    && (s != [] && !IsSpace(s[|s| - 1]) ==> tokens[|tokens| - 1] != [])
  }

  lemma {:induction false} TokenizeShape(s: string)
    ensures Alternating(s, Tokenize(s))
    decreases |s|
  {
    var n := WordRun(s);
    if n == |s| {
      assert s[..n] == s;
    } else {
      var m := SpaceRun(s[n..]);
      var rest := s[n + m..];
      TokenizeShape(rest);
      assert Tokenize(s) == [s[..n], s[n..n + m]] + Tokenize(rest);
      assert s[n..][..m] == s[n..n + m];
      Slices(s, n, n + m);
      AlternatingCons(s, s[..n], s[n..n + m], rest, Tokenize(rest));
    }
  }

  /** A word, then a non-empty whitespace run, then the tokens of a rest that does not
      start with whitespace, alternate as the whole sentence's tokens must. */
  lemma {:induction false} AlternatingCons(s: string, word: string, space: string, rest: string,
                                           tail: seq<string>)
    requires s == word + space + rest
    requires NoSpace(word) && space != [] && AllSpace(space)
    requires rest != [] ==> !IsSpace(rest[0])
    requires Alternating(rest, tail) && (rest == [] ==> |tail| == 1)
    ensures Alternating(s, [word, space] + tail)
  {
    var tokens := [word, space] + tail;
    forall k | 0 <= k < |tokens| && k % 2 == 0 ensures NoSpace(tokens[k]) {
      if k >= 2 { assert tokens[k] == tail[k - 2]; }
    }
    forall k | 0 <= k < |tokens| && k % 2 == 1 ensures tokens[k] != [] && AllSpace(tokens[k]) {
      if k >= 2 { assert tokens[k] == tail[k - 2]; }
    }
    forall k | 0 < k < |tokens| - 1 && k % 2 == 0 ensures tokens[k] != [] {
      assert tokens[k] == tail[k - 2];
    }
    if word == [] {
      assert s[0] == space[0];
    }
    if rest == [] {
      assert s[|s| - 1] == space[|space| - 1];
    } else {
      assert rest[|rest| - 1] == s[|s| - 1];
    }
  }

  /** The tokens glue back into the sentence. */
  lemma {:induction false} TokenizeRoundTrip(s: string)
    ensures Concat(Tokenize(s)) == s
    decreases |s|
  {
    var n := WordRun(s);
    if n == |s| {
      assert Concat([s]) == s + Concat([]);
    } else {
      var m := SpaceRun(s[n..]);
      var rest := s[n + m..];
      TokenizeRoundTrip(rest);
      assert Tokenize(s) == [s[..n], s[n..n + m]] + Tokenize(rest);
      ConcatPair(s[..n], s[n..n + m], Tokenize(rest));
      Slices(s, n, n + m);
    }
  }

  /** The colour given to a token painted with draw number `k`. */
  function PaintColour(random: nat -> Draw, k: nat): Colour {
    Palette[ColourIndex(random(k))]
  }

  /** Number of tokens that get a colour, that is, of `Math.random()` calls. */
  function Draws(tokens: seq<string>): nat {
    if tokens == [] then 0 else (if HasNonSpace(tokens[0]) then 1 else 0) + Draws(tokens[1..])
  }

  /** The `map` step: each token, painted when it holds a visible character. */
  function Paint(tokens: seq<string>, random: nat -> Draw, k: nat): (parts: seq<string>)
    ensures |parts| == |tokens|
  {
    if tokens == [] then []
    else if HasNonSpace(tokens[0]) then
      [Style([Fg(PaintColour(random, k))], tokens[0])] + Paint(tokens[1..], random, k + 1)
    else
      [tokens[0]] + Paint(tokens[1..], random, k)
  }

  /** `colorize(sentence)` with the draws `random(k)`, `random(k + 1)`, ... */
  function Colorize(sentence: string, random: nat -> Draw, k: nat): string {
    Concat(Paint(Tokenize(sentence), random, k))
  }

  /** How many draws `colorize(sentence)` makes. */
  function DrawsOf(sentence: string): nat {
    Draws(Tokenize(sentence))
  }

  /** Each whitespace-only token (a whitespace run or an empty word) is left as it is;
      each other token is wrapped in exactly one colour, the one chosen by its draw. */
  lemma {:induction false} PaintAt(tokens: seq<string>, random: nat -> Draw, k: nat, i: nat)
    requires i < |tokens|
    ensures var p := Paint(tokens, random, k)[i];
            if HasNonSpace(tokens[i])
            then p == Style([Fg(PaintColour(random, k + Draws(tokens[..i])))], tokens[i])
            else p == tokens[i]
    decreases i
  {
    if i > 0 {
      var k' := if HasNonSpace(tokens[0]) then k + 1 else k;
      PaintAt(tokens[1..], random, k', i - 1);
      PaintTail(tokens, random, k);
      DrawsTail(tokens, i);
      assert tokens[i] == tokens[1..][i - 1];
    }
  }

  /** Past the first token, painting continues on the rest with the next draw number. */
  lemma PaintTail(tokens: seq<string>, random: nat -> Draw, k: nat)
    requires tokens != []
    ensures Paint(tokens, random, k)[1..] ==
            Paint(tokens[1..], random, if HasNonSpace(tokens[0]) then k + 1 else k)
  {
  }

  lemma DrawsTail(tokens: seq<string>, i: nat)
    requires 0 < i <= |tokens|
    ensures Draws(tokens[..i]) == (if HasNonSpace(tokens[0]) then 1 else 0) + Draws(tokens[1..][..i - 1])
  {
    assert tokens[..i][1..] == tokens[1..][..i - 1];
  }

  lemma {:induction false} StripPaint(tokens: seq<string>, random: nat -> Draw, k: nat)
    ensures Strip(Concat(Paint(tokens, random, k))) == Strip(Concat(tokens))
  {
    if tokens != [] {
      var k' := if HasNonSpace(tokens[0]) then k + 1 else k;
      var head := Paint(tokens, random, k)[0];
      StripPaint(tokens[1..], random, k');
      assert Paint(tokens, random, k)[1..] == Paint(tokens[1..], random, k');
      StripAppend(head, Concat(Paint(tokens[1..], random, k')));
      StripAppend(tokens[0], Concat(tokens[1..]));
      StripStyle([Fg(PaintColour(random, k))], tokens[0]);
    }
  }

  /** Colouring never changes the visible text: stripping the styles gives the sentence. */
  lemma ColorizeStrip(s: string, random: nat -> Draw, k: nat)
    ensures Strip(Colorize(s, random, k)) == Strip(s)
    ensures Plain(s) ==> Strip(Colorize(s, random, k)) == s
  {
    StripPaint(Tokenize(s), random, k);
    TokenizeRoundTrip(s);
    if Plain(s) {
      StripPlain(s);
    }
  }

  lemma ConcatFirst(parts: seq<string>)
    requires parts != [] && parts[0] != []
    ensures Concat(parts) != [] && Concat(parts)[0] == parts[0][0]
  {
  }

  lemma {:induction false} ConcatLast(parts: seq<string>)
    requires parts != [] && parts[|parts| - 1] != []
    ensures Concat(parts) != [] && Concat(parts)[|Concat(parts)| - 1] == LastChar(parts)
    decreases |parts|
  {
    if |parts| > 1 {
      ConcatLast(parts[1..]);
    } else {
      assert Concat(parts) == parts[0] + Concat([]);
    }
  }

  function LastChar(parts: seq<string>): char
    requires parts != [] && parts[|parts| - 1] != []
  {
    var p := parts[|parts| - 1]; p[|p| - 1]
  }

  /** A sentence that starts and ends with a visible character is coloured into a
      string that starts and ends with a style marker, so `trim` leaves it alone. */
  lemma ColorizeEdges(s: string, random: nat -> Draw, k: nat)
    requires s != [] && !IsSpace(s[0]) && !IsSpace(s[|s| - 1])
    ensures var c := Colorize(s, random, k);
            c != [] && IsMarker(c[0]) && IsMarker(c[|c| - 1])
  {
    var tokens := Tokenize(s);
    TokenizeShape(s);
    TokenizeEdges(s, tokens);
    PaintEdges(tokens, random, k);
  }

  /** The first and last tokens of such a sentence hold visible characters. */
  lemma {:induction false} TokenizeEdges(s: string, tokens: seq<string>)
    requires s != [] && !IsSpace(s[0]) && !IsSpace(s[|s| - 1])
    requires Alternating(s, tokens)
    ensures HasNonSpace(tokens[0]) && HasNonSpace(tokens[|tokens| - 1])
  {
    assert !IsSpace(tokens[0][0]);
    var t := tokens[|tokens| - 1];
    assert !IsSpace(t[|t| - 1]);
  }

  /** Painting tokens whose first and last hold visible characters gives a string that
      starts and ends with a style marker. */
  lemma {:induction false} PaintEdges(tokens: seq<string>, random: nat -> Draw, k: nat)
    requires tokens != [] && HasNonSpace(tokens[0]) && HasNonSpace(tokens[|tokens| - 1])
    ensures var c := Concat(Paint(tokens, random, k));
            c != [] && IsMarker(c[0]) && IsMarker(c[|c| - 1])
  {
    var parts := Paint(tokens, random, k);
    PaintedMarked(tokens, random, k, 0);
    PaintedMarked(tokens, random, k, |tokens| - 1);
    ConcatFirst(parts);
    ConcatLast(parts);
  }

  /** A painted token starts and ends with a style marker. */
  lemma {:induction false} PaintedMarked(tokens: seq<string>, random: nat -> Draw, k: nat, i: nat)
    requires i < |tokens| && HasNonSpace(tokens[i])
    ensures var p := Paint(tokens, random, k)[i];
            |p| >= 2 && IsMarker(p[0]) && IsMarker(p[|p| - 1])
  {
    PaintAt(tokens, random, k, i);
    StyleMarked([Fg(PaintColour(random, k + Draws(tokens[..i])))], tokens[i]);
  }
}
