/**
 * Terminal styling (the `chalk` library) as seen by the report pipeline.
 *
 * A style brackets its text between an opening and a closing marker character, the
 * way an ANSI escape sequence brackets it on a terminal. Markers are taken from the
 * Unicode private-use area, so they are never whitespace and never a line break, as
 * escape sequences are not; `Strip` removes them and recovers the visible text.
 */
module Styles {
  import opened Strings

  /** Every colour the pipeline uses: the fourteen of the random palette, then `gray`. */
  datatype Colour =
    | Red | Green | RedBright | Yellow | Blue | GreenBright | Magenta | Cyan
    | YellowBright | White | BlueBright | MagentaBright | CyanBright | WhiteBright | Gray

  /** One styling attribute: a foreground colour, bold, italic or underline. */
  datatype Attr = Fg(colour: Colour) | Bold | Italic | Underline

  function ColourCode(c: Colour): (n: nat)
    ensures n < 15
  {
    match c
    case Red => 0 case Green => 1 case RedBright => 2 case Yellow => 3
    case Blue => 4 case GreenBright => 5 case Magenta => 6 case Cyan => 7
    case YellowBright => 8 case White => 9 case BlueBright => 10
    case MagentaBright => 11 case CyanBright => 12 case WhiteBright => 13 case Gray => 14
  }

  function AttrCode(a: Attr): (n: nat)
    ensures n < 18
  {
    match a
    case Fg(c) => ColourCode(c)
    case Bold => 15
    case Italic => 16
    case Underline => 17
  }

  /** Marker characters occupy U+E000 to U+E0FF. */
  predicate IsMarker(c: char) {
    '\U{E000}' <= c <= '\U{E0FF}'
  }

  lemma MarkerNotSpace(c: char)
    requires IsMarker(c)
    ensures !IsSpace(c) && c != '\n'
  {
  }

  function OpenMark(a: Attr): (c: char)
    ensures IsMarker(c) && !IsSpace(c)
  {
    (0xE000 + 2 * AttrCode(a)) as char
  }

  function CloseMark(a: Attr): (c: char)
    ensures IsMarker(c) && !IsSpace(c)
  {
    (0xE001 + 2 * AttrCode(a)) as char
  }

  /** The opening sequence of a chain such as `chalk.red.bold.underline`: outermost first. */
  function Opens(attrs: seq<Attr>): (r: string)
    ensures |r| == |attrs|
    ensures forall i :: 0 <= i < |r| ==> r[i] == OpenMark(attrs[i])
  {
    if attrs == [] then [] else [OpenMark(attrs[0])] + Opens(attrs[1..])
  }

  /** The closing sequence of a chain: innermost first. */
  function Closes(attrs: seq<Attr>): (r: string)
    ensures |r| == |attrs|
    ensures forall i :: 0 <= i < |r| ==> r[i] == CloseMark(attrs[|attrs| - 1 - i])
  {
    if attrs == [] then [] else Closes(attrs[1..]) + [CloseMark(attrs[0])]
  }

  /** `chalk.<attrs...>(s)`: the text wrapped in the given styles. Like chalk, the
      empty string is returned as it is, without markers. */
  function Style(attrs: seq<Attr>, s: string): (r: string)
    ensures s == [] ==> r == []
    ensures s != [] ==> |r| == |s| + 2 * |attrs|
  {
    if s == [] then [] else Opens(attrs) + s + Closes(attrs)
  }

  /** The visible text: `s` without any marker character. */
  function Strip(s: string): (r: string)
    ensures |r| <= |s|
  {
    if s == [] then [] else (if IsMarker(s[0]) then [] else [s[0]]) + Strip(s[1..])
  }

  /** A string the caller typed: it holds no marker of its own. */
  predicate Plain(s: string) {
    forall i :: 0 <= i < |s| ==> !IsMarker(s[i])
  }

  lemma {:induction false} StripAppend(a: string, b: string)
    ensures Strip(a + b) == Strip(a) + Strip(b)
  {
    if a == [] {
      assert a + b == b;
    } else {
      assert (a + b)[1..] == a[1..] + b;
      StripAppend(a[1..], b);
    }
  }

  lemma {:induction false} StripPlain(s: string)
    requires Plain(s)
    ensures Strip(s) == s
  {
    if s != [] {
      StripPlain(s[1..]);
    }
  }

  lemma {:induction false} StripMarkers(s: string)
    requires forall i :: 0 <= i < |s| ==> IsMarker(s[i])
    ensures Strip(s) == []
  {
    if s != [] {
      StripMarkers(s[1..]);
    }
  }

  /** Styling never changes the visible text. */
  lemma StripStyle(attrs: seq<Attr>, s: string)
    ensures Strip(Style(attrs, s)) == Strip(s)
  {
    if s == [] {
      return;
    }
    StripAppend(Opens(attrs) + s, Closes(attrs));
    StripAppend(Opens(attrs), s);
    StripMarkers(Opens(attrs));
    StripMarkers(Closes(attrs));
  }

  lemma StripAppend3(a: string, b: string, c: string)
    ensures Strip(a + b + c) == Strip(a) + Strip(b) + Strip(c)
  {
    StripAppend(a + b, c);
    StripAppend(a, b);
  }

  /** Styled text between two plain texts shows its own visible text between them. */
  lemma StripBetween(a: string, styled: string, b: string)
    requires Plain(a) && Plain(b)
    ensures Strip(a + styled + b) == a + Strip(styled) + b
  {
    StripAppend3(a, styled, b);
    StripPlain(a);
    StripPlain(b);
  }

  /** A one-line text, styled, starts and ends with a marker and stays on one line. */
  lemma StyleEdges(attrs: seq<Attr>, s: string)
    requires attrs != [] && s != [] && '\n' !in s
    ensures var t := Style(attrs, s);
            t != [] && IsMarker(t[0]) && !IsSpace(t[0]) && IsMarker(t[|t| - 1]) &&
            !IsSpace(t[|t| - 1]) && '\n' !in t
  {
    var t := Style(attrs, s);
    StyleMarked(attrs, s);
    assert t == Opens(attrs) + s + Closes(attrs);
    MarkersOnly(Opens(attrs));
    MarkersOnly(Closes(attrs));
  }

  /** A run of markers holds no line break. */
  lemma MarkersOnly(r: string)
    requires forall i :: 0 <= i < |r| ==> IsMarker(r[i])
    ensures '\n' !in r
  {
  }

  /** Styled text starts with the opening marker of the outermost style and ends with
      its closing marker. */
  lemma StyleMarked(attrs: seq<Attr>, s: string)
    requires attrs != [] && s != []
    ensures var t := Style(attrs, s);
            |t| >= 2 && t[0] == OpenMark(attrs[0]) && t[|t| - 1] == CloseMark(attrs[0])
  {
    var t := Style(attrs, s);
    assert t == Opens(attrs) + s + Closes(attrs);
  }

  /** A character that is not a marker stays visible. */
  lemma {:induction false} StripShows(s: string, c: char)
    requires c in s && !IsMarker(c)
    ensures c in Strip(s)
  {
    if s[0] != c {
      assert c in s[1..];
      StripShows(s[1..], c);
    }
  }

  lemma PlainAppend(a: string, b: string)
    requires Plain(a) && Plain(b)
    ensures Plain(a + b)
  {
    forall j | 0 <= j < |a + b| ensures !IsMarker((a + b)[j]) {
      if j >= |a| { assert (a + b)[j] == b[j - |a|]; }
    }
  }
}
