/**
 * The JavaScript string operations the report pipeline is built from:
 * `split` on one character, `join`, `trim`, `repeat`, `replace` with a string
 * pattern, and `String(n)` for integers.
 */
module Strings {
  import opened Wrappers

  /** The characters matched by `\s` in a JavaScript regular expression and removed
      by `String.prototype.trim`: WhiteSpace and LineTerminator of ECMAScript. */
  predicate IsSpace(c: char) {
    || ('\t' <= c <= '\r')   // tab, line feed, vertical tab, form feed, carriage return
    || c == ' ' || c == '\U{A0}' || c == '\U{1680}' || ('\U{2000}' <= c <= '\U{200A}')
    || c == '\U{2028}' || c == '\U{2029}' || c == '\U{202F}' || c == '\U{205F}'
    || c == '\U{3000}' || c == '\U{FEFF}'
  }

  /** True when some character of `s` is not whitespace (regular expression `/\S/`). */
  predicate HasNonSpace(s: string) {
    exists i :: 0 <= i < |s| && !IsSpace(s[i])
  }

  predicate AllSpace(s: string) {
    forall i :: 0 <= i < |s| ==> IsSpace(s[i])
  }

  // ---------------------------------------------------------------------------
  // split and join

  /** Index of the first `c` in `s`, or `|s|` when there is none. */
  function IndexOf(s: string, c: char): (i: nat)
    ensures i <= |s|
    ensures i < |s| ==> s[i] == c
    ensures forall j :: 0 <= j < i ==> s[j] != c
  {
    if s == [] then 0 else if s[0] == c then 0 else 1 + IndexOf(s[1..], c)
  }

  /** `s.split(c)` for a one-character separator: the pieces between the occurrences of `c`.
      There is always at least one piece, and `"".split(c)` is `[""]`. */
  function Split(s: string, c: char): (parts: seq<string>)
    ensures |parts| >= 1
    ensures forall k :: 0 <= k < |parts| ==> c !in parts[k]
    decreases |s|
  {
    var i := IndexOf(s, c);
    if i == |s| then [s] else [s[..i]] + Split(s[i + 1..], c)
  }

  /** The lines of a text: `s.split('\n')`. */
  function Lines(s: string): seq<string> {
    Split(s, '\n')
  }

  /** `parts.join(sep)`. */
  function Join(parts: seq<string>, sep: string): string {
    if |parts| == 0 then ""
    else if |parts| == 1 then parts[0]
    else parts[0] + sep + Join(parts[1..], sep)
  }

  /** `parts.join('')`. */
  function Concat(parts: seq<string>): string {
    if parts == [] then "" else parts[0] + Concat(parts[1..])
  }

  /** A string is the concatenation of its three slices at `i` and `j`. */
  lemma Slices(s: string, i: nat, j: nat)
    requires i <= j <= |s|
    ensures s == s[..i] + s[i..j] + s[j..]
    ensures s == s[..i] + (s[i..j] + s[j..])
  {
    assert s[..j] == s[..i] + s[i..j];
    assert s == s[..j] + s[j..];
  }

  /** Two leading parts followed by the rest. */
  lemma ConcatPair(a: string, b: string, rest: seq<string>)
    ensures Concat([a, b] + rest) == a + (b + Concat(rest))
  {
    assert ([a, b] + rest)[1..] == [b] + rest;
    assert ([b] + rest)[1..] == rest;
  }

  lemma {:induction false} ConcatAppend(a: seq<string>, b: seq<string>)
    ensures Concat(a + b) == Concat(a) + Concat(b)
  {
    if a == [] {
      assert a + b == b;
    } else {
      assert (a + b)[1..] == a[1..] + b;
      ConcatAppend(a[1..], b);
    }
  }

  lemma {:induction false} JoinAppendOne(parts: seq<string>, p: string, sep: string)
    requires |parts| >= 1
    ensures Join(parts + [p], sep) == Join(parts, sep) + sep + p
  {
    if |parts| == 1 {
      assert (parts + [p])[1..] == [p];
    } else {
      assert (parts + [p])[1..] == parts[1..] + [p];
      JoinAppendOne(parts[1..], p, sep);
    }
  }

  lemma IndexOfPrefix(a: string, b: string, c: char)
    requires c !in a
    ensures IndexOf(a + b, c) == |a| + IndexOf(b, c)
  {
    if a != [] {
      assert (a + b)[1..] == a[1..] + b;
      IndexOfPrefix(a[1..], b, c);
    } else {
      assert a + b == b;
    }
  }

  /** Splitting and joining on the same character gives the string back. */
  lemma {:induction false} JoinSplit(s: string, c: char)
    ensures Join(Split(s, c), [c]) == s
    decreases |s|
  {
    var i := IndexOf(s, c);
    if i < |s| {
      var rest := s[i + 1..];
      JoinSplit(rest, c);
      assert Split(s, c)[1..] == Split(rest, c);
      assert s == s[..i] + [c] + rest;
    }
  }

  /** Joining pieces that do not contain `c` and splitting on `c` gives the pieces back. */
  lemma {:induction false} SplitJoin(parts: seq<string>, c: char)
    requires |parts| >= 1
    requires forall k :: 0 <= k < |parts| ==> c !in parts[k]
    ensures Split(Join(parts, [c]), c) == parts
    decreases |parts|
  {
    var p := parts[0];
    if |parts| == 1 {
      IndexOfPrefix(p, [], c);
    } else {
      var rest := Join(parts[1..], [c]);
      var s := p + [c] + rest;
      IndexOfPrefix(p, [c] + rest, c);
      assert p + ([c] + rest) == s;
      assert s[..|p|] == p;
      assert s[|p| + 1..] == rest;
      SplitJoin(parts[1..], c);
    }
  }

  /** Split unfolded once at the first separator, when the prefix before it is `p`. */
  lemma SplitAt(p: string, rest: string, c: char)
    requires c !in p
    ensures Split(p + [c] + rest, c) == [p] + Split(rest, c)
  {
    var s := p + [c] + rest;
    IndexOfPrefix(p, [c] + rest, c);
    assert p + ([c] + rest) == s;
    assert IndexOf(s, c) == |p|;
    assert s[..|p|] == p;
    assert s[|p| + 1..] == rest;
  }

  /** Splitting at an occurrence of the separator appends the two splits. */
  lemma {:induction false} SplitAppendSep(a: string, b: string, c: char)
    ensures Split(a + [c] + b, c) == Split(a, c) + Split(b, c)
    decreases |a|
  {
    var i := IndexOf(a, c);
    if i == |a| {
      SplitNoSep(a, c);
      SplitAt(a, b, c);
    } else {
      var p, a' := a[..i], a[i + 1..];
      assert a == p + [c] + a';
      assert a + [c] + b == p + [c] + (a' + [c] + b);
      SplitAt(p, a' + [c] + b, c);
      SplitAt(p, a', c);
      SplitAppendSep(a', b, c);
    }
  }

  /** Appending text without the separator extends the last piece. */
  lemma {:induction false} SplitAppendPlain(a: string, b: string, c: char)
    requires c !in b
    ensures var p := Split(a, c);
            Split(a + b, c) == p[..|p| - 1] + [p[|p| - 1] + b]
    decreases |a|
  {
    var i := IndexOf(a, c);
    if i == |a| {
      SplitNoSep(a, c);
      SplitNoSep(a + b, c);
    } else {
      var p, a' := a[..i], a[i + 1..];
      assert Split(a, c) == [p] + Split(a', c) by {
        assert a == p + [c] + a';
        SplitAt(p, a', c);
      }
      assert Split(a + b, c) == [p] + Split(a' + b, c) by {
        assert a + b == p + [c] + (a' + b);
        SplitAt(p, a' + b, c);
      }
      SplitAppendPlain(a', b, c);
      ExtendLast(p, Split(a', c), Split(a' + b, c), b, Split(a, c), Split(a + b, c));
    }
  }

  /** Extending the last of `q`'s parts extends the last of `[p] + q`'s. */
  lemma ExtendLast(p: string, q: seq<string>, r: seq<string>, b: string, s: seq<string>, t: seq<string>)
    requires q != [] && r == q[..|q| - 1] + [q[|q| - 1] + b]
    requires s == [p] + q && t == [p] + r
    ensures t == s[..|s| - 1] + [s[|s| - 1] + b]
  {
    assert ([p] + q)[..|q|] == [p] + q[..|q| - 1];
  }

  lemma SplitNoSep(s: string, c: char)
    requires c !in s
    ensures Split(s, c) == [s]
  {
    IndexOfPrefix(s, [], c);
    assert s + [] == s;
  }

  /** `parts.filter(p => p)` on strings: the non-empty ones, in order. */
  function NonEmpty(parts: seq<string>): (r: seq<string>)
    ensures |r| <= |parts|
    ensures forall i :: 0 <= i < |r| ==> r[i] != [] && r[i] in parts
    decreases |parts|
  {
    if parts == [] then []
    else if parts[0] == [] then NonEmpty(parts[1..])
    else [parts[0]] + NonEmpty(parts[1..])
  }

  /** Filtering distributes over concatenation, so the surviving strings keep their order. */
  lemma {:induction false} NonEmptyAppend(a: seq<string>, b: seq<string>)
    ensures NonEmpty(a + b) == NonEmpty(a) + NonEmpty(b)
    decreases |a|
  {
    if a != [] {
      assert (a + b)[1..] == a[1..] + b;
      NonEmptyAppend(a[1..], b);
    } else {
      assert a + b == b;
    }
  }

  /** Only empty strings are dropped: every non-empty one survives, and a list with no
      empty string is kept whole. */
  lemma {:induction false} NonEmptyKeeps(parts: seq<string>)
    ensures forall x :: x in parts && x != [] ==> x in NonEmpty(parts)
    ensures (forall i :: 0 <= i < |parts| ==> parts[i] != []) ==> NonEmpty(parts) == parts
    decreases |parts|
  {
    if parts != [] {
      NonEmptyKeeps(parts[1..]);
      assert forall x :: x in parts && x != parts[0] ==> x in parts[1..];
    }
  }

  // ---------------------------------------------------------------------------
  // length

  /** The UTF-16 code units of one character: two (a surrogate pair) outside the Basic
      Multilingual Plane, one inside it. */
  function CodeUnits(c: char): (n: nat)
    ensures n == 1 || n == 2
  {
    if c as int > 0xFFFF then 2 else 1
  }

  /** `s.length`: JavaScript counts UTF-16 code units, not characters. */
  function JsLength(s: string): (n: nat)
    ensures |s| <= n <= 2 * |s|
    decreases |s|
  {
    if s == [] then 0 else JsLength(s[..|s| - 1]) + CodeUnits(s[|s| - 1])
  }

  /** The length of a concatenation is the sum of the lengths. */
  lemma {:induction false} JsLengthAppend(a: string, b: string)
    ensures JsLength(a + b) == JsLength(a) + JsLength(b)
    decreases |b|
  {
    if b == [] {
      assert a + b == a;
    } else {
      var b' := b[..|b| - 1];
      assert (a + b)[..|a + b| - 1] == a + b';
      JsLengthAppend(a, b');
    }
  }

  /** A string of Basic Multilingual Plane characters has one code unit per character,
      and one with a character outside it is longer than its character count. */
  lemma {:induction false} JsLengthBmp(s: string)
    ensures (forall i :: 0 <= i < |s| ==> s[i] as int <= 0xFFFF) <==> JsLength(s) == |s|
    decreases |s|
  {
    if s != [] {
      var s' := s[..|s| - 1];
      JsLengthBmp(s');
      if forall i :: 0 <= i < |s| ==> s[i] as int <= 0xFFFF {
        assert forall i :: 0 <= i < |s'| ==> s'[i] == s[i];
      } else if JsLength(s) == |s| {
        assert CodeUnits(s[|s| - 1]) == 1;
        assert JsLength(s') == |s'|;
        assert forall i :: 0 <= i < |s'| ==> s'[i] == s[i];
      }
    }
  }

  // ---------------------------------------------------------------------------
  // trim

  /** Number of whitespace characters at the start of `s`. */
  function LeadingSpace(s: string): (n: nat)
    ensures n <= |s|
    ensures forall i :: 0 <= i < n ==> IsSpace(s[i])
    ensures n < |s| ==> !IsSpace(s[n])
  {
    if |s| > 0 && IsSpace(s[0]) then 1 + LeadingSpace(s[1..]) else 0
  }

  /** Number of whitespace characters at the end of `s`. */
  function TrailingSpace(s: string): (n: nat)
    ensures n <= |s|
    ensures forall i :: |s| - n <= i < |s| ==> IsSpace(s[i])
    ensures n < |s| ==> !IsSpace(s[|s| - n - 1])
  {
    if |s| > 0 && IsSpace(s[|s| - 1]) then 1 + TrailingSpace(s[..|s| - 1]) else 0
  }

  /** `s.trim()`: `s` without its leading and trailing whitespace. */
  function Trim(s: string): (r: string)
    ensures r == [] || (!IsSpace(r[0]) && !IsSpace(r[|r| - 1]))
    ensures |r| <= |s|
  {
    var t := s[LeadingSpace(s)..];
    t[..|t| - TrailingSpace(t)]
  }

  /** What `trim` removes is whitespace: the result sits in `s` between two whitespace runs. */
  lemma TrimInfix(s: string)
    ensures var i, j := LeadingSpace(s), LeadingSpace(s) + |Trim(s)|;
            i <= j <= |s| && Trim(s) == s[i..j] &&
            AllSpace(s[..i]) && AllSpace(s[j..])
  {
    var i := LeadingSpace(s);
    var t := s[i..];
    var n := TrailingSpace(t);
    var j := i + (|t| - n);
    assert Trim(s) == s[i..j] by {
      assert Trim(s) == t[..|t| - n];
    }
    assert AllSpace(s[j..]) by {
      assert s[j..] == t[|t| - n..];
      TailSpace(t, n);
    }
  }

  /** The last `n` characters of `t`, all whitespace, make a whitespace string. */
  lemma TailSpace(t: string, n: nat)
    requires n <= |t|
    requires forall k :: |t| - n <= k < |t| ==> IsSpace(t[k])
    ensures AllSpace(t[|t| - n..])
  {
    var u := t[|t| - n..];
    forall k | 0 <= k < |u| ensures IsSpace(u[k]) {
      assert u[k] == t[|t| - n + k];
    }
  }

  /** `trim` leaves a string alone exactly when it has no whitespace at either end. */
  lemma TrimFixed(s: string)
    ensures Trim(s) == s <==> (s == [] || (!IsSpace(s[0]) && !IsSpace(s[|s| - 1])))
  {
    if s != [] && !IsSpace(s[0]) && !IsSpace(s[|s| - 1]) {
      assert LeadingSpace(s) == 0;
      assert s[0..] == s;
      assert TrailingSpace(s) == 0;
    }
  }

  /** Trimming twice is trimming once. */
  lemma TrimIdempotent(s: string)
    ensures Trim(Trim(s)) == Trim(s)
  {
    TrimFixed(Trim(s));
  }

  /** `trim` on a text that ends with one space after a visible character drops just that space. */
  lemma TrimOneTrailingSpace(t: string)
    requires t != [] && !IsSpace(t[0]) && !IsSpace(t[|t| - 1])
    ensures Trim(t + " ") == t
  {
    var s := t + " ";
    assert LeadingSpace(s) == 0;
    assert s[0..] == s;
    assert s[..|s| - 1] == t;
    assert TrailingSpace(t) == 0;
    assert TrailingSpace(s) == 1;
  }

  // ---------------------------------------------------------------------------
  // repeat, replace, String(n)

  /** `' '.repeat(n)`. */
  function Spaces(n: nat): (r: string)
    ensures |r| == n && forall i :: 0 <= i < n ==> r[i] == ' '
  {
    seq(n, _ => ' ')
  }

  predicate OccursAt(s: string, pat: string, i: nat) {
    i + |pat| <= |s| && s[i..i + |pat|] == pat
  }

  /** The first position at or after `from` where `pat` occurs in `s`. */
  function FindFrom(s: string, pat: string, from: nat): (r: Option<nat>)
    requires from <= |s|
    ensures r.Some? ==> from <= r.value && OccursAt(s, pat, r.value)
    ensures r.Some? ==> forall j :: from <= j < r.value ==> !OccursAt(s, pat, j)
    ensures r.None? ==> forall j :: from <= j <= |s| ==> !OccursAt(s, pat, j)
    decreases |s| - from
  {
    if OccursAt(s, pat, from) then Some(from)
    else if from == |s| then None
    else FindFrom(s, pat, from + 1)
  }

  /** `s.replace(pat, rep)` with a string pattern: only the first occurrence is replaced. */
  function ReplaceFirst(s: string, pat: string, rep: string): (r: string)
    ensures (forall j :: 0 <= j <= |s| ==> !OccursAt(s, pat, j)) ==> r == s
    ensures forall i :: 0 <= i <= |s| && OccursAt(s, pat, i) &&
                        (forall j :: 0 <= j < i ==> !OccursAt(s, pat, j)) ==>
                        r == s[..i] + rep + s[i + |pat|..]
  {
    match FindFrom(s, pat, 0)
    case None => s
    case Some(i) => s[..i] + rep + s[i + |pat|..]
  }

  function DigitChar(d: nat): (c: char)
    requires d < 10
    ensures '0' <= c <= '9'
  {
    "0123456789"[d]
  }

  function Digits(n: nat): (r: string)
    ensures |r| >= 1 && forall i :: 0 <= i < |r| ==> '0' <= r[i] <= '9'
  {
    if n < 10 then [DigitChar(n)] else Digits(n / 10) + [DigitChar(n % 10)]
  }

  /** `String(n)` for an integer: decimal digits, after a `-` when negative. */
  function IntToString(n: int): (r: string)
    ensures |r| >= 1
    ensures forall i :: 0 <= i < |r| ==> r[i] == '-' || '0' <= r[i] <= '9'
    ensures (r[0] == '-') <==> n < 0
  {
    if n < 0 then "-" + Digits(-n) else Digits(n)
  }
}
