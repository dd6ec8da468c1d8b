/**
 * The JavaScript string and array primitives the ticker parser relies on:
 * `String.prototype.split` on a one-character separator, `String.prototype.trim`
 * and `Array.prototype.indexOf`, each with the property that defines it.
 */
module Text {

  /**
   * The characters `trim` removes: the WhiteSpace and LineTerminator code points
   * of ECMAScript (section 12.2 and 12.3 of ECMA-262), that is TAB, VT, FF, ZWNBSP,
   * the Unicode space separators (category Zs), LF, CR, LS and PS.
   */
  predicate IsWhiteSpace(c: char) {
    c == '\t' || c == '\n' || c == '\U{000B}' || c == '\U{000C}' || c == '\r' ||
    c == ' ' || c == '\U{00A0}' || c == '\U{1680}' ||
    ('\U{2000}' <= c <= '\U{200A}') ||
    c == '\U{2028}' || c == '\U{2029}' || c == '\U{202F}' || c == '\U{205F}' ||
    c == '\U{3000}' || c == '\U{FEFF}'
  }

  predicate AllWhiteSpace(s: string) {
    forall i :: 0 <= i < |s| ==> IsWhiteSpace(s[i])
  }

  /** Neither end of `s` is a white-space character. */
  predicate IsTrimmed(s: string) {
    s == [] || (!IsWhiteSpace(s[0]) && !IsWhiteSpace(s[|s| - 1]))
  }

  /**
   * `String.prototype.trim`: what is left of `s` once the white space at both of
   * its ends is gone; neither end of the result is white space.
   */
  function Trim(s: string): (r: string)
    ensures IsTrimmed(r)
    ensures |r| <= |s|
  {
    if s != [] && IsWhiteSpace(s[0]) then Trim(s[1..])
    else if s != [] && IsWhiteSpace(s[|s| - 1]) then Trim(s[..|s| - 1])
    else s
  }

  /**
   * Trimming keeps a contiguous part of `s` and cuts off only white space: `s` is
   * some white space, then the result, then some more white space.
   */
  lemma {:induction false} TrimCutsWhiteSpace(s: string)
    ensures exists lead: string, trail: string {:trigger lead + Trim(s) + trail} ::
      AllWhiteSpace(lead) && AllWhiteSpace(trail) && s == lead + Trim(s) + trail
  {
    var lead, trail := TrimmedParts(s);
  }

  /** The white space `Trim` cuts from the front and from the back of `s`. */
  lemma {:induction false} TrimmedParts(s: string) returns (lead: string, trail: string)
    ensures AllWhiteSpace(lead) && AllWhiteSpace(trail)
    ensures s == lead + Trim(s) + trail
  {
    if s != [] && IsWhiteSpace(s[0]) {
      var l, t := TrimmedParts(s[1..]);
      lead, trail := [s[0]] + l, t;
      assert s == [s[0]] + s[1..];
    } else if s != [] && IsWhiteSpace(s[|s| - 1]) {
      var l, t := TrimmedParts(s[..|s| - 1]);
      lead, trail := l, t + [s[|s| - 1]];
      assert s == s[..|s| - 1] + [s[|s| - 1]];
    } else {
      lead, trail := [], [];
    }
  }

  /** A string that is already trimmed is left as it is. */
  lemma TrimTrimmed(s: string)
    requires IsTrimmed(s)
    ensures Trim(s) == s
  {
  }

  /** Trimming twice is trimming once. */
  lemma TrimIdempotent(s: string)
    ensures Trim(Trim(s)) == Trim(s)
  {
    TrimTrimmed(Trim(s));
  }

  /**
   * `pieces.join(sep)`: the pieces in order with one `sep` between neighbours.
   */
  function Join(pieces: seq<string>, sep: char): string {
    if pieces == [] then []
    else if |pieces| == 1 then pieces[0]
    else pieces[0] + [sep] + Join(pieces[1..], sep)
  }

  /**
   * `s.split(sep)` for a one-character separator: the maximal runs of `s` that do
   * not contain `sep`, including empty runs; there is always at least one piece
   * (an empty `s` splits into one empty piece).
   */
  function Split(s: string, sep: char): (pieces: seq<string>)
    ensures |pieces| >= 1
    ensures forall i :: 0 <= i < |pieces| ==> sep !in pieces[i]
  {
    if s == [] then [[]]
    else
      var tail := Split(s[1..], sep);
      if s[0] == sep then [[]] + tail
      else [[s[0]] + tail[0]] + tail[1..]
  }

  /** Joining the pieces with the separator gives back the string that was split. */
  lemma {:induction false} JoinSplit(s: string, sep: char)
    ensures Join(Split(s, sep), sep) == s
  {
    if s != [] {
      var tail := Split(s[1..], sep);
      JoinSplit(s[1..], sep);
      if s[0] == sep {
        assert Split(s, sep) == [[]] + tail;
        assert ([[]] + tail)[1..] == tail;
      } else {
        var pieces := Split(s, sep);
        assert pieces == [[s[0]] + tail[0]] + tail[1..];
        if |tail| > 1 {
          assert pieces[1..] == tail[1..];
          assert Join(tail, sep) == tail[0] + [sep] + Join(tail[1..], sep);
        }
      }
    }
  }

  /** A string without the separator is one piece. */
  lemma {:induction false} SplitWithoutSeparator(s: string, sep: char)
    requires sep !in s
    ensures Split(s, sep) == [s]
  {
    if s != [] {
      assert sep !in s[1..];
      SplitWithoutSeparator(s[1..], sep);
      assert [s[0]] + s[1..] == s;
    }
  }

  /** The text before the first separator is the first piece; the rest splits on its own. */
  lemma {:induction false} SplitAtFirstSeparator(a: string, sep: char, rest: string)
    requires sep !in a
    ensures Split(a + [sep] + rest, sep) == [a] + Split(rest, sep)
  {
    var s := a + [sep] + rest;
    if a == [] {
      assert s[1..] == rest;
    } else {
      assert s[1..] == a[1..] + [sep] + rest;
      assert sep !in a[1..];
      SplitAtFirstSeparator(a[1..], sep, rest);
      assert [a[0]] + a[1..] == a;
    }
  }

  /** Splitting undoes joining, for pieces that do not contain the separator. */
  lemma {:induction false} SplitJoin(pieces: seq<string>, sep: char)
    requires |pieces| >= 1
    requires forall i :: 0 <= i < |pieces| ==> sep !in pieces[i]
    ensures Split(Join(pieces, sep), sep) == pieces
  {
    if |pieces| == 1 {
      SplitWithoutSeparator(pieces[0], sep);
    } else {
      SplitJoin(pieces[1..], sep);
      SplitAtFirstSeparator(pieces[0], sep, Join(pieces[1..], sep));
    }
  }

  /** A string splits into more than one piece exactly when it contains the separator. */
  lemma SplitMany(s: string, sep: char)
    ensures |Split(s, sep)| > 1 <==> sep in s
  {
    if sep in s {
      JoinSplit(s, sep);
    } else {
      SplitWithoutSeparator(s, sep);
    }
  }

  /**
   * `xs.indexOf(x)`: the position of the first element equal to `x`, or -1 when
   * there is none.
   */
  function IndexOf<T(==)>(xs: seq<T>, x: T): (i: int)
    ensures -1 <= i < |xs|
    ensures i == -1 <==> x !in xs
    ensures 0 <= i ==> xs[i] == x && x !in xs[..i]
  {
    if xs == [] then -1
    else if xs[0] == x then 0
    else
      var j := IndexOf(xs[1..], x);
      assert xs == [xs[0]] + xs[1..];
      if j < 0 then -1
      else
        assert xs[..j + 1] == [xs[0]] + xs[1..][..j];
        j + 1
  }
}
