/** Character and string primitives shared by the runtimes: ASCII digits,
    decimal rendering of counters, splitting and joining on a separator. */
module Strings {

  predicate IsDigit(c: char)
  {
    '0' <= c <= '9'
  }

  predicate AllDigits(s: string)
  {
    forall i :: 0 <= i < |s| ==> IsDigit(s[i])
  }

  function DigitChar(d: nat): (c: char)
    requires d < 10
    ensures IsDigit(c)
  {
    (48 + d) as char
  }

  function DigitValue(c: char): (d: nat)
    requires IsDigit(c)
    ensures d < 10
  {
    c as int - 48
  }

  /** Decimal rendering of a non-negative integer, as string interpolation
      of an `Int` (Swift, Kotlin) or a `number` (TypeScript) writes it. */
  function Decimal(n: nat): (s: string)
    ensures |s| > 0 && AllDigits(s)
    ensures s[0] == '0' ==> n == 0
    decreases n
  {
    if n < 10 then [DigitChar(n)] else Decimal(n / 10) + [DigitChar(n % 10)]
  }

  /** The value of a run of decimal digits, most significant first. */
  function DecimalValue(s: string): nat
    requires AllDigits(s)
    decreases |s|
  {
    if s == [] then 0 else DecimalValue(s[..|s| - 1]) * 10 + DigitValue(s[|s| - 1])
  }

  lemma {:induction false} DecimalRoundTrip(n: nat)
    ensures DecimalValue(Decimal(n)) == n
    decreases n
  {
    if n >= 10 {
      var s := Decimal(n);
      assert s[..|s| - 1] == Decimal(n / 10);
      DecimalRoundTrip(n / 10);
    }
  }

  /** Different counters render as different strings. */
  lemma DecimalInjective(m: nat, n: nat)
    requires Decimal(m) == Decimal(n)
    ensures m == n
  {
    DecimalRoundTrip(m);
    DecimalRoundTrip(n);
  }

  predicate StartsWith(s: string, prefix: string)
  {
    |prefix| <= |s| && s[..|prefix|] == prefix
  }

  /** `s` contains `sub` at some position. */
  predicate Contains(s: string, sub: string)
    decreases |s|
  {
    StartsWith(s, sub) || (|s| > 0 && Contains(s[1..], sub))
  }

  predicate Excludes(s: string, c: char)
  {
    forall i :: 0 <= i < |s| ==> s[i] != c
  }

  /** The pieces of `s` between occurrences of `sep`, empty pieces kept:
      Foundation's `components(separatedBy:)` and Kotlin/JavaScript
      `split` for a one-character separator. */
  function SplitOn(s: string, sep: char): (r: seq<string>)
    ensures |r| >= 1
    ensures forall i :: 0 <= i < |r| ==> Excludes(r[i], sep)
    decreases |s|
  {
    if s == [] then [""]
    else
      var rest := SplitOn(s[1..], sep);
      if s[0] == sep then [""] + rest
      else [[s[0]] + rest[0]] + rest[1..]
  }

  /** The pieces joined back with `sep` between them (`joined(separator:)`). */
  function Join(pieces: seq<string>, sep: char): string
    decreases |pieces|
  {
    if |pieces| == 0 then ""
    else if |pieces| == 1 then pieces[0]
    else pieces[0] + [sep] + Join(pieces[1..], sep)
  }

  lemma {:induction false} JoinSplit(s: string, sep: char)
    ensures Join(SplitOn(s, sep), sep) == s
    decreases |s|
  {
    if s != [] {
      JoinSplit(s[1..], sep);
      var rest := SplitOn(s[1..], sep);
      if s[0] != sep {
        if |rest| > 1 {
          assert Join(rest, sep) == rest[0] + [sep] + Join(rest[1..], sep);
        }
      }
    }
  }

  lemma {:induction false} SplitJoin(pieces: seq<string>, sep: char)
    requires |pieces| >= 1
    requires forall i :: 0 <= i < |pieces| ==> Excludes(pieces[i], sep)
    ensures SplitOn(Join(pieces, sep), sep) == pieces
    decreases |pieces|
  {
    if |pieces| == 1 {
      SplitPiece(pieces[0], [], sep);
      assert pieces[0] + [] == pieces[0] && pieces[0] + "" == pieces[0];
      assert SplitOn([], sep) == [""];
    } else {
      SplitJoin(pieces[1..], sep);
      var tail := [sep] + Join(pieces[1..], sep);
      SplitPiece(pieces[0], tail, sep);
      assert pieces[0] + [sep] + Join(pieces[1..], sep) == pieces[0] + tail;
      assert tail[0] == sep && tail[1..] == Join(pieces[1..], sep);
      assert SplitOn(tail, sep) == [""] + pieces[1..];
      assert Join(pieces, sep) == pieces[0] + tail;
      assert SplitOn(Join(pieces, sep), sep) == [pieces[0] + ""] + pieces[1..];
      assert pieces[0] + "" == pieces[0];
      assert [pieces[0]] + pieces[1..] == pieces;
    }
  }

  /** Splitting a separator-free piece followed by `tail` glues the piece
      onto the first component of `tail`. */
  lemma {:induction false} SplitPiece(piece: string, tail: string, sep: char)
    requires Excludes(piece, sep)
    ensures SplitOn(piece + tail, sep) ==
            [piece + SplitOn(tail, sep)[0]] + SplitOn(tail, sep)[1..]
    decreases |piece|
  {
    if piece != [] {
      assert (piece + tail)[1..] == piece[1..] + tail;
      SplitPiece(piece[1..], tail, sep);
      assert [piece[0]] + (piece[1..] + SplitOn(tail, sep)[0]) == piece + SplitOn(tail, sep)[0];
    } else {
      var r := SplitOn(tail, sep);
      assert piece + tail == tail;
      assert piece + r[0] == r[0];
      assert [r[0]] + r[1..] == r;
    }
  }

  /** The non-empty components only: Swift's `split(separator:)`, which
      omits empty subsequences. */
  function NonEmpty(pieces: seq<string>): (r: seq<string>)
    ensures forall i :: 0 <= i < |r| ==> r[i] != ""
    ensures forall x :: x in r <==> x in pieces && x != ""
    ensures |r| <= |pieces|
  {
    if pieces == [] then []
    else if pieces[0] == "" then NonEmpty(pieces[1..])
    else [pieces[0]] + NonEmpty(pieces[1..])
  }

  /** Dropping empty pieces keeps the order: the pieces of a concatenation
      are those of its parts, one after the other. */
  lemma {:induction false} NonEmptyAppend(a: seq<string>, b: seq<string>)
    ensures NonEmpty(a + b) == NonEmpty(a) + NonEmpty(b)
  {
    if a != [] {
      assert (a + b)[1..] == a[1..] + b;
      NonEmptyAppend(a[1..], b);
    } else {
      assert a + b == b;
    }
  }

  function SplitOmittingEmpty(s: string, sep: char): seq<string>
  {
    NonEmpty(SplitOn(s, sep))
  }

  /** Foundation's `CharacterSet.whitespaces`: tab and the Unicode space
      separators (category Zs); line breaks are not included. */
  predicate IsWhitespace(c: char)
  {
    c == '\t' || c == ' ' || c == '\U{00A0}' || c == '\U{1680}' || ('\U{2000}' <= c <= '\U{200A}') ||
    c == '\U{202F}' || c == '\U{205F}' || c == '\U{3000}'
  }

  /** Leading whitespace removed. */
  function TrimLeading(s: string): (r: string)
    ensures |r| <= |s|
  {
    if s != [] && IsWhitespace(s[0]) then TrimLeading(s[1..]) else s
  }

  /** `TrimLeading` keeps a suffix: every character it drops is
      whitespace, and what is left does not start with whitespace. */
  lemma {:induction false} TrimLeadingDropsWhitespace(s: string)
    ensures TrimLeading(s) == s[|s| - |TrimLeading(s)|..]
    ensures forall i :: 0 <= i < |s| - |TrimLeading(s)| ==> IsWhitespace(s[i])
    ensures TrimLeading(s) == [] || !IsWhitespace(TrimLeading(s)[0])
    decreases |s|
  {
    if s != [] && IsWhitespace(s[0]) {
      TrimLeadingDropsWhitespace(s[1..]);
      assert forall i :: 1 <= i < |s| ==> s[1..][i - 1] == s[i];
    }
  }

  /** Trailing whitespace removed. */
  function TrimTrailing(s: string): (r: string)
    ensures |r| <= |s|
  {
    if s != [] && IsWhitespace(s[|s| - 1]) then TrimTrailing(s[..|s| - 1]) else s
  }

  /** `TrimTrailing` keeps a prefix: every character it drops is
      whitespace, and what is left does not end with whitespace. */
  lemma {:induction false} TrimTrailingDropsWhitespace(s: string)
    ensures TrimTrailing(s) == s[..|TrimTrailing(s)|]
    ensures forall i :: |TrimTrailing(s)| <= i < |s| ==> IsWhitespace(s[i])
    ensures TrimTrailing(s) == [] || !IsWhitespace(TrimTrailing(s)[|TrimTrailing(s)| - 1])
    decreases |s|
  {
    if s != [] && IsWhitespace(s[|s| - 1]) {
      TrimTrailingDropsWhitespace(s[..|s| - 1]);
    }
  }

  /** `trimmingCharacters(in: .whitespaces)`. */
  function Trim(s: string): string
  {
    TrimTrailing(TrimLeading(s))
  }
}
