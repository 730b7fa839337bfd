/** Bytes of a query, the decimal numerals written after `$`, and the
    bookkeeping of placeholder markers shared by the scanner, the argument
    buffer and the rewriter. */
module Text {

  /** One byte of a Go string. */
  newtype byte = b: int | 0 <= b < 256

  /** The scanner's end-of-input sentinel: a NUL byte reads as the end. */
  const SEOF: byte := 0
  const DOLLAR: byte := 36    // '$'
  const QUESTION: byte := 63  // '?'
  const COMMA: byte := 44     // ','
  const SPACE: byte := 32     // ' '
  const ZERO: byte := 48      // '0'
  const NINE: byte := 57      // '9'

  /** ", ", written between the markers of one expanded slice. */
  const SEPARATOR: seq<byte> := [COMMA, SPACE]

  /** unicode.IsDigit of a byte widened to a rune: every byte is at most
      MaxLatin1, where only '0'..'9' are digits. */
  predicate IsDigit(ch: byte) {
    ZERO <= ch <= NINE
  }

  /** A byte that reads as a placeholder marker in the rewritten query. */
  predicate IsMarker(ch: byte) {
    ch == DOLLAR || ch == QUESTION
  }

  /** The decimal numeral of n, as `%d` writes it: digits only, and a
      leading '0' only for zero itself. */
  function Decimal(n: nat): (d: seq<byte>)
    ensures |d| > 0
    ensures forall k :: 0 <= k < |d| ==> IsDigit(d[k])
    ensures d[0] == ZERO <==> n == 0
  {
    if n < 10 then [ZERO + n as byte] else Decimal(n / 10) + [ZERO + (n % 10) as byte]
  }

  /** The number a run of decimal digits denotes. */
  function ValueOf(d: seq<byte>): nat
    requires forall k :: 0 <= k < |d| ==> IsDigit(d[k])
  {
    if d == [] then 0
    else
      assert IsDigit(d[|d| - 1]);
      ValueOf(d[..|d| - 1]) * 10 + (d[|d| - 1] - ZERO) as int
  }

  /** Reading back a numeral gives the number it was written for. */
  lemma {:induction false} DecimalRoundTrip(n: nat)
    ensures ValueOf(Decimal(n)) == n
  {
    if n >= 10 {
      var d := Decimal(n / 10);
      DecimalRoundTrip(n / 10);
      assert (d + [ZERO + (n % 10) as byte])[..|d|] == d;
    }
  }

  /** Distinct numbers are written as distinct numerals. */
  lemma DecimalInjective(m: nat, n: nat)
    requires Decimal(m) == Decimal(n)
    ensures m == n
  {
    DecimalRoundTrip(m);
    DecimalRoundTrip(n);
  }

  /** The number of marker bytes ('$' or '?') in s. */
  function Count(s: seq<byte>): nat {
    if s == [] then 0 else (if IsMarker(s[0]) then 1 else 0) + Count(s[1..])
  }

  lemma {:induction false} CountAppend(s: seq<byte>, t: seq<byte>)
    ensures Count(s + t) == Count(s) + Count(t)
    decreases |s|
  {
    if s == [] {
      assert s + t == t;
    } else {
      CountAppend(s[1..], t);
      assert (s + t)[1..] == s[1..] + t;
    }
  }

  /** A text has no marker byte exactly when its count is zero. */
  lemma {:induction false} CountZero(s: seq<byte>)
    ensures Count(s) == 0 <==> forall k :: 0 <= k < |s| ==> !IsMarker(s[k])
    decreases |s|
  {
    if s != [] {
      CountZero(s[1..]);
      assert forall k :: 1 <= k < |s| ==> s[1..][k - 1] == s[k];
    }
  }

  /** Every '$' in s is followed by the numeral of its ordinal among all the
      marker bytes of s, counted on from base. With base 0 this says that the
      markers of a text carry the numbers 1, 2, 3, ... in order, without gaps
      or repeats, each unnumbered '?' marker taking its turn too. */
  predicate NumberedFrom(s: seq<byte>, base: nat)
  {
    if s == [] then true
    else if s[0] == DOLLAR then Decimal(base + 1) <= s[1..] && NumberedFrom(s[1..], base + 1)
    else if s[0] == QUESTION then NumberedFrom(s[1..], base + 1)
    else NumberedFrom(s[1..], base)
  }

  /** Numbering is kept across a concatenation when the second part carries
      on from the markers of the first. */
  lemma {:induction false} NumberedAppend(s: seq<byte>, t: seq<byte>, base: nat)
    requires NumberedFrom(s, base)
    requires NumberedFrom(t, base + Count(s))
    ensures NumberedFrom(s + t, base)
    decreases |s|
  {
    if s == [] {
      assert s + t == t;
    } else {
      var next := if IsMarker(s[0]) then base + 1 else base;
      NumberedAppend(s[1..], t, next);
      assert (s + t)[1..] == s[1..] + t;
      if s[0] == DOLLAR {
        var d := Decimal(base + 1);
        assert (s[1..] + t)[..|d|] == s[1..][..|d|];
      }
    }
  }

  /** A text without '$' or '?' is numbered from any base. */
  lemma {:induction false} NumberedPlain(s: seq<byte>, base: nat)
    requires forall k :: 0 <= k < |s| ==> !IsMarker(s[k])
    ensures NumberedFrom(s, base) && Count(s) == 0
    decreases |s|
  {
    if s != [] {
      assert forall k :: 1 <= k < |s| ==> s[1..][k - 1] == s[k];
      NumberedPlain(s[1..], base);
    }
  }

  /** The numbering read back exactly: every '$' in s is followed by the
      numeral of its ordinal among the marker bytes of s, counted on from
      base, and that numeral ends there (the text ends, or a non-digit
      follows). */
  predicate ExactlyNumberedFrom(s: seq<byte>, base: nat)
  {
    if s == [] then true
    else if s[0] == DOLLAR then
      var d := Decimal(base + 1);
      d <= s[1..] && (|s| == 1 + |d| || !IsDigit(s[1 + |d|])) && ExactlyNumberedFrom(s[1..], base + 1)
    else if s[0] == QUESTION then ExactlyNumberedFrom(s[1..], base + 1)
    else ExactlyNumberedFrom(s[1..], base)
  }

  /** Exact numbering is kept across a concatenation when the second part
      carries on from the markers of the first and does not start with a
      digit that could extend a numeral of the first. */
  lemma {:induction false} ExactlyNumberedAppend(s: seq<byte>, t: seq<byte>, base: nat)
    requires ExactlyNumberedFrom(s, base)
    requires ExactlyNumberedFrom(t, base + Count(s))
    requires s == [] || t == [] || !IsDigit(t[0])
    ensures ExactlyNumberedFrom(s + t, base)
    decreases |s|
  {
    if s == [] {
      assert s + t == t;
    } else {
      var next := if IsMarker(s[0]) then base + 1 else base;
      ExactlyNumberedAppend(s[1..], t, next);
      assert (s + t)[1..] == s[1..] + t;
      if s[0] == DOLLAR {
        var d := Decimal(base + 1);
        assert (s[1..] + t)[..|d|] == s[1..][..|d|];
        if |s| == 1 + |d| {
          assert t == [] || (s + t)[1 + |d|] == t[0];
        } else {
          assert (s + t)[1 + |d|] == s[1 + |d|];
        }
      }
    }
  }

  /** A text without '$' or '?' is exactly numbered from any base. */
  lemma {:induction false} ExactlyNumberedPlain(s: seq<byte>, base: nat)
    requires forall k :: 0 <= k < |s| ==> !IsMarker(s[k])
    ensures ExactlyNumberedFrom(s, base)
    decreases |s|
  {
    if s != [] {
      assert forall k :: 1 <= k < |s| ==> s[1..][k - 1] == s[k];
      ExactlyNumberedPlain(s[1..], base);
    }
  }
}
