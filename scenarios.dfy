/** The rewriter's documented examples, proved on the model for any literal
    text around the placeholders (the examples use "SELECT id FROM table
    WHERE id IN (" before the first placeholder). */
module Scenarios {
  import opened Text
  import opened Scanner
  import opened Buffer
  import opened Rewriter

  /** A run the scanner copies as one literal token. */
  predicate IsLiteral(s: seq<byte>) {
    WellShaped(Lexeme(Query, s))
  }

  const ONE: byte := 49    // '1'
  const TWO: byte := 50    // '2'
  const THREE: byte := 51  // '3'
  const FOUR: byte := 52   // '4'
  const FIVE: byte := 53   // '5'

  /** A scan at p over a literal run [p, e) that cannot go on returns it. */
  lemma LiteralToken(q: seq<byte>, p: nat, e: nat)
    requires p < e <= Limit(q)
    requires forall k :: p <= k < e ==> IsQuery(q[k])
    requires !IsQuery(At(q, e))
    ensures NextToken(q, p) == Step(Query, e)
  {
    assert IsQuery(q[p]);
    QueryEndAt(q, p + 1, e);
  }

  /** A scan at p over '?', or over '$' and one digit not followed by
      another, returns that placeholder. */
  lemma PlaceholderToken(q: seq<byte>, p: nat, e: nat)
    requires p < e <= Limit(q)
    requires (q[p] == QUESTION && e == p + 1) || (q[p] == DOLLAR && e == p + 2 && IsDigit(q[p + 1]) && !IsDigit(At(q, e)))
    ensures NextToken(q, p) == Step(Placeholder, e)
  {
    if q[p] == DOLLAR {
      assert DigitsEnd(q, e) == e;
    }
  }

  /** A scan that returns a token is followed by the scans after it. */
  lemma LexStep(q: seq<byte>, p: nat, kind: Token, e: nat, rest: seq<Lexeme>)
    requires p <= Limit(q) && NextToken(q, p) == Step(kind, e) && kind != EOF
    requires e <= Limit(q) && Lex(q, e) == rest
    ensures Lex(q, p) == [Lexeme(kind, q[p..e])] + rest
  {
  }

  /** A scan that returns the rest of the query as one token is the last. */
  lemma LastStep(q: seq<byte>, p: nat, kind: Token)
    requires p < |q| && Limit(q) == |q|
    requires NextToken(q, p) == Step(kind, |q|) && kind != EOF
    ensures Lex(q, p) == [Lexeme(kind, q[p..])]
  {
    assert Lex(q, |q|) == [];
    LexStep(q, p, kind, |q|, []);
    assert q[p..|q|] == q[p..];
  }

  /** The tokens of a query made of a literal run, a placeholder ('?' or
      '$1') and a literal run, given as the two cut points n and m. */
  lemma ThreeTokens(q: seq<byte>, n: nat, m: nat)
    requires 0 < n < m < |q| && Limit(q) == |q|
    requires forall k :: 0 <= k < n ==> IsQuery(q[k])
    requires forall k :: m <= k < |q| ==> IsQuery(q[k])
    requires (q[n] == QUESTION && m == n + 1) || (q[n] == DOLLAR && m == n + 2 && q[n + 1] == ONE && !IsDigit(q[m]))
    ensures Tokens(q) == [Lexeme(Query, q[..n]), Lexeme(Placeholder, q[n..m]), Lexeme(Query, q[m..])]
  {
    LiteralToken(q, 0, n);
    LiteralToken(q, m, |q|);
    PlaceholderToken(q, n, m);
    ThreeSteps(q, n, m);
  }

  lemma ThreeSteps(q: seq<byte>, n: nat, m: nat)
    requires 0 < n < m < |q| && Limit(q) == |q|
    requires NextToken(q, 0) == Step(Query, n)
    requires NextToken(q, n) == Step(Placeholder, m)
    requires NextToken(q, m) == Step(Query, |q|)
    ensures Lex(q, 0) == [Lexeme(Query, q[..n]), Lexeme(Placeholder, q[n..m]), Lexeme(Query, q[m..])]
  {
    var t0, t1, t2 := Lexeme(Query, q[..n]), Lexeme(Placeholder, q[n..m]), Lexeme(Query, q[m..]);
    LastStep(q, m, Query);
    LexStep(q, n, Placeholder, m, [t2]);
    assert [t1] + [t2] == [t1, t2];
    assert q[0..n] == q[..n];
    LexStep(q, 0, Query, n, [t1, t2]);
    assert [t0] + [t1, t2] == [t0, t1, t2];
  }

  /** The tokens of lit + ph + close, for a placeholder ph that ends where
      close begins. */
  lemma TokensAround(lit: seq<byte>, ph: seq<byte>, close: seq<byte>)
    requires IsLiteral(lit) && IsLiteral(close)
    requires ph == [QUESTION] || ph == [DOLLAR, ONE]
    requires ph[0] == DOLLAR ==> !IsDigit(close[0])
    ensures Tokens(lit + ph + close) == [Lexeme(Query, lit), Lexeme(Placeholder, ph), Lexeme(Query, close)]
  {
    var q := lit + ph + close;
    var n, m := |lit|, |lit| + |ph|;
    forall k | 0 <= k < |q| ensures q[k] != SEOF {
      if k < n { assert q[k] == lit[k]; }
      else if k < m { assert q[k] == ph[k - n]; }
      else { assert q[k] == close[k - m]; }
    }
    forall k | 0 <= k < n ensures IsQuery(q[k]) {
      assert q[k] == lit[k];
    }
    forall k | m <= k < |q| ensures IsQuery(q[k]) {
      assert q[k] == close[k - m];
    }
    assert q[..n] == lit && q[n..m] == ph && q[m..] == close;
    assert q[n] == ph[0] && q[m] == close[0];
    assert ph[0] == DOLLAR ==> q[n + 1] == ph[1];
    ThreeTokens(q, n, m);
  }

  /** A literal token is copied to the output. */
  lemma ExpandLiteral<V>(t: seq<byte>, rest: seq<Lexeme>, args: seq<Arg<V>>, out: seq<byte>, written: seq<V>)
    requires AllWellShaped([Lexeme(Query, t)] + rest)
    ensures AllWellShaped(rest)
    ensures ExpandFrom([Lexeme(Query, t)] + rest, args, out, written) == ExpandFrom(rest, args, out + t, written)
  {
    assert ([Lexeme(Query, t)] + rest)[1..] == rest;
  }

  /** A placeholder token with an argument left writes that argument's
      markers and takes its values. */
  lemma ExpandPlaceholder<V>(ph: seq<byte>, rest: seq<Lexeme>, a: Arg<V>, args: seq<Arg<V>>, out: seq<byte>, written: seq<V>)
    requires |ph| > 0 && AllWellShaped([Lexeme(Placeholder, ph)] + rest)
    ensures AllWellShaped(rest)
    ensures ExpandFrom([Lexeme(Placeholder, ph)] + rest, [a] + args, out, written)
         == ExpandFrom(rest, args, out + Markers(ph, |written|, |Elems(a)|), written + Elems(a))
  {
    assert ([Lexeme(Placeholder, ph)] + rest)[1..] == rest;
    assert ([a] + args)[1..] == args;
  }

  /** The markers "$1" writes for three values. */
  lemma NumberedMarkers()
    ensures Markers([DOLLAR, ONE], 0, 3) == [DOLLAR, ONE, COMMA, SPACE, DOLLAR, TWO, COMMA, SPACE, DOLLAR, THREE]
  {
    assert Decimal(1) == [ONE] && Decimal(2) == [TWO] && Decimal(3) == [THREE];
    assert Markers([DOLLAR, ONE], 0, 1) == [DOLLAR, ONE];
    assert Markers([DOLLAR, ONE], 0, 2) == [DOLLAR, ONE, COMMA, SPACE, DOLLAR, TWO];
  }

  /** The markers "?" writes for three values. */
  lemma UnnumberedMarkers()
    ensures Markers([QUESTION], 0, 3) == [QUESTION, COMMA, SPACE, QUESTION, COMMA, SPACE, QUESTION]
  {
    assert Markers([QUESTION], 0, 1) == [QUESTION];
    assert Markers([QUESTION], 0, 2) == [QUESTION, COMMA, SPACE, QUESTION];
  }

  /** The tokens lit, "$1", close with the slice [1, 2, 3]. */
  lemma ExpandSliceNumbered(lit: seq<byte>, close: seq<byte>)
    requires AllWellShaped([Lexeme(Query, lit), Lexeme(Placeholder, [DOLLAR, ONE]), Lexeme(Query, close)])
    ensures ExpandFrom([Lexeme(Query, lit), Lexeme(Placeholder, [DOLLAR, ONE]), Lexeme(Query, close)], [Slice([1, 2, 3])], [], [])
         == Rewritten(lit + [DOLLAR, ONE, COMMA, SPACE, DOLLAR, TWO, COMMA, SPACE, DOLLAR, THREE] + close, [1, 2, 3])
  {
    var ph := [DOLLAR, ONE];
    var marks := [DOLLAR, ONE, COMMA, SPACE, DOLLAR, TWO, COMMA, SPACE, DOLLAR, THREE];
    NumberedMarkers();
    var last := [Lexeme(Query, close)];
    var tail := [Lexeme(Placeholder, ph)] + last;
    assert [Lexeme(Query, lit), Lexeme(Placeholder, ph), Lexeme(Query, close)] == [Lexeme(Query, lit)] + tail;
    ExpandLiteral<int>(lit, tail, [Slice([1, 2, 3])], [], []);
    assert [] + lit == lit && [Slice([1, 2, 3])] == [Slice([1, 2, 3])] + [];
    ExpandPlaceholder(ph, last, Slice([1, 2, 3]), [], lit, []);
    assert last == last + [] && [] + [1, 2, 3] == [1, 2, 3];
    ExpandLiteral<int>(close, [], [], lit + marks, [1, 2, 3]);
  }

  /** The tokens lit, "?", close with the slice [1, 2, 3]. */
  lemma ExpandSliceUnnumbered(lit: seq<byte>, close: seq<byte>)
    requires AllWellShaped([Lexeme(Query, lit), Lexeme(Placeholder, [QUESTION]), Lexeme(Query, close)])
    ensures ExpandFrom([Lexeme(Query, lit), Lexeme(Placeholder, [QUESTION]), Lexeme(Query, close)], [Slice([1, 2, 3])], [], [])
         == Rewritten(lit + [QUESTION, COMMA, SPACE, QUESTION, COMMA, SPACE, QUESTION] + close, [1, 2, 3])
  {
    var ph := [QUESTION];
    var marks := [QUESTION, COMMA, SPACE, QUESTION, COMMA, SPACE, QUESTION];
    UnnumberedMarkers();
    var last := [Lexeme(Query, close)];
    var tail := [Lexeme(Placeholder, ph)] + last;
    assert [Lexeme(Query, lit), Lexeme(Placeholder, ph), Lexeme(Query, close)] == [Lexeme(Query, lit)] + tail;
    ExpandLiteral<int>(lit, tail, [Slice([1, 2, 3])], [], []);
    assert [] + lit == lit && [Slice([1, 2, 3])] == [Slice([1, 2, 3])] + [];
    ExpandPlaceholder(ph, last, Slice([1, 2, 3]), [], lit, []);
    assert last == last + [] && [] + [1, 2, 3] == [1, 2, 3];
    ExpandLiteral<int>(close, [], [], lit + marks, [1, 2, 3]);
  }

  /** `IN ($1)` with the slice [1, 2, 3] becomes `IN ($1, $2, $3)`. */
  lemma SliceNumbered(lit: seq<byte>, close: seq<byte>)
    requires IsLiteral(lit) && IsLiteral(close) && !IsDigit(close[0])
    ensures Expand(lit + [DOLLAR, ONE] + close, [Slice([1, 2, 3])])
         == Rewritten(lit + [DOLLAR, ONE, COMMA, SPACE, DOLLAR, TWO, COMMA, SPACE, DOLLAR, THREE] + close, [1, 2, 3])
  {
    TokensAround(lit, [DOLLAR, ONE], close);
    ExpandSliceNumbered(lit, close);
  }

  /** `IN (?)` with the slice [1, 2, 3] becomes `IN (?, ?, ?)`. */
  lemma SliceUnnumbered(lit: seq<byte>, close: seq<byte>)
    requires IsLiteral(lit) && IsLiteral(close)
    ensures Expand(lit + [QUESTION] + close, [Slice([1, 2, 3])])
         == Rewritten(lit + [QUESTION, COMMA, SPACE, QUESTION, COMMA, SPACE, QUESTION] + close, [1, 2, 3])
  {
    TokensAround(lit, [QUESTION], close);
    ExpandSliceUnnumbered(lit, close);
  }

  /** `IN ($1)` with no argument at all becomes `IN ()`. */
  lemma MissingArgument(lit: seq<byte>, close: seq<byte>)
    requires IsLiteral(lit) && IsLiteral(close) && !IsDigit(close[0])
    ensures Expand<int>(lit + [DOLLAR, ONE] + close, []) == Rewritten(lit + close, [])
  {
    var ph := [DOLLAR, ONE];
    var toks := [Lexeme(Query, lit), Lexeme(Placeholder, ph), Lexeme(Query, close)];
    TokensAround(lit, ph, close);
    ExpandNoArgs<int>(lit + ph + close);
    assert Literals(toks) == lit + close by {
      assert Literals(toks[2..]) == close + [];
      assert Literals(toks[1..]) == [] + Literals(toks[2..]);
    }
  }

  /** The last two scans of a query ending in a literal run and a
      placeholder. */
  lemma TwoSteps(q: seq<byte>, m: nat, r: nat)
    requires m < r < |q| && Limit(q) == |q|
    requires NextToken(q, m) == Step(Query, r)
    requires NextToken(q, r) == Step(Placeholder, |q|)
    ensures Lex(q, m) == [Lexeme(Query, q[m..r]), Lexeme(Placeholder, q[r..])]
  {
    var t2, t3 := Lexeme(Query, q[m..r]), Lexeme(Placeholder, q[r..]);
    LastStep(q, r, Placeholder);
    LexStep(q, m, Query, r, [t3]);
    assert [t2] + [t3] == [t2, t3];
  }

  lemma FourSteps(q: seq<byte>, n: nat, m: nat, r: nat)
    requires 0 < n < m < r < |q| && Limit(q) == |q|
    requires NextToken(q, 0) == Step(Query, n)
    requires NextToken(q, n) == Step(Placeholder, m)
    requires NextToken(q, m) == Step(Query, r)
    requires NextToken(q, r) == Step(Placeholder, |q|)
    ensures Lex(q, 0) == [Lexeme(Query, q[..n]), Lexeme(Placeholder, q[n..m]),
                          Lexeme(Query, q[m..r]), Lexeme(Placeholder, q[r..])]
  {
    var t0, t1, t2, t3 := Lexeme(Query, q[..n]), Lexeme(Placeholder, q[n..m]), Lexeme(Query, q[m..r]), Lexeme(Placeholder, q[r..]);
    TwoSteps(q, m, r);
    LexStep(q, n, Placeholder, m, [t2, t3]);
    assert [t1] + [t2, t3] == [t1, t2, t3];
    assert q[0..n] == q[..n];
    LexStep(q, 0, Query, n, [t1, t2, t3]);
    assert [t0] + [t1, t2, t3] == [t0, t1, t2, t3];
  }

  /** The tokens of a query made of a literal run, "$1", a literal run and
      "$2", given as the three cut points n, m and r. */
  lemma FourTokens(q: seq<byte>, n: nat, m: nat, r: nat)
    requires 0 < n && m == n + 2 && m < r && |q| == r + 2 && Limit(q) == |q|
    requires forall k :: 0 <= k < n ==> IsQuery(q[k])
    requires forall k :: m <= k < r ==> IsQuery(q[k])
    requires q[n] == DOLLAR && q[n + 1] == ONE && !IsDigit(q[m])
    requires q[r] == DOLLAR && q[r + 1] == TWO
    ensures Tokens(q) == [Lexeme(Query, q[..n]), Lexeme(Placeholder, q[n..m]),
                          Lexeme(Query, q[m..r]), Lexeme(Placeholder, q[r..])]
  {
    LiteralToken(q, 0, n);
    PlaceholderToken(q, n, m);
    LiteralToken(q, m, r);
    PlaceholderToken(q, r, |q|);
    FourSteps(q, n, m, r);
  }

  /** The tokens of lit + "$1" + mid + "$2". */
  lemma TokensTwice(lit: seq<byte>, mid: seq<byte>)
    requires IsLiteral(lit) && IsLiteral(mid) && !IsDigit(mid[0])
    ensures Tokens(lit + [DOLLAR, ONE] + mid + [DOLLAR, TWO])
         == [Lexeme(Query, lit), Lexeme(Placeholder, [DOLLAR, ONE]), Lexeme(Query, mid), Lexeme(Placeholder, [DOLLAR, TWO])]
  {
    var q := lit + [DOLLAR, ONE] + mid + [DOLLAR, TWO];
    var n, m := |lit|, |lit| + 2;
    var r := m + |mid|;
    forall k | 0 <= k < |q| ensures q[k] != SEOF {
      if k < n { assert q[k] == lit[k]; }
      else if m <= k < r { assert q[k] == mid[k - m]; }
    }
    forall k | 0 <= k < n ensures IsQuery(q[k]) {
      assert q[k] == lit[k];
    }
    forall k | m <= k < r ensures IsQuery(q[k]) {
      assert q[k] == mid[k - m];
    }
    assert Limit(q) == |q|;
    assert q[n] == DOLLAR && q[n + 1] == ONE && q[m] == mid[0] && q[r] == DOLLAR && q[r + 1] == TWO;
    FourTokens(q, n, m, r);
    assert q[..n] == lit && q[n..m] == [DOLLAR, ONE] && q[m..r] == mid && q[r..] == [DOLLAR, TWO];
  }

  /** The markers "$2" writes for one value after three others. */
  lemma FourthMarker()
    ensures Markers([DOLLAR, TWO], 3, 1) == [DOLLAR, FOUR]
  {
    assert Decimal(4) == [FOUR];
  }

  /** The tokens mid, "$2" with the argument 4 left, after three values. */
  lemma ExpandLastTwo(mid: seq<byte>, out: seq<byte>)
    requires AllWellShaped([Lexeme(Query, mid), Lexeme(Placeholder, [DOLLAR, TWO])])
    ensures ExpandFrom([Lexeme(Query, mid), Lexeme(Placeholder, [DOLLAR, TWO])], [Scalar(4)], out, [1, 2, 3])
         == Rewritten(out + mid + [DOLLAR, FOUR], [1, 2, 3, 4])
  {
    var t3 := [Lexeme(Placeholder, [DOLLAR, TWO])];
    assert [Lexeme(Query, mid), Lexeme(Placeholder, [DOLLAR, TWO])] == [Lexeme(Query, mid)] + t3;
    ExpandLiteral(mid, t3, [Scalar(4)], out, [1, 2, 3]);
    assert t3 == t3 + [] && [Scalar(4)] == [Scalar(4)] + [];
    FourthMarker();
    assert |[1, 2, 3]| == 3 && Elems(Scalar(4)) == [4];
    ExpandPlaceholder([DOLLAR, TWO], [], Scalar(4), [], out + mid, [1, 2, 3]);
    assert [1, 2, 3] + [4] == [1, 2, 3, 4];
    assert ExpandFrom<int>([], [], out + mid + [DOLLAR, FOUR], [1, 2, 3, 4]) == Rewritten(out + mid + [DOLLAR, FOUR], [1, 2, 3, 4]);
  }

  /** The tokens lit, "$1", mid, "$2" with the arguments [1, 2, 3] and 4. */
  lemma ExpandTwice(lit: seq<byte>, mid: seq<byte>)
    requires AllWellShaped([Lexeme(Query, lit), Lexeme(Placeholder, [DOLLAR, ONE]), Lexeme(Query, mid), Lexeme(Placeholder, [DOLLAR, TWO])])
    ensures ExpandFrom([Lexeme(Query, lit), Lexeme(Placeholder, [DOLLAR, ONE]), Lexeme(Query, mid), Lexeme(Placeholder, [DOLLAR, TWO])],
                       [Slice([1, 2, 3]), Scalar(4)], [], [])
         == Rewritten(lit + [DOLLAR, ONE, COMMA, SPACE, DOLLAR, TWO, COMMA, SPACE, DOLLAR, THREE] + mid + [DOLLAR, FOUR],
                      [1, 2, 3, 4])
  {
    var ph1 := [DOLLAR, ONE];
    var marks := [DOLLAR, ONE, COMMA, SPACE, DOLLAR, TWO, COMMA, SPACE, DOLLAR, THREE];
    NumberedMarkers();
    var t2 := [Lexeme(Query, mid), Lexeme(Placeholder, [DOLLAR, TWO])];
    var t1 := [Lexeme(Placeholder, ph1)] + t2;
    assert [Lexeme(Query, lit), Lexeme(Placeholder, ph1), Lexeme(Query, mid), Lexeme(Placeholder, [DOLLAR, TWO])] == [Lexeme(Query, lit)] + t1;
    ExpandLiteral<int>(lit, t1, [Slice([1, 2, 3]), Scalar(4)], [], []);
    assert [] + lit == lit && [Slice([1, 2, 3]), Scalar(4)] == [Slice([1, 2, 3])] + [Scalar(4)];
    ExpandPlaceholder(ph1, t2, Slice([1, 2, 3]), [Scalar(4)], lit, []);
    assert [] + [1, 2, 3] == [1, 2, 3];
    ExpandLastTwo(mid, lit + marks);
  }

  /** `IN ($1) AND id = $2` with [[1, 2, 3], 4] becomes
      `IN ($1, $2, $3) AND id = $4`: numbering runs on across placeholders
      and the original digits are ignored. */
  lemma RunningNumbers(lit: seq<byte>, mid: seq<byte>)
    requires IsLiteral(lit) && IsLiteral(mid) && !IsDigit(mid[0])
    ensures Expand(lit + [DOLLAR, ONE] + mid + [DOLLAR, TWO], [Slice([1, 2, 3]), Scalar(4)])
         == Rewritten(lit + [DOLLAR, ONE, COMMA, SPACE, DOLLAR, TWO, COMMA, SPACE, DOLLAR, THREE] + mid + [DOLLAR, FOUR],
                      [1, 2, 3, 4])
  {
    TokensTwice(lit, mid);
    ExpandTwice(lit, mid);
  }

  /** The tokens of `$1?5`: a numbered placeholder, a '?' and a literal. */
  lemma JoinTokens()
    ensures Tokens([DOLLAR, ONE, QUESTION, FIVE]) ==
      [Lexeme(Placeholder, [DOLLAR, ONE]), Lexeme(Placeholder, [QUESTION]), Lexeme(Query, [FIVE])]
  {
    var q: seq<byte> := [DOLLAR, ONE, QUESTION, FIVE];
    var toks := [Lexeme(Placeholder, [DOLLAR, ONE]), Lexeme(Placeholder, [QUESTION]), Lexeme(Query, [FIVE])];
    assert Limit(q) == 4;
    assert DigitsEnd(q, 1) == 2;
    assert QueryEnd(q, 4) == 4;
    assert NextToken(q, 3) == Step(Query, 4) && q[3..4] == [FIVE];
    assert NextToken(q, 2) == Step(Placeholder, 3) && q[2..3] == [QUESTION];
    assert NextToken(q, 0) == Step(Placeholder, 2) && q[0..2] == [DOLLAR, ONE];
    assert Lex(q, 4) == [];
    assert Lex(q, 3) == toks[2..];
    assert Lex(q, 2) == toks[1..];
  }

  /** `$15` carries the numeral 1 after its '$', followed by a further digit. */
  lemma JoinedNumeral()
    ensures NumberedFrom([DOLLAR, ONE, FIVE], 0)
    ensures !ExactlyNumberedFrom([DOLLAR, ONE, FIVE], 0)
  {
    var out: seq<byte> := [DOLLAR, ONE, FIVE];
    assert Decimal(1) == [ONE];
    assert out[1..] == [ONE, FIVE] && out[1..][1..] == [FIVE] && out[1..][1..][1..] == [];
    assert NumberedFrom(out[1..][1..], 1);
    assert NumberedFrom(out[1..], 1);
    assert IsDigit(out[2]);
  }

  /** A dropped '?' lets the literal after it join the numeral before it:
      `$1?5` with one argument becomes `$15`. The '$' is still followed by
      the numeral 1, but its longest digit run no longer reads back as 1. */
  lemma DroppedPlaceholderJoins()
    ensures Expand<int>([DOLLAR, ONE, QUESTION, FIVE], [Scalar(7)]) == Rewritten([DOLLAR, ONE, FIVE], [7])
    ensures NumberedFrom(Expand<int>([DOLLAR, ONE, QUESTION, FIVE], [Scalar(7)]).query, 0)
    ensures !ExactlyNumberedFrom(Expand<int>([DOLLAR, ONE, QUESTION, FIVE], [Scalar(7)]).query, 0)
  {
    var rest := [Lexeme(Placeholder, [QUESTION]), Lexeme(Query, [FIVE])];
    JoinTokens();
    JoinedNumeral();
    assert Tokens([DOLLAR, ONE, QUESTION, FIVE]) == [Lexeme(Placeholder, [DOLLAR, ONE])] + rest;
    assert [Scalar(7)] == [Scalar(7)] + [];
    ExpandPlaceholder([DOLLAR, ONE], rest, Scalar(7), [], [], []);
    assert Markers([DOLLAR, ONE], 0, 1) == [DOLLAR, ONE] by {
      assert Decimal(1) == [ONE];
    }
    assert Elems(Scalar(7)) == [7] && [] + [DOLLAR, ONE] == [DOLLAR, ONE] && [] + [7] == [7];
    ExpandFromNoArgs(rest, [DOLLAR, ONE], [7]);
    assert Literals(rest) == [FIVE] by {
      assert rest[1..][1..] == [];
      assert Literals(rest[1..]) == [FIVE] + [];
    }
    assert ExpandFrom(rest, [], [DOLLAR, ONE], [7]) == Rewritten([DOLLAR, ONE, FIVE], [7]) by {
      assert [DOLLAR, ONE] + [FIVE] == [DOLLAR, ONE, FIVE];
    }
    assert ExpandFrom<int>([Lexeme(Placeholder, [DOLLAR, ONE])] + rest, [Scalar(7)], [], []) == ExpandFrom(rest, [], [DOLLAR, ONE], [7]);
    assert Expand<int>([DOLLAR, ONE, QUESTION, FIVE], [Scalar(7)]) == ExpandFrom<int>([Lexeme(Placeholder, [DOLLAR, ONE])] + rest, [Scalar(7)], [], []);
  }
}
