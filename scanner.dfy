/** The placeholder scanner: a lexer over the bytes of a query that splits
    them into literal runs and placeholders (`?`, or `$` and its digits). A
    NUL byte, the scanner's sentinel, reads as the end of the input. */
module Scanner {
  import opened Text

  /** What one scan returns. */
  datatype Token = Query | Placeholder | EOF

  /** One token together with the bytes it covers. */
  datatype Lexeme = Lexeme(kind: Token, text: seq<byte>)

  /** The kind a scan returns and where it leaves the cursor. */
  datatype Step = Step(kind: Token, end: nat)

  /** isQuery: a byte that may continue a literal run. */
  predicate IsQuery(ch: byte) {
    ch != DOLLAR && ch != QUESTION && ch != SEOF
  }

  /** The byte at i, or the sentinel once i is past the end. */
  function At(q: seq<byte>, i: nat): byte {
    if i >= |q| then SEOF else q[i]
  }

  /** Where scanning stops: at the first NUL byte, or at the end of q. */
  function Limit(q: seq<byte>): (n: nat)
    ensures n <= |q|
    ensures forall k :: 0 <= k < n ==> q[k] != SEOF
    ensures n < |q| ==> q[n] == SEOF
  {
    if q == [] || q[0] == SEOF then 0 else 1 + Limit(q[1..])
  }

  /** The end of the maximal run of digits starting at i. */
  function DigitsEnd(q: seq<byte>, i: nat): (j: nat)
    requires i <= |q|
    ensures i <= j <= |q|
    ensures forall k :: i <= k < j ==> IsDigit(q[k])
    ensures !IsDigit(At(q, j))
    decreases |q| - i
  {
    if i < |q| && IsDigit(q[i]) then DigitsEnd(q, i + 1) else i
  }

  /** The end of the maximal run of literal bytes starting at i. */
  function QueryEnd(q: seq<byte>, i: nat): (j: nat)
    requires i <= |q|
    ensures i <= j <= |q|
    ensures forall k :: i <= k < j ==> IsQuery(q[k])
    ensures !IsQuery(At(q, j))
    decreases |q| - i
  {
    if i < |q| && IsQuery(q[i]) then QueryEnd(q, i + 1) else i
  }

  /** The shape of every token a scan can produce: a literal is a non-empty
      run without '$', '?' or NUL; a placeholder is '?' alone, or '$'
      followed by digits only. */
  predicate WellShaped(l: Lexeme) {
    match l.kind
    case Query =>
      |l.text| > 0 && forall k :: 0 <= k < |l.text| ==> IsQuery(l.text[k])
    case Placeholder =>
      l.text == [QUESTION] ||
      (|l.text| > 0 && l.text[0] == DOLLAR && forall k :: 1 <= k < |l.text| ==> IsDigit(l.text[k]))
    case EOF => false
  }

  /** Every token of a list is well shaped. */
  predicate AllWellShaped(toks: seq<Lexeme>) {
    toks == [] || (WellShaped(toks[0]) && AllWellShaped(toks[1..]))
  }

  /** One scan from position p: what kind of token it returns and where the
      cursor stops. Scanning ends exactly at the limit, and stays there; any
      other scan moves forward without passing the limit. */
  function NextToken(q: seq<byte>, p: nat): (r: Step)
    requires p <= Limit(q)
    ensures r.kind == EOF <==> p == Limit(q)
    ensures r.kind == EOF ==> r.end == p
    ensures r.kind != EOF ==> p < r.end <= Limit(q)
  {
    var ch := At(q, p);
    if ch == SEOF then Step(EOF, p)
    else if ch == QUESTION then Step(Placeholder, p + 1)
    else if ch == DOLLAR then Step(Placeholder, DigitsEnd(q, p + 1))
    else Step(Query, QueryEnd(q, p + 1))
  }

  /** Token shapes: every token a scan returns is well shaped and as long as
      it can be: a literal run stops only at '$', '?', NUL or the end, and the
      digits of a '$' placeholder only at a non-digit. */
  lemma NextTokenShape(q: seq<byte>, p: nat)
    requires p <= Limit(q)
    ensures NextToken(q, p).kind != EOF ==> WellShaped(Lexeme(NextToken(q, p).kind, q[p..NextToken(q, p).end]))
    ensures NextToken(q, p).kind == Query ==> !IsQuery(At(q, NextToken(q, p).end))
    ensures NextToken(q, p).kind == Placeholder && q[p] == DOLLAR ==> !IsDigit(At(q, NextToken(q, p).end))
  {
    var r := NextToken(q, p);
    if r.kind != EOF {
      var t := q[p..r.end];
      assert forall k :: 0 <= k < |t| ==> t[k] == q[p + k];
    }
  }

  /** End of input is sticky: a scan that returns EOF leaves the cursor
      where it was, so the next scan returns EOF again. */
  lemma EofSticky(q: seq<byte>, p: nat)
    requires p <= Limit(q) && NextToken(q, p).kind == EOF
    ensures NextToken(q, NextToken(q, p).end) == NextToken(q, p)
  {
  }

  /** QueryEnd finds exactly the end of a literal run that cannot go on. */
  lemma {:induction false} QueryEndAt(q: seq<byte>, i: nat, e: nat)
    requires i <= e <= |q|
    requires forall k :: i <= k < e ==> IsQuery(q[k])
    requires !IsQuery(At(q, e))
    ensures QueryEnd(q, i) == e
    decreases e - i
  {
    if i < e {
      QueryEndAt(q, i + 1, e);
    }
  }

  /** The tokens that repeated scans produce from p until the end. */
  function Lex(q: seq<byte>, p: nat): seq<Lexeme>
    requires p <= Limit(q)
    decreases Limit(q) - p
  {
    var r := NextToken(q, p);
    if r.kind == EOF then [] else [Lexeme(r.kind, q[p..r.end])] + Lex(q, r.end)
  }

  /** Every token of a scan is well shaped. */
  lemma {:induction false} LexShapes(q: seq<byte>, p: nat)
    requires p <= Limit(q)
    ensures AllWellShaped(Lex(q, p))
    decreases Limit(q) - p
  {
    var r := NextToken(q, p);
    if r.kind != EOF {
      NextTokenShape(q, p);
      LexShapes(q, r.end);
      assert Lex(q, p)[1..] == Lex(q, r.end);
    }
  }

  /** The bytes of a token list, concatenated in order. */
  function Texts(toks: seq<Lexeme>): seq<byte> {
    if toks == [] then [] else toks[0].text + Texts(toks[1..])
  }

  /** The tokens partition the query from p up to where scanning stops. */
  lemma {:induction false} LexPartition(q: seq<byte>, p: nat)
    requires p <= Limit(q)
    ensures Texts(Lex(q, p)) == q[p..Limit(q)]
    decreases Limit(q) - p
  {
    var r := NextToken(q, p);
    if r.kind != EOF {
      var first, rest := Lexeme(r.kind, q[p..r.end]), Lex(q, r.end);
      assert Lex(q, p) == [first] + rest;
      assert ([first] + rest)[1..] == rest;
      LexPartition(q, r.end);
      SliceJoin(q, p, r.end, Limit(q));
    }
  }

  lemma SliceJoin(q: seq<byte>, a: nat, b: nat, c: nat)
    requires a <= b <= c <= |q|
    ensures q[a..b] + q[b..c] == q[a..c]
  {
  }

  /** Scanning a whole query reproduces it up to its first NUL byte, and
      entirely when it holds none. */
  lemma LexWhole(q: seq<byte>)
    ensures Texts(Lex(q, 0)) == q[..Limit(q)]
    ensures (forall k :: 0 <= k < |q| ==> q[k] != SEOF) ==> Texts(Lex(q, 0)) == q
  {
    LexPartition(q, 0);
    assert q[0..Limit(q)] == q[..Limit(q)];
  }

  /** Up to the limit, a query and its part before the first NUL read the
      same, the sentinel included. */
  lemma AtPrefix(q: seq<byte>, j: nat)
    requires j <= Limit(q)
    ensures At(q, j) == At(q[..Limit(q)], j)
  {
  }

  lemma {:induction false} DigitsEndPrefix(q: seq<byte>, i: nat)
    requires i <= Limit(q)
    ensures DigitsEnd(q, i) == DigitsEnd(q[..Limit(q)], i)
    decreases |q| - i
  {
    AtPrefix(q, i);
    if i < |q| && IsDigit(q[i]) {
      DigitsEndPrefix(q, i + 1);
    }
  }

  lemma {:induction false} QueryEndPrefix(q: seq<byte>, i: nat)
    requires i <= Limit(q)
    ensures QueryEnd(q, i) == QueryEnd(q[..Limit(q)], i)
    decreases |q| - i
  {
    AtPrefix(q, i);
    if i < |q| && IsQuery(q[i]) {
      QueryEndPrefix(q, i + 1);
    }
  }

  lemma NextTokenPrefix(q: seq<byte>, p: nat)
    requires p <= Limit(q)
    ensures Limit(q[..Limit(q)]) == Limit(q)
    ensures NextToken(q, p) == NextToken(q[..Limit(q)], p)
  {
    var q' := q[..Limit(q)];
    assert Limit(q') == |q'|;
    AtPrefix(q, p);
    if p < Limit(q) {
      DigitsEndPrefix(q, p + 1);
      QueryEndPrefix(q, p + 1);
    }
  }

  /** NUL ends the input: a query scans to the same tokens as its part
      before the first NUL byte. */
  lemma {:induction false} LexStopsAtNul(q: seq<byte>, p: nat)
    requires p <= Limit(q)
    ensures Limit(q[..Limit(q)]) == Limit(q)
    ensures Lex(q, p) == Lex(q[..Limit(q)], p)
    decreases Limit(q) - p
  {
    NextTokenPrefix(q, p);
    var r := NextToken(q, p);
    if r.kind != EOF {
      LexStopsAtNul(q, r.end);
      assert q[p..r.end] == q[..Limit(q)][p..r.end];
    }
  }

  /** A token whose text starts with a decimal digit. */
  predicate StartsWithDigit(l: Lexeme) {
    |l.text| > 0 && IsDigit(l.text[0])
  }

  /** No token of a list starts with a digit. */
  predicate NoDigitStarts(toks: seq<Lexeme>) {
    toks == [] || (!StartsWithDigit(toks[0]) && NoDigitStarts(toks[1..]))
  }

  /** No '?' of q from p up to the limit is directly followed by a digit. */
  predicate NoDigitAfterQuestion(q: seq<byte>, p: nat) {
    forall k :: p <= k && k + 1 < Limit(q) ==> !(q[k] == QUESTION && IsDigit(q[k + 1]))
  }

  /** Only a token that follows a '?' can start with a digit: a literal run
      stops only at '$', '?' or the limit, and the digits of a '$'
      placeholder are all taken. So when no '?' is directly followed by a
      digit, no token but the first starts with one. */
  lemma {:induction false} LexNoDigitStarts(q: seq<byte>, p: nat)
    requires p <= Limit(q)
    requires NoDigitAfterQuestion(q, p)
    ensures Lex(q, p) == [] || NoDigitStarts(Lex(q, p)[1..])
    decreases Limit(q) - p
  {
    var r := NextToken(q, p);
    if r.kind != EOF {
      LexNoDigitStarts(q, r.end);
      assert Lex(q, p)[1..] == Lex(q, r.end);
      var r2 := NextToken(q, r.end);
      if r2.kind != EOF {
        NextTokenShape(q, p);
        assert At(q, r.end) == q[r.end];
        assert Lex(q, r.end)[0].text[0] == q[r.end];
        if r.kind == Placeholder && q[p] == QUESTION {
          assert r.end == p + 1;
        }
      }
    }
  }

  /** The argScanner: a cursor pair over the query. The token last scanned
      spans [start, pos). */
  class ArgScanner {
    const query: seq<byte>
    var start: nat
    var pos: nat

    ghost predicate Valid()
      reads this
    {
      start <= pos <= Limit(query)
    }

    /** The cursors span the token of the last scan: nothing before the first
        scan and after EOF, and otherwise exactly what one scan from start
        covers. */
    ghost predicate Scanned()
      reads this
    {
      Valid() && (start == pos || NextToken(query, start).end == pos)
    }

    constructor (query: seq<byte>)
      ensures this.query == query && start == 0 && pos == 0
      ensures Scanned()
    {
      this.query := query;
      start, pos := 0, 0;
    }

    /** The text of the token the last scan returned: empty after EOF, and
        otherwise a well-shaped token of the kind that scan returned. */
    function String(): (s: seq<byte>)
      reads this
      requires Scanned()
      ensures s == query[start..pos]
      ensures start < pos ==> NextToken(query, start).kind != EOF && WellShaped(Lexeme(NextToken(query, start).kind, s))
    {
      NextTokenShape(query, start);
      query[start..pos]
    }

    /** peek: the byte at the cursor; the sentinel at the end of the query
        and at a NUL byte alike. */
    function Peek(): (ch: byte)
      reads this
      ensures pos <= Limit(query) ==> (ch == SEOF <==> pos == Limit(query))
      ensures ch != SEOF ==> pos < |query| && ch == query[pos]
    {
      if pos >= |query| then SEOF else query[pos]
    }

    /** next: returns the byte at the cursor and moves past it, unless it is
        the sentinel. */
    method Next() returns (ch: byte)
      requires Valid()
      modifies this`pos
      ensures Valid()
      ensures ch == old(Peek())
      ensures pos == if ch == SEOF then old(pos) else old(pos) + 1
    {
      ch := Peek();
      if ch != SEOF {
        pos := pos + 1;
      }
    }

    /** scanPlaceholder: moves past the digits that follow a '$'. */
    method ScanPlaceholder() returns (tok: Token)
      requires Valid()
      modifies this`pos
      ensures Valid()
      ensures tok == Placeholder && pos == DigitsEnd(query, old(pos))
    {
      while IsDigit(Peek())
        invariant Valid() && old(pos) <= pos
        invariant DigitsEnd(query, pos) == DigitsEnd(query, old(pos))
        decreases |query| - pos
      {
        var _ := Next();
      }
      tok := Placeholder;
    }

    /** scanQuery: moves past the rest of a literal run. */
    method ScanQuery() returns (tok: Token)
      requires Valid()
      modifies this`pos
      ensures Valid()
      ensures tok == Query && pos == QueryEnd(query, old(pos))
    {
      while IsQuery(Peek())
        invariant Valid() && old(pos) <= pos
        invariant QueryEnd(query, pos) == QueryEnd(query, old(pos))
        decreases |query| - pos
      {
        var _ := Next();
      }
      tok := Query;
    }

    /** scan: starts a token at the cursor and classifies it. Once it has
        returned EOF the cursor stays put, so every later scan returns EOF. */
    method Scan() returns (tok: Token)
      requires Valid()
      modifies this
      ensures Scanned() && start == old(pos)
      ensures Step(tok, pos) == NextToken(query, old(pos))
    {
      start := pos;
      var ch := Next();
      if ch == SEOF {
        tok := EOF;
      } else if ch == QUESTION {
        tok := Placeholder;
      } else if ch == DOLLAR {
        tok := ScanPlaceholder();
      } else {
        tok := ScanQuery();
      }
    }
  }
}
