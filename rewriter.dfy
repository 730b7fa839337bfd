/** The rewriter In: drives the scanner over a query, copies literal runs,
    pairs each placeholder with the next caller argument, and lets the
    argument buffer expand slices into one renumbered marker per element. */
module Rewriter {
  import opened Text
  import opened Scanner
  import opened Buffer

  /** The rewritten query and the flattened argument list. */
  datatype Rewritten<V> = Rewritten(query: seq<byte>, args: seq<V>)

  /** The tokens of a whole query. */
  function Tokens(q: seq<byte>): (toks: seq<Lexeme>)
    ensures AllWellShaped(toks)
  {
    LexShapes(q, 0);
    Lex(q, 0)
  }

  /** The rewriting of the tokens toks, with the arguments args still to be
      paired, onto a buffer that already holds out and written. A
      placeholder with no argument left writes nothing. */
  function ExpandFrom<V>(toks: seq<Lexeme>, args: seq<Arg<V>>, out: seq<byte>, written: seq<V>): Rewritten<V>
    requires AllWellShaped(toks)
  {
    if toks == [] then Rewritten(out, written)
    else if toks[0].kind == Query then ExpandFrom(toks[1..], args, out + toks[0].text, written)
    else if |args| < 1 then ExpandFrom(toks[1..], args, out, written)
    else
      var vs := Elems(args[0]);
      ExpandFrom(toks[1..], args[1..], out + Markers(toks[0].text, |written|, |vs|), written + vs)
  }

  /** What In returns for query and args. */
  function Expand<V>(query: seq<byte>, args: seq<Arg<V>>): Rewritten<V> {
    ExpandFrom(Tokens(query), args, [], [])
  }

  /** In: the rewriter itself, a loop over the scanner's tokens. */
  method In<V>(query: seq<byte>, args: seq<Arg<V>>) returns (rewritten: seq<byte>, expanded: seq<V>)
    ensures Rewritten(rewritten, expanded) == Expand(query, args)
    ensures Count(rewritten) == |expanded|
    ensures NumberedFrom(rewritten, 0)
    ensures NoDigitAfterQuestion(query, 0) ==> ExactlyNumberedFrom(rewritten, 0)
  {
    var buf := new ArgBuffer<V>();
    var scn := new ArgScanner(query);
    var rest := args;
    while true
      invariant scn.Valid() && scn.query == query
      invariant AllWellShaped(Lex(query, scn.pos))
      invariant ExpandFrom(Lex(query, scn.pos), rest, buf.out, buf.args) == Expand(query, args)
      decreases Limit(query) - scn.pos
    {
      var tok := scn.Scan();
      LexShapes(query, scn.pos);
      if tok == EOF {
        break;
      } else if tok == Query {
        buf.WriteString(scn.String());
      } else if |rest| >= 1 {
        // with no argument left the placeholder is skipped and the loop goes on
        buf.WriteArg(scn.String(), rest[0]);
        rest := rest[1..];
      }
    }
    rewritten, expanded := buf.out, buf.args;
    ExpandNumbered(query, args);
    if NoDigitAfterQuestion(query, 0) {
      ExpandExactlyNumbered(query, args);
    }
  }

  /** The number of placeholders among toks. */
  function Placeholders(toks: seq<Lexeme>): nat {
    if toks == [] then 0 else (if toks[0].kind == Placeholder then 1 else 0) + Placeholders(toks[1..])
  }

  /** The literal runs among toks, concatenated. */
  function Literals(toks: seq<Lexeme>): seq<byte> {
    if toks == [] then [] else (if toks[0].kind == Query then toks[0].text else []) + Literals(toks[1..])
  }

  function Min(a: nat, b: nat): nat {
    if a <= b then a else b
  }

  lemma {:induction false} ExpandFromNumbered<V>(toks: seq<Lexeme>, args: seq<Arg<V>>, out: seq<byte>, written: seq<V>)
    requires AllWellShaped(toks)
    requires Count(out) == |written| && NumberedFrom(out, 0)
    ensures Count(ExpandFrom(toks, args, out, written).query) == |ExpandFrom(toks, args, out, written).args|
    ensures NumberedFrom(ExpandFrom(toks, args, out, written).query, 0)
  {
    if toks != [] {
      var t := toks[0];
      if t.kind == Query {
        NumberedPlain(t.text, Count(out));
        NumberedAppend(out, t.text, 0);
        CountAppend(out, t.text);
        ExpandFromNumbered(toks[1..], args, out + t.text, written);
      } else if |args| < 1 {
        ExpandFromNumbered(toks[1..], args, out, written);
      } else {
        var vs := Elems(args[0]);
        var m := Markers(t.text, |written|, |vs|);
        MarkersNumbered(t.text, |written|, |vs|);
        NumberedAppend(out, m, 0);
        CountAppend(out, m);
        ExpandFromNumbered(toks[1..], args[1..], out + m, written + vs);
      }
    }
  }

  /** Marker/argument parity and gapless numbering: the rewritten query has
      exactly one '$' or '?' per output argument, and each '$' is followed by
      the numeral of its position among all the markers. */
  lemma ExpandNumbered<V>(query: seq<byte>, args: seq<Arg<V>>)
    ensures Count(Expand(query, args).query) == |Expand(query, args).args|
    ensures NumberedFrom(Expand(query, args).query, 0)
  {
    ExpandFromNumbered(Tokens(query), args, [], []);
  }

  lemma {:induction false} ExpandFromExact<V>(toks: seq<Lexeme>, args: seq<Arg<V>>, out: seq<byte>, written: seq<V>)
    requires AllWellShaped(toks)
    requires Count(out) == |written| && ExactlyNumberedFrom(out, 0)
    requires toks == [] || NoDigitStarts(toks[1..])
    requires out == [] || toks == [] || !StartsWithDigit(toks[0])
    ensures ExactlyNumberedFrom(ExpandFrom(toks, args, out, written).query, 0)
  {
    if toks != [] {
      var t := toks[0];
      if t.kind == Query {
        ExactlyNumberedPlain(t.text, Count(out));
        CountZero(t.text);
        ExactlyNumberedAppend(out, t.text, 0);
        CountAppend(out, t.text);
        ExpandFromExact(toks[1..], args, out + t.text, written);
      } else if |args| < 1 {
        ExpandFromExact(toks[1..], args, out, written);
      } else {
        var vs := Elems(args[0]);
        var m := Markers(t.text, |written|, |vs|);
        MarkersExactlyNumbered(t.text, |written|, |vs|);
        MarkersNumbered(t.text, |written|, |vs|);
        ExactlyNumberedAppend(out, m, 0);
        CountAppend(out, m);
        ExpandFromExact(toks[1..], args[1..], out + m, written + vs);
      }
    }
  }

  /** Exact numbering: when no '?' of the query is directly followed by a
      digit (in particular when the query has no '?'), each '$' of the
      rewritten query is followed by the numeral of its position among all
      the markers and then by a non-digit or the end, so the longest digit
      run after each '$' reads back as its position. */
  lemma ExpandExactlyNumbered<V>(query: seq<byte>, args: seq<Arg<V>>)
    requires NoDigitAfterQuestion(query, 0)
    ensures ExactlyNumberedFrom(Expand(query, args).query, 0)
  {
    LexNoDigitStarts(query, 0);
    ExpandFromExact(Tokens(query), args, [], []);
  }

  lemma {:induction false} ExpandFromArgs<V>(toks: seq<Lexeme>, args: seq<Arg<V>>, out: seq<byte>, written: seq<V>)
    requires AllWellShaped(toks)
    ensures ExpandFrom(toks, args, out, written).args == written + Flatten(args[..Min(|args|, Placeholders(toks))])
  {
    if toks == [] {
      assert args[..0] == [];
    } else if toks[0].kind == Query {
      ExpandFromArgs(toks[1..], args, out + toks[0].text, written);
    } else if |args| < 1 {
      ExpandFromArgs(toks[1..], args, out, written);
      assert args[..0] == [];
    } else {
      var vs := Elems(args[0]);
      var m := Min(|args|, Placeholders(toks));
      ExpandFromArgs(toks[1..], args[1..], out + Markers(toks[0].text, |written|, |vs|), written + vs);
      assert args[..m][1..] == args[1..][..m - 1];
      assert Flatten(args[..m]) == vs + Flatten(args[1..][..m - 1]);
    }
  }

  /** Arguments pair with placeholders in order: the output argument list
      flattens the arguments that found a placeholder, which are as many as
      the shorter of the argument list and the placeholder count. */
  lemma ExpandArgs<V>(query: seq<byte>, args: seq<Arg<V>>)
    ensures Expand(query, args).args == Flatten(args[..Min(|args|, Placeholders(Tokens(query)))])
  {
    ExpandFromArgs(Tokens(query), args, [], []);
  }

  /** Scalar arguments keep their order and number: each becomes one output
      argument. */
  lemma ExpandScalars<V>(query: seq<byte>, args: seq<Arg<V>>)
    requires forall i :: 0 <= i < |args| ==> args[i].Scalar?
    requires |args| <= Placeholders(Tokens(query))
    ensures |Expand(query, args).args| == |args|
    ensures forall i :: 0 <= i < |args| ==> Expand(query, args).args[i] == args[i].value
  {
    ExpandArgs(query, args);
    assert args[..|args|] == args;
    FlattenScalars(args);
  }

  lemma {:induction false} FlattenScalars<V>(args: seq<Arg<V>>)
    requires forall i :: 0 <= i < |args| ==> args[i].Scalar?
    ensures |Flatten(args)| == |args|
    ensures forall i :: 0 <= i < |args| ==> Flatten(args)[i] == args[i].value
  {
    if args != [] {
      FlattenScalars(args[1..]);
    }
  }

  lemma {:induction false} ExpandFromNoArgs<V>(toks: seq<Lexeme>, out: seq<byte>, written: seq<V>)
    requires AllWellShaped(toks)
    ensures ExpandFrom(toks, [], out, written) == Rewritten(out + Literals(toks), written)
  {
    if toks == [] {
      assert out + [] == out;
    } else if toks[0].kind == Query {
      ExpandFromNoArgs(toks[1..], out + toks[0].text, written);
      assert out + toks[0].text + Literals(toks[1..]) == out + (toks[0].text + Literals(toks[1..]));
    } else {
      ExpandFromNoArgs(toks[1..], out, written);
      assert [] + Literals(toks[1..]) == Literals(toks[1..]);
    }
  }

  /** Without arguments every placeholder is dropped and the literal runs
      are still copied, in order. */
  lemma ExpandNoArgs<V>(query: seq<byte>)
    ensures Expand<V>(query, []) == Rewritten(Literals(Tokens(query)), [])
  {
    ExpandFromNoArgs<V>(Tokens(query), [], []);
  }

  /** A NUL byte ends the query: whatever follows it is neither copied nor
      paired with an argument. */
  lemma ExpandStopsAtNul<V>(query: seq<byte>, args: seq<Arg<V>>)
    ensures Expand(query, args) == Expand(query[..Limit(query)], args)
  {
    LexStopsAtNul(query, 0);
  }
}
