/** The argument buffer: the rewritten query text and the flattened list of
    arguments, both only ever appended to. */
module Buffer {
  import opened Text

  /** A caller argument. The rewriter inspects an argument's kind by
      reflection; here that choice is closed: a slice (of any element type,
      byte slices included) or anything else. Elements are not expanded
      further. */
  datatype Arg<V> = Scalar(value: V) | Slice(elems: seq<V>)

  /** The values an argument contributes to the output argument list. */
  function Elems<V>(a: Arg<V>): seq<V> {
    match a
    case Scalar(v) => [v]
    case Slice(vs) => vs
  }

  /** The values of a list of arguments, flattened in order. */
  function Flatten<V>(args: seq<Arg<V>>): seq<V> {
    if args == [] then [] else Elems(args[0]) + Flatten(args[1..])
  }

  /** The marker written for the k-th output argument: a placeholder that
      starts with '$' gets '$' and the numeral of k, any other gets '?'. */
  function Marker(placeholder: seq<byte>, k: nat): seq<byte>
    requires |placeholder| > 0
  {
    if placeholder[0] == DOLLAR then [DOLLAR] + Decimal(k) else [QUESTION]
  }

  /** The text written for n values whose output positions are base + 1 to
      base + n: their markers, separated by ", ". */
  function Markers(placeholder: seq<byte>, base: nat, n: nat): seq<byte>
    requires n > 0 ==> |placeholder| > 0
  {
    if n == 0 then []
    else Markers(placeholder, base, n - 1) + (if n > 1 then SEPARATOR else []) + Marker(placeholder, base + n)
  }

  /** A marker is one marker byte; a numbered one reads back as k. */
  lemma MarkerShape(placeholder: seq<byte>, k: nat)
    requires |placeholder| > 0
    ensures Count(Marker(placeholder, k)) == 1
    ensures k > 0 ==> NumberedFrom(Marker(placeholder, k), k - 1)
    ensures placeholder[0] == DOLLAR ==> Marker(placeholder, k)[0] == DOLLAR && ValueOf(Marker(placeholder, k)[1..]) == k
    ensures placeholder[0] != DOLLAR ==> Marker(placeholder, k) == [QUESTION]
    ensures IsMarker(Marker(placeholder, k)[0])
    ensures k > 0 ==> ExactlyNumberedFrom(Marker(placeholder, k), k - 1)
  {
    var m := Marker(placeholder, k);
    var d := Decimal(k);
    if placeholder[0] == DOLLAR {
      assert m[1..] == d;
      NumberedPlain(d, k);
      ExactlyNumberedPlain(d, k);
      CountZero(d);
      DecimalRoundTrip(k);
    }
  }

  /** The markers for n values hold n marker bytes and carry on the
      numbering from base. */
  lemma {:induction false} MarkersNumbered(placeholder: seq<byte>, base: nat, n: nat)
    requires n > 0 ==> |placeholder| > 0
    ensures Count(Markers(placeholder, base, n)) == n
    ensures NumberedFrom(Markers(placeholder, base, n), base)
  {
    if n > 0 {
      var prev := Markers(placeholder, base, n - 1);
      var sep: seq<byte> := if n > 1 then SEPARATOR else [];
      var m := Marker(placeholder, base + n);
      MarkersNumbered(placeholder, base, n - 1);
      NumberedPlain(sep, base + n - 1);
      MarkerShape(placeholder, base + n);
      NumberedAppend(prev, sep, base);
      CountAppend(prev, sep);
      NumberedAppend(prev + sep, m, base);
      CountAppend(prev + sep, m);
    }
  }

  /** The markers for n values read back exactly: each numeral ends at the
      separator or at the end, and a non-empty run starts with a marker
      byte, so nothing written after it can extend it. */
  lemma {:induction false} MarkersExactlyNumbered(placeholder: seq<byte>, base: nat, n: nat)
    requires n > 0 ==> |placeholder| > 0
    ensures ExactlyNumberedFrom(Markers(placeholder, base, n), base)
    ensures n > 0 ==> IsMarker(Markers(placeholder, base, n)[0])
  {
    if n == 1 {
      MarkerShape(placeholder, base + 1);
      assert Markers(placeholder, base, 1) == Marker(placeholder, base + 1);
    } else if n > 1 {
      var prev := Markers(placeholder, base, n - 1);
      var m := Marker(placeholder, base + n);
      MarkersExactlyNumbered(placeholder, base, n - 1);
      MarkersNumbered(placeholder, base, n - 1);
      ExactlyNumberedPlain(SEPARATOR, base + n - 1);
      NumberedPlain(SEPARATOR, base + n - 1);
      MarkerShape(placeholder, base + n);
      ExactlyNumberedAppend(prev, SEPARATOR, base);
      CountAppend(prev, SEPARATOR);
      ExactlyNumberedAppend(prev + SEPARATOR, m, base);
      assert (prev + SEPARATOR + m)[0] == prev[0];
    }
  }

  /** Writing the separator (before every marker but the first) and one
      more marker after the markers for n values gives the markers for
      n + 1 values. */
  lemma MarkersAppend(prefix: seq<byte>, placeholder: seq<byte>, base: nat, n: nat, before: seq<byte>, mid: seq<byte>, after: seq<byte>)
    requires |placeholder| > 0
    requires before == prefix + Markers(placeholder, base, n)
    requires n > 0 ==> mid == before + SEPARATOR
    requires n == 0 ==> mid == before
    requires after == mid + Marker(placeholder, base + n + 1)
    ensures after == prefix + Markers(placeholder, base, n + 1)
  {
    var sep: seq<byte> := if n > 0 then SEPARATOR else [];
    var done := Markers(placeholder, base, n);
    var mark := Marker(placeholder, base + n + 1);
    assert Markers(placeholder, base, n + 1) == done + sep + mark;
    assert mid == before + sep;
    Associative(prefix, done, sep, mark);
  }

  lemma Associative<T>(a: seq<T>, b: seq<T>, c: seq<T>, d: seq<T>)
    ensures a + b + c + d == a + (b + c + d)
  {
  }

  /** Appending one more value to a prefix of vs. */
  lemma AppendNext<T>(a: seq<T>, vs: seq<T>, i: nat)
    requires i < |vs|
    ensures a + vs[..i] + [vs[i]] == a + vs[..i + 1]
  {
    assert vs[..i + 1] == vs[..i] + [vs[i]];
  }

  /** The argBuffer. */
  class ArgBuffer<V> {
    var out: seq<byte>
    var args: seq<V>

    constructor ()
      ensures out == [] && args == []
    {
      out, args := [], [];
    }

    /** WriteString of the embedded byte buffer. */
    method WriteString(s: seq<byte>)
      modifies this`out
      ensures out == old(out) + s
    {
      out := out + s;
    }

    /** writeArg: appends one argument and its marker, numbered by the new
        length of the argument list. */
    method WriteOneArg(placeholder: seq<byte>, arg: V)
      requires |placeholder| > 0
      modifies this
      ensures args == old(args) + [arg]
      ensures out == old(out) + Marker(placeholder, |args|)
    {
      args := args + [arg];
      if placeholder[0] == DOLLAR {
        WriteString([DOLLAR] + Decimal(|args|));
        return;
      }
      WriteString([QUESTION]);
    }

    /** WriteArg: a slice is written element by element, markers separated
        by ", " (an empty slice writes nothing); any other argument is
        written once. */
    method WriteArg(placeholder: seq<byte>, arg: Arg<V>)
      requires |Elems(arg)| > 0 ==> |placeholder| > 0
      modifies this
      ensures args == old(args) + Elems(arg)
      ensures out == old(out) + Markers(placeholder, |old(args)|, |Elems(arg)|)
    {
      if arg.Slice? {
        var vs := arg.elems;
        for i := 0 to |vs|
          invariant args == old(args) + vs[..i]
          invariant out == old(out) + Markers(placeholder, |old(args)|, i)
        {
          ghost var before := out;
          if i > 0 {
            WriteString(SEPARATOR);
          }
          ghost var mid := out;
          WriteOneArg(placeholder, vs[i]);
          MarkersAppend(old(out), placeholder, |old(args)|, i, before, mid, out);
          AppendNext(old(args), vs, i);
        }
        assert vs[..|vs|] == vs;
        return;
      }
      WriteOneArg(placeholder, arg.value);
    }
  }
}
