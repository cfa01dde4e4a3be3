/** The input stream and the subset of C `fscanf` that the viewport directive uses.

    A scene file is a sequence of elements: single characters, and numbers
    already tokenised (the text-to-number conversion of `%f` and `%d` is not
    modelled). A format is a sequence of directives: a whitespace directive, a
    literal character, or a conversion. The result follows the C library:
    the number of successful conversions, or EOF (-1) when the input ends
    before the first conversion; on a matching failure the offending element
    is pushed back, i.e. not consumed. */
module Stream {
  import opened Wrappers

  datatype Elem = Chr(c: char) | Real(r: real) | Int(n: int) {
    /** The number a number token stands for. */
    function Number(): real
      requires !Chr?
    {
      if Real? then r else n as real
    }
  }

  datatype Conv = FloatConv | IntConv

  datatype Directive = Space | Lit(ch: char) | Convert(conv: Conv)

  datatype Field = FloatField(f: real) | IntField(d: int) {
    function Kind(): Conv
    {
      if FloatField? then FloatConv else IntConv
    }

    /** The stored number, as a real. */
    function Number(): real
    {
      if FloatField? then f else d as real
    }
  }

  /** What fscanf returns (count), stores (fields) and leaves unread (rest). */
  datatype Scan = Scan(count: int, fields: seq<Field>, rest: seq<Elem>)

  const EOF: int := -1

  predicate IsSuffix<T(==)>(t: seq<T>, s: seq<T>)
  {
    |t| <= |s| && t == s[|s| - |t|..]
  }

  /** isspace in the C locale. */
  predicate IsSpace(c: char)
  {
    c == ' ' || c == '\t' || c == '\n' || c == '\U{0B}' || c == '\U{0C}' || c == '\r'
  }

  predicate IsSpaceElem(e: Elem)
  {
    e.Chr? && IsSpace(e.c)
  }

  /** A run of isspace characters, possibly empty. */
  predicate AllScanSpace(w: seq<Elem>)
  {
    forall i :: 0 <= i < |w| ==> IsSpaceElem(w[i])
  }

  /** Drops the leading whitespace characters and nothing else. */
  function SkipSpace(s: seq<Elem>): (r: seq<Elem>)
    ensures IsSuffix(r, s)
    ensures r == [] || !IsSpaceElem(r[0])
    ensures forall i :: 0 <= i < |s| - |r| ==> IsSpaceElem(s[i])
    decreases |s|
  {
    if s != [] && IsSpaceElem(s[0]) then SkipSpace(s[1..]) else s
  }

  /** The value a conversion stores for an input element, if it accepts it.
      `%f` accepts any number; `%d` only an integer token. */
  function Converted(k: Conv, e: Elem): (r: Option<Field>)
    ensures r.Some? ==> r.value.Kind() == k
    ensures r.Some? <==> (e.Int? || (e.Real? && k == FloatConv))
    ensures r.Some? ==> r.value.Number() == e.Number()
  {
    match (k, e)
    case (_, Chr(_)) => None
    case (FloatConv, Real(v)) => Some(FloatField(v))
    case (IntConv, Real(_)) => None
    case (FloatConv, Int(n)) => Some(FloatField(n as real))
    case (IntConv, Int(n)) => Some(IntField(n))
  }

  /** The kinds of the conversions of a format, in order. */
  function ConvKinds(fmt: seq<Directive>): seq<Conv>
    decreases |fmt|
  {
    if fmt == [] then []
    else if fmt[0].Convert? then [fmt[0].conv] + ConvKinds(fmt[1..])
    else ConvKinds(fmt[1..])
  }

  /** Skipping whitespace in front of a non-blank element drops exactly the blank run. */
  lemma {:induction false} SkipSpaceOver(w: seq<Elem>, t: seq<Elem>)
    requires AllScanSpace(w)
    requires t == [] || !IsSpaceElem(t[0])
    ensures SkipSpace(w + t) == t
    decreases |w|
  {
    if w == [] {
      assert w + t == t;
    } else {
      assert (w + t)[0] == w[0];
      assert (w + t)[1..] == w[1..] + t;
      SkipSpaceOver(w[1..], t);
    }
  }

  /** fscanf(stream, fmt, ...). */
  function Scanf(s: seq<Elem>, fmt: seq<Directive>): (r: Scan)
    ensures EOF <= r.count <= |ConvKinds(fmt)|
    ensures r.count == EOF ==> r.fields == [] && r.rest == []
    ensures r.count >= 0 ==> |r.fields| == r.count
    ensures IsSuffix(r.rest, s)
    decreases |fmt|
  {
    if fmt == [] then Scan(0, [], s)
    else match fmt[0]
      case Space => Scanf(SkipSpace(s), fmt[1..])
      case Lit(c) =>
        if s == [] then Scan(EOF, [], s)
        else if s[0] == Chr(c) then Scanf(s[1..], fmt[1..])
        else Scan(0, [], s)
      case Convert(k) =>
        var t := SkipSpace(s);
        if t == [] then Scan(EOF, [], t)
        else match Converted(k, t[0])
          case None => Scan(0, [], t)
          case Some(f) =>
            var r := Scanf(t[1..], fmt[1..]);
            Scan(if r.count == EOF then 1 else r.count + 1, [f] + r.fields, r.rest)
  }

  /** The stored values have, in order, the leading kinds of `ks`. */
  predicate KindsPrefix(fs: seq<Field>, ks: seq<Conv>)
  {
    |fs| <= |ks| && forall i :: 0 <= i < |fs| ==> fs[i].Kind() == ks[i]
  }

  lemma {:induction false} KindsPrefixCons(f: Field, fs: seq<Field>, ks: seq<Conv>)
    requires KindsPrefix(fs, ks)
    ensures KindsPrefix([f] + fs, [f.Kind()] + ks)
  {
    forall i | 0 < i < |[f] + fs|
      ensures ([f] + fs)[i].Kind() == ([f.Kind()] + ks)[i]
    {
      assert ([f] + fs)[i] == fs[i - 1];
    }
  }

  /** A conversion that accepts the element in front of the input stores it first. */
  lemma {:induction false} ScanfConvertFields(s: seq<Elem>, k: Conv, g: seq<Directive>, f: Field)
    requires SkipSpace(s) != [] && Converted(k, SkipSpace(s)[0]) == Some(f)
    ensures Scanf(s, [Convert(k)] + g).fields == [f] + Scanf(SkipSpace(s)[1..], g).fields
  {
    assert ([Convert(k)] + g)[0] == Convert(k);
    assert ([Convert(k)] + g)[1..] == g;
  }

  /** The values fscanf stores have, in order, the kinds of the format's conversions. */
  lemma {:induction false} ScanfKinds(s: seq<Elem>, fmt: seq<Directive>)
    ensures KindsPrefix(Scanf(s, fmt).fields, ConvKinds(fmt))
    decreases |fmt|
  {
    if fmt != [] {
      match fmt[0]
      case Space =>
        ScanfKinds(SkipSpace(s), fmt[1..]);
      case Lit(c) =>
        if s != [] && s[0] == Chr(c) {
          ScanfKinds(s[1..], fmt[1..]);
        }
      case Convert(k) =>
        var t := SkipSpace(s);
        if t != [] && Converted(k, t[0]).Some? {
          ScanfKinds(t[1..], fmt[1..]);
          assert fmt == [Convert(k)] + fmt[1..];
          ScanfConvertFields(s, k, fmt[1..], Converted(k, t[0]).value);
          assert ConvKinds(fmt) == [k] + ConvKinds(fmt[1..]);
          KindsPrefixCons(Converted(k, t[0]).value, Scanf(t[1..], fmt[1..]).fields, ConvKinds(fmt[1..]));
        }
    }
  }

  /** The literal characters of a keyword, one directive each. */
  function Lits(kw: string): seq<Directive>
    decreases |kw|
  {
    if kw == [] then [] else [Lit(kw[0])] + Lits(kw[1..])
  }

  /** " %f %f ..." : each conversion preceded by a whitespace directive. */
  function Convs(kinds: seq<Conv>): seq<Directive>
    decreases |kinds|
  {
    if kinds == [] then [] else [Space, Convert(kinds[0])] + Convs(kinds[1..])
  }

  lemma {:induction false} LitsAppend(a: string, b: string)
    ensures Lits(a + b) == Lits(a) + Lits(b)
    decreases |a|
  {
    if a == [] {
      assert a + b == b;
    } else {
      assert (a + b)[0] == a[0];
      assert (a + b)[1..] == a[1..] + b;
      LitsAppend(a[1..], b);
    }
  }

  lemma {:induction false} ConvsAppend(a: seq<Conv>, b: seq<Conv>)
    ensures Convs(a + b) == Convs(a) + Convs(b)
    decreases |a|
  {
    if a == [] {
      assert a + b == b;
    } else {
      assert (a + b)[0] == a[0];
      assert (a + b)[1..] == a[1..] + b;
      ConvsAppend(a[1..], b);
    }
  }

  /** The formats of the viewport directive: " <keyword> %f %f ...". */
  function KeywordFormat(kw: string, kinds: seq<Conv>): seq<Directive>
  {
    [Space] + Lits(kw) + Convs(kinds)
  }

  lemma {:induction false} ConvKindsAppend(a: seq<Directive>, b: seq<Directive>)
    ensures ConvKinds(a + b) == ConvKinds(a) + ConvKinds(b)
    decreases |a|
  {
    if a != [] {
      assert (a + b)[0] == a[0];
      assert (a + b)[1..] == a[1..] + b;
      ConvKindsAppend(a[1..], b);
    } else {
      assert a + b == b;
    }
  }

  lemma {:induction false} LitsHaveNoConversions(kw: string)
    ensures ConvKinds(Lits(kw)) == []
    decreases |kw|
  {
    if kw != [] {
      ConvKindsAppend([Lit(kw[0])], Lits(kw[1..]));
      LitsHaveNoConversions(kw[1..]);
    }
  }

  lemma {:induction false} ConvsKinds(kinds: seq<Conv>)
    ensures ConvKinds(Convs(kinds)) == kinds
    decreases |kinds|
  {
    if kinds != [] {
      ConvKindsAppend([Space, Convert(kinds[0])], Convs(kinds[1..]));
      ConvsKinds(kinds[1..]);
      assert [Space, Convert(kinds[0])][1..] == [Convert(kinds[0])];
    }
  }

  /** A keyword format converts exactly the requested kinds, in order. */
  lemma {:induction false} KeywordFormatKinds(kw: string, kinds: seq<Conv>)
    ensures ConvKinds(KeywordFormat(kw, kinds)) == kinds
  {
    ConvKindsAppend([Space] + Lits(kw), Convs(kinds));
    ConvKindsAppend([Space], Lits(kw));
    LitsHaveNoConversions(kw);
    ConvsKinds(kinds);
  }
}
