/** Writing converted values back as scene-file text, with any blank runs
    between the pieces, and what fscanf makes of such text: a keyword format
    reads back exactly the values written, and stops at the first element that
    does not fit. */
module StreamText {
  import opened Wrappers
  import opened Stream

  function Chrs(str: string): (r: seq<Elem>)
    ensures |r| == |str|
    ensures forall i :: 0 <= i < |str| ==> r[i] == Chr(str[i])
    decreases |str|
  {
    if str == [] then [] else [Chr(str[0])] + Chrs(str[1..])
  }

  /** The token a value is usually written as: a whole number without a
      fraction, which makes an integer token even where `%f` reads it, and
      any other number as a real token. Its conversion reads it back. */
  function Token(f: Field): (e: Elem)
    ensures Converted(f.Kind(), e) == Some(f)
  {
    match f
    case FloatField(v) => if v == v.Floor as real then Int(v.Floor) else Real(v)
    case IntField(n) => Int(n)
  }

  /** The tokens a run of values is usually written as. */
  function Tokens(fs: seq<Field>): (es: seq<Elem>)
    ensures Spells(es, fs)
  {
    seq(|fs|, i requires 0 <= i < |fs| => Token(fs[i]))
  }

  /** Each token is one its value's conversion accepts, and stores that value:
      `Int(0)` or `Real(0.0)` for `FloatField(0.0)`, only `Int(n)` for `IntField(n)`. */
  predicate Spells(es: seq<Elem>, fs: seq<Field>)
  {
    |es| == |fs| && forall i :: 0 <= i < |fs| ==> Converted(fs[i].Kind(), es[i]) == Some(fs[i])
  }

  /** How one keyword group is written: the blank run before its keyword, and
      for each value the blank run before it and the token it is written as. */
  datatype Layout = Layout(beforeKeyword: seq<Elem>, beforeValues: seq<seq<Elem>>, tokens: seq<Elem>)

  /** One blank run per token. */
  predicate Even(g: Layout)
  {
    |g.beforeValues| == |g.tokens|
  }

  /** The layout writes the values `fs`: every run is made of isspace
      characters (any of them, any number, none included), and the tokens
      spell the values. */
  predicate Writes(g: Layout, fs: seq<Field>)
  {
    && AllScanSpace(g.beforeKeyword)
    && |g.beforeValues| == |fs|
    && AllBlank(g.beforeValues)
    && Spells(g.tokens, fs)
  }

  predicate AllBlank(ws: seq<seq<Elem>>)
  {
    forall i :: 0 <= i < |ws| ==> AllScanSpace(ws[i])
  }

  /** "<ws0> e1 <ws1> e2 ...": each token after its own blank run. */
  function FieldsText(es: seq<Elem>, ws: seq<seq<Elem>>): seq<Elem>
    requires |ws| == |es|
    decreases |es|
  {
    if es == [] then [] else ws[0] + [es[0]] + FieldsText(es[1..], ws[1..])
  }

  /** "<blanks> <kw> <blanks> e1 <blanks> e2 ..." */
  function KeywordText(kw: string, g: Layout): seq<Elem>
    requires Even(g)
  {
    g.beforeKeyword + Chrs(kw) + FieldsText(g.tokens, g.beforeValues)
  }

  function Kinds(fs: seq<Field>): (ks: seq<Conv>)
    ensures |ks| == |fs|
    ensures forall i :: 0 <= i < |fs| ==> ks[i] == fs[i].Kind()
  {
    seq(|fs|, i requires 0 <= i < |fs| => fs[i].Kind())
  }

  lemma {:induction false} ScanSpace(s: seq<Elem>, fmt: seq<Directive>)
    ensures Scanf(s, [Space] + fmt) == Scanf(SkipSpace(s), fmt)
  {
    assert ([Space] + fmt)[1..] == fmt;
  }

  /** A literal directive consumes the matching character. */
  lemma {:induction false} ScanLitMatch(c: char, u: seq<Elem>, g: seq<Directive>)
    ensures Scanf([Chr(c)] + u, [Lit(c)] + g) == Scanf(u, g)
  {
    assert ([Lit(c)] + g)[0] == Lit(c);
    assert ([Lit(c)] + g)[1..] == g;
    assert ([Chr(c)] + u)[1..] == u;
  }

  /** A literal directive that does not match stops fscanf before any
      conversion and pushes the element back. */
  lemma {:induction false} ScanLitMismatch(t: seq<Elem>, c: char, f: seq<Directive>)
    requires t == [] || t[0] != Chr(c)
    ensures Scanf(t, [Lit(c)] + f).count <= 0 && Scanf(t, [Lit(c)] + f).rest == t
  {
    assert ([Lit(c)] + f)[0] == Lit(c);
  }

  lemma {:induction false} ScanLits(kw: string, t: seq<Elem>, fmt: seq<Directive>)
    ensures Scanf(Chrs(kw) + t, Lits(kw) + fmt) == Scanf(t, fmt)
    decreases |kw|
  {
    if kw == [] {
      assert Chrs(kw) + t == t;
      assert Lits(kw) + fmt == fmt;
    } else {
      assert Chrs(kw) + t == [Chr(kw[0])] + (Chrs(kw[1..]) + t);
      assert Lits(kw) + fmt == [Lit(kw[0])] + (Lits(kw[1..]) + fmt);
      ScanLitMatch(kw[0], Chrs(kw[1..]) + t, Lits(kw[1..]) + fmt);
      ScanLits(kw[1..], t, fmt);
    }
  }

  /** A conversion that accepts the element in front stores its value and
      scanning goes on right after it. */
  lemma {:induction false} ScanConvert(t: seq<Elem>, k: Conv, f: Field, g: seq<Directive>)
    requires t != [] && !IsSpaceElem(t[0]) && Converted(k, t[0]) == Some(f)
    ensures Scanf(t, [Convert(k)] + g)
         == (var r := Scanf(t[1..], g); Scan(if r.count == EOF then 1 else r.count + 1, [f] + r.fields, r.rest))
  {
    assert ([Convert(k)] + g)[0] == Convert(k);
    assert ([Convert(k)] + g)[1..] == g;
  }

  /** A conversion that meets, after blanks, the end of input or an element it
      does not accept: EOF in the first case, no conversion in the second, and
      the element is left unread. */
  lemma {:induction false} ScanConvertFails(w: seq<Elem>, t: seq<Elem>, k: Conv, g: seq<Directive>)
    requires AllScanSpace(w)
    requires t == [] || (!IsSpaceElem(t[0]) && Converted(k, t[0]).None?)
    ensures Scanf(w + t, [Space, Convert(k)] + g) == Scan(if t == [] then EOF else 0, [], t)
  {
    assert [Space, Convert(k)] + g == [Space] + ([Convert(k)] + g);
    ScanSpace(w + t, [Convert(k)] + g);
    SkipSpaceOver(w, t);
    assert ([Convert(k)] + g)[0] == Convert(k);
  }

  /** One " %f" (or " %d") on "<blanks> <token>", where the conversion
      accepts the token: one more value, stored first. */
  lemma {:induction false} ScanOneField(f: Field, e: Elem, w: seq<Elem>, y: seq<Elem>, g: seq<Directive>)
    requires AllScanSpace(w) && Converted(f.Kind(), e) == Some(f)
    ensures Scanf(w + [e] + y, [Space, Convert(f.Kind())] + g)
         == (var r := Scanf(y, g); Scan(if r.count == EOF then 1 else r.count + 1, [f] + r.fields, r.rest))
  {
    var t := [e] + y;
    assert w + [e] + y == w + t;
    assert [Space, Convert(f.Kind())] + g == [Space] + ([Convert(f.Kind())] + g);
    ScanSpace(w + t, [Convert(f.Kind())] + g);
    SkipSpaceOver(w, t);
    assert t[1..] == y;
    ScanConvert(t, f.Kind(), f, g);
  }

  lemma {:induction false} KindsCons(fs: seq<Field>)
    requires fs != []
    ensures Convs(Kinds(fs)) == [Space, Convert(fs[0].Kind())] + Convs(Kinds(fs[1..]))
  {
    assert Kinds(fs) == [fs[0].Kind()] + Kinds(fs[1..]);
  }

  lemma {:induction false} FieldsTextCons(es: seq<Elem>, ws: seq<seq<Elem>>, u: seq<Elem>)
    requires es != [] && |ws| == |es|
    ensures FieldsText(es, ws) + u == ws[0] + [es[0]] + (FieldsText(es[1..], ws[1..]) + u)
    ensures AllBlank(ws) ==> AllScanSpace(ws[0]) && AllBlank(ws[1..])
  {
    if AllBlank(ws) {
      forall i | 0 <= i < |ws[1..]|
        ensures AllScanSpace(ws[1..][i])
      {
        assert ws[1..][i] == ws[i + 1];
      }
    }
  }

  lemma {:induction false} SpellsCons(es: seq<Elem>, fs: seq<Field>)
    requires fs != [] && Spells(es, fs)
    ensures Converted(fs[0].Kind(), es[0]) == Some(fs[0]) && Spells(es[1..], fs[1..])
  {
    forall i | 0 <= i < |fs[1..]|
      ensures Converted(fs[1..][i].Kind(), es[1..][i]) == Some(fs[1..][i])
    {
      assert fs[1..][i] == fs[i + 1] && es[1..][i] == es[i + 1];
    }
  }

  /** The count of a run of conversions that read n values and then handed
      over to a call that returned c. */
  function CountAfter(n: nat, c: int): int
  {
    if n == 0 then c else if c == EOF then n else c + n
  }

  /** One more value in front of a run that read `fs` and handed over to a call returning `r`. */
  lemma {:induction false} ScanFieldStep(f: Field, e: Elem, w: seq<Elem>, y: seq<Elem>, g: seq<Directive>, fs: seq<Field>, r: Scan)
    requires AllScanSpace(w) && Converted(f.Kind(), e) == Some(f) && r.count >= EOF
    requires Scanf(y, g) == Scan(CountAfter(|fs|, r.count), fs + r.fields, r.rest)
    ensures Scanf(w + [e] + y, [Space, Convert(f.Kind())] + g)
         == Scan(CountAfter(|fs| + 1, r.count), [f] + fs + r.fields, r.rest)
  {
    ScanOneField(f, e, w, y, g);
    assert [f] + (fs + r.fields) == [f] + fs + r.fields;
  }

  /** Tokens spelling the values `fs`, written in front of input `u` and read
      by as many conversions in front of format `h`: every value is stored in
      order, then scanning carries on with `u` and `h`. The count adds up,
      except that EOF right after the values counts as the values read. */
  lemma {:induction false} ScanFields(fs: seq<Field>, es: seq<Elem>, ws: seq<seq<Elem>>, u: seq<Elem>, h: seq<Directive>)
    requires Spells(es, fs) && |ws| == |fs| && AllBlank(ws)
    ensures Scanf(FieldsText(es, ws) + u, Convs(Kinds(fs)) + h)
         == Scan(CountAfter(|fs|, Scanf(u, h).count), fs + Scanf(u, h).fields, Scanf(u, h).rest)
    decreases |fs|
  {
    var r := Scanf(u, h);
    if fs == [] {
      assert Kinds(fs) == [];
      assert FieldsText(es, ws) + u == u;
      assert Convs(Kinds(fs)) + h == h;
      assert fs + r.fields == r.fields;
    } else {
      var y := FieldsText(es[1..], ws[1..]) + u;
      var g := Convs(Kinds(fs[1..])) + h;
      FieldsTextCons(es, ws, u);
      SpellsCons(es, fs);
      KindsCons(fs);
      assert Convs(Kinds(fs)) + h == [Space, Convert(fs[0].Kind())] + g;
      ScanFields(fs[1..], es[1..], ws[1..], u, h);
      ScanFieldStep(fs[0], es[0], ws[0], y, g, fs[1..], r);
      assert [fs[0]] + fs[1..] == fs;
    }
  }

  /** A keyword group written in front of input `v`, read by its keyword and
      conversions in front of format `h`: the keyword is consumed, the values
      stored, and scanning carries on with `v` and `h`. */
  lemma {:induction false} ScanKeywordThen(kw: string, fs: seq<Field>, g: Layout, v: seq<Elem>, h: seq<Directive>)
    requires kw != [] && !IsSpace(kw[0]) && Writes(g, fs)
    ensures Scanf(KeywordText(kw, g) + v, [Space] + (Lits(kw) + (Convs(Kinds(fs)) + h)))
         == Scan(CountAfter(|fs|, Scanf(v, h).count), fs + Scanf(v, h).fields, Scanf(v, h).rest)
  {
    var body := FieldsText(g.tokens, g.beforeValues) + v;
    var y := Chrs(kw) + body;
    var f := Lits(kw) + (Convs(Kinds(fs)) + h);
    assert KeywordText(kw, g) + v == g.beforeKeyword + y;
    assert y[0] == Chr(kw[0]);
    ScanSpace(g.beforeKeyword + y, f);
    SkipSpaceOver(g.beforeKeyword, y);
    ScanLits(kw, body, Convs(Kinds(fs)) + h);
    ScanFields(fs, g.tokens, g.beforeValues, v, h);
  }

  /** fscanf(" <kw> %f ...") on a keyword group that writes `fs` stores those
      values, counts all of them, and leaves the following input untouched,
      whatever blanks separate the pieces and whichever accepted token each
      value is written as. */
  lemma {:induction false} ScanKeywordText(kw: string, fs: seq<Field>, g: Layout, rest: seq<Elem>)
    requires kw != [] && !IsSpace(kw[0]) && Writes(g, fs)
    ensures Scanf(KeywordText(kw, g) + rest, KeywordFormat(kw, Kinds(fs))) == Scan(|fs|, fs, rest)
  {
    assert KeywordFormat(kw, Kinds(fs)) == [Space] + (Lits(kw) + (Convs(Kinds(fs)) + []));
    ScanKeywordThen(kw, fs, g, rest, []);
    assert fs + [] == fs;
  }

  /** The format of a keyword group, cut at letter j of the keyword. */
  lemma {:induction false} KeywordFormatAt(kw: string, j: nat, kinds: seq<Conv>)
    requires j < |kw|
    ensures KeywordFormat(kw, kinds)
         == [Space] + (Lits(kw[..j]) + ([Lit(kw[j])] + (Lits(kw[j + 1..]) + Convs(kinds))))
  {
    assert kw == kw[..j] + [kw[j]] + kw[j + 1..];
    LitsAppend(kw[..j] + [kw[j]], kw[j + 1..]);
    LitsAppend(kw[..j], [kw[j]]);
    assert Lits([kw[j]]) == [Lit(kw[j])];
  }

  /** The keyword is matched only up to position j: after blanks and the first
      j letters, the input does not go on with letter j. The call converts
      nothing; the matched letters are consumed and the mismatching element
      is left unread. */
  lemma {:induction false} ScanKeywordMismatch(w: seq<Elem>, kw: string, j: nat, t: seq<Elem>, kinds: seq<Conv>)
    requires j < |kw| && !IsSpace(kw[0]) && kinds != []
    requires AllScanSpace(w)
    requires t == [] || (t[0] != Chr(kw[j]) && (j == 0 ==> !IsSpaceElem(t[0])))
    ensures Scanf(w + (Chrs(kw[..j]) + t), KeywordFormat(kw, kinds)).count != |kinds|
    ensures Scanf(w + (Chrs(kw[..j]) + t), KeywordFormat(kw, kinds)).rest == t
  {
    var tail := Lits(kw[j + 1..]) + Convs(kinds);
    var f := Lits(kw[..j]) + ([Lit(kw[j])] + tail);
    var y := Chrs(kw[..j]) + t;
    KeywordFormatAt(kw, j, kinds);
    ScanSpace(w + y, f);
    if j == 0 {
      assert y == t;
    } else {
      assert y[0] == Chr(kw[0]);
    }
    SkipSpaceOver(w, y);
    ScanLits(kw[..j], t, [Lit(kw[j])] + tail);
    ScanLitMismatch(t, kw[j], tail);
  }

  /** The format of a keyword group whose first n conversions are those of `fs`. */
  lemma {:induction false} KeywordFormatAfter(kw: string, fs: seq<Field>, kinds: seq<Conv>)
    requires |fs| < |kinds| && Kinds(fs) == kinds[..|fs|]
    ensures KeywordFormat(kw, kinds)
         == [Space] + (Lits(kw) + (Convs(Kinds(fs)) + ([Space, Convert(kinds[|fs|])] + Convs(kinds[|fs| + 1..]))))
  {
    var k := kinds[|fs|];
    var more := kinds[|fs| + 1..];
    assert kinds == Kinds(fs) + ([k] + more);
    ConvsAppend(Kinds(fs), [k] + more);
    assert ([k] + more)[1..] == more;
  }

  /** The keyword and the first values `fs` of a group are present, but after
      blanks the next value is missing (end of input) or is an element its
      conversion does not accept (a character, or a real token where `%d` is
      expected). The call stops short of the full count and leaves that
      element unread. */
  lemma {:induction false} ScanValueMismatch(kw: string, fs: seq<Field>, g: Layout, w: seq<Elem>, t: seq<Elem>, kinds: seq<Conv>)
    requires kw != [] && !IsSpace(kw[0]) && Writes(g, fs)
    requires |fs| < |kinds| && Kinds(fs) == kinds[..|fs|]
    requires AllScanSpace(w)
    requires t == [] || (!IsSpaceElem(t[0]) && Converted(kinds[|fs|], t[0]).None?)
    ensures Scanf(KeywordText(kw, g) + (w + t), KeywordFormat(kw, kinds)).count != |kinds|
    ensures Scanf(KeywordText(kw, g) + (w + t), KeywordFormat(kw, kinds)).rest == t
  {
    var h := [Space, Convert(kinds[|fs|])] + Convs(kinds[|fs| + 1..]);
    KeywordFormatAfter(kw, fs, kinds);
    ScanConvertFails(w, t, kinds[|fs|], Convs(kinds[|fs| + 1..]));
    ScanKeywordThen(kw, fs, g, w + t, h);
  }
}
