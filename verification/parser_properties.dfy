/** Properties of the viewport handler and the dispatch loop of BARTParser::ParseFile. */
module ParserProperties {
  import opened Wrappers
  import opened Geometry
  import opened Scene
  import opened Stream
  import opened StreamText
  import opened Parser

  /** The layouts of a run of groups, one per group, each writing that
      group's values (and so each with one blank run per token). */
  predicate WritesAll(layouts: seq<Layout>, values: seq<seq<Field>>)
  {
    && |layouts| == |values|
    && AllEven(layouts)
    && forall i :: 0 <= i < |values| ==> Writes(layouts[i], values[i])
  }

  /** The same run before every keyword and the same run before every value,
      and every value written as its usual token. */
  function Uniform(values: seq<seq<Field>>, beforeKeyword: seq<Elem>, beforeValue: seq<Elem>): (layouts: seq<Layout>)
    requires AllScanSpace(beforeKeyword) && AllScanSpace(beforeValue)
    ensures WritesAll(layouts, values)
  {
    seq(|values|, i requires 0 <= i < |values| =>
      Layout(beforeKeyword, seq(|values[i]|, _ => beforeValue), Tokens(values[i])))
  }

  predicate AllEven(layouts: seq<Layout>)
  {
    forall i :: 0 <= i < |layouts| ==> Even(layouts[i])
  }

  /** The text of a run of groups: "<blanks> <keyword> <blanks> e1 <blanks> e2 ..." for each. */
  function DirectiveText(groups: seq<Group>, layouts: seq<Layout>): seq<Elem>
    requires |layouts| == |groups| && AllEven(layouts)
    decreases |groups|
  {
    if groups == [] then []
    else
      assert Even(layouts[0]);
      assert AllEven(layouts[1..]) by {
        forall i | 0 <= i < |layouts[1..]|
          ensures Even(layouts[1..][i])
        {
          assert layouts[1..][i] == layouts[i + 1];
        }
      }
      KeywordText(groups[0].keyword, layouts[0]) + DirectiveText(groups[1..], layouts[1..])
  }

  /** Every keyword starts with a non-blank character. */
  predicate Keyworded(groups: seq<Group>)
  {
    forall i :: 0 <= i < |groups| ==> groups[i].keyword != [] && !IsSpace(groups[i].keyword[0])
  }

  /** Each value list renders the kinds its group asks for. */
  predicate Fits(values: seq<seq<Field>>, groups: seq<Group>)
  {
    |values| == |groups| && forall i :: 0 <= i < |groups| ==> Kinds(values[i]) == groups[i].kinds
  }

  lemma {:induction false} ViewportKeyworded()
    ensures Keyworded(ViewportGrammar)
    ensures forall i :: 0 <= i < |ViewportGrammar| ==> ViewportGrammar[i].kinds != []
  {
  }

  /** One group read from the front of the input: the remaining calls carry on
      right where it stopped. */
  lemma {:induction false} ReadGroupsCons(s: seq<Elem>, groups: seq<Group>, fs: seq<Field>, rest: seq<Elem>)
    requires groups != []
    requires Scanf(s, KeywordFormat(groups[0].keyword, groups[0].kinds)) == Scan(|groups[0].kinds|, fs, rest)
    ensures ReadGroups(s, groups) == (var r := ReadGroups(rest, groups[1..]); Groups(r.ok, [fs] + r.values, r.rest))
  {
  }

  lemma {:induction false} FitsTail(values: seq<seq<Field>>, groups: seq<Group>)
    requires groups != [] && Fits(values, groups)
    ensures Kinds(values[0]) == groups[0].kinds && Fits(values[1..], groups[1..])
  {
    forall i | 0 <= i < |groups[1..]|
      ensures Kinds(values[1..][i]) == groups[1..][i].kinds
    {
      assert groups[1..][i] == groups[i + 1];
    }
  }

  lemma {:induction false} KeywordedTail(groups: seq<Group>)
    requires groups != [] && Keyworded(groups)
    ensures Keyworded(groups[1..])
  {
    forall i | 0 <= i < |groups[1..]|
      ensures groups[1..][i].keyword != [] && !IsSpace(groups[1..][i].keyword[0])
    {
      assert groups[1..][i] == groups[i + 1];
    }
  }

  lemma {:induction false} WritesAllCons(layouts: seq<Layout>, values: seq<seq<Field>>)
    requires values != [] && WritesAll(layouts, values)
    ensures Writes(layouts[0], values[0]) && WritesAll(layouts[1..], values[1..])
  {
    forall i | 0 <= i < |values[1..]|
      ensures Writes(layouts[1..][i], values[1..][i]) && Even(layouts[1..][i])
    {
      assert layouts[1..][i] == layouts[i + 1] && values[1..][i] == values[i + 1];
    }
  }

  lemma {:induction false} DirectiveTextCons(groups: seq<Group>, layouts: seq<Layout>, rest: seq<Elem>)
    requires groups != [] && |layouts| == |groups| && AllEven(layouts)
    ensures Even(layouts[0]) && AllEven(layouts[1..])
    ensures DirectiveText(groups, layouts) + rest
         == KeywordText(groups[0].keyword, layouts[0]) + (DirectiveText(groups[1..], layouts[1..]) + rest)
  {
    assert AllEven(layouts[1..]) by {
      forall i | 0 <= i < |layouts[1..]|
        ensures Even(layouts[1..][i])
      {
        assert layouts[1..][i] == layouts[i + 1];
      }
    }
  }

  /** Reading a run of groups from their text stores every value in order and
      stops right after the last one, whatever blanks the text uses and
      whichever accepted token each value is written as. */
  lemma {:induction false} ReadGroupsText(groups: seq<Group>, values: seq<seq<Field>>, layouts: seq<Layout>, rest: seq<Elem>)
    requires Keyworded(groups) && Fits(values, groups) && WritesAll(layouts, values)
    ensures ReadGroups(DirectiveText(groups, layouts) + rest, groups) == Groups(true, values, rest)
    decreases |groups|
  {
    if groups == [] {
      assert DirectiveText(groups, layouts) + rest == rest;
    } else {
      var tail := DirectiveText(groups[1..], layouts[1..]) + rest;
      DirectiveTextCons(groups, layouts, rest);
      WritesAllCons(layouts, values);
      FitsTail(values, groups);
      KeywordedTail(groups);
      ScanKeywordText(groups[0].keyword, values[0], layouts[0], tail);
      ReadGroupsCons(DirectiveText(groups, layouts) + rest, groups, values[0], tail);
      ReadGroupsText(groups[1..], values[1..], layouts[1..], rest);
      assert [values[0]] + values[1..] == values;
    }
  }

  /** When the first k groups are read and the call for group k then returns
      anything but its full count, the calls stop there with failure, and the
      input left is what that call left. */
  lemma {:induction false} ReadGroupsFailsAt(groups: seq<Group>, values: seq<seq<Field>>, layouts: seq<Layout>, k: nat, u: seq<Elem>)
    requires Keyworded(groups) && k < |groups| && Fits(values, groups[..k]) && WritesAll(layouts, values)
    requires Scanf(u, KeywordFormat(groups[k].keyword, groups[k].kinds)).count != |groups[k].kinds|
    ensures !ReadGroups(DirectiveText(groups[..k], layouts) + u, groups).ok
    ensures ReadGroups(DirectiveText(groups[..k], layouts) + u, groups).rest
         == Scanf(u, KeywordFormat(groups[k].keyword, groups[k].kinds)).rest
    decreases k
  {
    if k == 0 {
      assert DirectiveText(groups[..k], layouts) + u == u;
    } else {
      var pre := groups[..k];
      var tail := DirectiveText(pre[1..], layouts[1..]) + u;
      assert pre[1..] == groups[1..][..k - 1];
      assert pre[0] == groups[0];
      DirectiveTextCons(pre, layouts, u);
      WritesAllCons(layouts, values);
      FitsTail(values, pre);
      KeywordedTail(groups);
      ScanKeywordText(groups[0].keyword, values[0], layouts[0], tail);
      ReadGroupsCons(DirectiveText(pre, layouts) + u, groups, values[0], tail);
      assert groups[1..][k - 1] == groups[k];
      ReadGroupsFailsAt(groups[1..], values[1..], layouts[1..], k - 1, u);
    }
  }

  function Vec3Fields(v: Vec3): seq<Field>
  {
    [FloatField(v.x), FloatField(v.y), FloatField(v.z)]
  }

  /** The values of a view, grouped as the viewport directive writes them. */
  function ViewValues(v: View): seq<seq<Field>>
  {
    [Vec3Fields(v.from), Vec3Fields(v.at), Vec3Fields(v.up), [FloatField(v.angle)],
     [FloatField(v.hither)], [IntField(v.xres), IntField(v.yres)]]
  }

  /** A viewport directive body, laid out with the given blanks:
      " from x y z at x y z up x y z angle a hither h resolution w h". */
  function ViewText(v: View, layouts: seq<Layout>): seq<Elem>
    requires WritesAll(layouts, ViewValues(v))
  {
    DirectiveText(ViewportGrammar, layouts)
  }

  /** The directive on one line, one space between the pieces. */
  function OneLine(v: View): (layouts: seq<Layout>)
    ensures WritesAll(layouts, ViewValues(v))
  {
    Uniform(ViewValues(v), [Chr(' ')], [Chr(' ')])
  }

  lemma {:induction false} ViewValuesFit(v: View)
    ensures Fits(ViewValues(v), ViewportGrammar)
  {
    assert Kinds(Vec3Fields(v.from)) == F3 && Kinds(Vec3Fields(v.at)) == F3 && Kinds(Vec3Fields(v.up)) == F3;
    assert Kinds([FloatField(v.angle)]) == F1 && Kinds([FloatField(v.hither)]) == F1;
    assert Kinds([IntField(v.xres), IntField(v.yres)]) == I2;
  }

  /** Assembling the values of a view gives the view back, hither clamped. */
  lemma {:induction false} AssembleViewValues(v: View)
    requires Conforms(ViewValues(v), ViewportGrammar)
    ensures AssembleView(ViewValues(v)) == v.(hither := ClampHither(v.hither))
  {
  }

  /** A well-formed viewport directive, with any blanks between its pieces
      (spaces, tabs, line breaks, or none before a keyword), is accepted and
      stored field by field: hither becomes 1.0 when it is below 0.0001 and is
      kept exactly otherwise, the resolution goes to xres and yres in order,
      nothing else in the scene changes, and the input after the directive is
      left unread. */
  lemma {:induction false} ViewportRoundTrip(v: View, layouts: seq<Layout>, rest: seq<Elem>, info: SceneInfo)
    requires WritesAll(layouts, ViewValues(v))
    ensures ParseViewport(ViewText(v, layouts) + rest, info)
         == Step(true, info.(view := v.(hither := if v.hither < 0.0001 then 1.0 else v.hither)), rest)
  {
    ViewValuesFit(v);
    ViewportKeyworded();
    ReadGroupsText(ViewportGrammar, ViewValues(v), layouts, rest);
    AssembleViewValues(v);
  }

  /** "v\nfrom 0 0 0\nat 0 0 -1\n...": each group on a line of its own. */
  lemma {:induction false} ViewportOverSeveralLines(v: View, rest: seq<Elem>, info: SceneInfo)
    ensures ParseViewport(ViewText(v, Uniform(ViewValues(v), [Chr('\n')], [Chr(' ')])) + rest, info)
         == Step(true, info.(view := v.(hither := if v.hither < 0.0001 then 1.0 else v.hither)), rest)
  {
    ViewportRoundTrip(v, Uniform(ViewValues(v), [Chr('\n')], [Chr(' ')]), rest, info);
  }

  /** After k complete groups, the handler's fate is decided by the fscanf call
      of group k: when it returns anything but its full count, the handler
      returns false, leaves the scene untouched, and the dispatch loop resumes
      wherever that call stopped reading. */
  lemma {:induction false} ViewportFailsAt(values: seq<seq<Field>>, layouts: seq<Layout>, k: nat, u: seq<Elem>, info: SceneInfo)
    requires k < |ViewportGrammar| && Fits(values, ViewportGrammar[..k]) && WritesAll(layouts, values)
    requires Scanf(u, KeywordFormat(ViewportGrammar[k].keyword, ViewportGrammar[k].kinds)).count
          != |ViewportGrammar[k].kinds|
    ensures ParseViewport(DirectiveText(ViewportGrammar[..k], layouts) + u, info)
         == Step(false, info, Scanf(u, KeywordFormat(ViewportGrammar[k].keyword, ViewportGrammar[k].kinds)).rest)
  {
    ViewportKeyworded();
    ReadGroupsFailsAt(ViewportGrammar, values, layouts, k, u);
  }

  /** A keyword that is missing, misspelt or out of order: after k complete
      groups and blanks, the input spells the first j letters of keyword k and
      then differs (or ends). The handler fails; those letters are consumed
      and the loop resumes at the differing element. So `angle` where `at` is
      expected loses its 'a', and the loop next sees 'n'. */
  lemma {:induction false} ViewportKeywordMismatch(values: seq<seq<Field>>, layouts: seq<Layout>, k: nat, w: seq<Elem>, j: nat,
                                t: seq<Elem>, info: SceneInfo)
    requires k < |ViewportGrammar| && Fits(values, ViewportGrammar[..k]) && WritesAll(layouts, values)
    requires AllScanSpace(w) && j < |ViewportGrammar[k].keyword|
    requires t == [] || (t[0] != Chr(ViewportGrammar[k].keyword[j]) && (j == 0 ==> !IsSpaceElem(t[0])))
    ensures ParseViewport(DirectiveText(ViewportGrammar[..k], layouts)
                          + (w + (Chrs(ViewportGrammar[k].keyword[..j]) + t)), info)
         == Step(false, info, t)
  {
    ViewportKeyworded();
    ScanKeywordMismatch(w, ViewportGrammar[k].keyword, j, t, ViewportGrammar[k].kinds);
    ViewportFailsAt(values, layouts, k, w + (Chrs(ViewportGrammar[k].keyword[..j]) + t), info);
  }

  /** A group with too few values or a value token its conversion rejects:
      after k complete groups, keyword k and its first values `fs` are
      present, but after blanks the next value is missing or is a token the
      conversion does not accept (a character, or a real token for `%d`). The
      handler fails and the loop resumes at that element. */
  lemma {:induction false} ViewportValueMismatch(values: seq<seq<Field>>, layouts: seq<Layout>, k: nat, fs: seq<Field>, g: Layout,
                              w: seq<Elem>, t: seq<Elem>, info: SceneInfo)
    requires k < |ViewportGrammar| && Fits(values, ViewportGrammar[..k]) && WritesAll(layouts, values)
    requires |fs| < |ViewportGrammar[k].kinds| && Kinds(fs) == ViewportGrammar[k].kinds[..|fs|]
    requires Writes(g, fs) && AllScanSpace(w)
    requires t == [] || (!IsSpaceElem(t[0]) && Converted(ViewportGrammar[k].kinds[|fs|], t[0]).None?)
    ensures ParseViewport(DirectiveText(ViewportGrammar[..k], layouts)
                          + (KeywordText(ViewportGrammar[k].keyword, g) + (w + t)), info)
         == Step(false, info, t)
  {
    ViewportKeyworded();
    ScanValueMismatch(ViewportGrammar[k].keyword, fs, g, w, t, ViewportGrammar[k].kinds);
    ViewportFailsAt(values, layouts, k, KeywordText(ViewportGrammar[k].keyword, g) + (w + t), info);
  }

  /** In particular a viewport must start with `from`. */
  lemma {:induction false} ViewportNeedsFromFirst(w: seq<Elem>, t: seq<Elem>, info: SceneInfo)
    requires AllScanSpace(w)
    requires t == [] || (!IsSpaceElem(t[0]) && t[0] != Chr('f'))
    ensures ParseViewport(w + t, info) == Step(false, info, t)
  {
    ViewportKeywordMismatch([], [], 0, w, 0, t, info);
    assert DirectiveText(ViewportGrammar[..0], []) + (w + (Chrs(ViewportGrammar[0].keyword[..0]) + t)) == w + t;
  }

  predicate AllLoopSpace(w: seq<Elem>)
  {
    forall i :: 0 <= i < |w| ==> IsLoopSpace(w[i])
  }

  /** One turn of the loop on a non-blank element: run its handler, stop if it
      returned true, otherwise carry on where it stopped reading. */
  lemma {:induction false} DispatchStep(e: Elem, t: seq<Elem>, info: SceneInfo)
    requires !IsLoopSpace(e)
    ensures Dispatch([e] + t, info)
         == (var failed := Handle(e, t, info);
             if failed.returned then ParseResult(true, failed.info) else Dispatch(failed.rest, failed.info))
  {
    assert ([e] + t)[0] == e;
    assert ([e] + t)[1..] == t;
  }

  /** Blank characters are skipped without touching the scene. */
  lemma {:induction false} SkipLoopSpace(w: seq<Elem>, s: seq<Elem>, info: SceneInfo)
    requires AllLoopSpace(w)
    ensures Dispatch(w + s, info) == Dispatch(s, info)
    decreases |w|
  {
    if w == [] {
      assert w + s == s;
    } else {
      assert (w + s)[0] == w[0];
      assert (w + s)[1..] == w[1..] + s;
      SkipLoopSpace(w[1..], s, info);
    }
  }

  /** A file of blanks only runs the loop to the end of input: ParseFile returns false. */
  lemma {:induction false} BlankFileReturnsFalse(w: seq<Elem>, info: SceneInfo)
    requires AllLoopSpace(w)
    ensures ParseFile(Some(w), info) == ParseResult(false, info)
  {
    SkipLoopSpace(w, [], info);
    assert w + [] == w;
  }

  /** Any first directive character other than '#', '%' or 'v' is an unknown
      instruction: the loop stops at once and ParseFile returns true with the
      scene untouched. */
  lemma {:induction false} UnknownInstructionStops(w: seq<Elem>, e: Elem, t: seq<Elem>, info: SceneInfo)
    requires AllLoopSpace(w)
    requires !IsLoopSpace(e) && e != Chr('#') && e != Chr('%') && e != Chr('v')
    ensures ParseFile(Some(w + [e] + t), info) == ParseResult(true, info)
  {
    var x := w + [e] + t;
    assert x == w + ([e] + t);
    SkipLoopSpace(w, [e] + t, info);
    DispatchStep(e, t, info);
    assert ParseFile(Some(x), info) == Dispatch(x, info);
  }

  /** A vertical tab is blank to fscanf but not to the dispatch loop, which
      reports it as an unknown instruction. */
  lemma {:induction false} VerticalTabIsUnknown(t: seq<Elem>, info: SceneInfo)
    ensures ParseFile(Some([Chr('\U{0B}')] + t), info) == ParseResult(true, info)
  {
    UnknownInstructionStops([], Chr('\U{0B}'), t, info);
    assert [] + [Chr('\U{0B}')] + t == [Chr('\U{0B}')] + t;
  }

  /** A comment succeeds, so it ends the loop: ParseFile returns true, scene unchanged. */
  lemma {:induction false} CommentStops(w: seq<Elem>, e: Elem, t: seq<Elem>, info: SceneInfo)
    requires AllLoopSpace(w)
    requires e == Chr('#') || e == Chr('%')
    ensures ParseFile(Some(w + [e] + t), info) == ParseResult(true, info)
  {
    var x := w + [e] + t;
    assert x == w + ([e] + t);
    SkipLoopSpace(w, [e] + t, info);
    DispatchStep(e, t, info);
    assert ParseFile(Some(x), info) == Dispatch(x, info);
  }

  /** A successful viewport ends the loop: ParseFile returns true with the new view. */
  lemma {:induction false} ViewportSuccessStops(w: seq<Elem>, t: seq<Elem>, info: SceneInfo)
    requires AllLoopSpace(w)
    requires ParseViewport(t, info).returned
    ensures ParseFile(Some(w + [Chr('v')] + t), info) == ParseResult(true, ParseViewport(t, info).info)
  {
    var x := w + [Chr('v')] + t;
    assert x == w + ([Chr('v')] + t);
    SkipLoopSpace(w, [Chr('v')] + t, info);
    DispatchStep(Chr('v'), t, info);
    assert ParseFile(Some(x), info) == Dispatch(x, info);
  }

  /** A failed viewport returns false, which does not stop the loop: parsing
      carries on from wherever the failing fscanf stopped, with the scene unchanged. */
  lemma {:induction false} ViewportFailureResumes(w: seq<Elem>, t: seq<Elem>, info: SceneInfo)
    requires AllLoopSpace(w)
    requires !ParseViewport(t, info).returned
    ensures ParseFile(Some(w + [Chr('v')] + t), info) == Dispatch(ParseViewport(t, info).rest, info)
  {
    var x := w + [Chr('v')] + t;
    assert x == w + ([Chr('v')] + t);
    SkipLoopSpace(w, [Chr('v')] + t, info);
    DispatchStep(Chr('v'), t, info);
    assert ParseFile(Some(x), info) == Dispatch(x, info);
  }

  /** A complete viewport directive, after any blanks, ends the parse with the
      view stored and hither clamped. */
  lemma {:induction false} ViewportDirectiveStops(w: seq<Elem>, v: View, layouts: seq<Layout>, rest: seq<Elem>, info: SceneInfo)
    requires AllLoopSpace(w) && WritesAll(layouts, ViewValues(v))
    ensures ParseFile(Some(w + [Chr('v')] + (ViewText(v, layouts) + rest)), info)
         == ParseResult(true, info.(view := v.(hither := if v.hither < 0.0001 then 1.0 else v.hither)))
  {
    ViewportRoundTrip(v, layouts, rest, info);
    ViewportSuccessStops(w, ViewText(v, layouts) + rest, info);
  }

  /** "v from 0 0 0 at 0 0 -1 up 0 1 0 angle 45 hither 0.001 resolution 100 100":
      ParseFile returns true and stores the view as read. 0.001 is not below
      0.0001, so hither is kept, not clamped. */
  lemma {:induction false} SmallHitherKept(info: SceneInfo)
    ensures ParseFile(Some([Chr('v')] + ViewText(HitherView(0.001), OneLine(HitherView(0.001)))), info)
         == ParseResult(true, info.(view := HitherView(0.001)))
  {
    var text := ViewText(HitherView(0.001), OneLine(HitherView(0.001)));
    ViewportDirectiveStops([], HitherView(0.001), OneLine(HitherView(0.001)), [], info);
    assert [] + [Chr('v')] + (text + []) == [Chr('v')] + text;
  }

  /** The same directive with hither 0.00001 stores hither 1.0. */
  lemma {:induction false} TinyHitherClamped(info: SceneInfo)
    ensures ParseFile(Some([Chr('v')] + ViewText(HitherView(0.00001), OneLine(HitherView(0.00001)))), info)
         == ParseResult(true, info.(view := HitherView(1.0)))
  {
    var text := ViewText(HitherView(0.00001), OneLine(HitherView(0.00001)));
    ViewportDirectiveStops([], HitherView(0.00001), OneLine(HitherView(0.00001)), [], info);
    assert [] + [Chr('v')] + (text + []) == [Chr('v')] + text;
  }

  /** The one-line directive of a view with a fractional hither is written
      "from 0 0 0 at 0 0 -1 up 0 1 0 angle 45 hither h resolution 100 100":
      every whole number is an integer token, and only hither is a real token. */
  lemma {:induction false} HitherTokens(h: real)
    requires h != h.Floor as real
    ensures OneLine(HitherView(h))[0].tokens == [Int(0), Int(0), Int(0)]
    ensures OneLine(HitherView(h))[1].tokens == [Int(0), Int(0), Int(-1)]
    ensures OneLine(HitherView(h))[2].tokens == [Int(0), Int(1), Int(0)]
    ensures OneLine(HitherView(h))[3].tokens == [Int(45)]
    ensures OneLine(HitherView(h))[4].tokens == [Real(h)]
    ensures OneLine(HitherView(h))[5].tokens == [Int(100), Int(100)]
  {
  }

  /** from (0,0,0), at (0,0,-1), up (0,1,0), angle 45, resolution 100 x 100. */
  function HitherView(hither: real): View
  {
    View(Vec3(0.0, 0.0, 0.0), Vec3(0.0, 0.0, -1.0), Vec3(0.0, 1.0, 0.0), 45.0, hither, 100, 100)
  }

  /** A viewport that fails before reading anything is invisible to ParseFile. */
  lemma {:induction false} SkipEmptyFailedViewport(t: seq<Elem>, info: SceneInfo)
    requires ParseViewport(t, info) == Step(false, info, t)
    ensures ParseFile(Some([Chr('v')] + t), info) == ParseFile(Some(t), info)
  {
    HandleViewport(t, info);
    DispatchStep(Chr('v'), t, info);
    ParseFileOpened(t, info);
    ParseFileOpened([Chr('v')] + t, info);
  }

  lemma {:induction false} HandleViewport(t: seq<Elem>, info: SceneInfo)
    ensures Handle(Chr('v'), t, info) == ParseViewport(t, info)
  {
  }

  lemma {:induction false} ParseFileOpened(s: seq<Elem>, info: SceneInfo)
    ensures ParseFile(Some(s), info) == Dispatch(s, info)
  {
  }

  /** "vv from ...": the first 'v' is a viewport whose `from` does not match, so
      it fails without consuming the second 'v'; the loop then reads that 'v' as
      a new viewport directive, which succeeds. */
  lemma {:induction false} RetryAfterMalformedViewport(v: View, layouts: seq<Layout>, rest: seq<Elem>, info: SceneInfo)
    requires WritesAll(layouts, ViewValues(v))
    ensures ParseFile(Some([Chr('v'), Chr('v')] + (ViewText(v, layouts) + rest)), info)
         == ParseResult(true, info.(view := v.(hither := if v.hither < 0.0001 then 1.0 else v.hither)))
  {
    var u := ViewText(v, layouts) + rest;
    assert [Chr('v'), Chr('v')] + u == [Chr('v')] + ([Chr('v')] + u);
    ViewportRejectsLeadingV(u, info);
    SkipEmptyFailedViewport([Chr('v')] + u, info);
    LeadingViewportDirective(v, layouts, rest, info);
  }

  lemma {:induction false} ViewportRejectsLeadingV(u: seq<Elem>, info: SceneInfo)
    ensures ParseViewport([Chr('v')] + u, info) == Step(false, info, [Chr('v')] + u)
  {
    ViewportNeedsFromFirst([], [Chr('v')] + u, info);
    assert [] + ([Chr('v')] + u) == [Chr('v')] + u;
  }

  lemma {:induction false} LeadingViewportDirective(v: View, layouts: seq<Layout>, rest: seq<Elem>, info: SceneInfo)
    requires WritesAll(layouts, ViewValues(v))
    ensures ParseFile(Some([Chr('v')] + (ViewText(v, layouts) + rest)), info)
         == ParseResult(true, info.(view := v.(hither := if v.hither < 0.0001 then 1.0 else v.hither)))
  {
    ViewportDirectiveStops([], v, layouts, rest, info);
    assert [] + [Chr('v')] + (ViewText(v, layouts) + rest) == [Chr('v')] + (ViewText(v, layouts) + rest);
  }

  /** A failed viewport that leaves an unknown instruction after blanks ends
      the parse with true: false is returned only when the loop reaches the
      end of the input. */
  lemma {:induction false} ViewportFailureThenUnknown(w: seq<Elem>, t: seq<Elem>, w2: seq<Elem>, e: Elem, t2: seq<Elem>, info: SceneInfo)
    requires AllLoopSpace(w) && AllLoopSpace(w2)
    requires !IsLoopSpace(e) && e != Chr('#') && e != Chr('%') && e != Chr('v')
    requires ParseViewport(t, info) == Step(false, info, w2 + [e] + t2)
    ensures ParseFile(Some(w + [Chr('v')] + t), info) == ParseResult(true, info)
  {
    ViewportFailureResumes(w, t, info);
    UnknownInstructionStops(w2, e, t2, info);
    ParseFileOpened(w2 + [e] + t2, info);
  }

  /** The same at the very start of the file. */
  lemma {:induction false} LeadingFailedViewportThenUnknown(t: seq<Elem>, e: Elem, t2: seq<Elem>, info: SceneInfo)
    requires !IsLoopSpace(e) && e != Chr('#') && e != Chr('%') && e != Chr('v')
    requires ParseViewport(t, info) == Step(false, info, [e] + t2)
    ensures ParseFile(Some([Chr('v')] + t), info) == ParseResult(true, info)
  {
    HandleViewport(t, info);
    DispatchStep(Chr('v'), t, info);
    DispatchStep(e, t2, info);
    ParseFileOpened([Chr('v')] + t, info);
  }

  /** " from a b": the `from` keyword with only two number tokens, one space before each piece. */
  function ShortFrom(a: Elem, b: Elem): seq<Elem>
  {
    KeywordText("from", Layout([Chr(' ')], [[Chr(' ')], [Chr(' ')]], [a, b]))
  }

  /** " from a b c...": the third conversion of `from` meets the character c,
      so the handler fails there without reading it. The two numbers may be
      integer or real tokens. */
  lemma {:induction false} ShortFromFails(a: Elem, b: Elem, c: char, t: seq<Elem>, info: SceneInfo)
    requires !a.Chr? && !b.Chr? && !IsSpace(c)
    ensures ParseViewport(ShortFrom(a, b) + ([Chr(' ')] + ([Chr(c)] + t)), info) == Step(false, info, [Chr(c)] + t)
  {
    var fs := [FloatField(a.Number()), FloatField(b.Number())];
    var g := Layout([Chr(' ')], [[Chr(' ')], [Chr(' ')]], [a, b]);
    assert Converted(FloatConv, a) == Some(fs[0]) && Converted(FloatConv, b) == Some(fs[1]);
    assert Kinds(fs) == ViewportGrammar[0].kinds[..2];
    ViewportValueMismatch([], [], 0, fs, g, [Chr(' ')], [Chr(c)] + t, info);
    assert DirectiveText(ViewportGrammar[..0], []) + (ShortFrom(a, b) + ([Chr(' ')] + ([Chr(c)] + t)))
        == ShortFrom(a, b) + ([Chr(' ')] + ([Chr(c)] + t));
  }

  /** "v from 1 2 at ...": `from` has only two values, so the third conversion
      meets 'a' and the handler fails there; the loop then reads 'a' (or any
      other character that starts no directive) as an unknown instruction, and
      ParseFile returns true with the view untouched. */
  lemma {:induction false} ShortFromThenUnknown(a: Elem, b: Elem, c: char, t: seq<Elem>, info: SceneInfo)
    requires !a.Chr? && !b.Chr? && !IsSpace(c) && c != '#' && c != '%' && c != 'v'
    ensures ParseFile(Some([Chr('v')] + (ShortFrom(a, b) + ([Chr(' ')] + ([Chr(c)] + t)))), info)
         == ParseResult(true, info)
  {
    ShortFromFails(a, b, c, t, info);
    LeadingFailedViewportThenUnknown(ShortFrom(a, b) + ([Chr(' ')] + ([Chr(c)] + t)), Chr(c), t, info);
  }

  /** A comment line shorter than the fgets limit is consumed through its newline. */
  lemma {:induction false} CommentConsumesLine(line: seq<Elem>, t: seq<Elem>, info: SceneInfo)
    requires |line| < CommentLimit
    requires forall i :: 0 <= i < |line| ==> line[i] != Chr('\n')
    ensures ParseComment(line + [Chr('\n')] + t, info) == Step(true, info, t)
  {
    var s := line + [Chr('\n')] + t;
    var n := LineLength(s, CommentLimit);
    assert s[|line|] == Chr('\n');
    assert forall i :: 0 <= i < |line| ==> s[i] == line[i];
    assert n == |line| + 1;
    assert s[n..] == t;
  }

  /** A line longer than the fgets limit is consumed only up to the limit. */
  lemma {:induction false} CommentStopsAtLimit(s: seq<Elem>, info: SceneInfo)
    requires |s| >= CommentLimit
    requires forall i :: 0 <= i < CommentLimit ==> s[i] != Chr('\n')
    ensures ParseComment(s, info) == Step(true, info, s[CommentLimit..])
  {
  }

  /** A last line with no newline is consumed to the end of the file, after
      which the dispatch loop meets end-of-file. */
  lemma {:induction false} CommentReachesEndOfFile(s: seq<Elem>, info: SceneInfo)
    requires |s| < CommentLimit
    requires forall i :: 0 <= i < |s| ==> s[i] != Chr('\n')
    ensures ParseComment(s, info) == Step(true, info, [])
  {
  }
}
