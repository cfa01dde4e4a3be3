/** BARTParser::ParseFile and the two directive handlers it dispatches to
    (bart_impl/BARTParser.cpp). Every handler returns true when it succeeds,
    and the dispatcher stores that value in a variable named `failed`: a
    successful directive therefore ends the loop and ParseFile returns true,
    while a viewport syntax error returns false and the loop carries on. */
module Parser {
  import opened Wrappers
  import opened Geometry
  import opened Scene
  import opened Stream

  /** A handler's outcome: the bool it returned, the scene after it, and the
      input it left unread. */
  datatype Step = Step(returned: bool, info: SceneInfo, rest: seq<Elem>)

  /** What ParseFile returns, and the scene it leaves behind. */
  datatype ParseResult = ParseResult(returned: bool, info: SceneInfo)

  /** The characters the dispatch loop skips. Unlike isspace, '\v' is not among them. */
  predicate IsLoopSpace(e: Elem)
  {
    e.Chr? && (e.c == ' ' || e.c == '\t' || e.c == '\n' || e.c == '\U{0C}' || e.c == '\r')
  }

  /** fgets(str, 1000, scene) stores at most 999 characters. */
  const CommentLimit: nat := 999

  /** How many elements fgets consumes: through the first newline, but never
      more than `limit` elements and never past the end of the input. */
  function LineLength(s: seq<Elem>, limit: nat): (n: nat)
    ensures n <= limit && n <= |s|
    ensures forall i :: 0 <= i < n - 1 ==> s[i] != Chr('\n')
    ensures n == |s| || n == limit || (0 < n && s[n - 1] == Chr('\n'))
    decreases limit
  {
    if limit == 0 || s == [] then 0
    else if s[0] == Chr('\n') then 1
    else 1 + LineLength(s[1..], limit - 1)
  }

  /** parse_comment: reads the rest of the line and always succeeds. */
  function ParseComment(s: seq<Elem>, info: SceneInfo): (r: Step)
    ensures r.returned && r.info == info
    ensures IsSuffix(r.rest, s)
  {
    Step(true, info, s[LineLength(s, CommentLimit)..])
  }

  const F3: seq<Conv> := [FloatConv, FloatConv, FloatConv]
  const F1: seq<Conv> := [FloatConv]
  const I2: seq<Conv> := [IntConv, IntConv]

  /** One fscanf call of the viewport handler: " <keyword> %f ..." with these conversions. */
  datatype Group = Group(keyword: string, kinds: seq<Conv>)

  /** The six fscanf calls of parse_viewport, in the order it makes them. */
  const ViewportGrammar: seq<Group> := [
    Group("from", F3),
    Group("at", F3),
    Group("up", F3),
    Group("angle", F1),
    Group("hither", F1),
    Group("resolution", I2)
  ]

  /** Values stored by successive groups: one list per group, each of the kinds it asks for. */
  predicate Conforms(values: seq<seq<Field>>, groups: seq<Group>)
  {
    && |values| == |groups|
    && (forall i :: 0 <= i < |groups| ==> |values[i]| == |groups[i].kinds|)
    && (forall i, j :: 0 <= i < |groups| && 0 <= j < |values[i]| ==> values[i][j].Kind() == groups[i].kinds[j])
  }

  /** The outcome of a run of fscanf calls: whether every call converted all
      its values, the values of the calls, and the input left unread. */
  datatype Groups = Groups(ok: bool, values: seq<seq<Field>>, rest: seq<Elem>)

  /** Makes the fscanf calls in order and stops at the first one whose return
      value is not the number of conversions it asked for. */
  function ReadGroups(s: seq<Elem>, groups: seq<Group>): (r: Groups)
    ensures IsSuffix(r.rest, s)
    ensures r.ok ==> Conforms(r.values, groups)
    decreases |groups|
  {
    if groups == [] then Groups(true, [], s)
    else
      var g := Scanf(s, KeywordFormat(groups[0].keyword, groups[0].kinds));
      if g.count != |groups[0].kinds| then Groups(false, [], g.rest)
      else
        KeywordFormatKinds(groups[0].keyword, groups[0].kinds);
        ScanfKinds(s, KeywordFormat(groups[0].keyword, groups[0].kinds));
        var r := ReadGroups(g.rest, groups[1..]);
        Groups(r.ok, [g.fields] + r.values, r.rest)
  }

  /** The smallest hither kept as read; hither < 0.0001 is stored as 1.0. */
  const MinHither: real := 0.0001

  function ClampHither(h: real): (r: real)
    ensures r >= MinHither
    ensures h >= MinHither ==> r == h
    ensures h < MinHither ==> r == 1.0
  {
    if h < MinHither then 1.0 else h
  }

  function VecOf(fs: seq<Field>): Vec3
    requires |fs| == 3 && forall j :: 0 <= j < 3 ==> fs[j].FloatField?
  {
    Vec3(fs[0].f, fs[1].f, fs[2].f)
  }

  /** `mView = {from, at, up, fov, hither, resx, resy}` with hither already clamped. */
  function AssembleView(values: seq<seq<Field>>): View
    requires Conforms(values, ViewportGrammar)
  {
    assert forall j :: 0 <= j < 3 ==> values[0][j].Kind() == FloatConv && values[1][j].Kind() == FloatConv && values[2][j].Kind() == FloatConv;
    assert values[3][0].Kind() == FloatConv && values[4][0].Kind() == FloatConv;
    assert values[5][0].Kind() == IntConv && values[5][1].Kind() == IntConv;
    View(VecOf(values[0]), VecOf(values[1]), VecOf(values[2]), values[3][0].f,
         ClampHither(values[4][0].f), values[5][0].d, values[5][1].d)
  }

  /** parse_viewport: the first fscanf that does not convert all its values
      makes the handler return false; the view is written only once every
      group has been read. */
  function ParseViewport(s: seq<Elem>, info: SceneInfo): (r: Step)
    ensures IsSuffix(r.rest, s)
    ensures !r.returned ==> r.info == info
    ensures r.returned ==> r.info == info.(view := r.info.view)
    ensures r.returned ==> r.info.view.hither >= MinHither
  {
    var g := ReadGroups(s, ViewportGrammar);
    if !g.ok then Step(false, info, g.rest)
    else Step(true, info.(view := AssembleView(g.values)), g.rest)
  }

  /** The switch of the dispatch loop for one non-blank element. Numbers start
      with a character outside the switch, so they reach the default branch. */
  function Handle(e: Elem, s: seq<Elem>, info: SceneInfo): (r: Step)
    ensures IsSuffix(r.rest, s)
    ensures !r.returned ==> r.info == info
    ensures r.info == info.(view := r.info.view)
  {
    if e == Chr('#') || e == Chr('%') then ParseComment(s, info)
    else if e == Chr('v') then ParseViewport(s, info)
    else Step(true, info, s)
  }

  /** The dispatch loop over the rest of the file. */
  function Dispatch(s: seq<Elem>, info: SceneInfo): (r: ParseResult)
    ensures !r.returned ==> r.info == info
    ensures r.info == info.(view := r.info.view)
    decreases |s|
  {
    if s == [] then ParseResult(false, info)
    else if IsLoopSpace(s[0]) then Dispatch(s[1..], info)
    else
      var failed := Handle(s[0], s[1..], info);
      if failed.returned then ParseResult(true, failed.info)
      else Dispatch(failed.rest, failed.info)
  }

  /** BARTParser::ParseFile. `file` is None when fopen fails. */
  function ParseFile(file: Option<seq<Elem>>, info: SceneInfo): (r: ParseResult)
    ensures file.None? ==> r == ParseResult(false, info)
    ensures !r.returned ==> r.info == info
    ensures r.info == info.(view := r.info.view)
  {
    match file
    case None => ParseResult(false, info)
    case Some(s) => Dispatch(s, info)
  }

  /** The while loop of ParseFile as written: `failed` is assigned each
      handler's result, the loop breaks as soon as it is true, and its final
      value is returned. */
  method RunParseFile(file: Option<seq<Elem>>, info: SceneInfo) returns (failed: bool, scene: SceneInfo)
    ensures ParseResult(failed, scene) == ParseFile(file, info)
    ensures !failed ==> scene == info
  {
    if file.None? {
      return false, info;
    }
    var s := file.value;
    failed := false;
    scene := info;
    while s != []
      invariant !failed
      invariant scene == info
      invariant Dispatch(s, scene) == ParseFile(file, info)
      decreases |s|
    {
      var ch := s[0];
      s := s[1..];
      if IsLoopSpace(ch) {
        continue;
      }
      var step := Handle(ch, s, scene);
      failed := step.returned;
      scene := step.info;
      s := step.rest;
      if failed {
        break;
      }
    }
  }
}
