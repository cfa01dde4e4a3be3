# BART scene-file reader: dispatcher, viewport directive and shape records

A Dafny model of two pieces of the BART (Benchmark for Animated Ray Tracing)
scene reader in `bart_impl/`:

- `BARTParser::ParseFile`, the character-driven loop that skips blanks and
  routes `#`/`%` to `parse_comment` and `v` to `parse_viewport`, together with
  those two handlers. The file is a sequence of elements (`Stream.Elem`):
  single characters and number tokens that are already converted. `fscanf`
  is modelled as a small format interpreter (`Stream.Scanf`) with
  whitespace directives, literal characters and `%f`/`%d` conversions. It
  returns EOF (-1) when the input ends before the first conversion, and a
  mismatched element is pushed back unread. `ParseFile` is a pure function
  from (file, scene) to (returned bool, scene). An unopenable file is
  `None`. `RunParseFile` is the `while`/`switch`/`break` loop as written,
  proved equal to it.
- The scene object model of `BARTParser.h`. There is one record per
  `BARTShape` subclass, and each holds the protected type tag. Inheritance
  is modelled by composition: `TexTrianglePatch` contains the
  `TexTriangle` its constructor chains through. The 3-slot C arrays become
  `Geometry.Triple`. The growable vectors become `seq`s. `BARTView` and
  `BARTSceneInfo` are plain records, and the object map holds shapes by
  value.

The code is followed literally. Every handler returns true when it
*succeeds*, and the loop stores that value in a variable named `failed`.
So:

- the first successful directive (a comment, a complete viewport or any
  character that starts no directive) ends the loop, and `ParseFile` returns
  true;
- a viewport with a syntax error returns false from `parse_viewport`, and the
  loop goes on with the element at which the failing `fscanf` stopped
  (`ViewportFailureResumes`, `RetryAfterMalformedViewport`). That element
  decides what happens next. In `v from 1 2 at ...` the third `%f` stops at
  the `a` of `at`, the loop reads `a` as an unknown instruction, and
  `ParseFile` returns true (`ShortFromThenUnknown`);
- `ParseFile` returns false only when the file cannot be opened, or when
  the loop reaches the end of the input: for a file of blanks
  (`BlankFileReturnsFalse`), or when the failed viewports leave nothing but
  blanks behind them.

Only `mView` is ever written. It is written once, after all six keyword
groups have been read.

Only a hither below 0.0001 is replaced. A hither of 0.001 is stored as read
(`SmallHitherKept`), and 0.00001 becomes 1.0 (`TinyHitherClamped`).

An unknown instruction ends the loop, and the code reports it by returning
true, the same value as a success (`UnknownInstructionStops`).

The blank at the start of each `fscanf` format, and before each conversion,
skips any run of isspace characters, including none. A viewport directive
may therefore be spread over several lines, or use tabs or several spaces
between its pieces. A value may also be written as any token its
conversion accepts: `%f` reads `0` (an integer token) and `0.5` (a real
token) alike, and `%d` reads integer tokens only. The read-back lemmas are
stated for every such text: `StreamText.Layout` holds the blank runs and the
value tokens of one keyword group, `StreamText.Writes` says that its runs
are blanks and its tokens convert to the given values, and
`ParserProperties.WritesAll` lifts that to a run of groups. The examples
write each value as `StreamText.Token`, which is an integer token for every
whole number.

Files:

- `wrappers.dfy`: `Option`.
- `geometry.dfy`: `Vec3`, `TexCoord`, `Triple`.
- `shapes.dfy`: the shape family.
- `scene.dfy`: `View`, `SceneInfo`.
- `stream.dfy`: the input model and `fscanf`.
- `stream_text.dfy`: writes values as text, with any blanks between them and any accepted token for each value, proves that `fscanf` reads them back, and where it stops on malformed text.
- `parser.dfy`: `ParseFile` and its handlers.
- `parser_properties.dfy`: properties of the dispatcher and the viewport directive.

## Model

| member | source | states |
|---|---|---|
| Parser.ParseFile | bart_impl/BARTParser.cpp:35-76 | an unopenable file returns false with the scene untouched; whenever the result is false the scene is unchanged; the only part of the scene a parse can change is the view |
| Parser.Dispatch | bart_impl/BARTParser.cpp:43-72 | the loop over the remaining input never changes anything but the view, and reaching the end of the input (result false) leaves the scene as it found it |
| Parser.RunParseFile | bart_impl/BARTParser.cpp:41-75 | the imperative loop with `continue`, `failed = handler()` and `break` returns the same bool and scene as the recursive ParseFile, and a false return comes with the unchanged scene |
| Parser.Handle | bart_impl/BARTParser.cpp:44-65 | the switch: whatever branch runs, it reads only forward, a false return leaves the scene unchanged, and only the view can change |
| Parser.LineLength | bart_impl/BARTParser.cpp:82 | fgets consumes at most 999 elements and never past the end, contains no newline except possibly as its last element, and stops exactly at a newline, the limit or the end of input |
| Parser.ParseComment | bart_impl/BARTParser.cpp:79-84 | parse_comment always returns true, leaves the scene unchanged and only consumes input |
| Parser.ReadGroups | bart_impl/BARTParser.cpp:95-128 | the fscanf calls read forward only, and when they all succeed each stored value list has exactly the length and the conversion kinds its format asks for |
| Parser.ClampHither | bart_impl/BARTParser.cpp:121-123 | a hither below 0.0001 becomes 1.0, any other is kept exactly, so the stored value is never below 0.0001 |
| Parser.ParseViewport | bart_impl/BARTParser.cpp:86-134 | on failure the scene is untouched; on success only the view changes and its hither is at least 0.0001; input is only consumed |
| Stream.SkipSpace | bart_impl/BARTParser.cpp:95 | the leading blank of a format drops exactly the maximal run of isspace characters (vertical tab included) in front of the input |
| Stream.SkipSpaceOver | bart_impl/BARTParser.cpp:95 | the blank directive in front of a run of isspace characters and a non-blank element drops exactly that run, whatever it is made of |
| Stream.Converted | bart_impl/BARTParser.cpp:95-125 | `%f` accepts any number token, `%d` only an integer token, no conversion accepts a character; the stored value has the conversion's kind and is the number the token stands for (`%f` on the integer token 45 stores 45.0) |
| Stream.Scanf | bart_impl/BARTParser.cpp:95-128 | fscanf returns EOF (storing nothing and leaving nothing) or a count between 0 and the number of conversions, stores exactly that many values, and only consumes input |
| Stream.ScanfKinds | bart_impl/BARTParser.cpp:95-125 | the values fscanf stores have, in order, the kinds of the format's conversions (`%f` a float, `%d` an int) |
| Stream.KeywordFormatKinds | bart_impl/BARTParser.cpp:95-125 | a format " keyword %f ..." converts exactly the requested kinds in order; the keyword's letters convert nothing |
| StreamText.ScanKeywordText | bart_impl/BARTParser.cpp:95-128 | fscanf with " keyword %f ..." on the keyword and its values, separated by any runs of isspace characters (none included) and each value written as any token its conversion accepts (`0` or `0.0` for `%f`), returns the number of values, stores them all in order, and leaves the following input unread |
| StreamText.ScanFields | bart_impl/BARTParser.cpp:95-128 | " %f %f ..." on tokens preceded by any blanks, each accepted by its conversion, stores each token's value in order and hands over right after the last one; the count adds up, and EOF after the last value counts as the values read |
| StreamText.Token | bart_impl/BARTParser.cpp:95-125 | the usual way to write a value is a token its own conversion reads back to the same value; whole numbers become integer tokens, even for `%f` |
| StreamText.ScanKeywordMismatch | bart_impl/BARTParser.cpp:95-128 | when, after blanks, the input spells only the first j letters of the keyword and then differs or ends, the call returns less than its full count, consuming the matched letters and leaving the differing element unread |
| StreamText.ScanValueMismatch | bart_impl/BARTParser.cpp:95-128 | when the keyword and some of its values are present (any accepted tokens, any blanks) but, after blanks, the next value is missing or is a token the model's conversion rejects (a character, or a real token for `%d`), the call returns less than its full count and leaves that element unread |
| ParserProperties.ReadGroupsText | bart_impl/BARTParser.cpp:95-128 | reading a sequence of keyword groups from their text, laid out with any blanks and with any accepted token for each value, succeeds, stores every value list in order and stops right after the last group |
| ParserProperties.ReadGroupsFailsAt | bart_impl/BARTParser.cpp:95-128 | after k complete groups (any blanks, any accepted tokens), a call for group k that returns anything but its full count makes the calls stop with failure, leaving the input exactly where that call stopped |
| ParserProperties.AssembleViewValues | bart_impl/BARTParser.cpp:131 | the view is assembled field for field from the values read: from, at, up, angle, clamped hither, then resolution into xres and yres in order |
| ParserProperties.ViewportRoundTrip | bart_impl/BARTParser.cpp:95-133 | a complete viewport directive, with any blanks between its pieces and each value written as any token its conversion accepts (so `from 0 0 0 ... angle 45 hither 1` with integer tokens), returns true and stores exactly the view written, with hither clamped; nothing else in the scene changes and the following input is left unread |
| ParserProperties.ViewportOverSeveralLines | bart_impl/BARTParser.cpp:95-133 | the same for a directive with each keyword group on a line of its own and whole numbers written as integer tokens (`v\nfrom 0 0 0\nat 0 0 -1\n...`) |
| ParserProperties.ViewportFailsAt | bart_impl/BARTParser.cpp:95-128 | after k complete groups (any blanks, any accepted tokens), a call for group k that returns anything but its full count makes the handler return false with the scene untouched, and the loop resumes where that call stopped |
| ParserProperties.ViewportKeywordMismatch | bart_impl/BARTParser.cpp:95-128 | a missing, misspelt or out-of-order keyword after k groups (any blanks, any accepted tokens, so `v from 0 0 0 angle ...`) makes the handler return false; the letters matched so far are consumed, so `angle` in place of `at` loses its `a` and the loop resumes at `n` |
| ParserProperties.ViewportValueMismatch | bart_impl/BARTParser.cpp:95-128 | a group with too few values or a value token the conversion rejects (`from 1 2 at`) makes the handler return false, and the loop resumes at the element that could not be converted |
| ParserProperties.ViewportNeedsFromFirst | bart_impl/BARTParser.cpp:95-98 | a viewport whose first non-blank element is not the `f` of `from` fails without consuming that element |
| ParserProperties.SkipLoopSpace | bart_impl/BARTParser.cpp:45-51 | space, tab, newline, form feed and carriage return are skipped with no effect on the result |
| ParserProperties.DispatchStep | bart_impl/BARTParser.cpp:53-71 | one iteration on a non-blank element runs its handler and stops if it returned true, otherwise continues where the handler stopped reading |
| ParserProperties.BlankFileReturnsFalse | bart_impl/BARTParser.cpp:42-51 | a file made only of skipped blanks makes ParseFile return false with the scene unchanged |
| ParserProperties.UnknownInstructionStops | bart_impl/BARTParser.cpp:61-70 | the first non-blank element other than '#', '%' or 'v' ends the parse at once: ParseFile returns true with the scene unchanged |
| ParserProperties.VerticalTabIsUnknown | bart_impl/BARTParser.cpp:44-51 | a vertical tab is not among the skipped characters, so at top level it is an unknown instruction and ParseFile returns true |
| ParserProperties.CommentStops | bart_impl/BARTParser.cpp:53-56 | a comment succeeds, so it ends the parse: ParseFile returns true with the scene unchanged |
| ParserProperties.ViewportSuccessStops | bart_impl/BARTParser.cpp:58-70 | a viewport that succeeds ends the parse: ParseFile returns true with the handler's scene |
| ParserProperties.ViewportFailureResumes | bart_impl/BARTParser.cpp:58-72 | a viewport that fails does not end the parse: the loop continues from where the failing fscanf stopped, with the scene unchanged |
| ParserProperties.ViewportDirectiveStops | bart_impl/BARTParser.cpp:58-131 | a file whose first directive is a complete viewport, with any blanks inside it and any accepted token for each value, returns true with exactly that view stored, hither clamped |
| ParserProperties.SmallHitherKept | bart_impl/BARTParser.cpp:116-123 | `v from 0 0 0 at 0 0 -1 up 0 1 0 angle 45 hither 0.001 resolution 100 100`, its whole numbers written as integer tokens (`HitherTokens`), returns true and stores hither 0.001 unchanged |
| ParserProperties.TinyHitherClamped | bart_impl/BARTParser.cpp:121-123 | the same directive, written the same way, with hither 0.00001 stores hither 1.0 |
| ParserProperties.HitherTokens | bart_impl/BARTParser.cpp:95-128 | the text of these two examples writes 0, -1, 1, 45 and 100 as integer tokens and only hither as a real token |
| ParserProperties.SkipEmptyFailedViewport | bart_impl/BARTParser.cpp:58-72 | a viewport that fails before consuming anything leaves the parse exactly as if the 'v' were not there |
| ParserProperties.RetryAfterMalformedViewport | bart_impl/BARTParser.cpp:43-98 | `vv from ...`, with any blanks and any accepted tokens in the directive: the first 'v' fails on the second 'v', which then starts a viewport that succeeds and ends the parse with its view stored |
| ParserProperties.ViewportFailureThenUnknown | bart_impl/BARTParser.cpp:43-72 | a failed viewport that leaves, after blanks, a character starting no directive ends the parse with true and the scene unchanged |
| ParserProperties.LeadingFailedViewportThenUnknown | bart_impl/BARTParser.cpp:43-72 | the same for a viewport at the very start of the file |
| ParserProperties.ShortFromFails | bart_impl/BARTParser.cpp:95-98 | ` from a b` (two number tokens, integer or real) followed by a blank and a character: the third `%f` meets the character, and the handler returns false leaving it unread |
| ParserProperties.ShortFromThenUnknown | bart_impl/BARTParser.cpp:43-98 | `v from 1 2 at ...` (any two number tokens) returns true with the scene unchanged: the viewport fails at `a`, which the loop then treats as an unknown instruction |
| ParserProperties.CommentConsumesLine | bart_impl/BARTParser.cpp:79-84 | a comment line shorter than the fgets limit is consumed through its newline and no further |
| ParserProperties.CommentStopsAtLimit | bart_impl/BARTParser.cpp:82 | a line without a newline in its first 999 elements is consumed only up to 999 elements |
| ParserProperties.CommentReachesEndOfFile | bart_impl/BARTParser.cpp:82 | a short last line without newline is consumed to the end of the file |
| Shapes.ConstructorsTag | bart_impl/BARTParser.h:93-291 | a default shape is UNKNOWN and each subclass constructor leaves its own tag; a textured triangle patch ends with TEX_TRIANGLE_PATCH although its base constructor first wrote TEX_TRIANGLE |
| Shapes.PolygonKeepsTag | bart_impl/BARTParser.h:98-153 | adding a point leaves a correctly tagged polygon correctly tagged |
| Shapes.PolygonPatchKeepsTag | bart_impl/BARTParser.h:98-183 | adding a patch leaves a correctly tagged polygon patch correctly tagged |
| Shapes.TexTriangleKeepsTag | bart_impl/BARTParser.h:98-211 | setting a vertex or a texture coordinate leaves a correctly tagged textured triangle correctly tagged |
| Shapes.TexTrianglePatchKeepsTag | bart_impl/BARTParser.h:98-231 | setting a vertex, a texture coordinate or a normal leaves a correctly tagged textured triangle patch correctly tagged |
| Shapes.TrianglePatchKeepsTag | bart_impl/BARTParser.h:98-258 | setting a vertex or a normal leaves a correctly tagged triangle patch correctly tagged |
| Shapes.AnimatedTriangleKeepsTag | bart_impl/BARTParser.h:98-281 | adding a key leaves a correctly tagged animated triangle correctly tagged |
| Shapes.Polygon.Add | bart_impl/BARTParser.h:143-153 | Count grows by one, At(old Count) is the new point, every earlier point and the tag are unchanged |
| Shapes.AddAllAppends | bart_impl/BARTParser.h:151-153 | adding points one by one appends them after the existing ones in input order |
| Shapes.PolygonPatch.Add | bart_impl/BARTParser.h:173-183 | Count grows by one, At(old Count) is the new patch, every earlier patch and the tag are unchanged |
| Geometry.Triple.Set | bart_impl/BARTParser.h:199-204 | writing slot i of a 3-element array makes it read back the new value and keeps the two other slots |
| Shapes.TexTriangle.SetVertex | bart_impl/BARTParser.h:199-211 | GetVertex(i) returns the new vertex, the other vertices and all texture coordinates, the name and the tag are unchanged |
| Shapes.TexTriangle.SetTexCoord | bart_impl/BARTParser.h:202-211 | GetTexCoord(i) returns the new coordinate, the other coordinates and all vertices, the name and the tag are unchanged |
| Shapes.TexTrianglePatch.SetVertex | bart_impl/BARTParser.h:199-231 | the inherited setter on a patch changes only vertex i; coordinates, normals, name and tag are unchanged |
| Shapes.TexTrianglePatch.SetTexCoord | bart_impl/BARTParser.h:202-231 | the inherited setter on a patch changes only coordinate i; vertices, normals, name and tag are unchanged |
| Shapes.TexTrianglePatch.SetNormal | bart_impl/BARTParser.h:225-231 | GetNormal(i) returns the new normal, the other normals and the whole textured triangle are unchanged |
| Shapes.TrianglePatch.SetVertex | bart_impl/BARTParser.h:246-251 | GetVertex(i) returns the new vertex; other vertices, all normals and the tag are unchanged |
| Shapes.TrianglePatch.SetNormal | bart_impl/BARTParser.h:253-258 | GetNormal(i) returns the new normal; other normals, all vertices and the tag are unchanged |
| Shapes.NewAnimatedTriangle | bart_impl/BARTParser.h:268-274 | a new animated triangle has mNumTimes 0 and both vectors empty |
| Shapes.AnimatedTriangle.AddOneTrianglePatch | bart_impl/BARTParser.h:277-281 | the timestamp and the patch are appended to their vectors, which stay of equal length, while mNumTimes and the tag are unchanged |
| Shapes.AddKeysPairs | bart_impl/BARTParser.h:277-281 | after adding keys one by one, the i-th added timestamp sits beside the i-th added patch, the earlier keys are kept, and mNumTimes is never updated |

## Left out

- File I/O: `fopen`, `fclose`, `getc` and the diagnostic `printf`s. The file is given as its contents, or `None` when it cannot be opened.
- The text-to-number conversion of `%f` and `%d`: partial numbers, signs, exponents and `inf`/`nan`. Numbers arrive as ready-made `Real`/`Int` tokens.
- Stream.Converted: `%d` rejects a real token, whereas C's `%d` on `480.5` reads `480` and stops at the `.`. So `resolution 640 480.5` fails in the model, but in the source `fscanf` returns 2 and the handler stores yres 480 and returns true.
- Single-precision floats are modelled as `real`. Rounding of `float` fields and of the `0.0001` comparison is not modelled, and neither is the 32-bit range of `int` resolution values.
- Parser.LineLength: a number token counts as one element toward the 999-element fgets limit, whereas in the file it is several characters.
- The 512-byte buffer that `parse_comment` passes to `fgets` with a size of 1000 is undefined behaviour. Only "consume the line, at most 999 characters" is modelled.
- The other handlers, helpers and lifecycle functions of `BARTParser` are declared but not defined in `BARTParser.h` and have no body to model: light, material, cone, sphere, polygon, include, detail level, triangles, transforms, keyframes, mesh, `InitParser` and `DoneParser`.
- The unfinished internals of `BARTMesh`. Only its declared transform fields are kept.
- `AnimFrameInfo`, the animation list and `animation.h`. They are not part of this model.
- `mMaterialID` is never initialised by the source and is left out of the shape records.
- Fields the constructors leave uninitialised start at zero, and at the empty string for the texture name.
- `mObjs` holds raw `BARTShape *` pointers. Ownership and aliasing are not modelled: the map holds shape values.
- Out-of-range indices of `At`, `GetVertex` and the like are undefined behaviour in the source. The model requires a valid index.
- The integer values of the `BARTShape::Type` enumerators (UNKNOWN = -1, CONE = 0, ...) are not modelled: the tag is only stored and compared, never used as a number.
- `source/Common.h` holds float constants and a macro the parser does not use. It is not part of this model.
