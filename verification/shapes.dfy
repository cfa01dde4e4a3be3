/** The polymorphic shape records of bart_impl/BARTParser.h.

    Each C++ class becomes an immutable record. Inheritance is modelled by
    composition: every record holds the `ShapeBase` part (the protected type tag
    of BARTShape), and BARTTexTrianglePatch holds the BARTTexTriangle it derives
    from. Constructors are functions that first build the base part exactly as
    the base-class constructor does and then overwrite the tag, as the derived
    constructor body does. Mutating member functions return the updated record. */
module Shapes {
  import opened Geometry

  /** BARTShape::Type, with the enumerator spellings of the header. */
  datatype ShapeType =
    | UNKNOWN
    | CONE
    | SHPERE
    | POLY
    | POLY_PATCH
    | TEX_TRIANGLE
    | TEX_TRIANGLE_PATCH
    | TRIANGLE_PATCH
    | ANIMATED_TRIANGLE
    | MESH

  /** The BARTShape part shared by every shape: its type tag (mType). */
  datatype ShapeBase = ShapeBase(kind: ShapeType)

  /** BARTShape(): the tag starts as UNKNOWN. */
  function NewShapeBase(): ShapeBase
  {
    ShapeBase(UNKNOWN)
  }

  datatype Cone = Cone(base: ShapeBase, basePt: Vec3, apexPt: Vec3, r0: real, r1: real)

  function NewCone(): Cone
  {
    Cone(NewShapeBase().(kind := CONE), Origin, Origin, 0.0, 0.0)
  }

  datatype Sphere = Sphere(base: ShapeBase, center: Vec3, radius: real)

  function NewSphere(): Sphere
  {
    Sphere(NewShapeBase().(kind := SHPERE), Origin, 0.0)
  }

  /** BARTPolygon: a growable vector of points. */
  datatype Polygon = Polygon(base: ShapeBase, pts: seq<Vec3>) {

    function Count(): nat
    {
      |pts|
    }

    function At(index: int): Vec3
      requires 0 <= index < Count()
    {
      pts[index]
    }

    /** push_back: one more point, the new one last, every earlier point where it was. */
    function Add(v: Vec3): (p: Polygon)
      ensures p.Count() == Count() + 1
      ensures p.At(Count()) == v
      ensures forall j :: 0 <= j < Count() ==> p.At(j) == At(j)
      ensures p.base == base
    {
      this.(pts := pts + [v])
    }
  }

  function NewPolygon(): Polygon
  {
    Polygon(NewShapeBase().(kind := POLY), [])
  }

  /** Adds the points one at a time, in order. */
  function AddAll(p: Polygon, vs: seq<Vec3>): Polygon
    decreases |vs|
  {
    if vs == [] then p else AddAll(p.Add(vs[0]), vs[1..])
  }

  /** Adding points one by one lays them out after the existing ones in input order. */
  lemma {:induction false} AddAllAppends(p: Polygon, vs: seq<Vec3>)
    ensures AddAll(p, vs).pts == p.pts + vs
    ensures AddAll(p, vs).base == p.base
    decreases |vs|
  {
    if vs != [] {
      AddAllAppends(p.Add(vs[0]), vs[1..]);
      assert p.pts + [vs[0]] + vs[1..] == p.pts + vs;
    }
  }

  /** BARTPolygonPatch::Patch */
  datatype Patch = Patch(pt: Vec3, norm: Vec3)

  /** BARTPolygonPatch: a growable vector of (point, normal) patches. */
  datatype PolygonPatch = PolygonPatch(base: ShapeBase, patches: seq<Patch>) {

    function Count(): nat
    {
      |patches|
    }

    function At(index: int): Patch
      requires 0 <= index < Count()
    {
      patches[index]
    }

    function Add(patch: Patch): (p: PolygonPatch)
      ensures p.Count() == Count() + 1
      ensures p.At(Count()) == patch
      ensures forall j :: 0 <= j < Count() ==> p.At(j) == At(j)
      ensures p.base == base
    {
      this.(patches := patches + [patch])
    }
  }

  function NewPolygonPatch(): PolygonPatch
  {
    PolygonPatch(NewShapeBase().(kind := POLY_PATCH), [])
  }

  /** BARTTexTriangle: a texture name, three vertices and three texture coordinates. */
  datatype TexTriangle = TexTriangle(base: ShapeBase, texName: string, vec: Triple<Vec3>, texCoord: Triple<TexCoord>) {

    function GetVertex(i: int): Vec3
      requires 0 <= i < 3
    {
      vec.Get(i)
    }

    function GetTexCoord(i: int): TexCoord
      requires 0 <= i < 3
    {
      texCoord.Get(i)
    }

    function SetVertex(i: int, v: Vec3): (t: TexTriangle)
      requires 0 <= i < 3
      ensures t.GetVertex(i) == v
      ensures forall j :: 0 <= j < 3 && j != i ==> t.GetVertex(j) == GetVertex(j)
      ensures forall j :: 0 <= j < 3 ==> t.GetTexCoord(j) == GetTexCoord(j)
      ensures t.base == base && t.texName == texName
    {
      this.(vec := vec.Set(i, v))
    }

    function SetTexCoord(i: int, c: TexCoord): (t: TexTriangle)
      requires 0 <= i < 3
      ensures t.GetTexCoord(i) == c
      ensures forall j :: 0 <= j < 3 && j != i ==> t.GetTexCoord(j) == GetTexCoord(j)
      ensures forall j :: 0 <= j < 3 ==> t.GetVertex(j) == GetVertex(j)
      ensures t.base == base && t.texName == texName
    {
      this.(texCoord := texCoord.Set(i, c))
    }
  }

  function NewTexTriangle(): TexTriangle
  {
    TexTriangle(NewShapeBase().(kind := TEX_TRIANGLE), "", Fill(Origin), Fill(TexOrigin))
  }

  /** BARTTexTrianglePatch: a BARTTexTriangle plus three normals. */
  datatype TexTrianglePatch = TexTrianglePatch(tri: TexTriangle, norm: Triple<Vec3>) {

    function GetVertex(i: int): Vec3
      requires 0 <= i < 3
    {
      tri.GetVertex(i)
    }

    function GetTexCoord(i: int): TexCoord
      requires 0 <= i < 3
    {
      tri.GetTexCoord(i)
    }

    function GetNormal(i: int): Vec3
      requires 0 <= i < 3
    {
      norm.Get(i)
    }

    function SetVertex(i: int, v: Vec3): (t: TexTrianglePatch)
      requires 0 <= i < 3
      ensures t.GetVertex(i) == v
      ensures forall j :: 0 <= j < 3 && j != i ==> t.GetVertex(j) == GetVertex(j)
      ensures forall j :: 0 <= j < 3 ==> t.GetTexCoord(j) == GetTexCoord(j) && t.GetNormal(j) == GetNormal(j)
      ensures t.tri.base == tri.base && t.tri.texName == tri.texName
    {
      this.(tri := tri.SetVertex(i, v))
    }

    function SetTexCoord(i: int, c: TexCoord): (t: TexTrianglePatch)
      requires 0 <= i < 3
      ensures t.GetTexCoord(i) == c
      ensures forall j :: 0 <= j < 3 && j != i ==> t.GetTexCoord(j) == GetTexCoord(j)
      ensures forall j :: 0 <= j < 3 ==> t.GetVertex(j) == GetVertex(j) && t.GetNormal(j) == GetNormal(j)
      ensures t.tri.base == tri.base && t.tri.texName == tri.texName
    {
      this.(tri := tri.SetTexCoord(i, c))
    }

    function SetNormal(i: int, n: Vec3): (t: TexTrianglePatch)
      requires 0 <= i < 3
      ensures t.GetNormal(i) == n
      ensures forall j :: 0 <= j < 3 && j != i ==> t.GetNormal(j) == GetNormal(j)
      ensures t.tri == tri
    {
      this.(norm := norm.Set(i, n))
    }
  }

  /** The base-class constructor runs first and tags the record TEX_TRIANGLE;
      the derived constructor then overwrites the tag. */
  function NewTexTrianglePatch(): TexTrianglePatch
  {
    var t := NewTexTriangle();
    TexTrianglePatch(t.(base := t.base.(kind := TEX_TRIANGLE_PATCH)), Fill(Origin))
  }

  /** BARTTrianglePatch: three vertices and three normals. */
  datatype TrianglePatch = TrianglePatch(base: ShapeBase, vec: Triple<Vec3>, norm: Triple<Vec3>) {

    function GetVertex(i: int): Vec3
      requires 0 <= i < 3
    {
      vec.Get(i)
    }

    function GetNormal(i: int): Vec3
      requires 0 <= i < 3
    {
      norm.Get(i)
    }

    function SetVertex(i: int, v: Vec3): (t: TrianglePatch)
      requires 0 <= i < 3
      ensures t.GetVertex(i) == v
      ensures forall j :: 0 <= j < 3 && j != i ==> t.GetVertex(j) == GetVertex(j)
      ensures forall j :: 0 <= j < 3 ==> t.GetNormal(j) == GetNormal(j)
      ensures t.base == base
    {
      this.(vec := vec.Set(i, v))
    }

    function SetNormal(i: int, n: Vec3): (t: TrianglePatch)
      requires 0 <= i < 3
      ensures t.GetNormal(i) == n
      ensures forall j :: 0 <= j < 3 && j != i ==> t.GetNormal(j) == GetNormal(j)
      ensures forall j :: 0 <= j < 3 ==> t.GetVertex(j) == GetVertex(j)
      ensures t.base == base
    {
      this.(norm := norm.Set(i, n))
    }
  }

  function NewTrianglePatch(): TrianglePatch
  {
    TrianglePatch(NewShapeBase().(kind := TRIANGLE_PATCH), Fill(Origin), Fill(Origin))
  }

  /** BARTAnimatedTriangle: parallel vectors of timestamps and triangle patches.
      mNumTimes is set by the constructor and never updated by this class. */
  datatype AnimatedTriangle = AnimatedTriangle(base: ShapeBase, numTimes: int, timestamps: seq<real>, tps: seq<TrianglePatch>) {

    /** The two vectors describe the same keys: one timestamp per patch. */
    predicate Paired()
    {
      |timestamps| == |tps|
    }

    /** Pushes one key onto both vectors; mNumTimes is left as it was. */
    function AddOneTrianglePatch(timestamp: real, tp: TrianglePatch): (a: AnimatedTriangle)
      ensures a.timestamps == timestamps + [timestamp]
      ensures a.tps == tps + [tp]
      ensures Paired() ==> a.Paired()
      ensures a.numTimes == numTimes && a.base == base
    {
      this.(timestamps := timestamps + [timestamp], tps := tps + [tp])
    }
  }

  function NewAnimatedTriangle(): (a: AnimatedTriangle)
    ensures a.numTimes == 0 && a.timestamps == [] && a.tps == []
    ensures a.Paired()
  {
    AnimatedTriangle(NewShapeBase().(kind := ANIMATED_TRIANGLE), 0, [], [])
  }

  /** Adds (timestamp, patch) keys one at a time, in order. */
  function AddKeys(a: AnimatedTriangle, keys: seq<(real, TrianglePatch)>): AnimatedTriangle
    decreases |keys|
  {
    if keys == [] then a else AddKeys(a.AddOneTrianglePatch(keys[0].0, keys[0].1), keys[1..])
  }

  /** Starting from a fresh animated triangle, the i-th timestamp pairs with the
      i-th patch of the keys added, and the key count field stays 0. */
  lemma {:induction false} AddKeysPairs(a: AnimatedTriangle, keys: seq<(real, TrianglePatch)>)
    requires a.Paired()
    ensures var r := AddKeys(a, keys);
      && r.Paired()
      && |r.tps| == |a.tps| + |keys|
      && r.timestamps[..|a.timestamps|] == a.timestamps
      && r.tps[..|a.tps|] == a.tps
      && (forall i :: 0 <= i < |keys| ==> r.timestamps[|a.timestamps| + i] == keys[i].0 && r.tps[|a.tps| + i] == keys[i].1)
      && r.numTimes == a.numTimes
      && r.base == a.base
    decreases |keys|
  {
    if keys != [] {
      var a' := a.AddOneTrianglePatch(keys[0].0, keys[0].1);
      AddKeysPairs(a', keys[1..]);
      var r := AddKeys(a, keys);
      assert r == AddKeys(a', keys[1..]);
      forall i | 0 <= i < |keys|
        ensures r.timestamps[|a.timestamps| + i] == keys[i].0 && r.tps[|a.tps| + i] == keys[i].1
      {
        if i > 0 {
          assert r.timestamps[|a'.timestamps| + (i - 1)] == keys[1..][i - 1].0;
          assert r.tps[|a'.tps| + (i - 1)] == keys[1..][i - 1].1;
        } else {
          assert r.timestamps[..|a'.timestamps|][|a.timestamps|] == a'.timestamps[|a.timestamps|];
          assert r.tps[..|a'.tps|][|a.tps|] == a'.tps[|a.tps|];
        }
      }
      calc {
        r.timestamps[..|a.timestamps|];
        r.timestamps[..|a'.timestamps|][..|a.timestamps|];
        a'.timestamps[..|a.timestamps|];
        a.timestamps;
      }
      calc {
        r.tps[..|a.tps|];
        r.tps[..|a'.tps|][..|a.tps|];
        a'.tps[..|a.tps|];
        a.tps;
      }
    }
  }

  /** BARTMesh: only the transform snapshot is declared; the rest is unfinished in the source. */
  datatype Mesh = Mesh(base: ShapeBase, scale: Vec3, translate: Vec3, rotate: Vec3, rotationAngle: real)

  function NewMesh(): Mesh
  {
    Mesh(NewShapeBase().(kind := MESH), Origin, Origin, Origin, 0.0)
  }

  /** The closed family of shapes the scene can hold (mObjs stores BARTShape pointers). */
  datatype Shape =
    | PlainShape(plain: ShapeBase)
    | ConeShape(cone: Cone)
    | SphereShape(sphere: Sphere)
    | PolygonShape(polygon: Polygon)
    | PolygonPatchShape(polygonPatch: PolygonPatch)
    | TexTriangleShape(texTriangle: TexTriangle)
    | TexTrianglePatchShape(texTrianglePatch: TexTrianglePatch)
    | TrianglePatchShape(trianglePatch: TrianglePatch)
    | AnimatedTriangleShape(animatedTriangle: AnimatedTriangle)
    | MeshShape(mesh: Mesh)
  {
    /** BARTShape::GetType: reads the stored tag. */
    function GetType(): ShapeType
    {
      match this
      case PlainShape(b) => b.kind
      case ConeShape(c) => c.base.kind
      case SphereShape(s) => s.base.kind
      case PolygonShape(p) => p.base.kind
      case PolygonPatchShape(p) => p.base.kind
      case TexTriangleShape(t) => t.base.kind
      case TexTrianglePatchShape(t) => t.tri.base.kind
      case TrianglePatchShape(t) => t.base.kind
      case AnimatedTriangleShape(a) => a.base.kind
      case MeshShape(m) => m.base.kind
    }
  }

  /** The tag a shape of each dynamic class is meant to carry. */
  function ClassTag(s: Shape): ShapeType
  {
    match s
    case PlainShape(_) => UNKNOWN
    case ConeShape(_) => CONE
    case SphereShape(_) => SHPERE
    case PolygonShape(_) => POLY
    case PolygonPatchShape(_) => POLY_PATCH
    case TexTriangleShape(_) => TEX_TRIANGLE
    case TexTrianglePatchShape(_) => TEX_TRIANGLE_PATCH
    case TrianglePatchShape(_) => TRIANGLE_PATCH
    case AnimatedTriangleShape(_) => ANIMATED_TRIANGLE
    case MeshShape(_) => MESH
  }

  predicate WellTagged(s: Shape)
  {
    s.GetType() == ClassTag(s)
  }

  /** Every constructor leaves the stored tag equal to its own class's tag; in
      particular the patch constructor's TEX_TRIANGLE_PATCH replaces the
      TEX_TRIANGLE its base constructor wrote. */
  lemma {:induction false} ConstructorsTag()
    ensures PlainShape(NewShapeBase()).GetType() == UNKNOWN
    ensures ConeShape(NewCone()).GetType() == CONE
    ensures SphereShape(NewSphere()).GetType() == SHPERE
    ensures PolygonShape(NewPolygon()).GetType() == POLY
    ensures PolygonPatchShape(NewPolygonPatch()).GetType() == POLY_PATCH
    ensures TexTriangleShape(NewTexTriangle()).GetType() == TEX_TRIANGLE
    ensures NewTexTriangle().base.kind == TEX_TRIANGLE
    ensures TexTrianglePatchShape(NewTexTrianglePatch()).GetType() == TEX_TRIANGLE_PATCH
    ensures TrianglePatchShape(NewTrianglePatch()).GetType() == TRIANGLE_PATCH
    ensures AnimatedTriangleShape(NewAnimatedTriangle()).GetType() == ANIMATED_TRIANGLE
    ensures MeshShape(NewMesh()).GetType() == MESH
  {
  }

  /** Mutators never touch the tag, so a well-tagged shape stays well tagged. */
  lemma {:induction false} PolygonKeepsTag(p: Polygon, v: Vec3)
    requires WellTagged(PolygonShape(p))
    ensures WellTagged(PolygonShape(p.Add(v)))
  {
  }

  lemma {:induction false} PolygonPatchKeepsTag(pp: PolygonPatch, patch: Patch)
    requires WellTagged(PolygonPatchShape(pp))
    ensures WellTagged(PolygonPatchShape(pp.Add(patch)))
  {
  }

  lemma {:induction false} TexTriangleKeepsTag(t: TexTriangle, i: int, v: Vec3, c: TexCoord)
    requires 0 <= i < 3 && WellTagged(TexTriangleShape(t))
    ensures WellTagged(TexTriangleShape(t.SetVertex(i, v)))
    ensures WellTagged(TexTriangleShape(t.SetTexCoord(i, c)))
  {
  }

  lemma {:induction false} TexTrianglePatchKeepsTag(tp: TexTrianglePatch, i: int, v: Vec3, c: TexCoord, n: Vec3)
    requires 0 <= i < 3 && WellTagged(TexTrianglePatchShape(tp))
    ensures WellTagged(TexTrianglePatchShape(tp.SetVertex(i, v)))
    ensures WellTagged(TexTrianglePatchShape(tp.SetTexCoord(i, c)))
    ensures WellTagged(TexTrianglePatchShape(tp.SetNormal(i, n)))
  {
  }

  lemma {:induction false} TrianglePatchKeepsTag(tr: TrianglePatch, i: int, v: Vec3, n: Vec3)
    requires 0 <= i < 3 && WellTagged(TrianglePatchShape(tr))
    ensures WellTagged(TrianglePatchShape(tr.SetVertex(i, v)))
    ensures WellTagged(TrianglePatchShape(tr.SetNormal(i, n)))
  {
  }

  lemma {:induction false} AnimatedTriangleKeepsTag(a: AnimatedTriangle, time: real, tr: TrianglePatch)
    requires WellTagged(AnimatedTriangleShape(a))
    ensures WellTagged(AnimatedTriangleShape(a.AddOneTrianglePatch(time, tr)))
  {
  }
}
