/** The plain value records of the scene format: points, texture coordinates
    and the fixed three-slot arrays that triangles carry (bart_impl/BARTParser.h). */
module Geometry {

  /** BARTVec3: single-precision floats in the source, reals here. */
  datatype Vec3 = Vec3(x: real, y: real, z: real)

  /** BARTTexCoord */
  datatype TexCoord = TexCoord(u: real, v: real)

  const Origin: Vec3 := Vec3(0.0, 0.0, 0.0)
  const TexOrigin: TexCoord := TexCoord(0.0, 0.0)

  /** A C array of exactly three elements (`T m[3]`). Indexing outside 0..2 is
      undefined behaviour in the source, so every access requires a valid slot. */
  datatype Triple<T> = Triple(s0: T, s1: T, s2: T) {

    function Get(i: int): T
      requires 0 <= i < 3
    {
      if i == 0 then s0 else if i == 1 then s1 else s2
    }

    /** `m[i] = v`: slot i reads back v and the two other slots keep their values. */
    function Set(i: int, v: T): (t: Triple<T>)
      requires 0 <= i < 3
      ensures t.Get(i) == v
      ensures forall j :: 0 <= j < 3 && j != i ==> t.Get(j) == Get(j)
    {
      if i == 0 then this.(s0 := v) else if i == 1 then this.(s1 := v) else this.(s2 := v)
    }
  }

  function Fill<T>(v: T): (t: Triple<T>)
    ensures forall j :: 0 <= j < 3 ==> t.Get(j) == v
  {
    Triple(v, v, v)
  }
}
