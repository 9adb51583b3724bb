/**
 * Stand-ins for the few engine types the scripts touch: vectors, colours,
 * colliders, meshes and C#'s 32-bit integer arithmetic.
 */
module Unity {

  /** A C# reference that may be null. */
  datatype Option<T> = None | Some(value: T)

  /** A vector is kept as a symbolic term: the model never evaluates float
      arithmetic, so a midpoint or a normalised sum is recorded as the term
      that the engine would evaluate. */
  datatype Vector3 =
    | Zero                                   // Vector3.zero
    | Point(id: int)
    | Midpoint(p: Vector3, q: Vector3)       // (p + q) * 0.5f
    | NormalizedSum(p: Vector3, q: Vector3)  // (p + q).normalized

  /** An RGBA colour; only the red channel is ever inspected. */
  datatype Color = Color(r: real, g: real, b: real, a: real)

  /** The all-zero colour. */
  const Clear: Color := Color(0.0, 0.0, 0.0, 0.0)

  /** A physics collider, reduced to the tag that the trigger callbacks compare. */
  datatype Collider = Collider(tag: string)

  predicate CompareTag(other: Collider, tag: string) {
    other.tag == tag
  }

  const PlayerTag: string := "Player"

  const Int32Min: int := -0x8000_0000
  const Int32Max: int := 0x7FFF_FFFF

  predicate IsInt32(x: int) {
    Int32Min <= x <= Int32Max
  }

  /** The value C#'s unchecked `int` arithmetic leaves when the exact result is x:
      x reduced modulo 2^32 into the two's-complement range. */
  function Int32(x: int): (r: int)
    ensures IsInt32(r)
  {
    (x + 0x8000_0000) % 0x1_0000_0000 - 0x8000_0000
  }

  /** Wrapping leaves a value that already fits unchanged. */
  lemma Int32Identity(x: int)
    requires IsInt32(x)
    ensures Int32(x) == x
  {
  }

  /** A per-vertex channel after the vertex count becomes n: a channel the mesh
      has keeps its leading elements and is cut or padded with pad to length n;
      a channel the mesh does not have stays empty. */
  function Resized<T>(channel: seq<T>, n: nat, pad: T): (r: seq<T>)
    ensures |channel| == 0 ==> r == []
    ensures |channel| > 0 ==> |r| == n
    ensures forall i :: 0 <= i < |r| && i < |channel| ==> r[i] == channel[i]
    ensures forall i :: |channel| <= i < |r| ==> r[i] == pad
  {
    if |channel| == 0 then []
    else if n <= |channel| then channel[..n]
    else channel + seq(n - |channel|, _ => pad)
  }

  /** A mesh as the scripts see it: parallel vertex, normal and colour arrays
      and a flat triangle index list. Assigning the triangles or the normals
      replaces them; assigning the vertices goes through SetVertices. */
  class Mesh {
    var vertices: seq<Vector3>
    var normals: seq<Vector3>
    var colors: seq<Color>
    var triangles: seq<int>

    constructor (vertices: seq<Vector3>, normals: seq<Vector3>, colors: seq<Color>, triangles: seq<int>)
      ensures this.vertices == vertices && this.normals == normals
      ensures this.colors == colors && this.triangles == triangles
    {
      this.vertices := vertices;
      this.normals := normals;
      this.colors := colors;
      this.triangles := triangles;
    }

    /** `mesh.vertices = vs`: the vertex array is replaced and every other
        vertex channel follows the new vertex count, keeping its leading
        elements and padding with zeros; the triangles are untouched. */
    method SetVertices(vs: seq<Vector3>)
      modifies this
      ensures vertices == vs && triangles == old(triangles)
      ensures normals == Resized(old(normals), |vs|, Zero)
      ensures colors == Resized(old(colors), |vs|, Clear)
    {
      vertices := vs;
      normals := Resized(normals, |vs|, Zero);
      colors := Resized(colors, |vs|, Clear);
    }
  }
}
