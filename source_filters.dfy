/**
 * The two source-mesh filters of the grass renderer, as functions: which
 * vertices are "painted" (positive red channel), and which triangles have all
 * three corners painted. Triangle index lists are read three at a time; the
 * triple view and its flattening are inverse to each other.
 */
module SourceFilters {
  import opened Unity

  // ---------------------------------------------------------------------
  // Painted vertices
  // ---------------------------------------------------------------------

  predicate Painted(c: Color) {
    c.r > 0.0
  }

  /** The indices below n whose colour is painted, in increasing order. */
  function PaintedIndices(colors: seq<Color>, n: nat): (ix: seq<nat>)
    requires n <= |colors|
    ensures |ix| <= n
    ensures forall k :: 0 <= k < |ix| ==> ix[k] < n
  {
    if n == 0 then []
    else PaintedIndices(colors, n - 1) + (if Painted(colors[n - 1]) then [n - 1] else [])
  }

  /** The painted indices are exactly the indices of painted colours, each once,
      in strictly increasing order. */
  lemma {:induction false} PaintedIndicesExact(colors: seq<Color>, n: nat)
    requires n <= |colors|
    ensures forall i :: i in PaintedIndices(colors, n) <==> 0 <= i < n && Painted(colors[i])
    ensures forall j, k :: 0 <= j < k < |PaintedIndices(colors, n)| ==>
              PaintedIndices(colors, n)[j] < PaintedIndices(colors, n)[k]
  {
    if n > 0 {
      PaintedIndicesExact(colors, n - 1);
    }
  }

  /** The vertices at the given indices, in that order. */
  function Gather(vertices: seq<Vector3>, ix: seq<nat>): (vs: seq<Vector3>)
    requires forall k :: 0 <= k < |ix| ==> ix[k] < |vertices|
    ensures |vs| == |ix|
  {
    seq(|ix|, k requires 0 <= k < |ix| => vertices[ix[k]])
  }

  // ---------------------------------------------------------------------
  // Triangle lists as triples
  // ---------------------------------------------------------------------

  datatype Triangle = Triangle(a: int, b: int, c: int)

  /** A flat index list read three at a time. */
  function Triples(s: seq<int>): (ts: seq<Triangle>)
    requires |s| % 3 == 0
    ensures 3 * |ts| == |s|
    decreases |s|
  {
    if |s| == 0 then []
    else
      var n := |s| - 3;
      Triples(s[..n]) + [Triangle(s[n], s[n + 1], s[n + 2])]
  }

  /** Triangles written back out as a flat index list. */
  function Flatten(ts: seq<Triangle>): (s: seq<int>)
    ensures |s| == 3 * |ts|
  {
    if |ts| == 0 then []
    else
      var t := ts[|ts| - 1];
      Flatten(ts[..|ts| - 1]) + [t.a, t.b, t.c]
  }

  /** Flattening undoes reading in triples ... */
  lemma {:induction false} FlattenTriples(s: seq<int>)
    requires |s| % 3 == 0
    ensures Flatten(Triples(s)) == s
    decreases |s|
  {
    if |s| > 0 {
      var n := |s| - 3;
      var ts := Triples(s);
      assert ts[..|ts| - 1] == Triples(s[..n]);
      assert ts[|ts| - 1] == Triangle(s[n], s[n + 1], s[n + 2]);
      FlattenTriples(s[..n]);
      assert Flatten(ts) == s[..n] + [s[n], s[n + 1], s[n + 2]];
      assert s == s[..n] + [s[n], s[n + 1], s[n + 2]];
    }
  }

  /** ... and reading in triples undoes flattening. */
  lemma {:induction false} TriplesFlatten(ts: seq<Triangle>)
    ensures Triples(Flatten(ts)) == ts
  {
    if |ts| > 0 {
      var s := Flatten(ts);
      var init := ts[..|ts| - 1];
      assert s[..|s| - 3] == Flatten(init);
      TriplesFlatten(init);
      assert ts == init + [ts[|ts| - 1]];
    }
  }

  /** Reading one more triple appends one more triangle. */
  lemma TriplesSnoc(s: seq<int>, a: int, b: int, c: int)
    requires |s| % 3 == 0
    ensures Triples(s + [a, b, c]) == Triples(s) + [Triangle(a, b, c)]
  {
    assert (s + [a, b, c])[..|s|] == s;
  }

  // ---------------------------------------------------------------------
  // Keeping the triangles whose corners are all kept
  // ---------------------------------------------------------------------

  predicate Covered(t: Triangle, keep: set<int>) {
    t.a in keep && t.b in keep && t.c in keep
  }

  /** The index list restricted to whole triangles with all three corners in keep,
      in their original order. */
  function KeepCovered(tris: seq<int>, keep: set<int>): (r: seq<int>)
    requires |tris| % 3 == 0
    ensures |r| % 3 == 0 && |r| <= |tris|
    decreases |tris|
  {
    if |tris| == 0 then []
    else
      var n := |tris| - 3;
      KeepCovered(tris[..n], keep)
      + (if Covered(Triangle(tris[n], tris[n + 1], tris[n + 2]), keep) then [tris[n], tris[n + 1], tris[n + 2]] else [])
  }

  /** The reference filter on triangles. */
  function FilterCovered(ts: seq<Triangle>, keep: set<int>): (r: seq<Triangle>)
    ensures |r| <= |ts|
  {
    if |ts| == 0 then []
    else
      var t := ts[|ts| - 1];
      FilterCovered(ts[..|ts| - 1], keep) + (if Covered(t, keep) then [t] else [])
  }

  /** Every triangle FilterCovered keeps is covered and comes from the input;
      every covered input triangle is kept. */
  lemma {:induction false} FilterCoveredExact(ts: seq<Triangle>, keep: set<int>)
    ensures forall t :: t in FilterCovered(ts, keep) <==> t in ts && Covered(t, keep)
  {
    if |ts| > 0 {
      FilterCoveredExact(ts[..|ts| - 1], keep);
      assert ts == ts[..|ts| - 1] + [ts[|ts| - 1]];
    }
  }

  /** The flat filter, read in triples, is the triangle filter. */
  lemma {:induction false} KeepCoveredIsFilter(tris: seq<int>, keep: set<int>)
    requires |tris| % 3 == 0
    ensures Triples(KeepCovered(tris, keep)) == FilterCovered(Triples(tris), keep)
    decreases |tris|
  {
    if |tris| > 0 {
      var n := |tris| - 3;
      var ts := Triples(tris);
      assert ts[..|ts| - 1] == Triples(tris[..n]);
      KeepCoveredIsFilter(tris[..n], keep);
      var t := Triangle(tris[n], tris[n + 1], tris[n + 2]);
      if Covered(t, keep) {
        TriplesSnoc(KeepCovered(tris[..n], keep), tris[n], tris[n + 1], tris[n + 2]);
      } else {
        assert KeepCovered(tris, keep) == KeepCovered(tris[..n], keep);
      }
    }
  }

  /** A triangle survives exactly when it is in the input with all corners kept;
      so every surviving index is a kept vertex. */
  lemma KeepCoveredMembership(tris: seq<int>, keep: set<int>)
    requires |tris| % 3 == 0
    ensures forall t :: t in Triples(KeepCovered(tris, keep)) <==> t in Triples(tris) && Covered(t, keep)
    ensures forall i :: i in KeepCovered(tris, keep) ==> i in keep
  {
    KeepCoveredIsFilter(tris, keep);
    FilterCoveredExact(Triples(tris), keep);
    KeepCoveredSound(tris, keep);
  }

  lemma {:induction false} KeepCoveredSound(tris: seq<int>, keep: set<int>)
    requires |tris| % 3 == 0
    ensures forall i :: i in KeepCovered(tris, keep) ==> i in keep
    decreases |tris|
  {
    if |tris| > 0 {
      KeepCoveredSound(tris[..|tris| - 3], keep);
    }
  }

  /** When every index is kept, nothing is dropped. */
  lemma {:induction false} KeepCoveredAll(tris: seq<int>, keep: set<int>)
    requires |tris| % 3 == 0
    requires forall i :: 0 <= i < |tris| ==> tris[i] in keep
    ensures KeepCovered(tris, keep) == tris
    decreases |tris|
  {
    if |tris| > 0 {
      var n := |tris| - 3;
      KeepCoveredAll(tris[..n], keep);
      assert tris == tris[..n] + [tris[n], tris[n + 1], tris[n + 2]];
    }
  }

  /** Filtering twice with the same set is filtering once. */
  lemma KeepCoveredIdempotent(tris: seq<int>, keep: set<int>)
    requires |tris| % 3 == 0
    ensures KeepCovered(KeepCovered(tris, keep), keep) == KeepCovered(tris, keep)
  {
    var r := KeepCovered(tris, keep);
    KeepCoveredSound(tris, keep);
    forall i | 0 <= i < |r|
      ensures r[i] in keep
    {
      var x := r[i];
      assert x in KeepCovered(tris, keep);
      assert x in keep;
    }
    KeepCoveredAll(r, keep);
  }
}
