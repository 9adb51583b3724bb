/**
 * The mesh subdivision helper: every triangle is split into four by inserting
 * one new vertex at the midpoint of each edge, with the midpoint of an edge
 * shared by the triangles on both sides of it. The helper's static working
 * lists become the fields of one MeshHelper object; they are set during
 * Subdivide and cleared (null) when it returns.
 *
 * The dictionary is keyed here by the directed edge (i1, i2) itself; the key
 * MeshHelper.cs packs into one 32-bit word is modelled separately below.
 */
module MeshSubdivision {
  import opened Unity
  import opened SubdivisionSpec

  /** The dictionary key MeshHelper.cs packs for the directed edge (i1, i2),
      given the two indices cast to 32-bit unsigned words: i1 shifted into the
      upper 16 bits, or-ed with i2. */
  function EdgeKeyAsWritten(i1: bv32, i2: bv32): (key: bv32)
  {
    (i1 << 16) | i2
  }

  /** For any indices, the key's lower half is i2's lower half, and its upper
      half mixes i1's lower half with i2's upper half: this is where the keys
      of different edges can meet. */
  lemma EdgeKeyHalves(i1: bv32, i2: bv32)
    ensures EdgeKeyAsWritten(i1, i2) & 0xFFFF == i2 & 0xFFFF
    ensures EdgeKeyAsWritten(i1, i2) >> 16 == (i1 & 0xFFFF) | (i2 >> 16)
  {
  }

  /** Once a vertex index reaches 2^16 the packed keys of different edges
      coincide: the edges (0, 65536) and (1, 0) share a key, so the midpoint
      recorded for one is returned for the other. */
  lemma EdgeKeyCollision()
    ensures EdgeKeyAsWritten(0, 0x1_0000) == EdgeKeyAsWritten(1, 0)
  {
  }

  /** Below 2^16 the packed key keeps both indices apart: the upper half is i1
      and the lower half is i2, so distinct edges get distinct keys. */
  lemma EdgeKeyUnpack(i1: bv32, i2: bv32)
    requires i1 < 0x1_0000 && i2 < 0x1_0000
    ensures EdgeKeyAsWritten(i1, i2) >> 16 == i1
    ensures EdgeKeyAsWritten(i1, i2) & 0xFFFF == i2
  {
  }

  /** Below 2^16 the packed key is exact: two directed edges share a key only
      when they are the same edge, so on such meshes the packed dictionary
      distinguishes exactly the edges a pair-keyed one does. */
  lemma EdgeKeyInjective(i1: bv32, i2: bv32, j1: bv32, j2: bv32)
    requires i1 < 0x1_0000 && i2 < 0x1_0000 && j1 < 0x1_0000 && j2 < 0x1_0000
    requires EdgeKeyAsWritten(i1, i2) == EdgeKeyAsWritten(j1, j2)
    ensures i1 == j1 && i2 == j2
  {
    EdgeKeyUnpack(i1, i2);
    EdgeKeyUnpack(j1, j2);
  }

  /** The dictionary lookup of GetNewVertex as written, over packed keys: the
      reverse edge's key first, then the edge's own key; None is a miss. */
  function CachedAsWritten(cache: map<bv32, int>, i1: bv32, i2: bv32): (r: Option<int>)
    ensures r.Some? <==> EdgeKeyAsWritten(i2, i1) in cache || EdgeKeyAsWritten(i1, i2) in cache
    ensures EdgeKeyAsWritten(i2, i1) in cache ==> r == Some(cache[EdgeKeyAsWritten(i2, i1)])
    ensures EdgeKeyAsWritten(i2, i1) !in cache && EdgeKeyAsWritten(i1, i2) in cache ==>
              r == Some(cache[EdgeKeyAsWritten(i1, i2)])
  {
    if EdgeKeyAsWritten(i2, i1) in cache then Some(cache[EdgeKeyAsWritten(i2, i1)])
    else if EdgeKeyAsWritten(i1, i2) in cache then Some(cache[EdgeKeyAsWritten(i1, i2)])
    else None
  }

  /** Once the edge (0, 65536) is cached with midpoint v, the edge (1, 0),
      though cached in neither direction, is answered with that same vertex v
      instead of getting a midpoint of its own. */
  lemma SharedMidpointAsWritten(cache: map<bv32, int>, v: int)
    requires EdgeKeyAsWritten(0, 0x1_0000) in cache && cache[EdgeKeyAsWritten(0, 0x1_0000)] == v
    requires EdgeKeyAsWritten(0, 1) !in cache
    ensures CachedAsWritten(cache, 1, 0) == Some(v)
  {
    EdgeKeyCollision();
  }

  /** The vertex list after subdivision: the original vertices, then one
      midpoint per recorded edge. */
  function SubdividedVertices(vertices: seq<Vector3>, tris: seq<int>): (vs: seq<Vector3>)
    requires |tris| % 3 == 0
    requires forall k :: 0 <= k < |tris| ==> 0 <= tris[k] < |vertices|
    ensures |vs| == |vertices| + |EdgesOf(tris)|
  {
    EdgesOfEndpoints(tris, |vertices|);
    vertices + Midpoints(vertices, EdgesOf(tris))
  }

  function SubdividedNormals(normals: seq<Vector3>, tris: seq<int>): (ns: seq<Vector3>)
    requires |tris| % 3 == 0
    requires forall k :: 0 <= k < |tris| ==> 0 <= tris[k] < |normals|
    ensures |ns| == |normals| + |EdgesOf(tris)|
  {
    EdgesOfEndpoints(tris, |normals|);
    normals + NormalSums(normals, EdgesOf(tris))
  }

  /** The original vertices and normals are an unchanged prefix of the result. */
  lemma SubdividedKeepsOriginals(vertices: seq<Vector3>, normals: seq<Vector3>, tris: seq<int>)
    requires |normals| == |vertices| && |tris| % 3 == 0
    requires forall k :: 0 <= k < |tris| ==> 0 <= tris[k] < |vertices|
    ensures SubdividedVertices(vertices, tris)[..|vertices|] == vertices
    ensures SubdividedNormals(normals, tris)[..|normals|] == normals
  {
    var vs, ns := SubdividedVertices(vertices, tris), SubdividedNormals(normals, tris);
    assert vs == vertices + vs[|vertices|..];
    assert ns == normals + ns[|normals|..];
  }

  // ---------------------------------------------------------------------
  // The cache invariant, on values
  // ---------------------------------------------------------------------

  /** The dictionary built by caching each edge in turn: the k-th edge is
      keyed in the direction it was met and maps to vertex original + k. */
  function CacheOf(edges: seq<Edge>, original: nat): map<Edge, int>
  {
    if |edges| == 0 then map[]
    else
      var n := |edges| - 1;
      CacheOf(edges[..n], original)[edges[n] := original + n]
  }

  /** The keys of the dictionary are the cached edges, and each key maps to the
      position, offset by original, at which its edge was cached. */
  lemma {:induction false} CacheOfLookup(edges: seq<Edge>, original: nat, e: Edge)
    ensures e in CacheOf(edges, original) <==> e in edges
    ensures e in CacheOf(edges, original) ==>
      original <= CacheOf(edges, original)[e] < original + |edges| &&
      edges[CacheOf(edges, original)[e] - original] == e
  {
    if |edges| > 0 {
      var n := |edges| - 1;
      CacheOfLookup(edges[..n], original, e);
      assert edges == edges[..n] + [edges[n]];
      if e != edges[n] && e in CacheOf(edges[..n], original) {
        assert edges[..n][CacheOf(edges[..n], original)[e] - original] == e;
      }
    }
  }

  /** Caching one more edge updates the dictionary at that edge only. */
  lemma CacheOfSnoc(edges: seq<Edge>, original: nat, e: Edge)
    ensures CacheOf(edges + [e], original) == CacheOf(edges, original)[e := original + |edges|]
  {
    assert (edges + [e])[..|edges|] == edges;
  }

  /** Each edge was new, in either direction, when it was cached. */
  ghost predicate RecordedOnce(edges: seq<Edge>) {
    |edges| == 0 ||
    (var n := |edges| - 1; RecordedOnce(edges[..n]) && !Has(edges[..n], edges[n].0, edges[n].1))
  }

  lemma {:induction false} RecordedOnceDistinct(edges: seq<Edge>)
    requires RecordedOnce(edges)
    ensures UndirectedDistinct(edges)
  {
    if |edges| > 0 {
      var n := |edges| - 1;
      RecordedOnceDistinct(edges[..n]);
      AddEdgeDistinct(edges[..n], edges[n].0, edges[n].1);
      assert edges == edges[..n] + [edges[n]];
    }
  }

  /** Each cached edge adds one key. */
  lemma {:induction false} CacheSize(edges: seq<Edge>, original: nat)
    requires RecordedOnce(edges)
    ensures |CacheOf(edges, original)| == |edges|
  {
    if |edges| > 0 {
      var n := |edges| - 1;
      CacheSize(edges[..n], original);
      CacheOfLookup(edges[..n], original, edges[n]);
      assert edges[n] !in edges[..n];
    }
  }

  /** Every cached edge joins two of the n original vertices. */
  ghost predicate EdgesFit(edges: seq<Edge>, n: nat) {
    forall k :: 0 <= k < |edges| ==> 0 <= edges[k].0 < n && 0 <= edges[k].1 < n
  }

  /** A cache hit in either direction yields the midpoint of the undirected edge. */
  lemma CacheHit(original: nat, edges: seq<Edge>, i1: int, i2: int, key: Edge)
    requires RecordedOnce(edges)
    requires (key == (i1, i2) || key == (i2, i1)) && key in CacheOf(edges, original)
    ensures Has(edges, i1, i2) && CacheOf(edges, original)[key] == Mid(edges, original, i1, i2)
  {
    CacheOfLookup(edges, original, key);
    RecordedOnceDistinct(edges);
    EdgeIndexUnique(edges, i1, i2, CacheOf(edges, original)[key] - original);
  }

  /** A miss in both directions means the undirected edge is not cached. */
  lemma CacheMiss(original: nat, edges: seq<Edge>, i1: int, i2: int)
    requires (i1, i2) !in CacheOf(edges, original) && (i2, i1) !in CacheOf(edges, original)
    ensures !Has(edges, i1, i2)
  {
    CacheOfLookup(edges, original, (i1, i2));
    CacheOfLookup(edges, original, (i2, i1));
  }

  /** Appending the midpoint of edge (a, b) to a vertex list that matches es
      gives the list that matches es + [(a, b)]. */
  lemma AppendMidpoint(base: seq<Vector3>, es: seq<Edge>, vs: seq<Vector3>, a: int, b: int)
    requires EdgesFit(es, |base|) && 0 <= a < |base| && 0 <= b < |base|
    requires vs == base + Midpoints(base, es)
    ensures vs + [Midpoint(vs[a], vs[b])] == base + Midpoints(base, es + [(a, b)])
  {
    assert (es + [(a, b)])[..|es|] == es;
    assert vs[a] == base[a] && vs[b] == base[b];
    assert Midpoints(base, es + [(a, b)]) == Midpoints(base, es) + [Midpoint(base[a], base[b])];
  }

  lemma AppendNormalSum(base: seq<Vector3>, es: seq<Edge>, ns: seq<Vector3>, a: int, b: int)
    requires EdgesFit(es, |base|) && 0 <= a < |base| && 0 <= b < |base|
    requires ns == base + NormalSums(base, es)
    ensures ns + [NormalizedSum(ns[a], ns[b])] == base + NormalSums(base, es + [(a, b)])
  {
    assert (es + [(a, b)])[..|es|] == es;
    assert ns[a] == base[a] && ns[b] == base[b];
    assert NormalSums(base, es + [(a, b)]) == NormalSums(base, es) + [NormalizedSum(base[a], base[b])];
  }

  /** Caching a new edge: its key maps to the next vertex number, which is the
      midpoint vertex of the edge. */
  lemma CacheInsert(base: seq<Vector3>, baseNormals: seq<Vector3>, edges: seq<Edge>, i1: int, i2: int)
    requires |baseNormals| == |base| && RecordedOnce(edges) && EdgesFit(edges, |base|)
    requires 0 <= i1 < |base| && 0 <= i2 < |base| && !Has(edges, i1, i2)
    ensures edges + [(i1, i2)] == AddEdge(edges, i1, i2)
    ensures RecordedOnce(edges + [(i1, i2)]) && EdgesFit(edges + [(i1, i2)], |base|)
    ensures Mid(edges + [(i1, i2)], |base|, i1, i2) == |base| + |edges|
  {
    var edges' := edges + [(i1, i2)];
    assert edges'[..|edges|] == edges;
    RecordedOnceDistinct(edges');
    EdgeIndexUnique(edges', i1, i2, |edges|);
  }

  // ---------------------------------------------------------------------
  // The numbering of the whole list
  // ---------------------------------------------------------------------

  /** A midpoint already numbered while a prefix of the sides was recorded
      keeps its number when the remaining sides are recorded. */
  lemma MidInWhole(ss: seq<Edge>, m: nat, n0: nat, a: int, b: int)
    requires m <= |ss| && Has(Dedup(ss[..m]), a, b)
    ensures Has(Dedup(ss), a, b)
    ensures Mid(Dedup(ss), n0, a, b) == Mid(Dedup(ss[..m]), n0, a, b)
  {
    var whole, part := Dedup(ss), Dedup(ss[..m]);
    DedupPrefix(ss, m);
    DedupDistinct(ss);
    assert whole[..|part|] == part;
    EdgeIndexPrefix(whole, |part|, a, b);
  }

  /** Recording the three sides of the next triangle. */
  lemma DedupStep(tris: seq<int>, i: nat)
    requires |tris| % 3 == 0 && i % 3 == 0 && i + 3 <= |tris|
    ensures var ss := Sides(tris);
      Dedup(ss[..i + 3]) ==
        AddEdge(AddEdge(AddEdge(Dedup(ss[..i]), tris[i], tris[i + 1]), tris[i + 1], tris[i + 2]), tris[i + 2], tris[i])
  {
    var ss := Sides(tris);
    assert Succ(i) == i + 1 && Succ(i + 1) == i + 2 && Succ(i + 2) == i;
    DedupSnoc(ss, i);
    DedupSnoc(ss, i + 1);
    DedupSnoc(ss, i + 2);
  }

  /** One pass of the subdivision loop, on the cache: after the three sides of
      triangle i are looked up, the cache holds the distinct edges of the first
      i + 3 indices, and each side's midpoint already has the number it has in
      the final edge list. */
  lemma EdgeStep(tris: seq<int>, i: nat, n0: nat, e0: seq<Edge>, e1: seq<Edge>, e2: seq<Edge>, e3: seq<Edge>)
    requires |tris| % 3 == 0 && i % 3 == 0 && i + 3 <= |tris|
    requires e0 == Dedup(Sides(tris)[..i])
    requires e1 == AddEdge(e0, tris[i], tris[i + 1])
    requires e2 == AddEdge(e1, tris[i + 1], tris[i + 2])
    requires e3 == AddEdge(e2, tris[i + 2], tris[i])
    ensures e3 == Dedup(Sides(tris)[..i + 3])
    ensures Has(EdgesOf(tris), tris[i], tris[i + 1]) && Has(EdgesOf(tris), tris[i + 1], tris[i + 2])
    ensures Has(EdgesOf(tris), tris[i + 2], tris[i])
    ensures Mid(e1, n0, tris[i], tris[i + 1]) == Mid(EdgesOf(tris), n0, tris[i], tris[i + 1])
    ensures Mid(e2, n0, tris[i + 1], tris[i + 2]) == Mid(EdgesOf(tris), n0, tris[i + 1], tris[i + 2])
    ensures Mid(e3, n0, tris[i + 2], tris[i]) == Mid(EdgesOf(tris), n0, tris[i + 2], tris[i])
  {
    var ss := Sides(tris);
    var i1, i2, i3 := tris[i], tris[i + 1], tris[i + 2];
    DedupStep(tris, i);
    EdgeIndexStable(e1, i2, i3, i1, i2);
    EdgeIndexStable(e2, i3, i1, i1, i2);
    EdgeIndexStable(e2, i3, i1, i2, i3);
    MidInWhole(ss, i + 3, n0, i1, i2);
    MidInWhole(ss, i + 3, n0, i2, i3);
    MidInWhole(ss, i + 3, n0, i3, i1);
  }

  /** When the loop has seen every index, the cache holds all the edges and the
      index list is the whole refinement. */
  lemma LoopDone(tris: seq<int>, i: nat, edges: seq<Edge>, idx: seq<int>, n0: nat)
    requires |tris| % 3 == 0 && i == |tris| && CoversSides(tris[..i], EdgesOf(tris))
    requires edges == Dedup(Sides(tris)[..i])
    requires idx == RefinedWith(tris[..i], EdgesOf(tris), n0)
    ensures edges == EdgesOf(tris) && idx == Refined(tris, n0)
  {
    assert tris[..i] == tris;
    assert Sides(tris)[..i] == Sides(tris);
  }

  /** The working lists built from all the edges are the subdivided lists. */
  lemma SubdividedFromCache(vs: seq<Vector3>, ns: seq<Vector3>, tris: seq<int>, edges: seq<Edge>,
                            v: seq<Vector3>, n: seq<Vector3>)
    requires |ns| == |vs| && |tris| % 3 == 0
    requires forall k :: 0 <= k < |tris| ==> 0 <= tris[k] < |vs|
    requires edges == EdgesOf(tris) && EdgesFit(edges, |vs|)
    requires v == vs + Midpoints(vs, edges) && n == ns + NormalSums(ns, edges)
    ensures v == SubdividedVertices(vs, tris) && n == SubdividedNormals(ns, tris)
  {
  }

  class MeshHelper {
    var vertices: Option<seq<Vector3>>
    var normals: Option<seq<Vector3>>
    var indices: Option<seq<int>>
    var newVertices: Option<map<Edge, int>>   // the edge-to-midpoint dictionary
    ghost var base: seq<Vector3>              // the vertices before subdivision
    ghost var baseNormals: seq<Vector3>       // the normals before subdivision
    ghost var original: nat                   // the vertex count before subdivision
    ghost var edges: seq<Edge>                // cached edges, in insertion order

    constructor ()
      ensures vertices.None? && normals.None? && indices.None? && newVertices.None?
    {
      vertices, normals, indices, newVertices := None, None, None, None;
      base, baseNormals, original, edges := [], [], 0, [];
    }

    /** The working lists are determined by the cached edges: the dictionary
        numbers them after the original vertices, no edge is cached in both
        directions, and the vertex and normal lists are the originals followed
        by one midpoint term per cached edge. */
    ghost predicate Valid()
      reads this
    {
      indices.Some? && Tables()
    }

    /** The part of the invariant about the cache and the two lists; the
        index list does not enter it. */
    ghost predicate Tables()
      reads this`vertices, this`normals, this`newVertices, this`base, this`baseNormals, this`original, this`edges
    {
      original == |base| && |baseNormals| == |base| &&
      RecordedOnce(edges) && EdgesFit(edges, |base|) &&
      newVertices == Some(CacheOf(edges, |base|)) &&
      vertices == Some(base + Midpoints(base, edges)) &&
      normals == Some(baseNormals + NormalSums(baseNormals, edges))
    }

    /** Whenever the state is valid, the vertex and normal lists have equal
        length: the originals plus one entry per cached edge. */
    lemma ListsAligned()
      requires Valid()
      ensures |vertices.value| == |normals.value| == original + |edges|
      ensures |newVertices.value| == |edges|
    {
      CacheSize(edges, original);
    }

    /** The midpoint vertex of edge (i1, i2): the cached one if the edge is
        cached in the reverse direction, else the cached one if it is cached in
        this direction, else a new vertex appended to the lists and cached
        under (i1, i2). Either way it is the vertex of the undirected edge. */
    method GetNewVertex(i1: int, i2: int) returns (newIndex: int)
      requires Valid() && 0 <= i1 < original && 0 <= i2 < original
      modifies this`vertices, this`normals, this`newVertices, this`edges
      ensures Valid()
      ensures edges == AddEdge(old(edges), i1, i2)
      ensures newIndex == Mid(edges, original, i1, i2)
      ensures (i2, i1) in old(newVertices.value) ==> newIndex == old(newVertices.value)[(i2, i1)]
      ensures (i2, i1) !in old(newVertices.value) && (i1, i2) in old(newVertices.value) ==>
                newIndex == old(newVertices.value)[(i1, i2)]
      ensures (i2, i1) !in old(newVertices.value) && (i1, i2) !in old(newVertices.value) ==>
                newIndex == |old(vertices.value)| && edges == old(edges) + [(i1, i2)]
    {
      var cache := newVertices.value;
      var t1 := (i1, i2);
      var t2 := (i2, i1);
      if t2 in cache {
        CacheHit(original, edges, i1, i2, t2);
        return cache[t2];
      }
      if t1 in cache {
        CacheHit(original, edges, i1, i2, t1);
        return cache[t1];
      }
      var vs, ns := vertices.value, normals.value;
      CacheMiss(original, edges, i1, i2);
      CacheInsert(base, baseNormals, edges, i1, i2);
      CacheOfSnoc(edges, original, t1);
      AppendMidpoint(base, edges, vs, i1, i2);
      AppendNormalSum(baseNormals, edges, ns, i1, i2);
      newIndex := |vs|;
      newVertices := Some(cache[t1 := newIndex]);
      vertices := Some(vs + [Midpoint(vs[i1], vs[i2])]);
      normals := Some(ns + [NormalizedSum(ns[i1], ns[i2])]);
      edges := edges + [t1];
    }

    /** One pass of the loop in Subdivide: the midpoints of the three sides of
        triangle (i1, i2, i3), then its four replacement triangles appended to
        the new index list. */
    method SplitTriangle(i1: int, i2: int, i3: int) returns (a: int, b: int, c: int)
      requires Valid() && 0 <= i1 < original && 0 <= i2 < original && 0 <= i3 < original
      modifies this`vertices, this`normals, this`newVertices, this`edges, this`indices
      ensures Valid()
      ensures edges == AddEdge(AddEdge(AddEdge(old(edges), i1, i2), i2, i3), i3, i1)
      ensures a == Mid(AddEdge(old(edges), i1, i2), original, i1, i2)
      ensures b == Mid(AddEdge(AddEdge(old(edges), i1, i2), i2, i3), original, i2, i3)
      ensures c == Mid(edges, original, i3, i1)
      ensures indices == Some(old(indices.value) + [i1, a, c, i2, b, a, i3, c, b, a, b, c])
    {
      a := GetNewVertex(i1, i2);
      b := GetNewVertex(i2, i3);
      c := GetNewVertex(i3, i1);
      indices := Some(indices.value + [i1, a, c, i2, b, a, i3, c, b, a, b, c]);
    }

    /** The start of Subdivide: an empty cache, copies of the vertex and
        normal lists, and an empty index list. */
    method Begin(vs: seq<Vector3>, ns: seq<Vector3>)
      requires |ns| == |vs|
      modifies this
      ensures Valid() && edges == [] && indices == Some([])
      ensures base == vs && baseNormals == ns && original == |vs|
      ensures newVertices == Some(map[]) && vertices == Some(vs) && normals == Some(ns)
    {
      newVertices := Some(map[]);
      vertices := Some(vs);
      normals := Some(ns);
      indices := Some([]);
      base, baseNormals := vs, ns;
      original := |vs|;
      edges := [];
      assert base + Midpoints(base, edges) == base;
      assert baseNormals + NormalSums(baseNormals, edges) == baseNormals;
    }

    /** The loop of Subdivide: each triangle is split in turn, so that the
        cache ends up holding every undirected edge of the mesh in order of
        first appearance, the working lists the subdivided vertices and
        normals, and indices the refined triangles. */
    method RefineAll(triangles: seq<int>)
      requires Valid() && edges == [] && indices == Some([]) && |triangles| % 3 == 0
      requires forall k :: 0 <= k < |triangles| ==> 0 <= triangles[k] < original
      modifies this`vertices, this`normals, this`newVertices, this`edges, this`indices
      ensures vertices == Some(SubdividedVertices(base, triangles))
      ensures normals == Some(SubdividedNormals(baseNormals, triangles))
      ensures indices == Some(Refined(triangles, original))
    {
      ghost var ss := Sides(triangles);
      ghost var all := EdgesOf(triangles);
      EdgesOfCoversSides(triangles);
      var i := 0;
      while i < |triangles|
        invariant 0 <= i <= |triangles| && i % 3 == 0
        invariant Valid() && edges == Dedup(ss[..i])
        invariant CoversSides(triangles[..i], all)
        invariant indices == Some(RefinedWith(triangles[..i], all, original))
      {
        var i1 := triangles[i + 0];
        var i2 := triangles[i + 1];
        var i3 := triangles[i + 2];
        ghost var e0 := edges;
        var a, b, c := SplitTriangle(i1, i2, i3);
        EdgeStep(triangles, i, original, e0, AddEdge(e0, i1, i2), AddEdge(AddEdge(e0, i1, i2), i2, i3), edges);
        RefinedWithSnoc(triangles, all, original, i);
        assert (i + 3) % 3 == 0;
        i := i + 3;
      }
      LoopDone(triangles, i, edges, indices.value, original);
      SubdividedFromCache(base, baseNormals, triangles, edges, vertices.value, normals.value);
    }

    /** One round of subdivision of mesh: every triangle (i1, i2, i3) becomes
        the four triangles (i1, a, c), (i2, b, a), (i3, c, b), (a, b, c), where
        a, b, c are the midpoints of its sides (i1, i2), (i2, i3), (i3, i1).
        The mesh gets the original vertices and normals followed by one
        midpoint per undirected edge, in order of first appearance; a colour
        channel follows the new vertex count, its old entries first. The
        working lists are cleared afterwards. */
    method Subdivide(mesh: Mesh)
      requires |mesh.normals| == |mesh.vertices|
      requires |mesh.triangles| % 3 == 0
      requires forall k :: 0 <= k < |mesh.triangles| ==> 0 <= mesh.triangles[k] < |mesh.vertices|
      modifies this, mesh
      ensures mesh.vertices == SubdividedVertices(old(mesh.vertices), old(mesh.triangles))
      ensures mesh.normals == SubdividedNormals(old(mesh.normals), old(mesh.triangles))
      ensures mesh.triangles == Refined(old(mesh.triangles), |old(mesh.vertices)|)
      ensures mesh.colors == Resized(old(mesh.colors), |mesh.vertices|, Clear)
      ensures vertices.None? && normals.None? && indices.None? && newVertices.None?
    {
      Begin(mesh.vertices, mesh.normals);
      RefineAll(mesh.triangles);

      mesh.SetVertices(vertices.value);
      mesh.normals := normals.value;
      mesh.triangles := indices.value;

      newVertices := None;
      vertices := None;
      normals := None;
      indices := None;
    }
  }
}
