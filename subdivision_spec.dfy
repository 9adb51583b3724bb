/**
 * What one round of 1-to-4 triangle subdivision computes, as functions of the
 * source triangle list. The sides of the triangles are visited in order,
 * (i1, i2), (i2, i3), (i3, i1) per triangle; each undirected edge is recorded
 * the first time it is met, in the direction it is met, and the midpoint of the
 * k-th recorded edge is vertex n0 + k, where n0 is the original vertex count.
 */
module SubdivisionSpec {
  import opened Unity

  type Edge = (int, int)

  /** es records the undirected edge {a, b} in one of its two directions. */
  predicate Has(es: seq<Edge>, a: int, b: int) {
    (a, b) in es || (b, a) in es
  }

  /** No edge is recorded twice, in either direction. */
  ghost predicate UndirectedDistinct(es: seq<Edge>) {
    forall j, k :: 0 <= j < k < |es| ==> es[j] != es[k] && es[j] != (es[k].1, es[k].0)
  }

  /** Record edge (a, b) unless it or its reverse is already recorded. */
  function AddEdge(es: seq<Edge>, a: int, b: int): (r: seq<Edge>)
    ensures Has(r, a, b)
    ensures Has(es, a, b) ==> r == es
    ensures !Has(es, a, b) ==> r == es + [(a, b)]
  {
    if Has(es, a, b) then es else es + [(a, b)]
  }

  /** Recording (c, d) adds the undirected edge {c, d} and nothing else. */
  lemma AddEdgeHas(es: seq<Edge>, c: int, d: int)
    ensures forall a, b :: Has(AddEdge(es, c, d), a, b) <==> Has(es, a, b) || (a, b) == (c, d) || (a, b) == (d, c)
  {
  }

  lemma AddEdgeDistinct(es: seq<Edge>, a: int, b: int)
    requires UndirectedDistinct(es)
    ensures UndirectedDistinct(AddEdge(es, a, b))
  {
    if !Has(es, a, b) {
      var r := es + [(a, b)];
      forall j, k | 0 <= j < k < |r|
        ensures r[j] != r[k] && r[j] != (r[k].1, r[k].0)
      {
        if k == |es| {
          assert r[j] == es[j] && es[j] in es;
        }
      }
    }
  }

  /** The position at which the undirected edge {a, b} is recorded. */
  function EdgeIndex(es: seq<Edge>, a: int, b: int): (k: nat)
    requires Has(es, a, b)
    ensures k < |es| && (es[k] == (a, b) || es[k] == (b, a))
  {
    var last := |es| - 1;
    if es[last] == (a, b) || es[last] == (b, a) then last
    else
      assert es == es[..last] + [es[last]];
      EdgeIndex(es[..last], a, b)
  }

  /** The position of {a, b} does not depend on the direction it is asked in. */
  lemma {:induction false} EdgeIndexSymmetric(es: seq<Edge>, a: int, b: int)
    requires Has(es, a, b)
    ensures Has(es, b, a) && EdgeIndex(es, a, b) == EdgeIndex(es, b, a)
  {
    var last := |es| - 1;
    if !(es[last] == (a, b) || es[last] == (b, a)) {
      assert es == es[..last] + [es[last]];
      EdgeIndexSymmetric(es[..last], a, b);
    }
  }

  lemma SameEdgeSamePosition(es: seq<Edge>, a: int, b: int, j: nat, k: nat)
    requires UndirectedDistinct(es) && j < |es| && k < |es|
    requires es[j] == (a, b) || es[j] == (b, a)
    requires es[k] == (a, b) || es[k] == (b, a)
    ensures j == k
  {
  }

  /** In a list without repetitions the recorded position is the only one. */
  lemma EdgeIndexUnique(es: seq<Edge>, a: int, b: int, k: nat)
    requires UndirectedDistinct(es) && k < |es| && (es[k] == (a, b) || es[k] == (b, a))
    ensures EdgeIndex(es, a, b) == k
  {
    SameEdgeSamePosition(es, a, b, EdgeIndex(es, a, b), k);
  }

  /** Recording another edge does not move the ones already recorded. */
  lemma EdgeIndexStable(es: seq<Edge>, c: int, d: int, a: int, b: int)
    requires Has(es, a, b)
    ensures Has(AddEdge(es, c, d), a, b)
    ensures EdgeIndex(AddEdge(es, c, d), a, b) == EdgeIndex(es, a, b)
  {
    if !Has(es, c, d) {
      var r := es + [(c, d)];
      assert r[..|es|] == es;
      assert r[|es|] != (a, b) && r[|es|] != (b, a);
    }
  }

  /** An edge recorded in a prefix keeps its position in the whole list. */
  lemma EdgeIndexPrefix(es: seq<Edge>, m: nat, a: int, b: int)
    requires UndirectedDistinct(es) && m <= |es| && Has(es[..m], a, b)
    ensures Has(es, a, b) && EdgeIndex(es, a, b) == EdgeIndex(es[..m], a, b)
  {
    var k := EdgeIndex(es[..m], a, b);
    assert es[k] == es[..m][k] && es[k] in es;
    EdgeIndexUnique(es, a, b, k);
  }

  // ---------------------------------------------------------------------
  // The sides of a triangle list and the edges they record
  // ---------------------------------------------------------------------

  /** The position of the corner after corner k in its triangle. */
  function Succ(k: nat): (j: nat)
    ensures j / 3 == k / 3 && j % 3 == (k % 3 + 1) % 3
  {
    if k % 3 == 2 then k - 2 else k + 1
  }

  /** The directed sides of the triangles, three per triangle, in order. */
  function Sides(tris: seq<int>): (ss: seq<Edge>)
    requires |tris| % 3 == 0
    ensures |ss| == |tris|
  {
    seq(|tris|, k requires 0 <= k < |tris| => (tris[k], tris[Succ(k)]))
  }

  /** The sides of a prefix of whole triangles are a prefix of the sides. */
  lemma SidesPrefix(tris: seq<int>, m: nat)
    requires |tris| % 3 == 0 && m % 3 == 0 && m <= |tris|
    ensures Sides(tris[..m]) == Sides(tris)[..m]
  {
    forall k | 0 <= k < m
      ensures Sides(tris[..m])[k] == Sides(tris)[k]
    {
      assert Succ(k) < m;
    }
  }

  /** Record each of ss in turn. */
  function Dedup(ss: seq<Edge>): (es: seq<Edge>)
    ensures |es| <= |ss|
  {
    if |ss| == 0 then []
    else
      var last := ss[|ss| - 1];
      AddEdge(Dedup(ss[..|ss| - 1]), last.0, last.1)
  }

  /** The edges of the triangle list, each once, in order of first appearance. */
  function EdgesOf(tris: seq<int>): (es: seq<Edge>)
    requires |tris| % 3 == 0
    ensures |es| <= |tris|
  {
    Dedup(Sides(tris))
  }

  /** Every recorded edge is one of the sides, in the direction it was met. */
  lemma {:induction false} DedupSubset(ss: seq<Edge>)
    ensures forall e :: e in Dedup(ss) ==> e in ss
  {
    if |ss| > 0 {
      var init := ss[..|ss| - 1];
      DedupSubset(init);
      assert ss == init + [ss[|ss| - 1]];
    }
  }

  /** Recording one more side. */
  lemma DedupSnoc(ss: seq<Edge>, j: nat)
    requires j < |ss|
    ensures Dedup(ss[..j + 1]) == AddEdge(Dedup(ss[..j]), ss[j].0, ss[j].1)
  {
    assert ss[..j + 1][..j] == ss[..j];
  }

  lemma {:induction false} DedupDistinct(ss: seq<Edge>)
    ensures UndirectedDistinct(Dedup(ss))
  {
    if |ss| > 0 {
      var last := ss[|ss| - 1];
      DedupDistinct(ss[..|ss| - 1]);
      AddEdgeDistinct(Dedup(ss[..|ss| - 1]), last.0, last.1);
    }
  }

  /** Dedup records exactly the undirected edges among ss. */
  lemma {:induction false} DedupExact(ss: seq<Edge>)
    ensures forall a, b :: Has(Dedup(ss), a, b) <==> Has(ss, a, b)
  {
    if |ss| > 0 {
      var init, last := ss[..|ss| - 1], ss[|ss| - 1];
      DedupExact(init);
      AddEdgeHas(Dedup(init), last.0, last.1);
      assert ss == init + [last];
    }
  }

  /** Recording more sides only appends. */
  lemma {:induction false} DedupPrefix(ss: seq<Edge>, m: nat)
    requires m <= |ss|
    ensures |Dedup(ss[..m])| <= |Dedup(ss)|
    ensures Dedup(ss)[..|Dedup(ss[..m])|] == Dedup(ss[..m])
  {
    if m < |ss| {
      var init := ss[..|ss| - 1];
      assert init[..m] == ss[..m];
      DedupPrefix(init, m);
    } else {
      assert ss[..m] == ss;
    }
  }

  lemma EdgesOfDistinct(tris: seq<int>)
    requires |tris| % 3 == 0
    ensures UndirectedDistinct(EdgesOf(tris))
  {
    DedupDistinct(Sides(tris));
  }

  /** EdgesOf records exactly the undirected edges of the mesh: {a, b} is
      recorded (in some direction) iff (a, b) or (b, a) is a side of some triangle. */
  lemma EdgesOfExact(tris: seq<int>)
    requires |tris| % 3 == 0
    ensures forall a, b :: Has(EdgesOf(tris), a, b) <==>
              exists k :: 0 <= k < |tris| && (Sides(tris)[k] == (a, b) || Sides(tris)[k] == (b, a))
  {
    DedupExact(Sides(tris));
  }

  /** Recorded edges only join vertices that the triangles mention. */
  lemma EdgesOfEndpoints(tris: seq<int>, n0: nat)
    requires |tris| % 3 == 0
    requires forall k :: 0 <= k < |tris| ==> 0 <= tris[k] < n0
    ensures forall k :: 0 <= k < |EdgesOf(tris)| ==> 0 <= EdgesOf(tris)[k].0 < n0 && 0 <= EdgesOf(tris)[k].1 < n0
  {
    var es, ss := EdgesOf(tris), Sides(tris);
    DedupSubset(ss);
    forall k | 0 <= k < |es|
      ensures 0 <= es[k].0 < n0 && 0 <= es[k].1 < n0
    {
      assert es[k] in es;
      var j :| 0 <= j < |ss| && ss[j] == es[k];
    }
  }

  // ---------------------------------------------------------------------
  // The refined triangle list
  // ---------------------------------------------------------------------

  /** Every side of every triangle is recorded in es. */
  ghost predicate CoversSides(tris: seq<int>, es: seq<Edge>)
    requires |tris| % 3 == 0
  {
    forall k :: 0 <= k < |tris| ==> Has(es, tris[k], tris[Succ(k)])
  }

  lemma CoversSidesTake(tris: seq<int>, es: seq<Edge>, m: nat)
    requires |tris| % 3 == 0 && m % 3 == 0 && m <= |tris| && CoversSides(tris, es)
    ensures CoversSides(tris[..m], es)
  {
    forall k | 0 <= k < m
      ensures Has(es, tris[..m][k], tris[..m][Succ(k)])
    {
      assert Succ(k) < m;
      assert Has(es, tris[k], tris[Succ(k)]);
    }
  }

  lemma CoversLastTriangle(tris: seq<int>, es: seq<Edge>)
    requires |tris| % 3 == 0 && |tris| > 0 && CoversSides(tris, es)
    ensures var n := |tris| - 3;
      Has(es, tris[n], tris[n + 1]) && Has(es, tris[n + 1], tris[n + 2]) && Has(es, tris[n + 2], tris[n])
  {
    var n := |tris| - 3;
    assert Succ(n) == n + 1 && Succ(n + 1) == n + 2 && Succ(n + 2) == n;
    assert Has(es, tris[n], tris[Succ(n)]) && Has(es, tris[n + 1], tris[Succ(n + 1)]) && Has(es, tris[n + 2], tris[Succ(n + 2)]);
  }

  lemma EdgesOfCoversSides(tris: seq<int>)
    requires |tris| % 3 == 0
    ensures CoversSides(tris, EdgesOf(tris))
  {
    var ss := Sides(tris);
    DedupExact(ss);
    forall k | 0 <= k < |tris|
      ensures Has(EdgesOf(tris), tris[k], tris[Succ(k)])
    {
      assert ss[k] in ss;
    }
  }

  /** The midpoint vertex of the undirected edge {a, b}. */
  function Mid(es: seq<Edge>, n0: nat, a: int, b: int): (v: int)
    requires Has(es, a, b)
    ensures n0 <= v < n0 + |es|
  {
    n0 + EdgeIndex(es, a, b)
  }

  /** Both directions of an edge have the same midpoint vertex. */
  lemma MidSymmetric(es: seq<Edge>, n0: nat, a: int, b: int)
    requires Has(es, a, b)
    ensures Has(es, b, a) && Mid(es, n0, a, b) == Mid(es, n0, b, a)
  {
    EdgeIndexSymmetric(es, a, b);
  }

  /** The four triangles that replace (i1, i2, i3): one per corner and the centre. */
  function Quad(es: seq<Edge>, n0: nat, i1: int, i2: int, i3: int): (q: seq<int>)
    requires Has(es, i1, i2) && Has(es, i2, i3) && Has(es, i3, i1)
    ensures |q| == 12
  {
    var a, b, c := Mid(es, n0, i1, i2), Mid(es, n0, i2, i3), Mid(es, n0, i3, i1);
    [i1, a, c, i2, b, a, i3, c, b, a, b, c]
  }

  /** The triangle list refined against a fixed edge numbering es:
      four triangles per source triangle, in order. */
  function RefinedWith(tris: seq<int>, es: seq<Edge>, n0: nat): (r: seq<int>)
    requires |tris| % 3 == 0 && CoversSides(tris, es)
    ensures |r| == 4 * |tris|
    decreases |tris|
  {
    if |tris| == 0 then []
    else
      var n := |tris| - 3;
      CoversSidesTake(tris, es, n);
      CoversLastTriangle(tris, es);
      RefinedWith(tris[..n], es, n0) + Quad(es, n0, tris[n], tris[n + 1], tris[n + 2])
  }

  /** Refining one more triangle appends its four triangles. */
  lemma RefinedWithSnoc(tris: seq<int>, es: seq<Edge>, n0: nat, m: nat)
    requires |tris| % 3 == 0 && m % 3 == 0 && m + 3 <= |tris| && CoversSides(tris, es)
    ensures CoversSides(tris[..m], es) && CoversSides(tris[..m + 3], es)
    ensures Has(es, tris[m], tris[m + 1]) && Has(es, tris[m + 1], tris[m + 2]) && Has(es, tris[m + 2], tris[m])
    ensures RefinedWith(tris[..m + 3], es, n0) == RefinedWith(tris[..m], es, n0) + Quad(es, n0, tris[m], tris[m + 1], tris[m + 2])
  {
    CoversSidesTake(tris, es, m);
    CoversSidesTake(tris, es, m + 3);
    var t := tris[..m + 3];
    assert t[..m] == tris[..m];
    CoversLastTriangle(t, es);
  }

  /** The subdivided triangle list, with the edges numbered in order of first appearance. */
  function Refined(tris: seq<int>, n0: nat): (r: seq<int>)
    requires |tris| % 3 == 0
    ensures |r| == 4 * |tris|
  {
    EdgesOfCoversSides(tris);
    RefinedWith(tris, EdgesOf(tris), n0)
  }

  lemma QuadInRange(es: seq<Edge>, n0: nat, i1: int, i2: int, i3: int)
    requires Has(es, i1, i2) && Has(es, i2, i3) && Has(es, i3, i1)
    requires 0 <= i1 < n0 && 0 <= i2 < n0 && 0 <= i3 < n0
    ensures forall k :: 0 <= k < 12 ==> 0 <= Quad(es, n0, i1, i2, i3)[k] < n0 + |es|
  {
  }

  lemma QuadCorners(es: seq<Edge>, n0: nat, i1: int, i2: int, i3: int)
    requires Has(es, i1, i2) && Has(es, i2, i3) && Has(es, i3, i1)
    ensures var q := Quad(es, n0, i1, i2, i3); q[0] == i1 && q[3] == i2 && q[6] == i3
  {
  }

  lemma {:induction false} RefinedWithInRange(tris: seq<int>, es: seq<Edge>, n0: nat)
    requires |tris| % 3 == 0 && CoversSides(tris, es)
    requires forall k :: 0 <= k < |tris| ==> 0 <= tris[k] < n0
    ensures forall k :: 0 <= k < |RefinedWith(tris, es, n0)| ==> 0 <= RefinedWith(tris, es, n0)[k] < n0 + |es|
    decreases |tris|
  {
    if |tris| > 0 {
      var n := |tris| - 3;
      CoversSidesTake(tris, es, n);
      CoversLastTriangle(tris, es);
      RefinedWithInRange(tris[..n], es, n0);
      QuadInRange(es, n0, tris[n], tris[n + 1], tris[n + 2]);
    }
  }

  /** The refined mesh is well formed: when every source index is one of the n0
      original vertices, every refined index is an original vertex or one of
      the |EdgesOf(tris)| midpoints that follow them. */
  lemma RefinedInRange(tris: seq<int>, n0: nat)
    requires |tris| % 3 == 0
    requires forall k :: 0 <= k < |tris| ==> 0 <= tris[k] < n0
    ensures forall k :: 0 <= k < |Refined(tris, n0)| ==> 0 <= Refined(tris, n0)[k] < n0 + |EdgesOf(tris)|
  {
    EdgesOfCoversSides(tris);
    RefinedWithInRange(tris, EdgesOf(tris), n0);
  }

  lemma {:induction false} RefinedWithKeepsCorners(tris: seq<int>, es: seq<Edge>, n0: nat, t: nat)
    requires |tris| % 3 == 0 && CoversSides(tris, es) && 3 * t + 3 <= |tris|
    ensures RefinedWith(tris, es, n0)[12 * t] == tris[3 * t]
    ensures RefinedWith(tris, es, n0)[12 * t + 3] == tris[3 * t + 1]
    ensures RefinedWith(tris, es, n0)[12 * t + 6] == tris[3 * t + 2]
    decreases |tris|
  {
    var n := |tris| - 3;
    CoversSidesTake(tris, es, n);
    CoversLastTriangle(tris, es);
    var p := tris[..n];
    var head := RefinedWith(p, es, n0);
    assert RefinedWith(tris, es, n0) == head + Quad(es, n0, tris[n], tris[n + 1], tris[n + 2]);
    if 3 * t < n {
      RefinedWithKeepsCorners(p, es, n0, t);
      assert 12 * t + 6 < |head|;
      assert p[3 * t] == tris[3 * t] && p[3 * t + 1] == tris[3 * t + 1] && p[3 * t + 2] == tris[3 * t + 2];
    } else {
      QuadCorners(es, n0, tris[n], tris[n + 1], tris[n + 2]);
      assert 3 * t == n && 12 * t == |head|;
    }
  }

  /** Every source corner survives as the first corner of its corner triangle:
      triangle t becomes refined triangles 4t .. 4t+3, and the first three of
      them start at its corners i1, i2, i3. */
  lemma RefinedKeepsCorners(tris: seq<int>, n0: nat, t: nat)
    requires |tris| % 3 == 0 && 3 * t + 3 <= |tris|
    ensures Refined(tris, n0)[12 * t] == tris[3 * t]
    ensures Refined(tris, n0)[12 * t + 3] == tris[3 * t + 1]
    ensures Refined(tris, n0)[12 * t + 6] == tris[3 * t + 2]
  {
    EdgesOfCoversSides(tris);
    RefinedWithKeepsCorners(tris, EdgesOf(tris), n0, t);
  }

  // ---------------------------------------------------------------------
  // The new vertex data
  // ---------------------------------------------------------------------

  /** One midpoint term per recorded edge. */
  function Midpoints(vertices: seq<Vector3>, es: seq<Edge>): (vs: seq<Vector3>)
    requires forall k :: 0 <= k < |es| ==> 0 <= es[k].0 < |vertices| && 0 <= es[k].1 < |vertices|
    ensures |vs| == |es|
  {
    if |es| == 0 then []
    else
      var n := |es| - 1;
      Midpoints(vertices, es[..n]) + [Midpoint(vertices[es[n].0], vertices[es[n].1])]
  }

  function NormalSums(normals: seq<Vector3>, es: seq<Edge>): (ns: seq<Vector3>)
    requires forall k :: 0 <= k < |es| ==> 0 <= es[k].0 < |normals| && 0 <= es[k].1 < |normals|
    ensures |ns| == |es|
  {
    if |es| == 0 then []
    else
      var n := |es| - 1;
      NormalSums(normals, es[..n]) + [NormalizedSum(normals[es[n].0], normals[es[n].1])]
  }
}
