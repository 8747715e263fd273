/**
 * Extraction of a cross-section from a mesh cut by the plane x = 0.
 *
 * Triangles with two corners on the plane contribute a boundary edge,
 * triangles with all three on the plane contribute a cap face.  The boundary
 * edges are chained into an outline, and the cap faces are re-indexed into a
 * compact vertex buffer.  Positions are abstract values with exact equality.
 */
module ProcessMesh {
  import opened Common

  const Epsilon: real := 0.001

  /** A corner counts as lying on the cutting plane when its x is below Epsilon. */
  predicate OnPlane(v: Vec3)
  {
    v.x < Epsilon
  }

  /** The parts of a Unity mesh the extraction reads. */
  datatype Mesh = Mesh(vertices: seq<Vec3>, uv: seq<Vec2>, normals: seq<Vec3>, triangles: seq<int>)

  /** Per-vertex arrays of one length, and whole triangles whose corners name vertices. */
  predicate ValidMesh(m: Mesh)
  {
    && |m.uv| == |m.vertices| && |m.normals| == |m.vertices| && |m.triangles| % 3 == 0
    && forall q :: 0 <= q < |m.triangles| ==> 0 <= m.triangles[q] < |m.vertices|
  }

  predicate ValidPairs(V: seq<Vec3>, pairs: seq<(int, int)>)
  {
    forall q :: 0 <= q < |pairs| ==> 0 <= pairs[q].0 < |V| && 0 <= pairs[q].1 < |V|
  }

  predicate ValidFaces(V: seq<Vec3>, faces: seq<seq<int>>)
  {
    forall q :: 0 <= q < |faces| ==> |faces[q]| == 3 && forall k :: 0 <= k < 3 ==> 0 <= faces[q][k] < |V|
  }

  // ---------------------------------------------------------------------
  // Classifying triangles
  // ---------------------------------------------------------------------

  /** What one triangle contributes: a boundary edge, a cap face, or nothing. */
  datatype Kind = Edge(from: int, to: int) | CapFace(corners: seq<int>) | Neither

  /**
   * The classification by cases.  An edge keeps the triangle's winding: with
   * the middle corner off the plane the edge runs from the third corner to
   * the first.
   */
  function TriangleKind(V: seq<Vec3>, a: int, b: int, c: int): Kind
    requires 0 <= a < |V| && 0 <= b < |V| && 0 <= c < |V|
  {
    var pa, pb, pc := OnPlane(V[a]), OnPlane(V[b]), OnPlane(V[c]);
    if pa && pb && pc then CapFace([a, b, c])
    else if pa && pb then Edge(a, b)
    else if pa && pc then Edge(c, a)
    else if pb && pc then Edge(b, c)
    else Neither
  }

  /** The corners of cs on the plane, in order. */
  function OnPlaneCorners(V: seq<Vec3>, cs: seq<int>): (ix: seq<int>)
    requires forall k :: 0 <= k < |cs| ==> 0 <= cs[k] < |V|
    ensures |ix| <= |cs|
  {
    if |cs| == 0 then []
    else OnPlaneCorners(V, cs[..|cs| - 1]) + (if OnPlane(V[cs[|cs| - 1]]) then [cs[|cs| - 1]] else [])
  }

  /**
   * The counting test of the source (how many corners are on the plane, and
   * whether the middle one is not) agrees with the case table.
   */
  lemma KindFromCorners(V: seq<Vec3>, a: int, b: int, c: int)
    requires 0 <= a < |V| && 0 <= b < |V| && 0 <= c < |V|
    ensures var ix := OnPlaneCorners(V, [a, b, c]);
      TriangleKind(V, a, b, c)
        == if |ix| == 2 then (if !OnPlane(V[b]) then Edge(ix[1], ix[0]) else Edge(ix[0], ix[1]))
           else if |ix| == 3 then CapFace(ix)
           else Neither
  {
    assert [a, b, c][..2] == [a, b] && [a, b][..1] == [a] && [a][..0] == [];
    var ia := if OnPlane(V[a]) then [a] else [];
    var ib := if OnPlane(V[b]) then [b] else [];
    var ic := if OnPlane(V[c]) then [c] else [];
    assert OnPlaneCorners(V, [a]) == ia;
    assert OnPlaneCorners(V, [a, b]) == ia + ib;
    assert OnPlaneCorners(V, [a, b, c]) == ia + ib + ic;
  }

  function Corner(m: Mesh, t: nat, j: nat): int
    requires ValidMesh(m) && t < |m.triangles| / 3 && j < 3
  {
    m.triangles[3 * t + j]
  }

  function KindOf(m: Mesh, t: nat): Kind
    requires ValidMesh(m) && t < |m.triangles| / 3
  {
    TriangleKind(m.vertices, Corner(m, t, 0), Corner(m, t, 1), Corner(m, t, 2))
  }

  /** The boundary edges of the first k triangles, in triangle order. */
  function Pairs(m: Mesh, k: nat): (ps: seq<(int, int)>)
    requires ValidMesh(m) && k <= |m.triangles| / 3
    ensures ValidPairs(m.vertices, ps)
  {
    if k == 0 then []
    else Pairs(m, k - 1) + match KindOf(m, k - 1) case Edge(a, b) => [(a, b)] case _ => []
  }

  /** The cap faces of the first k triangles, in triangle order. */
  function Faces(m: Mesh, k: nat): (fs: seq<seq<int>>)
    requires ValidMesh(m) && k <= |m.triangles| / 3
    ensures ValidFaces(m.vertices, fs)
  {
    if k == 0 then []
    else Faces(m, k - 1) + match KindOf(m, k - 1) case CapFace(cs) => [cs] case _ => []
  }

  /** Every triangle yields at most one edge or face. */
  lemma {:induction false} PairsAndFacesBound(m: Mesh, k: nat)
    requires ValidMesh(m) && k <= |m.triangles| / 3
    ensures |Pairs(m, k)| + |Faces(m, k)| <= k
  {
    if k > 0 {
      PairsAndFacesBound(m, k - 1);
    }
  }

  /** One pass over the triangles, three corners at a time. */
  method GetPairsAndFaces(m: Mesh) returns (pairs: seq<(int, int)>, faces: seq<seq<int>>)
    requires ValidMesh(m)
    ensures pairs == Pairs(m, |m.triangles| / 3) && faces == Faces(m, |m.triangles| / 3)
  {
    pairs, faces := [], [];
    var i := 0;
    ghost var t := 0;
    while i < |m.triangles|
      invariant i == 3 * t && t <= |m.triangles| / 3
      invariant pairs == Pairs(m, t) && faces == Faces(m, t)
    {
      pairs, faces := ClassifyTriangle(m, i, t, pairs, faces);
      i, t := i + 3, t + 1;
    }
  }

  /** The loop body: triangle t, whose corners start at index i, adds its edge or its face. */
  method ClassifyTriangle(m: Mesh, i: nat, ghost t: nat, pairs: seq<(int, int)>, faces: seq<seq<int>>)
      returns (pairs': seq<(int, int)>, faces': seq<seq<int>>)
    requires ValidMesh(m) && i == 3 * t && i < |m.triangles|
    requires pairs == Pairs(m, t) && faces == Faces(m, t)
    ensures t + 1 <= |m.triangles| / 3 && pairs' == Pairs(m, t + 1) && faces' == Faces(m, t + 1)
  {
    var V, T := m.vertices, m.triangles;
    pairs', faces' := pairs, faces;
    var numZero, reverse, indices := CornersOnPlane(V, T, i);
    KindFromCorners(V, T[i], T[i + 1], T[i + 2]);
    assert KindOf(m, t) == TriangleKind(V, T[i], T[i + 1], T[i + 2]);
    if numZero == 2 {
      if reverse {
        pairs' := pairs + [(indices[1], indices[0])];
      } else {
        pairs' := pairs + [(indices[0], indices[1])];
      }
    }
    if numZero == 3 {
      faces' := faces + [indices];
    }
  }

  /** The inner loop over the corners of the triangle starting at T[i]. */
  method CornersOnPlane(V: seq<Vec3>, T: seq<int>, i: nat) returns (numZero: int, reverse: bool, indices: seq<int>)
    requires i + 3 <= |T| && forall q :: 0 <= q < |T| ==> 0 <= T[q] < |V|
    ensures indices == OnPlaneCorners(V, [T[i], T[i + 1], T[i + 2]]) && numZero == |indices|
    ensures reverse == !OnPlane(V[T[i + 1]])
  {
    numZero := 0;
    reverse := false;
    indices := [];
    ghost var cs := [T[i], T[i + 1], T[i + 2]];
    for j := 0 to 3
      invariant indices == OnPlaneCorners(V, cs[..j]) && numZero == |indices|
      invariant reverse == (j > 1 && !OnPlane(V[T[i + 1]]))
    {
      assert cs[..j + 1][..j] == cs[..j];
      if OnPlane(V[T[i + j]]) {
        numZero := numZero + 1;
        indices := indices + [T[i + j]];
      } else {
        if j == 1 {
          reverse := true;
        }
      }
    }
    assert cs[..3] == cs;
  }

  // ---------------------------------------------------------------------
  // The starting edge
  // ---------------------------------------------------------------------

  /** No edge ends where edge i starts: the outline can begin there. */
  predicate Unmatched(V: seq<Vec3>, pairs: seq<(int, int)>, i: int)
    requires ValidPairs(V, pairs) && 0 <= i < |pairs|
  {
    forall j :: 0 <= j < |pairs| ==> V[pairs[j].1] != V[pairs[i].0]
  }

  /**
   * Vertex f is where the outline starts: the start of the first edge that
   * no edge leads into, or the first edge's start when every start is matched.
   */
  ghost predicate FirstStart(V: seq<Vec3>, pairs: seq<(int, int)>, f: int)
    requires ValidPairs(V, pairs) && |pairs| >= 1
  {
    if exists i :: 0 <= i < |pairs| && Unmatched(V, pairs, i) then
      exists i :: 0 <= i < |pairs| && Unmatched(V, pairs, i) && f == pairs[i].0
        && forall i' :: 0 <= i' < i ==> !Unmatched(V, pairs, i')
    else f == pairs[0].0
  }

  /**
   * The start of the first edge that no edge leads into; for a closed
   * outline, where every start is matched, the start of the first edge.
   */
  method GetFirst(m: Mesh, pairs: seq<(int, int)>) returns (first: int)
    requires |pairs| >= 1 && ValidPairs(m.vertices, pairs)
    ensures exists i :: 0 <= i < |pairs| && first == pairs[i].0
    ensures (exists i :: 0 <= i < |pairs| && Unmatched(m.vertices, pairs, i)) ==>
      exists i :: 0 <= i < |pairs| && Unmatched(m.vertices, pairs, i) && first == pairs[i].0
        && forall i' :: 0 <= i' < i ==> !Unmatched(m.vertices, pairs, i')
    ensures (forall i :: 0 <= i < |pairs| ==> !Unmatched(m.vertices, pairs, i)) ==> first == pairs[0].0
  {
    for i := 0 to |pairs|
      invariant forall i' :: 0 <= i' < i ==> !Unmatched(m.vertices, pairs, i')
    {
      first := pairs[i].0;
      var found := false;
      for j := 0 to |pairs|
        invariant !found && forall j' :: 0 <= j' < j ==> m.vertices[pairs[j'].1] != m.vertices[first]
      {
        if m.vertices[pairs[j].1] == m.vertices[first] {
          found := true;
          break;
        }
      }
      if !found {
        assert Unmatched(m.vertices, pairs, i);
        return first;
      }
    }
    return pairs[0].0;
  }

  // ---------------------------------------------------------------------
  // Chaining the boundary edges into an outline
  // ---------------------------------------------------------------------

  /** A vertex seen in the cross-section plane: its (z, y) coordinates. */
  function Proj(v: Vec3): Vec2
  {
    Vec2(v.z, v.y)
  }

  /** Edge p joins point a to point b, in either direction. */
  predicate Links(V: seq<Vec3>, p: (int, int), a: Vec2, b: Vec2)
    requires 0 <= p.0 < |V| && 0 <= p.1 < |V|
  {
    (Proj(V[p.0]) == a && Proj(V[p.1]) == b) || (Proj(V[p.1]) == a && Proj(V[p.0]) == b)
  }

  /** The outline returned to its first point. */
  predicate Closed(points: seq<Vec2>)
  {
    |points| >= 2 && points[|points| - 1] == points[0]
  }

  /** No remaining edge touches point a. */
  predicate NoEdgeAt(V: seq<Vec3>, rest: seq<(int, int)>, a: Vec2)
    requires ValidPairs(V, rest)
  {
    forall q :: 0 <= q < |rest| ==> Proj(V[rest[q].0]) != a && Proj(V[rest[q].1]) != a
  }

  /** None of the first i remaining edges touches point a. */
  predicate NoEdgeBefore(V: seq<Vec3>, pairs: seq<(int, int)>, i: nat, a: Vec2)
    requires ValidPairs(V, pairs) && i <= |pairs|
  {
    forall q :: 0 <= q < i ==> Proj(V[pairs[q].0]) != a && Proj(V[pairs[q].1]) != a
  }

  function CountTrue(bs: seq<bool>): (n: nat)
    ensures n <= |bs|
  {
    if |bs| == 0 then 0 else CountTrue(bs[..|bs| - 1]) + (if bs[|bs| - 1] then 1 else 0)
  }

  const MaxSteps: nat := 1000

  /** The used edges, in order, that were matched at their start. */
  function Starts(V: seq<Vec3>, used: seq<(int, int)>, branches: seq<bool>): (S: seq<(int, int)>)
    requires |used| == |branches| && ValidPairs(V, used)
    ensures |S| == CountTrue(branches) && ValidPairs(V, S) && multiset(S) <= multiset(used)
  {
    if |used| == 0 then []
    else
      var n := |used| - 1;
      assert used == used[..n] + [used[n]];
      Starts(V, used[..n], branches[..n]) + (if branches[n] then [used[n]] else [])
  }

  /** Starts of one more used edge. */
  lemma StartsSnoc(V: seq<Vec3>, used: seq<(int, int)>, branches: seq<bool>, p: (int, int), b: bool)
    requires |used| == |branches| && ValidPairs(V, used + [p])
    ensures ValidPairs(V, used)
    ensures Starts(V, used + [p], branches + [b]) == Starts(V, used, branches) + (if b then [p] else [])
  {
    assert forall k :: 0 <= k < |used| ==> (used + [p])[k] == used[k];
    assert (used + [p])[..|used|] == used;
    assert (branches + [b])[..|branches|] == branches;
  }

  /**
   * Pair j of the outline's UV list, for start vertex f and the edges S
   * matched at their start.  Each edge of S completes the open pair with the
   * v coordinate of its start's UV and opens the next pair with that of its
   * end.  Pair j therefore runs from edge j - 1's end to edge j's start.  The
   * first pair begins with 0 and the last ends with 0; with no such edge the
   * single pair is (0, v of f).
   */
  function UVPair(m: Mesh, f: int, S: seq<(int, int)>, j: nat): (real, real)
    requires ValidMesh(m) && 0 <= f < |m.vertices| && ValidPairs(m.vertices, S) && j <= |S|
  {
    (if j == 0 then 0.0 else m.uv[S[j - 1].1].y,
     if j < |S| then m.uv[S[j].0].y else if j == 0 then m.uv[f].y else 0.0)
  }

  /** Pair j of the outline's normal list: the same pattern with the projected normals. */
  function NormalPair(m: Mesh, f: int, S: seq<(int, int)>, j: nat): (Vec2, Vec2)
    requires ValidMesh(m) && 0 <= f < |m.vertices| && ValidPairs(m.vertices, S) && j <= |S|
  {
    (if j == 0 then Vec2(0.0, 0.0) else Proj(m.normals[S[j - 1].1]),
     if j < |S| then Proj(m.normals[S[j].0]) else if j == 0 then Proj(m.normals[f]) else Vec2(0.0, 0.0))
  }

  /** The outline's UV list: one pair more than there are start-matched edges. */
  function UVList(m: Mesh, f: int, S: seq<(int, int)>): (r: seq<(real, real)>)
    requires ValidMesh(m) && 0 <= f < |m.vertices| && ValidPairs(m.vertices, S)
    ensures |r| == |S| + 1 && forall j :: 0 <= j < |r| ==> r[j] == UVPair(m, f, S, j)
  {
    seq(|S| + 1, j requires 0 <= j <= |S| => UVPair(m, f, S, j))
  }

  /** The outline's normal list. */
  function NormalList(m: Mesh, f: int, S: seq<(int, int)>): (r: seq<(Vec2, Vec2)>)
    requires ValidMesh(m) && 0 <= f < |m.vertices| && ValidPairs(m.vertices, S)
    ensures |r| == |S| + 1 && forall j :: 0 <= j < |r| ==> r[j] == NormalPair(m, f, S, j)
  {
    seq(|S| + 1, j requires 0 <= j <= |S| => NormalPair(m, f, S, j))
  }

  /** The outline's UV and normal pairs for start vertex f and start-matched edges S. */
  ghost predicate SeamsOf(m: Mesh, f: int, S: seq<(int, int)>, uvs: seq<(real, real)>, normals: seq<(Vec2, Vec2)>)
    requires ValidMesh(m)
  {
    && 0 <= f < |m.vertices| && ValidPairs(m.vertices, S)
    && uvs == UVList(m, f, S) && normals == NormalList(m, f, S)
  }

  /**
   * A pair list after an edge matched at its start: the open last pair is
   * completed with a, and a new pair (b, zero) is opened.
   */
  function CloseAndOpen<T>(ps: seq<(T, T)>, a: T, b: T, zero: T): (r: seq<(T, T)>)
    requires |ps| >= 1
    ensures |r| == |ps| + 1
  {
    ps[|ps| - 1 := (ps[|ps| - 1].0, a)] + [(b, zero)]
  }

  /**
   * The UV list as the outline loop builds it: it starts as (0, v of first),
   * and each edge of used matched at its start (branches says which were)
   * completes the last pair with the v of its start and opens a new one with
   * the v of its end.
   */
  function SeamUVs(m: Mesh, first: int, used: seq<(int, int)>, branches: seq<bool>): (r: seq<(real, real)>)
    requires ValidMesh(m) && 0 <= first < |m.vertices| && ValidPairs(m.vertices, used) && |used| == |branches|
    ensures 1 <= |r| <= |used| + 1
  {
    if |used| == 0 then [(0.0, m.uv[first].y)]
    else
      var n := |used| - 1;
      assert used == used[..n] + [used[n]];
      var r := SeamUVs(m, first, used[..n], branches[..n]);
      if branches[n] then CloseAndOpen(r, m.uv[used[n].0].y, m.uv[used[n].1].y, 0.0) else r
  }

  /** The normal list as the outline loop builds it: the same pattern with the projected normals. */
  function SeamNormals(m: Mesh, first: int, used: seq<(int, int)>, branches: seq<bool>): (r: seq<(Vec2, Vec2)>)
    requires ValidMesh(m) && 0 <= first < |m.vertices| && ValidPairs(m.vertices, used) && |used| == |branches|
    ensures 1 <= |r| <= |used| + 1
  {
    if |used| == 0 then [(Vec2(0.0, 0.0), Proj(m.normals[first]))]
    else
      var n := |used| - 1;
      assert used == used[..n] + [used[n]];
      var r := SeamNormals(m, first, used[..n], branches[..n]);
      if branches[n] then CloseAndOpen(r, Proj(m.normals[used[n].0]), Proj(m.normals[used[n].1]), Vec2(0.0, 0.0)) else r
  }

  /** The UV and normal lists kept by the outline loop. */
  ghost predicate Seamed(m: Mesh, first: int, used: seq<(int, int)>, branches: seq<bool>,
                         uvs: seq<(real, real)>, normals: seq<(Vec2, Vec2)>)
    requires ValidMesh(m) && 0 <= first < |m.vertices| && ValidPairs(m.vertices, used)
  {
    && |used| == |branches|
    && uvs == SeamUVs(m, first, used, branches) && normals == SeamNormals(m, first, used, branches)
  }

  /**
   * The lists after an edge p matched at its start: the last UV and normal
   * pairs are completed with p's start and new ones opened with its end.
   */
  lemma SeamStart(m: Mesh, first: int, used: seq<(int, int)>, branches: seq<bool>, p: (int, int),
                  uvs: seq<(real, real)>, normals: seq<(Vec2, Vec2)>)
    requires ValidMesh(m) && 0 <= first < |m.vertices| && ValidPairs(m.vertices, used)
    requires 0 <= p.0 < |m.vertices| && 0 <= p.1 < |m.vertices|
    requires Seamed(m, first, used, branches, uvs, normals)
    ensures ValidPairs(m.vertices, used + [p])
    ensures Seamed(m, first, used + [p], branches + [true],
                   CloseAndOpen(uvs, m.uv[p.0].y, m.uv[p.1].y, 0.0),
                   CloseAndOpen(normals, Proj(m.normals[p.0]), Proj(m.normals[p.1]), Vec2(0.0, 0.0)))
  {
    assert forall k :: 0 <= k < |used| ==> (used + [p])[k] == used[k];
    assert (used + [p])[..|used|] == used;
    assert (branches + [true])[..|branches|] == branches;
  }

  /** An edge matched at its end leaves the UV and normal lists as they were. */
  lemma SeamEnd(m: Mesh, first: int, used: seq<(int, int)>, branches: seq<bool>, p: (int, int),
                uvs: seq<(real, real)>, normals: seq<(Vec2, Vec2)>)
    requires ValidMesh(m) && 0 <= first < |m.vertices| && ValidPairs(m.vertices, used)
    requires 0 <= p.0 < |m.vertices| && 0 <= p.1 < |m.vertices|
    requires Seamed(m, first, used, branches, uvs, normals)
    ensures ValidPairs(m.vertices, used + [p])
    ensures Seamed(m, first, used + [p], branches + [false], uvs, normals)
  {
    assert forall k :: 0 <= k < |used| ==> (used + [p])[k] == used[k];
    assert (used + [p])[..|used|] == used;
    assert (branches + [false])[..|branches|] == branches;
  }

  /**
   * The lists the loop builds have the closed form: pair j runs from the end
   * of the (j - 1)-th start-matched edge to the start of the j-th.
   */
  lemma {:induction false} SeamsClosedForm(m: Mesh, first: int, used: seq<(int, int)>, branches: seq<bool>)
    requires ValidMesh(m) && 0 <= first < |m.vertices| && ValidPairs(m.vertices, used) && |used| == |branches|
    ensures SeamsOf(m, first, Starts(m.vertices, used, branches),
                    SeamUVs(m, first, used, branches), SeamNormals(m, first, used, branches))
  {
    if |used| > 0 {
      var n := |used| - 1;
      var p, b := used[n], branches[n];
      assert used == used[..n] + [p];
      assert branches == branches[..n] + [b];
      SeamsClosedForm(m, first, used[..n], branches[..n]);
      StartsSnoc(m.vertices, used[..n], branches[..n], p, b);
      if b {
        var S := Starts(m.vertices, used[..n], branches[..n]);
        SeamsSnoc(m, first, S, p);
      }
    }
  }

  /** One more start-matched edge p: CloseAndOpen on the closed form gives the closed form for S + [p]. */
  lemma SeamsSnoc(m: Mesh, f: int, S: seq<(int, int)>, p: (int, int))
    requires ValidMesh(m) && 0 <= f < |m.vertices| && ValidPairs(m.vertices, S)
    requires 0 <= p.0 < |m.vertices| && 0 <= p.1 < |m.vertices|
    ensures ValidPairs(m.vertices, S + [p])
    ensures CloseAndOpen(UVList(m, f, S), m.uv[p.0].y, m.uv[p.1].y, 0.0) == UVList(m, f, S + [p])
    ensures CloseAndOpen(NormalList(m, f, S), Proj(m.normals[p.0]), Proj(m.normals[p.1]), Vec2(0.0, 0.0))
            == NormalList(m, f, S + [p])
  {
    assert forall k :: 0 <= k < |S| ==> (S + [p])[k] == S[k];
    assert ValidPairs(m.vertices, S + [p]);
    var uvs' := CloseAndOpen(UVList(m, f, S), m.uv[p.0].y, m.uv[p.1].y, 0.0);
    var normals' := CloseAndOpen(NormalList(m, f, S), Proj(m.normals[p.0]), Proj(m.normals[p.1]), Vec2(0.0, 0.0));
    forall j | 0 <= j < |uvs'| ensures uvs'[j] == UVPair(m, f, S + [p], j) {
      UVPairSnoc(m, f, S, p, j);
    }
    forall j | 0 <= j < |normals'| ensures normals'[j] == NormalPair(m, f, S + [p], j) {
      NormalPairSnoc(m, f, S, p, j);
    }
  }

  /** One more start-matched edge p completes pair |S| with p's start and opens pair |S| + 1 with p's end. */
  lemma UVPairSnoc(m: Mesh, f: int, S: seq<(int, int)>, p: (int, int), j: nat)
    requires ValidMesh(m) && 0 <= f < |m.vertices| && ValidPairs(m.vertices, S + [p]) && j <= |S| + 1
    ensures ValidPairs(m.vertices, S)
    ensures UVPair(m, f, S + [p], j) ==
      if j < |S| then UVPair(m, f, S, j)
      else if j == |S| then (UVPair(m, f, S, j).0, m.uv[p.0].y)
      else (m.uv[p.1].y, 0.0)
  {
    assert forall k :: 0 <= k < |S| ==> (S + [p])[k] == S[k];
  }

  /** The same for the normal pairs. */
  lemma NormalPairSnoc(m: Mesh, f: int, S: seq<(int, int)>, p: (int, int), j: nat)
    requires ValidMesh(m) && 0 <= f < |m.vertices| && ValidPairs(m.vertices, S + [p]) && j <= |S| + 1
    ensures ValidPairs(m.vertices, S)
    ensures NormalPair(m, f, S + [p], j) ==
      if j < |S| then NormalPair(m, f, S, j)
      else if j == |S| then (NormalPair(m, f, S, j).0, Proj(m.normals[p.0]))
      else (Proj(m.normals[p.1]), Vec2(0.0, 0.0))
  {
    assert forall k :: 0 <= k < |S| ==> (S + [p])[k] == S[k];
  }

  /**
   * The outline part of the loop state: the outline starts at vertex first,
   * each removed edge joins two consecutive points, and the removed and the
   * remaining edges together are the original edges.
   */
  ghost predicate ChainLinks(V: seq<Vec3>, pairs0: seq<(int, int)>, first: int, points: seq<Vec2>,
                             used: seq<(int, int)>, pairs: seq<(int, int)>)
    requires 0 <= first < |V|
  {
    && |points| >= 1 && points[0] == Proj(V[first])
    && |used| == |points| - 1
    && multiset(used) + multiset(pairs) == multiset(pairs0)
    && ValidPairs(V, used) && ValidPairs(V, pairs)
    && (forall k :: 0 <= k < |used| ==> Links(V, used[k], points[k], points[k + 1]))
  }

  /** Removing edge i, which joins the last point to q, and appending q keeps ChainLinks. */
  lemma LinkStep(V: seq<Vec3>, pairs0: seq<(int, int)>, first: int, points: seq<Vec2>,
                 used: seq<(int, int)>, pairs: seq<(int, int)>, i: nat, q: Vec2)
    requires 0 <= first < |V| && ChainLinks(V, pairs0, first, points, used, pairs) && i < |pairs|
    requires Links(V, pairs[i], points[|points| - 1], q)
    ensures ChainLinks(V, pairs0, first, points + [q], used + [pairs[i]], pairs[..i] + pairs[i + 1..])
  {
    RemoveAt(pairs, i);
    assert ValidPairs(V, pairs[..i] + pairs[i + 1..]);
  }

  /**
   * What the outline loop keeps: ChainLinks for the outline, and Seamed for
   * the UV and normal lists.
   */
  ghost predicate ChainState(m: Mesh, pairs0: seq<(int, int)>, first: int, points: seq<Vec2>,
                             uvs: seq<(real, real)>, normals: seq<(Vec2, Vec2)>,
                             used: seq<(int, int)>, branches: seq<bool>, pairs: seq<(int, int)>)
    requires ValidMesh(m) && 0 <= first < |m.vertices|
  {
    && ChainLinks(m.vertices, pairs0, first, points, used, pairs)
    && Seamed(m, first, used, branches, uvs, normals)
  }

  /**
   * One step of the outline loop at edge i: if the edge starts at the last
   * point, its end is appended and the last UV and normal entries are
   * completed and a new one opened; otherwise, if it ends at the last point,
   * its start is appended; otherwise nothing changes.  A used edge is removed.
   */
  method TakeEdge(m: Mesh, ghost pairs0: seq<(int, int)>, first: int, pairs: seq<(int, int)>, i: nat,
                  points: seq<Vec2>, uvs: seq<(real, real)>, normals: seq<(Vec2, Vec2)>,
                  ghost used: seq<(int, int)>, ghost branches: seq<bool>)
      returns (matched: bool, pairs': seq<(int, int)>, points': seq<Vec2>, uvs': seq<(real, real)>,
               normals': seq<(Vec2, Vec2)>, ghost used': seq<(int, int)>, ghost branches': seq<bool>)
    requires ValidMesh(m) && 0 <= first < |m.vertices| && i < |pairs|
    requires ChainState(m, pairs0, first, points, uvs, normals, used, branches, pairs)
    ensures ChainState(m, pairs0, first, points', uvs', normals', used', branches', pairs')
    ensures points'[0] == points[0]
    ensures !matched ==> pairs' == pairs && points' == points && uvs' == uvs && normals' == normals &&
                         used' == used && branches' == branches
    ensures !matched ==> Proj(m.vertices[pairs[i].0]) != points[|points| - 1] &&
                         Proj(m.vertices[pairs[i].1]) != points[|points| - 1]
    ensures matched ==> |points'| == |points| + 1 && pairs' == pairs[..i] + pairs[i + 1..]
    ensures matched && Proj(m.vertices[pairs[i].0]) == points[|points| - 1] ==>
      && uvs' == CloseAndOpen(uvs, m.uv[pairs[i].0].y, m.uv[pairs[i].1].y, 0.0)
      && normals' == CloseAndOpen(normals, Proj(m.normals[pairs[i].0]), Proj(m.normals[pairs[i].1]), Vec2(0.0, 0.0))
    ensures Proj(m.vertices[pairs[i].0]) != points[|points| - 1] ==> uvs' == uvs && normals' == normals
  {
    var V, UV, N := m.vertices, m.uv, m.normals;
    var p := pairs[i];
    matched, pairs', points', uvs', normals', used', branches' := false, pairs, points, uvs, normals, used, branches;
    var last := points[|points| - 1];
    if last == Proj(V[p.0]) {
      var newPoint := Proj(V[p.1]);
      uvs' := CloseAndOpen(uvs, UV[p.0].y, UV[p.1].y, 0.0);
      normals' := CloseAndOpen(normals, Proj(N[p.0]), Proj(N[p.1]), Vec2(0.0, 0.0));
      SeamStart(m, first, used, branches, p, uvs, normals);
      LinkStep(V, pairs0, first, points, used, pairs, i, newPoint);
      matched, branches' := true, branches + [true];
      pairs', points', used' := pairs[..i] + pairs[i + 1..], points + [newPoint], used + [p];
    } else if last == Proj(V[p.1]) {
      var newPoint := Proj(V[p.0]);
      SeamEnd(m, first, used, branches, p, uvs, normals);
      LinkStep(V, pairs0, first, points, used, pairs, i, newPoint);
      matched, branches' := true, branches + [false];
      pairs', points', used' := pairs[..i] + pairs[i + 1..], points + [newPoint], used + [p];
    }
  }

  /**
   * The outline loop of GetPointsUVsAndCap.  Starting from vertex first, the
   * first remaining edge with an end at the last point is removed, and its
   * other end is appended; the scan restarts after each match.  The loop
   * stops when the outline closes, when no edge matches, or after MaxSteps
   * iterations.  Only a match at an edge's start extends the UV and normal
   * lists.
   *
   * Ghost results: used lists the removed edges in order, branches says for
   * each which end matched (true for the start), steps counts iterations and
   * rest is what is left of the edge list.
   */
  method ChainBoundary(m: Mesh, pairs0: seq<(int, int)>, first: int)
      returns (points: seq<Vec2>, uvs: seq<(real, real)>, normals: seq<(Vec2, Vec2)>,
               ghost used: seq<(int, int)>, ghost branches: seq<bool>, ghost steps: nat, ghost rest: seq<(int, int)>)
    requires ValidMesh(m) && ValidPairs(m.vertices, pairs0) && 0 <= first < |m.vertices|
    ensures 1 <= |points| <= 1 + |pairs0| && points[0] == Proj(m.vertices[first])
    ensures |used| == |branches| == |points| - 1 && multiset(used) + multiset(rest) == multiset(pairs0)
    ensures ValidPairs(m.vertices, used) && ValidPairs(m.vertices, rest)
    ensures forall k :: 0 <= k < |used| ==> Links(m.vertices, used[k], points[k], points[k + 1])
    ensures |uvs| == |normals| == 1 + CountTrue(branches) <= |points|
    ensures forall j :: 0 <= j < |uvs| ==> uvs[j] == UVPair(m, first, Starts(m.vertices, used, branches), j)
    ensures forall j :: 0 <= j < |normals| ==> normals[j] == NormalPair(m, first, Starts(m.vertices, used, branches), j)
    ensures steps <= MaxSteps
    ensures Closed(points) || NoEdgeAt(m.vertices, rest, points[|points| - 1]) || steps == MaxSteps
  {
    var V, UV, N := m.vertices, m.uv, m.normals;
    var pairs := pairs0;
    points := [Proj(V[first])];
    uvs := [(0.0, UV[first].y)];
    normals := [(Vec2(0.0, 0.0), Proj(N[first]))];
    used, branches := [], [];
    var done := false;
    var i := 0;
    var count := 0;
    while !done && count < MaxSteps
      invariant 0 <= count <= MaxSteps
      invariant Scanning(m, pairs0, first, pairs, i, points, uvs, normals, used, branches, done)
      decreases MaxSteps - count
    {
      count := count + 1;
      done, pairs, i, points, uvs, normals, used, branches := ScanStep(m, pairs0, first, pairs, i, points, uvs, normals, used, branches);
    }
    steps, rest := count, pairs;
    ChainDone(m, pairs0, first, pairs, i, points, uvs, normals, used, branches, done);
  }

  /**
   * The state of the outline loop: ChainState, none of the edges before
   * position i touches the last point, and the loop stops only on a closed
   * outline or after scanning every remaining edge.
   */
  ghost predicate Scanning(m: Mesh, pairs0: seq<(int, int)>, first: int, pairs: seq<(int, int)>, i: int,
                           points: seq<Vec2>, uvs: seq<(real, real)>, normals: seq<(Vec2, Vec2)>,
                           used: seq<(int, int)>, branches: seq<bool>, done: bool)
    requires ValidMesh(m) && 0 <= first < |m.vertices|
  {
    && ChainState(m, pairs0, first, points, uvs, normals, used, branches, pairs)
    && 0 <= i <= |pairs|
    && NoEdgeBefore(m.vertices, pairs, i, points[|points| - 1])
    && (done ==> Closed(points) || i == |pairs|)
  }

  /** One iteration of the outline loop: stop after the last edge, else try edge i. */
  method ScanStep(m: Mesh, ghost pairs0: seq<(int, int)>, first: int, pairs: seq<(int, int)>, i: int,
                  points: seq<Vec2>, uvs: seq<(real, real)>, normals: seq<(Vec2, Vec2)>,
                  ghost used: seq<(int, int)>, ghost branches: seq<bool>)
      returns (done: bool, pairs': seq<(int, int)>, i': int, points': seq<Vec2>, uvs': seq<(real, real)>,
               normals': seq<(Vec2, Vec2)>, ghost used': seq<(int, int)>, ghost branches': seq<bool>)
    requires ValidMesh(m) && 0 <= first < |m.vertices|
    requires Scanning(m, pairs0, first, pairs, i, points, uvs, normals, used, branches, false)
    ensures Scanning(m, pairs0, first, pairs', i', points', uvs', normals', used', branches', done)
  {
    done, pairs', i', points', uvs', normals', used', branches' := false, pairs, i, points, uvs, normals, used, branches;
    if i == |pairs| {
      done := true;
    } else {
      var matched;
      matched, pairs', points', uvs', normals', used', branches' := TakeEdge(m, pairs0, first, pairs, i, points, uvs, normals, used, branches);
      if matched {
        if points'[|points'| - 1] == points'[0] {
          done := true;
        }
        i' := 0;
      } else {
        i' := i + 1;
      }
    }
  }

  /** What ChainState says about the outline once the loop has stopped. */
  lemma ChainDone(m: Mesh, pairs0: seq<(int, int)>, first: int, rest: seq<(int, int)>, i: int,
                  points: seq<Vec2>, uvs: seq<(real, real)>, normals: seq<(Vec2, Vec2)>,
                  used: seq<(int, int)>, branches: seq<bool>, done: bool)
    requires ValidMesh(m) && 0 <= first < |m.vertices|
    requires Scanning(m, pairs0, first, rest, i, points, uvs, normals, used, branches, done)
    ensures done ==> Closed(points) || NoEdgeAt(m.vertices, rest, points[|points| - 1])
    ensures 1 <= |points| <= 1 + |pairs0| && points[0] == Proj(m.vertices[first])
    ensures |used| == |branches| == |points| - 1 && multiset(used) + multiset(rest) == multiset(pairs0)
    ensures ValidPairs(m.vertices, used) && ValidPairs(m.vertices, rest)
    ensures forall k :: 0 <= k < |used| ==> Links(m.vertices, used[k], points[k], points[k + 1])
    ensures |uvs| == |normals| == 1 + CountTrue(branches) <= |points|
    ensures SeamsOf(m, first, Starts(m.vertices, used, branches), uvs, normals)
  {
    assert |multiset(used)| + |multiset(rest)| == |multiset(pairs0)|;
    SeamsClosedForm(m, first, used, branches);
  }

  // ---------------------------------------------------------------------
  // Re-indexing the cap triangles
  // ---------------------------------------------------------------------

  /** The corner indices of the faces, face after face. */
  function Flatten(V: seq<Vec3>, faces: seq<seq<int>>): (r: seq<int>)
    requires ValidFaces(V, faces)
    ensures |r| == 3 * |faces| && forall q :: 0 <= q < |r| ==> 0 <= r[q] < |V|
  {
    if |faces| == 0 then []
    else
      var init := faces[..|faces| - 1];
      assert forall j :: 0 <= j < |init| ==> init[j] == faces[j];
      Flatten(V, init) + faces[|faces| - 1]
  }

  /** Corner k of face j sits at position 3j + k of the flattened list. */
  lemma {:induction false} FlattenAt(V: seq<Vec3>, faces: seq<seq<int>>, j: nat, k: nat)
    requires ValidFaces(V, faces) && j < |faces| && k < 3
    ensures Flatten(V, faces)[3 * j + k] == faces[j][k]
  {
    var init := faces[..|faces| - 1];
    assert forall i :: 0 <= i < |init| ==> init[i] == faces[i];
    if j < |faces| - 1 {
      FlattenAt(V, init, j, k);
    }
  }

  /** Every element of Dedup(s, |s|) is an index into V when every element of s is. */
  lemma DedupInRange(V: seq<Vec3>, s: seq<int>)
    requires forall q :: 0 <= q < |s| ==> 0 <= s[q] < |V|
    ensures forall n :: 0 <= n < |Dedup(s, |s|)| ==> 0 <= Dedup(s, |s|)[n] < |V|
  {
    DedupBefore(s, |s|);
    forall n | 0 <= n < |Dedup(s, |s|)|
      ensures 0 <= Dedup(s, |s|)[n] < |V|
    {
      var q := FirstIndex(s, Dedup(s, |s|)[n]);
    }
  }

  /** The cap vertices, in the order of their first use. */
  function CapOrder(V: seq<Vec3>, faces: seq<seq<int>>): (d: seq<int>)
    requires ValidFaces(V, faces)
    ensures forall n :: 0 <= n < |d| ==> 0 <= d[n] < |V|
  {
    var flat := Flatten(V, faces);
    DedupInRange(V, flat);
    Dedup(flat, |flat|)
  }

  /**
   * What the cap loop keeps after reading the corners in flat[..pos], with
   * order listing the distinct corners seen (Dedup(flat, pos)): the map sends each of them to its
   * position in order, the cap vertex and UV lists follow order, and every
   * corner read so far became the position of its vertex.
   */
  ghost predicate CapState(m: Mesh, flat: seq<int>, pos: nat, newIndex: map<int, int>, order: seq<int>,
                           capVertices: seq<Vec3>, capUV: seq<Vec2>, capTriangles: seq<int>)
    requires ValidMesh(m) && pos <= |flat|
  {
    && |capTriangles| == pos
    && (forall n :: 0 <= n < |order| ==> 0 <= order[n] < |m.vertices|)
    && (forall n :: 0 <= n < |order| ==> order[n] in newIndex)
    && (forall v :: v in newIndex ==> 0 <= newIndex[v] < |order| && order[newIndex[v]] == v)
    && |capVertices| == |capUV| == |order|
    && (forall n :: 0 <= n < |order| ==> capVertices[n] == m.vertices[order[n]] && capUV[n] == m.uv[order[n]])
    && (forall q {:trigger capTriangles[q]} :: 0 <= q < pos ==> 0 <= capTriangles[q] < |order| && order[capTriangles[q]] == flat[q])
  }

  /** One corner of the cap loop: a corner not seen before gets the next cap vertex. */
  method AddCorner(m: Mesh, v: int, ghost flat: seq<int>, ghost pos: nat, newIndex: map<int, int>, ghost order: seq<int>,
                   capVertices: seq<Vec3>, capUV: seq<Vec2>, capTriangles: seq<int>)
      returns (newIndex': map<int, int>, ghost order': seq<int>, capVertices': seq<Vec3>, capUV': seq<Vec2>, capTriangles': seq<int>)
    requires ValidMesh(m) && pos < |flat| && v == flat[pos] && 0 <= v < |m.vertices|
    requires CapState(m, flat, pos, newIndex, order, capVertices, capUV, capTriangles)
    ensures CapState(m, flat, pos + 1, newIndex', order', capVertices', capUV', capTriangles')
    ensures order' == if v in order then order else order + [v]
  {
    newIndex', order', capVertices', capUV' := newIndex, order, capVertices, capUV;
    if v !in newIndex {
      capVertices' := capVertices + [m.vertices[v]];
      capUV' := capUV + [m.uv[v]];
      newIndex' := newIndex[v := |capVertices'| - 1];
      order' := order + [v];
      assert forall w :: w in newIndex' ==> 0 <= newIndex'[w] < |order'| && order'[newIndex'[w]] == w;
    } else {
      assert v in order;
    }
    capTriangles' := capTriangles + [newIndex'[v]];
    assert forall q :: 0 <= q < pos ==> capTriangles'[q] == capTriangles[q] && order'[capTriangles[q]] == order[capTriangles[q]];
    forall q | 0 <= q < pos + 1
      ensures 0 <= capTriangles'[q] < |order'| && order'[capTriangles'[q]] == flat[q]
    {
      if q == pos {
        assert capTriangles'[q] == newIndex'[v];
      } else {
        assert capTriangles'[q] == capTriangles[q];
      }
    }
  }

  /**
   * The cap loop of GetPointsUVsAndCap.  The n-th cap vertex is the n-th
   * distinct corner of the faces in order of first use, and every corner
   * becomes the index of its cap vertex.
   */
  method ReindexCap(m: Mesh, faces: seq<seq<int>>) returns (capVertices: seq<Vec3>, capUV: seq<Vec2>, capTriangles: seq<int>)
    requires ValidMesh(m) && ValidFaces(m.vertices, faces)
    ensures var d := CapOrder(m.vertices, faces);
      && |capVertices| == |capUV| == |d|
      && forall n :: 0 <= n < |d| ==> capVertices[n] == m.vertices[d[n]] && capUV[n] == m.uv[d[n]]
    ensures |capTriangles| == 3 * |faces|
    ensures forall q :: 0 <= q < |capTriangles| ==>
      && 0 <= capTriangles[q] < |capVertices|
      && CapOrder(m.vertices, faces)[capTriangles[q]] == Flatten(m.vertices, faces)[q]
  {
    forall j, k | 0 <= j < |faces| && 0 <= k < 3
      ensures Flatten(m.vertices, faces)[3 * j + k] == faces[j][k]
    {
      FlattenAt(m.vertices, faces, j, k);
    }
    capVertices, capUV, capTriangles := ReindexCorners(m, faces, Flatten(m.vertices, faces));
  }

  /** The loops of ReindexCap, over the corners flat of the faces. */
  method ReindexCorners(m: Mesh, faces: seq<seq<int>>, ghost flat: seq<int>)
      returns (capVertices: seq<Vec3>, capUV: seq<Vec2>, capTriangles: seq<int>)
    requires ValidMesh(m) && ValidFaces(m.vertices, faces)
    requires |flat| == 3 * |faces| && forall q :: 0 <= q < |flat| ==> 0 <= flat[q] < |m.vertices|
    requires forall j, k :: 0 <= j < |faces| && 0 <= k < 3 ==> flat[3 * j + k] == faces[j][k]
    ensures var d := Dedup(flat, |flat|);
      && |capVertices| == |capUV| == |d|
      && forall n :: 0 <= n < |d| ==> 0 <= d[n] < |m.vertices| && capVertices[n] == m.vertices[d[n]] && capUV[n] == m.uv[d[n]]
    ensures |capTriangles| == |flat|
    ensures forall q :: 0 <= q < |flat| ==> 0 <= capTriangles[q] < |Dedup(flat, |flat|)| && Dedup(flat, |flat|)[capTriangles[q]] == flat[q]
  {
    var newIndex: map<int, int> := map[];
    capVertices, capUV, capTriangles := [], [], [];
    ghost var order: seq<int> := [];
    for j := 0 to |faces|
      invariant CapState(m, flat, 3 * j, newIndex, order, capVertices, capUV, capTriangles)
      invariant order == Dedup(flat, 3 * j)
    {
      newIndex, order, capVertices, capUV, capTriangles :=
        ReindexFace(m, faces[j], flat, 3 * j, newIndex, order, capVertices, capUV, capTriangles);
    }
  }

  /** The inner loop of ReindexCap: the three corners of one face, at flat[pos..pos + 3]. */
  method ReindexFace(m: Mesh, face: seq<int>, ghost flat: seq<int>, ghost pos: nat, newIndex: map<int, int>, ghost order: seq<int>,
                     capVertices: seq<Vec3>, capUV: seq<Vec2>, capTriangles: seq<int>)
      returns (newIndex': map<int, int>, ghost order': seq<int>, capVertices': seq<Vec3>, capUV': seq<Vec2>, capTriangles': seq<int>)
    requires ValidMesh(m) && pos + 3 <= |flat| && |face| == 3
    requires forall k :: 0 <= k < 3 ==> flat[pos + k] == face[k] && 0 <= face[k] < |m.vertices|
    requires CapState(m, flat, pos, newIndex, order, capVertices, capUV, capTriangles) && order == Dedup(flat, pos)
    ensures CapState(m, flat, pos + 3, newIndex', order', capVertices', capUV', capTriangles')
    ensures order' == Dedup(flat, pos + 3)
  {
    newIndex', order', capVertices', capUV', capTriangles' := newIndex, order, capVertices, capUV, capTriangles;
    ghost var at := pos;
    for k := 0 to 3
      invariant at == pos + k
      invariant CapState(m, flat, at, newIndex', order', capVertices', capUV', capTriangles')
      invariant order' == Dedup(flat, at)
    {
      assert flat[at] == face[k];
      DedupStep(flat, at);
      newIndex', order', capVertices', capUV', capTriangles' :=
        AddCorner(m, face[k], flat, at, newIndex', order', capVertices', capUV', capTriangles');
      at := at + 1;
    }
  }

  // ---------------------------------------------------------------------
  // The cross-section of a mesh
  // ---------------------------------------------------------------------

  /**
   * What GetPointsUVsAndCap returns for a mesh with boundary edges: the
   * outline points, their UV and normal pairs, and the cap mesh.
   */
  datatype Section = Section(points: seq<Vec2>, uvs: seq<(real, real)>, normals: seq<(Vec2, Vec2)>,
                             capVertices: seq<Vec3>, capUV: seq<Vec2>, capTriangles: seq<int>)

  /** Some boundary edge joins a to b. */
  predicate Joined(V: seq<Vec3>, pairs: seq<(int, int)>, a: Vec2, b: Vec2)
    requires ValidPairs(V, pairs)
  {
    exists q :: 0 <= q < |pairs| && Links(V, pairs[q], a, b)
  }

  /** Every step of the outline follows one of the boundary edges. */
  predicate FollowsEdges(V: seq<Vec3>, pairs: seq<(int, int)>, points: seq<Vec2>)
    requires ValidPairs(V, pairs)
  {
    forall k :: 0 <= k < |points| - 1 ==> Joined(V, pairs, points[k], points[k + 1])
  }

  /** Edges removed from a list one by one, each joining two consecutive points, came from the list. */
  lemma UsedEdgesFollow(V: seq<Vec3>, pairs: seq<(int, int)>, used: seq<(int, int)>, rest: seq<(int, int)>, points: seq<Vec2>)
    requires ValidPairs(V, pairs) && ValidPairs(V, used) && |used| == |points| - 1
    requires multiset(used) + multiset(rest) == multiset(pairs)
    requires forall k :: 0 <= k < |used| ==> Links(V, used[k], points[k], points[k + 1])
    ensures FollowsEdges(V, pairs, points)
  {
    forall k | 0 <= k < |points| - 1
      ensures Joined(V, pairs, points[k], points[k + 1])
    {
      assert used[k] in multiset(used);
      assert used[k] in multiset(pairs);
      var q :| 0 <= q < |pairs| && pairs[q] == used[k];
    }
  }

  /**
   * The outline of the cut face of a mesh and its cap.  Without boundary
   * edges there is no section (the source returns nulls).  Otherwise the
   * outline starts at an edge start, follows boundary edges, holds at most
   * one point more than there are edges, and the cap is the re-indexed
   * triangles lying in the plane.
   */
  method GetPointsUVsAndCap(m: Mesh) returns (r: Option<Section>)
    requires ValidMesh(m)
    ensures r.None? <==> |Pairs(m, |m.triangles| / 3)| == 0
    ensures r.Some? ==>
      var ps, s := Pairs(m, |m.triangles| / 3), r.value;
      && 1 <= |s.points| <= 1 + |ps|
      && (exists i :: 0 <= i < |ps| && s.points[0] == Proj(m.vertices[ps[i].0]))
      && FollowsEdges(m.vertices, ps, s.points)
      && |s.uvs| == |s.normals| <= |s.points|
    ensures r.Some? ==>
      var ps, s := Pairs(m, |m.triangles| / 3), r.value;
      exists f, S :: && FirstStart(m.vertices, ps, f) && s.points[0] == Proj(m.vertices[f])
                     && SeamsOf(m, f, S, s.uvs, s.normals) && multiset(S) <= multiset(ps)
    ensures r.Some? ==>
      var fs, s := Faces(m, |m.triangles| / 3), r.value;
      var d := CapOrder(m.vertices, fs);
      && |s.capVertices| == |s.capUV| == |d|
      && (forall n :: 0 <= n < |d| ==> s.capVertices[n] == m.vertices[d[n]] && s.capUV[n] == m.uv[d[n]])
      && |s.capTriangles| == 3 * |fs|
      && forall q :: 0 <= q < |s.capTriangles| ==>
           0 <= s.capTriangles[q] < |s.capVertices| && d[s.capTriangles[q]] == Flatten(m.vertices, fs)[q]
  {
    var pairs, faces := GetPairsAndFaces(m);
    if |pairs| == 0 {
      return None;
    }
    var first := GetFirst(m, pairs);
    var points, uvs, normals, used, branches, steps, rest := ChainBoundary(m, pairs, first);
    UsedEdgesFollow(m.vertices, pairs, used, rest, points);
    ghost var S := Starts(m.vertices, used, branches);
    assert FirstStart(m.vertices, pairs, first);
    assert SeamsOf(m, first, S, uvs, normals);
    var capVertices, capUV, capTriangles := ReindexCap(m, faces);
    r := Some(Section(points, uvs, normals, capVertices, capUV, capTriangles));
  }

  /** Removing entry i keeps the others: the multiset loses exactly one copy of it. */
  lemma RemoveAt(pairs: seq<(int, int)>, i: nat)
    requires i < |pairs|
    ensures multiset(pairs[..i] + pairs[i + 1..]) + multiset([pairs[i]]) == multiset(pairs)
    ensures forall V: seq<Vec3> :: ValidPairs(V, pairs) ==> ValidPairs(V, pairs[..i] + pairs[i + 1..])
  {
    assert pairs == pairs[..i] + [pairs[i]] + pairs[i + 1..];
  }

  // ---------------------------------------------------------------------
  // Deduplication
  // ---------------------------------------------------------------------

  /** Each point kept at its first occurrence, compared coordinate by coordinate. */
  method Unique(list: seq<Vec2>) returns (uniqueList: seq<Vec2>)
    ensures uniqueList == Dedup(list, |list|)
  {
    uniqueList := [];
    for i := 0 to |list|
      invariant uniqueList == Dedup(list, i)
    {
      var inUniqueList := false;
      for j := 0 to |uniqueList|
        invariant inUniqueList <==> list[i] in uniqueList[..j]
      {
        assert uniqueList[..j + 1] == uniqueList[..j] + [uniqueList[j]];
        inUniqueList := inUniqueList || (list[i].x == uniqueList[j].x && list[i].y == uniqueList[j].y);
      }
      assert uniqueList[..|uniqueList|] == uniqueList;
      if !inUniqueList {
        uniqueList := uniqueList + [list[i]];
      }
    }
  }

  /** Unique keeps every point, repeats none, and keeps first-occurrence order. */
  lemma UniqueProperties(list: seq<Vec2>)
    ensures NoDuplicates(Dedup(list, |list|))
    ensures forall p :: p in list <==> p in Dedup(list, |list|)
    ensures forall i, j :: 0 <= i < j < |Dedup(list, |list|)| ==>
      Dedup(list, |list|)[i] in list && Dedup(list, |list|)[j] in list &&
      FirstIndex(list, Dedup(list, |list|)[i]) < FirstIndex(list, Dedup(list, |list|)[j])
  {
    DedupElements(list, |list|);
    assert list[..|list|] == list;
    DedupOrder(list, |list|);
  }
}
