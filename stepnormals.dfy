/**
 * The frame normals along the sweep (GetStepNormals of the parametric curve).
 *
 * The t steps are cut into buckets at the division indices, one bucket per
 * pair of consecutive curve nodes. Inside bucket i two normals are carried
 * along: one forward from node i's normal, one backward from node i + 1's,
 * each step projecting the previous normal into the plane orthogonal to the
 * curve's tangent there. The two are blended by the step's position between
 * the nodes, and the last step takes the last node's normal.
 *
 * The tangent is a parameter (dx, dy, dz) of t; its normalisation needs a
 * square root, which PlaneProject avoids by dividing by the squared length.
 * The blending curve (a squared sine) is a parameter too.
 */
module StepNormals {
  import opened Common

  /**
   * p with its component along d removed (vector rejection); p itself when d
   * is zero, as Unity's normalisation of a zero vector gives zero.
   */
  function PlaneProject(p: Vec3, d: Vec3): Vec3
  {
    var dd := Dot3(d, d);
    if dd == 0.0 then p else Add3(p, Scale3(-(Dot3(p, d) / dd), d))
  }

  lemma DotAlong(p: Vec3, s: real, d: Vec3)
    ensures Dot3(Add3(p, Scale3(s, d)), d) == Dot3(p, d) + s * Dot3(d, d)
  {
  }

  /** The projection lies in the plane orthogonal to d. */
  lemma ProjectOrthogonal(p: Vec3, d: Vec3)
    requires Dot3(d, d) != 0.0
    ensures Dot3(PlaneProject(p, d), d) == 0.0
  {
    var dd := Dot3(d, d);
    var s := -(Dot3(p, d) / dd);
    DotAlong(p, s, d);
    assert s * dd == -Dot3(p, d);
  }

  /** A vector already in the plane is left as it is. */
  lemma ProjectKeepsPlane(p: Vec3, d: Vec3)
    requires Dot3(p, d) == 0.0
    ensures PlaneProject(p, d) == p
  {
    if Dot3(d, d) != 0.0 {
      assert Dot3(p, d) / Dot3(d, d) == 0.0;
    }
  }

  /** Projecting twice is projecting once. */
  lemma ProjectIdempotent(p: Vec3, d: Vec3)
    ensures PlaneProject(PlaneProject(p, d), d) == PlaneProject(p, d)
  {
    if Dot3(d, d) != 0.0 {
      ProjectOrthogonal(p, d);
      ProjectKeepsPlane(PlaneProject(p, d), d);
    }
  }

  lemma ScaleArith(c: real, pd: real, dd: real)
    requires c != 0.0 && dd != 0.0
    ensures -((c * pd) / (c * c * dd)) * c == -(pd / dd)
  {
    var x := (c * pd) / (c * c * dd);
    assert x * (c * c * dd) == c * pd;
    assert c * (x * c * dd) == c * pd;
    assert x * c * dd == pd;
  }

  lemma DotScale(p: Vec3, c: real, d: Vec3)
    ensures Dot3(p, Scale3(c, d)) == c * Dot3(p, d)
    ensures Dot3(Scale3(c, d), p) == c * Dot3(d, p)
  {
  }

  lemma ScaleScale(s: real, c: real, d: Vec3)
    ensures Scale3(s, Scale3(c, d)) == Scale3(s * c, d)
  {
  }

  /**
   * Scaling the direction by any non-zero factor, its normalisation for
   * example, does not change the projection.
   */
  lemma ProjectScaleInvariant(p: Vec3, c: real, d: Vec3)
    requires c != 0.0
    ensures PlaneProject(p, Scale3(c, d)) == PlaneProject(p, d)
  {
    var cd := Scale3(c, d);
    var pd, dd := Dot3(p, d), Dot3(d, d);
    DotScale(p, c, d);
    DotScale(d, c, d);
    DotScale(cd, c, d);
    assert Dot3(cd, cd) == c * (c * dd);
    if dd != 0.0 {
      assert c * (c * dd) == c * c * dd;
      assert c * c * dd != 0.0;
      var s := -((c * pd) / (c * c * dd));
      assert s == -(Dot3(p, cd) / Dot3(cd, cd));
      ScaleArith(c, pd, dd);
      var r := -(pd / dd);
      assert s * c == r;
      ScaleScale(s, c, d);
      assert Scale3(s, cd) == Scale3(r, d);
    } else {
      assert Dot3(cd, cd) == 0.0;
    }
  }

  // ---------------------------------------------------------------------------
  // The division indices.
  // ---------------------------------------------------------------------------

  predicate Nondecreasing(s: seq<int>)
  {
    forall a, b :: 0 <= a < b < |s| ==> s[a] <= s[b]
  }

  /**
   * The division indices after scanning tSteps[..n]: 0, then every i whose t
   * reaches the number of indices recorded so far.
   */
  function Scan(tSteps: seq<real>, n: nat): seq<int>
    requires n <= |tSteps|
  {
    if n == 0 then [0]
    else
      var d := Scan(tSteps, n - 1);
      if tSteps[n - 1] >= |d| as real then d + [n - 1] else d
  }

  lemma {:induction false} ScanShape(tSteps: seq<real>, n: nat)
    requires n <= |tSteps|
    ensures var d := Scan(tSteps, n);
      1 <= |d| <= n + 1 && d[0] == 0 && Nondecreasing(d)
      && forall k :: 0 <= k < |d| ==> 0 <= d[k] && (k == 0 || d[k] < n)
  {
    if n > 0 {
      ScanShape(tSteps, n - 1);
    }
  }

  /**
   * The buckets: consecutive division indices D[i] <= D[i + 1] cut the steps
   * 0 .. T - 1 into the half-open ranges [D[i], D[i + 1]).
   */
  predicate Partition(D: seq<int>, T: nat)
  {
    |D| >= 2 && D[0] == 0 && D[|D| - 1] == T - 1 && Nondecreasing(D)
  }

  /** The division indices: the scan over all steps but the last, then the last step. */
  function Divisions(tSteps: seq<real>): (D: seq<int>)
    requires |tSteps| >= 1
    ensures Partition(D, |tSteps|) && |D| <= |tSteps| + 1
  {
    ScanShape(tSteps, |tSteps| - 1);
    Scan(tSteps, |tSteps| - 1) + [|tSteps| - 1]
  }

  /** The division indices as the source builds them, in a list. */
  method DivisionIndices(tSteps: seq<real>) returns (D: seq<int>)
    requires |tSteps| >= 1
    ensures D == Divisions(tSteps)
  {
    D := [0];
    for i := 0 to |tSteps| - 1
      invariant D == Scan(tSteps, i)
    {
      if tSteps[i] >= |D| as real {
        D := D + [i];
      }
    }
    D := D + [|tSteps| - 1];
  }

  /** Every step before the last lies in a bucket: this one. */
  function BucketOf(D: seq<int>, j: int): (i: nat)
    requires |D| >= 2 && Nondecreasing(D) && D[0] <= j < D[|D| - 1]
    ensures i < |D| - 1 && D[i] <= j < D[i + 1]
    decreases |D|
  {
    if j < D[1] then 0 else 1 + BucketOf(D[1..], j)
  }

  /** The buckets do not overlap: a step of bucket i is found in bucket i. */
  lemma BucketUnique(D: seq<int>, i: nat, j: int)
    requires |D| >= 2 && Nondecreasing(D) && i < |D| - 1 && D[i] <= j < D[i + 1]
    ensures BucketOf(D, j) == i
  {
  }

  // ---------------------------------------------------------------------------
  // The normals, bucket by bucket.
  // ---------------------------------------------------------------------------

  /**
   * What GetStepNormals reads: the t steps, the node normals, the tangent
   * (dx, dy, dz) at t, the blending curve, and the angle interpolation mode.
   */
  datatype Frames = Frames(tSteps: seq<real>, nodeNormals: seq<Vec3>, tangent: real -> Vec3,
                           blend: real -> real, angleMode: int)

  /**
   * Enough node normals: the last one, and node i + 1's for every bucket i
   * that holds a step.
   */
  predicate Covered(D: seq<int>, nodes: nat)
  {
    nodes >= 1 && forall i :: 0 <= i < |D| - 1 && D[i] < D[i + 1] ==> i + 1 < nodes
  }

  predicate Valid(f: Frames)
  {
    |f.tSteps| >= 1 && Covered(Divisions(f.tSteps), |f.nodeNormals|)
  }

  /** Bucket i's steps, with the bucket drawn from D. */
  predicate InBucket(f: Frames, D: seq<int>, i: nat, j: int)
  {
    Partition(D, |f.tSteps|) && Covered(D, |f.nodeNormals|) && i < |D| - 1 && D[i] <= j < D[i + 1]
  }

  /** The forward normal at step j of bucket i: node i's normal carried step by step. */
  function Forward(f: Frames, D: seq<int>, i: nat, j: int): Vec3
    requires InBucket(f, D, i, j)
    decreases j - D[i]
  {
    var prev := if j == D[i] then f.nodeNormals[i] else Forward(f, D, i, j - 1);
    PlaneProject(prev, f.tangent(f.tSteps[j]))
  }

  /** The backward normal at step k of bucket i: node i + 1's normal carried back step by step. */
  function Backward(f: Frames, D: seq<int>, i: nat, k: int): Vec3
    requires InBucket(f, D, i, k)
    decreases D[i + 1] - k
  {
    var prev := if k == D[i + 1] - 1 then f.nodeNormals[i + 1] else Backward(f, D, i, k + 1);
    PlaneProject(prev, f.tangent(f.tSteps[k]))
  }

  /** How far step j is from node i towards node i + 1, eased by the blending curve in mode 1. */
  function Coefficient(f: Frames, i: nat, j: nat): real
    requires j < |f.tSteps|
  {
    var c := f.tSteps[j] - i as real;
    if f.angleMode == 1 then f.blend(c) else c
  }

  /** The blend of the forward and the backward normal at step j of bucket i. */
  function Merged(f: Frames, D: seq<int>, i: nat, j: int): Vec3
    requires InBucket(f, D, i, j)
  {
    var c := Coefficient(f, i, j);
    Add3(Scale3(1.0 - c, Forward(f, D, i, j)), Scale3(c, Backward(f, D, i, j)))
  }

  /** The normal at step j: merged in its bucket, the last node's at the last step. */
  function NormalAt(f: Frames, j: nat): Vec3
    requires Valid(f) && j < |f.tSteps|
  {
    var D := Divisions(f.tSteps);
    if j == |f.tSteps| - 1 then f.nodeNormals[|f.nodeNormals| - 1] else Merged(f, D, BucketOf(D, j), j)
  }

  /** Each step's forward and backward normals lie in the plane orthogonal to the tangent there. */
  lemma CarriedOrthogonal(f: Frames, D: seq<int>, i: nat, j: int)
    requires InBucket(f, D, i, j)
    requires Dot3(f.tangent(f.tSteps[j]), f.tangent(f.tSteps[j])) != 0.0
    ensures Dot3(Forward(f, D, i, j), f.tangent(f.tSteps[j])) == 0.0
    ensures Dot3(Backward(f, D, i, j), f.tangent(f.tSteps[j])) == 0.0
  {
    var prev := if j == D[i] then f.nodeNormals[i] else Forward(f, D, i, j - 1);
    var prev' := if j == D[i + 1] - 1 then f.nodeNormals[i + 1] else Backward(f, D, i, j + 1);
    ProjectOrthogonal(prev, f.tangent(f.tSteps[j]));
    ProjectOrthogonal(prev', f.tangent(f.tSteps[j]));
  }

  /**
   * With coefficient 0 a step takes the forward normal, with coefficient 1 the
   * backward one.
   */
  lemma MergedEnds(f: Frames, D: seq<int>, i: nat, j: int)
    requires InBucket(f, D, i, j)
    ensures Coefficient(f, i, j) == 0.0 ==> Merged(f, D, i, j) == Forward(f, D, i, j)
    ensures Coefficient(f, i, j) == 1.0 ==> Merged(f, D, i, j) == Backward(f, D, i, j)
  {
  }

  /** Every step of bucket i gets bucket i's merged normal. */
  lemma BucketNormals(f: Frames, i: nat)
    requires Valid(f) && i < |Divisions(f.tSteps)| - 1
    ensures forall j :: Divisions(f.tSteps)[i] <= j < Divisions(f.tSteps)[i + 1] ==>
              NormalAt(f, j) == Merged(f, Divisions(f.tSteps), i, j)
  {
    var D := Divisions(f.tSteps);
    forall j | D[i] <= j < D[i + 1]
      ensures NormalAt(f, j) == Merged(f, D, i, j)
    {
      assert D[i + 1] <= D[|D| - 1];
      BucketUnique(D, i, j);
    }
  }

  // ---------------------------------------------------------------------------
  // The method, with its unmerged[T, 2] and finalNormals[T] arrays.
  // ---------------------------------------------------------------------------

  /** Columns 0 of steps lo .. j - 1 of bucket i hold their forward normals. */
  ghost predicate ForwardUpTo(f: Frames, D: seq<int>, i: nat, unmerged: array2<Vec3>, j: int)
    requires Partition(D, |f.tSteps|) && Covered(D, |f.nodeNormals|) && i < |D| - 1
    requires unmerged.Length0 == |f.tSteps| && unmerged.Length1 == 2 && j <= D[i + 1]
    reads unmerged
  {
    forall q :: D[i] <= q < j ==> 0 <= q < unmerged.Length0 && unmerged[q, 0] == Forward(f, D, i, q)
  }

  /** Columns 1 of steps k .. hi - 1 of bucket i hold their backward normals. */
  ghost predicate BackwardFrom(f: Frames, D: seq<int>, i: nat, unmerged: array2<Vec3>, k: int)
    requires Partition(D, |f.tSteps|) && Covered(D, |f.nodeNormals|) && i < |D| - 1
    requires unmerged.Length0 == |f.tSteps| && unmerged.Length1 == 2 && D[i] <= k
    reads unmerged
  {
    forall q :: k <= q < D[i + 1] ==> 0 <= q < unmerged.Length0 && unmerged[q, 1] == Backward(f, D, i, q)
  }

  /** The bucket's ends lie within the steps. */
  lemma BucketRange(f: Frames, D: seq<int>, i: nat)
    requires Partition(D, |f.tSteps|) && i < |D| - 1
    ensures 0 <= D[i] <= D[i + 1] <= |f.tSteps| - 1
  {
    assert D[0] <= D[i] && D[i + 1] <= D[|D| - 1];
  }

  /** The forward normal of step j, from node i's normal or from step j - 1's. */
  method CarryForward(f: Frames, D: seq<int>, i: nat, unmerged: array2<Vec3>, j: int)
    requires Partition(D, |f.tSteps|) && Covered(D, |f.nodeNormals|) && i < |D| - 1
    requires unmerged.Length0 == |f.tSteps| && unmerged.Length1 == 2 && D[i] <= j < D[i + 1]
    requires ForwardUpTo(f, D, i, unmerged, j)
    modifies unmerged
    ensures ForwardUpTo(f, D, i, unmerged, j + 1)
    ensures forall q, c :: 0 <= q < unmerged.Length0 && 0 <= c < 2 && (q != j || c != 0) ==> unmerged[q, c] == old(unmerged[q, c])
  {
    BucketRange(f, D, i);
    var prev := if j == D[i] then f.nodeNormals[i] else unmerged[j - 1, 0];
    unmerged[j, 0] := PlaneProject(prev, f.tangent(f.tSteps[j]));
  }

  /** The backward normal of step k, from node i + 1's normal or from step k + 1's. */
  method CarryBackward(f: Frames, D: seq<int>, i: nat, unmerged: array2<Vec3>, k: int)
    requires Partition(D, |f.tSteps|) && Covered(D, |f.nodeNormals|) && i < |D| - 1
    requires unmerged.Length0 == |f.tSteps| && unmerged.Length1 == 2 && D[i] <= k < D[i + 1]
    requires BackwardFrom(f, D, i, unmerged, k + 1)
    modifies unmerged
    ensures BackwardFrom(f, D, i, unmerged, k)
    ensures forall q, c :: 0 <= q < unmerged.Length0 && 0 <= c < 2 && (q != k || c != 1) ==> unmerged[q, c] == old(unmerged[q, c])
  {
    BucketRange(f, D, i);
    var prev := if k == D[i + 1] - 1 then f.nodeNormals[i + 1] else unmerged[k + 1, 1];
    unmerged[k, 1] := PlaneProject(prev, f.tangent(f.tSteps[k]));
  }

  /** The first inner loop: both carried normals of bucket i, into columns 0 and 1. */
  method ProjectBucket(f: Frames, D: seq<int>, i: nat, unmerged: array2<Vec3>)
    requires Partition(D, |f.tSteps|) && Covered(D, |f.nodeNormals|) && i < |D| - 1
    requires unmerged.Length0 == |f.tSteps| && unmerged.Length1 == 2
    modifies unmerged
    ensures ForwardUpTo(f, D, i, unmerged, D[i + 1]) && BackwardFrom(f, D, i, unmerged, D[i])
  {
    var lo, hi := D[i], D[i + 1];
    BucketRange(f, D, i);
    for j := lo to hi
      invariant ForwardUpTo(f, D, i, unmerged, j) && BackwardFrom(f, D, i, unmerged, hi - (j - lo))
    {
      CarryForward(f, D, i, unmerged, j);
      CarryBackward(f, D, i, unmerged, hi - (j - lo) - 1);
    }
  }

  /** The second inner loop: the blended normals of bucket i. */
  method MergeBucket(f: Frames, D: seq<int>, i: nat, unmerged: array2<Vec3>, finalNormals: array<Vec3>)
    requires Partition(D, |f.tSteps|) && Covered(D, |f.nodeNormals|) && i < |D| - 1
    requires unmerged.Length0 == |f.tSteps| && unmerged.Length1 == 2 && finalNormals.Length == |f.tSteps|
    requires ForwardUpTo(f, D, i, unmerged, D[i + 1]) && BackwardFrom(f, D, i, unmerged, D[i])
    modifies finalNormals
    ensures forall j :: D[i] <= j < D[i + 1] ==> finalNormals[j] == Merged(f, D, i, j)
    ensures forall j :: 0 <= j < D[i] ==> finalNormals[j] == old(finalNormals[j])
  {
    var lo, hi := D[i], D[i + 1];
    assert 0 <= lo && hi <= |f.tSteps| - 1 by {
      assert D[0] <= lo && hi <= D[|D| - 1];
    }
    for j := lo to hi
      invariant forall q :: lo <= q < j ==> finalNormals[q] == Merged(f, D, i, q)
      invariant forall q :: 0 <= q < lo ==> finalNormals[q] == old(finalNormals[q])
    {
      var c := f.tSteps[j] - i as real;
      if f.angleMode == 1 {
        c := f.blend(c);
      }
      finalNormals[j] := Add3(Scale3(1.0 - c, unmerged[j, 0]), Scale3(c, unmerged[j, 1]));
    }
  }

  /**
   * GetStepNormals: one normal per t step, bucket by bucket, and the last
   * node's normal at the last step.
   */
  method GetStepNormals(f: Frames) returns (finalNormals: array<Vec3>)
    requires Valid(f)
    ensures fresh(finalNormals) && finalNormals.Length == |f.tSteps|
    ensures forall j :: 0 <= j < |f.tSteps| ==> finalNormals[j] == NormalAt(f, j)
    ensures finalNormals[|f.tSteps| - 1] == f.nodeNormals[|f.nodeNormals| - 1]
  {
    var T := |f.tSteps|;
    finalNormals := new Vec3[T](_ => Vec3(0.0, 0.0, 0.0));
    var D := DivisionIndices(f.tSteps);
    var unmerged := new Vec3[T, 2]((_, _) => Vec3(0.0, 0.0, 0.0));
    for i := 0 to |D| - 1
      invariant forall j :: 0 <= j < D[i] ==> finalNormals[j] == NormalAt(f, j)
    {
      ProjectBucket(f, D, i, unmerged);
      MergeBucket(f, D, i, unmerged, finalNormals);
      BucketNormals(f, i);
    }
    finalNormals[T - 1] := f.nodeNormals[|f.nodeNormals| - 1];
  }
}
