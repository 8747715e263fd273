/**
 * Cubic Hermite segments and clamped cubic-spline slopes.
 *
 * A segment over [a, b] is first built in Newton divided-difference form
 * with nodes a, a, b, b (value and derivative at both ends), then converted
 * to power-basis coefficients c[0] + c[1] t + c[2] t^2 + c[3] t^3.
 */
module Bezier {
  import opened Common
  import opened Matrix

  // ---------------------------------------------------------------------
  // Polynomials in the power basis
  // ---------------------------------------------------------------------

  function Pow(t: real, k: nat): real
  {
    if k == 0 then 1.0 else Pow(t, k - 1) * t
  }

  /** c[0] + c[1] t + ... + c[|c|-1] t^(|c|-1), summed from the low end. */
  function Poly(c: seq<real>, t: real): real
  {
    if |c| == 0 then 0.0 else Poly(c[..|c| - 1], t) + c[|c| - 1] * Pow(t, |c| - 1)
  }

  lemma PowSmall(t: real)
    ensures Pow(t, 1) == t && Pow(t, 2) == t * t && Pow(t, 3) == t * t * t
  {
    assert Pow(t, 1) == t;
    assert Pow(t, 2) == t * t;
  }

  lemma Poly2(c: seq<real>, t: real)
    requires |c| == 2
    ensures Poly(c, t) == c[0] + c[1] * t
  {
    PowSmall(t);
    var c1 := c[..1];
    assert c1[..0] == [];
    assert Poly(c1, t) == Poly(c1[..0], t) + c1[0] * Pow(t, 0);
    assert Poly(c1, t) == c[0];
  }

  lemma Poly3(c: seq<real>, t: real)
    requires |c| == 3
    ensures Poly(c, t) == c[0] + c[1] * t + c[2] * (t * t)
  {
    PowSmall(t);
    Poly2(c[..2], t);
  }

  lemma Poly4(c: seq<real>, t: real)
    requires |c| == 4
    ensures Poly(c, t) == c[0] + c[1] * t + c[2] * (t * t) + c[3] * (t * t * t)
  {
    PowSmall(t);
    Poly3(c[..3], t);
  }

  /** The formal derivative: entry i is c[i+1] * (i+1); a constant has none. */
  function FormalDerivative(c: seq<real>): (d: seq<real>)
    ensures |c| > 0 ==> |d| == |c| - 1
  {
    if |c| == 0 then [] else seq(|c| - 1, i requires 0 <= i < |c| - 1 => c[i + 1] * (i + 1) as real)
  }

  // ---------------------------------------------------------------------
  // The Newton form of a Hermite cubic
  // ---------------------------------------------------------------------

  /** c[0] + c[1](t-a) + c[2](t-a)^2 + c[3](t-a)^2(t-b), in nested form. */
  function EvalNewt(c: seq<real>, a: real, b: real, t: real): real
    requires |c| == 4
  {
    ((c[3] * (t - b) + c[2]) * (t - a) + c[1]) * (t - a) + c[0]
  }

  /** The derivative in t of EvalNewt, worked out by hand. */
  function NewtDerivative(c: seq<real>, a: real, b: real, t: real): real
    requires |c| == 4
  {
    c[1] + 2.0 * c[2] * (t - a) + c[3] * ((t - a) * (t - a) + 2.0 * (t - b) * (t - a))
  }

  /** The second derivative in t of EvalNewt, worked out by hand. */
  function NewtSecondDerivative(c: seq<real>, a: real, b: real, t: real): real
    requires |c| == 4
  {
    2.0 * c[2] + c[3] * (4.0 * (t - a) + 2.0 * (t - b))
  }

  /** Divided differences over the nodes a, a, b, b for value p and slope d at both ends. */
  function HermiteNewton(a: real, b: real, p0: real, p1: real, d0: real, d1: real): (c: seq<real>)
    requires a != b
    ensures |c| == 4
  {
    var h := b - a;
    var r := (p1 - p0) / h;
    var c2 := (r - d0) / h;
    [p0, d0, c2, ((d1 - r) / h - c2) / h]
  }

  lemma DivTimes(x: real, h: real)
    requires h != 0.0
    ensures (x / h) * h == x
  {
  }

  /** The Hermite cubic takes value p0, p1 and slope d0, d1 at a and b. */
  lemma HermiteInterpolates(a: real, b: real, p0: real, p1: real, d0: real, d1: real)
    requires a != b
    ensures var c := HermiteNewton(a, b, p0, p1, d0, d1);
      && EvalNewt(c, a, b, a) == p0 && EvalNewt(c, a, b, b) == p1
      && NewtDerivative(c, a, b, a) == d0 && NewtDerivative(c, a, b, b) == d1
  {
    var c := HermiteNewton(a, b, p0, p1, d0, d1);
    var h := b - a;
    var r := (p1 - p0) / h;
    DivTimes(p1 - p0, h);
    DivTimes(r - d0, h);
    DivTimes(d1 - r, h);
    DivTimes((d1 - r) / h - c[2], h);
    var q := c[3] * h;
    assert q == (d1 - r) / h - c[2];
    assert q * h == ((d1 - r) / h) * h - c[2] * h;
    assert EvalNewt(c, a, b, b) == (c[2] * h + c[1]) * h + c[0];
    assert NewtDerivative(c, a, b, b) == c[1] + 2.0 * (c[2] * h) + q * h;
  }

  /** Power-basis coefficients of the Newton cubic c over the nodes a, a, b, b. */
  function NewtToStand(c: seq<real>, a: real, b: real): (s: seq<real>)
    requires |c| == 4
    ensures |s| == 4
  {
    [ c[0] - c[1] * a + c[2] * a * a - c[3] * a * a * b,
      c[1] - 2.0 * c[2] * a + 2.0 * c[3] * a * b + c[3] * a * a,
      c[2] - c[3] * b - 2.0 * c[3] * a,
      c[3] ]
  }

  lemma NewtExpanded(c: seq<real>, a: real, b: real, t: real)
    requires |c| == 4
    ensures EvalNewt(c, a, b, t) == c[3] * ((t - b) * ((t - a) * (t - a))) + c[2] * ((t - a) * (t - a)) + c[1] * (t - a) + c[0]
  {
  }

  lemma CubicFactor(t: real, a: real, b: real)
    ensures (t - b) * ((t - a) * (t - a)) == t * t * t - (2.0 * a + b) * (t * t) + (a * a + 2.0 * a * b) * t - a * a * b
  {
  }

  lemma SquareFactor(t: real, a: real)
    ensures (t - a) * (t - a) == t * t - 2.0 * a * t + a * a
  {
  }

  /** Collecting the Newton form by powers of t, with t^2 and t^3 written T2 and T3. */
  lemma CollectPowers(c0: real, c1: real, c2: real, c3: real, a: real, b: real, t: real, T2: real, T3: real)
    ensures c3 * (T3 - (2.0 * a + b) * T2 + (a * a + 2.0 * a * b) * t - a * a * b) + c2 * (T2 - 2.0 * a * t + a * a) + c1 * (t - a) + c0
         == (c0 - c1 * a + c2 * a * a - c3 * a * a * b) + (c1 - 2.0 * c2 * a + 2.0 * c3 * a * b + c3 * a * a) * t
            + (c2 - c3 * b - 2.0 * c3 * a) * T2 + c3 * T3
  {
  }

  /** The basis change is exact: both forms give the same value at every t. */
  lemma NewtToStandExact(c: seq<real>, a: real, b: real, t: real)
    requires |c| == 4
    ensures Poly(NewtToStand(c, a, b), t) == EvalNewt(c, a, b, t)
  {
    var s := NewtToStand(c, a, b);
    var T2 := t * t;
    var T3 := t * t * t;
    calc {
      Poly(s, t);
    == { Poly4(s, t); }
      s[0] + s[1] * t + s[2] * T2 + s[3] * T3;
    == { CollectPowers(c[0], c[1], c[2], c[3], a, b, t, T2, T3); }
      c[3] * (T3 - (2.0 * a + b) * T2 + (a * a + 2.0 * a * b) * t - a * a * b) + c[2] * (T2 - 2.0 * a * t + a * a) + c[1] * (t - a) + c[0];
    == { CubicFactor(t, a, b); SquareFactor(t, a); }
      c[3] * ((t - b) * ((t - a) * (t - a))) + c[2] * ((t - a) * (t - a)) + c[1] * (t - a) + c[0];
    == { NewtExpanded(c, a, b, t); }
      EvalNewt(c, a, b, t);
    }
  }

  lemma DerivativeExpanded(c: seq<real>, a: real, b: real, t: real)
    requires |c| == 4
    ensures NewtDerivative(c, a, b, t)
         == c[1] + 2.0 * c[2] * (t - a) + c[3] * (3.0 * (t * t) - (4.0 * a + 2.0 * b) * t + (a * a + 2.0 * a * b))
  {
    SquareFactor(t, a);
    assert (t - b) * (t - a) == t * t - (a + b) * t + a * b;
  }

  lemma CollectDerivative(c1: real, c2: real, c3: real, a: real, b: real, t: real, T2: real)
    ensures c1 + 2.0 * c2 * (t - a) + c3 * (3.0 * T2 - (4.0 * a + 2.0 * b) * t + (a * a + 2.0 * a * b))
         == (c1 - 2.0 * c2 * a + 2.0 * c3 * a * b + c3 * a * a) + 2.0 * (c2 - c3 * b - 2.0 * c3 * a) * t + 3.0 * c3 * T2
  {
  }

  /** The formal derivative of the power form is the derivative of the Newton form. */
  lemma NewtToStandDerivative(c: seq<real>, a: real, b: real, t: real)
    requires |c| == 4
    ensures Poly(FormalDerivative(NewtToStand(c, a, b)), t) == NewtDerivative(c, a, b, t)
  {
    var s := NewtToStand(c, a, b);
    CubicDerivativeValue(s, t);
    NewtDerivativeCollected(c, a, b, t);
  }

  /** The value of the formal derivative of a cubic in the power basis. */
  lemma CubicDerivativeValue(s: seq<real>, t: real)
    requires |s| == 4
    ensures Poly(FormalDerivative(s), t) == s[1] + 2.0 * s[2] * t + 3.0 * s[3] * (t * t)
  {
    var d := FormalDerivative(s);
    assert |d| == 3 && d[0] == s[1] && d[1] == 2.0 * s[2] && d[2] == 3.0 * s[3];
    Poly3(d, t);
  }

  /** The Newton derivative, collected by powers of t, has the power-basis coefficients. */
  lemma NewtDerivativeCollected(c: seq<real>, a: real, b: real, t: real)
    requires |c| == 4
    ensures var s := NewtToStand(c, a, b); NewtDerivative(c, a, b, t) == s[1] + 2.0 * s[2] * t + 3.0 * s[3] * (t * t)
  {
    DerivativeExpanded(c, a, b, t);
    CollectDerivative(c[1], c[2], c[3], a, b, t, t * t);
  }

  /** Differentiating the power form twice gives the second derivative of the Newton form. */
  lemma NewtToStandSecondDerivative(c: seq<real>, a: real, b: real, t: real)
    requires |c| == 4
    ensures Poly(FormalDerivative(FormalDerivative(NewtToStand(c, a, b))), t) == NewtSecondDerivative(c, a, b, t)
  {
    var s := NewtToStand(c, a, b);
    var d := FormalDerivative(s);
    var dd := FormalDerivative(d);
    assert d[1] == 2.0 * s[2] && d[2] == 3.0 * s[3];
    assert |dd| == 2 && dd[0] == d[1] && dd[1] == 2.0 * d[2];
    Poly2(dd, t);
  }

  // ---------------------------------------------------------------------
  // Building and evaluating one segment
  // ---------------------------------------------------------------------

  /**
   * The divided-difference table over tStart, tStart, tEnd, tEnd, overwritten
   * in place one entry at a time; the result is the Newton form HermiteNewton.
   */
  method DivDiff(tStart: real, tEnd: real, p0: real, p1: real, d0: real, d1: real) returns (r: array<real>)
    requires tStart != tEnd
    ensures fresh(r) && r[..] == HermiteNewton(tStart, tEnd, p0, p1, d0, d1)
    ensures EvalNewt(r[..], tStart, tEnd, tStart) == p0 && EvalNewt(r[..], tStart, tEnd, tEnd) == p1
    ensures NewtDerivative(r[..], tStart, tEnd, tStart) == d0 && NewtDerivative(r[..], tStart, tEnd, tEnd) == d1
  {
    r := new real[4];
    r[0] := p0;
    r[1] := p0;
    r[2] := p1;
    r[3] := p1;

    r[1] := d0;
    r[2] := (p1 - p0) / (tEnd - tStart);
    r[3] := d1;

    r[3] := (r[3] - r[2]) / (tEnd - tStart);
    r[2] := (r[2] - r[1]) / (tEnd - tStart);

    r[3] := (r[3] - r[2]) / (tEnd - tStart);
    assert r[..] == HermiteNewton(tStart, tEnd, p0, p1, d0, d1);
    HermiteInterpolates(tStart, tEnd, p0, p1, d0, d1);
  }

  /** Horner-free evaluation: a running power of t times each coefficient. */
  method EvalStand(c: array<real>, t: real) returns (r: real)
    ensures r == Poly(c[..], t)
  {
    r := 0.0;
    var tPower := 1.0;
    for i := 0 to c.Length
      invariant r == Poly(c[..i], t) && tPower == Pow(t, i)
    {
      assert c[..i + 1][..i] == c[..i];
      r := r + c[i] * tPower;
      tPower := tPower * t;
    }
    assert c[..c.Length] == c[..];
  }

  /** The coefficients of the derivative; the source allocates Length - 1 entries. */
  method StandDerivative(c: array<real>) returns (d: array<real>)
    requires c.Length >= 1
    ensures fresh(d) && d[..] == FormalDerivative(c[..])
  {
    d := new real[c.Length - 1];
    for i := 0 to c.Length - 1
      invariant forall k :: 0 <= k < i ==> d[k] == c[k + 1] * (k + 1) as real
    {
      d[i] := c[i + 1] * (i + 1) as real;
    }
    assert forall k :: 0 <= k < d.Length ==> d[k] == FormalDerivative(c[..])[k];
  }

  // ---------------------------------------------------------------------
  // Piecewise evaluation
  // ---------------------------------------------------------------------

  /** A C# cast of a float to int: the fractional part is dropped, toward zero. */
  function Truncate(t: real): int
  {
    if t >= 0.0 then t.Floor else -((-t).Floor)
  }

  /**
   * The segment that evaluates parameter t among n segments: the truncated
   * parameter, clamped to 0 .. n-1.
   */
  function Segment(n: int, t: real): (k: int)
    requires n >= 1
    ensures 0 <= k < n
    ensures t < 1.0 ==> k == 0
    ensures t >= n as real ==> k == n - 1
    ensures 0.0 <= t < n as real ==> k as real <= t < k as real + 1.0
  {
    var k := Truncate(t);
    if k < 0 then 0 else if k >= n then n - 1 else k
  }

  /** The piecewise polynomial whose coefficient rows are P, at t. */
  function PiecewiseValue(P: Mat, t: real): real
    requires |P| >= 1
  {
    Poly(P[Segment(|P|, t)], t)
  }

  /** Copies the row of segment Segment(n, t) and evaluates it at t. */
  method EvalPiecewise(P: array2<real>, t: real) returns (v: real)
    requires P.Length0 >= 1
    ensures v == PiecewiseValue(Elems(P), t)
  {
    var n := P.Length0;
    var tprime := Truncate(t);
    if tprime < 0 {
      tprime := 0;
    }
    if tprime >= n {
      tprime := n - 1;
    }
    var c := new real[P.Length1];
    for i := 0 to P.Length1
      invariant forall k :: 0 <= k < i ==> c[k] == P[tprime, k]
    {
      c[i] := P[tprime, i];
    }
    assert c[..] == Elems(P)[tprime];
    v := EvalStand(c, t);
  }

  // ---------------------------------------------------------------------
  // One polynomial per pair of neighbouring nodes
  // ---------------------------------------------------------------------

  /** Power-basis coefficients of the Hermite cubic joining node i to node i + 1 over [i, i + 1]. */
  function HermiteSegment(pos: seq<real>, dir: seq<real>, i: nat): (c: seq<real>)
    requires i + 1 < |pos| && i + 1 < |dir|
    ensures |c| == 4
  {
    NewtToStand(HermiteNewton(i as real, (i + 1) as real, pos[i], pos[i + 1], dir[i], dir[i + 1]), i as real, (i + 1) as real)
  }

  /** The coefficient table of the position function: one row per segment. */
  function SegmentTable(pos: seq<real>, dir: seq<real>): (P: Mat)
    requires |pos| >= 1 && (|pos| >= 2 ==> |dir| >= |pos|)
    ensures |P| == |pos| - 1
  {
    seq(|pos| - 1, i requires 0 <= i < |pos| - 1 => HermiteSegment(pos, dir, i))
  }

  /** The coefficient table of the derivative function. */
  function DerivativeTable(pos: seq<real>, dir: seq<real>): (D: Mat)
    requires |pos| >= 1 && (|pos| >= 2 ==> |dir| >= |pos|)
    ensures |D| == |pos| - 1
  {
    seq(|pos| - 1, i requires 0 <= i < |pos| - 1 => FormalDerivative(HermiteSegment(pos, dir, i)))
  }

  /**
   * The coefficient tables behind the position and derivative functions.  The
   * source wraps each table in a closure over EvalPiecewise; here the tables
   * are returned and PiecewiseValue plays the closure.
   */
  method LambdasFromNodes(positions: array<real>, directions: array<real>) returns (P: array2<real>, D: array2<real>)
    requires positions.Length >= 1
    requires positions.Length >= 2 ==> directions.Length >= positions.Length
    ensures fresh(P) && fresh(D)
    ensures Elems(P) == SegmentTable(positions[..], directions[..])
    ensures Elems(D) == DerivativeTable(positions[..], directions[..])
  {
    var n := positions.Length;
    P := new real[n - 1, 4];
    D := new real[n - 1, 3];
    ghost var pos, dir := positions[..], directions[..];
    for i := 0 to n - 1
      invariant RowsStored(P, D, pos, dir, i)
    {
      FillRow(P, D, pos, dir, positions, directions, i);
    }
    TablesStored(P, D, pos, dir);
  }

  /** Rows 0 .. i-1 of P and D hold the segments and their derivatives. */
  ghost predicate RowsStored(P: array2<real>, D: array2<real>, pos: seq<real>, dir: seq<real>, i: nat)
    reads P, D
  {
    1 <= |pos| && i <= |pos| - 1 && P.Length0 == |pos| - 1 && D.Length0 == |pos| - 1
    && P.Length1 == 4 && D.Length1 == 3 && (|pos| >= 2 ==> |dir| >= |pos|)
    && (forall r, k :: 0 <= r < i && 0 <= k < 4 ==> P[r, k] == HermiteSegment(pos, dir, r)[k])
    && (forall r, k :: 0 <= r < i && 0 <= k < 3 ==> D[r, k] == FormalDerivative(HermiteSegment(pos, dir, r))[k])
  }

  /** Once every row is stored, P and D are the two tables. */
  lemma TablesStored(P: array2<real>, D: array2<real>, pos: seq<real>, dir: seq<real>)
    requires |pos| >= 1 && RowsStored(P, D, pos, dir, |pos| - 1)
    ensures Elems(P) == SegmentTable(pos, dir)
    ensures Elems(D) == DerivativeTable(pos, dir)
  {
    ElemsEqual(P, SegmentTable(pos, dir));
    ElemsEqual(D, DerivativeTable(pos, dir));
  }

  /** One pass of the loop: segment i is computed and stored in row i. */
  method FillRow(P: array2<real>, D: array2<real>, ghost pos: seq<real>, ghost dir: seq<real>,
                 positions: array<real>, directions: array<real>, i: nat)
    requires pos == positions[..] && dir == directions[..] && i < |pos| - 1
    requires RowsStored(P, D, pos, dir, i)
    modifies P, D
    ensures RowsStored(P, D, pos, dir, i + 1)
  {
    var ca, d := BuildSegment(pos, dir, positions, directions, i);
    StoreSegment(P, D, i, ca, d);
  }

  /** The coefficients of segment i, as the divided differences give them, and their derivative. */
  method BuildSegment(ghost pos: seq<real>, ghost dir: seq<real>, positions: array<real>, directions: array<real>, i: nat)
      returns (c: array<real>, d: array<real>)
    requires pos == positions[..] && dir == directions[..] && i + 1 < |pos| && i + 1 < |dir|
    ensures fresh(c) && fresh(d) && c[..] == HermiteSegment(pos, dir, i) && d[..] == FormalDerivative(c[..])
  {
    var dd := DivDiff(i as real, (i + 1) as real, positions[i], positions[i + 1], directions[i], directions[i + 1]);
    var s := NewtToStand(dd[..], i as real, (i + 1) as real);
    c := new real[4](k requires 0 <= k < 4 => s[k]);
    assert c[..] == s;
    d := StandDerivative(c);
  }

  /** Row i of the tables receives the segment c and its derivative d; other rows are kept. */
  method StoreSegment(P: array2<real>, D: array2<real>, i: nat, c: array<real>, d: array<real>)
    requires P.Length1 == 4 && D.Length1 == 3 && i < P.Length0 && i < D.Length0 && c.Length == 4 && d.Length == 3
    modifies P, D
    ensures forall r, k :: 0 <= r < P.Length0 && 0 <= k < 4 ==> P[r, k] == if r == i then c[k] else old(P[r, k])
    ensures forall r, k :: 0 <= r < D.Length0 && 0 <= k < 3 ==> D[r, k] == if r == i then d[k] else old(D[r, k])
  {
    for j := 0 to 3
      invariant forall r, k :: 0 <= r < P.Length0 && 0 <= k < 4 ==> P[r, k] == if r == i && k < j then c[k] else old(P[r, k])
      invariant forall r, k :: 0 <= r < D.Length0 && 0 <= k < 3 ==> D[r, k] == if r == i && k < j then d[k] else old(D[r, k])
    {
      P[i, j] := c[j];
      D[i, j] := d[j];
    }
    P[i, 3] := c[3];
  }

  /** Segment k starts at node k and ends at node k + 1, with the nodes' values and slopes. */
  lemma SegmentEnds(pos: seq<real>, dir: seq<real>, k: nat)
    requires k + 1 < |pos| && k + 1 < |dir|
    ensures Poly(HermiteSegment(pos, dir, k), k as real) == pos[k]
    ensures Poly(HermiteSegment(pos, dir, k), (k + 1) as real) == pos[k + 1]
    ensures Poly(FormalDerivative(HermiteSegment(pos, dir, k)), k as real) == dir[k]
    ensures Poly(FormalDerivative(HermiteSegment(pos, dir, k)), (k + 1) as real) == dir[k + 1]
  {
    var a, b := k as real, (k + 1) as real;
    var c := HermiteNewton(a, b, pos[k], pos[k + 1], dir[k], dir[k + 1]);
    HermiteInterpolates(a, b, pos[k], pos[k + 1], dir[k], dir[k + 1]);
    NewtToStandExact(c, a, b, a);
    NewtToStandExact(c, a, b, b);
    NewtToStandDerivative(c, a, b, a);
    NewtToStandDerivative(c, a, b, b);
  }

  /**
   * With two nodes or more, the position function passes through every node
   * with the node's direction as its slope; the last node is reached as the
   * end of the last segment, because the segment index is clamped.
   */
  lemma NodesInterpolated(pos: seq<real>, dir: seq<real>, i: nat)
    requires |pos| >= 2 && |dir| >= |pos| && i < |pos|
    ensures PiecewiseValue(SegmentTable(pos, dir), i as real) == pos[i]
    ensures PiecewiseValue(DerivativeTable(pos, dir), i as real) == dir[i]
  {
    var m := |pos| - 1;
    var k := Segment(m, i as real);
    if i < m {
      assert k == i;
      SegmentEnds(pos, dir, i);
    } else {
      assert k == m - 1;
      SegmentEnds(pos, dir, m - 1);
    }
  }

  // ---------------------------------------------------------------------
  // Clamped cubic spline slopes at unit-spaced nodes
  // ---------------------------------------------------------------------

  /** With unit spacing the spline system is 4 on the diagonal and 1 beside it. */
  function TriEntry(r: int, c: int): real
  {
    if r == c then 4.0 else if r == c + 1 || c == r + 1 then 1.0 else 0.0
  }

  function TriMatrix(m: nat): (M: Mat)
    ensures IsSquare(M, m) && forall r, c :: 0 <= r < m && 0 <= c < m ==> M[r][c] == TriEntry(r, c)
  {
    seq(m, r requires 0 <= r < m => seq(m, c requires 0 <= c < m => TriEntry(r, c)))
  }

  /** The pivots elimination meets on the tridiagonal matrix; all at least 3. */
  function Pivot(k: nat): (p: real)
    ensures p >= 3.0
  {
    if k == 0 then 4.0 else 4.0 - 1.0 / Pivot(k - 1)
  }

  /** The tridiagonal matrix after pivots 0 .. i-1 are eliminated: rows up to i are final. */
  function TriElim(m: nat, i: nat): (E: Mat)
    ensures IsSquare(E, m)
    ensures forall r, c :: 0 <= r < m && 0 <= c < m ==>
      E[r][c] == if r <= i then (if c == r then Pivot(r) else if c == r + 1 then 1.0 else 0.0) else TriEntry(r, c)
  {
    seq(m, r requires 0 <= r < m => seq(m, c requires 0 <= c < m =>
      if r <= i then (if c == r then Pivot(r) else if c == r + 1 then 1.0 else 0.0) else TriEntry(r, c)))
  }

  lemma TriElimStart(m: nat)
    ensures TriElim(m, 0) == TriMatrix(m)
  {
    forall r | 0 <= r < m ensures TriElim(m, 0)[r] == TriMatrix(m)[r] { }
  }

  /** One elimination step turns TriElim(m, i) into TriElim(m, i + 1). */
  lemma TriElimStep(m: nat, i: nat)
    requires i + 1 < m
    ensures TriElim(m, i)[i][i] == Pivot(i) && Pivot(i) != 0.0
    ensures EliminateColumn(TriElim(m, i), i) == TriElim(m, i + 1)
  {
    var E := EliminateColumn(TriElim(m, i), i);
    var N := TriElim(m, i + 1);
    forall r | 0 <= r < m ensures E[r] == N[r] {
      TriElimEntries(m, i, r);
    }
  }

  /** Row r after the elimination step, entry by entry. */
  lemma TriElimEntries(m: nat, i: nat, r: nat)
    requires i + 1 < m && r < m
    ensures EliminateColumn(TriElim(m, i), i)[r] == TriElim(m, i + 1)[r]
  {
    var M := TriElim(m, i);
    var E := EliminateColumn(M, i);
    var N := TriElim(m, i + 1);
    var p := Pivot(i);
    forall c | 0 <= c < m ensures E[r][c] == N[r][c] {
      if r > i && c > i {
        var f := M[r][i] / p;
        assert E[r][c] == M[r][c] - f * M[i][c];
        if r == i + 1 {
          assert f == 1.0 / p;
          if c == i + 1 {
            assert E[r][c] == 4.0 - f;
          } else {
            assert M[i][c] == 0.0;
          }
        } else {
          assert M[r][i] == 0.0;
          assert f == 0.0;
        }
      }
    }
  }

  lemma {:induction false} TriDoolittle(m: nat, L: Mat, i: nat)
    requires i < m && IsSquare(L, m)
    ensures var f := Doolittle(TriElim(m, i), L, i);
      f.ok && forall p :: 0 <= p < m ==> f.U[p][p] == Pivot(p)
    decreases m - i
  {
    if i + 1 < m {
      TriElimStep(m, i);
      TriDoolittle(m, RecordMultipliers(L, TriElim(m, i), i), i + 1);
    }
  }

  /** The unit-spaced spline system always has a solution: no pivot is zero. */
  lemma TriSolvable(m: nat)
    ensures Solvable(TriMatrix(m))
  {
    if m > 0 {
      TriElimStart(m);
      TriDoolittle(m, IdentityMat(m), 0);
    }
  }

  /** Row i of the tridiagonal matrix times x: the neighbours plus four times the middle. */
  lemma TriRowDot(m: nat, i: nat, x: seq<real>)
    requires i < m == |x|
    ensures Dot(TriMatrix(m)[i], x, 0, m)
         == (if i > 0 then x[i - 1] else 0.0) + 4.0 * x[i] + (if i + 1 < m then x[i + 1] else 0.0)
  {
    var a := TriMatrix(m)[i];
    var lo := if i > 0 then i - 1 else 0;
    var hi := if i + 2 <= m then i + 2 else m;
    DotSplit(a, x, 0, lo, m);
    DotSplit(a, x, lo, hi, m);
    DotZero(a, x, 0, lo);
    DotZero(a, x, hi, m);
    DotSplit(a, x, lo, i, hi);
    DotSplit(a, x, i, i + 1, hi);
    DotOne(a, x, i);
    if i > 0 {
      DotOne(a, x, i - 1);
    }
    if i + 1 < m {
      DotOne(a, x, i + 1);
    }
  }

  /** The right-hand side: three times the central differences, minus the known end slopes. */
  function SplineRhs(y: seq<real>, sStart: real, sEnd: real): (b: seq<real>)
    requires |y| >= 3
    ensures |b| == |y| - 2
  {
    seq(|y| - 2, k requires 0 <= k < |y| - 2 =>
      3.0 * ((y[k + 1] - y[k]) + (y[k + 2] - y[k + 1]))
        - (if k == 0 then sStart else 0.0) - (if k == |y| - 3 then sEnd else 0.0))
  }

  /** The clamped-spline equations at every interior node (unit spacing). */
  predicate SplineEquations(y: seq<real>, s: seq<real>)
  {
    |s| == |y| && forall k :: 1 <= k < |y| - 1 ==> s[k - 1] + 4.0 * s[k] + s[k + 1] == 3.0 * (y[k + 1] - y[k - 1])
  }

  /** A solution of the interior system, framed by the end slopes, satisfies the spline equations. */
  lemma SplineFromSystem(y: seq<real>, sStart: real, sEnd: real, ms: seq<real>)
    requires |y| >= 3 && |ms| == |y| - 2
    requires MatVec(TriMatrix(|y| - 2), ms) == SplineRhs(y, sStart, sEnd)
    ensures SplineEquations(y, [sStart] + ms + [sEnd])
  {
    var m := |y| - 2;
    var s := [sStart] + ms + [sEnd];
    forall k | 1 <= k < |y| - 1 ensures s[k - 1] + 4.0 * s[k] + s[k + 1] == 3.0 * (y[k + 1] - y[k - 1]) {
      TriRowDot(m, k - 1, ms);
      assert MatVec(TriMatrix(m), ms)[k - 1] == SplineRhs(y, sStart, sEnd)[k - 1];
    }
  }

  /**
   * Slopes of the clamped cubic spline through y at the nodes 0, 1, ..., n-1,
   * with the end slopes given.  The interior slopes solve the tridiagonal
   * system through Solve, which never fails on it.
   */
  method Spline(y: array<real>, sStart: real, sEnd: real) returns (s: array<real>)
    requires y.Length >= 3
    ensures fresh(s)
    ensures s.Length == y.Length && s[0] == sStart && s[s.Length - 1] == sEnd
    ensures SplineEquations(y[..], s[..])
  {
    var h, r := Spacings(y);
    var A, b := SplineSystem(y, h, r, sStart, sEnd);
    var ms := SolveInterior(A, b, y[..], sStart, sEnd);
    s := FrameSlopes(ms, sStart, sEnd);
  }

  /**
   * The node parameters 0 .. n-1, their spacings h (all 1) and the chord
   * slopes r between consecutive nodes.
   */
  method Spacings(y: array<real>) returns (h: array<real>, r: array<real>)
    requires y.Length >= 1
    ensures fresh(h) && fresh(r) && h.Length == r.Length == y.Length - 1
    ensures forall k :: 0 <= k < h.Length ==> h[k] == 1.0 && r[k] == y[k + 1] - y[k]
  {
    var n := y.Length;

    var x := new real[n];
    for i := 0 to n
      modifies x
      invariant forall k :: 0 <= k < i ==> x[k] == k as real
    {
      x[i] := i as real;
    }

    h := new real[n - 1];
    r := new real[n - 1];
    for i := 0 to n - 1
      modifies h, r
      invariant forall k {:trigger h[k]} {:trigger r[k]} :: 0 <= k < i ==> h[k] == 1.0 && r[k] == y[k + 1] - y[k]
    {
      h[i] := x[i + 1] - x[i];
      r[i] := (y[i + 1] - y[i]) / h[i];
    }
  }

  /** The slopes array: the end slopes given, the interior ones from ms. */
  method FrameSlopes(ms: seq<real>, sStart: real, sEnd: real) returns (s: array<real>)
    ensures fresh(s) && s[..] == [sStart] + ms + [sEnd]
  {
    var n := |ms| + 2;
    s := new real[n];
    for i := 1 to n - 1
      modifies s
      invariant forall k :: 1 <= k < i ==> s[k] == ms[k - 1]
    {
      s[i] := ms[i - 1];
    }
    s[0] := sStart;
    s[n - 1] := sEnd;
    assert s[..] == [sStart] + ms + [sEnd];
  }

  /**
   * The call to Solve inside Spline: on the spline system it always returns
   * a vector, and that vector, framed by the end slopes, satisfies the spline
   * equations.
   */
  method SolveInterior(A: array2<real>, b: array<real>, ghost y: seq<real>, sStart: real, sEnd: real) returns (ms: seq<real>)
    requires |y| >= 3 && A.Length0 == A.Length1 == |y| - 2
    requires Elems(A) == TriMatrix(|y| - 2) && b[..] == SplineRhs(y, sStart, sEnd)
    modifies A
    ensures |ms| == |y| - 2 && SplineEquations(y, [sStart] + ms + [sEnd])
  {
    TriSolvable(|y| - 2);
    var middleS := Solve(A, b[..]);
    assert middleS.Some?;
    ms := middleS.value;
    SplineFromSystem(y, sStart, sEnd, ms);
  }

  /** The interior system of Spline, filled row by row from the spacings h and the slopes r. */
  method SplineSystem(y: array<real>, h: array<real>, r: array<real>, sStart: real, sEnd: real) returns (A: array2<real>, b: array<real>)
    requires y.Length >= 3 && h.Length == r.Length == y.Length - 1
    requires forall k :: 0 <= k < h.Length ==> h[k] == 1.0 && r[k] == y[k + 1] - y[k]
    ensures fresh(A) && fresh(b)
    ensures A.Length0 == A.Length1 == y.Length - 2 && Elems(A) == TriMatrix(y.Length - 2)
    ensures b[..] == SplineRhs(y[..], sStart, sEnd)
  {
    var n := y.Length;
    var m := n - 2;
    A := new real[m, m]((_, _) => 0.0);
    b := new real[m](_ => 0.0);
    for i := 0 to m
      invariant forall p, q :: 0 <= p < m && 0 <= q < m ==> A[p, q] == if p < i then TriEntry(p, q) else 0.0
      invariant forall k {:trigger b[k]} :: 0 <= k < i ==> b[k] == 3.0 * ((y[k + 1] - y[k]) + (y[k + 2] - y[k + 1]))
    {
      TridiagonalRow(A, h, i);
      assert r[i] / h[i] == y[i + 1] - y[i] && r[i + 1] / h[i + 1] == y[i + 2] - y[i + 1];
      b[i] := 3.0 * ((r[i] / h[i]) + (r[i + 1] / h[i + 1]));
    }
    ghost var b0 := b[..];
    assert sStart / h[0] == sStart && sEnd / h[n - 2] == sEnd;
    b[0] := b[0] - (sStart / h[0]);
    ghost var b1 := b[..];
    assert b1 == b0[0 := b0[0] - sStart];
    b[n - 3] := b[n - 3] - (sEnd / h[n - 2]);
    assert b[..] == b1[m - 1 := b1[m - 1] - sEnd];
    RhsAdjusted(y[..], sStart, sEnd, b0, b[..]);
    ElemsEqual(A, TriMatrix(m));
  }

  /** Subtracting the end slopes from the first and last central differences gives SplineRhs. */
  lemma RhsAdjusted(y: seq<real>, sStart: real, sEnd: real, b0: seq<real>, b: seq<real>)
    requires |y| >= 3 && |b0| == |y| - 2
    requires forall k {:trigger b0[k]} :: 0 <= k < |b0| ==> b0[k] == 3.0 * ((y[k + 1] - y[k]) + (y[k + 2] - y[k + 1]))
    requires b == b0[0 := b0[0] - sStart][|b0| - 1 := b0[0 := b0[0] - sStart][|b0| - 1] - sEnd]
    ensures b == SplineRhs(y, sStart, sEnd)
  {
    var rhs := SplineRhs(y, sStart, sEnd);
    assert |b| == |b0| == |rhs|;
    forall k | 0 <= k < |b| ensures b[k] == rhs[k] {
      var central := 3.0 * ((y[k + 1] - y[k]) + (y[k + 2] - y[k + 1]));
      assert b0[k] == central;
      assert rhs[k] == central - (if k == 0 then sStart else 0.0) - (if k == |y| - 3 then sEnd else 0.0);
      if k == 0 && k == |b0| - 1 {
        assert b[k] == b0[0] - sStart - sEnd;
      } else if k == 0 {
        assert b[k] == b0[0] - sStart;
      } else if k == |b0| - 1 {
        assert b[k] == b0[k] - sEnd;
      }
    }
  }

  /** Row i of the spline matrix, written into a row that is still zero; other rows are kept. */
  method TridiagonalRow(A: array2<real>, h: array<real>, i: nat)
    requires A.Length0 == A.Length1 && i < A.Length0 && h.Length == A.Length0 + 1
    requires forall k :: 0 <= k < h.Length ==> h[k] == 1.0
    requires forall q :: 0 <= q < A.Length1 ==> A[i, q] == 0.0
    modifies A
    ensures forall p, q :: 0 <= p < A.Length0 && 0 <= q < A.Length1 ==>
      A[p, q] == if p == i then TriEntry(p, q) else old(A[p, q])
  {
    var n := A.Length0 + 2;
    A[i, i] := (2.0 / h[i]) + (2.0 / h[i + 1]);
    if i > 0 {
      A[i, i - 1] := 1.0 / h[i];
    }
    if i < n - 3 {
      A[i, i + 1] := 1.0 / h[i + 1];
    }
  }

  // ---------------------------------------------------------------------
  // Spline slopes make the Hermite segments join with equal curvature
  // ---------------------------------------------------------------------

  /** The second derivative of a power-basis polynomial, at t. */
  function SecondDerivativeAt(c: seq<real>, t: real): real
  {
    Poly(FormalDerivative(FormalDerivative(c)), t)
  }

  /** Over a unit interval the divided differences are plain differences. */
  lemma UnitHermite(a: real, p0: real, p1: real, d0: real, d1: real)
    ensures HermiteNewton(a, a + 1.0, p0, p1, d0, d1) == [p0, d0, (p1 - p0) - d0, (d1 - (p1 - p0)) - ((p1 - p0) - d0)]
  {
  }

  lemma SecondAtEnd(a: real, p0: real, p1: real, d0: real, d1: real)
    ensures NewtSecondDerivative(HermiteNewton(a, a + 1.0, p0, p1, d0, d1), a, a + 1.0, a + 1.0)
         == -6.0 * (p1 - p0) + 2.0 * d0 + 4.0 * d1
  {
    UnitHermite(a, p0, p1, d0, d1);
  }

  lemma SecondAtStart(a: real, p0: real, p1: real, d0: real, d1: real)
    ensures NewtSecondDerivative(HermiteNewton(a, a + 1.0, p0, p1, d0, d1), a, a + 1.0, a)
         == 6.0 * (p1 - p0) - 4.0 * d0 - 2.0 * d1
  {
    UnitHermite(a, p0, p1, d0, d1);
  }

  /**
   * At an interior node k, the segments on either side have the same second
   * derivative exactly when the slopes satisfy the spline equation at k.
   */
  lemma SplineIsC2(y: seq<real>, s: seq<real>, k: nat)
    requires 1 <= k && k + 1 < |y| && |y| <= |s|
    ensures SecondDerivativeAt(HermiteSegment(y, s, k - 1), k as real) == SecondDerivativeAt(HermiteSegment(y, s, k), k as real)
        <==> s[k - 1] + 4.0 * s[k] + s[k + 1] == 3.0 * (y[k + 1] - y[k - 1])
  {
    var a, b := (k - 1) as real, k as real;
    assert a + 1.0 == b && b + 1.0 == (k + 1) as real;
    var left := HermiteNewton(a, b, y[k - 1], y[k], s[k - 1], s[k]);
    var right := HermiteNewton(b, b + 1.0, y[k], y[k + 1], s[k], s[k + 1]);
    NewtToStandSecondDerivative(left, a, b, b);
    NewtToStandSecondDerivative(right, b, b + 1.0, b);
    SecondAtEnd(a, y[k - 1], y[k], s[k - 1], s[k]);
    SecondAtStart(b, y[k], y[k + 1], s[k], s[k + 1]);
  }

  /** Slopes satisfying the spline equations give a curve whose curvature is continuous at every node. */
  lemma SplineSegmentsJoin(y: seq<real>, s: seq<real>)
    requires SplineEquations(y, s)
    ensures forall k :: 1 <= k < |y| - 1 ==>
      SecondDerivativeAt(HermiteSegment(y, s, k - 1), k as real) == SecondDerivativeAt(HermiteSegment(y, s, k), k as real)
  {
    forall k | 1 <= k < |y| - 1
      ensures SecondDerivativeAt(HermiteSegment(y, s, k - 1), k as real) == SecondDerivativeAt(HermiteSegment(y, s, k), k as real)
    {
      SplineIsC2(y, s, k);
    }
  }
}
