/**
 * Vertex and triangle index bookkeeping of the three sweep tessellations
 * (box, tube and custom profile). Each routine allocates its buffers from a
 * closed-form size, fills the vertex buffer through a running counter k while
 * recording in points[step, profile, slot] which vertex each grid slot got,
 * and then writes triangles that name vertices through that table.
 *
 * Vertex positions, UVs, normals and tangents are geometry (cross products,
 * normalisation, sine and cosine); the model replaces the contents of each
 * vertex by the grid slot (or cap corner) it was produced for.
 */
module Tessellation {

  /** Convert.ToInt32 of a face flag. */
  function B(b: bool): nat
  {
    if b then 1 else 0
  }

  /** The six face switches of the box and tube shapes. */
  datatype Faces = Faces(top: bool, bottom: bool, left: bool, right: bool, start: bool, end: bool)

  /** What a vertex was produced for; Unset stands for an entry never written. */
  datatype Vertex = Unset | Grid(step: nat, profile: nat, slot: nat) | Cap(atEnd: bool, corner: nat)

  datatype Shape = BoxShape | TubeShape | CustomShape

  /**
   * One sweep: the shape, its face switches, the number of t steps and the
   * number of profile columns of the vertex grid (the box's width steps, the
   * tube's divisions + 1, the custom profile's points).
   */
  datatype Sweep = Sweep(shape: Shape, faces: Faces, steps: nat, columns: nat)

  /** The two passes over the grid: one adds vertices, the other triangles. */
  datatype Pass = Vertices | Triangles

  /** The top and bottom switches, counted. */
  function TopBottom(g: Sweep): nat
  {
    B(g.faces.top) + B(g.faces.bottom)
  }

  // ---------------------------------------------------------------------------
  // What each pass adds per grid point.
  // ---------------------------------------------------------------------------

  /** A right side vertex pair at the first profile column, a left one at the last. */
  predicate SideAt(g: Sweep, j: nat)
  {
    (j == 0 && g.faces.right) || (j + 1 == g.columns && g.faces.left)
  }

  /** A start cap vertex pair at the first t step, an end one at the last. */
  predicate EndAt(g: Sweep, i: nat)
  {
    (i == 0 && g.faces.start) || (i + 1 == g.steps && g.faces.end)
  }

  /** The third dimension of the points table. */
  function Slots(shape: Shape): nat
  {
    match shape
    case BoxShape => 6
    case TubeShape => 4
    case CustomShape => 2
  }

  /** Whether the vertex pass gives slot c of grid point (i, j) a vertex. */
  predicate Written(g: Sweep, i: nat, j: nat, c: nat)
  {
    var f := g.faces;
    match g.shape
    case BoxShape =>
      (c == 0 && f.top) || (c == 1 && f.bottom) || ((c == 2 || c == 4) && SideAt(g, j)) || ((c == 3 || c == 5) && EndAt(g, i))
    case TubeShape =>
      (c == 0 && f.top) || (c == 1 && f.bottom) || ((c == 2 || c == 3) && EndAt(g, i))
    case CustomShape =>
      c == 0 || c == 1
  }

  /** The number of columns a pass runs over: the tube's faces span divisions, not division points. */
  function Width(pass: Pass, g: Sweep): nat
  {
    if pass == Triangles && g.shape == TubeShape && g.columns > 0 then g.columns - 1 else g.columns
  }

  /** The number of vertices the vertex pass adds at grid point (i, j). */
  function VertexCell(g: Sweep, i: nat, j: nat): nat
  {
    match g.shape
    case BoxShape => TopBottom(g) + 2 * B(SideAt(g, j)) + 2 * B(EndAt(g, i))
    case TubeShape => TopBottom(g) + 2 * B(EndAt(g, i))
    case CustomShape => 2
  }

  /** The number of triangles the face pass emits at grid point (i, j), branch by branch. */
  function TriangleCell(g: Sweep, i: nat, j: nat): nat
  {
    var f, t, fw, tb := g.faces, g.steps, Width(Triangles, g), TopBottom(g);
    match g.shape
    case BoxShape =>
      (if i == 0 && f.start then B(j > 0) + B(j + 1 < fw) else 0)
      + (if i + 1 == t && f.end then B(j > 0) + B(j + 1 < fw) else 0)
      + (if j == 0 && f.right then B(i > 0) + B(i + 1 < t) else 0)
      + (if j + 1 == fw && f.left then B(i > 0) + B(i + 1 < t) else 0)
      + (if i > 0 && j > 0 then tb else 0)
      + (if i + 1 < t && j + 1 < fw then tb else 0)
    case TubeShape =>
      (if i == 0 && f.start then B(j > 0) + 1 + B(j + 1 == fw) else 0)
      + (if i + 1 == t && f.end then B(j > 0) + 1 + B(j + 1 == fw) else 0)
      + (if i > 0 then tb * (B(j > 0) + B(j + 1 == fw)) else 0)
      + (if i + 1 < t then tb else 0)
    case CustomShape =>
      B(i > 0 && j > 0) + B(i + 1 < t && j + 1 < fw)
  }

  function Cell(pass: Pass, g: Sweep, i: nat, j: nat): nat
  {
    match pass
    case Vertices => VertexCell(g, i, j)
    case Triangles => TriangleCell(g, i, j)
  }

  // ---------------------------------------------------------------------------
  // Counting over the step x column grid, in the loops' row-major order.
  // ---------------------------------------------------------------------------

  /** The cells (i, 0) .. (i, j - 1) of row i. */
  function RowCount(pass: Pass, g: Sweep, i: nat, j: nat): nat
  {
    if j == 0 then 0 else RowCount(pass, g, i, j - 1) + Cell(pass, g, i, j - 1)
  }

  /** The first i rows, each as wide as the pass. */
  function GridCount(pass: Pass, g: Sweep, i: nat): nat
  {
    if i == 0 then 0 else GridCount(pass, g, i - 1) + RowCount(pass, g, i - 1, Width(pass, g))
  }

  /** Everything a pass has added when it reaches grid point (i, j). */
  function Before(pass: Pass, g: Sweep, i: nat, j: nat): nat
  {
    GridCount(pass, g, i) + RowCount(pass, g, i, j)
  }

  lemma {:induction false} RowCountMono(pass: Pass, g: Sweep, i: nat, j: nat, j2: nat)
    requires j <= j2
    ensures RowCount(pass, g, i, j) <= RowCount(pass, g, i, j2)
  {
    if j < j2 {
      RowCountMono(pass, g, i, j, j2 - 1);
    }
  }

  lemma {:induction false} GridCountMono(pass: Pass, g: Sweep, i: nat, i2: nat)
    requires i <= i2
    ensures GridCount(pass, g, i) <= GridCount(pass, g, i2)
  {
    if i < i2 {
      GridCountMono(pass, g, i, i2 - 1);
    }
  }

  /** What a pass adds at a grid point it visits fits in the whole grid's count. */
  lemma CellFits(pass: Pass, g: Sweep, i: nat, j: nat)
    requires i < g.steps && j < Width(pass, g)
    ensures Before(pass, g, i, j) + Cell(pass, g, i, j) <= GridCount(pass, g, g.steps)
  {
    RowCountMono(pass, g, i, j + 1, Width(pass, g));
    GridCountMono(pass, g, i + 1, g.steps);
  }

  // ---------------------------------------------------------------------------
  // Sums of position indicators along one axis.
  // ---------------------------------------------------------------------------

  /**
   * Counts along one axis: p at every position after the first, q at every
   * position before the last, r at the first, s at the last and u everywhere.
   */
  datatype Coeffs = Coeffs(p: nat, q: nat, r: nat, s: nat, u: nat)

  /** The count at position x of n. */
  function Ind(x: nat, n: nat, c: Coeffs): nat
  {
    (if x > 0 then c.p else 0) + (if x + 1 < n then c.q else 0)
    + (if x == 0 then c.r else 0) + (if x + 1 == n then c.s else 0) + c.u
  }

  /** The counts at positions 0 .. m - 1. */
  function IndSum(n: nat, c: Coeffs, m: nat): nat
  {
    if m == 0 then 0 else IndSum(n, c, m - 1) + Ind(m - 1, n, c)
  }

  /** The counts over all n positions, in closed form. */
  function Total(n: nat, c: Coeffs): int
  {
    (c.p + c.q) * (n - 1) + c.r + c.s + c.u * n
  }

  /** How many of the positions 0 .. m - 1 come after the first. */
  function AfterFirst(m: nat): nat
  {
    if m == 0 then 0 else m - 1
  }

  /** How many of the positions 0 .. m - 1 come before the last of n. */
  function BeforeLast(m: nat, n: nat): nat
  {
    if m < n then m else if n == 0 then 0 else n - 1
  }

  lemma {:induction false} IndSumPrefix(n: nat, c: Coeffs, m: nat)
    requires m <= n
    ensures IndSum(n, c, m) == c.p * AfterFirst(m) + c.q * BeforeLast(m, n) + c.r * B(m > 0) + c.s * B(m == n && n > 0) + c.u * m
  {
    if m > 0 {
      var k := m - 1;
      IndSumPrefix(n, c, k);
      IndStep(c.p, c.q, c.r, c.s, c.u, k,
              AfterFirst(k), BeforeLast(k, n), B(k > 0), B(k == n && n > 0),
              AfterFirst(m), BeforeLast(m, n), B(m > 0), B(m == n && n > 0),
              B(k > 0), B(k + 1 < n), B(k == 0), B(k + 1 == n), Ind(k, n, c));
    }
  }

  /** The closed form grows by the indicators of the position it passes. */
  lemma IndStep(p: int, q: int, r: int, s: int, u: int, k: int,
                x1: int, x2: int, x3: int, x4: int, y1: int, y2: int, y3: int, y4: int,
                i1: int, i2: int, i3: int, i4: int, v: int)
    requires y1 == x1 + i1 && y2 == x2 + i2 && y3 == x3 + i3 && y4 == x4 + i4
    requires v == p * i1 + q * i2 + r * i3 + s * i4 + u
    ensures p * x1 + q * x2 + r * x3 + s * x4 + u * k + v
         == p * y1 + q * y2 + r * y3 + s * y4 + u * (k + 1)
  {
  }

  lemma IndSumTotal(n: nat, c: Coeffs)
    requires n >= 1
    ensures IndSum(n, c, n) == Total(n, c)
  {
    IndSumPrefix(n, c, n);
    assert AfterFirst(n) == n - 1 && BeforeLast(n, n) == n - 1 && B(n > 0) == 1 && B(n == n && n > 0) == 1;
    MulAddLeft(c.p, c.q, n - 1);
  }

  lemma MulAddLeft(x: int, y: int, z: int)
    ensures x * z + y * z == (x + y) * z
  {
  }

  // ---------------------------------------------------------------------------
  // Each row, and the sequence of row totals, as axis counts.
  // ---------------------------------------------------------------------------

  /** With one profile column, a left and a right side share it. */
  function LeftColumn(g: Sweep): nat
  {
    if g.columns == 1 then B(g.faces.left && !g.faces.right) else B(g.faces.left)
  }

  /** n - 1, or 0 for n == 0. */
  function Pred(n: nat): nat
  {
    if n == 0 then 0 else n - 1
  }

  /** How many caps (start, end or both) row i carries. */
  function CapRow(g: Sweep, i: nat): nat
  {
    B(i == 0 && g.faces.start) + B(i + 1 == g.steps && g.faces.end)
  }

  /** Row i of a pass, as counts along the columns. */
  function RowCoeffs(pass: Pass, g: Sweep, i: nat): Coeffs
  {
    var f, t, tb := g.faces, g.steps, TopBottom(g);
    var e := CapRow(g, i);
    match pass
    case Vertices =>
      (match g.shape
       case BoxShape => Coeffs(0, 0, 2 * B(f.right), 2 * LeftColumn(g), tb + 2 * B(EndAt(g, i)))
       case TubeShape => Coeffs(0, 0, 0, 0, tb + 2 * B(EndAt(g, i)))
       case CustomShape => Coeffs(0, 0, 0, 0, 2))
    case Triangles =>
      (match g.shape
       case BoxShape =>
         var sides := B(i > 0) + B(i + 1 < t);
         Coeffs(e + tb * B(i > 0), e + tb * B(i + 1 < t), sides * B(f.right), sides * B(f.left), 0)
       case TubeShape => Coeffs(e + tb * B(i > 0), 0, 0, e + tb * B(i > 0), e + tb * B(i + 1 < t))
       case CustomShape => Coeffs(B(i > 0), B(i + 1 < t), 0, 0, 0))
  }

  lemma RowCoeffsCell(pass: Pass, g: Sweep, i: nat, j: nat)
    ensures Cell(pass, g, i, j) == Ind(j, Width(pass, g), RowCoeffs(pass, g, i))
  {
    match pass
    case Vertices => VertexRowCell(g, i, j);
    case Triangles =>
      match g.shape {
        case BoxShape => BoxTriangleRowCell(g, i, j);
        case TubeShape => TubeTriangleRowCell(g, i, j);
        case CustomShape => CustomTriangleRowCell(g, i, j);
      }
  }

  lemma VertexRowCell(g: Sweep, i: nat, j: nat)
    ensures VertexCell(g, i, j) == Ind(j, Width(Vertices, g), RowCoeffs(Vertices, g, i))
  {
  }

  lemma BoxTriangleRowCell(g: Sweep, i: nat, j: nat)
    requires g.shape == BoxShape
    ensures TriangleCell(g, i, j) == Ind(j, Width(Triangles, g), RowCoeffs(Triangles, g, i))
  {
  }

  lemma TubeTriangleRowCell(g: Sweep, i: nat, j: nat)
    requires g.shape == TubeShape
    ensures TriangleCell(g, i, j) == Ind(j, Width(Triangles, g), RowCoeffs(Triangles, g, i))
  {
  }

  lemma CustomTriangleRowCell(g: Sweep, i: nat, j: nat)
    requires g.shape == CustomShape
    ensures TriangleCell(g, i, j) == Ind(j, Width(Triangles, g), RowCoeffs(Triangles, g, i))
  {
  }

  lemma {:induction false} RowCountInd(pass: Pass, g: Sweep, i: nat, j: nat)
    ensures RowCount(pass, g, i, j) == IndSum(Width(pass, g), RowCoeffs(pass, g, i), j)
  {
    if j > 0 {
      RowCountInd(pass, g, i, j - 1);
      RowCoeffsCell(pass, g, i, j - 1);
    }
  }

  /** The row totals of a pass, as counts along the steps. */
  function GridCoeffs(pass: Pass, g: Sweep): Coeffs
  {
    var f, w, tb := g.faces, Width(pass, g), TopBottom(g);
    match pass
    case Vertices =>
      (match g.shape
       case BoxShape => Coeffs(0, 0, 2 * w * B(f.start), 2 * w * B(f.end), 2 * B(f.right) + 2 * LeftColumn(g) + tb * w)
       case TubeShape => Coeffs(0, 0, 2 * w * B(f.start), 2 * w * B(f.end), tb * w)
       case CustomShape => Coeffs(0, 0, 0, 0, 2 * w))
    case Triangles =>
      (match g.shape
       case BoxShape =>
         var m := tb * Pred(w) + B(f.right) + B(f.left);
         Coeffs(m, m, 2 * Pred(w) * B(f.start), 2 * Pred(w) * B(f.end), 0)
       case TubeShape => Coeffs(tb * w, tb * w, 2 * w * B(f.start), 2 * w * B(f.end), 0)
       case CustomShape => Coeffs(Pred(w), Pred(w), 0, 0, 0))
  }

  lemma RowTotal(pass: Pass, g: Sweep, i: nat)
    requires g.steps >= 2 && Width(pass, g) >= 1 && i < g.steps
    ensures Total(Width(pass, g), RowCoeffs(pass, g, i)) == Ind(i, g.steps, GridCoeffs(pass, g))
  {
    match pass
    case Vertices =>
      match g.shape {
        case BoxShape => BoxVertexRowTotal(g, i);
        case TubeShape => TubeVertexRowTotal(g, i);
        case CustomShape =>
      }
    case Triangles =>
      match g.shape
      case BoxShape => BoxTriangleRowTotal(g, i);
      case TubeShape => TubeTriangleRowTotal(g, i);
      case CustomShape => CustomTriangleRowTotal(g, i);
  }

  lemma BoxVertexRowTotal(g: Sweep, i: nat)
    requires g.shape == BoxShape && g.steps >= 2 && g.columns >= 1 && i < g.steps
    ensures Total(Width(Vertices, g), RowCoeffs(Vertices, g, i)) == Ind(i, g.steps, GridCoeffs(Vertices, g))
  {
    var w, f, tb := g.columns, g.faces, TopBottom(g);
    var c0, c1 := B(i == 0 && f.start), B(i + 1 == g.steps && f.end);
    var x := 2 * B(f.right) + 2 * LeftColumn(g);
    assert B(EndAt(g, i)) == c0 + c1;
    assert Ind(i, g.steps, GridCoeffs(Vertices, g)) == c0 * (2 * w) + c1 * (2 * w) + x + tb * w;
    VertexRowArith(w, tb, c0, c1, 2 * B(f.right), 2 * LeftColumn(g), Total(Width(Vertices, g), RowCoeffs(Vertices, g, i)));
  }

  lemma TubeVertexRowTotal(g: Sweep, i: nat)
    requires g.shape == TubeShape && g.steps >= 2 && g.columns >= 1 && i < g.steps
    ensures Total(Width(Vertices, g), RowCoeffs(Vertices, g, i)) == Ind(i, g.steps, GridCoeffs(Vertices, g))
  {
    var w, f, tb := g.columns, g.faces, TopBottom(g);
    var c0, c1 := B(i == 0 && f.start), B(i + 1 == g.steps && f.end);
    assert B(EndAt(g, i)) == c0 + c1;
    assert Ind(i, g.steps, GridCoeffs(Vertices, g)) == c0 * (2 * w) + c1 * (2 * w) + 0 + tb * w;
    VertexRowArith(w, tb, c0, c1, 0, 0, Total(Width(Vertices, g), RowCoeffs(Vertices, g, i)));
  }

  lemma VertexRowArith(w: int, tb: int, c0: int, c1: int, r: int, s: int, total: int)
    requires total == (0 + 0) * (w - 1) + r + s + (tb + 2 * (c0 + c1)) * w
    ensures total == c0 * (2 * w) + c1 * (2 * w) + (r + s) + tb * w
  {
  }

  lemma BoxTriangleRowTotal(g: Sweep, i: nat)
    requires g.shape == BoxShape && g.steps >= 2 && g.columns >= 1 && i < g.steps
    ensures Total(Width(Triangles, g), RowCoeffs(Triangles, g, i)) == Ind(i, g.steps, GridCoeffs(Triangles, g))
  {
    var t, w, f, tb := g.steps, g.columns, g.faces, TopBottom(g);
    var a, b := B(i > 0), B(i + 1 < t);
    var c0, c1 := B(i == 0 && f.start), B(i + 1 == t && f.end);
    var m := tb * Pred(w) + B(f.right) + B(f.left);
    assert CapRow(g, i) == c0 + c1;
    var rc := RowCoeffs(Triangles, g, i);
    assert rc == Coeffs(c0 + c1 + tb * a, c0 + c1 + tb * b, (a + b) * B(f.right), (a + b) * B(f.left), 0);
    assert Width(Triangles, g) == w && Pred(w) == w - 1;
    assert Ind(i, t, GridCoeffs(Triangles, g)) == a * m + b * m + c0 * (2 * Pred(w)) + c1 * (2 * Pred(w));
    BoxRowArith(w - 1, tb, a, b, c0, c1, B(f.right), B(f.left), m, rc);
  }

  lemma BoxRowArith(v: nat, tb: int, a: int, b: int, c0: int, c1: int, r: int, l: int, m: int, rc: Coeffs)
    requires m == tb * v + r + l
    requires rc.p == c0 + c1 + tb * a && rc.q == c0 + c1 + tb * b && rc.r == (a + b) * r && rc.s == (a + b) * l && rc.u == 0
    ensures Total(v + 1, rc) == a * m + b * m + c0 * (2 * v) + c1 * (2 * v)
  {
  }

  lemma TubeTriangleRowTotal(g: Sweep, i: nat)
    requires g.shape == TubeShape && g.steps >= 2 && g.columns >= 2 && i < g.steps
    ensures Total(Width(Triangles, g), RowCoeffs(Triangles, g, i)) == Ind(i, g.steps, GridCoeffs(Triangles, g))
  {
  }

  lemma CustomTriangleRowTotal(g: Sweep, i: nat)
    requires g.shape == CustomShape && g.steps >= 2 && g.columns >= 1 && i < g.steps
    ensures Total(Width(Triangles, g), RowCoeffs(Triangles, g, i)) == Ind(i, g.steps, GridCoeffs(Triangles, g))
  {
  }

  lemma {:induction false} GridCountInd(pass: Pass, g: Sweep, i: nat)
    requires g.steps >= 2 && Width(pass, g) >= 1 && i <= g.steps
    ensures GridCount(pass, g, i) == IndSum(g.steps, GridCoeffs(pass, g), i)
  {
    if i > 0 {
      GridCountInd(pass, g, i - 1);
      GridRowStep(pass, g, i - 1);
    }
  }

  /** Row i adds the count at position i of the grid coefficients. */
  lemma GridRowStep(pass: Pass, g: Sweep, i: nat)
    requires g.steps >= 2 && Width(pass, g) >= 1 && i < g.steps
    ensures RowCount(pass, g, i, Width(pass, g)) == Ind(i, g.steps, GridCoeffs(pass, g))
  {
    var w, rc := Width(pass, g), RowCoeffs(pass, g, i);
    RowCountInd(pass, g, i, w);
    IndSumTotal(w, rc);
    RowTotal(pass, g, i);
  }

  lemma {:induction false} GridCountEmpty(pass: Pass, g: Sweep, i: nat)
    requires Width(pass, g) == 0
    ensures GridCount(pass, g, i) == 0
  {
    if i > 0 {
      GridCountEmpty(pass, g, i - 1);
    }
  }

  // ---------------------------------------------------------------------------
  // Closed forms of the counts, and the buffer lengths the routines allocate.
  // ---------------------------------------------------------------------------

  /** The profile columns that carry a side vertex pair. */
  function SideColumns(g: Sweep): nat
  {
    if g.columns == 1 then B(g.faces.left || g.faces.right) else B(g.faces.left) + B(g.faces.right)
  }

  /** The number of grid vertices the vertex pass writes, in closed form. */
  function VertexTotal(g: Sweep): int
  {
    var t, w, f := g.steps, g.columns, g.faces;
    match g.shape
    case BoxShape => t * w * TopBottom(g) + 2 * t * SideColumns(g) + 2 * w * (B(f.start) + B(f.end))
    case TubeShape => t * w * TopBottom(g) + 2 * w * (B(f.start) + B(f.end))
    case CustomShape => 2 * t * w
  }

  /** The number of grid triangles the face pass emits, in closed form. */
  function TriangleTotal(g: Sweep): int
  {
    var t, w, f := g.steps, g.columns, g.faces;
    var tb := TopBottom(g);
    match g.shape
    case BoxShape => (B(f.start) + B(f.end)) * (2 * (w - 1)) + 2 * (t - 1) * (B(f.right) + B(f.left)) + 2 * tb * (t - 1) * (w - 1)
    case TubeShape => (B(f.start) + B(f.end)) * (2 * (w - 1)) + 2 * tb * (t - 1) * (w - 1)
    case CustomShape => 2 * (t - 1) * (w - 1)
  }

  /** The vertex pass writes VertexTotal grid vertices. */
  lemma VertexCount(g: Sweep)
    requires g.steps >= 2 && g.columns >= 1
    ensures GridCount(Vertices, g, g.steps) == VertexTotal(g)
  {
    GridCountInd(Vertices, g, g.steps);
    IndSumTotal(g.steps, GridCoeffs(Vertices, g));
    VertexTotalOfCoeffs(g);
  }

  lemma VertexTotalOfCoeffs(g: Sweep)
    requires g.steps >= 2 && g.columns >= 1
    ensures Total(g.steps, GridCoeffs(Vertices, g)) == VertexTotal(g)
  {
    var t, w, f, tb := g.steps, g.columns, g.faces, TopBottom(g);
    var d := GridCoeffs(Vertices, g);
    match g.shape
    case BoxShape =>
      BoxVertexArith(t, w, tb, B(f.start), B(f.end), B(f.right), LeftColumn(g), SideColumns(g), Total(t, d), VertexTotal(g));
    case TubeShape =>
      TubeVertexArith(t, w, tb, B(f.start), B(f.end), Total(t, d), VertexTotal(g));
    case CustomShape =>
      CustomVertexArith(t, w, Total(t, d), VertexTotal(g));
  }

  /** The axis total over the steps of the box's vertex pass, rearranged. */
  lemma BoxVertexArith(t: int, w: int, tb: int, s: int, e: int, r: int, l: int, sides: int, total: int, closed: int)
    requires total == (0 + 0) * (t - 1) + 2 * w * s + 2 * w * e + (2 * r + 2 * l + tb * w) * t
    requires sides == r + l
    requires closed == t * w * tb + 2 * t * sides + 2 * w * (s + e)
    ensures total == closed
  {
  }

  lemma TubeVertexArith(t: int, w: int, tb: int, s: int, e: int, total: int, closed: int)
    requires total == (0 + 0) * (t - 1) + 2 * w * s + 2 * w * e + tb * w * t
    requires closed == t * w * tb + 2 * w * (s + e)
    ensures total == closed
  {
  }

  lemma CustomVertexArith(t: int, w: int, total: int, closed: int)
    requires total == (0 + 0) * (t - 1) + 0 + 0 + 2 * w * t
    requires closed == 2 * t * w
    ensures total == closed
  {
  }

  /** The face pass emits TriangleTotal grid triangles. */
  lemma TriangleCount(g: Sweep)
    requires g.steps >= 2 && g.columns >= 1
    ensures GridCount(Triangles, g, g.steps) == TriangleTotal(g)
  {
    if Width(Triangles, g) == 0 {
      GridCountEmpty(Triangles, g, g.steps);
      NarrowTubeTriangles(g);
    } else {
      GridCountInd(Triangles, g, g.steps);
      IndSumTotal(g.steps, GridCoeffs(Triangles, g));
      TriangleTotalOfCoeffs(g);
    }
  }

  /** A tube without divisions has no triangles. */
  lemma NarrowTubeTriangles(g: Sweep)
    requires Width(Triangles, g) == 0 && g.columns >= 1
    ensures TriangleTotal(g) == 0
  {
    assert g.shape == TubeShape && g.columns == 1;
    var f := g.faces;
    TubeTriangleArith(g.steps, 0, TopBottom(g), B(f.start), B(f.end), 0, TriangleTotal(g));
  }

  lemma TriangleTotalOfCoeffs(g: Sweep)
    requires g.steps >= 2 && Width(Triangles, g) >= 1
    ensures Total(g.steps, GridCoeffs(Triangles, g)) == TriangleTotal(g)
  {
    var t, v, f, tb := g.steps, Width(Triangles, g), g.faces, TopBottom(g);
    var d := GridCoeffs(Triangles, g);
    match g.shape
    case BoxShape =>
      BoxTriangleArith(t, v, tb, B(f.start), B(f.end), B(f.right) + B(f.left), Total(t, d), TriangleTotal(g));
    case TubeShape =>
      TubeTriangleArith(t, v, tb, B(f.start), B(f.end), Total(t, d), TriangleTotal(g));
    case CustomShape =>
      CustomTriangleArith(t, v, Total(t, d), TriangleTotal(g));
  }

  /** The axis total over the steps of the box's face pass, rearranged; v = w - 1. */
  lemma BoxTriangleArith(t: int, w: int, tb: int, s: int, e: int, sides: int, total: int, closed: int)
    requires w >= 1
    requires total == (tb * (w - 1) + sides + (tb * (w - 1) + sides)) * (t - 1) + 2 * (w - 1) * s + 2 * (w - 1) * e + 0 * t
    requires closed == (s + e) * (2 * (w - 1)) + 2 * (t - 1) * sides + 2 * tb * (t - 1) * (w - 1)
    ensures total == closed
  {
  }

  /** The same for the tube, whose face width d is its divisions. */
  lemma TubeTriangleArith(t: int, d: int, tb: int, s: int, e: int, total: int, closed: int)
    requires total == (tb * d + tb * d) * (t - 1) + 2 * d * s + 2 * d * e + 0 * t
    requires closed == (s + e) * (2 * d) + 2 * tb * (t - 1) * d
    ensures total == closed
  {
  }

  lemma CustomTriangleArith(t: int, w: int, total: int, closed: int)
    requires w >= 1
    requires total == ((w - 1) + (w - 1)) * (t - 1) + 0 + 0 + 0 * t
    requires closed == 2 * (t - 1) * (w - 1)
    ensures total == closed
  {
  }

  // ---------------------------------------------------------------------------
  // Buffer lengths as the routines allocate them.
  // ---------------------------------------------------------------------------

  /**
   * The vertex buffer length: grid vertices for the enabled faces and, for
   * the custom profile, two copies of its capCount cap vertices.
   */
  function VertexAllocation(g: Sweep, capCount: nat): int
  {
    var t, w, f := g.steps, g.columns, g.faces;
    match g.shape
    case BoxShape =>
      t * w * (B(f.top) + B(f.bottom)) + t * 2 * (B(f.left) + B(f.right)) + w * 2 * (B(f.start) + B(f.end))
    case TubeShape =>
      t * w * (B(f.top) + B(f.bottom)) + w * 2 * (B(f.start) + B(f.end))
    case CustomShape =>
      t * w * 2 + capCount * 2
  }

  /**
   * The vertex buffer holds exactly the grid vertices (and the custom caps),
   * except for a box one column wide with both side faces on: that column
   * carries one side pair, not two, and 2 t entries stay unused.
   */
  lemma VertexAllocationExact(g: Sweep, capCount: nat)
    requires g.steps >= 2 && g.columns >= 1
    ensures VertexAllocation(g, capCount)
         == VertexTotal(g) + (if g.shape == CustomShape then 2 * capCount else 0)
            + (if g.shape == BoxShape && g.columns == 1 && g.faces.left && g.faces.right then 2 * g.steps else 0)
  {
    if g.shape == BoxShape {
      var t, w, f := g.steps, g.columns, g.faces;
      SideArith(t, B(f.left) + B(f.right), SideColumns(g), if g.columns == 1 && f.left && f.right then 1 else 0);
    }
  }

  lemma SideArith(t: int, both: int, sides: int, extra: int)
    requires both == sides + extra
    ensures t * 2 * both == 2 * t * sides + 2 * t * extra
  {
  }

  /** The box triangle buffer length exactly as the source computes it. */
  function BoxTriangleAllocationAsWritten(g: Sweep): int
  {
    var t, w, f := g.steps, g.columns, g.faces;
    ((t * w * 2 - t * 2 - w * 2) * B(f.top) + (t * w * 2 - t * 2 - w * 2) * B(f.bottom)
     + t * 4 * B(f.left) + t * 4 * B(f.right) + w * 4 * B(f.start) + w * 4 * B(f.end)) * 3
  }

  /**
   * The triangle buffer length. For the box, the top and bottom terms are
   * corrected to the 2 (t - 1)(w - 1) triangles the face pass emits for each;
   * the tube's width is its divisions, one less than its columns; capLength
   * is the length of the custom cap's triangle list, written once per cap.
   */
  function TriangleAllocation(g: Sweep, capLength: nat): int
  {
    var t, w, f := g.steps, g.columns, g.faces;
    match g.shape
    case BoxShape =>
      ((t * w * 2 - t * 2 - w * 2 + 2) * B(f.top) + (t * w * 2 - t * 2 - w * 2 + 2) * B(f.bottom)
       + t * 4 * B(f.left) + t * 4 * B(f.right) + w * 4 * B(f.start) + w * 4 * B(f.end)) * 3
    case TubeShape =>
      ((t * (w - 1) * 2 - (w - 1) * 2) * B(f.top) + (t * (w - 1) * 2 - (w - 1) * 2) * B(f.bottom)
       + (w - 1) * 4 * B(f.start) + (w - 1) * 4 * B(f.end)) * 3
    case CustomShape =>
      (t * w * 4 - 4) * 3 + capLength * 2
  }

  /** The corrected box allocation adds two triangles per enabled top or bottom face. */
  lemma BoxTriangleAllocationCorrection(g: Sweep)
    requires g.shape == BoxShape
    ensures TriangleAllocation(g, 0) == BoxTriangleAllocationAsWritten(g) + 6 * TopBottom(g)
  {
  }

  /** The face pass (and the custom caps) fit in the triangle buffer. */
  lemma TriangleAllocationFits(g: Sweep, capLength: nat)
    requires g.steps >= 2 && g.columns >= 1
    ensures 3 * TriangleTotal(g) + (if g.shape == CustomShape then 2 * capLength else 0) <= TriangleAllocation(g, capLength)
  {
    var t, w, f, tb := g.steps, g.columns, g.faces, TopBottom(g);
    match g.shape
    case BoxShape =>
      BoxSlackArith(t, w, tb, B(f.top), B(f.bottom), B(f.left), B(f.right), B(f.start), B(f.end),
                    TriangleTotal(g), TriangleAllocation(g, capLength));
      SlackNonNegative(2 * t + 2, B(f.left) + B(f.right), 2 * w + 2, B(f.start) + B(f.end));
    case TubeShape =>
      TubeSlackArith(t, w - 1, tb, B(f.top), B(f.bottom), B(f.start), B(f.end),
                     TriangleTotal(g), TriangleAllocation(g, capLength));
    case CustomShape =>
      CustomSlackArith(t, w, TriangleTotal(g));
  }

  lemma BoxSlackArith(t: int, w: int, tb: int, top: int, bottom: int, l: int, r: int, s: int, e: int, total: int, alloc: int)
    requires t >= 2 && w >= 1 && 0 <= l && 0 <= r && 0 <= s && 0 <= e && tb == top + bottom
    requires total == (s + e) * (2 * (w - 1)) + 2 * (t - 1) * (r + l) + 2 * tb * (t - 1) * (w - 1)
    requires alloc == ((t * w * 2 - t * 2 - w * 2 + 2) * top + (t * w * 2 - t * 2 - w * 2 + 2) * bottom
                       + t * 4 * l + t * 4 * r + w * 4 * s + w * 4 * e) * 3
    ensures alloc - 3 * total == 3 * ((2 * t + 2) * (l + r) + (2 * w + 2) * (s + e))
  {
    var q := (t - 1) * (w - 1);
    var c := t * w * 2 - t * 2 - w * 2 + 2;
    assert c == 2 * q;
    assert c * top == 2 * (q * top) && c * bottom == 2 * (q * bottom);
    ScaleByPair(tb, top, bottom, t - 1, w - 1, q);
    Run(t, r, l);
    Run(w, s, e);
    SlackLinear(t * (l + r), w * (s + e), l + r, s + e, q * top, q * bottom, total, alloc);
  }

  /** The products of a run length with a pair of face flags, expanded. */
  lemma Run(t: int, a: int, b: int)
    ensures 2 * (t - 1) * (a + b) == 2 * (t * (b + a)) - 2 * (b + a)
    ensures (a + b) * (2 * (t - 1)) == 2 * (t * (a + b)) - 2 * (a + b)
    ensures (2 * t + 2) * (b + a) == 2 * (t * (b + a)) + 2 * (b + a)
    ensures (2 * t + 2) * (a + b) == 2 * (t * (a + b)) + 2 * (a + b)
    ensures t * 4 * a + t * 4 * b == 4 * (t * (a + b)) && t * 4 * b + t * 4 * a == 4 * (t * (b + a))
  {
  }

  lemma SlackLinear(lr: int, se: int, lrSum: int, seSum: int, qTop: int, qBottom: int, total: int, alloc: int)
    requires total == 2 * se - 2 * seSum + 2 * lr - 2 * lrSum + 2 * qTop + 2 * qBottom
    requires alloc == (2 * qTop + 2 * qBottom + 4 * lr + 4 * se) * 3
    ensures alloc - 3 * total == 3 * (2 * lr + 2 * lrSum + 2 * se + 2 * seSum)
  {
  }

  lemma ScaleByPair(tb: int, top: int, bottom: int, a: int, b: int, q: int)
    requires tb == top + bottom && q == a * b
    ensures 2 * tb * a * b == 2 * (q * top) + 2 * (q * bottom)
  {
    MulAssoc(2 * tb, a, b);
  }

  lemma MulAssoc(x: int, y: int, z: int)
    ensures x * y * z == x * (y * z)
  {
  }

  lemma TubeSlackArith(t: int, d: int, tb: int, top: int, bottom: int, s: int, e: int, total: int, alloc: int)
    requires d >= 0 && 0 <= s && 0 <= e && tb == top + bottom
    requires total == (s + e) * (2 * d) + 2 * tb * (t - 1) * d
    requires alloc == ((t * d * 2 - d * 2) * top + (t * d * 2 - d * 2) * bottom + d * 4 * s + d * 4 * e) * 3
    ensures 3 * total <= alloc
  {
    assert alloc - 3 * total == 3 * (2 * d * (s + e));
  }

  lemma CustomSlackArith(t: int, w: int, total: int)
    requires t >= 2 && w >= 1 && total == 2 * (t - 1) * (w - 1)
    ensures 3 * total <= (t * w * 4 - 4) * 3
  {
    assert (t * w * 4 - 4) * 3 - 3 * total == 3 * (2 * t * w + 2 * t + 2 * w - 6);
  }

  /**
   * As written, the box triangle buffer is too short exactly when a top or
   * bottom face is on and no side, start or end face is: the slack of those
   * faces is what otherwise absorbs the two missing triangles per face.
   */
  lemma BoxTriangleAllocationAsWrittenShort(g: Sweep)
    requires g.shape == BoxShape && g.steps >= 2 && g.columns >= 1
    ensures 3 * TriangleTotal(g) > BoxTriangleAllocationAsWritten(g)
        <==> (g.faces.top || g.faces.bottom) && !(g.faces.left || g.faces.right || g.faces.start || g.faces.end)
  {
    var t, w, f, tb := g.steps, g.columns, g.faces, TopBottom(g);
    BoxTriangleAllocationCorrection(g);
    BoxSlackArith(t, w, tb, B(f.top), B(f.bottom), B(f.left), B(f.right), B(f.start), B(f.end),
                  TriangleTotal(g), TriangleAllocation(g, 0));
    ShortArith(t, w, tb, B(f.left) + B(f.right), B(f.start) + B(f.end),
               BoxTriangleAllocationAsWritten(g) - 3 * TriangleTotal(g));
  }

  lemma SlackNonNegative(a: int, x: int, b: int, y: int)
    requires a >= 0 && x >= 0 && b >= 0 && y >= 0
    ensures a * x + b * y >= 0
  {
  }

  lemma ShortArith(t: int, w: int, tb: int, sides: int, ends: int, slack: int)
    requires t >= 2 && w >= 1 && 0 <= tb <= 2 && 0 <= sides && 0 <= ends
    requires slack == 3 * ((2 * t + 2) * sides + (2 * w + 2) * ends) - 6 * tb
    ensures slack < 0 <==> tb > 0 && sides == 0 && ends == 0
  {
    var p, q := (2 * t + 2) * sides, (2 * w + 2) * ends;
    AtLeastFactor(2 * t + 2, sides);
    AtLeastFactor(2 * w + 2, ends);
    assert slack == 3 * (p + q) - 6 * tb;
  }

  /** a * x is 0 for x == 0 and at least a otherwise. */
  lemma AtLeastFactor(a: int, x: int)
    requires a >= 0 && x >= 0
    ensures x == 0 ==> a * x == 0
    ensures x > 0 ==> a * x >= a
  {
    if x > 0 {
      assert a * x == a * (x - 1) + a;
    }
  }

  /**
   * A 2 x 2 box with only its top face: the source allocates no triangle
   * entries, and the face pass emits two triangles.
   */
  lemma BoxTopOnlyOverflows()
    ensures var g := Sweep(BoxShape, Faces(true, false, false, false, false, false), 2, 2);
            BoxTriangleAllocationAsWritten(g) == 0 && GridCount(Triangles, g, 2) == 2
  {
    var g := Sweep(BoxShape, Faces(true, false, false, false, false, false), 2, 2);
    TriangleCount(g);
  }

  // ---------------------------------------------------------------------------
  // The vertex pass: one running counter k over the grid, in row-major order,
  // recording in points[i, j, c] the vertex slot c of grid point (i, j) got.
  // ---------------------------------------------------------------------------

  /** The position of slot c in the order the vertex pass writes a grid point's slots. */
  function Order(shape: Shape, c: nat): nat
  {
    if shape == BoxShape && c == 3 then 4 else if shape == BoxShape && c == 4 then 3 else c
  }

  /** Slot c of (a, b) is written once the pass has reached slot position m of grid point (i, j). */
  predicate Marked(g: Sweep, i: nat, j: nat, m: nat, a: nat, b: nat, c: nat)
  {
    Written(g, a, b, c) && (a < i || (a == i && (b < j || (b == j && Order(g.shape, c) < m))))
  }

  /** The points table has one entry per grid slot. */
  predicate Table(g: Sweep, points: array3<int>)
  {
    points.Length0 == g.steps && points.Length1 == g.columns && points.Length2 == Slots(g.shape)
  }

  /**
   * After the first k vertices: every marked slot names, through points, a
   * vertex produced for it; every one of the k vertices was produced for a
   * marked slot, which names it back; the rest of the buffer is untouched.
   */
  ghost predicate VertexState(g: Sweep, vertices: array<Vertex>, points: array3<int>, i: nat, j: nat, m: nat, k: nat)
    reads vertices, points
  {
    Table(g, points) && k <= vertices.Length
    && (forall a: nat, b: nat, c: nat :: a < g.steps && b < g.columns && c < Slots(g.shape) && Marked(g, i, j, m, a, b, c) ==>
          0 <= points[a, b, c] < k && vertices[points[a, b, c]] == Grid(a, b, c))
    && (forall n :: 0 <= n < k ==> GridVertex(g, vertices[n], i, j, m) && points[vertices[n].step, vertices[n].profile, vertices[n].slot] == n)
    && (forall n :: k <= n < vertices.Length ==> vertices[n] == Unset)
  }

  /** A vertex produced for a marked slot of the grid. */
  predicate GridVertex(g: Sweep, v: Vertex, i: nat, j: nat, m: nat)
  {
    v.Grid? && v.step < g.steps && v.profile < g.columns && v.slot < Slots(g.shape) && Marked(g, i, j, m, v.step, v.profile, v.slot)
  }

  /** Give slot c of grid point (i, j) the next vertex, when the pass writes that slot. */
  method VertexSlot(g: Sweep, vertices: array<Vertex>, points: array3<int>, i: nat, j: nat, c: nat, k: nat) returns (k': nat)
    requires i < g.steps && j < g.columns && c < Slots(g.shape)
    requires VertexState(g, vertices, points, i, j, Order(g.shape, c), k)
    requires Written(g, i, j, c) ==> k < vertices.Length
    modifies vertices, points
    ensures VertexState(g, vertices, points, i, j, Order(g.shape, c) + 1, k')
    ensures k' == k + B(Written(g, i, j, c))
  {
    if Written(g, i, j, c) {
      k' := PutVertex(g, vertices, points, i, j, c, k);
    } else {
      k' := k;
      SkipSlot(g, vertices, points, i, j, c, k);
    }
  }

  /** Two slots written one after the other: top and bottom, or a side or cap vertex pair. */
  method VertexPair(g: Sweep, vertices: array<Vertex>, points: array3<int>, i: nat, j: nat, c: nat, d: nat, k: nat) returns (k': nat)
    requires i < g.steps && j < g.columns && c < Slots(g.shape) && d < Slots(g.shape)
    requires Order(g.shape, d) == Order(g.shape, c) + 1
    requires VertexState(g, vertices, points, i, j, Order(g.shape, c), k)
    requires k + B(Written(g, i, j, c)) + B(Written(g, i, j, d)) <= vertices.Length
    modifies vertices, points
    ensures VertexState(g, vertices, points, i, j, Order(g.shape, d) + 1, k')
    ensures k' == k + B(Written(g, i, j, c)) + B(Written(g, i, j, d))
  {
    k' := VertexSlot(g, vertices, points, i, j, c, k);
    k' := VertexSlot(g, vertices, points, i, j, d, k');
  }

  /** Record vertex k as the one of slot c of (i, j). */
  method PutVertex(g: Sweep, vertices: array<Vertex>, points: array3<int>, i: nat, j: nat, c: nat, k: nat) returns (k': nat)
    requires i < g.steps && j < g.columns && c < Slots(g.shape) && Written(g, i, j, c)
    requires VertexState(g, vertices, points, i, j, Order(g.shape, c), k)
    requires k < vertices.Length
    modifies vertices, points
    ensures VertexState(g, vertices, points, i, j, Order(g.shape, c) + 1, k')
    ensures k' == k + 1
  {
    points[i, j, c] := k;
    vertices[k] := Grid(i, j, c);
    k' := k + 1;
    forall a: nat, b: nat, d: nat | a < g.steps && b < g.columns && d < Slots(g.shape) && Marked(g, i, j, Order(g.shape, c) + 1, a, b, d)
      ensures 0 <= points[a, b, d] < k' && vertices[points[a, b, d]] == Grid(a, b, d)
    {
      if (a, b, d) != (i, j, c) {
        assert Marked(g, i, j, Order(g.shape, c), a, b, d);
        assert old(points[a, b, d]) < k;
      }
    }
    forall n | 0 <= n < k' ensures GridVertex(g, vertices[n], i, j, Order(g.shape, c) + 1)
      && points[vertices[n].step, vertices[n].profile, vertices[n].slot] == n
    {
      if n < k {
        assert GridVertex(g, old(vertices[n]), i, j, Order(g.shape, c));
      }
    }
  }

  /** A slot the pass does not write leaves the state as it is. */
  lemma SkipSlot(g: Sweep, vertices: array<Vertex>, points: array3<int>, i: nat, j: nat, c: nat, k: nat)
    requires c < Slots(g.shape) && !Written(g, i, j, c)
    requires VertexState(g, vertices, points, i, j, Order(g.shape, c), k)
    ensures VertexState(g, vertices, points, i, j, Order(g.shape, c) + 1, k)
  {
    forall n | 0 <= n < k ensures GridVertex(g, vertices[n], i, j, Order(g.shape, c) + 1)
    {
      assert GridVertex(g, vertices[n], i, j, Order(g.shape, c));
    }
  }

  /** Having passed every slot of (i, j) is having reached (i, j + 1). */
  lemma NextCell(g: Sweep, vertices: array<Vertex>, points: array3<int>, i: nat, j: nat, k: nat)
    requires VertexState(g, vertices, points, i, j, Slots(g.shape), k)
    ensures VertexState(g, vertices, points, i, j + 1, 0, k)
  {
    forall n | 0 <= n < k ensures GridVertex(g, vertices[n], i, j + 1, 0)
    {
      assert GridVertex(g, vertices[n], i, j, Slots(g.shape));
    }
  }

  /** Having passed every column of row i is having reached row i + 1. */
  lemma NextRow(g: Sweep, vertices: array<Vertex>, points: array3<int>, i: nat, k: nat)
    requires VertexState(g, vertices, points, i, g.columns, 0, k)
    ensures VertexState(g, vertices, points, i + 1, 0, 0, k)
  {
    forall n | 0 <= n < k ensures GridVertex(g, vertices[n], i + 1, 0, 0)
    {
      assert GridVertex(g, vertices[n], i, g.columns, 0);
    }
  }

  /** The slots of one grid point, in the order each shape's routine writes them. */
  method VertexCellSlots(g: Sweep, vertices: array<Vertex>, points: array3<int>, i: nat, j: nat, k: nat) returns (k': nat)
    requires i < g.steps && j < g.columns
    requires VertexState(g, vertices, points, i, j, 0, k)
    requires k + VertexCell(g, i, j) <= vertices.Length
    modifies vertices, points
    ensures VertexState(g, vertices, points, i, j + 1, 0, k')
    ensures k' == k + VertexCell(g, i, j)
  {
    match g.shape
    case BoxShape => k' := BoxVertexCell(g, vertices, points, i, j, k);
    case TubeShape => k' := TubeVertexCell(g, vertices, points, i, j, k);
    case CustomShape => k' := CustomVertexCell(g, vertices, points, i, j, k);
  }

  /** Top, bottom, a right or left side pair (slots 2, 4), a start or end pair (slots 3, 5). */
  method BoxVertexCell(g: Sweep, vertices: array<Vertex>, points: array3<int>, i: nat, j: nat, k: nat) returns (k': nat)
    requires g.shape == BoxShape && i < g.steps && j < g.columns
    requires VertexState(g, vertices, points, i, j, 0, k)
    requires k + VertexCell(g, i, j) <= vertices.Length
    modifies vertices, points
    ensures VertexState(g, vertices, points, i, j + 1, 0, k')
    ensures k' == k + VertexCell(g, i, j)
  {
    k' := VertexPair(g, vertices, points, i, j, 0, 1, k);
    k' := BoxOuterPairs(g, vertices, points, i, j, k');
    NextCell(g, vertices, points, i, j, k');
  }

  /** The box's side pair (slots 2, 4), then its cap pair (slots 3, 5). */
  method BoxOuterPairs(g: Sweep, vertices: array<Vertex>, points: array3<int>, i: nat, j: nat, k: nat) returns (k': nat)
    requires g.shape == BoxShape && i < g.steps && j < g.columns
    requires VertexState(g, vertices, points, i, j, 2, k)
    requires k + 2 * B(SideAt(g, j)) + 2 * B(EndAt(g, i)) <= vertices.Length
    modifies vertices, points
    ensures VertexState(g, vertices, points, i, j, 6, k')
    ensures k' == k + 2 * B(SideAt(g, j)) + 2 * B(EndAt(g, i))
  {
    k' := VertexPair(g, vertices, points, i, j, 2, 4, k);
    k' := VertexPair(g, vertices, points, i, j, 3, 5, k');
  }

  /** Top, bottom, and a start or end pair (slots 2, 3). */
  method TubeVertexCell(g: Sweep, vertices: array<Vertex>, points: array3<int>, i: nat, j: nat, k: nat) returns (k': nat)
    requires g.shape == TubeShape && i < g.steps && j < g.columns
    requires VertexState(g, vertices, points, i, j, 0, k)
    requires k + VertexCell(g, i, j) <= vertices.Length
    modifies vertices, points
    ensures VertexState(g, vertices, points, i, j + 1, 0, k')
    ensures k' == k + VertexCell(g, i, j)
  {
    k' := VertexPair(g, vertices, points, i, j, 0, 1, k);
    k' := VertexPair(g, vertices, points, i, j, 2, 3, k');
    NextCell(g, vertices, points, i, j, k');
  }

  /** The two copies of a profile point, for the faces on either side of it. */
  method CustomVertexCell(g: Sweep, vertices: array<Vertex>, points: array3<int>, i: nat, j: nat, k: nat) returns (k': nat)
    requires g.shape == CustomShape && i < g.steps && j < g.columns
    requires VertexState(g, vertices, points, i, j, 0, k)
    requires k + VertexCell(g, i, j) <= vertices.Length
    modifies vertices, points
    ensures VertexState(g, vertices, points, i, j + 1, 0, k')
    ensures k' == k + VertexCell(g, i, j)
  {
    k' := VertexPair(g, vertices, points, i, j, 0, 1, k);
    NextCell(g, vertices, points, i, j, k');
  }

  /** The vertex pass over row i. */
  method VertexRow(g: Sweep, vertices: array<Vertex>, points: array3<int>, i: nat, k: nat) returns (k': nat)
    requires i < g.steps
    requires k == GridCount(Vertices, g, i)
    requires GridCount(Vertices, g, g.steps) <= vertices.Length
    requires VertexState(g, vertices, points, i, 0, 0, k)
    modifies vertices, points
    ensures k' == GridCount(Vertices, g, i + 1)
    ensures VertexState(g, vertices, points, i + 1, 0, 0, k')
  {
    k' := k;
    for j := 0 to g.columns
      invariant k' == Before(Vertices, g, i, j)
      invariant VertexState(g, vertices, points, i, j, 0, k')
    {
      CellFits(Vertices, g, i, j);
      k' := VertexCellSlots(g, vertices, points, i, j, k');
    }
    NextRow(g, vertices, points, i, k');
  }

  /**
   * The vertex pass over the whole grid. Afterwards the written slots and the
   * first k vertices correspond one to one through points.
   */
  method VertexGrid(g: Sweep, vertices: array<Vertex>, points: array3<int>) returns (k: nat)
    requires Table(g, points)
    requires GridCount(Vertices, g, g.steps) <= vertices.Length
    requires forall n :: 0 <= n < vertices.Length ==> vertices[n] == Unset
    modifies vertices, points
    ensures k == GridCount(Vertices, g, g.steps)
    ensures VertexState(g, vertices, points, g.steps, 0, 0, k)
  {
    k := 0;
    var i := 0;
    while i < g.steps
      invariant i <= g.steps
      invariant k == GridCount(Vertices, g, i)
      invariant VertexState(g, vertices, points, i, 0, 0, k)
    {
      k := VertexRow(g, vertices, points, i, k);
      i := i + 1;
    }
  }

  // ---------------------------------------------------------------------------
  // The face pass: triangles name vertices through the points table. The
  // source advances an entry index k by three per triangle; the model counts
  // triangles, n, with k = 3 n.
  // ---------------------------------------------------------------------------

  /** Grid points at most one step and one profile column apart. */
  predicate Near(u: Vertex, v: Vertex)
    requires u.Grid? && v.Grid?
  {
    -1 <= u.step - v.step <= 1 && -1 <= u.profile - v.profile <= 1
  }

  /**
   * The face a grid vertex belongs to: top and bottom, a side face per profile
   * column, a cap per step. The custom profile's two copies form one surface.
   */
  function FaceOf(shape: Shape, v: Vertex): (nat, nat)
    requires v.Grid?
  {
    match shape
    case BoxShape =>
      if v.slot == 2 || v.slot == 4 then (2, v.profile)
      else if v.slot == 3 || v.slot == 5 then (3, v.step)
      else (v.slot, 0)
    case TubeShape =>
      if v.slot == 2 || v.slot == 3 then (2, v.step) else (v.slot, 0)
    case CustomShape => (0, 0)
  }

  /**
   * A well-formed triangle: three distinct vertices of one face at
   * neighbouring grid points, or three vertices of one custom cap.
   */
  predicate FaceTriangle(shape: Shape, u: Vertex, v: Vertex, w: Vertex)
  {
    (u.Grid? && v.Grid? && w.Grid? && FaceOf(shape, u) == FaceOf(shape, v) && FaceOf(shape, v) == FaceOf(shape, w)
     && u != v && v != w && u != w && Near(u, v) && Near(v, w) && Near(u, w))
    || (u.Cap? && v.Cap? && w.Cap? && u.atEnd == v.atEnd && v.atEnd == w.atEnd)
  }

  predicate TriangleOK(shape: Shape, vs: seq<Vertex>, x: int, y: int, z: int)
  {
    0 <= x < |vs| && 0 <= y < |vs| && 0 <= z < |vs| && FaceTriangle(shape, vs[x], vs[y], vs[z])
  }

  ghost predicate TriangleAt(shape: Shape, vs: seq<Vertex>, tri: array<int>, q: nat)
    reads tri
  {
    3 * q + 2 < tri.Length && TriangleOK(shape, vs, tri[3 * q], tri[3 * q + 1], tri[3 * q + 2])
  }

  /** The first n triangles are well formed and the rest of the buffer is still zero. */
  ghost predicate FaceState(shape: Shape, vs: seq<Vertex>, tri: array<int>, n: nat)
    reads tri
  {
    3 * n <= tri.Length
    && (forall q: nat :: q < n ==> TriangleAt(shape, vs, tri, q))
    && (forall p :: 3 * n <= p < tri.Length ==> tri[p] == 0)
  }

  /** Every written grid slot names, through points, the vertex produced for it. */
  ghost predicate Links(g: Sweep, vs: seq<Vertex>, points: array3<int>)
    reads points
  {
    Table(g, points)
    && forall a: nat, b: nat, c: nat :: a < g.steps && b < g.columns && c < Slots(g.shape) && Written(g, a, b, c) ==>
         0 <= points[a, b, c] < |vs| && vs[points[a, b, c]] == Grid(a, b, c)
  }

  /** A grid slot the vertex pass writes. */
  predicate Slotted(g: Sweep, u: Vertex)
  {
    u.Grid? && u.step < g.steps && u.profile < g.columns && u.slot < Slots(g.shape) && Written(g, u.step, u.profile, u.slot)
  }

  /**
   * The first k vertices of vs are distinct grid vertices of written slots,
   * and every written slot has one.
   */
  ghost predicate Produced(g: Sweep, vs: seq<Vertex>, k: nat)
  {
    k <= |vs|
    && (forall n :: 0 <= n < k ==> Slotted(g, vs[n]))
    && (forall n, m :: 0 <= n < m < k ==> vs[n] != vs[m])
    && (forall a: nat, b: nat, c: nat :: a < g.steps && b < g.columns && c < Slots(g.shape) && Written(g, a, b, c) ==>
          Grid(a, b, c) in vs[..k])
  }

  /** The finished vertex pass: what it produced, and the links the face pass reads. */
  lemma VertexPassDone(g: Sweep, vertices: array<Vertex>, points: array3<int>, k: nat)
    requires VertexState(g, vertices, points, g.steps, 0, 0, k)
    ensures Links(g, vertices[..], points) && Produced(g, vertices[..], k)
    ensures forall n :: k <= n < vertices.Length ==> vertices[n] == Unset
    ensures forall a: nat, b: nat, c: nat :: a < g.steps && b < g.columns && c < Slots(g.shape) && Written(g, a, b, c) ==>
              points[a, b, c] < k
  {
    var vs := vertices[..];
    forall n, m | 0 <= n < m < k ensures vs[n] != vs[m]
    {
      assert points[vs[n].step, vs[n].profile, vs[n].slot] == n;
      assert points[vs[m].step, vs[m].profile, vs[m].slot] == m;
    }
    forall a: nat, b: nat, c: nat | a < g.steps && b < g.columns && c < Slots(g.shape) && Written(g, a, b, c)
      ensures Grid(a, b, c) in vs[..k]
    {
      assert Marked(g, g.steps, 0, 0, a, b, c);
      assert vs[..k][points[a, b, c]] == Grid(a, b, c);
    }
  }

  method EmitTriangle(shape: Shape, ghost vs: seq<Vertex>, tri: array<int>, n: nat, x: int, y: int, z: int) returns (n': nat)
    requires FaceState(shape, vs, tri, n) && 3 * n + 3 <= tri.Length && TriangleOK(shape, vs, x, y, z)
    modifies tri
    ensures FaceState(shape, vs, tri, n') && n' == n + 1
    ensures tri[..3 * n] == old(tri[..3 * n]) && tri[3 * n] == x && tri[3 * n + 1] == y && tri[3 * n + 2] == z
  {
    tri[3 * n] := x;
    tri[3 * n + 1] := y;
    tri[3 * n + 2] := z;
    n' := n + 1;
    forall q: nat | q < n' ensures TriangleAt(shape, vs, tri, q)
    {
      if q < n {
        assert old(TriangleAt(shape, vs, tri, q));
      }
    }
  }

  /** The triangle of three written grid slots. */
  method EmitSlots(g: Sweep, ghost vs: seq<Vertex>, points: array3<int>, tri: array<int>, n: nat, u: Vertex, v: Vertex, w: Vertex)
    returns (n': nat)
    requires Links(g, vs, points) && Slotted(g, u) && Slotted(g, v) && Slotted(g, w) && FaceTriangle(g.shape, u, v, w)
    requires FaceState(g.shape, vs, tri, n) && 3 * n + 3 <= tri.Length
    modifies tri
    ensures FaceState(g.shape, vs, tri, n') && n' == n + 1
  {
    n' := EmitTriangle(g.shape, vs, tri, n, points[u.step, u.profile, u.slot], points[v.step, v.profile, v.slot],
                       points[w.step, w.profile, w.slot]);
  }

  /** A top triangle when the top face is on, then a bottom one when the bottom face is on. */
  method TopBottomPair(g: Sweep, ghost vs: seq<Vertex>, points: array3<int>, tri: array<int>, n: nat,
                       t0: Vertex, t1: Vertex, t2: Vertex, b0: Vertex, b1: Vertex, b2: Vertex) returns (n': nat)
    requires Links(g, vs, points) && FaceState(g.shape, vs, tri, n) && 3 * (n + TopBottom(g)) <= tri.Length
    requires g.faces.top ==> Slotted(g, t0) && Slotted(g, t1) && Slotted(g, t2) && FaceTriangle(g.shape, t0, t1, t2)
    requires g.faces.bottom ==> Slotted(g, b0) && Slotted(g, b1) && Slotted(g, b2) && FaceTriangle(g.shape, b0, b1, b2)
    modifies tri
    ensures FaceState(g.shape, vs, tri, n') && n' == n + TopBottom(g)
  {
    n' := n;
    if g.faces.top {
      n' := EmitSlots(g, vs, points, tri, n', t0, t1, t2);
    }
    if g.faces.bottom {
      n' := EmitSlots(g, vs, points, tri, n', b0, b1, b2);
    }
  }

  // The box: end caps at the first and last step, side faces at the first and
  // last profile column, two top and two bottom triangles per grid square.

  method BoxStartBlock(g: Sweep, ghost vs: seq<Vertex>, points: array3<int>, tri: array<int>, i: nat, j: nat, n: nat)
    returns (n': nat)
    requires g.shape == BoxShape && i == 0 && g.faces.start && i < g.steps && j < g.columns
    requires Links(g, vs, points) && FaceState(g.shape, vs, tri, n) && 3 * (n + B(j > 0) + B(j + 1 < g.columns)) <= tri.Length
    modifies tri
    ensures FaceState(g.shape, vs, tri, n') && n' == n + B(j > 0) + B(j + 1 < g.columns)
  {
    n' := n;
    if j > 0 {
      n' := EmitSlots(g, vs, points, tri, n', Grid(i, j, 5), Grid(i, j - 1, 5), Grid(i, j, 3));
    }
    if j + 1 < g.columns {
      n' := EmitSlots(g, vs, points, tri, n', Grid(i, j, 5), Grid(i, j, 3), Grid(i, j + 1, 3));
    }
  }

  method BoxEndBlock(g: Sweep, ghost vs: seq<Vertex>, points: array3<int>, tri: array<int>, i: nat, j: nat, n: nat)
    returns (n': nat)
    requires g.shape == BoxShape && i + 1 == g.steps && g.faces.end && j < g.columns
    requires Links(g, vs, points) && FaceState(g.shape, vs, tri, n) && 3 * (n + B(j > 0) + B(j + 1 < g.columns)) <= tri.Length
    modifies tri
    ensures FaceState(g.shape, vs, tri, n') && n' == n + B(j > 0) + B(j + 1 < g.columns)
  {
    n' := n;
    if j > 0 {
      n' := EmitSlots(g, vs, points, tri, n', Grid(i, j, 5), Grid(i, j, 3), Grid(i, j - 1, 5));
    }
    if j + 1 < g.columns {
      n' := EmitSlots(g, vs, points, tri, n', Grid(i, j, 5), Grid(i, j + 1, 3), Grid(i, j, 3));
    }
  }

  method BoxRightBlock(g: Sweep, ghost vs: seq<Vertex>, points: array3<int>, tri: array<int>, i: nat, j: nat, n: nat)
    returns (n': nat)
    requires g.shape == BoxShape && j == 0 && g.faces.right && i < g.steps && j < g.columns
    requires Links(g, vs, points) && FaceState(g.shape, vs, tri, n) && 3 * (n + B(i > 0) + B(i + 1 < g.steps)) <= tri.Length
    modifies tri
    ensures FaceState(g.shape, vs, tri, n') && n' == n + B(i > 0) + B(i + 1 < g.steps)
  {
    n' := n;
    if i > 0 {
      n' := EmitSlots(g, vs, points, tri, n', Grid(i, j, 4), Grid(i, j, 2), Grid(i - 1, j, 4));
    }
    if i + 1 < g.steps {
      n' := EmitSlots(g, vs, points, tri, n', Grid(i, j, 4), Grid(i + 1, j, 2), Grid(i, j, 2));
    }
  }

  method BoxLeftBlock(g: Sweep, ghost vs: seq<Vertex>, points: array3<int>, tri: array<int>, i: nat, j: nat, n: nat)
    returns (n': nat)
    requires g.shape == BoxShape && j + 1 == g.columns && g.faces.left && i < g.steps
    requires Links(g, vs, points) && FaceState(g.shape, vs, tri, n) && 3 * (n + B(i > 0) + B(i + 1 < g.steps)) <= tri.Length
    modifies tri
    ensures FaceState(g.shape, vs, tri, n') && n' == n + B(i > 0) + B(i + 1 < g.steps)
  {
    n' := n;
    if i > 0 {
      n' := EmitSlots(g, vs, points, tri, n', Grid(i, j, 4), Grid(i - 1, j, 4), Grid(i, j, 2));
    }
    if i + 1 < g.steps {
      n' := EmitSlots(g, vs, points, tri, n', Grid(i, j, 4), Grid(i, j, 2), Grid(i + 1, j, 2));
    }
  }

  /** The cap faces of one box cell. */
  method BoxCapBlocks(g: Sweep, ghost vs: seq<Vertex>, points: array3<int>, tri: array<int>, i: nat, j: nat, n: nat)
    returns (n': nat)
    requires g.shape == BoxShape && i < g.steps && j < g.columns
    requires Links(g, vs, points) && FaceState(g.shape, vs, tri, n)
    requires 3 * (n + BoxCaps(g, i, j)) <= tri.Length
    modifies tri
    ensures FaceState(g.shape, vs, tri, n') && n' == n + BoxCaps(g, i, j)
  {
    n' := n;
    if i == 0 && g.faces.start {
      n' := BoxStartBlock(g, vs, points, tri, i, j, n');
    }
    if i + 1 == g.steps && g.faces.end {
      n' := BoxEndBlock(g, vs, points, tri, i, j, n');
    }
  }

  /** The side faces of one box cell. */
  method BoxSideBlocks(g: Sweep, ghost vs: seq<Vertex>, points: array3<int>, tri: array<int>, i: nat, j: nat, n: nat)
    returns (n': nat)
    requires g.shape == BoxShape && i < g.steps && j < g.columns
    requires Links(g, vs, points) && FaceState(g.shape, vs, tri, n)
    requires 3 * (n + BoxSides(g, i, j)) <= tri.Length
    modifies tri
    ensures FaceState(g.shape, vs, tri, n') && n' == n + BoxSides(g, i, j)
  {
    n' := n;
    if j == 0 && g.faces.right {
      n' := BoxRightBlock(g, vs, points, tri, i, j, n');
    }
    if j + 1 == g.columns && g.faces.left {
      n' := BoxLeftBlock(g, vs, points, tri, i, j, n');
    }
  }

  function BoxCaps(g: Sweep, i: nat, j: nat): nat
  {
    (if i == 0 && g.faces.start then B(j > 0) + B(j + 1 < g.columns) else 0)
    + (if i + 1 == g.steps && g.faces.end then B(j > 0) + B(j + 1 < g.columns) else 0)
  }

  function BoxSides(g: Sweep, i: nat, j: nat): nat
  {
    (if j == 0 && g.faces.right then B(i > 0) + B(i + 1 < g.steps) else 0)
    + (if j + 1 == g.columns && g.faces.left then B(i > 0) + B(i + 1 < g.steps) else 0)
  }

  method BoxEdgeBlocks(g: Sweep, ghost vs: seq<Vertex>, points: array3<int>, tri: array<int>, i: nat, j: nat, n: nat)
    returns (n': nat)
    requires g.shape == BoxShape && i < g.steps && j < g.columns
    requires Links(g, vs, points) && FaceState(g.shape, vs, tri, n)
    requires 3 * (n + BoxCaps(g, i, j) + BoxSides(g, i, j)) <= tri.Length
    modifies tri
    ensures FaceState(g.shape, vs, tri, n') && n' == n + BoxCaps(g, i, j) + BoxSides(g, i, j)
  {
    n' := BoxCapBlocks(g, vs, points, tri, i, j, n);
    n' := BoxSideBlocks(g, vs, points, tri, i, j, n');
  }

  /** The triangles of box cell (i, j), in the source's order. */
  method BoxFaceCell(g: Sweep, ghost vs: seq<Vertex>, points: array3<int>, tri: array<int>, i: nat, j: nat, n: nat)
    returns (n': nat)
    requires g.shape == BoxShape && i < g.steps && j < g.columns
    requires Links(g, vs, points) && FaceState(g.shape, vs, tri, n) && 3 * (n + TriangleCell(g, i, j)) <= tri.Length
    modifies tri
    ensures FaceState(g.shape, vs, tri, n') && n' == n + TriangleCell(g, i, j)
  {
    n' := BoxEdgeBlocks(g, vs, points, tri, i, j, n);
    n' := BoxSquares(g, vs, points, tri, i, j, n');
  }

  /** The top and bottom triangles of box cell (i, j). */
  method BoxSquares(g: Sweep, ghost vs: seq<Vertex>, points: array3<int>, tri: array<int>, i: nat, j: nat, n: nat)
    returns (n': nat)
    requires g.shape == BoxShape && i < g.steps && j < g.columns
    requires Links(g, vs, points) && FaceState(g.shape, vs, tri, n)
    requires 3 * (n + Squares(g, i, j)) <= tri.Length
    modifies tri
    ensures FaceState(g.shape, vs, tri, n') && n' == n + Squares(g, i, j)
  {
    n' := n;
    if i > 0 && j > 0 {
      n' := TopBottomPair(g, vs, points, tri, n', Grid(i, j, 0), Grid(i, j - 1, 0), Grid(i - 1, j, 0),
                          Grid(i, j, 1), Grid(i - 1, j, 1), Grid(i, j - 1, 1));
    }
    if i + 1 < g.steps && j + 1 < g.columns {
      n' := TopBottomPair(g, vs, points, tri, n', Grid(i, j, 0), Grid(i, j + 1, 0), Grid(i + 1, j, 0),
                          Grid(i, j, 1), Grid(i + 1, j, 1), Grid(i, j + 1, 1));
    }
  }

  function Squares(g: Sweep, i: nat, j: nat): nat
  {
    (if i > 0 && j > 0 then TopBottom(g) else 0) + (if i + 1 < g.steps && j + 1 < g.columns then TopBottom(g) else 0)
  }

  // The tube: its faces span the divisions, so a cell column j runs below
  // columns - 1 and reaches column j + 1. The caps are annuli between the
  // inner (slot 2) and outer (slot 3) rings.

  method TubeStartBlock(g: Sweep, ghost vs: seq<Vertex>, points: array3<int>, tri: array<int>, i: nat, j: nat, n: nat)
    returns (n': nat)
    requires g.shape == TubeShape && i == 0 && g.faces.start && i < g.steps && j + 1 < g.columns
    requires Links(g, vs, points) && FaceState(g.shape, vs, tri, n)
    requires 3 * (n + B(j > 0) + 1 + B(j + 2 == g.columns)) <= tri.Length
    modifies tri
    ensures FaceState(g.shape, vs, tri, n') && n' == n + B(j > 0) + 1 + B(j + 2 == g.columns)
  {
    n' := n;
    if j > 0 {
      n' := EmitSlots(g, vs, points, tri, n', Grid(i, j, 3), Grid(i, j - 1, 3), Grid(i, j, 2));
    }
    n' := EmitSlots(g, vs, points, tri, n', Grid(i, j, 3), Grid(i, j, 2), Grid(i, j + 1, 2));
    if j + 2 == g.columns {
      n' := EmitSlots(g, vs, points, tri, n', Grid(i, j + 1, 3), Grid(i, j, 3), Grid(i, j + 1, 2));
    }
  }

  method TubeEndBlock(g: Sweep, ghost vs: seq<Vertex>, points: array3<int>, tri: array<int>, i: nat, j: nat, n: nat)
    returns (n': nat)
    requires g.shape == TubeShape && i + 1 == g.steps && g.faces.end && j + 1 < g.columns
    requires Links(g, vs, points) && FaceState(g.shape, vs, tri, n)
    requires 3 * (n + B(j > 0) + 1 + B(j + 2 == g.columns)) <= tri.Length
    modifies tri
    ensures FaceState(g.shape, vs, tri, n') && n' == n + B(j > 0) + 1 + B(j + 2 == g.columns)
  {
    n' := n;
    if j > 0 {
      n' := EmitSlots(g, vs, points, tri, n', Grid(i, j, 3), Grid(i, j, 2), Grid(i, j - 1, 3));
    }
    n' := EmitSlots(g, vs, points, tri, n', Grid(i, j, 3), Grid(i, j + 1, 2), Grid(i, j, 2));
    if j + 2 == g.columns {
      n' := EmitSlots(g, vs, points, tri, n', Grid(i, j + 1, 3), Grid(i, j + 1, 2), Grid(i, j, 3));
    }
  }

  function TubeCaps(g: Sweep, i: nat, j: nat): nat
  {
    (if i == 0 && g.faces.start then B(j > 0) + 1 + B(j + 2 == g.columns) else 0)
    + (if i + 1 == g.steps && g.faces.end then B(j > 0) + 1 + B(j + 2 == g.columns) else 0)
  }

  method TubeCapBlocks(g: Sweep, ghost vs: seq<Vertex>, points: array3<int>, tri: array<int>, i: nat, j: nat, n: nat)
    returns (n': nat)
    requires g.shape == TubeShape && i < g.steps && j + 1 < g.columns
    requires Links(g, vs, points) && FaceState(g.shape, vs, tri, n) && 3 * (n + TubeCaps(g, i, j)) <= tri.Length
    modifies tri
    ensures FaceState(g.shape, vs, tri, n') && n' == n + TubeCaps(g, i, j)
  {
    n' := n;
    if i == 0 && g.faces.start {
      n' := TubeStartBlock(g, vs, points, tri, i, j, n');
    }
    if i + 1 == g.steps && g.faces.end {
      n' := TubeEndBlock(g, vs, points, tri, i, j, n');
    }
  }

  /** The top and bottom triangles that close the squares behind step i. */
  method TubeBehind(g: Sweep, ghost vs: seq<Vertex>, points: array3<int>, tri: array<int>, i: nat, j: nat, n: nat)
    returns (n': nat)
    requires g.shape == TubeShape && 0 < i < g.steps && j + 1 < g.columns
    requires Links(g, vs, points) && FaceState(g.shape, vs, tri, n)
    requires 3 * (n + TopBottom(g) * (B(j > 0) + B(j + 2 == g.columns))) <= tri.Length
    modifies tri
    ensures FaceState(g.shape, vs, tri, n') && n' == n + TopBottom(g) * (B(j > 0) + B(j + 2 == g.columns))
  {
    n' := n;
    if j > 0 {
      n' := TopBottomPair(g, vs, points, tri, n', Grid(i, j, 0), Grid(i, j - 1, 0), Grid(i - 1, j, 0),
                          Grid(i, j, 1), Grid(i - 1, j, 1), Grid(i, j - 1, 1));
    }
    if j + 2 == g.columns {
      n' := TopBottomPair(g, vs, points, tri, n', Grid(i, j + 1, 0), Grid(i, j, 0), Grid(i - 1, j + 1, 0),
                          Grid(i, j + 1, 1), Grid(i - 1, j + 1, 1), Grid(i, j, 1));
    }
  }

  /** The top and bottom triangles of the squares ahead of step i. */
  method TubeAhead(g: Sweep, ghost vs: seq<Vertex>, points: array3<int>, tri: array<int>, i: nat, j: nat, n: nat)
    returns (n': nat)
    requires g.shape == TubeShape && i < g.steps && j + 1 < g.columns
    requires Links(g, vs, points) && FaceState(g.shape, vs, tri, n)
    requires 3 * (n + TubeSquares(g, i, j)) <= tri.Length
    modifies tri
    ensures FaceState(g.shape, vs, tri, n') && n' == n + TubeSquares(g, i, j)
  {
    n' := n;
    if i > 0 {
      n' := TubeBehind(g, vs, points, tri, i, j, n');
    }
    if i + 1 < g.steps {
      n' := TopBottomPair(g, vs, points, tri, n', Grid(i, j, 0), Grid(i, j + 1, 0), Grid(i + 1, j, 0),
                          Grid(i, j, 1), Grid(i + 1, j, 1), Grid(i, j + 1, 1));
    }
  }

  function TubeSquares(g: Sweep, i: nat, j: nat): nat
  {
    (if i > 0 then TopBottom(g) * (B(j > 0) + B(j + 2 == g.columns)) else 0) + (if i + 1 < g.steps then TopBottom(g) else 0)
  }

  /** The triangles of tube cell (i, j), in the source's order. */
  method TubeFaceCell(g: Sweep, ghost vs: seq<Vertex>, points: array3<int>, tri: array<int>, i: nat, j: nat, n: nat)
    returns (n': nat)
    requires g.shape == TubeShape && i < g.steps && j + 1 < g.columns
    requires Links(g, vs, points) && FaceState(g.shape, vs, tri, n) && 3 * (n + TriangleCell(g, i, j)) <= tri.Length
    modifies tri
    ensures FaceState(g.shape, vs, tri, n') && n' == n + TriangleCell(g, i, j)
  {
    n' := TubeCapBlocks(g, vs, points, tri, i, j, n);
    n' := TubeAhead(g, vs, points, tri, i, j, n');
  }

  /**
   * The triangles of custom cell (i, j): the profile's two copies (slots 0
   * and 1) are stitched into one strip.
   */
  method CustomFaceCell(g: Sweep, ghost vs: seq<Vertex>, points: array3<int>, tri: array<int>, i: nat, j: nat, n: nat)
    returns (n': nat)
    requires g.shape == CustomShape && i < g.steps && j < g.columns
    requires Links(g, vs, points) && FaceState(g.shape, vs, tri, n) && 3 * (n + TriangleCell(g, i, j)) <= tri.Length
    modifies tri
    ensures FaceState(g.shape, vs, tri, n') && n' == n + TriangleCell(g, i, j)
  {
    n' := n;
    if i > 0 && j > 0 {
      n' := EmitSlots(g, vs, points, tri, n', Grid(i, j, 0), Grid(i, j - 1, 1), Grid(i - 1, j, 0));
    }
    if i + 1 < g.steps && j + 1 < g.columns {
      n' := EmitSlots(g, vs, points, tri, n', Grid(i, j, 1), Grid(i, j + 1, 0), Grid(i + 1, j, 1));
    }
  }

  method FaceCell(g: Sweep, ghost vs: seq<Vertex>, points: array3<int>, tri: array<int>, i: nat, j: nat, n: nat)
    returns (n': nat)
    requires i < g.steps && j < Width(Triangles, g)
    requires Links(g, vs, points) && FaceState(g.shape, vs, tri, n) && 3 * (n + TriangleCell(g, i, j)) <= tri.Length
    modifies tri
    ensures FaceState(g.shape, vs, tri, n') && n' == n + TriangleCell(g, i, j)
  {
    match g.shape {
      case BoxShape => n' := BoxFaceCell(g, vs, points, tri, i, j, n);
      case TubeShape => n' := TubeFaceCell(g, vs, points, tri, i, j, n);
      case CustomShape => n' := CustomFaceCell(g, vs, points, tri, i, j, n);
    }
  }

  method FaceRow(g: Sweep, ghost vs: seq<Vertex>, points: array3<int>, tri: array<int>, i: nat, n: nat) returns (n': nat)
    requires i < g.steps
    requires n == GridCount(Triangles, g, i)
    requires 3 * GridCount(Triangles, g, g.steps) <= tri.Length
    requires Links(g, vs, points) && FaceState(g.shape, vs, tri, n)
    modifies tri
    ensures n' == GridCount(Triangles, g, i + 1)
    ensures FaceState(g.shape, vs, tri, n')
  {
    n' := n;
    var j := 0;
    while j < Width(Triangles, g)
      invariant j <= Width(Triangles, g)
      invariant n' == Before(Triangles, g, i, j)
      invariant FaceState(g.shape, vs, tri, n')
    {
      CellFits(Triangles, g, i, j);
      n' := FaceCell(g, vs, points, tri, i, j, n');
      j := j + 1;
    }
  }

  /**
   * The face pass over the whole grid: it writes exactly the counted number of
   * triangles, each a well-formed triangle of produced vertices, and leaves
   * the rest of the buffer zero.
   */
  method FaceGrid(g: Sweep, ghost vs: seq<Vertex>, points: array3<int>, tri: array<int>) returns (n: nat)
    requires Links(g, vs, points)
    requires 3 * GridCount(Triangles, g, g.steps) <= tri.Length
    requires forall p :: 0 <= p < tri.Length ==> tri[p] == 0
    modifies tri
    ensures n == GridCount(Triangles, g, g.steps)
    ensures FaceState(g.shape, vs, tri, n)
  {
    n := 0;
    var i := 0;
    while i < g.steps
      invariant i <= g.steps
      invariant n == GridCount(Triangles, g, i)
      invariant FaceState(g.shape, vs, tri, n)
    {
      n := FaceRow(g, vs, points, tri, i, n);
      i := i + 1;
    }
  }

  // ---------------------------------------------------------------------------
  // The custom shape's caps: the cap mesh is placed once at the start and once
  // at the end; the end copy lists each triangle's corners in reverse so that
  // it faces the other way.
  // ---------------------------------------------------------------------------

  /** Corners 0 .. count - 1 of one cap, from index base on. */
  ghost predicate CapAt(vs: seq<Vertex>, base: nat, count: nat, atEnd: bool)
  {
    base + count <= |vs| && forall m :: 0 <= m < count ==> vs[base + m] == Cap(atEnd, m)
  }

  /** A cap mesh's triangle list: whole triangles of corners it has. */
  predicate CapMesh(capTriangles: seq<int>, count: nat)
  {
    |capTriangles| % 3 == 0 && forall p :: 0 <= p < |capTriangles| ==> 0 <= capTriangles[p] < count
  }

  method CapVertices(vertices: array<Vertex>, k: nat, count: nat, atEnd: bool) returns (k': nat)
    requires k + count <= vertices.Length
    modifies vertices
    ensures k' == k + count
    ensures forall n :: 0 <= n < vertices.Length && !(k <= n < k') ==> vertices[n] == old(vertices[n])
    ensures CapAt(vertices[..], k, count, atEnd)
  {
    k' := k;
    var i := 0;
    while i < count
      invariant i <= count && k' == k + i
      invariant forall n :: 0 <= n < vertices.Length && !(k <= n < k') ==> vertices[n] == old(vertices[n])
      invariant forall m :: 0 <= m < i ==> vertices[k + m] == Cap(atEnd, m)
    {
      vertices[k'] := Cap(atEnd, i);
      k' := k' + 1;
      i := i + 1;
    }
  }

  /** Overwriting only entries from k on keeps what the vertex pass produced. */
  lemma ProducedKept(g: Sweep, vs: seq<Vertex>, vs': seq<Vertex>, k: nat)
    requires Produced(g, vs, k) && |vs'| == |vs|
    requires forall n :: 0 <= n < k ==> vs'[n] == vs[n]
    ensures Produced(g, vs', k)
  {
    assert vs'[..k] == vs[..k];
  }

  /** Same entries below k, same links. */
  lemma LinksKept(g: Sweep, vs: seq<Vertex>, vs': seq<Vertex>, points: array3<int>, k: nat)
    requires Links(g, vs, points) && |vs'| == |vs| && k <= |vs|
    requires forall n :: 0 <= n < k ==> vs'[n] == vs[n]
    requires forall a: nat, b: nat, c: nat :: a < g.steps && b < g.columns && c < Slots(g.shape) && Written(g, a, b, c) ==>
               points[a, b, c] < k
    ensures Links(g, vs', points)
  {
  }

  /** The start cap's triangles: the cap mesh's entries offset by the cap's first index. */
  ghost predicate StartCapFaces(tri: array<int>, from: nat, capTriangles: seq<int>, base: nat)
    reads tri
  {
    from + |capTriangles| <= tri.Length && forall p :: 0 <= p < |capTriangles| ==> tri[from + p] == capTriangles[p] + base
  }

  /** The end cap's triangles: each cap triangle with its corners in reverse order. */
  ghost predicate EndCapFaces(tri: array<int>, from: nat, capTriangles: seq<int>, base: nat)
    reads tri
  {
    from + |capTriangles| <= tri.Length
    && forall q :: 0 <= q && 3 * q + 2 < |capTriangles| ==>
         tri[from + 3 * q] == capTriangles[3 * q + 2] + base && tri[from + 3 * q + 1] == capTriangles[3 * q + 1] + base
         && tri[from + 3 * q + 2] == capTriangles[3 * q] + base
  }

  /** The start cap: the cap mesh's entries, one at a time, offset to the start cap's corners. */
  method StartCap(ghost vs: seq<Vertex>, tri: array<int>, n: nat, capTriangles: seq<int>, count: nat, base: nat)
    returns (n': nat)
    requires CapMesh(capTriangles, count) && CapAt(vs, base, count, false)
    requires FaceState(CustomShape, vs, tri, n) && 3 * n + |capTriangles| <= tri.Length
    modifies tri
    ensures n' == n + |capTriangles| / 3 && FaceState(CustomShape, vs, tri, n')
    ensures forall p :: 0 <= p < 3 * n ==> tri[p] == old(tri[p])
    ensures StartCapFaces(tri, 3 * n, capTriangles, base)
  {
    var k := 3 * n;
    var i := 0;
    while i < |capTriangles|
      invariant i <= |capTriangles| && k == 3 * n + i
      invariant forall p :: 0 <= p < 3 * n ==> tri[p] == old(tri[p])
      invariant forall p :: 0 <= p < i ==> tri[3 * n + p] == capTriangles[p] + base
      invariant forall p :: k <= p < tri.Length ==> tri[p] == 0
    {
      tri[k] := capTriangles[i] + base;
      k := k + 1;
      i := i + 1;
    }
    n' := n + |capTriangles| / 3;
    forall q: nat | q < n ensures TriangleAt(CustomShape, vs, tri, q)
    {
      assert old(TriangleAt(CustomShape, vs, tri, q));
    }
    CapTrianglesOK(vs, tri, n, n', capTriangles, count, base, false, false);
  }

  /** The end cap: each cap triangle's corners from last to first, offset to the end cap's corners. */
  method EndCap(ghost vs: seq<Vertex>, tri: array<int>, n: nat, capTriangles: seq<int>, count: nat, base: nat)
    returns (n': nat)
    requires CapMesh(capTriangles, count) && CapAt(vs, base, count, true)
    requires FaceState(CustomShape, vs, tri, n) && 3 * n + |capTriangles| <= tri.Length
    modifies tri
    ensures n' == n + |capTriangles| / 3 && FaceState(CustomShape, vs, tri, n')
    ensures forall p :: 0 <= p < 3 * n ==> tri[p] == old(tri[p])
    ensures EndCapFaces(tri, 3 * n, capTriangles, base)
  {
    var k := 3 * n;
    var i := 0;
    ghost var c := 0;
    ghost var m := |capTriangles| / 3;
    assert 3 * m == |capTriangles|;
    while i < |capTriangles|
      invariant c <= m && i == 3 * c && k == 3 * n + i
      invariant forall p :: 0 <= p < 3 * n ==> tri[p] == old(tri[p])
      invariant forall q :: 0 <= q < c ==>
                  tri[3 * n + 3 * q] == capTriangles[3 * q + 2] + base && tri[3 * n + 3 * q + 1] == capTriangles[3 * q + 1] + base
                  && tri[3 * n + 3 * q + 2] == capTriangles[3 * q] + base
      invariant forall p :: k <= p < tri.Length ==> tri[p] == 0
    {
      EndCapTriangle(tri, k, capTriangles, i, base);
      k := k + 3;
      i := i + 3;
      c := c + 1;
    }
    n' := n + |capTriangles| / 3;
    forall q: nat | q < n ensures TriangleAt(CustomShape, vs, tri, q)
    {
      assert old(TriangleAt(CustomShape, vs, tri, q));
    }
    CapTrianglesOK(vs, tri, n, n', capTriangles, count, base, true, true);
  }

  /** One end cap triangle: entries k .. k + 2 take corners i + 2, i + 1, i. */
  method EndCapTriangle(tri: array<int>, k: nat, capTriangles: seq<int>, i: nat, base: nat)
    requires k + 3 <= tri.Length && i + 3 <= |capTriangles|
    modifies tri
    ensures forall p :: 0 <= p < tri.Length && !(k <= p < k + 3) ==> tri[p] == old(tri[p])
    ensures tri[k] == capTriangles[i + 2] + base && tri[k + 1] == capTriangles[i + 1] + base && tri[k + 2] == capTriangles[i] + base
  {
    var j := 2;
    while j >= 0
      invariant -1 <= j <= 2
      invariant forall p :: 0 <= p < tri.Length && !(k <= p < k + 2 - j) ==> tri[p] == old(tri[p])
      invariant j < 2 ==> tri[k] == capTriangles[i + 2] + base
      invariant j < 1 ==> tri[k + 1] == capTriangles[i + 1] + base
      invariant j < 0 ==> tri[k + 2] == capTriangles[i] + base
    {
      tri[k + 2 - j] := capTriangles[i + j] + base;
      j := j - 1;
    }
  }

  /** Cap entries naming corners of one cap make well-formed cap triangles. */
  lemma CapTrianglesOK(vs: seq<Vertex>, tri: array<int>, n: nat, n': nat, capTriangles: seq<int>, count: nat, base: nat,
                       atEnd: bool, reversed: bool)
    requires CapMesh(capTriangles, count) && CapAt(vs, base, count, atEnd) && n' == n + |capTriangles| / 3
    requires 3 * n + |capTriangles| <= tri.Length
    requires forall q: nat :: q < n ==> TriangleAt(CustomShape, vs, tri, q)
    requires forall p :: 3 * n + |capTriangles| <= p < tri.Length ==> tri[p] == 0
    requires !reversed ==> forall p :: 0 <= p < |capTriangles| ==> tri[3 * n + p] == capTriangles[p] + base
    requires reversed ==> forall q :: 0 <= q && 3 * q + 2 < |capTriangles| ==>
               tri[3 * n + 3 * q] == capTriangles[3 * q + 2] + base && tri[3 * n + 3 * q + 1] == capTriangles[3 * q + 1] + base
               && tri[3 * n + 3 * q + 2] == capTriangles[3 * q] + base
    ensures FaceState(CustomShape, vs, tri, n')
  {
    assert 3 * n' == 3 * n + |capTriangles|;
    forall q: nat | q < n' ensures TriangleAt(CustomShape, vs, tri, q)
    {
      if n <= q {
        var d := q - n;
        assert 3 * d + 2 < |capTriangles|;
        assert 3 * q == 3 * n + 3 * d;
        assert vs[base + capTriangles[3 * d]] == Cap(atEnd, capTriangles[3 * d]);
        assert vs[base + capTriangles[3 * d + 1]] == Cap(atEnd, capTriangles[3 * d + 1]);
        assert vs[base + capTriangles[3 * d + 2]] == Cap(atEnd, capTriangles[3 * d + 2]);
      }
    }
  }

  // ---------------------------------------------------------------------------
  // The routines: allocate, run the vertex pass, allocate, run the face pass.
  // ---------------------------------------------------------------------------

  /**
   * What a routine leaves behind: buffers of the allocated lengths, every
   * written grid slot's vertex, well-formed triangles with the rest of the
   * buffer zero and, for the custom profile, both caps' corners and triangles.
   */
  ghost predicate Meshed(g: Sweep, capCount: nat, capTriangles: seq<int>, vertices: array<Vertex>, triangles: array<int>)
    reads vertices, triangles
  {
    g.steps >= 2 && g.columns >= 1 && VertexTotal(g) >= 0 && TriangleTotal(g) >= 0
    && vertices.Length == VertexAllocation(g, capCount) && triangles.Length == TriangleAllocation(g, |capTriangles|)
    && Produced(g, vertices[..], VertexTotal(g))
    && FaceState(g.shape, vertices[..], triangles, TriangleTotal(g) + 2 * (|capTriangles| / 3))
    && (g.shape == CustomShape ==>
          CapAt(vertices[..], VertexTotal(g), capCount, false) && CapAt(vertices[..], VertexTotal(g) + capCount, capCount, true)
          && StartCapFaces(triangles, 3 * TriangleTotal(g), capTriangles, VertexTotal(g))
          && EndCapFaces(triangles, 3 * TriangleTotal(g) + |capTriangles|, capTriangles, VertexTotal(g) + capCount))
  }

  /**
   * The box and tube routines. The triangle buffer has the corrected box size
   * (TriangleAllocation); the vertex buffer has the source's size, which leaves
   * Unset entries only for a one-column box with both side faces.
   */
  method SweepMesh(g: Sweep) returns (vertices: array<Vertex>, triangles: array<int>)
    requires g.shape != CustomShape && g.steps >= 2 && g.columns >= 1
    ensures fresh(vertices) && fresh(triangles)
    ensures vertices.Length == VertexAllocation(g, 0) && triangles.Length == TriangleAllocation(g, 0)
    ensures Produced(g, vertices[..], VertexTotal(g))
    ensures forall n :: VertexTotal(g) <= n < vertices.Length ==> vertices[n] == Unset
    ensures GridCount(Triangles, g, g.steps) == TriangleTotal(g)
    ensures FaceState(g.shape, vertices[..], triangles, GridCount(Triangles, g, g.steps))
    ensures Meshed(g, 0, [], vertices, triangles)
  {
    VertexCount(g);
    VertexAllocationExact(g, 0);
    vertices := new Vertex[VertexAllocation(g, 0)](_ => Unset);
    var points := new int[g.steps, g.columns, Slots(g.shape)];
    var k := VertexGrid(g, vertices, points);
    VertexPassDone(g, vertices, points, k);
    TriangleCount(g);
    TriangleAllocationFits(g, 0);
    triangles := new int[TriangleAllocation(g, 0)](_ => 0);
    var n := FaceGrid(g, vertices[..], points, triangles);
  }

  /**
   * The custom routine: the profile's two copies per grid point, then the
   * start cap's and the end cap's corners, then the strip triangles, then the
   * start cap's triangles and the end cap's reversed ones.
   */
  method CustomMesh(g: Sweep, capCount: nat, capTriangles: seq<int>) returns (vertices: array<Vertex>, triangles: array<int>)
    requires g.shape == CustomShape && g.steps >= 2 && g.columns >= 1
    requires CapMesh(capTriangles, capCount)
    ensures fresh(vertices) && fresh(triangles)
    ensures vertices.Length == VertexAllocation(g, capCount) && triangles.Length == TriangleAllocation(g, |capTriangles|)
    ensures Produced(g, vertices[..], VertexTotal(g))
    ensures CapAt(vertices[..], VertexTotal(g), capCount, false) && CapAt(vertices[..], VertexTotal(g) + capCount, capCount, true)
    ensures GridCount(Triangles, g, g.steps) == TriangleTotal(g)
    ensures FaceState(g.shape, vertices[..], triangles, TriangleTotal(g) + 2 * (|capTriangles| / 3))
    ensures StartCapFaces(triangles, 3 * TriangleTotal(g), capTriangles, VertexTotal(g))
    ensures EndCapFaces(triangles, 3 * TriangleTotal(g) + |capTriangles|, capTriangles, VertexTotal(g) + capCount)
    ensures Meshed(g, capCount, capTriangles, vertices, triangles)
  {
    var points;
    vertices, points := CustomVertices(g, capCount);
    triangles := CustomFaces(g, vertices[..], points, capCount, capTriangles);
  }

  /** The custom routine's vertex buffer: the grid vertices, then the two caps' corners. */
  method CustomVertices(g: Sweep, capCount: nat) returns (vertices: array<Vertex>, points: array3<int>)
    requires g.shape == CustomShape && g.steps >= 2 && g.columns >= 1
    ensures fresh(vertices)
    ensures vertices.Length == VertexAllocation(g, capCount) && VertexAllocation(g, capCount) == VertexTotal(g) + 2 * capCount
    ensures Links(g, vertices[..], points) && Produced(g, vertices[..], VertexTotal(g))
    ensures CapAt(vertices[..], VertexTotal(g), capCount, false) && CapAt(vertices[..], VertexTotal(g) + capCount, capCount, true)
  {
    VertexCount(g);
    VertexAllocationExact(g, capCount);
    vertices := new Vertex[VertexAllocation(g, capCount)](_ => Unset);
    points := new int[g.steps, g.columns, 2];
    var k := VertexGrid(g, vertices, points);
    VertexPassDone(g, vertices, points, k);
    ghost var grid := vertices[..];
    PlaceCaps(vertices, k, capCount);
    CustomCapsKept(g, grid, vertices[..], points, k, capCount);
  }

  /** The start cap's corners from k on, then the end cap's. */
  method PlaceCaps(vertices: array<Vertex>, k: nat, capCount: nat)
    requires k + 2 * capCount <= vertices.Length
    modifies vertices
    ensures forall n :: 0 <= n < k ==> vertices[n] == old(vertices[n])
    ensures CapAt(vertices[..], k, capCount, false) && CapAt(vertices[..], k + capCount, capCount, true)
  {
    var k' := CapVertices(vertices, k, capCount, false);
    ghost var first := vertices[..];
    k' := CapVertices(vertices, k', capCount, true);
    assert forall n :: k <= n < k + capCount ==> vertices[n] == first[n];
  }

  /** The custom routine's triangle buffer: the strip, then both caps. */
  method CustomFaces(g: Sweep, ghost vs: seq<Vertex>, points: array3<int>, capCount: nat, capTriangles: seq<int>)
    returns (triangles: array<int>)
    requires g.shape == CustomShape && g.steps >= 2 && g.columns >= 1
    requires CapMesh(capTriangles, capCount) && Links(g, vs, points)
    requires CapAt(vs, VertexTotal(g), capCount, false) && CapAt(vs, VertexTotal(g) + capCount, capCount, true)
    ensures fresh(triangles) && triangles.Length == TriangleAllocation(g, |capTriangles|)
    ensures GridCount(Triangles, g, g.steps) == TriangleTotal(g)
    ensures FaceState(g.shape, vs, triangles, TriangleTotal(g) + 2 * (|capTriangles| / 3))
    ensures StartCapFaces(triangles, 3 * TriangleTotal(g), capTriangles, VertexTotal(g))
    ensures EndCapFaces(triangles, 3 * TriangleTotal(g) + |capTriangles|, capTriangles, VertexTotal(g) + capCount)
  {
    TriangleCount(g);
    TriangleAllocationFits(g, |capTriangles|);
    triangles := new int[TriangleAllocation(g, |capTriangles|)](_ => 0);
    var n := FaceGrid(g, vs, points, triangles);
    n := StartCap(vs, triangles, n, capTriangles, capCount, VertexTotal(g));
    n := EndCap(vs, triangles, n, capTriangles, capCount, VertexTotal(g) + capCount);
  }

  /** Placing the caps after the grid vertices keeps the grid vertices and both caps. */
  lemma CustomCapsKept(g: Sweep, grid: seq<Vertex>, vs: seq<Vertex>, points: array3<int>, k: nat, capCount: nat)
    requires Links(g, grid, points) && Produced(g, grid, k) && |vs| == |grid|
    requires forall n :: 0 <= n < k ==> vs[n] == grid[n]
    requires forall a: nat, b: nat, c: nat :: a < g.steps && b < g.columns && c < Slots(g.shape) && Written(g, a, b, c) ==>
               points[a, b, c] < k
    ensures Links(g, vs, points) && Produced(g, vs, k)
  {
    ProducedKept(g, grid, vs, k);
    LinksKept(g, grid, vs, points, k);
  }
}
