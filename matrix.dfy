/**
 * Dense linear solver: Doolittle LU decomposition without pivoting, done in
 * place on the caller's 2D array, followed by forward and back substitution.
 *
 * The pure function Doolittle states what the elimination computes; the
 * imperative LUDecomposition is proved to compute exactly that, and the
 * lemmas prove what it means: L is unit lower triangular, U upper triangular,
 * and L*U is the input.
 */
module Matrix {
  import opened Common

  type Mat = seq<seq<real>>

  predicate IsSquare(M: Mat, n: nat)
  {
    |M| == n && forall r :: 0 <= r < n ==> |M[r]| == n
  }

  /** The contents of a 2D array, row by row. */
  function Elems(A: array2<real>): (m: Mat)
    reads A
    ensures |m| == A.Length0
    ensures forall r :: 0 <= r < A.Length0 ==> |m[r]| == A.Length1
    ensures forall r, c :: 0 <= r < A.Length0 && 0 <= c < A.Length1 ==> m[r][c] == A[r, c]
  {
    seq(A.Length0, r requires 0 <= r < A.Length0 reads A =>
      seq(A.Length1, c requires 0 <= c < A.Length1 reads A => A[r, c]))
  }

  lemma ElemsEqual(A: array2<real>, M: Mat)
    requires |M| == A.Length0 && forall r :: 0 <= r < |M| ==> |M[r]| == A.Length1
    requires forall r, c :: 0 <= r < A.Length0 && 0 <= c < A.Length1 ==> A[r, c] == M[r][c]
    ensures Elems(A) == M
  {
    var m := Elems(A);
    forall r | 0 <= r < |M| ensures m[r] == M[r] {
      assert forall c :: 0 <= c < A.Length1 ==> m[r][c] == M[r][c];
    }
  }

  // ---------------------------------------------------------------------
  // Sums of products
  // ---------------------------------------------------------------------

  /** a[lo]*b[lo] + ... + a[hi-1]*b[hi-1], accumulated from lo upward. */
  function Dot(a: seq<real>, b: seq<real>, lo: nat, hi: nat): real
    requires lo <= hi <= |a| && hi <= |b|
    decreases hi - lo
  {
    if lo == hi then 0.0 else Dot(a, b, lo, hi - 1) + a[hi - 1] * b[hi - 1]
  }

  lemma {:induction false} DotSplit(a: seq<real>, b: seq<real>, lo: nat, mid: nat, hi: nat)
    requires lo <= mid <= hi <= |a| && hi <= |b|
    ensures Dot(a, b, lo, hi) == Dot(a, b, lo, mid) + Dot(a, b, mid, hi)
    decreases hi - mid
  {
    if mid < hi {
      DotSplit(a, b, lo, mid, hi - 1);
    }
  }

  lemma {:induction false} DotExt(a: seq<real>, b: seq<real>, a': seq<real>, b': seq<real>, lo: nat, hi: nat)
    requires lo <= hi <= |a| && hi <= |b| && hi <= |a'| && hi <= |b'|
    requires forall j :: lo <= j < hi ==> a[j] == a'[j] && b[j] == b'[j]
    ensures Dot(a, b, lo, hi) == Dot(a', b', lo, hi)
    decreases hi - lo
  {
    if lo < hi {
      DotExt(a, b, a', b', lo, hi - 1);
    }
  }

  lemma {:induction false} DotZero(a: seq<real>, b: seq<real>, lo: nat, hi: nat)
    requires lo <= hi <= |a| && hi <= |b|
    requires forall j :: lo <= j < hi ==> a[j] == 0.0 || b[j] == 0.0
    ensures Dot(a, b, lo, hi) == 0.0
    decreases hi - lo
  {
    if lo < hi {
      DotZero(a, b, lo, hi - 1);
    }
  }

  /** Dot is linear in its second argument. */
  lemma {:induction false} DotLinear(a: seq<real>, u: seq<real>, v: seq<real>, w: seq<real>, s: real, lo: nat, hi: nat)
    requires lo <= hi <= |a| && hi <= |u| && hi <= |v| && hi <= |w|
    requires forall j :: lo <= j < hi ==> w[j] == u[j] + v[j] * s
    ensures Dot(a, w, lo, hi) == Dot(a, u, lo, hi) + Dot(a, v, lo, hi) * s
    decreases hi - lo
  {
    if lo < hi {
      DotLinear(a, u, v, w, s, lo, hi - 1);
      assert a[hi - 1] * w[hi - 1] == a[hi - 1] * u[hi - 1] + (a[hi - 1] * v[hi - 1]) * s;
    }
  }

  function Column(M: Mat, c: nat): (col: seq<real>)
    requires forall r :: 0 <= r < |M| ==> c < |M[r]|
    ensures |col| == |M| && forall r :: 0 <= r < |M| ==> col[r] == M[r][c]
  {
    seq(|M|, r requires 0 <= r < |M| => M[r][c])
  }

  /** Row r of M times x, for every row. */
  function MatVec(M: Mat, x: seq<real>): (y: seq<real>)
    requires forall r :: 0 <= r < |M| ==> |M[r]| == |x|
    ensures |y| == |M| && forall r :: 0 <= r < |M| ==> y[r] == Dot(M[r], x, 0, |x|)
  {
    seq(|M|, r requires 0 <= r < |M| => Dot(M[r], x, 0, |x|))
  }

  /** L*U == M, entry by entry, for n-by-n matrices. */
  ghost predicate IsProduct(L: Mat, U: Mat, M: Mat, n: nat)
    requires IsSquare(L, n) && IsSquare(U, n) && IsSquare(M, n)
  {
    forall r, c :: 0 <= r < n && 0 <= c < n ==> Dot(L[r], Column(U, c), 0, n) == M[r][c]
  }

  ghost predicate UnitLowerTriangular(L: Mat, n: nat)
    requires IsSquare(L, n)
  {
    forall r, c :: 0 <= r < n && r <= c < n ==> L[r][c] == if r == c then 1.0 else 0.0
  }

  ghost predicate UpperTriangular(U: Mat, n: nat)
    requires IsSquare(U, n)
  {
    forall r, c :: 0 <= c < r < n ==> U[r][c] == 0.0
  }

  // ---------------------------------------------------------------------
  // Specification of the elimination
  // ---------------------------------------------------------------------

  function IdentityMat(n: nat): Mat
  {
    seq(n, r => seq(n, c => if r == c then 1.0 else 0.0))
  }

  /** Eliminating below pivot (i, i): row r > i loses (M[r][i]/M[i][i]) times row i. */
  function EliminateColumn(M: Mat, i: nat): (E: Mat)
    requires IsSquare(M, |M|) && i < |M| && M[i][i] != 0.0
    ensures IsSquare(E, |M|)
    ensures forall r, c :: 0 <= r < |M| && 0 <= c < |M| ==>
      E[r][c] == if r <= i || c < i then M[r][c] else if c == i then 0.0 else M[r][c] - (M[r][i] / M[i][i]) * M[i][c]
  {
    seq(|M|, r requires 0 <= r < |M| => seq(|M|, c requires 0 <= c < |M| =>
      if r <= i || c < i then M[r][c]
      else if c == i then 0.0
      else M[r][c] - (M[r][i] / M[i][i]) * M[i][c]))
  }

  /** The multipliers of pivot i, stored in column i of L below the diagonal. */
  function RecordMultipliers(L: Mat, M: Mat, i: nat): (L': Mat)
    requires IsSquare(M, |M|) && IsSquare(L, |M|) && i < |M| && M[i][i] != 0.0
    ensures IsSquare(L', |M|)
    ensures forall r, c :: 0 <= r < |M| && 0 <= c < |M| ==>
      L'[r][c] == if c == i && r > i then M[r][i] / M[i][i] else L[r][c]
  {
    seq(|M|, r requires 0 <= r < |M| => seq(|M|, c requires 0 <= c < |M| =>
      if c == i && r > i then M[r][i] / M[i][i] else L[r][c]))
  }

  /** ok is false when a pivot was zero; L and U are then the partial state. */
  datatype Factorization = Factorization(ok: bool, L: Mat, U: Mat)

  /**
   * Elimination from pivot i on.  Only pivots 0 .. n-2 are checked against
   * zero: the last pivot is never inspected.
   */
  function Doolittle(M: Mat, L: Mat, i: nat): (f: Factorization)
    requires IsSquare(M, |M|) && IsSquare(L, |M|) && i <= |M|
    ensures IsSquare(f.L, |M|) && IsSquare(f.U, |M|)
    decreases |M| - i
  {
    if i + 1 >= |M| then Factorization(true, L, M)
    else if M[i][i] == 0.0 then Factorization(false, L, M)
    else Doolittle(EliminateColumn(M, i), RecordMultipliers(L, M, i), i + 1)
  }

  function LU(M: Mat): Factorization
    requires IsSquare(M, |M|)
  {
    Doolittle(M, IdentityMat(|M|), 0)
  }

  // ---------------------------------------------------------------------
  // What the elimination means
  // ---------------------------------------------------------------------

  function Min(a: nat, b: nat): nat { if a < b then a else b }

  /**
   * After i pivot steps: every entry of the original matrix is row r of L
   * (over the first min(r, i) columns) times the current matrix, plus the
   * current entry; L is the identity outside the recorded multipliers; the
   * current matrix is zero below the diagonal in the first i columns.
   */
  ghost predicate PartialFactor(M0: Mat, M: Mat, L: Mat, i: nat)
  {
    var n := |M0|;
    && IsSquare(M0, n) && IsSquare(M, n) && IsSquare(L, n) && i <= n
    && (forall r, c :: 0 <= r < n && 0 <= c < n ==>
          M0[r][c] == Dot(L[r], Column(M, c), 0, Min(r, i)) + M[r][c])
    && (forall r, c :: 0 <= r < n && 0 <= c < n && (i <= c || r <= c) ==>
          L[r][c] == if r == c then 1.0 else 0.0)
    && (forall r, c :: 0 <= c < r < n && c < i ==> M[r][c] == 0.0)
  }

  lemma PartialFactorStart(M0: Mat)
    requires IsSquare(M0, |M0|)
    ensures PartialFactor(M0, M0, IdentityMat(|M0|), 0)
  {
  }

  /** One entry of the step from pivot i to pivot i + 1. */
  lemma PartialFactorEntry(M0: Mat, M: Mat, L: Mat, i: nat, r: nat, c: nat)
    requires IsSquare(M0, |M0|) && IsSquare(M, |M0|) && IsSquare(L, |M0|)
    requires i + 1 < |M0| && M[i][i] != 0.0 && r < |M0| && c < |M0|
    requires M0[r][c] == Dot(L[r], Column(M, c), 0, Min(r, i)) + M[r][c]
    requires c < i ==> M[i][c] == 0.0
    ensures M0[r][c] == Dot(RecordMultipliers(L, M, i)[r], Column(EliminateColumn(M, i), c), 0, Min(r, i + 1))
                        + EliminateColumn(M, i)[r][c]
  {
    if r > i {
      EntryBelow(M, L, i, r, c);
    } else {
      EntryAbove(M, L, i, r, c);
    }
  }

  /** Below the pivot, the sum gains the multiplier's term, which the eliminated entry makes up for. */
  lemma EntryBelow(M: Mat, L: Mat, i: nat, r: nat, c: nat)
    requires IsSquare(M, |M|) && IsSquare(L, |M|) && i < r < |M| && c < |M| && M[i][i] != 0.0
    requires c < i ==> M[i][c] == 0.0
    ensures Dot(RecordMultipliers(L, M, i)[r], Column(EliminateColumn(M, i), c), 0, i + 1) + EliminateColumn(M, i)[r][c]
         == Dot(L[r], Column(M, c), 0, i) + M[r][c]
  {
    var E := EliminateColumn(M, i);
    var a, b, a', b' := L[r], Column(M, c), RecordMultipliers(L, M, i)[r], Column(E, c);
    PrefixAgrees(M, L, i, r, c);
    EntryArith(L, M, i, r, c);
    assert forall j :: 0 <= j < i ==> a[j] == a'[j] && b[j] == b'[j];
    assert a'[i] * b'[i] + E[r][c] == M[r][c];
    ExtendedSum(a, b, a', b', i, E[r][c], M[r][c]);
  }

  /** Up to the pivot row, neither the sum nor the entry changes. */
  lemma EntryAbove(M: Mat, L: Mat, i: nat, r: nat, c: nat)
    requires IsSquare(M, |M|) && IsSquare(L, |M|) && i < |M| && r <= i && c < |M| && M[i][i] != 0.0
    ensures Dot(RecordMultipliers(L, M, i)[r], Column(EliminateColumn(M, i), c), 0, r) + EliminateColumn(M, i)[r][c]
         == Dot(L[r], Column(M, c), 0, r) + M[r][c]
  {
    PrefixAgrees(M, L, i, r, c);
    DotExt(RecordMultipliers(L, M, i)[r], Column(EliminateColumn(M, i), c), L[r], Column(M, c), 0, r);
  }

  /** Before column i, row r of L and column c of M are unchanged by the step. */
  lemma PrefixAgrees(M: Mat, L: Mat, i: nat, r: nat, c: nat)
    requires IsSquare(M, |M|) && IsSquare(L, |M|) && i < |M| && M[i][i] != 0.0 && r < |M| && c < |M|
    ensures forall j :: 0 <= j < i ==>
      L[r][j] == RecordMultipliers(L, M, i)[r][j] && Column(M, c)[j] == Column(EliminateColumn(M, i), c)[j]
  {
  }

  /**
   * Two sums that agree on their first i terms: one more term in the second,
   * which together with e makes up m, adds m - e to the first.
   */
  lemma ExtendedSum(a: seq<real>, b: seq<real>, a': seq<real>, b': seq<real>, i: nat, e: real, m: real)
    requires i < |a| && i < |b| && i < |a'| && i < |b'|
    requires forall j :: 0 <= j < i ==> a[j] == a'[j] && b[j] == b'[j]
    requires a'[i] * b'[i] + e == m
    ensures Dot(a', b', 0, i + 1) + e == Dot(a, b, 0, i) + m
  {
    DotExt(a', b', a, b, 0, i);
  }

  /** The last term of the sum and the eliminated entry together give back M[r][c]. */
  lemma EntryArith(L: Mat, M: Mat, i: nat, r: nat, c: nat)
    requires IsSquare(M, |M|) && IsSquare(L, |M|)
    requires i < r < |M| && c < |M| && M[i][i] != 0.0
    requires c < i ==> M[i][c] == 0.0
    ensures RecordMultipliers(L, M, i)[r][i] * Column(EliminateColumn(M, i), c)[i] + EliminateColumn(M, i)[r][c] == M[r][c]
  {
    var E := EliminateColumn(M, i);
    MultiplierTimesPivot(L, M, i, r);
    assert Column(E, c)[i] == M[i][c];
    EliminatedEntry(L, M, i, r, c);
    PivotArith(c as int - i as int, RecordMultipliers(L, M, i)[r][i], M[i][i], M[r][i], M[i][c], E[r][c], M[r][c]);
  }

  /** The multiplier of row r times the pivot is the entry it eliminates. */
  lemma MultiplierTimesPivot(L: Mat, M: Mat, i: nat, r: nat)
    requires IsSquare(M, |M|) && IsSquare(L, |M|) && i < r < |M| && M[i][i] != 0.0
    ensures RecordMultipliers(L, M, i)[r][i] * M[i][i] == M[r][i]
  {
    DivMul(M[r][i], M[i][i]);
  }

  /** An entry below pivot i after the elimination, by the position of its column. */
  lemma EliminatedEntry(L: Mat, M: Mat, i: nat, r: nat, c: nat)
    requires IsSquare(M, |M|) && IsSquare(L, |M|) && i < r < |M| && c < |M| && M[i][i] != 0.0
    ensures c < i ==> EliminateColumn(M, i)[r][c] == M[r][c]
    ensures c == i ==> EliminateColumn(M, i)[r][c] == 0.0
    ensures c > i ==> EliminateColumn(M, i)[r][c] == M[r][c] - RecordMultipliers(L, M, i)[r][i] * M[i][c]
  {
    assert RecordMultipliers(L, M, i)[r][i] == M[r][i] / M[i][i];
  }

  /** The arithmetic of EntryArith, by the position of column c against the pivot. */
  lemma PivotArith(cmp: int, m: real, p: real, x: real, pc: real, erc: real, mrc: real)
    requires m * p == x
    requires cmp < 0 ==> pc == 0.0 && erc == mrc
    requires cmp == 0 ==> pc == p && x == mrc && erc == 0.0
    requires cmp > 0 ==> erc == mrc - m * pc
    ensures m * pc + erc == mrc
  {
  }

  lemma {:induction false} PartialFactorStep(M0: Mat, M: Mat, L: Mat, i: nat)
    requires PartialFactor(M0, M, L, i)
    requires i + 1 < |M0| && M[i][i] != 0.0
    ensures PartialFactor(M0, EliminateColumn(M, i), RecordMultipliers(L, M, i), i + 1)
  {
    var n := |M0|;
    forall r, c | 0 <= r < n && 0 <= c < n
      ensures M0[r][c] == Dot(RecordMultipliers(L, M, i)[r], Column(EliminateColumn(M, i), c), 0, Min(r, i + 1))
                          + EliminateColumn(M, i)[r][c]
    {
      PartialFactorEntry(M0, M, L, i, r, c);
    }
  }

  lemma {:induction false} PartialFactorDone(M0: Mat, M: Mat, L: Mat, i: nat)
    requires PartialFactor(M0, M, L, i) && i + 1 >= |M0|
    ensures IsProduct(L, M, M0, |M0|)
    ensures UnitLowerTriangular(L, |M0|) && UpperTriangular(M, |M0|)
  {
    var n := |M0|;
    forall r, c | 0 <= r < n && 0 <= c < n
      ensures Dot(L[r], Column(M, c), 0, n) == M0[r][c]
    {
      DotSplit(L[r], Column(M, c), 0, r, n);
      DotSplit(L[r], Column(M, c), r, r + 1, n);
      DotZero(L[r], Column(M, c), r + 1, n);
    }
  }

  lemma {:induction false} DoolittleFactors(M0: Mat, M: Mat, L: Mat, i: nat)
    requires PartialFactor(M0, M, L, i)
    ensures var f := Doolittle(M, L, i);
      f.ok ==> IsProduct(f.L, f.U, M0, |M0|) && UnitLowerTriangular(f.L, |M0|) && UpperTriangular(f.U, |M0|)
    decreases |M0| - i
  {
    if i + 1 >= |M0| {
      PartialFactorDone(M0, M, L, i);
    } else if M[i][i] != 0.0 {
      PartialFactorStep(M0, M, L, i);
      DoolittleFactors(M0, EliminateColumn(M, i), RecordMultipliers(L, M, i), i + 1);
    }
  }

  /** A successful decomposition is a unit-lower times upper factorisation of M. */
  lemma LUCorrect(M: Mat)
    requires IsSquare(M, |M|) && LU(M).ok
    ensures IsProduct(LU(M).L, LU(M).U, M, |M|)
    ensures UnitLowerTriangular(LU(M).L, |M|) && UpperTriangular(LU(M).U, |M|)
  {
    PartialFactorStart(M);
    DoolittleFactors(M, M, IdentityMat(|M|), 0);
  }

  /** Rows above the current pivot are final, and every checked pivot is final and nonzero. */
  lemma {:induction false} DoolittlePivots(M: Mat, L: Mat, i: nat)
    requires IsSquare(M, |M|) && IsSquare(L, |M|) && i <= |M|
    ensures var f := Doolittle(M, L, i);
      && (forall p :: 0 <= p < i ==> f.U[p] == M[p])
      && (f.ok ==> forall p :: i <= p < |M| - 1 ==> f.U[p][p] != 0.0)
      && (!f.ok ==> exists p :: i <= p < |M| - 1 && f.U[p][p] == 0.0)
    decreases |M| - i
  {
    if i + 1 < |M| && M[i][i] != 0.0 {
      DoolittlePivots(EliminateColumn(M, i), RecordMultipliers(L, M, i), i + 1);
      EliminationKeepsRows(M, i);
    }
  }

  /** Elimination at pivot i leaves rows 0 .. i as they were. */
  lemma EliminationKeepsRows(M: Mat, i: nat)
    requires IsSquare(M, |M|) && i < |M| && M[i][i] != 0.0
    ensures forall p :: 0 <= p <= i ==> EliminateColumn(M, i)[p] == M[p]
  {
    var E := EliminateColumn(M, i);
    forall p | 0 <= p <= i ensures E[p] == M[p] {
      assert forall c :: 0 <= c < |M| ==> E[p][c] == M[p][c];
    }
  }

  /** The decomposition fails exactly when some checked pivot of the result is zero. */
  lemma LUFailsIffZeroPivot(M: Mat)
    requires IsSquare(M, |M|)
    ensures !LU(M).ok <==> exists p :: 0 <= p < |M| - 1 && LU(M).U[p][p] == 0.0
  {
    DoolittlePivots(M, IdentityMat(|M|), 0);
  }

  lemma {:induction false} DoolittleIdentity(n: nat, i: nat)
    requires i <= n
    ensures Doolittle(IdentityMat(n), IdentityMat(n), i) == Factorization(true, IdentityMat(n), IdentityMat(n))
    decreases n - i
  {
    if i + 1 < n {
      IdentityEliminated(n, i);
      IdentityMultipliers(n, i);
      DoolittleIdentity(n, i + 1);
    }
  }

  /** Eliminating below a pivot of the identity changes nothing. */
  lemma IdentityEliminated(n: nat, i: nat)
    requires i < n
    ensures EliminateColumn(IdentityMat(n), i) == IdentityMat(n)
  {
    var I := IdentityMat(n);
    var E := EliminateColumn(I, i);
    forall r | 0 <= r < n ensures E[r] == I[r] {
      forall c | 0 <= c < n ensures E[r][c] == I[r][c] {
        if r > i && c > i {
          assert I[r][i] == 0.0 && I[i][i] == 1.0;
        }
      }
    }
  }

  /** The identity's multipliers below a pivot are all zero, so L stays the identity. */
  lemma IdentityMultipliers(n: nat, i: nat)
    requires i < n
    ensures RecordMultipliers(IdentityMat(n), IdentityMat(n), i) == IdentityMat(n)
  {
    var I := IdentityMat(n);
    var L := RecordMultipliers(I, I, i);
    forall r | 0 <= r < n ensures L[r] == I[r] {
      forall c | 0 <= c < n ensures L[r][c] == I[r][c] {
        if c == i && r > i {
          assert I[r][i] == 0.0 && I[i][i] == 1.0;
        }
      }
    }
  }

  /** The identity matrix factors as I * I. */
  lemma LUIdentity(n: nat)
    ensures LU(IdentityMat(n)) == Factorization(true, IdentityMat(n), IdentityMat(n))
  {
    DoolittleIdentity(n, 0);
  }

  // ---------------------------------------------------------------------
  // The imperative solver
  // ---------------------------------------------------------------------

  /** A fresh n-by-n identity matrix. */
  method Identity(n: nat) returns (I: array2<real>)
    ensures fresh(I) && I.Length0 == n && I.Length1 == n
    ensures Elems(I) == IdentityMat(n)
  {
    I := new real[n, n];
    var i := 0;
    while i < n
      invariant 0 <= i <= n
      invariant forall r, c :: 0 <= r < i && 0 <= c < n ==> I[r, c] == if r == c then 1.0 else 0.0
    {
      var j := 0;
      while j < n
        invariant 0 <= j <= n
        invariant forall r, c :: 0 <= r < i && 0 <= c < n ==> I[r, c] == if r == c then 1.0 else 0.0
        invariant forall c :: 0 <= c < j ==> I[i, c] == if i == c then 1.0 else 0.0
      {
        if i == j {
          I[i, j] := 1.0;
        } else {
          I[i, j] := 0.0;
        }
        j := j + 1;
      }
      i := i + 1;
    }
    ElemsEqual(I, IdentityMat(n));
  }

  /**
   * LU decomposition in place: A becomes U.  Returns null for L when A is
   * not square (A untouched) or when a checked pivot is zero (A left
   * partially eliminated).
   */
  method LUDecomposition(A: array2<real>) returns (L: array2?<real>)
    modifies A
    ensures A.Length0 != A.Length1 ==> L == null && Elems(A) == old(Elems(A))
    ensures A.Length0 == A.Length1 ==>
      var f := LU(old(Elems(A)));
      && (L != null <==> f.ok)
      && Elems(A) == f.U
      && (L != null ==> fresh(L) && Elems(L) == f.L)
  {
    if A.Length0 != A.Length1 {
      return null;
    }
    L := FactorSquare(A);
  }

  /** The elimination loop of LUDecomposition, on a square A. */
  method FactorSquare(A: array2<real>) returns (L: array2?<real>)
    requires A.Length0 == A.Length1
    modifies A
    ensures var f := LU(old(Elems(A)));
      && (L != null <==> f.ok)
      && Elems(A) == f.U
      && (L != null ==> fresh(L) && Elems(L) == f.L)
  {
    var n := A.Length0;
    ghost var M0 := Elems(A);
    var Lm := Identity(n);
    var i := 0;
    while i < n
      invariant fresh(Lm) && Eliminating(A, Lm, i, M0)
    {
      var ok := PivotStep(A, Lm, i, M0);
      if !ok {
        return null;
      }
      i := i + 1;
    }
    EliminationDone(A, Lm, i, M0);
    L := Lm;
  }

  /** After i passes of the loop, resuming Doolittle from A and L gives the factorization of M0. */
  ghost predicate Eliminating(A: array2<real>, L: array2<real>, i: nat, M0: Mat)
    reads A, L
  {
    A.Length0 == A.Length1 == L.Length0 == L.Length1 == |M0| && i <= |M0| && IsSquare(M0, |M0|)
    && Doolittle(Elems(A), Elems(L), i) == LU(M0)
  }

  /** Once every pass is made, A and L are the factors and the factorization succeeded. */
  lemma EliminationDone(A: array2<real>, L: array2<real>, i: nat, M0: Mat)
    requires Eliminating(A, L, i, M0) && i >= A.Length0
    ensures LU(M0).ok && LU(M0).U == Elems(A) && LU(M0).L == Elems(L)
  {
  }

  /**
   * Pass i of the elimination loop: below the last row, a zero pivot stops
   * it (ok is false, and the factorization fails with A as it is);
   * otherwise the pivot's column is eliminated and the loop moves on.
   */
  method PivotStep(A: array2<real>, Lm: array2<real>, i: nat, ghost M0: Mat) returns (ok: bool)
    requires A != Lm && Eliminating(A, Lm, i, M0) && i < A.Length0
    modifies A, Lm
    ensures ok ==> Eliminating(A, Lm, i + 1, M0)
    ensures !ok ==> !LU(M0).ok && LU(M0).U == Elems(A)
  {
    var n := A.Length0;
    ok := true;
    if i < n - 1 {
      if A[i, i] == 0.0 {
        return false;
      }
      EliminatePivot(A, Lm, i);
    }
  }

  /** Every row below pivot i is eliminated in turn; A and L become EliminateColumn and RecordMultipliers. */
  method EliminatePivot(A: array2<real>, L: array2<real>, i: nat)
    requires A != L && A.Length0 == A.Length1 == L.Length0 == L.Length1 && i < A.Length0 && A[i, i] != 0.0
    modifies A, L
    ensures Elems(A) == EliminateColumn(old(Elems(A)), i)
    ensures Elems(L) == RecordMultipliers(old(Elems(L)), old(Elems(A)), i)
  {
    var n := A.Length0;
    ghost var Mi := Elems(A);
    ghost var Li := Elems(L);
    ghost var E := EliminateColumn(Mi, i);
    ghost var Ln := RecordMultipliers(Li, Mi, i);
    for j := i + 1 to n
      invariant forall r, c :: 0 <= r < n && 0 <= c < n ==> A[r, c] == if r < j then E[r][c] else Mi[r][c]
      invariant forall r, c :: 0 <= r < n && 0 <= c < n ==> L[r, c] == if r < j then Ln[r][c] else Li[r][c]
    {
      EliminateRow(A, L, i, j, Mi, Li);
    }
    ElemsEqual(A, E);
    ElemsEqual(L, Ln);
  }

  /**
   * Row j loses (A[j, i] / A[i, i]) times row i from column i + 1 on; the
   * multiplier goes to L[j, i] and A[j, i] becomes zero.  Rows above j have
   * already been eliminated; row j is brought in line with EliminateColumn.
   */
  method EliminateRow(A: array2<real>, L: array2<real>, i: nat, j: nat, ghost M: Mat, ghost L0: Mat)
    requires A != L && A.Length0 == A.Length1 == L.Length0 == L.Length1 == |M|
    requires IsSquare(M, |M|) && IsSquare(L0, |M|) && i < j < |M| && M[i][i] != 0.0
    requires forall r, c :: 0 <= r < |M| && 0 <= c < |M| ==>
      A[r, c] == if r < j then EliminateColumn(M, i)[r][c] else M[r][c]
    requires forall r, c :: 0 <= r < |M| && 0 <= c < |M| ==>
      L[r, c] == if r < j then RecordMultipliers(L0, M, i)[r][c] else L0[r][c]
    modifies A, L
    ensures forall r, c :: 0 <= r < |M| && 0 <= c < |M| ==>
      A[r, c] == if r <= j then EliminateColumn(M, i)[r][c] else M[r][c]
    ensures forall r, c :: 0 <= r < |M| && 0 <= c < |M| ==>
      L[r, c] == if r <= j then RecordMultipliers(L0, M, i)[r][c] else L0[r][c]
  {
    assert A[i, i] == M[i][i];
    L[j, i] := A[j, i] / A[i, i];
    A[j, i] := 0.0;
    SubtractPivotRow(A, L, i, j, M);
  }

  /** Row j, from column i + 1 on, loses L[j, i] times row i; only row j of A changes. */
  method SubtractPivotRow(A: array2<real>, L: array2<real>, i: nat, j: nat, ghost M: Mat)
    requires A != L && A.Length0 == A.Length1 == L.Length0 == L.Length1 == |M|
    requires IsSquare(M, |M|) && i < j < |M| && M[i][i] != 0.0 && L[j, i] == M[j][i] / M[i][i]
    requires forall r, c :: 0 <= r < |M| && 0 <= c < |M| ==>
      A[r, c] == if r < j || (r == j && c <= i) then EliminateColumn(M, i)[r][c] else M[r][c]
    modifies A
    ensures forall r, c :: 0 <= r < |M| && 0 <= c < |M| ==>
      A[r, c] == if r <= j then EliminateColumn(M, i)[r][c] else M[r][c]
  {
    ghost var E := EliminateColumn(M, i);
    for k := i + 1 to A.Length1
      invariant forall r, c :: 0 <= r < |M| && 0 <= c < |M| ==>
        A[r, c] == if r < j || (r == j && (c <= i || c < k)) then E[r][c] else M[r][c]
    {
      A[j, k] := A[j, k] - L[j, i] * A[i, k];
    }
  }

  /** Changing an entry outside lo .. hi - 1 does not change the sum. */
  lemma DotUpdate(a: seq<real>, s: seq<real>, k: nat, v: real, lo: nat, hi: nat)
    requires lo <= hi <= |a| && hi <= |s| && k < |s| && (k < lo || hi <= k)
    ensures Dot(a, s[k := v], lo, hi) == Dot(a, s, lo, hi)
  {
    DotExt(a, s[k := v], a, s, lo, hi);
  }

  lemma DotOne(a: seq<real>, b: seq<real>, lo: nat)
    requires lo < |a| && lo < |b|
    ensures Dot(a, b, lo, lo + 1) == a[lo] * b[lo]
  {
  }

  lemma DivMul(a: real, d: real)
    requires d != 0.0
    ensures d * (a / d) == a
  {
  }

  /** Changing entry i leaves every row sum that ends before i unchanged. */
  lemma ForwardKept(L: Mat, y: seq<real>, i: nat, b: seq<real>, v: real)
    requires i < |y| == |b| <= |L| && forall r :: 0 <= r < |L| ==> |y| <= |L[r]|
    requires forall p :: 0 <= p < i ==> Dot(L[p], y, 0, p + 1) == b[p]
    ensures forall p :: 0 <= p < i ==> Dot(L[p], y[i := v], 0, p + 1) == b[p]
  {
    forall p | 0 <= p < i ensures Dot(L[p], y[i := v], 0, p + 1) == b[p] {
      DotUpdate(L[p], y, i, v, 0, p + 1);
    }
  }

  /** A v that solves row i: L[i][0..i] . y[i := v] == b. */
  lemma ForwardSolved(a: seq<real>, y: seq<real>, i: nat, curr: real, v: real, b: real)
    requires i < |a| && i < |y| && curr == Dot(a, y, 0, i) && curr + a[i] * v == b
    ensures Dot(a, y[i := v], 0, i + 1) == b
  {
    DotUpdate(a, y, i, v, 0, i);
    assert y[i := v][i] == v;
  }

  /** Setting y[i] so that row i is solved keeps rows 0 .. i - 1 solved. */
  lemma ForwardStep(L: Mat, y: seq<real>, i: nat, b: seq<real>, v: real)
    requires i < |y| == |b| <= |L| && forall r :: 0 <= r < |L| ==> |y| <= |L[r]|
    requires forall p :: 0 <= p < i ==> Dot(L[p], y, 0, p + 1) == b[p]
    requires Dot(L[i], y[i := v], 0, i + 1) == b[i]
    ensures forall p :: 0 <= p <= i ==> Dot(L[p], y[i := v], 0, p + 1) == b[p]
  {
    ForwardKept(L, y, i, b, v);
  }

  /** Changing entry i leaves every row sum that starts after i unchanged. */
  lemma BackKept(U: Mat, x: seq<real>, i: nat, y: seq<real>, v: real)
    requires i < |x| == |y| <= |U| && forall r :: 0 <= r < |U| ==> |x| <= |U[r]|
    requires forall p :: i < p < |y| ==> Dot(U[p], x, p, |y|) == y[p]
    ensures forall p :: i < p < |y| ==> Dot(U[p], x[i := v], p, |y|) == y[p]
  {
    forall p | i < p < |y| ensures Dot(U[p], x[i := v], p, |y|) == y[p] {
      DotUpdate(U[p], x, i, v, p, |y|);
    }
  }

  /** A v that solves row i: U[i][i..n] . x[i := v] == y. */
  lemma BackSolved(a: seq<real>, x: seq<real>, i: nat, n: nat, curr: real, v: real, y: real)
    requires i < n <= |a| && n <= |x| && curr == Dot(a, x, i + 1, n) && a[i] * v + curr == y
    ensures Dot(a, x[i := v], i, n) == y
  {
    DotUpdate(a, x, i, v, i + 1, n);
    DotSplit(a, x[i := v], i, i + 1, n);
    DotOne(a, x[i := v], i);
    assert x[i := v][i] == v;
  }

  /** Setting x[i] so that row i is solved keeps rows i + 1 .. n - 1 solved. */
  lemma BackStep(U: Mat, x: seq<real>, i: nat, y: seq<real>, v: real)
    requires i < |x| == |y| <= |U| && forall r :: 0 <= r < |U| ==> |x| <= |U[r]|
    requires forall p :: i < p < |y| ==> Dot(U[p], x, p, |y|) == y[p]
    requires Dot(U[i], x[i := v], i, |y|) == y[i]
    ensures forall p :: i <= p < |y| ==> Dot(U[p], x[i := v], p, |y|) == y[p]
  {
    BackKept(U, x, i, y, v);
  }

  /** y with L[i][0..i] . y == b[i] for every row i: solves L y = b for lower-triangular L. */
  method ForwardSubstitution(L: array2<real>, b: seq<real>) returns (y: seq<real>)
    requires |b| <= L.Length0 && |b| <= L.Length1
    requires forall i :: 0 <= i < |b| ==> L[i, i] != 0.0
    ensures |y| == |b|
    ensures forall i :: 0 <= i < |b| ==> Dot(Elems(L)[i], y, 0, i + 1) == b[i]
  {
    var n := |b|;
    ghost var Lm := Elems(L);
    var ya := new real[n](_ => 0.0);
    for i := 0 to n
      invariant forall p :: 0 <= p < i ==> Dot(Lm[p], ya[..], 0, p + 1) == b[p]
    {
      var curr := 0.0;
      for j := 0 to i
        invariant curr == Dot(Lm[i], ya[..], 0, j)
      {
        curr := curr + ya[j] * L[i, j];
      }
      var v := (b[i] - curr) / L[i, i];
      DivMul(b[i] - curr, L[i, i]);
      ForwardSolved(Lm[i], ya[..], i, curr, v, b[i]);
      ForwardStep(Lm, ya[..], i, b, v);
      ya[i] := v;
    }
    y := ya[..];
  }

  /** x with U[i][i..n] . x == y[i] for every row i: solves U x = y for upper-triangular U. */
  method BackSubstitution(U: array2<real>, y: seq<real>) returns (x: seq<real>)
    requires |y| <= U.Length0 && |y| <= U.Length1
    requires forall i :: 0 <= i < |y| ==> U[i, i] != 0.0
    ensures |x| == |y|
    ensures forall i :: 0 <= i < |y| ==> Dot(Elems(U)[i], x, i, |y|) == y[i]
  {
    var n := |y|;
    ghost var Um := Elems(U);
    var xa := new real[n](_ => 0.0);
    var i := n - 1;
    while i >= 0
      invariant -1 <= i < n
      invariant forall p :: i < p < n ==> Dot(Um[p], xa[..], p, n) == y[p]
    {
      var curr := 0.0;
      for j := i + 1 to n
        invariant curr == Dot(Um[i], xa[..], i + 1, j)
      {
        curr := curr + xa[j] * U[i, j];
      }
      var v := (y[i] - curr) / U[i, i];
      DivMul(y[i] - curr, U[i, i]);
      BackSolved(Um[i], xa[..], i, n, curr, v, y[i]);
      BackStep(Um, xa[..], i, y, v);
      xa[i] := v;
      i := i - 1;
    }
    x := xa[..];
  }

  /** Every pivot of the factorisation, the last one included, is nonzero. */
  ghost predicate Solvable(M: Mat)
    requires IsSquare(M, |M|)
  {
    var f := LU(M);
    f.ok && forall p :: 0 <= p < |M| ==> f.U[p][p] != 0.0
  }

  /**
   * Solve A x = b through the in-place decomposition.  The last pivot, which
   * the decomposition does not check, is checked here when back substitution
   * reaches the last row and would divide by it; a shorter b stops above it.
   */
  method Solve(A: array2<real>, b: seq<real>) returns (x: Option<seq<real>>)
    requires A.Length0 == A.Length1 ==> |b| <= A.Length0
    modifies A
    ensures x.Some? <==> A.Length0 == A.Length1 && LU(old(Elems(A))).ok
                         && (|b| == A.Length0 ==> Solvable(old(Elems(A))))
    ensures x.Some? ==> |x.value| == |b|
    ensures x.Some? && |b| == A.Length0 ==> MatVec(old(Elems(A)), x.value) == b
    ensures x.Some? && A.Length0 == A.Length1 ==> MatVec(Leading(old(Elems(A)), |b|), x.value) == b
    ensures A.Length0 == A.Length1 ==> Elems(A) == LU(old(Elems(A))).U
    ensures A.Length0 != A.Length1 ==> Elems(A) == old(Elems(A))
  {
    ghost var M := Elems(A);
    var L := LUDecomposition(A);
    if L == null {
      return None;
    }
    var n := A.Length0;
    LUFailsIffZeroPivot(M);
    if |b| == n && n > 0 && A[n - 1, n - 1] == 0.0 {
      return None;
    }
    var xs := Substitute(L, A, b, M);
    x := Some(xs);
  }

  /** Forward then back substitution with the factors of M, the pivots b reaches nonzero. */
  method Substitute(L: array2<real>, U: array2<real>, b: seq<real>, ghost M: Mat) returns (x: seq<real>)
    requires IsSquare(M, |M|) && LU(M).ok && |b| <= |M|
    requires Elems(L) == LU(M).L && Elems(U) == LU(M).U
    requires forall p :: 0 <= p < |b| ==> LU(M).U[p][p] != 0.0
    ensures |x| == |b| && (|b| == |M| ==> MatVec(M, x) == b)
    ensures MatVec(Leading(M, |b|), x) == b
  {
    LUCorrect(M);
    ghost var n := |M|;
    ghost var Lm := Elems(L);
    ghost var Um := Elems(U);
    assert L.Length0 == |Lm| == n && U.Length0 == n;
    if n > 0 {
      assert L.Length1 == |Lm[0]| == n && U.Length1 == |Um[0]| == n;
    }
    assert forall p :: 0 <= p < |b| ==> U[p, p] == Um[p][p] != 0.0;
    assert forall p :: 0 <= p < n ==> L[p, p] == Lm[p][p] == 1.0;
    var y := ForwardSubstitution(L, b);
    x := BackSubstitution(U, y);
    if |b| == n {
      SolveCorrect(M, Lm, Um, y, x, b);
    }
    LeadingSolve(M, Lm, Um, y, x, b);
  }

  /** The leading k-by-k block of M. */
  function Leading(M: Mat, k: nat): (B: Mat)
    requires IsSquare(M, |M|) && k <= |M|
    ensures IsSquare(B, k) && forall r, c :: 0 <= r < k && 0 <= c < k ==> B[r][c] == M[r][c]
  {
    seq(k, r requires 0 <= r < k => M[r][..k])
  }

  /** The leading block of L*U, for triangular factors, is the product of their leading blocks. */
  lemma LeadingProduct(M: Mat, L: Mat, U: Mat, k: nat)
    requires IsSquare(M, |M|) && IsSquare(L, |M|) && IsSquare(U, |M|) && k <= |M|
    requires IsProduct(L, U, M, |M|) && UnitLowerTriangular(L, |M|) && UpperTriangular(U, |M|)
    ensures IsProduct(Leading(L, k), Leading(U, k), Leading(M, k), k)
    ensures UnitLowerTriangular(Leading(L, k), k) && UpperTriangular(Leading(U, k), k)
  {
    var n := |M|;
    var Lk, Uk, Mk := Leading(L, k), Leading(U, k), Leading(M, k);
    forall r, c | 0 <= r < k && 0 <= c < k
      ensures Dot(Lk[r], Column(Uk, c), 0, k) == Mk[r][c]
    {
      var col := Column(U, c);
      DotSplit(L[r], col, 0, k, n);
      DotZero(L[r], col, k, n);
      DotExt(L[r], col, Lk[r], Column(Uk, c), 0, k);
    }
  }

  /**
   * With fewer right-hand entries than rows, the substitutions use the
   * leading block of each factor, and the result solves the leading block of M.
   */
  lemma LeadingSolve(M: Mat, L: Mat, U: Mat, y: seq<real>, x: seq<real>, b: seq<real>)
    requires IsSquare(M, |M|) && IsSquare(L, |M|) && IsSquare(U, |M|)
    requires |y| == |b| && |x| == |b| && |b| <= |M|
    requires IsProduct(L, U, M, |M|) && UnitLowerTriangular(L, |M|) && UpperTriangular(U, |M|)
    requires forall i :: 0 <= i < |b| ==> Dot(L[i], y, 0, i + 1) == b[i]
    requires forall i :: 0 <= i < |b| ==> Dot(U[i], x, i, |b|) == y[i]
    ensures MatVec(Leading(M, |b|), x) == b
  {
    LeadingSubstituted(M, L, U, y, x, b);
    SolveCorrect(Leading(M, |b|), Leading(L, |b|), Leading(U, |b|), y, x, b);
  }

  /** The leading blocks and the two substitutions meet SolveCorrect's premises. */
  lemma LeadingSubstituted(M: Mat, L: Mat, U: Mat, y: seq<real>, x: seq<real>, b: seq<real>)
    requires IsSquare(M, |M|) && IsSquare(L, |M|) && IsSquare(U, |M|)
    requires |y| == |b| && |x| == |b| && |b| <= |M|
    requires IsProduct(L, U, M, |M|) && UnitLowerTriangular(L, |M|) && UpperTriangular(U, |M|)
    requires forall i :: 0 <= i < |b| ==> Dot(L[i], y, 0, i + 1) == b[i]
    requires forall i :: 0 <= i < |b| ==> Dot(U[i], x, i, |b|) == y[i]
    ensures Substituted(Leading(M, |b|), Leading(L, |b|), Leading(U, |b|), y, x, b)
  {
    LeadingProduct(M, L, U, |b|);
    LeadingLower(L, y, b);
    LeadingUpper(U, x, y);
  }

  /** Triangular factors of M, and y and x computed from b by the two substitutions. */
  ghost predicate Substituted(M: Mat, L: Mat, U: Mat, y: seq<real>, x: seq<real>, b: seq<real>)
  {
    && IsSquare(M, |M|) && IsSquare(L, |M|) && IsSquare(U, |M|)
    && |y| == |M| && |x| == |M| && |b| == |M|
    && IsProduct(L, U, M, |M|) && UnitLowerTriangular(L, |M|) && UpperTriangular(U, |M|)
    && (forall i :: 0 <= i < |M| ==> Dot(L[i], y, 0, i + 1) == b[i])
    && (forall i :: 0 <= i < |M| ==> Dot(U[i], x, i, |M|) == y[i])
  }

  /** Forward substitution's rows read the same in the leading block of L. */
  lemma LeadingLower(L: Mat, y: seq<real>, b: seq<real>)
    requires IsSquare(L, |L|) && |y| == |b| <= |L|
    requires forall i :: 0 <= i < |b| ==> Dot(L[i], y, 0, i + 1) == b[i]
    ensures forall i :: 0 <= i < |b| ==> Dot(Leading(L, |b|)[i], y, 0, i + 1) == b[i]
  {
    var Lk := Leading(L, |b|);
    forall i | 0 <= i < |b| ensures Dot(Lk[i], y, 0, i + 1) == b[i] {
      DotExt(L[i], y, Lk[i], y, 0, i + 1);
    }
  }

  /** Back substitution's rows read the same in the leading block of U. */
  lemma LeadingUpper(U: Mat, x: seq<real>, y: seq<real>)
    requires IsSquare(U, |U|) && |x| == |y| <= |U|
    requires forall i :: 0 <= i < |y| ==> Dot(U[i], x, i, |y|) == y[i]
    ensures forall i :: 0 <= i < |y| ==> Dot(Leading(U, |y|)[i], x, i, |y|) == y[i]
  {
    var Uk := Leading(U, |y|);
    forall i | 0 <= i < |y| ensures Dot(Uk[i], x, i, |y|) == y[i] {
      DotExt(U[i], x, Uk[i], x, i, |y|);
    }
  }

  /** Entry c is row a times column c of U. */
  function LeftDots(a: seq<real>, U: Mat, k: nat): (v: seq<real>)
    requires |U| <= |a| && forall p :: 0 <= p < |U| ==> k <= |U[p]|
    ensures |v| == k && forall c :: 0 <= c < k ==> v[c] == Dot(a, Column(U, c), 0, |U|)
  {
    seq(k, c requires 0 <= c < k => Dot(a, Column(U, c), 0, |U|))
  }

  /** Entry p is row p of U times x, over the first k columns. */
  function RightDots(U: Mat, x: seq<real>, k: nat): (v: seq<real>)
    requires k <= |x| && forall p :: 0 <= p < |U| ==> k <= |U[p]|
    ensures |v| == |U| && forall p :: 0 <= p < |U| ==> v[p] == Dot(U[p], x, 0, k)
  {
    seq(|U|, p requires 0 <= p < |U| => Dot(U[p], x, 0, k))
  }

  /** (a U) x == a (U x): the two orders of the double sum agree. */
  lemma {:induction false} Exchange(a: seq<real>, U: Mat, x: seq<real>, k: nat)
    requires |U| <= |a| && k <= |x| && forall p :: 0 <= p < |U| ==> k <= |U[p]|
    ensures Dot(LeftDots(a, U, k), x, 0, k) == Dot(a, RightDots(U, x, k), 0, |U|)
  {
    if k == 0 {
      DotZero(a, RightDots(U, x, 0), 0, |U|);
    } else {
      Exchange(a, U, x, k - 1);
      LeftDotsStep(a, U, x, k);
      RightDotsStep(a, U, x, k);
    }
  }

  /** Column k - 1 adds its dot with a, times x[k - 1], to the left-hand sum. */
  lemma LeftDotsStep(a: seq<real>, U: Mat, x: seq<real>, k: nat)
    requires |U| <= |a| && 1 <= k <= |x| && forall p :: 0 <= p < |U| ==> k <= |U[p]|
    ensures Dot(LeftDots(a, U, k), x, 0, k)
         == Dot(LeftDots(a, U, k - 1), x, 0, k - 1) + Dot(a, Column(U, k - 1), 0, |U|) * x[k - 1]
  {
    DotExt(LeftDots(a, U, k), x, LeftDots(a, U, k - 1), x, 0, k - 1);
  }

  /** Column k - 1 adds the same amount to the right-hand sum. */
  lemma RightDotsStep(a: seq<real>, U: Mat, x: seq<real>, k: nat)
    requires |U| <= |a| && 1 <= k <= |x| && forall p :: 0 <= p < |U| ==> k <= |U[p]|
    ensures Dot(a, RightDots(U, x, k), 0, |U|)
         == Dot(a, RightDots(U, x, k - 1), 0, |U|) + Dot(a, Column(U, k - 1), 0, |U|) * x[k - 1]
  {
    var u, v, w := RightDots(U, x, k - 1), Column(U, k - 1), RightDots(U, x, k);
    forall j | 0 <= j < |U| ensures w[j] == u[j] + v[j] * x[k - 1] {
      assert w[j] == Dot(U[j], x, 0, k - 1) + U[j][k - 1] * x[k - 1];
    }
    DotLinear(a, u, v, w, x[k - 1], 0, |U|);
  }

  /** U x == y when each row of the upper-triangular U, summed from the diagonal, gives y. */
  lemma UpperRows(U: Mat, x: seq<real>, y: seq<real>)
    requires IsSquare(U, |U|) && UpperTriangular(U, |U|) && |x| == |U| && |y| == |U|
    requires forall i :: 0 <= i < |U| ==> Dot(U[i], x, i, |U|) == y[i]
    ensures RightDots(U, x, |U|) == y
  {
    var n := |U|;
    forall p | 0 <= p < n ensures RightDots(U, x, n)[p] == y[p] {
      DotSplit(U[p], x, 0, p, n);
      DotZero(U[p], x, 0, p);
    }
  }

  /** Row r of L*U, entry by entry, is row r of M. */
  lemma ProductRow(M: Mat, L: Mat, U: Mat, x: seq<real>, r: nat)
    requires IsSquare(M, |M|) && IsSquare(L, |M|) && IsSquare(U, |M|) && |x| == |M| && r < |M|
    requires IsProduct(L, U, M, |M|)
    ensures Dot(M[r], x, 0, |M|) == Dot(LeftDots(L[r], U, |M|), x, 0, |M|)
  {
    DotExt(M[r], x, LeftDots(L[r], U, |M|), x, 0, |M|);
  }

  /** A row of a lower-triangular matrix sums only up to its diagonal. */
  lemma LowerRow(L: Mat, y: seq<real>, r: nat)
    requires IsSquare(L, |L|) && UnitLowerTriangular(L, |L|) && |y| == |L| && r < |L|
    ensures Dot(L[r], y, 0, |L|) == Dot(L[r], y, 0, r + 1)
  {
    DotSplit(L[r], y, 0, r + 1, |L|);
    DotZero(L[r], y, r + 1, |L|);
  }

  /** From L y = b (lower part) and U x = y (upper part) with L*U == M, M x = b. */
  lemma SolveCorrect(M: Mat, L: Mat, U: Mat, y: seq<real>, x: seq<real>, b: seq<real>)
    requires Substituted(M, L, U, y, x, b)
    ensures MatVec(M, x) == b
  {
    UpperRows(U, x, y);
    forall r | 0 <= r < |M| ensures MatVec(M, x)[r] == b[r] {
      ProductRow(M, L, U, x, r);
      Exchange(L[r], U, x, |M|);
      LowerRow(L, y, r);
    }
  }

  /** The identity sends every vector to itself. */
  lemma MatVecIdentity(x: seq<real>)
    ensures MatVec(IdentityMat(|x|), x) == x
  {
    var n := |x|;
    var I := IdentityMat(n);
    forall r | 0 <= r < n ensures Dot(I[r], x, 0, n) == x[r] {
      DotSplit(I[r], x, 0, r, n);
      DotSplit(I[r], x, r, r + 1, n);
      DotZero(I[r], x, 0, r);
      DotZero(I[r], x, r + 1, n);
    }
  }

  /** Solving against a fresh identity matrix gives back the right-hand side. */
  method SolveIdentity(b: seq<real>) returns (x: Option<seq<real>>)
    ensures x == Some(b)
  {
    var I := Identity(|b|);
    LUIdentity(|b|);
    x := Solve(I, b);
    MatVecIdentity(x.value);
  }

  // ---------------------------------------------------------------------
  // The unchecked last pivot
  // ---------------------------------------------------------------------

  /**
   * The condition under which the solver as written goes on to substitute:
   * the decomposition returned a non-null L.  The last pivot is not part of it.
   */
  ghost predicate SubstitutesAsWritten(M: Mat)
    requires IsSquare(M, |M|)
  {
    LU(M).ok
  }

  /**
   * [[1, 1], [1, 1]] passes the decomposition (its only checked pivot is 1)
   * but its last pivot is 0, so back substitution as written divides by zero;
   * Solve returns None for it instead.
   */
  lemma LastPivotUnchecked()
    ensures var M := [[1.0, 1.0], [1.0, 1.0]];
      IsSquare(M, 2) && SubstitutesAsWritten(M) && LU(M).U[1][1] == 0.0 && !Solvable(M)
  {
    var M := [[1.0, 1.0], [1.0, 1.0]];
    var E := EliminateColumn(M, 0);
    assert E[1][1] == 0.0;
    assert LU(M) == Doolittle(E, RecordMultipliers(IdentityMat(2), M, 0), 1);
  }
}
