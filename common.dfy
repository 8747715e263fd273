/** Value types shared by every component of the curve/mesh engine. */
module Common {

  /** The source signals "no result" with null; the model uses Option. */
  datatype Option<T> = None | Some(value: T)

  /** Unity's Vector2 and Vector3, with exact real coordinates and exact equality. */
  datatype Vec2 = Vec2(x: real, y: real)
  datatype Vec3 = Vec3(x: real, y: real, z: real)

  function Dot3(a: Vec3, b: Vec3): real
  {
    a.x * b.x + a.y * b.y + a.z * b.z
  }

  function Add3(a: Vec3, b: Vec3): Vec3
  {
    Vec3(a.x + b.x, a.y + b.y, a.z + b.z)
  }

  function Scale3(s: real, a: Vec3): Vec3
  {
    Vec3(s * a.x, s * a.y, s * a.z)
  }

  /** The zero-based position of the first occurrence of x in s. */
  function FirstIndex<T(==)>(s: seq<T>, x: T): (k: nat)
    requires x in s
    ensures k < |s| && s[k] == x
  {
    if s[0] == x then 0 else 1 + FirstIndex(s[1..], x)
  }

  predicate NoDuplicates<T(==)>(s: seq<T>)
  {
    forall i, j :: 0 <= i < j < |s| ==> s[i] != s[j]
  }

  /**
   * The distinct elements of s[..n], each kept at its first occurrence only.
   * Built from the left, one element at a time, the way a list is appended to
   * when an element has not been seen yet.
   */
  function Dedup<T(==)>(s: seq<T>, n: nat): (d: seq<T>)
    requires n <= |s|
    ensures |d| <= n
  {
    if n == 0 then []
    else
      var d := Dedup(s, n - 1);
      if s[n - 1] in d then d else d + [s[n - 1]]
  }

  /** One more element: Dedup appends it when it has not been seen yet. */
  lemma DedupStep<T>(s: seq<T>, n: nat)
    requires n < |s|
    ensures Dedup(s, n + 1) == if s[n] in Dedup(s, n) then Dedup(s, n) else Dedup(s, n) + [s[n]]
  {
  }

  /** Dedup keeps exactly the elements of s[..n], each once. */
  lemma {:induction false} DedupElements<T>(s: seq<T>, n: nat)
    requires n <= |s|
    ensures forall x {:trigger x in Dedup(s, n)} {:trigger x in s[..n]} :: x in Dedup(s, n) <==> x in s[..n]
    ensures NoDuplicates(Dedup(s, n))
  {
    if n > 0 {
      DedupElements(s, n - 1);
      assert s[..n] == s[..n - 1] + [s[n - 1]];
    }
  }

  lemma {:induction false} FirstIndexBefore<T>(s: seq<T>, k: nat, x: T)
    requires k <= |s| && x in s[..k]
    ensures x in s && FirstIndex(s, x) < k
  {
    if s[0] != x {
      assert s[1..][..k - 1] == s[..k][1..];
      FirstIndexBefore(s[1..], k - 1, x);
    }
  }

  lemma {:induction false} FirstIndexAt<T>(s: seq<T>, k: nat)
    requires k < |s| && s[k] !in s[..k]
    ensures FirstIndex(s, s[k]) == k
  {
    if k > 0 {
      assert s[0] in s[..k];
      assert s[1..][..k - 1] == s[..k][1..];
      assert s[1..][k - 1] == s[k];
      FirstIndexAt(s[1..], k - 1);
    }
  }

  /** Every element Dedup keeps first occurs in s[..n]. */
  lemma DedupBefore<T>(s: seq<T>, n: nat)
    requires n <= |s|
    ensures forall i :: 0 <= i < |Dedup(s, n)| ==> Dedup(s, n)[i] in s && FirstIndex(s, Dedup(s, n)[i]) < n
  {
    DedupElements(s, n);
    forall i | 0 <= i < |Dedup(s, n)|
      ensures Dedup(s, n)[i] in s && FirstIndex(s, Dedup(s, n)[i]) < n
    {
      assert Dedup(s, n)[i] in Dedup(s, n);
      assert Dedup(s, n)[i] in s[..n];
      FirstIndexBefore(s, n, Dedup(s, n)[i]);
    }
  }

  /** Dedup lists the distinct elements in the order of their first occurrence in s. */
  lemma {:induction false} DedupOrder<T>(s: seq<T>, n: nat)
    requires n <= |s|
    ensures forall i :: 0 <= i < |Dedup(s, n)| ==> Dedup(s, n)[i] in s && FirstIndex(s, Dedup(s, n)[i]) < n
    ensures forall i, j :: 0 <= i < j < |Dedup(s, n)| ==>
      Dedup(s, n)[i] in s && Dedup(s, n)[j] in s && FirstIndex(s, Dedup(s, n)[i]) < FirstIndex(s, Dedup(s, n)[j])
  {
    DedupBefore(s, n);
    var d := Dedup(s, n);
    if n > 0 {
      DedupOrder(s, n - 1);
      DedupElements(s, n - 1);
      var dp := Dedup(s, n - 1);
      if s[n - 1] !in dp {
        assert d == dp + [s[n - 1]];
        FirstIndexAt(s, n - 1);
        forall i | 0 <= i < |dp|
          ensures FirstIndex(s, d[i]) < FirstIndex(s, d[|dp|])
        {
          assert d[i] == dp[i];
        }
      }
    }
  }
}
