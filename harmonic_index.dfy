/** The harmonic index map of `pyssht` (`elm2ind` / `ind2elm`): the pair
    (ell, m) with 0 <= ell and -ell <= m <= ell sits at index
    ell^2 + ell + m, so the degrees below L fill exactly [0, L^2). */
module HarmonicIndex {

  /** `n ** 2`, by the odd-number recurrence. */
  function Sq(n: nat): nat {
    if n == 0 then 0 else Sq(n - 1) + 2 * n - 1
  }

  lemma {:induction false} SqIsProduct(n: nat)
    ensures Sq(n) == n * n
  {
    if n > 0 {
      SqIsProduct(n - 1);
      assert (n - 1) * (n - 1) == n * n - 2 * n + 1;
    }
  }

  lemma {:induction false} SqMonotone(a: nat, b: nat)
    ensures a <= b ==> Sq(a) <= Sq(b)
    decreases b
  {
    if a < b {
      SqMonotone(a, b - 1);
    }
  }

  /** `elm2ind(ell, m)`. */
  function Ind(ell: nat, m: int): (i: nat)
    requires -(ell as int) <= m <= ell
    ensures Sq(ell) <= i < Sq(ell + 1)
  {
    Sq(ell) + ell + m
  }

  function EllFrom(i: nat, l: nat): (e: nat)
    requires Sq(l) <= i
    ensures l <= e
    ensures Sq(e) <= i < Sq(e + 1)
    decreases i - Sq(l)
  {
    if i < Sq(l + 1) then l else EllFrom(i, l + 1)
  }

  /** The degree returned by `ind2elm(i)`. */
  function Ell(i: nat): (e: nat)
    ensures Sq(e) <= i < Sq(e + 1)
  {
    EllFrom(i, 0)
  }

  /** The order returned by `ind2elm(i)`. */
  function M(i: nat): (m: int)
    ensures -(Ell(i) as int) <= m <= Ell(i)
    ensures Ind(Ell(i), m) == i
  {
    i - Sq(Ell(i)) - Ell(i)
  }

  /** Only one degree brackets a given index. */
  lemma DegreeUnique(i: nat, e: nat, f: nat)
    requires Sq(e) <= i < Sq(e + 1)
    requires Sq(f) <= i < Sq(f + 1)
    ensures e == f
  {
    SqMonotone(e + 1, f);
    SqMonotone(f + 1, e);
  }

  /** `ind2elm(elm2ind(ell, m)) == (ell, m)`. */
  lemma IndRoundTrip(ell: nat, m: int)
    requires -(ell as int) <= m <= ell
    ensures Ell(Ind(ell, m)) == ell && M(Ind(ell, m)) == m
  {
    DegreeUnique(Ind(ell, m), Ell(Ind(ell, m)), ell);
  }

  /** An index lies below L^2 exactly when its degree lies below L. */
  lemma BelowBandlimit(bandlimit: nat, i: nat)
    ensures i < Sq(bandlimit) <==> Ell(i) < bandlimit
  {
    SqMonotone(bandlimit, Ell(i));
    SqMonotone(Ell(i) + 1, bandlimit);
  }

  /** The index of (ell, -m) for the index of (ell, m). */
  function Mirror(i: nat): (k: nat)
    ensures Ell(k) == Ell(i) && M(k) == -M(i)
    ensures k == i - 2 * M(i)
  {
    IndRoundTrip(Ell(i), -M(i));
    Ind(Ell(i), -M(i))
  }

  lemma MirrorInvolutive(i: nat)
    ensures Mirror(Mirror(i)) == i
  {
  }

  /** Indices are ordered by degree first and by order within a degree. */
  lemma IndexOrder(i: nat, j: nat)
    ensures i < j <==> Ell(i) < Ell(j) || (Ell(i) == Ell(j) && M(i) < M(j))
  {
    SqMonotone(Ell(i) + 1, Ell(j));
    SqMonotone(Ell(j) + 1, Ell(i));
  }
}
