/** `fill_upper_triangle_of_hermitian_matrix(D)`: each entry above the
    diagonal becomes the conjugate of its mirror image below it; the
    diagonal and the lower triangle stay as they were. The conjugation is a
    parameter so that the same completion serves complex matrices and the
    real matrices of the mesh code (where it is the identity). */
module ArrayMethods {

  /** The entries of a two-dimensional array, row by row. */
  function Rows<T>(D: array2<T>): (m: seq<seq<T>>)
    reads D
    ensures |m| == D.Length0
    ensures forall r | 0 <= r < D.Length0 :: |m[r]| == D.Length1
    ensures forall r, c | 0 <= r < D.Length0 && 0 <= c < D.Length1 :: m[r][c] == D[r, c]
  {
    seq(D.Length0, r requires 0 <= r < D.Length0 reads D =>
      seq(D.Length1, c requires 0 <= c < D.Length1 reads D => D[r, c]))
  }

  predicate IsSquare<T>(m: seq<seq<T>>) {
    forall r | 0 <= r < |m| :: |m[r]| == |m|
  }

  /** The completed matrix: above the diagonal the conjugate of the mirror
      entry, elsewhere the entry itself. */
  function Completed<T>(m: seq<seq<T>>, conj: T -> T): (h: seq<seq<T>>)
    requires IsSquare(m)
    ensures IsSquare(h) && |h| == |m|
  {
    seq(|m|, r requires 0 <= r < |m| =>
      seq(|m|, c requires 0 <= c < |m| => if r < c then conj(m[c][r]) else m[r][c]))
  }

  ghost predicate Involutive<T(!new)>(conj: T -> T) {
    forall x :: conj(conj(x)) == x
  }

  /** Every off-diagonal pair of a completed matrix is conjugate, whatever
      the upper triangle held before; diagonal and lower triangle are kept. */
  lemma CompletedIsHermitian<T(!new)>(m: seq<seq<T>>, conj: T -> T)
    requires IsSquare(m) && Involutive(conj)
    ensures var h := Completed(m, conj);
      forall r, c | 0 <= r < |m| && 0 <= c < |m| && r != c :: h[r][c] == conj(h[c][r])
    ensures var h := Completed(m, conj);
      forall r, c | 0 <= c <= r < |m| :: h[r][c] == m[r][c]
  {
    var h := Completed(m, conj);
    forall r, c | 0 <= r < |m| && 0 <= c < |m| && r != c
      ensures h[r][c] == conj(h[c][r])
    {
      if c < r {
        assert h[c][r] == conj(m[r][c]);
        assert conj(conj(m[r][c])) == m[r][c];
      }
    }
  }

  /** The completion only looks at the diagonal and lower triangle. */
  lemma CompletedIgnoresUpper<T>(m: seq<seq<T>>, n: seq<seq<T>>, conj: T -> T)
    requires IsSquare(m) && IsSquare(n) && |m| == |n|
    requires forall r, c | 0 <= c <= r < |m| :: m[r][c] == n[r][c]
    ensures Completed(m, conj) == Completed(n, conj)
  {
    var a, b := Completed(m, conj), Completed(n, conj);
    forall r | 0 <= r < |m| ensures a[r] == b[r] {
      forall c | 0 <= c < |m| ensures a[r][c] == b[r][c] {
        if r < c {
          assert a[r][c] == conj(m[c][r]) && b[r][c] == conj(n[c][r]);
        }
      }
    }
  }

  method FillUpperTriangleOfHermitianMatrix<T>(D: array2<T>, conj: T -> T)
    requires D.Length0 == D.Length1
    modifies D
    ensures IsSquare(old(Rows(D))) && Rows(D) == Completed(old(Rows(D)), conj)
  {
    var n := D.Length0;
    ghost var m := Rows(D);
    var i := 0;
    while i < n
      invariant 0 <= i <= n
      invariant forall r, c | 0 <= r < n && 0 <= c < n ::
        D[r, c] == if r < i && r < c then conj(m[c][r]) else m[r][c]
    {
      var j := i + 1;
      while j < n
        invariant i + 1 <= j <= n
        invariant forall r, c | 0 <= r < n && 0 <= c < n ::
          D[r, c] == if (r < i && r < c) || (r == i && i < c < j) then conj(m[c][r]) else m[r][c]
      {
        D[i, j] := conj(D[j, i]);
        j := j + 1;
      }
      i := i + 1;
    }
    var h := Completed(m, conj);
    assert forall r | 0 <= r < n :: Rows(D)[r] == h[r];
  }
}
