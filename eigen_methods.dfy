/** The post-processing of an eigen-decomposition shared by the mesh code:
    `idx = eigenvalues.argsort()[::-1]`, the eigenvalues taken in that
    order, and the eigenvector columns taken in that order as rows. The
    older mesh code also conjugates the rows and makes the first entry of
    every row non-negative, in place. */
module EigenMethods {
  import opened ComplexNumbers
  import opened ParallelMethods

  /** `s[idx[p]]` never decreases with `p`. */
  predicate Ascending(s: seq<real>, idx: seq<nat>)
    requires forall p | 0 <= p < |idx| :: idx[p] < |s|
  {
    forall p, q | 0 <= p < q < |idx| :: s[idx[p]] <= s[idx[q]]
  }

  /** `s[idx[p]]` never increases with `p`. */
  predicate Descending(s: seq<real>, idx: seq<nat>)
    requires forall p | 0 <= p < |idx| :: idx[p] < |s|
  {
    forall p, q | 0 <= p < q < |idx| :: s[idx[p]] >= s[idx[q]]
  }

  /** `idx` lists every index of `s` exactly once. */
  predicate IsPermutation(idx: seq<nat>, n: nat) {
    multiset(idx) == multiset(Range(0, n))
  }

  /** Inserts index `i` after every index whose value is at most `s[i]`. */
  function InsertIndex(s: seq<real>, idx: seq<nat>, i: nat): (r: seq<nat>)
    requires i < |s| && forall p | 0 <= p < |idx| :: idx[p] < |s|
    ensures |r| == |idx| + 1 && forall p | 0 <= p < |r| :: r[p] < |s|
  {
    if idx == [] then [i]
    else if s[idx[|idx| - 1]] <= s[i] then idx + [i]
    else InsertIndex(s, idx[..|idx| - 1], i) + [idx[|idx| - 1]]
  }

  /** The insertion adds `i` and keeps every other index. */
  lemma {:induction false} InsertIndexMultiset(s: seq<real>, idx: seq<nat>, i: nat)
    requires i < |s| && forall p | 0 <= p < |idx| :: idx[p] < |s|
    ensures multiset(InsertIndex(s, idx, i)) == multiset(idx) + multiset{i}
  {
    if idx != [] && s[i] < s[idx[|idx| - 1]] {
      InsertIndexMultiset(s, idx[..|idx| - 1], i);
      assert idx == idx[..|idx| - 1] + [idx[|idx| - 1]];
    }
  }

  lemma {:induction false} InsertKeepsAscending(s: seq<real>, idx: seq<nat>, i: nat)
    requires i < |s| && forall p | 0 <= p < |idx| :: idx[p] < |s|
    requires Ascending(s, idx)
    ensures Ascending(s, InsertIndex(s, idx, i))
  {
    if idx != [] && s[i] < s[idx[|idx| - 1]] {
      var init, last := idx[..|idx| - 1], idx[|idx| - 1];
      InsertKeepsAscending(s, init, i);
      var rec := InsertIndex(s, init, i);
      InsertIndexMultiset(s, init, i);
      forall p | 0 <= p < |rec| ensures s[rec[p]] <= s[last] {
        assert rec[p] in multiset(rec);
        if rec[p] != i {
          assert rec[p] in multiset(init);
          var q :| 0 <= q < |init| && init[q] == rec[p];
          assert idx[q] == rec[p];
        }
      }
    }
  }

  /** `argsort` of the first `n` values, ties kept in index order. */
  function ArgsortUpTo(s: seq<real>, n: nat): (idx: seq<nat>)
    requires n <= |s|
    ensures |idx| == n && forall p | 0 <= p < |idx| :: idx[p] < |s|
  {
    if n == 0 then [] else InsertIndex(s, ArgsortUpTo(s, n - 1), n - 1)
  }

  /** The first `n` values' argsort lists each of their indices once. */
  lemma {:induction false} ArgsortUpToPermutation(s: seq<real>, n: nat)
    requires n <= |s|
    ensures IsPermutation(ArgsortUpTo(s, n), n)
  {
    if n > 0 {
      var prev := ArgsortUpTo(s, n - 1);
      ArgsortUpToPermutation(s, n - 1);
      InsertIndexMultiset(s, prev, n - 1);
      PermutationGrows(prev, ArgsortUpTo(s, n), n - 1);
    }
  }

  /** Adding index `n` to a permutation of `range(n)` gives one of
      `range(n + 1)`. */
  lemma PermutationGrows(prev: seq<nat>, next: seq<nat>, n: nat)
    requires IsPermutation(prev, n)
    requires multiset(next) == multiset(prev) + multiset{n}
    ensures IsPermutation(next, n + 1)
  {
    RangeAppend(0, n, n + 1);
    assert Range(n, n + 1) == [n];
  }

  /** `s.argsort()`. */
  function Argsort(s: seq<real>): (idx: seq<nat>)
    ensures |idx| == |s| && forall p | 0 <= p < |idx| :: idx[p] < |s|
  {
    ArgsortUpTo(s, |s|)
  }

  lemma {:induction false} ArgsortUpToAscending(s: seq<real>, n: nat)
    requires n <= |s|
    ensures Ascending(s, ArgsortUpTo(s, n))
  {
    if n > 0 {
      var prev := ArgsortUpTo(s, n - 1);
      ArgsortUpToAscending(s, n - 1);
      InsertKeepsAscending(s, prev, n - 1);
    }
  }

  function Reverse<T>(s: seq<T>): (r: seq<T>)
    ensures |r| == |s| && forall p | 0 <= p < |s| :: r[p] == s[|s| - 1 - p]
    ensures multiset(r) == multiset(s)
  {
    if s == [] then []
    else
      assert s == [s[0]] + s[1..];
      Reverse(s[1..]) + [s[0]]
  }

  /** `eigenvalues.argsort()[::-1]`. */
  function DescendingOrder(s: seq<real>): (idx: seq<nat>)
    ensures |idx| == |s|
    ensures forall p | 0 <= p < |idx| :: idx[p] < |s|
  {
    Reverse(Argsort(s))
  }

  /** The order sorts the eigenvalues from the largest down, and lists
      every index once. */
  lemma DescendingOrderSorts(s: seq<real>)
    ensures Descending(s, DescendingOrder(s))
    ensures IsPermutation(DescendingOrder(s), |s|)
  {
    ArgsortUpToAscending(s, |s|);
    ArgsortUpToPermutation(s, |s|);
  }

  /** Every index of `s` appears in the order. */
  lemma PermutationCovers(idx: seq<nat>, n: nat, q: nat)
    requires IsPermutation(idx, n) && q < n
    ensures exists p | 0 <= p < |idx| :: idx[p] == q
  {
    RangeMembers(0, n, q);
    assert q in multiset(Range(0, n));
    assert q in multiset(idx);
    assert q in idx;
  }

  /** `eigenvalues[idx]`. */
  function Reorder(s: seq<real>, idx: seq<nat>): (r: seq<real>)
    requires forall p | 0 <= p < |idx| :: idx[p] < |s|
    ensures |r| == |idx| && forall p | 0 <= p < |r| :: r[p] == s[idx[p]]
  {
    seq(|idx|, p requires 0 <= p < |idx| => s[idx[p]])
  }

  /** Column `c` of a matrix with rows `m`. */
  function Column<T>(m: seq<seq<T>>, c: nat): (col: seq<T>)
    requires forall k | 0 <= k < |m| :: c < |m[k]|
    ensures |col| == |m| && forall k | 0 <= k < |m| :: col[k] == m[k][c]
  {
    seq(|m|, k requires 0 <= k < |m| => m[k][c])
  }

  /** Every row of `m` has `w` entries. */
  predicate Width<T>(m: seq<seq<T>>, w: nat) {
    forall k | 0 <= k < |m| :: |m[k]| == w
  }

  /** `eigenvectors[:, idx].T`: row `p` is column `idx[p]`. */
  function ColumnsAsRows<T>(m: seq<seq<T>>, idx: seq<nat>, w: nat): (r: seq<seq<T>>)
    requires Width(m, w) && forall p | 0 <= p < |idx| :: idx[p] < w
    ensures |r| == |idx| && forall p | 0 <= p < |r| :: r[p] == Column(m, idx[p])
  {
    seq(|idx|, p requires 0 <= p < |idx| => Column(m, idx[p]))
  }

  /** `_clean_evals_and_evecs` of the mesh Slepian classes: eigenvalues
      from the largest down, and row `p` of the eigenvectors the column of
      the eigenvalue at `p`, unchanged in sign. */
  function CleanEvalsAndEvecs(evals: seq<real>, evecs: seq<seq<real>>): (r: (seq<real>, seq<seq<real>>))
    requires Width(evecs, |evals|)
    ensures |r.0| == |r.1| == |evals|
    ensures forall p | 0 <= p < |evals| ::
      r.0[p] == evals[DescendingOrder(evals)[p]] && r.1[p] == Column(evecs, DescendingOrder(evals)[p])
  {
    var idx := DescendingOrder(evals);
    (Reorder(evals, idx), ColumnsAsRows(evecs, idx, |evals|))
  }

  /** The cleaned eigenvalues never increase, and every eigen-pair of the
      decomposition appears among the cleaned pairs. */
  lemma CleanKeepsPairs(evals: seq<real>, evecs: seq<seq<real>>, q: nat)
    requires Width(evecs, |evals|) && q < |evals|
    ensures var r := CleanEvalsAndEvecs(evals, evecs);
      forall p, p' | 0 <= p < p' < |evals| :: r.0[p] >= r.0[p']
    ensures var r := CleanEvalsAndEvecs(evals, evecs);
      exists p | 0 <= p < |evals| :: r.0[p] == evals[q] && r.1[p] == Column(evecs, q)
  {
    DescendingOrderSorts(evals);
    var idx := DescendingOrder(evals);
    PermutationCovers(idx, |evals|, q);
    var p :| 0 <= p < |idx| && idx[p] == q;
    var r := CleanEvalsAndEvecs(evals, evecs);
    assert r.0[p] == evals[q] && r.1[p] == Column(evecs, q);
  }

  /** `eigenvectors[:, idx].conj().T`. */
  function ConjColumnsAsRows(m: seq<seq<Complex>>, idx: seq<nat>, w: nat): (r: seq<seq<Complex>>)
    requires Width(m, w) && forall p | 0 <= p < |idx| :: idx[p] < w
    ensures |r| == |idx| && Width(r, |m|)
    ensures forall p, k | 0 <= p < |r| && 0 <= k < |m| :: r[p][k] == Conj(m[k][idx[p]])
  {
    seq(|idx|, p requires 0 <= p < |idx| => seq(|m|, k requires 0 <= k < |m| => Conj(m[k][idx[p]])))
  }

  /** `row * (-1 if row[0] < 0 else 1)`, numpy's complex `<` being
      lexicographic. */
  function SignFixed(row: seq<Complex>): (r: seq<Complex>)
    requires |row| >= 1
    ensures |r| == |row|
    ensures forall k | 0 <= k < |row| :: r[k] == if LessThanZero(row[0]) then Neg(row[k]) else row[k]
  {
    if LessThanZero(row[0]) then seq(|row|, k requires 0 <= k < |row| => Neg(row[k])) else row
  }

  /** After the fix the first entry of a row is not negative, and the row
      is the old row times 1 or -1. */
  lemma SignFixedFirstEntry(row: seq<Complex>)
    requires |row| >= 1
    ensures !LessThanZero(SignFixed(row)[0])
    ensures SignFixed(row) == row
         || forall k | 0 <= k < |row| :: SignFixed(row)[k] == Neg(row[k])
  {
    if LessThanZero(row[0]) {
      NegOfNegativeIsNotNegative(row[0]);
    }
  }

  /** `eigenvectors *= np.where(eigenvectors[:, 0] < 0, -1, 1)[:, np.newaxis]`:
      each row whose first entry is negative is negated in place. */
  method FixSigns(V: array2<Complex>)
    requires V.Length1 >= 1
    modifies V
    ensures forall p, k | 0 <= p < V.Length0 && 0 <= k < V.Length1 ::
      V[p, k] == if LessThanZero(old(V[p, 0])) then Neg(old(V[p, k])) else old(V[p, k])
  {
    var p := 0;
    while p < V.Length0
      invariant 0 <= p <= V.Length0
      invariant forall q, k | 0 <= q < V.Length0 && 0 <= k < V.Length1 ::
        V[q, k] == if q < p && LessThanZero(old(V[q, 0])) then Neg(old(V[q, k])) else old(V[q, k])
    {
      if LessThanZero(V[p, 0]) {
        var k := 0;
        while k < V.Length1
          invariant 0 <= k <= V.Length1
          invariant forall q, c | 0 <= q < V.Length0 && 0 <= c < V.Length1 ::
            V[q, c] == if (q < p && LessThanZero(old(V[q, 0]))) || (q == p && c < k)
                       then Neg(old(V[q, c])) else old(V[q, c])
        {
          V[p, k] := Neg(V[p, k]);
          k := k + 1;
        }
      }
      p := p + 1;
    }
  }

  /** The rows of the cleaned eigenvectors of the older mesh code, before
      the sign fix. */
  function LegacyRows(evals: seq<real>, evecs: seq<seq<Complex>>): (r: seq<seq<Complex>>)
    requires Width(evecs, |evals|)
    ensures |r| == |evals| && Width(r, |evecs|)
  {
    ConjColumnsAsRows(evecs, DescendingOrder(evals), |evals|)
  }

  /** `clean_evals_and_evecs` of the older mesh code: the sorted
      eigenvalues, and the conjugated eigenvector columns as rows with the
      first entry of each made non-negative. */
  method CleanEvalsAndEvecsLegacy(evals: seq<real>, evecs: seq<seq<Complex>>)
    returns (sorted: seq<real>, V: array2<Complex>)
    requires Width(evecs, |evals|) && |evecs| >= 1
    ensures sorted == Reorder(evals, DescendingOrder(evals))
    ensures V.Length0 == |evals| && V.Length1 == |evecs|
    ensures forall p, k | 0 <= p < |evals| && 0 <= k < |evecs| ::
      V[p, k] == SignFixed(LegacyRows(evals, evecs)[p])[k]
  {
    var idx := DescendingOrder(evals);
    sorted := Reorder(evals, idx);
    var rows := LegacyRows(evals, evecs);
    V := ToArray(rows, |evecs|);
    FixSigns(V);
    forall p, k | 0 <= p < |evals| && 0 <= k < |evecs|
      ensures V[p, k] == SignFixed(rows[p])[k]
    {
    }
  }

  /** A fresh two-dimensional array holding the rows. */
  method ToArray<T>(rows: seq<seq<T>>, w: nat) returns (V: array2<T>)
    requires Width(rows, w)
    ensures fresh(V) && V.Length0 == |rows| && V.Length1 == w
    ensures forall p, k | 0 <= p < |rows| && 0 <= k < w :: V[p, k] == rows[p][k]
  {
    V := new T[|rows|, w]((p, k) requires 0 <= p < |rows| && 0 <= k < w => rows[p][k]);
  }
}
