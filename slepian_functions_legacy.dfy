/** The first Slepian code for a latitude-longitude rectangle: the
    concentration matrix is filled entry by entry from a quadrature, cached
    under a name that records the non-default angles, decomposed, and its
    eigen-pairs sorted from the best concentrated down with the eigenvalues
    scaled so that the largest is one. */
module SlepianFunctionsLegacy {
  import opened ComplexNumbers
  import opened Errors
  import opened Strings
  import opened Storage
  import opened HarmonicIndex
  import opened ArrayMethods
  import opened EigenMethods
  import PlotMethods

  /** The four corners of the region, in degrees. */
  datatype Angles = Angles(phiMin: int, phiMax: int, thetaMin: int, thetaMax: int)

  /** The whole sphere, which adds nothing to a file name. */
  const WholeSphere := Angles(0, 360, 0, 180)

  /** The part of the name that records one angle: empty at its default. */
  function Tag(key: string, value: int, default: int): string {
    if value == default then "" else "_" + key + "-" + IntToString(value)
  }

  /** One step of `filename_angle()`: `_key-value` appended unless the
      angle is at its default. */
  method AppendTag(filename: string, key: string, value: int, default: int) returns (f: string)
    ensures f == filename + Tag(key, value, default)
  {
    f := filename;
    if value != default {
      f := f + "_" + key + "-" + IntToString(value);
      assert f == filename + ("_" + key + "-" + IntToString(value));
    }
  }

  /** `filename_angle()` as intended: `_pmin`, `_pmax`, `_tmin`, `_tmax`
      in that order, each only when its angle is not the default. */
  function AngleSuffix(a: Angles): string {
    Tag("pmin", a.phiMin, 0) + Tag("pmax", a.phiMax, 360) + Tag("tmin", a.thetaMin, 0) + Tag("tmax", a.thetaMax, 180)
  }

  /** `filename_angle()` as written: the longitude bound is read from
      `self.phi_max_`, an attribute that is never assigned. So the name of
      every region whose longitudes stop short of 360 degrees fails, and no
      such region can be built; with the default longitude maximum the name
      is the intended one. */
  function FilenameAngleAsWritten(a: Angles): (r: Result<string>)
    ensures r.Err? <==> a.phiMax != 360
    ensures r.Err? ==> r.error == AttributeError
    ensures r.Ok? ==> r.value == AngleSuffix(a)
  {
    var name := Tag("pmin", a.phiMin, 0);
    if a.phiMax != 360 then Err(AttributeError)
    else
      var tmin, tmax := Tag("tmin", a.thetaMin, 0), Tag("tmax", a.thetaMax, 180);
      assert Tag("pmax", a.phiMax, 360) == "";
      assert AngleSuffix(a) == name + "" + tmin + tmax;
      assert name + "" == name;
      Ok(name + tmin + tmax)
  }

  /** A concrete region the name cannot be built for: the northern
      hemisphere of the western half. */
  lemma WesternHemisphereHasNoName()
    ensures FilenameAngleAsWritten(Angles(0, 180, 0, 90)) == Err(AttributeError)
    ensures AngleSuffix(Angles(0, 180, 0, 90)) == "_pmax-180_tmax-90"
  {
    assert NatToString(180) == "180" && NatToString(90) == "90";
  }

  /** The name is empty exactly for the whole sphere. */
  lemma AngleSuffixEmptyIffWholeSphere(a: Angles)
    ensures AngleSuffix(a) == "" <==> a == WholeSphere
  {
    if a != WholeSphere {
      assert |AngleSuffix(a)| > 0;
    }
  }

  /** The tokens between the underscores of the name. */
  function TokenIf(key: string, value: int, default: int): seq<string> {
    if value == default then [] else [key + "-" + IntToString(value)]
  }

  function Tokens(a: Angles): seq<string> {
    TokenIf("pmin", a.phiMin, 0) + TokenIf("pmax", a.phiMax, 360)
    + TokenIf("tmin", a.thetaMin, 0) + TokenIf("tmax", a.thetaMax, 180)
  }

  /** Every token preceded by an underscore. */
  function Prefixed(ts: seq<string>): string {
    if ts == [] then "" else "_" + ts[0] + Prefixed(ts[1..])
  }

  lemma {:induction false} PrefixedAppend(x: seq<string>, y: seq<string>)
    ensures Prefixed(x + y) == Prefixed(x) + Prefixed(y)
  {
    if x != [] {
      var xy := x + y;
      assert xy[0] == x[0] && xy[1..] == x[1..] + y;
      PrefixedAppend(x[1..], y);
      assert Prefixed(xy) == "_" + x[0] + (Prefixed(x[1..]) + Prefixed(y));
    } else {
      assert x + y == y;
    }
  }

  lemma TagIsPrefixedToken(key: string, v: int, d: int)
    ensures Tag(key, v, d) == Prefixed(TokenIf(key, v, d))
  {
    if v != d {
      var t := key + "-" + IntToString(v);
      assert [t][1..] == [];
      assert Prefixed([t]) == "_" + t + "";
    }
  }

  lemma SuffixIsPrefixedTokens(a: Angles)
    ensures AngleSuffix(a) == Prefixed(Tokens(a))
  {
    TagIsPrefixedToken("pmin", a.phiMin, 0);
    TagIsPrefixedToken("pmax", a.phiMax, 360);
    TagIsPrefixedToken("tmin", a.thetaMin, 0);
    TagIsPrefixedToken("tmax", a.thetaMax, 180);
    var t1, t2 := TokenIf("pmin", a.phiMin, 0), TokenIf("pmax", a.phiMax, 360);
    var t3, t4 := TokenIf("tmin", a.thetaMin, 0), TokenIf("tmax", a.thetaMax, 180);
    PrefixedAppend(t1, t2);
    PrefixedAppend(t1 + t2, t3);
    PrefixedAppend(t1 + t2 + t3, t4);
  }

  lemma {:induction false} SplitWithoutSeparator(s: string, sep: char)
    requires sep !in s
    ensures Split(s, sep) == [s]
  {
    if s != [] {
      SplitWithoutSeparator(s[1..], sep);
      assert [s[0]] + s[1..] == s;
    }
  }

  lemma {:induction false} SplitPrefixed(t: string, ts: seq<string>)
    requires '_' !in t && forall k | 0 <= k < |ts| :: '_' !in ts[k]
    ensures Split(t + Prefixed(ts), '_') == [t] + ts
    decreases |ts|
  {
    if ts == [] {
      assert t + Prefixed(ts) == t;
      SplitWithoutSeparator(t, '_');
    } else {
      assert t + Prefixed(ts) == t + ['_'] + (ts[0] + Prefixed(ts[1..]));
      SplitAfterPrefix(t, '_', ts[0] + Prefixed(ts[1..]));
      SplitPrefixed(ts[0], ts[1..]);
      assert [t] + ([ts[0]] + ts[1..]) == [t] + ts;
    }
  }

  predicate IsKey(key: string) {
    key == "pmin" || key == "pmax" || key == "tmin" || key == "tmax"
  }

  /** The angle a key names, set to `v`. */
  function Assign(a: Angles, key: string, v: int): Angles
    requires IsKey(key)
  {
    if key == "pmin" then a.(phiMin := v)
    else if key == "pmax" then a.(phiMax := v)
    else if key == "tmin" then a.(thetaMin := v)
    else a.(thetaMax := v)
  }

  /** The angle a key names. */
  function Get(a: Angles, key: string): int
    requires IsKey(key)
  {
    if key == "pmin" then a.phiMin
    else if key == "pmax" then a.phiMax
    else if key == "tmin" then a.thetaMin
    else a.thetaMax
  }

  predicate IntText(s: string) {
    |s| >= 1 && if s[0] == '-' then AllDigits(s[1..]) else AllDigits(s)
  }

  /** Reads one `key-value` token into the angles read so far. */
  function ReadToken(t: string, a: Angles): Option<Angles> {
    if |t| < 6 || t[4] != '-' || !IsKey(t[..4]) || !IntText(t[5..]) then None
    else Some(Assign(a, t[..4], ParseInt(t[5..])))
  }

  function ReadTokens(ts: seq<string>, a: Angles): Option<Angles> {
    if ts == [] then Some(a)
    else match ReadToken(ts[0], a)
      case None => None
      case Some(b) => ReadTokens(ts[1..], b)
  }

  /** Reads the angles back from the angle part of a file name. */
  function ReadAngleSuffix(s: string): Option<Angles> {
    var parts := Split(s, '_');
    if parts[0] != "" then None else ReadTokens(parts[1..], WholeSphere)
  }

  lemma {:induction false} ReadTokensAppend(x: seq<string>, y: seq<string>, a: Angles)
    ensures ReadTokens(x + y, a) == match ReadTokens(x, a)
      case None => None
      case Some(b) => ReadTokens(y, b)
  {
    if x != [] {
      assert (x + y)[0] == x[0] && (x + y)[1..] == x[1..] + y;
      match ReadToken(x[0], a)
      case None =>
      case Some(b) => ReadTokensAppend(x[1..], y, b);
    } else {
      assert x + y == y;
    }
  }

  lemma ReadOneToken(key: string, v: int, default: int, a: Angles)
    requires IsKey(key) && Get(a, key) == default
    ensures ReadTokens(TokenIf(key, v, default), a) == Some(Assign(a, key, v))
  {
    if v != default {
      var t := key + "-" + IntToString(v);
      assert t[..4] == key && t[4] == '-' && t[5..] == IntToString(v);
      IntToStringRoundTrip(v);
      assert [t][1..] == [];
    }
  }

  lemma TokensHaveNoUnderscore(a: Angles)
    ensures forall k | 0 <= k < |Tokens(a)| :: '_' !in Tokens(a)[k]
  {
    IntToStringAlphabet(a.phiMin, '_');
    IntToStringAlphabet(a.phiMax, '_');
    IntToStringAlphabet(a.thetaMin, '_');
    IntToStringAlphabet(a.thetaMax, '_');
  }

  /** The angles can be read back from the name: it records every
      non-default angle under its own key. */
  lemma AngleSuffixRoundTrip(a: Angles)
    ensures ReadAngleSuffix(AngleSuffix(a)) == Some(a)
  {
    SuffixIsPrefixedTokens(a);
    TokensHaveNoUnderscore(a);
    SplitPrefixed("", Tokens(a));
    assert "" + Prefixed(Tokens(a)) == AngleSuffix(a);
    var t1, t2 := TokenIf("pmin", a.phiMin, 0), TokenIf("pmax", a.phiMax, 360);
    var t3, t4 := TokenIf("tmin", a.thetaMin, 0), TokenIf("tmax", a.thetaMax, 180);
    var a1 := WholeSphere.(phiMin := a.phiMin);
    var a2 := a1.(phiMax := a.phiMax);
    var a3 := a2.(thetaMin := a.thetaMin);
    ReadOneToken("pmin", a.phiMin, 0, WholeSphere);
    ReadOneToken("pmax", a.phiMax, 360, a1);
    ReadOneToken("tmin", a.thetaMin, 0, a2);
    ReadOneToken("tmax", a.thetaMax, 180, a3);
    ReadTokensAppend(t1 + t2 + t3, t4, WholeSphere);
    ReadTokensAppend(t1 + t2, t3, WholeSphere);
    ReadTokensAppend(t1, t2, WholeSphere);
    assert ([""] + Tokens(a))[1..] == Tokens(a);
  }

  /** Different regions never share a cached concentration matrix. */
  lemma AngleSuffixInjective(a: Angles, b: Angles)
    requires AngleSuffix(a) == AngleSuffix(b)
    ensures a == b
  {
    AngleSuffixRoundTrip(a);
    AngleSuffixRoundTrip(b);
  }

  /** `os.path.join(location, "npy", "d_matrix", f"D_L-{L}{angles}.npy")`. */
  function DMatrixFile(location: string, L: nat, a: Angles): string {
    location + "/npy/d_matrix/D_L-" + NatToString(L) + AngleSuffix(a) + ".npy"
  }

  /** `eigen_vectors[:, idx]`: the columns taken in the order `idx`. */
  function PermuteColumns(m: seq<seq<Complex>>, idx: seq<nat>, w: nat): (r: seq<seq<Complex>>)
    requires Width(m, w) && forall p | 0 <= p < |idx| :: idx[p] < w
    ensures |r| == |m| && Width(r, |idx|)
    ensures forall k, p | 0 <= k < |m| && 0 <= p < |idx| :: r[k][p] == m[k][idx[p]]
  {
    seq(|m|, k requires 0 <= k < |m| => seq(|idx|, p requires 0 <= p < |idx| => m[k][idx[p]]))
  }

  /** The sorting and scaling of `eigen_problem`: the eigenvalues from the
      largest down, divided by the largest, and the eigenvector columns in
      the same order. `np.max` of no eigenvalues raises `ValueError`. */
  function SortEigenpairs(vals: seq<real>, vecs: seq<seq<Complex>>): (r: Result<(seq<real>, seq<seq<Complex>>)>)
    requires Width(vecs, |vals|)
    requires vals != [] ==> PlotMethods.Max(vals) != 0.0
    ensures r.Err? <==> vals == []
    ensures r.Err? ==> r.error == ValueError
    ensures r.Ok? ==>
      var idx := DescendingOrder(vals);
      && |r.value.0| == |vals| && |r.value.1| == |vecs| && Width(r.value.1, |vals|)
      && (forall p | 0 <= p < |vals| :: r.value.0[p] == vals[idx[p]] / PlotMethods.Max(vals))
      && (forall k, p | 0 <= k < |vecs| && 0 <= p < |vals| :: r.value.1[k][p] == vecs[k][idx[p]])
  {
    if vals == [] then Err(ValueError)
    else
      var idx := DescendingOrder(vals);
      Ok((PlotMethods.DivideEach(Reorder(vals, idx), PlotMethods.Max(vals)), PermuteColumns(vecs, idx, |vals|)))
  }

  /** The leading sorted eigenvalue is the largest one, so after scaling
      it is exactly one when the largest eigenvalue is positive. */
  lemma LeadingEigenvalueIsOne(vals: seq<real>, vecs: seq<seq<Complex>>)
    requires Width(vecs, |vals|) && vals != [] && PlotMethods.Max(vals) > 0.0
    ensures SortEigenpairs(vals, vecs).Ok?
    ensures SortEigenpairs(vals, vecs).value.0[0] == 1.0
  {
    var idx, top := DescendingOrder(vals), PlotMethods.Max(vals);
    var values := SortEigenpairs(vals, vecs).value.0;
    DescendingOrderSorts(vals);
    var q :| 0 <= q < |vals| && vals[q] == top;
    PermutationCovers(idx, |vals|, q);
    var p :| 0 <= p < |idx| && idx[p] == q;
    if p > 0 {
      assert vals[idx[0]] >= vals[idx[p]];
    }
    assert vals[idx[0]] == top;
    PlotMethods.DivideSelf(top);
  }

  /** The scaled eigenvalues never increase from one position to the next,
      and lie in [0, 1] when the eigenvalues are non-negative. */
  lemma ScaledEigenvaluesOrdered(vals: seq<real>, vecs: seq<seq<Complex>>, p: nat, q: nat)
    requires Width(vecs, |vals|) && vals != [] && PlotMethods.Max(vals) > 0.0
    requires p < q < |vals|
    ensures var values := SortEigenpairs(vals, vecs).value.0;
      values[p] >= values[q]
    ensures var values := SortEigenpairs(vals, vecs).value.0;
      (forall k | 0 <= k < |vals| :: vals[k] >= 0.0) ==> 0.0 <= values[q] <= 1.0
  {
    var idx, top := DescendingOrder(vals), PlotMethods.Max(vals);
    var values := SortEigenpairs(vals, vecs).value.0;
    DescendingOrderSorts(vals);
    assert vals[idx[p]] >= vals[idx[q]];
    PlotMethods.DivideMonotone(vals[idx[q]], vals[idx[p]], top);
    if forall k | 0 <= k < |vals| :: vals[k] >= 0.0 {
      PlotMethods.UnitInterval(vals[idx[q]], top);
    }
  }

  /** `x[k]` for a Python index `k`, negative indices counting from the end. */
  function PyIndex<T>(s: seq<T>, k: int): (r: Result<T>)
    ensures r.Ok? <==> -|s| <= k < |s|
    ensures r.Ok? ==> r.value == if k < 0 then s[|s| + k] else s[k]
    ensures r.Err? ==> r.error == IndexError
  {
    if k < -|s| || k >= |s| then Err(IndexError)
    else if k < 0 then Ok(s[|s| + k]) else Ok(s[k])
  }

  /** The coefficients `plot(rank)` draws, as written: row `rank - 1` of
      the eigenvector matrix, whose eigenvectors are its columns. */
  function PlotCoefficientsAsWritten(vectors: seq<seq<Complex>>, rank: int): (r: Result<seq<Complex>>)
    ensures r.Ok? <==> -|vectors| < rank <= |vectors|
  {
    PyIndex(vectors, rank - 1)
  }

  /** The coefficients `plot(rank)` is meant to draw: column `rank - 1`,
      the eigenvector of the `rank`-th largest eigenvalue. */
  function PlotCoefficients(vectors: seq<seq<Complex>>, w: nat, rank: int): (r: Result<seq<Complex>>)
    requires Width(vectors, w)
    ensures r.Ok? <==> -(w as int) < rank <= w
  {
    if rank - 1 < -(w as int) || rank - 1 >= w then Err(IndexError)
    else Ok(Column(vectors, if rank < 1 then w + rank - 1 else rank - 1))
  }

  /** A concrete eigenvector matrix for which the row drawn as written is
      not the eigenvector of the largest eigenvalue. */
  lemma RowIsNotTheEigenvector()
    ensures var m := [[Of(1.0), Of(1.0)], [Of(-1.0), Of(1.0)]];
      && PlotCoefficientsAsWritten(m, 1) == Ok([Of(1.0), Of(1.0)])
      && PlotCoefficients(m, 2, 1) == Ok([Of(1.0), Of(-1.0)])
  {
    var m := [[Of(1.0), Of(1.0)], [Of(-1.0), Of(1.0)]];
    assert Column(m, 0) == [Of(1.0), Of(-1.0)];
  }

  /** As intended, `plot(rank)` for `1 <= rank <= N` draws the eigenvector
      that belongs to the `rank`-th largest eigenvalue. */
  lemma PlotDrawsRankedEigenvector(vals: seq<real>, vecs: seq<seq<Complex>>, rank: int)
    requires Width(vecs, |vals|) && vals != [] && PlotMethods.Max(vals) != 0.0
    requires 1 <= rank <= |vals|
    ensures var sorted := SortEigenpairs(vals, vecs).value;
      var idx := DescendingOrder(vals);
      PlotCoefficients(sorted.1, |vals|, rank) == Ok(Column(vecs, idx[rank - 1]))
  {
    var sorted := SortEigenpairs(vals, vecs).value;
    SortedColumn(vals, vecs, rank - 1);
    assert PlotCoefficients(sorted.1, |vals|, rank) == Ok(Column(sorted.1, rank - 1));
  }

  /** Column `p` of the sorted eigenvectors is the eigenvector column the
      order puts at `p`. */
  lemma SortedColumn(vals: seq<real>, vecs: seq<seq<Complex>>, p: nat)
    requires Width(vecs, |vals|) && vals != [] && PlotMethods.Max(vals) != 0.0 && p < |vals|
    ensures var sorted := SortEigenpairs(vals, vecs).value;
      Column(sorted.1, p) == Column(vecs, DescendingOrder(vals)[p])
  {
    var sorted := SortEigenpairs(vals, vecs).value;
    var idx := DescendingOrder(vals);
    var drawn, expected := Column(sorted.1, p), Column(vecs, idx[p]);
    forall k | 0 <= k < |vecs| ensures drawn[k] == expected[k] {
      assert drawn[k] == sorted.1[k][p];
    }
  }

  /** The stand-in for `np.linalg.eigh`: `n` eigenvalues whose largest is
      not zero, and `n` eigenvector columns. */
  ghost predicate Shaped(eigh: Stored -> (seq<real>, seq<seq<Complex>>), n: nat) {
    forall d :: |eigh(d).0| == n && Width(eigh(d).1, n) && (n > 0 ==> PlotMethods.Max(eigh(d).0) != 0.0)
  }

  class SlepianFunctions {
    const L: nat
    const angles: Angles
    /** The quadrature over the region of `Y_i conj(Y_j) sin(theta)`:
        `scheme.integrate(f, quad)` for the integrand that reads `i`, `j`. */
    const integrate: (nat, nat) -> Complex
    /** The pair of harmonics the integrand reads. */
    var i: nat
    var j: nat
    var eigenValues: seq<real>
    var eigenVectors: seq<seq<Complex>>

    /** The number of harmonics below the band-limit. */
    function N(): nat { Sq(L) }

    /** The value `D_matrix` puts at row `r`, column `c`: the integral on
        and above the diagonal, its conjugate below. */
    function Entry(r: nat, c: nat): Complex {
      if r <= c then integrate(r, c) else Conj(integrate(c, r))
    }

    function DEntries(): (m: seq<seq<Complex>>)
      ensures |m| == N() && IsSquare(m)
      ensures forall r, c | 0 <= r < N() && 0 <= c < N() :: m[r][c] == Entry(r, c)
    {
      seq(N(), r requires 0 <= r < N() => seq(N(), c requires 0 <= c < N() => Entry(r, c)))
    }

    /** The matrix is Hermitian: each entry is the conjugate of its mirror. */
    lemma EntriesHermitian(r: nat, c: nat)
      requires r != c
      ensures Entry(c, r) == Conj(Entry(r, c))
    {
      ConjInvolutive(integrate(r, c));
      ConjInvolutive(integrate(c, r));
    }

    /** The integral of the pair the integrand currently reads. */
    function Integral(): Complex
      reads this`i, this`j
    {
      integrate(i, j)
    }

    /** The state before the eigen-problem is solved. */
    constructor (L: nat, angles: Angles, integrate: (nat, nat) -> Complex)
      ensures this.L == L && this.angles == angles && this.integrate == integrate
      ensures i == 0 && j == 0 && eigenValues == [] && eigenVectors == []
    {
      this.L := L;
      this.angles := angles;
      this.integrate := integrate;
      i, j := 0, 0;
      eigenValues, eigenVectors := [], [];
    }

    /** `D_integral(i, j)`: stores the pair, then integrates. */
    method DIntegral(i: nat, j: nat) returns (F: Complex)
      modifies this`i, this`j
      ensures this.i == i && this.j == j
      ensures F == Integral() && F == integrate(i, j)
    {
      this.i, this.j := i, j;
      F := integrate(this.i, this.j);
    }

    /** `D_matrix()`: the diagonal and upper triangle from the quadrature,
        each lower entry the conjugate of the same integral. The last pair
        integrated is the final diagonal entry. */
    method DMatrix() returns (D: array2<Complex>)
      modifies this`i, this`j
      ensures fresh(D) && D.Length0 == N() && D.Length1 == N()
      ensures forall r, c | 0 <= r < N() && 0 <= c < N() :: D[r, c] == Entry(r, c)
      ensures N() > 0 ==> i == N() - 1 && j == N() - 1
    {
      var n := N();
      D := new Complex[n, n]((_, _) => Zero);
      var a := 0;
      while a < n
        invariant 0 <= a <= n
        invariant forall r, c | 0 <= r < n && 0 <= c < n :: D[r, c] == if r < a || c < a then Entry(r, c) else Zero
        invariant a > 0 ==> i == a - 1 && j == n - 1
      {
        FillRow(D, a);
        a := a + 1;
      }
    }

    /** One pass of `D_matrix`'s outer loop: the diagonal entry at `a`,
        then the rest of row `a` with its mirror in column `a`. */
    method FillRow(D: array2<Complex>, a: nat)
      requires D.Length0 == N() && D.Length1 == N() && a < N()
      modifies D, this`i, this`j
      ensures forall r, c | 0 <= r < N() && 0 <= c < N() ::
        D[r, c] == if (r == a && a <= c) || (c == a && a <= r) then Entry(r, c) else old(D[r, c])
      ensures i == a && j == N() - 1
    {
      var n := N();
      var integral := DIntegral(a, a);
      D[a, a] := integral;
      var b := a + 1;
      while b < n
        invariant a + 1 <= b <= n
        invariant forall r, c | 0 <= r < n && 0 <= c < n ::
          D[r, c] == if (r == a && a <= c < b) || (c == a && a <= r < b) then Entry(r, c) else old(D[r, c])
        invariant i == a && j == b - 1
      {
        integral := DIntegral(a, b);
        D[a, b] := integral;
        D[b, a] := Conj(integral);
        b := b + 1;
      }
    }

    /** `eigen_problem()`: the file name first, which fails as written
        off the default longitude bound; then the concentration matrix from
        its cache file when there is one, otherwise computed and saved;
        then decomposed and sorted. */
    method EigenProblem(disk: Disk, location: string, eigh: Stored -> (seq<real>, seq<seq<Complex>>))
      returns (r: Result<(seq<real>, seq<seq<Complex>>)>)
      requires Shaped(eigh, N())
      modifies this`i, this`j, disk
      ensures FilenameAngleAsWritten(angles).Err? ==> r == Err(AttributeError) && disk.files == old(disk.files)
      ensures FilenameAngleAsWritten(angles).Ok? ==>
        var file := DMatrixFile(location, L, angles);
        var D := if file in old(disk.files) then old(disk.files)[file] else ComplexMatrix(DEntries());
        && disk.files == old(disk.files)[file := D]
        && r == SortEigenpairs(eigh(D).0, eigh(D).1)
    {
      var angle := FilenameAngle();
      if angle.Err? {
        return Err(angle.error);
      }
      var filename := location + "/npy/d_matrix/D_L-" + NatToString(L) + angle.value + ".npy";
      assert filename == DMatrixFile(location, L, angles);
      var D: Stored;
      if disk.Exists(filename) {
        D := disk.files[filename];
        assert disk.files == disk.files[filename := D];
      } else {
        var matrix := DMatrix();
        assert forall k | 0 <= k < N() :: Rows(matrix)[k] == DEntries()[k];
        assert Rows(matrix) == DEntries();
        D := ComplexMatrix(Rows(matrix));
        disk.Save(filename, D);
      }
      var (vals, vecs) := eigh(D);
      r := SortEigenpairs(vals, vecs);
    }

    /** `filename_angle()`, built up tag by tag. The longitude bound is
        read from the unassigned `phi_max_`, which fails whenever that tag
        is due; otherwise the name is the intended one. */
    method FilenameAngle() returns (r: Result<string>)
      ensures r == FilenameAngleAsWritten(angles)
      ensures r.Ok? ==> r.value == AngleSuffix(angles)
    {
      var filename := AppendTag("", "pmin", angles.phiMin, 0);
      assert filename == Tag("pmin", angles.phiMin, 0);
      if angles.phiMax != 360 {
        return Err(AttributeError);
      }
      filename := AppendTag(filename, "tmin", angles.thetaMin, 0);
      filename := AppendTag(filename, "tmax", angles.thetaMax, 180);
      r := Ok(filename);
    }
  }

  /** `SlepianFunctions(phi_min, phi_max, theta_min, theta_max, config)`:
      the construction fails when the eigen-problem does: with
      `AttributeError` off the default longitude bound, before anything is
      written, and at bandlimit 0 when the largest eigenvalue is taken. */
  method NewSlepianFunctions(L: nat, angles: Angles, integrate: (nat, nat) -> Complex,
                             disk: Disk, location: string, eigh: Stored -> (seq<real>, seq<seq<Complex>>))
    returns (r: Result<SlepianFunctions>)
    requires Shaped(eigh, Sq(L))
    modifies disk
    ensures r.Err? <==> L == 0 || angles.phiMax != 360
    ensures angles.phiMax != 360 ==> r == Err(AttributeError) && disk.files == old(disk.files)
    ensures angles.phiMax == 360 ==> DMatrixFile(location, L, angles) in disk.files
    ensures r.Ok? ==> fresh(r.value) && r.value.L == L && r.value.angles == angles
    ensures r.Ok? ==> var D := disk.files[DMatrixFile(location, L, angles)];
      SortEigenpairs(eigh(D).0, eigh(D).1) == Ok((r.value.eigenValues, r.value.eigenVectors))
  {
    var s := new SlepianFunctions(L, angles, integrate);
    var solved := s.EigenProblem(disk, location, eigh);
    if solved.Err? {
      assert Sq(L) == 0 || angles.phiMax != 360;
      return Err(solved.error);
    }
    s.eigenValues, s.eigenVectors := solved.value.0, solved.value.1;
    r := Ok(s);
  }
}
