/** The directional spin wavelets of `wavelet_tiling(B, L, N, j_min,
    spin)`: row 0 holds the scaling function in the order-0 coefficients,
    the rows after it the directional wavelets of each scale. The
    coefficients are the row `0` or `j + 1`; they are real exactly when
    there is no scale or the spin is 0, and their spin is `spin`. */
module DirectionalSpinWavelets {
  import opened ComplexNumbers
  import opened Errors
  import opened HarmonicIndex
  import opened EigenMethods
  import opened WaveletScales
  import ArrayMethods

  /** The number of columns of a matrix given by its rows. */
  function Columns<T>(m: seq<seq<T>>): nat {
    if m == [] then 0 else |m[0]|
  }

  /** What `wavelet_tiling` returns at bandlimit `L`: the scaling function
      `phi_l` over the degrees and `psi_lm`, one column per wavelet. */
  predicate TilingShaped(t: (seq<real>, seq<seq<Complex>>), L: nat) {
    |t.0| == L && |t.1| == Sq(L) && Width(t.1, Columns(t.1))
  }

  /** The entry `_create_wavelets` leaves at `[r, ind]`: `phi_l[ell]` in
      the order-0 coefficients of row 0 and zero elsewhere in it, and
      `psi_lm.T` in the other rows. */
  function WaveletEntry(L: nat, phi: seq<real>, psi: seq<seq<Complex>>, r: nat, ind: nat): Complex
    requires TilingShaped((phi, psi), L) && r <= Columns(psi) && ind < Sq(L)
  {
    if r == 0 then
      BelowBandlimit(L, ind);
      if M(ind) == 0 then Of(phi[Ell(ind)]) else Zero
    else psi[ind][r - 1]
  }

  /** `w[r] = row`, one row of a two-dimensional array. */
  method SetRow(w: array2<Complex>, r: nat, row: seq<Complex>)
    requires r < w.Length0 && |row| == w.Length1
    modifies w
    ensures forall q, k | 0 <= q < w.Length0 && 0 <= k < w.Length1 ::
      w[q, k] == if q == r then row[k] else old(w[q, k])
  {
    var k := 0;
    while k < w.Length1
      invariant 0 <= k <= w.Length1
      invariant forall q, c | 0 <= q < w.Length0 && 0 <= c < w.Length1 ::
        w[q, c] == if q == r && c < k then row[c] else old(w[q, c])
    {
      w[r, k] := row[k];
      k := k + 1;
    }
  }

  /** The first loop of `_create_wavelets`: `phi_l[ell]` at `ind(ell, 0)`
      of row 0 for each degree, into an array of zeros. */
  method ScalingRow(w: array2<Complex>, L: nat, phi: seq<real>)
    requires 1 <= w.Length0 && w.Length1 == Sq(L) && |phi| == L
    requires forall r, k | 0 <= r < w.Length0 && 0 <= k < Sq(L) :: w[r, k] == Zero
    modifies w
    ensures forall r, k | 0 <= r < w.Length0 && 0 <= k < Sq(L) ::
      w[r, k] == if r == 0 && M(k) == 0 && Ell(k) < L then Of(phi[Ell(k)]) else Zero
  {
    var ell: nat := 0;
    while ell < L
      invariant ell <= L
      invariant forall r, k | 0 <= r < w.Length0 && 0 <= k < Sq(L) ::
        w[r, k] == if r == 0 && M(k) == 0 && Ell(k) < ell then Of(phi[Ell(k)]) else Zero
    {
      ScalingDegree(w, L, phi, ell);
      ell := ell + 1;
    }
  }

  /** One pass of that loop: `phi_l[ell]` at `ind(ell, 0)` of row 0. */
  method ScalingDegree(w: array2<Complex>, L: nat, phi: seq<real>, ell: nat)
    requires 1 <= w.Length0 && w.Length1 == Sq(L) && |phi| == L && ell < L
    requires forall r, k | 0 <= r < w.Length0 && 0 <= k < Sq(L) ::
      w[r, k] == if r == 0 && M(k) == 0 && Ell(k) < ell then Of(phi[Ell(k)]) else Zero
    modifies w
    ensures forall r, k | 0 <= r < w.Length0 && 0 <= k < Sq(L) ::
      w[r, k] == if r == 0 && M(k) == 0 && Ell(k) < ell + 1 then Of(phi[Ell(k)]) else Zero
  {
    SqMonotone(ell + 1, L);
    var ind := Ind(ell, 0);
    IndRoundTrip(ell, 0);
    w[0, ind] := Of(phi[ell]);
  }

  /** `_create_wavelets`: `psi_lm.shape[1] + 1` rows of `L^2` zeros, then
      `phi_l[ell]` at `ind(ell, 0)` of row 0 for each degree, then
      `psi_lm.T` into the rows after it. */
  method CreateWavelets(L: nat, phi: seq<real>, psi: seq<seq<Complex>>) returns (w: array2<Complex>)
    requires TilingShaped((phi, psi), L)
    ensures fresh(w) && w.Length0 == Columns(psi) + 1 && w.Length1 == Sq(L)
    ensures forall r, ind | 0 <= r < w.Length0 && 0 <= ind < Sq(L) :: w[r, ind] == WaveletEntry(L, phi, psi, r, ind)
  {
    var S := Columns(psi);
    w := new Complex[S + 1, Sq(L)]((_, _) => Zero);
    ScalingRow(w, L, phi);
    forall k | 0 <= k < Sq(L) ensures Ell(k) < L {
      BelowBandlimit(L, k);
    }
    var r := 1;
    while r < S + 1
      invariant 1 <= r <= S + 1
      invariant forall q, k | 0 <= q < S + 1 && 0 <= k < Sq(L) ::
        w[q, k] == if q < r then WaveletEntry(L, phi, psi, q, k) else Zero
    {
      SetRow(w, r, Column(psi, r - 1));
      r := r + 1;
    }
  }

  /** The scaling function row is real: the `j is None` case of `reality`
      describes the coefficients it selects. */
  lemma ScalingRowIsReal(L: nat, phi: seq<real>, psi: seq<seq<Complex>>, ind: nat)
    requires TilingShaped((phi, psi), L) && ind < Sq(L)
    ensures WaveletEntry(L, phi, psi, 0, ind).im == 0.0
  {
  }

  /** The keyword defaults. */
  const DefaultB := 3
  const DefaultJMin := 2
  const DefaultN := 2
  const DefaultSpin := 0

  class DirectionalSpinWavelets {
    const L: nat
    var B: int
    var jMin: int
    var j: Option<int>
    var N: int
    var spin: int
    var wavelets: seq<seq<Complex>>

    /** The `j` validator, with `j_max = pys2let_j_max(B, L, j_min)`. */
    predicate ValidJ(jMaxOf: (int, int, int) -> int)
      reads this
    {
      CheckJ(j, jMaxOf(B, L, jMin), jMin).Ok?
    }

    /** `_set_reality`. */
    predicate Reality()
      reads this
    {
      j.None? || spin == 0
    }

    /** The keyword fields as given, with no scale. An omitted keyword is
        its default: `DefaultB`, `DefaultJMin`, `DefaultN`, `DefaultSpin`. */
    constructor (L: nat, B: int, jMin: int, N: int, spin: int)
      ensures this.L == L && this.B == B && this.jMin == jMin && j == None && this.N == N && this.spin == spin
      ensures wavelets == []
    {
      this.L := L;
      this.B, this.jMin, this.j, this.N, this.spin := B, jMin, None, N, spin;
      wavelets := [];
    }

    /** Construction with every keyword, `j` included: the `j` validator
        runs on the given `B`, `L` and `j_min`, and a refused `j` is
        `ValueError`. */
    static method New(L: nat, B: int, jMin: int, j: Option<int>, N: int, spin: int,
                      jMaxOf: (int, int, int) -> int) returns (r: Result<DirectionalSpinWavelets>)
      ensures r.Ok? <==> CheckJ(j, jMaxOf(B, L, jMin), jMin).Ok?
      ensures r.Err? ==> r.error == ValueError
      ensures r.Ok? ==> fresh(r.value) && r.value.L == L && r.value.B == B && r.value.jMin == jMin
      ensures r.Ok? ==> r.value.j == j && r.value.N == N && r.value.spin == spin && r.value.wavelets == []
      ensures r.Ok? ==> r.value.ValidJ(jMaxOf)
    {
      var checked := CheckJ(j, jMaxOf(B, L, jMin), jMin);
      if checked.Err? {
        return Err(checked.error);
      }
      var x := new DirectionalSpinWavelets(L, B, jMin, N, spin);
      x.j := j;
      r := Ok(x);
    }

    /** `_setup_args`: five extra arguments `B, j_min, spin, N, j`,
        assigned in that order, the last one validated on assignment. */
    method SetupArgs(extraArgs: Option<seq<int>>, jMaxOf: (int, int, int) -> int) returns (r: Result<()>)
      modifies this
      ensures (ScaleArgs(B, jMin, j), r) == SetupScaleArgs(extraArgs, 5, old(ScaleArgs(B, jMin, j)), jMaxOf, L)
      ensures extraArgs.Some? && |extraArgs.value| == 5 ==> spin == extraArgs.value[2] && N == extraArgs.value[3]
      ensures extraArgs.None? || |extraArgs.value| != 5 ==> spin == old(spin) && N == old(N)
      ensures wavelets == old(wavelets)
      ensures old(ValidJ(jMaxOf)) && r.Ok? ==> ValidJ(jMaxOf)
    {
      var (s, res) := SetupScaleArgs(extraArgs, 5, ScaleArgs(B, jMin, j), jMaxOf, L);
      if extraArgs.Some? && |extraArgs.value| == 5 {
        spin, N := extraArgs.value[2], extraArgs.value[3];
      }
      B, jMin, j := s.B, s.jMin, s.j;
      r := res;
    }

    /** `_create_coefficients`: the wavelets from the tiling (a parameter
        taking `B, L, N, j_min, spin`) and their row `0` or `j + 1`. */
    method CreateCoefficients(tiling: (int, nat, int, int, int) -> (seq<real>, seq<seq<Complex>>))
      returns (r: Result<seq<Complex>>)
      requires TilingShaped(tiling(B, L, N, jMin, spin), L)
      modifies this`wavelets
      ensures var (phi, psi) := tiling(B, L, N, jMin, spin);
        && |wavelets| == Columns(psi) + 1 && Width(wavelets, Sq(L))
        && forall q, ind | 0 <= q < |wavelets| && 0 <= ind < Sq(L) :: wavelets[q][ind] == WaveletEntry(L, phi, psi, q, ind)
      ensures r == SelectScale(wavelets, j)
    {
      var (phi, psi) := tiling(B, L, N, jMin, spin);
      var w := CreateWavelets(L, phi, psi);
      wavelets := ArrayMethods.Rows(w);
      r := SelectScale(wavelets, j);
    }
  }
}
