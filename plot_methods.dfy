/** The pure helpers of the plotting code: the upsampled resolution for a
    bandlimit, the plot type of a complex field, the closed mask that blanks
    the outside of a region, and the normalisation to [0, 1]. */
module PlotMethods {
  import opened ComplexNumbers
  import opened Errors

  function Pow2(k: nat): (p: nat)
    ensures p >= 1
  {
    if k == 0 then 1 else 2 * Pow2(k - 1)
  }

  /** The `{log_bandlimit: exponent}` table, in its insertion order. */
  const ResolutionTable: seq<(nat, nat)> := [(1, 6), (2, 5), (3, 4), (7, 3), (9, 2), (10, 1)]

  /** The first entry whose `2 ** log_bandlimit` exceeds `L` gives
      `L * 2 ** exponent`; with no such entry the result is `L`. */
  function FirstResolution(table: seq<(nat, nat)>, L: int): int {
    if table == [] then L
    else if Pow2(table[0].0) > L then L * Pow2(table[0].1)
    else FirstResolution(table[1..], L)
  }

  /** Whatever entry of a table with exponents of at most 6 is chosen,
      the result is `L` times a power of two up to `2 ** 6`. */
  lemma {:induction false} FirstResolutionScales(table: seq<(nat, nat)>, L: int)
    requires forall i | 0 <= i < |table| :: table[i].1 <= 6
    ensures exists e | 0 <= e <= 6 :: FirstResolution(table, L) == L * Pow2(e)
  {
    if table == [] {
      assert FirstResolution(table, L) == L * Pow2(0);
    } else if Pow2(table[0].0) > L {
      assert FirstResolution(table, L) == L * Pow2(table[0].1);
    } else {
      FirstResolutionScales(table[1..], L);
    }
  }

  /** `calc_plot_resolution`: the bandlimit times a power of two up to
      `2 ** 6`, and the bandlimit itself from 1024 on, where no entry of the
      table applies. */
  function CalcPlotResolution(L: int): (r: int)
    ensures exists e | 0 <= e <= 6 :: r == L * Pow2(e)
    ensures L >= 1024 ==> r == L
  {
    FirstResolutionScales(ResolutionTable, L);
    LargeBandlimitUnscaled(ResolutionTable, L);
    FirstResolution(ResolutionTable, L)
  }

  /** An entry applies only when `2 ** log_bandlimit` exceeds `L`, which the
      table's largest `2 ** 10` does not from 1024 on. */
  lemma {:induction false} LargeBandlimitUnscaled(table: seq<(nat, nat)>, L: int)
    requires forall i | 0 <= i < |table| :: table[i].0 <= 10
    ensures L >= 1024 ==> FirstResolution(table, L) == L
  {
    if table != [] && L >= 1024 {
      Pow2Monotone(table[0].0, 10);
      assert Pow2(10) == 1024 by { TableValues(); }
      LargeBandlimitUnscaled(table[1..], L);
    }
  }

  lemma {:induction false} Pow2Monotone(a: nat, b: nat)
    requires a <= b
    ensures Pow2(a) <= Pow2(b)
  {
    if a < b {
      Pow2Monotone(a, b - 1);
    }
  }

  lemma TableValues()
    ensures Pow2(1) == 2 && Pow2(2) == 4 && Pow2(3) == 8 && Pow2(4) == 16
    ensures Pow2(5) == 32 && Pow2(6) == 64 && Pow2(7) == 128
    ensures Pow2(9) == 512 && Pow2(10) == 1024
  {
    assert Pow2(0) == 1;
    assert Pow2(8) == 256 by { assert Pow2(7) == 128; }
  }

  /** The table read as ranges of `L`. */
  lemma ResolutionCases(L: int)
    ensures L < 2 ==> CalcPlotResolution(L) == L * 64
    ensures 2 <= L < 4 ==> CalcPlotResolution(L) == L * 32
    ensures 4 <= L < 8 ==> CalcPlotResolution(L) == L * 16
    ensures 8 <= L < 128 ==> CalcPlotResolution(L) == L * 8
    ensures 128 <= L < 512 ==> CalcPlotResolution(L) == L * 4
    ensures 512 <= L < 1024 ==> CalcPlotResolution(L) == L * 2
    ensures 1024 <= L ==> CalcPlotResolution(L) == L
  {
    TableValues();
    var t := ResolutionTable;
    assert t[0] == (1, 6) && t[1..][0] == (2, 5) && t[2..][0] == (3, 4);
    assert t[3..][0] == (7, 3) && t[4..][0] == (9, 2) && t[5..][0] == (10, 1);
    assert t[1..][1..] == t[2..] && t[2..][1..] == t[3..] && t[3..][1..] == t[4..];
    assert t[4..][1..] == t[5..] && t[5..][1..] == t[6..] && |t[6..]| == 0;
    assert FirstResolution(t, L) == if L < 2 then L * 64 else FirstResolution(t[1..], L);
    assert FirstResolution(t[1..], L) == if L < 4 then L * 32 else FirstResolution(t[2..], L);
    assert FirstResolution(t[2..], L) == if L < 8 then L * 16 else FirstResolution(t[3..], L);
    assert FirstResolution(t[3..], L) == if L < 128 then L * 8 else FirstResolution(t[4..], L);
    assert FirstResolution(t[4..], L) == if L < 512 then L * 4 else FirstResolution(t[5..], L);
    assert FirstResolution(t[5..], L) == if L < 1024 then L * 2 else FirstResolution(t[6..], L);
  }

  /** Large bandlimits are not upsampled; any other positive bandlimit is
      multiplied by a power of two, at least doubled, and gives at least 64. */
  lemma ResolutionBounds(L: int)
    ensures L >= 1024 ==> CalcPlotResolution(L) == L
    ensures 1 <= L < 1024 ==>
      var r := CalcPlotResolution(L);
      (exists e | 1 <= e <= 6 :: r == L * Pow2(e)) && r >= 2 * L && r >= 64
  {
    ResolutionCases(L);
    TableValues();
    if 1 <= L < 1024 {
      var e := if L < 2 then 6 else if L < 4 then 5 else if L < 8 then 4 else if L < 128 then 3 else if L < 512 then 2 else 1;
      assert CalcPlotResolution(L) == L * Pow2(e);
    }
  }

  /** The resolution is not monotone in the bandlimit: 3 is plotted at 96,
      4 at only 64. */
  lemma ResolutionNotMonotone()
    ensures CalcPlotResolution(3) == 96 && CalcPlotResolution(4) == 64
  {
    ResolutionCases(3);
    ResolutionCases(4);
    TableValues();
  }

  /** `_create_plot_type`: the keys of the plot dictionary. `abs` is the
      modulus, computed outside this model. */
  function CreatePlotType(field: seq<Complex>, plotType: string, modulus: Complex -> real): (r: Result<seq<real>>)
    ensures r.Ok? <==> plotType in {"abs", "imag", "real", "sum"}
    ensures r.Err? ==> r.error == KeyError
    ensures r.Ok? ==> |r.value| == |field|
    ensures plotType == "sum" ==> forall k | 0 <= k < |field| :: r.value[k] == field[k].re + field[k].im
    ensures plotType == "real" ==> forall k | 0 <= k < |field| :: r.value[k] == field[k].re
    ensures plotType == "imag" ==> forall k | 0 <= k < |field| :: r.value[k] == field[k].im
    ensures plotType == "abs" ==> forall k | 0 <= k < |field| :: r.value[k] == modulus(field[k])
  {
    if plotType == "abs" then Ok(seq(|field|, k requires 0 <= k < |field| => modulus(field[k])))
    else if plotType == "imag" then Ok(seq(|field|, k requires 0 <= k < |field| => field[k].im))
    else if plotType == "real" then Ok(seq(|field|, k requires 0 <= k < |field| => field[k].re))
    else if plotType == "sum" then Ok(seq(|field|, k requires 0 <= k < |field| => field[k].re + field[k].im))
    else Err(KeyError)
  }

  /** On a real field the `sum` plot is the `real` plot. */
  lemma SumOfRealFieldIsReal(field: seq<Complex>, modulus: Complex -> real)
    requires forall k | 0 <= k < |field| :: IsReal(field[k])
    ensures CreatePlotType(field, "sum", modulus) == CreatePlotType(field, "real", modulus)
  {
    var s, r := CreatePlotType(field, "sum", modulus).value, CreatePlotType(field, "real", modulus).value;
    assert s == r;
  }

  predicate Rectangular<T>(grid: seq<seq<T>>, width: nat) {
    forall r | 0 <= r < |grid| :: |grid[r]| == width
  }

  /** `np.insert(mask, n_phi, mask[:, 0], axis=1)`: every row gains a copy of
      its first entry at its end, which closes the plot in longitude. */
  function CloseMask(mask: seq<seq<bool>>, nPhi: nat): (closed: seq<seq<bool>>)
    requires 1 <= nPhi && Rectangular(mask, nPhi)
    ensures |closed| == |mask| && Rectangular(closed, nPhi + 1)
    ensures forall r | 0 <= r < |mask| :: closed[r][..nPhi] == mask[r] && closed[r][nPhi] == mask[r][0]
  {
    seq(|mask|, r requires 0 <= r < |mask| => mask[r] + [mask[r][0]])
  }

  /** `_set_outside_region_to_minimum`: `f_plot` on the closed mask and
      `unseen` off it. The mask is `create_mask_region(L, region)`. */
  function SetOutsideRegionToMinimum(fPlot: seq<seq<real>>, mask: seq<seq<bool>>, nPhi: nat, unseen: real): (r: seq<seq<real>>)
    requires 1 <= nPhi && Rectangular(mask, nPhi)
    requires |fPlot| == |mask| && Rectangular(fPlot, nPhi + 1)
    ensures |r| == |fPlot| && Rectangular(r, nPhi + 1)
    ensures forall i, j | 0 <= i < |r| && 0 <= j < nPhi ::
      r[i][j] == if mask[i][j] then fPlot[i][j] else unseen
    ensures forall i | 0 <= i < |r| :: r[i][nPhi] == if mask[i][0] then fPlot[i][nPhi] else unseen
  {
    var closed := CloseMask(mask, nPhi);
    seq(|fPlot|, i requires 0 <= i < |fPlot| =>
      seq(nPhi + 1, j requires 0 <= j < nPhi + 1 => if closed[i][j] then fPlot[i][j] else unseen))
  }

  /** The closing column of the blanked plot agrees with its first column
      wherever the plotted function does. */
  lemma ClosedPlotWraps(fPlot: seq<seq<real>>, mask: seq<seq<bool>>, nPhi: nat, unseen: real, i: nat)
    requires 1 <= nPhi && Rectangular(mask, nPhi)
    requires |fPlot| == |mask| && Rectangular(fPlot, nPhi + 1)
    requires i < |fPlot| && fPlot[i][nPhi] == fPlot[i][0]
    ensures var r := SetOutsideRegionToMinimum(fPlot, mask, nPhi, unseen); r[i][nPhi] == r[i][0]
  {
  }

  function Max(s: seq<real>): (m: real)
    requires s != []
    ensures m in s && forall k | 0 <= k < |s| :: s[k] <= m
  {
    if |s| == 1 then s[0]
    else var rest := Max(s[1..]); if s[0] >= rest then s[0] else rest
  }

  function Min(s: seq<real>): (m: real)
    requires s != []
    ensures m in s && forall k | 0 <= k < |s| :: m <= s[k]
  {
    if |s| == 1 then s[0]
    else var rest := Min(s[1..]); if s[0] <= rest then s[0] else rest
  }

  predicate AllEqual(f: seq<real>, x: real) {
    forall k | 0 <= k < |f| :: f[k] == x
  }

  function AddEach(f: seq<real>, c: real): (r: seq<real>)
    ensures |r| == |f| && forall k | 0 <= k < |f| :: r[k] == f[k] + c
  {
    seq(|f|, k requires 0 <= k < |f| => f[k] + c)
  }

  function DivideEach(f: seq<real>, d: real): (r: seq<real>)
    requires d != 0.0
    ensures |r| == |f| && forall k | 0 <= k < |f| :: r[k] == f[k] / d
  {
    seq(|f|, k requires 0 <= k < |f| => f[k] / d)
  }

  function RescaleEach(f: seq<real>, lo: real, hi: real): (r: seq<real>)
    requires lo < hi
    ensures |r| == |f| && forall k | 0 <= k < |f| :: r[k] == (f[k] - lo) / (hi - lo)
  {
    seq(|f|, k requires 0 <= k < |f| => (f[k] - lo) / (hi - lo))
  }

  /** `_normalise_function`; `np.allclose(f, f.max())` is read as exact
      equality with the maximum. */
  function NormaliseFunction(f: seq<real>, normalise: bool): (r: seq<real>)
    ensures |r| == |f|
    ensures !normalise ==> r == f
  {
    if !normalise then f
    else if AllEqual(f, 0.0) then AddEach(f, 0.5)
    else
      var hi := Max(f);
      if AllEqual(f, hi) then DivideEach(f, hi)
      else
        RescaleEach(f, Min(f), hi)
  }

  /** An all-zero function (the empty one included) becomes 0.5 everywhere. */
  lemma NormaliseAllZero(f: seq<real>)
    requires AllEqual(f, 0.0)
    ensures AllEqual(NormaliseFunction(f, true), 0.5)
  {
  }

  /** A constant nonzero function becomes 1 everywhere. */
  lemma NormaliseConstant(f: seq<real>)
    requires f != [] && !AllEqual(f, 0.0) && AllEqual(f, Max(f))
    ensures AllEqual(NormaliseFunction(f, true), 1.0)
  {
    var hi := Max(f);
    assert hi != 0.0;
    var r := DivideEach(f, hi);
    assert NormaliseFunction(f, true) == r;
    forall k | 0 <= k < |f| ensures r[k] == 1.0 {
      assert r[k] == f[k] / hi && f[k] == hi;
      DivideSelf(hi);
    }
  }

  lemma DivideSelf(x: real)
    requires x != 0.0
    ensures x / x == 1.0
  {
  }

  /** Outside those two cases the minimum is strictly below the maximum and
      the function is `(f - min) / (max - min)`. */
  lemma NormaliseScaled(f: seq<real>)
    requires f != [] && !AllEqual(f, Max(f))
    ensures Min(f) < Max(f)
    ensures NormaliseFunction(f, true) == RescaleEach(f, Min(f), Max(f))
  {
    var hi := Max(f);
    var a := NotAllEqualWitness(f, hi);
    var m :| 0 <= m < |f| && f[m] == hi;
    assert !AllEqual(f, 0.0) by {
      assert f[m] != f[a];
    }
    assert Min(f) <= f[a] < hi;
    var r, lo := NormaliseFunction(f, true), Min(f);
    assert r == RescaleEach(f, lo, hi);
  }

  /** An index where a function that is not everywhere `x` differs from it. */
  lemma NotAllEqualWitness(f: seq<real>, x: real) returns (a: nat)
    requires !AllEqual(f, x)
    ensures a < |f| && f[a] != x
  {
    a :| 0 <= a < |f| && f[a] != x;
  }

  /** Values within [lo, hi] rescale into [0, 1], the ends onto the ends. */
  lemma RescaleBounds(f: seq<real>, lo: real, hi: real)
    requires lo < hi && forall k | 0 <= k < |f| :: lo <= f[k] <= hi
    ensures var r := RescaleEach(f, lo, hi);
      forall k | 0 <= k < |f| :: 0.0 <= r[k] <= 1.0 && (f[k] == lo ==> r[k] == 0.0) && (f[k] == hi ==> r[k] == 1.0)
  {
    var r := RescaleEach(f, lo, hi);
    forall k | 0 <= k < |f| ensures 0.0 <= r[k] <= 1.0 && (f[k] == lo ==> r[k] == 0.0) && (f[k] == hi ==> r[k] == 1.0) {
      UnitInterval(f[k] - lo, hi - lo);
      assert r[k] == (f[k] - lo) / (hi - lo);
      if f[k] == lo {
        assert f[k] - lo == 0.0;
      }
      if f[k] == hi {
        assert f[k] - lo == hi - lo;
        DivideSelf(hi - lo);
      }
    }
  }

  lemma UnitInterval(x: real, d: real)
    requires 0.0 <= x <= d && d > 0.0
    ensures 0.0 <= x / d <= 1.0
  {
  }

  /** A non-constant function is mapped onto [0, 1], reaching both ends. */
  lemma NormaliseRange(f: seq<real>)
    requires f != [] && !AllEqual(f, Max(f))
    ensures var r := NormaliseFunction(f, true);
      (forall k | 0 <= k < |f| :: 0.0 <= r[k] <= 1.0) &&
      (exists k | 0 <= k < |f| :: r[k] == 0.0) && (exists k | 0 <= k < |f| :: r[k] == 1.0)
  {
    NormaliseScaled(f);
    var lo, hi := Min(f), Max(f);
    RescaleBounds(f, lo, hi);
    var kmin :| 0 <= kmin < |f| && f[kmin] == lo;
    var kmax :| 0 <= kmax < |f| && f[kmax] == hi;
  }

  lemma RescaleMonotone(f: seq<real>, lo: real, hi: real, a: nat, b: nat)
    requires lo < hi && a < |f| && b < |f| && f[a] <= f[b]
    ensures RescaleEach(f, lo, hi)[a] <= RescaleEach(f, lo, hi)[b]
  {
    DivideMonotone(f[a] - lo, f[b] - lo, hi - lo);
  }

  lemma DivideMonotone(x: real, y: real, d: real)
    requires x <= y && d > 0.0
    ensures x / d <= y / d
  {
  }

  /** Normalisation keeps the order of the values. */
  lemma NormaliseMonotone(f: seq<real>, a: nat, b: nat)
    requires a < |f| && b < |f| && f[a] <= f[b]
    ensures NormaliseFunction(f, true)[a] <= NormaliseFunction(f, true)[b]
  {
    if !AllEqual(f, 0.0) && !AllEqual(f, Max(f)) {
      NormaliseScaled(f);
      RescaleMonotone(f, Min(f), Max(f), a, b);
    } else if !AllEqual(f, 0.0) {
      NormaliseConstant(f);
    }
  }
}
