/** What every wavelet class shares: the validation of the scale `j`
    against `j_max - j_min`, the choice of row `0` (the scaling function)
    or `j + 1` (the wavelet of scale `j`), and the count check on the
    extra arguments. `pys2let_j_max` is a parameter of the classes. */
module WaveletScales {
  import opened Errors
  import opened ComplexNumbers
  import opened EigenMethods
  import SlepianFunctionsLegacy
  import WaveletMethods

  /** The `j` validator: no scale, or a scale in `[0, j_max - j_min]`. */
  function CheckJ(j: Option<int>, jMax: int, jMin: int): (r: Result<Option<int>>)
    ensures r.Ok? <==> j.None? || 0 <= j.value <= jMax - jMin
    ensures r.Ok? ==> r.value == j
    ensures r.Err? ==> r.error == ValueError
  {
    if j.Some? && j.value < 0 then Err(ValueError)
    else if j.Some? && j.value > jMax - jMin then Err(ValueError)
    else Ok(j)
  }

  /** `jth = 0 if j is None else j + 1`. */
  function SelectedScale(j: Option<int>): int {
    if j.None? then 0 else j.value + 1
  }

  /** A validated scale `j` selects a row in `[1, j_max - j_min + 1]`, row 0
      exactly when there is no scale, and distinct scales select distinct
      rows. */
  lemma SelectedScaleInRange(j: Option<int>, j': Option<int>, jMax: int, jMin: int)
    requires CheckJ(j, jMax, jMin).Ok? && CheckJ(j', jMax, jMin).Ok?
    ensures j.Some? ==> 1 <= SelectedScale(j) <= jMax - jMin + 1
    ensures SelectedScale(j) == 0 <==> j.None?
    ensures SelectedScale(j) == SelectedScale(j') ==> j == j'
  {
  }

  /** `rows[jth]` with Python's indexing: a negative `jth` counts from the
      end, anything else out of range raises. */
  function SelectScale<T>(rows: seq<T>, j: Option<int>): (r: Result<T>)
    ensures r.Ok? <==> -|rows| <= SelectedScale(j) < |rows|
    ensures r.Err? ==> r.error == IndexError
  {
    SlepianFunctionsLegacy.PyIndex(rows, SelectedScale(j))
  }

  /** With one row for the scaling function and one per scale from `j_min`
      to `j_max`, every validated `j` selects its own row: the scaling
      function without a scale, the wavelet of scale `j` otherwise. */
  lemma ValidScaleSelects<T>(rows: seq<T>, j: Option<int>, jMax: int, jMin: int)
    requires CheckJ(j, jMax, jMin).Ok? && |rows| == jMax - jMin + 2 >= 1
    ensures SelectScale(rows, j).Ok?
    ensures j.None? ==> SelectScale(rows, j).value == rows[0]
    ensures j.Some? ==> SelectScale(rows, j).value == rows[j.value + 1]
  {
  }

  /** `_setup_args`' count check: extra arguments, when given as a list,
      must number exactly `count`. */
  function CheckArgCount(extraArgs: Option<seq<int>>, count: nat): (r: Result<()>)
    ensures r.Ok? <==> extraArgs.None? || |extraArgs.value| == count
    ensures r.Err? ==> r.error == ValueError
  {
    if extraArgs.Some? && |extraArgs.value| != count then Err(ValueError) else Ok(())
  }

  /** The scale fields every wavelet class has. */
  datatype ScaleArgs = ScaleArgs(B: int, jMin: int, j: Option<int>)

  /** `_setup_args` of a class whose `count` extra arguments start with
      `B, j_min` and end with `j`: the fields are assigned in that order
      and the `j` validator runs on the assignment of `j`, with `j_max`
      from the new `B` and `j_min` (`pys2let_j_max(B, size, j_min)`). A
      refused `j` leaves the new `B` and `j_min` in place. The arguments
      between (`spin`, `N`) are the class's own. */
  function SetupScaleArgs(extraArgs: Option<seq<int>>, count: nat, current: ScaleArgs,
                          jMaxOf: (int, int, int) -> int, size: int): (r: (ScaleArgs, Result<()>))
    requires 3 <= count
    ensures r.1.Ok? <==>
      extraArgs.None? || (|extraArgs.value| == count && CheckJ(Some(extraArgs.value[count - 1]), jMaxOf(extraArgs.value[0], size, extraArgs.value[1]), extraArgs.value[1]).Ok?)
    ensures r.1.Err? ==> r.1.error == ValueError
    ensures extraArgs.None? || |extraArgs.value| != count ==> r.0 == current
    ensures extraArgs.Some? && |extraArgs.value| == count ==>
      && r.0.B == extraArgs.value[0] && r.0.jMin == extraArgs.value[1]
      && r.0.j == if r.1.Ok? then Some(extraArgs.value[count - 1]) else current.j
    ensures r.1.Ok? && CheckJ(current.j, jMaxOf(current.B, size, current.jMin), current.jMin).Ok? ==>
      CheckJ(r.0.j, jMaxOf(r.0.B, size, r.0.jMin), r.0.jMin).Ok?
  {
    match extraArgs
    case None => (current, Ok(()))
    case Some(args) =>
      if |args| != count then (current, Err(ValueError))
      else
        var B, jMin := args[0], args[1];
        match CheckJ(Some(args[count - 1]), jMaxOf(B, size, jMin), jMin)
        case Ok(j) => (ScaleArgs(B, jMin, j), Ok(()))
        case Err(e) => (ScaleArgs(B, jMin, current.j), Err(e))
  }

  /** Kappas as complex rows, for the transforms on complex coefficients. */
  function AsComplex(rows: seq<seq<real>>): (c: seq<seq<Complex>>)
    ensures |c| == |rows|
    ensures forall r | 0 <= r < |rows| :: |c[r]| == |rows[r]| && forall k | 0 <= k < |rows[r]| :: c[r][k] == Of(rows[r][k])
  {
    seq(|rows|, r requires 0 <= r < |rows| => seq(|rows[r]|, k requires 0 <= k < |rows[r]| => Of(rows[r][k])))
  }

  /** When `axisym_wav_l` has one scale for each `j` from `j_min` to
      `j_max`, a validated `j` selects from `create_kappas` the scaling
      function, or the wavelet function of scale `j`. */
  lemma SelectsKappaOfScale(xlim: nat, B: int, jMin: int, j: Option<int>, jMax: int,
                            axisymWavL: (int, nat, int) -> (seq<real>, seq<seq<real>>))
    requires WaveletMethods.KappaShaped(axisymWavL(B, xlim, jMin), xlim)
    requires CheckJ(j, jMax, jMin).Ok? && WaveletMethods.Scales(axisymWavL(B, xlim, jMin).1) == jMax - jMin + 1
    ensures var (kappa0, kappa) := axisymWavL(B, xlim, jMin);
      SelectScale(WaveletMethods.CreateKappas(xlim, B, jMin, axisymWavL), j)
        == Ok(if j.None? then kappa0 else Column(kappa, j.value))
  {
    var kappas := WaveletMethods.CreateKappas(xlim, B, jMin, axisymWavL);
    ValidScaleSelects(kappas, j, jMax, jMin);
  }
}
