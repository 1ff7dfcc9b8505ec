/** The base class of functions on the sphere in the earlier package: its
    property setters (default substitution, masking of the multipole), the
    hook order of a new object, the region suffix of its name, noise,
    convolution and translation. */
module LegacyFunctions {
  import opened ComplexNumbers
  import opened Errors
  import opened Strings
  import PlotMethods

  /** The sifting convolution `flm * glm.conj()`. */
  function SiftingConvolution(flm: seq<Complex>, glm: seq<Complex>): (h: seq<Complex>)
    requires |flm| == |glm|
    ensures |h| == |flm|
  {
    seq(|flm|, k requires 0 <= k < |flm| => Mul(flm[k], Conj(glm[k])))
  }

  /** Convolving with a kernel of real ones gives the function back. */
  lemma ConvolveWithOnes(flm: seq<Complex>, glm: seq<Complex>)
    requires |flm| == |glm| && forall k | 0 <= k < |glm| :: glm[k] == One
    ensures SiftingConvolution(flm, glm) == flm
  {
    var h := SiftingConvolution(flm, glm);
    forall k | 0 <= k < |flm| ensures h[k] == flm[k] {
      MulByOne(flm[k]);
    }
  }

  /** For real coefficients the convolution is symmetric in its arguments. */
  lemma ConvolveRealSymmetric(flm: seq<Complex>, glm: seq<Complex>)
    requires |flm| == |glm|
    requires forall k | 0 <= k < |flm| :: IsReal(flm[k]) && IsReal(glm[k])
    ensures SiftingConvolution(flm, glm) == SiftingConvolution(glm, flm)
  {
    var h, g := SiftingConvolution(flm, glm), SiftingConvolution(glm, flm);
    forall k | 0 <= k < |flm| ensures h[k] == g[k] {
      assert Conj(glm[k]) == glm[k] && Conj(flm[k]) == flm[k];
      MulCommutes(flm[k], glm[k]);
    }
  }

  /** The multipole setter masks when a region is set and the name contains
      neither `slepian` nor `south_america`. */
  predicate MasksMultipole(regionEnding: Option<string>, name: string) {
    regionEnding.Some? && !Contains(name, "slepian") && !Contains(name, "south_america")
  }

  /** `_add_region_to_name` appends the region when one is set and the name
      does not contain `slepian`. */
  predicate NamesRegion(regionEnding: Option<string>, name: string) {
    regionEnding.Some? && !Contains(name, "slepian")
  }

  /** Every masked multipole is named after its region, but a South America
      function is named after the region without being masked. */
  lemma MaskingAndNaming(regionEnding: Option<string>, name: string)
    ensures MasksMultipole(regionEnding, name) ==> NamesRegion(regionEnding, name)
    ensures regionEnding.Some? ==>
      NamesRegion(regionEnding, "south_america") && !MasksMultipole(regionEnding, "south_america")
  {
    var s := "south_america";
    ContainsItself(s);
    forall k | 0 <= k <= |s| - 7 ensures !OccursAt(s, "slepian", k) {
      assert s[k..k + 7][1] == s[k + 1] && "slepian"[1] == 'l';
    }
  }

  datatype Hook = SetResolution | SetupArgs | CreateName | CreateAnnotations | SetSpin | SetReality
                | CreateFlm | AddRegionToName | AddNoiseToSignal

  const InitialisationOrder: seq<Hook> :=
    [SetResolution, SetupArgs, CreateName, CreateAnnotations, SetSpin, SetReality, CreateFlm, AddRegionToName, AddNoiseToSignal]

  /** The results of a concrete function's abstract hooks. */
  datatype Concrete = Concrete(name: string, spin: int, reality: bool, flm: seq<Complex>)

  class Functions {
    var L: int
    var extraArgs: Option<seq<int>>
    var regionEnding: Option<string>
    var noise: bool
    var resolution: int
    var name: string
    var spin: int
    var reality: bool
    var multipole: seq<Complex>
    ghost var hooks: seq<Hook>

    /** The dataclass initialiser runs the setters of `L`, `extra_args`,
        `region` and `noise`, then `__post_init__` runs the hooks. The noise
        field `nlm` and the masking are parameters. */
    constructor (L: int, extraArgs: SetterArg<Option<seq<int>>>, region: SetterArg<Option<string>>,
                 noise: SetterArg<bool>, concrete: Concrete,
                 ensureMasked: seq<Complex> -> seq<Complex>, nlm: seq<Complex>)
      requires KeepsLength(ensureMasked)
      requires noise.OrDefault(false) ==> |nlm| == |concrete.flm|
      ensures hooks == InitialisationOrder
      ensures this.L == L && this.extraArgs == extraArgs.OrDefault(None)
      ensures regionEnding == region.OrDefault(None) && this.noise == noise.OrDefault(false)
      ensures resolution == PlotMethods.CalcPlotResolution(L)
      ensures spin == concrete.spin && reality == concrete.reality
      ensures name == concrete.name + if NamesRegion(regionEnding, concrete.name) then "_" + regionEnding.value else ""
      ensures var masked := if MasksMultipole(regionEnding, concrete.name) then ensureMasked(concrete.flm) else concrete.flm;
        multipole == if this.noise then Masked(regionEnding, name, AddNoiseField(masked, nlm), ensureMasked) else masked
    {
      this.L := L;
      this.extraArgs := extraArgs.OrDefault(None);
      this.regionEnding := region.OrDefault(None);
      this.noise := noise.OrDefault(false);
      resolution := PlotMethods.CalcPlotResolution(L);
      hooks := [SetResolution, SetupArgs];
      name := concrete.name;
      hooks := hooks + [CreateName, CreateAnnotations];
      spin := concrete.spin;
      hooks := hooks + [SetSpin];
      reality := concrete.reality;
      hooks := hooks + [SetReality];
      multipole := Masked(region.OrDefault(None), concrete.name, concrete.flm, ensureMasked);
      hooks := hooks + [CreateFlm];
      new;
      AddRegion();
      AddNoise(nlm, ensureMasked);
    }

    /** The `extra_args` setter. */
    method SetExtraArgs(arg: SetterArg<Option<seq<int>>>)
      modifies this
      ensures extraArgs == arg.OrDefault(None)
      ensures L == old(L) && regionEnding == old(regionEnding) && noise == old(noise) && name == old(name)
      ensures multipole == old(multipole) && reality == old(reality) && spin == old(spin)
    {
      extraArgs := arg.OrDefault(None);
    }

    /** The `noise` setter. */
    method SetNoise(arg: SetterArg<bool>)
      modifies this
      ensures noise == arg.OrDefault(false)
      ensures L == old(L) && regionEnding == old(regionEnding) && extraArgs == old(extraArgs) && name == old(name)
      ensures multipole == old(multipole) && reality == old(reality) && spin == old(spin)
    {
      noise := arg.OrDefault(false);
    }

    /** The `region` setter. */
    method SetRegion(arg: SetterArg<Option<string>>)
      modifies this
      ensures regionEnding == arg.OrDefault(None)
      ensures L == old(L) && noise == old(noise) && extraArgs == old(extraArgs) && name == old(name)
      ensures multipole == old(multipole) && reality == old(reality) && spin == old(spin)
    {
      regionEnding := arg.OrDefault(None);
    }

    /** The `multipole` setter. */
    method SetMultipole(value: seq<Complex>, ensureMasked: seq<Complex> -> seq<Complex>)
      modifies this
      ensures multipole == if MasksMultipole(regionEnding, name) then ensureMasked(value) else value
      ensures L == old(L) && regionEnding == old(regionEnding) && noise == old(noise) && name == old(name)
      ensures extraArgs == old(extraArgs) && reality == old(reality) && spin == old(spin) && hooks == old(hooks)
      ensures resolution == old(resolution)
    {
      var v := value;
      if regionEnding.Some? && !Contains(name, "slepian") && !Contains(name, "south_america") {
        v := ensureMasked(v);
      }
      multipole := v;
    }

    /** `_add_region_to_name`. */
    method AddRegion()
      modifies this
      ensures name == old(name) + if NamesRegion(regionEnding, old(name)) then "_" + regionEnding.value else ""
      ensures hooks == old(hooks) + [AddRegionToName]
      ensures L == old(L) && regionEnding == old(regionEnding) && noise == old(noise) && multipole == old(multipole)
      ensures extraArgs == old(extraArgs) && reality == old(reality) && spin == old(spin) && resolution == old(resolution)
    {
      if regionEnding.Some? && !Contains(name, "slepian") {
        name := name + "_" + regionEnding.value;
      }
      hooks := hooks + [AddRegionToName];
    }

    /** `_add_noise_to_signal`: `multipole += nlm` goes through the setter,
        so the noisy multipole is masked again. */
    method AddNoise(nlm: seq<Complex>, ensureMasked: seq<Complex> -> seq<Complex>)
      requires KeepsLength(ensureMasked)
      requires noise ==> |nlm| == |multipole|
      modifies this
      ensures L == old(L) && regionEnding == old(regionEnding) && noise == old(noise) && name == old(name)
      ensures extraArgs == old(extraArgs) && reality == old(reality) && spin == old(spin) && resolution == old(resolution)
      ensures multipole == if noise then Masked(regionEnding, name, AddNoiseField(old(multipole), nlm), ensureMasked) else old(multipole)
      ensures hooks == old(hooks) + [AddNoiseToSignal]
    {
      if noise {
        SetMultipole(AddNoiseField(multipole, nlm), ensureMasked);
      }
      hooks := hooks + [AddNoiseToSignal];
    }

    /** `convolve`. */
    method Convolve(flm: seq<Complex>, glm: seq<Complex>) returns (h: seq<Complex>)
      requires |flm| == |glm|
      modifies this
      ensures h == SiftingConvolution(flm, glm) && !reality
      ensures name == old(name) && multipole == old(multipole) && hooks == old(hooks)
    {
      reality := false;
      h := seq(|flm|, k requires 0 <= k < |flm| => Mul(flm[k], Conj(glm[k])));
    }

    /** `translate`, given the translated Dirac delta `glm`: a function
        named exactly `dirac_delta` returns it, any other convolves its
        multipole with it. */
    method Translate(glm: seq<Complex>) returns (h: seq<Complex>)
      requires |glm| == |multipole|
      modifies this
      ensures name == old(name) && multipole == old(multipole) && hooks == old(hooks)
      ensures name == "dirac_delta" ==> h == glm && reality == old(reality)
      ensures name != "dirac_delta" ==> h == SiftingConvolution(multipole, glm) && !reality
    {
      if name == "dirac_delta" {
        h := glm;
      } else {
        h := Convolve(multipole, glm);
      }
    }
  }

  /** The masking keeps the number of coefficients. */
  ghost predicate KeepsLength(ensureMasked: seq<Complex> -> seq<Complex>) {
    forall v :: |ensureMasked(v)| == |v|
  }

  /** What the multipole setter stores for a value under a region and name. */
  function Masked(regionEnding: Option<string>, name: string, value: seq<Complex>,
                  ensureMasked: seq<Complex> -> seq<Complex>): (r: seq<Complex>)
    requires KeepsLength(ensureMasked)
    ensures |r| == |value|
  {
    if MasksMultipole(regionEnding, name) then ensureMasked(value) else value
  }

  /** Element-wise sum. */
  function AddNoiseField(a: seq<Complex>, b: seq<Complex>): (c: seq<Complex>)
    requires |a| == |b|
    ensures |c| == |a| && forall k | 0 <= k < |a| :: c[k] == ComplexNumbers.Add(a[k], b[k])
  {
    seq(|a|, k requires 0 <= k < |a| => ComplexNumbers.Add(a[k], b[k]))
  }
}
