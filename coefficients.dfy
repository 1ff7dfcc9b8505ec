/** The common part of every function on the sphere: the order in which a
    new object runs its hooks, the suffixes its name collects, the masking
    of its coefficients, and translation and convolution. The hooks a
    concrete function provides arrive as their results. */
module Coefficients {
  import opened ComplexNumbers
  import opened Errors
  import opened Strings

  /** The names of the functions that are never masked to a region. */
  const CoefficientsToNotMask: set<string> := {"slepian", "south", "america"}

  /** `set(name.split("_"))`. */
  function Tokens(name: string): (t: set<string>)
    ensures forall k | 0 <= k < |Split(name, '_')| :: Split(name, '_')[k] in t
  {
    set k | 0 <= k < |Split(name, '_')| :: Split(name, '_')[k]
  }

  /** The region applies when there is one and no token of the name is one
      of the excluded words. */
  predicate RegionApplies(regionEnding: Option<string>, name: string) {
    regionEnding.Some? && Tokens(name) * CoefficientsToNotMask == {}
  }

  /** What `_add_details_to_name` appends: the region ending, the noise and
      smoothing arguments when present, and the bandlimit last.
      `filename_args` is a parameter. */
  function Details(name: string, L: int, regionEnding: Option<string>, noise: Option<real>,
                   smoothing: Option<int>, filenameArgs: (real, string) -> string): string
  {
    (if RegionApplies(regionEnding, name) then "_" + regionEnding.value else "")
    + (if noise.Some? then filenameArgs(noise.value, "noise") else "")
    + (if smoothing.Some? then filenameArgs(smoothing.value as real, "smoothed") else "")
    + ("_L" + IntToString(L))
  }

  /** The region contributes exactly its ending, and only when it applies;
      the rest of the suffix does not depend on it. */
  lemma RegionPartOfDetails(name: string, L: int, regionEnding: Option<string>, noise: Option<real>,
                            smoothing: Option<int>, filenameArgs: (real, string) -> string)
    ensures var rest := Details(name, L, None, noise, smoothing, filenameArgs);
      Details(name, L, regionEnding, noise, smoothing, filenameArgs)
        == if RegionApplies(regionEnding, name) then "_" + regionEnding.value + rest else rest
  {
    var region := if RegionApplies(regionEnding, name) then "_" + regionEnding.value else "";
    var noisePart := if noise.Some? then filenameArgs(noise.value, "noise") else "";
    var smoothingPart := if smoothing.Some? then filenameArgs(smoothing.value as real, "smoothed") else "";
    var bandlimitPart := "_L" + IntToString(L);
    var rest := noisePart + smoothingPart + bandlimitPart;
    assert Details(name, L, None, noise, smoothing, filenameArgs) == rest by {
      assert !RegionApplies(None, name);
      assert "" + noisePart == noisePart;
    }
    assert Details(name, L, regionEnding, noise, smoothing, filenameArgs) == region + noisePart + smoothingPart + bandlimitPart;
    AppendThree(region, noisePart, smoothingPart, bandlimitPart);
  }

  /** Appending three parts one after another appends their concatenation. */
  lemma AppendThree(s: string, a: string, b: string, c: string)
    ensures s + a + b + c == s + (a + b + c)
  {
  }

  /** The name always ends with `_L` and the bandlimit, which can be read
      back from it. */
  lemma DetailsEndWithBandlimit(name: string, L: int, regionEnding: Option<string>, noise: Option<real>,
                                smoothing: Option<int>, filenameArgs: (real, string) -> string)
    ensures var d := Details(name, L, regionEnding, noise, smoothing, filenameArgs);
      var tail := "_L" + IntToString(L);
      |d| >= |tail| && d[|d| - |tail|..] == tail && ParseInt(d[|d| - |IntToString(L)|..]) == L
  {
    var d := Details(name, L, regionEnding, noise, smoothing, filenameArgs);
    var s := IntToString(L);
    assert d[|d| - |s|..] == s;
    IntToStringRoundTrip(L);
  }

  /** A name whose first token is an excluded word never gets the region. */
  lemma ExcludedFirstTokenIgnoresRegion(word: string, rest: string, regionEnding: Option<string>)
    requires word in CoefficientsToNotMask
    ensures !RegionApplies(regionEnding, word + "_" + rest)
  {
    assert '_' !in word by {
      assert word == "slepian" || word == "south" || word == "america";
    }
    var name := word + "_" + rest;
    assert name == word + ['_'] + rest;
    SplitAfterPrefix(word, '_', rest);
    assert Split(name, '_')[0] == word;
    assert word in Tokens(name);
    assert word in Tokens(name) * CoefficientsToNotMask;
  }

  /** `_check_coefficients`: the coefficients are masked to the region under
      the same rule, read from the name before its details are added. The
      masking itself is a parameter. */
  function CheckCoefficients(v: seq<Complex>, name: string, regionEnding: Option<string>,
                             ensureMasked: seq<Complex> -> seq<Complex>): (r: seq<Complex>)
    ensures regionEnding.None? ==> r == v
    ensures Tokens(name) * CoefficientsToNotMask != {} ==> r == v
    ensures regionEnding.Some? && Tokens(name) * CoefficientsToNotMask == {} ==> r == ensureMasked(v)
  {
    if RegionApplies(regionEnding, name) then ensureMasked(v) else v
  }

  /** The coefficients are masked exactly when the name gains the region. */
  lemma MaskedIffNamed(v: seq<Complex>, name: string, L: int, regionEnding: Option<string>,
                       ensureMasked: seq<Complex> -> seq<Complex>, filenameArgs: (real, string) -> string)
    ensures var rest := Details(name, L, None, None, None, filenameArgs);
      (Details(name, L, regionEnding, None, None, filenameArgs) != rest ==>
         CheckCoefficients(v, name, regionEnding, ensureMasked) == ensureMasked(v)) &&
      (Details(name, L, regionEnding, None, None, filenameArgs) == rest ==>
         CheckCoefficients(v, name, regionEnding, ensureMasked) == v)
  {
    RegionPartOfDetails(name, L, regionEnding, None, None, filenameArgs);
    if RegionApplies(regionEnding, name) {
      var rest := Details(name, L, None, None, None, filenameArgs);
      assert |"_" + regionEnding.value + rest| > |rest|;
    }
  }

  /** The hooks of `__post_init_post_parse__`. */
  datatype Hook = SetupArgs | CreateName | SetSpin | SetReality | CreateCoefficients | AddDetailsToName | AddNoiseToSignal

  const InitialisationOrder: seq<Hook> :=
    [SetupArgs, CreateName, SetSpin, SetReality, CreateCoefficients, AddDetailsToName, AddNoiseToSignal]

  /** The results of a concrete function's abstract hooks. */
  datatype Concrete = Concrete(name: string, spin: int, reality: bool, coefficients: seq<Complex>)

  /** Appending four parts one after another appends their concatenation. */
  lemma AppendFour(s: string, a: string, b: string, c: string, d: string)
    ensures s + a + b + c + d == s + (a + b + c + d)
  {
  }

  class Coefficients {
    const L: int
    const noise: Option<real>
    const regionEnding: Option<string>
    const smoothing: Option<int>
    var name: string
    var spin: int
    var reality: bool
    var coefficients: seq<Complex>
    /** The hooks run so far, in order. */
    ghost var hooks: seq<Hook>
    /** The coefficients as `_create_coefficients` left them, before the
        subclass's `_add_noise_to_signal`, which replaces them when there is
        noise. */
    ghost var created: seq<Complex>

    constructor (L: int, noise: Option<real>, regionEnding: Option<string>, smoothing: Option<int>,
                 concrete: Concrete, ensureMasked: seq<Complex> -> seq<Complex>,
                 filenameArgs: (real, string) -> string)
      ensures hooks == InitialisationOrder
      ensures this.L == L && this.noise == noise && this.regionEnding == regionEnding && this.smoothing == smoothing
      ensures name == concrete.name + Details(concrete.name, L, regionEnding, noise, smoothing, filenameArgs)
      ensures spin == concrete.spin && reality == concrete.reality
      ensures created == CheckCoefficients(concrete.coefficients, concrete.name, regionEnding, ensureMasked)
      ensures noise.None? ==> coefficients == created
    {
      this.L, this.noise, this.regionEnding, this.smoothing := L, noise, regionEnding, smoothing;
      hooks := [SetupArgs];
      name := concrete.name;
      hooks := hooks + [CreateName];
      spin := concrete.spin;
      hooks := hooks + [SetSpin];
      reality := concrete.reality;
      hooks := hooks + [SetReality];
      coefficients := CheckCoefficients(concrete.coefficients, concrete.name, regionEnding, ensureMasked);
      created := coefficients;
      hooks := hooks + [CreateCoefficients];
      new;
      AddDetails(filenameArgs);
      hooks := hooks + [AddNoiseToSignal];
    }

    /** `_add_details_to_name`. */
    method AddDetails(filenameArgs: (real, string) -> string)
      modifies this
      ensures name == old(name) + Details(old(name), L, regionEnding, noise, smoothing, filenameArgs)
      ensures hooks == old(hooks) + [AddDetailsToName]
      ensures spin == old(spin) && reality == old(reality) && coefficients == old(coefficients) && created == old(created)
    {
      var original := name;
      var regionPart := if RegionApplies(regionEnding, original) then "_" + regionEnding.value else "";
      var noisePart := if noise.Some? then filenameArgs(noise.value, "noise") else "";
      var smoothingPart := if smoothing.Some? then filenameArgs(smoothing.value as real, "smoothed") else "";
      var bandlimitPart := "_L" + IntToString(L);
      AppendFour(original, regionPart, noisePart, smoothingPart, bandlimitPart);
      name := original + regionPart + noisePart + smoothingPart + bandlimitPart;
      hooks := hooks + [AddDetailsToName];
    }

    /** `convolve`: the result of the sifting convolution, and the function
        is no longer real. */
    method Convolve(f: seq<Complex>, g: seq<Complex>, sifting: (seq<Complex>, seq<Complex>) -> seq<Complex>)
      returns (h: seq<Complex>)
      modifies this
      ensures h == sifting(f, g) && !reality
      ensures name == old(name) && spin == old(spin) && coefficients == old(coefficients) && hooks == old(hooks)
      ensures created == old(created)
    {
      reality := false;
      h := sifting(f, g);
    }

    /** `translate`: the translated basis function itself for a Dirac
        delta, its convolution with the coefficients otherwise. */
    method Translate(g: seq<Complex>, sifting: (seq<Complex>, seq<Complex>) -> seq<Complex>)
      returns (h: seq<Complex>)
      modifies this
      ensures Contains(name, "dirac_delta") ==> h == g && reality == old(reality)
      ensures !Contains(name, "dirac_delta") ==> h == sifting(coefficients, g) && !reality
      ensures name == old(name) && spin == old(spin) && coefficients == old(coefficients) && hooks == old(hooks)
      ensures created == old(created)
    {
      if Contains(name, "dirac_delta") {
        h := g;
      } else {
        h := Convolve(coefficients, g, sifting);
      }
    }
  }
}
