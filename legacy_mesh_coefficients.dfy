/** The base class of functions on a mesh in the earlier package: the
    default-substituting setters, the masking `coefficients` setter, the hook
    order and the name suffixes, which follow the same rule as the later
    version. */
module LegacyMeshCoefficients {
  import opened Errors
  import opened Strings
  import Later = MeshCoefficients

  datatype Hook = SetupArgs | CreateName | CreateCoefficients | AddDetailsToName | AddNoiseToSignal

  const InitialisationOrder: seq<Hook> := [SetupArgs, CreateName, CreateCoefficients, AddDetailsToName, AddNoiseToSignal]

  /** The `coefficients` setter masks when there is a region and the
      lower-cased class name does not contain `slepian`. */
  predicate SetterMasks(region: bool, className: string) {
    region && !Contains(Lower(className), Later.CoefficientsToNotMask)
  }

  /** The setter's rule is the class-name rule the later validator
      evidently intends. */
  lemma SetterMatchesIntendedValidator(v: seq<real>, region: bool, className: string,
                                       ensureMasked: seq<real> -> seq<real>)
    ensures (if SetterMasks(region, className) then ensureMasked(v) else v)
      == Later.CheckCoefficients(v, region, className, ensureMasked)
    ensures region && Contains(Lower(className), Later.CoefficientsToNotMask) ==>
      !SetterMasks(region, className)
  {
  }

  class MeshCoefficients {
    const meshName: string
    const zoom: bool
    const className: string
    var extraArgs: Option<seq<int>>
    var noise: Option<real>
    var region: bool
    var name: string
    var coefficients: seq<real>
    ghost var hooks: seq<Hook>

    /** The dataclass initialiser runs the setters of `extra_args`, `noise`
        and `region`; `__post_init__` then runs the hooks, storing the
        created coefficients through their setter. */
    constructor (meshName: string, zoom: bool, className: string, extraArgs: SetterArg<Option<seq<int>>>,
                 noise: SetterArg<Option<real>>, region: SetterArg<bool>, createdName: string,
                 created: seq<real>, ensureMasked: seq<real> -> seq<real>,
                 filenameArgs: (real, string) -> string)
      ensures hooks == InitialisationOrder
      ensures this.meshName == meshName && this.zoom == zoom && this.className == className
      ensures this.extraArgs == extraArgs.OrDefault(None) && this.noise == noise.OrDefault(None)
      ensures this.region == region.OrDefault(false)
      ensures name == createdName + Later.Details(meshName, this.region, this.noise, zoom, filenameArgs)
      ensures coefficients == if SetterMasks(this.region, className) then ensureMasked(created) else created
    {
      this.meshName, this.zoom, this.className := meshName, zoom, className;
      this.extraArgs := extraArgs.OrDefault(None);
      this.noise := noise.OrDefault(None);
      this.region := region.OrDefault(false);
      new;
      hooks := [SetupArgs];
      name := createdName;
      hooks := hooks + [CreateName];
      SetCoefficients(created, ensureMasked);
      hooks := hooks + [CreateCoefficients];
      AddDetails(filenameArgs);
      hooks := hooks + [AddNoiseToSignal];
    }

    /** The `coefficients` setter. */
    method SetCoefficients(value: seq<real>, ensureMasked: seq<real> -> seq<real>)
      modifies this
      ensures coefficients == if SetterMasks(region, className) then ensureMasked(value) else value
      ensures name == old(name) && region == old(region) && noise == old(noise)
      ensures extraArgs == old(extraArgs) && hooks == old(hooks)
    {
      var v := value;
      if region && !Contains(Lower(className), Later.CoefficientsToNotMask) {
        v := ensureMasked(v);
      }
      coefficients := v;
    }

    /** The `extra_args` setter. */
    method SetExtraArgs(arg: SetterArg<Option<seq<int>>>)
      modifies this
      ensures extraArgs == arg.OrDefault(None)
      ensures name == old(name) && region == old(region) && noise == old(noise) && coefficients == old(coefficients)
    {
      extraArgs := arg.OrDefault(None);
    }

    /** The `noise` setter. */
    method SetNoise(arg: SetterArg<Option<real>>)
      modifies this
      ensures noise == arg.OrDefault(None)
      ensures name == old(name) && region == old(region) && extraArgs == old(extraArgs) && coefficients == old(coefficients)
    {
      noise := arg.OrDefault(None);
    }

    /** The `region` setter. */
    method SetRegion(arg: SetterArg<bool>)
      modifies this
      ensures region == arg.OrDefault(false)
      ensures name == old(name) && noise == old(noise) && extraArgs == old(extraArgs) && coefficients == old(coefficients)
    {
      region := arg.OrDefault(false);
    }

    /** `_add_details_to_name`. */
    method AddDetails(filenameArgs: (real, string) -> string)
      modifies this
      ensures name == old(name) + Later.Details(meshName, region, noise, zoom, filenameArgs)
      ensures coefficients == old(coefficients) && region == old(region) && noise == old(noise)
      ensures extraArgs == old(extraArgs) && hooks == old(hooks) + [AddDetailsToName]
    {
      ghost var original := name;
      var regionPart := if region && !Contains(meshName, "slepian") then "_region" else "";
      name := name + regionPart;
      var noisePart := if noise.Some? then filenameArgs(noise.value, "noise") else "";
      name := name + noisePart;
      assert name == original + (regionPart + noisePart);
      var zoomPart := if zoom then "_zoom" else "";
      name := name + zoomPart;
      assert name == original + (regionPart + noisePart + zoomPart);
      hooks := hooks + [AddDetailsToName];
    }
  }
}
