/** The common part of every function on a mesh: the hook order of a new
    object, the suffixes its name collects, and the masking of its
    coefficients to the region of the mesh. */
module MeshCoefficients {
  import opened Errors
  import opened Strings

  /** Functions of this kind are never masked. */
  const CoefficientsToNotMask: string := "slepian"

  /** The metaclass of the coefficient classes: the validator tests the
      name of `cls.__class__`, and `cls` is already the class. Which class
      pydantic passes decides whether that is `type` or `ModelMetaclass`;
      neither contains the excluded word. */
  const MetaclassName: string := "type"
  const PydanticMetaclassName: string := "ModelMetaclass"

  /** What `_add_details_to_name` appends: `_region` unless the mesh is a
      Slepian mesh, the noise argument, and `_zoom`. `filename_args` is a
      parameter. */
  function Details(meshName: string, region: bool, noise: Option<real>, zoom: bool,
                   filenameArgs: (real, string) -> string): string
  {
    (if region && !Contains(meshName, "slepian") then "_region" else "")
    + (if noise.Some? then filenameArgs(noise.value, "noise") else "")
    + (if zoom then "_zoom" else "")
  }

  /** The region adds exactly `_region`, first, and nothing on a mesh whose
      name contains `slepian`; zooming adds `_zoom` last. */
  lemma DetailsParts(meshName: string, region: bool, noise: Option<real>, zoom: bool,
                     filenameArgs: (real, string) -> string)
    ensures var plain := Details(meshName, false, noise, zoom, filenameArgs);
      Details(meshName, region, noise, zoom, filenameArgs)
        == if region && !Contains(meshName, "slepian") then "_region" + plain else plain
    ensures var d := Details(meshName, region, noise, zoom, filenameArgs);
      zoom ==> |d| >= 5 && d[|d| - 5..] == "_zoom"
    ensures Details(meshName, region, None, false, filenameArgs)
      == if region && !Contains(meshName, "slepian") then "_region" else ""
  {
    var d := Details(meshName, region, noise, zoom, filenameArgs);
    if zoom {
      assert d[|d| - 5..] == "_zoom";
    }
  }

  /** `_check_coefficients` as written: the excluded word is looked for in
      the metaclass name, which never contains it, so every function on a
      region is masked, Slepian ones included. */
  function CheckCoefficientsAsWritten(v: seq<real>, region: bool, className: string,
                                      ensureMasked: seq<real> -> seq<real>): (r: seq<real>)
    ensures region ==> r == ensureMasked(v)
    ensures !region ==> r == v
  {
    MetaclassNameHasNoSlepian();
    if region && !Contains(Lower(MetaclassName), CoefficientsToNotMask) then ensureMasked(v) else v
  }

  lemma MetaclassNameHasNoSlepian()
    ensures !Contains(Lower(MetaclassName), CoefficientsToNotMask)
    ensures !Contains(Lower(PydanticMetaclassName), CoefficientsToNotMask)
  {
    assert |Lower(MetaclassName)| < |CoefficientsToNotMask|;
    var s := Lower(PydanticMetaclassName);
    assert s == "modelmetaclass";
    forall k | 0 <= k <= |s| - |CoefficientsToNotMask|
      ensures !OccursAt(s, CoefficientsToNotMask, k)
    {
      assert s[k] != 's';
    }
  }

  /** A Slepian function on a region is masked as written, although its
      class name carries the excluded word. */
  lemma SlepianMaskedAsWritten(v: seq<real>, ensureMasked: seq<real> -> seq<real>)
    ensures CheckCoefficientsAsWritten(v, true, "MeshSlepianCoefficients", ensureMasked) == ensureMasked(v)
    ensures Contains(Lower("MeshSlepianCoefficients"), CoefficientsToNotMask)
  {
    MetaclassNameHasNoSlepian();
    SlepianInClassName();
  }

  lemma SlepianInClassName()
    ensures Contains(Lower("MeshSlepianCoefficients"), CoefficientsToNotMask)
  {
    var s := Lower("MeshSlepianCoefficients");
    assert s[4..11] == "slepian";
    assert OccursAt(s, "slepian", 4);
  }

  /** The evidently intended validator: the word is looked for in the
      lower-cased name of the class itself. */
  function CheckCoefficients(v: seq<real>, region: bool, className: string,
                             ensureMasked: seq<real> -> seq<real>): (r: seq<real>)
    ensures Contains(Lower(className), CoefficientsToNotMask) || !region ==> r == v
  {
    if region && !Contains(Lower(className), CoefficientsToNotMask) then ensureMasked(v) else v
  }

  /** With the class's own name checked, Slepian functions are left unmasked and
      every other function on a region is masked. */
  lemma CheckCoefficientsSkipsSlepian(v: seq<real>, region: bool, className: string,
                                      ensureMasked: seq<real> -> seq<real>)
    ensures Contains(Lower(className), CoefficientsToNotMask) ==>
      CheckCoefficients(v, region, className, ensureMasked) == v
    ensures region && !Contains(Lower(className), CoefficientsToNotMask) ==>
      CheckCoefficients(v, region, className, ensureMasked) == ensureMasked(v)
    ensures !region ==> CheckCoefficients(v, region, className, ensureMasked) == v
    ensures !Contains(Lower(className), CoefficientsToNotMask) ==>
      CheckCoefficients(v, region, className, ensureMasked) == CheckCoefficientsAsWritten(v, region, className, ensureMasked)
  {
    MetaclassNameHasNoSlepian();
  }

  datatype Hook = SetupArgs | CreateName | CreateCoefficients | AddDetailsToName | AddNoiseToSignal

  const InitialisationOrder: seq<Hook> := [SetupArgs, CreateName, CreateCoefficients, AddDetailsToName, AddNoiseToSignal]

  class MeshCoefficients {
    const meshName: string
    const zoom: bool
    const className: string
    const noise: Option<real>
    const region: bool
    var name: string
    var coefficients: seq<real>
    ghost var hooks: seq<Hook>
    /** The coefficients as `_create_coefficients` left them, before the
        subclass's `_add_noise_to_signal`, which replaces them when there is
        noise. */
    ghost var createdCoefficients: seq<real>

    /** `__post_init_post_parse__`, given the name and coefficients the
        concrete class creates; the coefficients pass the validator as
        written, which agrees with the intended one unless the class name
        carries the excluded word. */
    constructor (meshName: string, zoom: bool, className: string, noise: Option<real>, region: bool,
                 createdName: string, created: seq<real>, ensureMasked: seq<real> -> seq<real>,
                 filenameArgs: (real, string) -> string)
      ensures hooks == InitialisationOrder
      ensures this.meshName == meshName && this.zoom == zoom && this.className == className
      ensures this.noise == noise && this.region == region
      ensures name == createdName + Details(meshName, region, noise, zoom, filenameArgs)
      ensures createdCoefficients == CheckCoefficientsAsWritten(created, region, className, ensureMasked)
      ensures !Contains(Lower(className), CoefficientsToNotMask) ==>
        createdCoefficients == CheckCoefficients(created, region, className, ensureMasked)
      ensures noise.None? ==> coefficients == createdCoefficients
    {
      this.meshName, this.zoom, this.className, this.noise, this.region := meshName, zoom, className, noise, region;
      hooks := [SetupArgs];
      name := createdName;
      hooks := hooks + [CreateName];
      coefficients := CheckCoefficientsAsWritten(created, region, className, ensureMasked);
      createdCoefficients := coefficients;
      hooks := hooks + [CreateCoefficients];
      new;
      AddDetails(filenameArgs);
      hooks := hooks + [AddNoiseToSignal];
    }

    /** `_add_details_to_name`. */
    method AddDetails(filenameArgs: (real, string) -> string)
      modifies this
      ensures name == old(name) + Details(meshName, region, noise, zoom, filenameArgs)
      ensures coefficients == old(coefficients) && hooks == old(hooks) + [AddDetailsToName]
      ensures createdCoefficients == old(createdCoefficients)
    {
      ghost var original := name;
      var regionPart := if region && !Contains(meshName, "slepian") then "_region" else "";
      name := name + regionPart;
      var noisePart := if noise.Some? then filenameArgs(noise.value, "noise") else "";
      name := name + noisePart;
      assert name == original + (regionPart + noisePart);
      var zoomPart := if zoom then "_zoom" else "";
      name := name + zoomPart;
      assert name == original + (regionPart + noisePart + zoomPart);
      hooks := hooks + [AddDetailsToName];
    }
  }
}
