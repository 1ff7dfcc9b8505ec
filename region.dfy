/** A region of the sphere: a polar cap (optionally with the matching cap
    at the south pole), a limited latitude-longitude box, or an arbitrary
    mask read from a file. The angles are validated first; the type and
    the file-name ending are then fixed by the classifiers, in that order of
    priority. `angle_as_degree` is not part of this model and is a
    parameter. */
module Region {
  import opened Errors
  import opened BoolMethods

  datatype RegionType = Polar | LimLatLon | Arbitrary

  /** A `phi_min`/`phi_max` validator: `ValueError` below the minimum or
      above the maximum default, the value itself otherwise. */
  function CheckPhi(d: AngleDefaults, phi: real): (r: Result<real>)
    ensures r.Err? <==> phi < d.phiMin || phi > d.phiMax
    ensures r.Err? ==> r.error == ValueError
    ensures r.Ok? ==> r.value == phi
  {
    if phi < d.phiMin then Err(ValueError)
    else if phi > d.phiMax then Err(ValueError)
    else Ok(phi)
  }

  /** A `theta_min`/`theta_max` validator, against the theta defaults. */
  function CheckTheta(d: AngleDefaults, theta: real): (r: Result<real>)
    ensures r.Err? <==> theta < d.thetaMin || theta > d.thetaMax
    ensures r.Err? ==> r.error == ValueError
    ensures r.Ok? ==> r.value == theta
  {
    if theta < d.thetaMin then Err(ValueError)
    else if theta > d.thetaMax then Err(ValueError)
    else Ok(theta)
  }

  /** A mask name is truthy when given and not empty. */
  predicate Truthy(maskName: Option<string>) {
    maskName.Some? && maskName.value != ""
  }

  /** The file-name ending of a polar region. */
  function PolarEnding(gap: bool, thetaMaxDegrees: string): (e: string)
    ensures |e| >= 5 && e[..5] == "polar"
    ensures gap ==> |e| >= 9 && e[5..9] == "_gap"
    ensures !gap ==> e[5..] == thetaMaxDegrees
  {
    "polar" + (if gap then "_gap" else "") + thetaMaxDegrees
  }

  class Region {
    const angles: Angles
    const maskName: Option<string>
    const gap: bool
    var regionType: RegionType
    var nameEnding: string

    /** The fields of an object whose region is not yet identified. */
    constructor Unidentified(angles: Angles, maskName: Option<string>, gap: bool)
      ensures this.angles == angles && this.maskName == maskName && this.gap == gap
    {
      this.angles := angles;
      this.maskName := maskName;
      this.gap := gap;
      regionType := Arbitrary;
      nameEnding := "";
    }

    /** `_identify_region`: a polar cap first, then a limited
        latitude-longitude region, then a truthy mask name, used verbatim;
        otherwise an `AttributeError`. */
    method IdentifyRegion(d: AngleDefaults, angleAsDegree: real -> string) returns (r: Result<()>)
      modifies this
      ensures r.Err? <==> !IsPolarCap(d, angles) && !IsLimitedLatLon(d, angles) && !Truthy(maskName)
      ensures r.Err? ==> r.error == AttributeError
      ensures IsPolarCap(d, angles) ==>
        regionType == Polar && nameEnding == PolarEnding(gap, angleAsDegree(angles.thetaMax))
      ensures !IsPolarCap(d, angles) && IsLimitedLatLon(d, angles) ==>
        regionType == LimLatLon
        && nameEnding == "theta" + angleAsDegree(angles.thetaMin) + "-" + angleAsDegree(angles.thetaMax)
                         + "_phi" + angleAsDegree(angles.phiMin) + "-" + angleAsDegree(angles.phiMax)
      ensures !IsPolarCap(d, angles) && !IsLimitedLatLon(d, angles) && Truthy(maskName) ==>
        regionType == Arbitrary && nameEnding == maskName.value
    {
      if IsPolarCap(d, angles) {
        regionType := Polar;
        nameEnding := PolarEnding(gap, angleAsDegree(angles.thetaMax));
      } else if IsLimitedLatLon(d, angles) {
        regionType := LimLatLon;
        nameEnding := "theta" + angleAsDegree(angles.thetaMin) + "-" + angleAsDegree(angles.thetaMax)
                      + "_phi" + angleAsDegree(angles.phiMin) + "-" + angleAsDegree(angles.phiMax);
      } else if Truthy(maskName) {
        regionType := Arbitrary;
        nameEnding := maskName.value;
      } else {
        return Err(AttributeError);
      }
      return Ok(());
    }
  }

  /** `Region(...)`: the four validators, then the identification. Any
      angle out of range is a `ValueError`. */
  method NewRegion(d: AngleDefaults, angles: Angles, maskName: Option<string>, gap: bool,
                   angleAsDegree: real -> string)
    returns (r: Result<Region>)
    ensures r.Err? && r.error == ValueError <==>
      CheckTheta(d, angles.thetaMin).Err? || CheckTheta(d, angles.thetaMax).Err?
      || CheckPhi(d, angles.phiMin).Err? || CheckPhi(d, angles.phiMax).Err?
    ensures r.Err? && r.error == AttributeError <==>
      CheckTheta(d, angles.thetaMin).Ok? && CheckTheta(d, angles.thetaMax).Ok?
      && CheckPhi(d, angles.phiMin).Ok? && CheckPhi(d, angles.phiMax).Ok?
      && !IsPolarCap(d, angles) && !IsLimitedLatLon(d, angles) && !Truthy(maskName)
    ensures r.Ok? ==> r.value.angles == angles && r.value.maskName == maskName && r.value.gap == gap
    ensures r.Ok? && IsPolarCap(d, angles) ==>
      r.value.regionType == Polar && r.value.nameEnding == PolarEnding(gap, angleAsDegree(angles.thetaMax))
    ensures r.Ok? && IsLimitedLatLon(d, angles) ==>
      r.value.regionType == LimLatLon
      && r.value.nameEnding == "theta" + angleAsDegree(angles.thetaMin) + "-" + angleAsDegree(angles.thetaMax)
                               + "_phi" + angleAsDegree(angles.phiMin) + "-" + angleAsDegree(angles.phiMax)
    ensures r.Ok? && !IsPolarCap(d, angles) && !IsLimitedLatLon(d, angles) ==>
      r.value.regionType == Arbitrary && r.value.nameEnding == maskName.value
  {
    if CheckTheta(d, angles.thetaMin).Err? || CheckTheta(d, angles.thetaMax).Err?
       || CheckPhi(d, angles.phiMin).Err? || CheckPhi(d, angles.phiMax).Err? {
      return Err(ValueError);
    }
    var region := new Region.Unidentified(angles, maskName, gap);
    var identified := region.IdentifyRegion(d, angleAsDegree);
    if identified.Err? {
      return Err(identified.error);
    }
    Classification(d, angles);
    return Ok(region);
  }
}
