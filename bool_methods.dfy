/** The region classifiers: a polar cap, a limited latitude-longitude
    region, a small polar cap. The default angles are not part of this
    model and come in as a record. */
module BoolMethods {
  import opened Numerics

  /** `PHI_MIN_DEFAULT`, `PHI_MAX_DEFAULT`, `THETA_MIN_DEFAULT`,
      `THETA_MAX_DEFAULT`. */
  datatype AngleDefaults = AngleDefaults(phiMin: real, phiMax: real, thetaMin: real, thetaMax: real)

  /** The four angles of a region. */
  datatype Angles = Angles(phiMin: real, phiMax: real, thetaMin: real, thetaMax: real)

  predicate AllDefault(d: AngleDefaults, a: Angles) {
    a.phiMin == d.phiMin && a.phiMax == d.phiMax && a.thetaMin == d.thetaMin && a.thetaMax == d.thetaMax
  }

  /** `is_polar_cap`: a circular mask at the north pole, given by
      `theta_max` alone. */
  predicate IsPolarCap(d: AngleDefaults, a: Angles) {
    a.phiMin == d.phiMin && a.phiMax == d.phiMax && a.thetaMin == d.thetaMin && a.thetaMax != d.thetaMax
  }

  /** `is_limited_lat_lon` as Python parses it: `and` binds tighter than
      `or`, so only the `phi_min` test is guarded by "not a polar cap". */
  predicate IsLimitedLatLon(d: AngleDefaults, a: Angles) {
    (!IsPolarCap(d, a) && a.phiMin != d.phiMin) || a.phiMax != d.phiMax || a.thetaMin != d.thetaMin
  }

  /** The parse is harmless: the result is the same as "not a polar cap, and
      one of `phi_min`, `phi_max`, `theta_min` not the default", and a
      non-default `theta_max` alone never makes a limited region. */
  lemma LimitedLatLonMeaning(d: AngleDefaults, a: Angles)
    ensures IsLimitedLatLon(d, a) <==>
      !IsPolarCap(d, a) && (a.phiMin != d.phiMin || a.phiMax != d.phiMax || a.thetaMin != d.thetaMin)
    ensures IsLimitedLatLon(d, a) <==> a.phiMin != d.phiMin || a.phiMax != d.phiMax || a.thetaMin != d.thetaMin
  {
  }

  /** The two classifiers exclude each other, and neither holds exactly
      when all four angles are the defaults. */
  lemma {:induction false} Classification(d: AngleDefaults, a: Angles)
    ensures !(IsPolarCap(d, a) && IsLimitedLatLon(d, a))
    ensures !IsPolarCap(d, a) && !IsLimitedLatLon(d, a) <==> AllDefault(d, a)
  {
    LimitedLatLonMeaning(d, a);
  }

  /** `is_small_polar_cap`: a cap no wider than a quarter of pi. */
  predicate IsSmallPolarCap(thetaMax: real) {
    thetaMax <= Pi / 4.0
  }
}
