/** The angle and order properties of the Slepian classes of a specific
    region in the earlier package. Each setter validates its value on its
    own (the angle in degrees against the default range) and stores it only
    when it passes; nothing checks a minimum against its maximum. */
module SlepianSpecific {
  import opened Errors
  import opened Numerics
  import opened BoolMethods

  /** `np.rad2deg`: `Pi` radians are 180 degrees, and converting back
      multiplies by `Pi / 180`. */
  function Rad2Deg(x: real): (d: real)
    ensures d * Pi == x * 180.0
    ensures x == Pi ==> d == 180.0
    ensures x < 0.0 <==> d < 0.0
  {
    x * 180.0 / Pi
  }

  /** The check of every angle setter: `ValueError` when the angle in
      degrees is below `lo` or above `hi`. */
  function CheckDegrees(lo: real, hi: real, radians: real): (r: Result<real>)
    ensures r.Ok? <==> lo <= Rad2Deg(radians) <= hi
    ensures r.Err? ==> r.error == ValueError
    ensures r.Ok? ==> r.value == radians
  {
    if Rad2Deg(radians) < lo then Err(ValueError)
    else if Rad2Deg(radians) > hi then Err(ValueError)
    else Ok(radians)
  }

  /** The `order` check: an integer (`TypeError` otherwise, checked first)
      of magnitude below `L` (`ValueError` otherwise). */
  function CheckOrder(L: int, order: Num): (r: Result<int>)
    ensures r.Err? && r.error == TypeError <==> order.Float?
    ensures r.Err? && r.error == ValueError <==> order.Int? && (order.i <= -L || order.i >= L)
    ensures r.Ok? <==> order.Int? && -L < order.i < L
    ensures r.Ok? ==> r.value == order.i
  {
    if order.Float? then Err(TypeError)
    else if (if order.i < 0 then -order.i else order.i) >= L then Err(ValueError)
    else Ok(order.i)
  }

  class SlepianSpecific {
    const L: int
    const defaults: AngleDefaults
    var order: int
    var phiMax: real
    var phiMin: real
    var thetaMax: real
    var thetaMin: real

    /** The fields start at order 0 and the default angles. */
    constructor (L: int, defaults: AngleDefaults)
      ensures this.L == L && this.defaults == defaults
      ensures order == 0 && phiMax == defaults.phiMax && phiMin == defaults.phiMin
      ensures thetaMax == defaults.thetaMax && thetaMin == defaults.thetaMin
    {
      this.L := L;
      this.defaults := defaults;
      order := 0;
      phiMax, phiMin := defaults.phiMax, defaults.phiMin;
      thetaMax, thetaMin := defaults.thetaMax, defaults.thetaMin;
    }

    /** The `phi_min` setter. */
    method SetPhiMin(value: real) returns (r: Result<()>)
      modifies this
      ensures r.Ok? <==> CheckDegrees(defaults.phiMin, defaults.phiMax, value).Ok?
      ensures r.Err? ==> r.error == ValueError
      ensures phiMin == if r.Ok? then value else old(phiMin)
      ensures order == old(order) && phiMax == old(phiMax) && thetaMax == old(thetaMax) && thetaMin == old(thetaMin)
    {
      var checked := CheckDegrees(defaults.phiMin, defaults.phiMax, value);
      if checked.Err? {
        return Err(checked.error);
      }
      phiMin := checked.value;
      return Ok(());
    }

    /** The `phi_max` setter. */
    method SetPhiMax(value: real) returns (r: Result<()>)
      modifies this
      ensures r.Ok? <==> CheckDegrees(defaults.phiMin, defaults.phiMax, value).Ok?
      ensures r.Err? ==> r.error == ValueError
      ensures phiMax == if r.Ok? then value else old(phiMax)
      ensures order == old(order) && phiMin == old(phiMin) && thetaMax == old(thetaMax) && thetaMin == old(thetaMin)
    {
      var checked := CheckDegrees(defaults.phiMin, defaults.phiMax, value);
      if checked.Err? {
        return Err(checked.error);
      }
      phiMax := checked.value;
      return Ok(());
    }

    /** The `theta_min` setter. */
    method SetThetaMin(value: real) returns (r: Result<()>)
      modifies this
      ensures r.Ok? <==> CheckDegrees(defaults.thetaMin, defaults.thetaMax, value).Ok?
      ensures r.Err? ==> r.error == ValueError
      ensures thetaMin == if r.Ok? then value else old(thetaMin)
      ensures order == old(order) && phiMin == old(phiMin) && phiMax == old(phiMax) && thetaMax == old(thetaMax)
    {
      var checked := CheckDegrees(defaults.thetaMin, defaults.thetaMax, value);
      if checked.Err? {
        return Err(checked.error);
      }
      thetaMin := checked.value;
      return Ok(());
    }

    /** The `theta_max` setter. */
    method SetThetaMax(value: real) returns (r: Result<()>)
      modifies this
      ensures r.Ok? <==> CheckDegrees(defaults.thetaMin, defaults.thetaMax, value).Ok?
      ensures r.Err? ==> r.error == ValueError
      ensures thetaMax == if r.Ok? then value else old(thetaMax)
      ensures order == old(order) && phiMin == old(phiMin) && phiMax == old(phiMax) && thetaMin == old(thetaMin)
    {
      var checked := CheckDegrees(defaults.thetaMin, defaults.thetaMax, value);
      if checked.Err? {
        return Err(checked.error);
      }
      thetaMax := checked.value;
      return Ok(());
    }

    /** The `order` setter. */
    method SetOrder(value: Num) returns (r: Result<()>)
      modifies this
      ensures r == (match CheckOrder(L, value) case Ok(_) => Ok(()) case Err(e) => Err(e))
      ensures order == if r.Ok? then value.i else old(order)
      ensures phiMin == old(phiMin) && phiMax == old(phiMax) && thetaMin == old(thetaMin) && thetaMax == old(thetaMax)
    {
      var checked := CheckOrder(L, value);
      if checked.Err? {
        return Err(checked.error);
      }
      order := checked.value;
      return Ok(());
    }
  }

  /** The setters are independent: any minimum and maximum that each pass
      their own check are both stored, even a minimum above the maximum. */
  lemma NoCrossCheck(lo: real, hi: real, a: real, b: real)
    requires lo <= Rad2Deg(b) < Rad2Deg(a) <= hi
    ensures CheckDegrees(lo, hi, a) == Ok(a) && CheckDegrees(lo, hi, b) == Ok(b) && a > b
  {
    assert Rad2Deg(b) < Rad2Deg(a);
  }

  /** A non-integer order is refused as such even when its magnitude would
      also be out of range. */
  lemma TypeCheckedFirst(L: int, x: real)
    requires x >= L as real
    ensures CheckOrder(L, Float(x)) == Err(TypeError)
  {
  }
}
