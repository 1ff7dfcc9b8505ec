/** The Slepian function of a given rank in the earlier package: the `rank`
    setter, the check of the extra arguments against the number of
    eigenvectors, and the name and multipole the rank selects. */
module LegacySlepianKernel {
  import opened ComplexNumbers
  import opened Errors
  import opened Strings
  import SlepianRank

  class Slepian {
    const slepianName: string
    const eigenvectors: seq<seq<Complex>>
    var rank: nat

    /** The dataclass initialiser: the Slepian object is set and the rank
        starts at its default before its setter runs. */
    constructor (slepianName: string, eigenvectors: seq<seq<Complex>>)
      ensures this.slepianName == slepianName && this.eigenvectors == eigenvectors && rank == 0
    {
      this.slepianName, this.eigenvectors := slepianName, eigenvectors;
      rank := 0;
    }

    /** The `rank` setter: the default 0 for the property object, then
      `TypeError` for a non-integer and `ValueError` for a negative one. */
    method SetRank(arg: SetterArg<Num>) returns (r: Result<()>)
      modifies this
      ensures var checked := SlepianRank.CheckRank(arg.OrDefault(Int(0)));
        (r.Ok? <==> checked.Ok?) && (r.Err? ==> r.error == checked.error) &&
        rank == if checked.Ok? then checked.value else old(rank)
    {
      var value := arg.OrDefault(Int(0));
      if value.Float? {
        return Err(TypeError);
      }
      if value.i < 0 {
        return Err(ValueError);
      }
      rank := value.i;
      return Ok(());
    }

    /** `_setup_args`: exactly one extra argument, stored through the
        setter. */
    method SetupArgs(extraArgs: Option<seq<int>>) returns (r: Result<()>)
      modifies this
      ensures extraArgs.None? ==> r.Ok? && rank == old(rank)
      ensures extraArgs.Some? && |extraArgs.value| != 1 ==> r == Err(ValueError) && rank == old(rank)
      ensures extraArgs.Some? && |extraArgs.value| == 1 ==>
        var checked := SlepianRank.CheckRank(Int(extraArgs.value[0]));
        (r.Ok? <==> checked.Ok?) && rank == if checked.Ok? then checked.value else old(rank)
    {
      if extraArgs.None? {
        return Ok(());
      }
      if |extraArgs.value| != 1 {
        return Err(ValueError);
      }
      r := SetRank(Given(Int(extraArgs.value[0])));
    }

    /** `_create_name`. */
    function Name(): string
      reads this
    {
      slepianName + "_rank" + IntToString(rank)
    }

    /** `_create_flm`: the eigenvector of that rank, or `IndexError` when
        there is none. */
    function Multipole(): (m: Result<seq<Complex>>)
      reads this
      ensures m.Ok? <==> rank < |eigenvectors|
      ensures m.Ok? ==> m.value == eigenvectors[rank]
      ensures m.Err? ==> m.error == IndexError
    {
      if rank < |eigenvectors| then Ok(eigenvectors[rank]) else Err(IndexError)
    }
  }

  /** `__post_init__`: the setter on the given rank, `_validate_rank`, then
      through `super().__post_init__()` `_setup_args` and `_create_flm`,
      which indexes the eigenvectors with the final rank. Only a rank from
      the extra arguments is compared with the number of eigenvectors, so a
      rank given directly that has no eigenvector fails with `IndexError`. */
  method NewSlepian(slepianName: string, eigenvectors: seq<seq<Complex>>, rankArg: SetterArg<Num>,
                    extraArgs: Option<seq<int>>) returns (r: Result<Slepian>)
    ensures r.Ok? <==> (
      && SlepianRank.CheckRank(rankArg.OrDefault(Int(0))).Ok?
      && (extraArgs.Some? ==> |extraArgs.value| == 1 && 0 <= extraArgs.value[0] < |eigenvectors|)
      && (extraArgs.None? ==> rankArg.OrDefault(Int(0)).i < |eigenvectors|))
    ensures r.Ok? ==> fresh(r.value) && r.value.eigenvectors == eigenvectors && r.value.slepianName == slepianName
    ensures r.Ok? ==> r.value.rank == if extraArgs.Some? then extraArgs.value[0] else rankArg.OrDefault(Int(0)).i
    ensures r.Ok? ==> r.value.Multipole() == Ok(eigenvectors[r.value.rank])
    ensures (SlepianRank.CheckRank(rankArg.OrDefault(Int(0))).Ok? && extraArgs.None?
             && rankArg.OrDefault(Int(0)).i >= |eigenvectors|) ==> r == Err(IndexError)
  {
    var s := new Slepian(slepianName, eigenvectors);
    var given := s.SetRank(rankArg);
    if given.Err? {
      return Err(given.error);
    }
    var valid := SlepianRank.ValidateRank(|eigenvectors|, extraArgs);
    if valid.Err? {
      return Err(valid.error);
    }
    var setup := s.SetupArgs(extraArgs);
    if setup.Err? {
      return Err(setup.error);
    }
    var multipole := s.Multipole();
    if multipole.Err? {
      return Err(multipole.error);
    }
    return Ok(s);
  }

  /** An accepted rank from the extra arguments selects an eigenvector and
      names the function after itself. */
  lemma AcceptedRankSelects(s: Slepian, k: nat)
    requires s.rank == k && k < |s.eigenvectors|
    ensures s.Multipole() == Ok(s.eigenvectors[k])
    ensures |s.Name()| > |s.slepianName| + 5 && s.Name()[..|s.slepianName| + 5] == s.slepianName + "_rank"
    ensures ParseInt(s.Name()[|s.slepianName| + 5..]) == k
  {
    var n := s.Name();
    assert n[|s.slepianName| + 5..] == IntToString(k);
    IntToStringRoundTrip(k);
  }
}
