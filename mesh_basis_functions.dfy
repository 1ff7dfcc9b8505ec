/** The mesh basis function of a given rank: the rank is validated against
    the number of mesh eigenvalues and names the function after its
    eigenvalue. */
module MeshBasisFunctions {
  import opened Errors
  import opened Strings
  import SlepianRank

  /** `_validate_rank` as written: only a rank above the number of
      eigenvalues is refused, so a rank equal to it passes. */
  function ValidateRankAsWritten(limit: nat, extraArgs: Option<seq<int>>): (r: Result<()>)
    ensures r.Ok? <==> extraArgs.None? || (|extraArgs.value| >= 1 && extraArgs.value[0] <= limit)
    ensures r.Err? ==> r.error == if |extraArgs.value| == 0 then IndexError else ValueError
  {
    match extraArgs
    case None => Ok(())
    case Some(args) =>
      if |args| == 0 then Err(IndexError)
      else if args[0] > limit then Err(ValueError)
      else Ok(())
  }

  /** Construction as written: the rank validator, `_validate_rank`,
      `_setup_args`, and then the name, which reads the eigenvalue of that
      rank. */
  function InitialiseAsWritten(eigenvalues: seq<real>, extraArgs: Option<seq<int>>, rank: Num,
                               formatE: real -> string, meshName: string): (r: Result<string>)
    ensures r.Ok? <==> (
      && SlepianRank.CheckRank(rank).Ok?
      && (extraArgs.None? ==> rank.i < |eigenvalues|)
      && (extraArgs.Some? ==> |extraArgs.value| == 1 && 0 <= extraArgs.value[0] < |eigenvalues|))
    ensures r.Ok? ==> var k := if extraArgs.Some? then extraArgs.value[0] else rank.i;
      0 <= k < |eigenvalues| && r.value == CreateName(meshName, k, eigenvalues, formatE)
    ensures SlepianRank.CheckRank(rank).Ok? && extraArgs == Some([|eigenvalues|]) ==> r == Err(IndexError)
  {
    var initial :- SlepianRank.CheckRank(rank);
    var _ :- ValidateRankAsWritten(|eigenvalues|, extraArgs);
    var r :- SlepianRank.SetupArgs(extraArgs, initial);
    if r < |eigenvalues| then Ok(CreateName(meshName, r, eigenvalues, formatE)) else Err(IndexError)
  }

  /** The rank one past the last eigenvalue passes validation and only fails
      when the name indexes the eigenvalues. */
  lemma RankEqualToLimitPasses(eigenvalues: seq<real>, formatE: real -> string, meshName: string)
    ensures ValidateRankAsWritten(|eigenvalues|, Some([|eigenvalues|])).Ok?
    ensures InitialiseAsWritten(eigenvalues, Some([|eigenvalues|]), Int(0), formatE, meshName) == Err(IndexError)
  {
    assert SlepianRank.SetupArgs(Some([|eigenvalues|]), 0) == Ok(|eigenvalues|);
  }

  /** Construction with the intended check, which is the sphere version's
      `SlepianRank.ValidateRank` against the number of eigenvalues. A rank
      given as the initial value is not covered by `_validate_rank`, so it
      is still looked up. */
  function Initialise(eigenvalues: seq<real>, extraArgs: Option<seq<int>>, rank: Num,
                      formatE: real -> string, meshName: string): (r: Result<string>)
    ensures r.Ok? <==> (
      && SlepianRank.CheckRank(rank).Ok?
      && (extraArgs.None? ==> rank.i < |eigenvalues|)
      && (extraArgs.Some? ==> |extraArgs.value| == 1 && 0 <= extraArgs.value[0] < |eigenvalues|))
    ensures r.Ok? ==> var k := if extraArgs.Some? then extraArgs.value[0] else rank.i;
      0 <= k < |eigenvalues| && r.value == CreateName(meshName, k, eigenvalues, formatE)
    ensures (SlepianRank.CheckRank(rank).Ok? && extraArgs.Some? && |extraArgs.value| >= 1
             && extraArgs.value[0] >= |eigenvalues|) ==> r == Err(ValueError)
  {
    var initial :- SlepianRank.CheckRank(rank);
    var _ :- SlepianRank.ValidateRank(|eigenvalues|, extraArgs);
    var r :- SlepianRank.SetupArgs(extraArgs, initial);
    if r < |eigenvalues| then Ok(CreateName(meshName, r, eigenvalues, formatE)) else Err(IndexError)
  }

  /** With the intended check, a rank from the extra arguments is either
      refused with `ValueError` or names an existing eigenvalue: it never
      reaches the index error. */
  lemma IntendedCheckNeverIndexesOutOfRange(eigenvalues: seq<real>, args: seq<int>,
                                            formatE: real -> string, meshName: string)
    ensures Initialise(eigenvalues, Some(args), Int(0), formatE, meshName) != Err(IndexError) || args == []
    ensures |args| == 1 && 0 <= args[0] < |eigenvalues| ==>
      Initialise(eigenvalues, Some(args), Int(0), formatE, meshName) == Ok(CreateName(meshName, args[0], eigenvalues, formatE))
    ensures |args| == 1 && args[0] >= |eigenvalues| ==>
      Initialise(eigenvalues, Some(args), Int(0), formatE, meshName) == Err(ValueError)
  {
  }

  /** `_create_name`: `{mesh}_rank{r}_lam{eigenvalue:e}`, cleaned. */
  function CreateName(meshName: string, rank: nat, eigenvalues: seq<real>, formatE: real -> string): (name: string)
    requires rank < |eigenvalues|
    ensures '.' !in name && '+' !in name
  {
    SafeName(meshName + "_rank" + IntToString(rank) + "_lam" + formatE(eigenvalues[rank]))
  }

  /** The rank survives the cleaning verbatim. */
  lemma NameShowsRank(meshName: string, rank: nat, eigenvalues: seq<real>, formatE: real -> string)
    requires rank < |eigenvalues|
    ensures CreateName(meshName, rank, eigenvalues, formatE)
      == SafeName(meshName) + "_rank" + IntToString(rank) + SafeName("_lam" + formatE(eigenvalues[rank]))
  {
    var middle := "_rank" + IntToString(rank);
    var tail := "_lam" + formatE(eigenvalues[rank]);
    assert meshName + "_rank" + IntToString(rank) + "_lam" + formatE(eigenvalues[rank]) == meshName + (middle + tail);
    SafeNameAppend(meshName, middle + tail);
    SafeNameAppend(middle, tail);
    IntToStringIsClean(rank);
    SafeNameNoOp(middle);
  }
}
