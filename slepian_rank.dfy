/** The Slepian function of a given rank: the rank comes from the extra
    arguments, is validated against the number of Slepian functions `L^2`
    and gives the name and coefficients of the function. */
module SlepianRank {
  import opened ComplexNumbers
  import opened Errors
  import opened Strings
  import HarmonicIndex
  import Coefficients

  /** `check_rank`: an integer that is not negative. */
  function CheckRank(v: Num): (r: Result<int>)
    ensures r.Ok? <==> v.Int? && v.i >= 0
    ensures r.Ok? ==> r.value == v.i
    ensures r.Err? ==> r.error == if v.Float? then TypeError else ValueError
  {
    if v.Float? then Err(TypeError)
    else if v.i < 0 then Err(ValueError)
    else Ok(v.i)
  }

  /** `_validate_rank`: only a list of extra arguments is checked; its first
      element must be below `limit` (`L^2` here, the number of eigenvectors
      in the earlier package, the number of mesh eigenvalues once the mesh
      check is corrected). An empty list fails on the index. */
  function ValidateRank(limit: nat, extraArgs: Option<seq<int>>): (r: Result<()>)
    ensures r.Ok? <==> extraArgs.None? || (|extraArgs.value| >= 1 && extraArgs.value[0] < limit)
    ensures r.Err? ==> r.error == if |extraArgs.value| == 0 then IndexError else ValueError
  {
    match extraArgs
    case None => Ok(())
    case Some(args) =>
      if |args| == 0 then Err(IndexError)
      else if args[0] >= limit then Err(ValueError)
      else Ok(())
  }

  /** `_setup_args`: exactly one extra argument, which becomes the rank and
      passes `check_rank`; without extra arguments the rank is kept. */
  function SetupArgs(extraArgs: Option<seq<int>>, rank: int): (r: Result<int>)
    ensures extraArgs.None? ==> r == Ok(rank)
    ensures extraArgs.Some? && |extraArgs.value| != 1 ==> r == Err(ValueError)
    ensures extraArgs.Some? && |extraArgs.value| == 1 ==> r == CheckRank(Int(extraArgs.value[0]))
  {
    match extraArgs
    case None => Ok(rank)
    case Some(args) =>
      if |args| != 1 then Err(ValueError) else CheckRank(Int(args[0]))
  }

  /** The rank stage of construction: the field validator on the initial
      rank, then `_validate_rank`, then `_setup_args`. A rank given
      directly is not compared with `L^2` here; see `Initialise`. */
  function InitialiseRank(L: nat, extraArgs: Option<seq<int>>, rank: Num): (r: Result<int>)
    ensures r.Ok? <==> (
      && CheckRank(rank).Ok?
      && (extraArgs.Some? ==> |extraArgs.value| == 1 && 0 <= extraArgs.value[0] < HarmonicIndex.Sq(L)))
    ensures r.Ok? ==> r.value >= 0 && r.value == if extraArgs.Some? then extraArgs.value[0] else rank.i
    ensures CheckRank(rank).Err? ==> r == CheckRank(rank)
  {
    var initial :- CheckRank(rank);
    var _ :- ValidateRank(HarmonicIndex.Sq(L), extraArgs);
    SetupArgs(extraArgs, initial)
  }

  /** A rank taken from the extra arguments indexes a Slepian function:
      exactly the single-argument lists whose value lies in `[0, L^2)` are
      accepted. */
  lemma RankFromArgumentsInRange(L: nat, args: seq<int>, rank: Num)
    requires CheckRank(rank).Ok?
    ensures InitialiseRank(L, Some(args), rank).Ok? <==> |args| == 1 && 0 <= args[0] < HarmonicIndex.Sq(L)
    ensures InitialiseRank(L, Some(args), rank).Ok? ==> InitialiseRank(L, Some(args), rank).value == args[0]
  {
  }

  /** The range check runs before the count check: an over-long list whose
      first value is too large is refused for its value, and an empty list
      fails on the index before its length is looked at. */
  lemma RangeCheckedBeforeCount(L: nat, args: seq<int>)
    requires |args| >= 2 && args[0] >= HarmonicIndex.Sq(L)
    ensures InitialiseRank(L, Some(args), Int(0)) == Err(ValueError)
    ensures InitialiseRank(L, Some([]), Int(0)) == Err(IndexError)
  {
  }

  /** `_create_name` before cleaning: the order of that rank when the
      Slepian object has orders, the rank and the formatted eigenvalue. */
  function RawName(slepianName: string, order: Option<seq<int>>, rank: nat, eigenvalues: seq<real>,
                   formatE: real -> string): string
    requires rank < |eigenvalues| && (order.Some? ==> rank < |order.value|)
  {
    slepianName + (if order.Some? then "_m" + IntToString(order.value[rank]) else "")
      + "_rank" + IntToString(rank) + "_lam" + formatE(eigenvalues[rank])
  }

  /** Whether a rank indexes the orders (when there are any) and the
      eigenvalues, as `_create_name` reads them. */
  predicate Names(order: Option<seq<int>>, rank: nat, eigenvalues: seq<real>)
  {
    rank < |eigenvalues| && (order.Some? ==> rank < |order.value|)
  }

  /** `_create_name`: the order of the rank is read first, then its
      eigenvalue; a rank past either is `IndexError`. `.` becomes `-` and
      `+` is dropped. */
  function CreateName(slepianName: string, order: Option<seq<int>>, rank: nat, eigenvalues: seq<real>,
                      formatE: real -> string): (name: Result<string>)
    ensures name.Ok? <==> Names(order, rank, eigenvalues)
    ensures name.Err? ==> name.error == IndexError
    ensures name.Ok? ==> '.' !in name.value && '+' !in name.value
  {
    if order.Some? && rank >= |order.value| then Err(IndexError)
    else if rank >= |eigenvalues| then Err(IndexError)
    else Ok(SafeName(RawName(slepianName, order, rank, eigenvalues, formatE)))
  }

  /** The rank survives the cleaning verbatim, between the cleaned prefix
      and the cleaned eigenvalue part. */
  lemma NameShowsRank(slepianName: string, order: Option<seq<int>>, rank: nat, eigenvalues: seq<real>,
                      formatE: real -> string)
    requires rank < |eigenvalues| && (order.Some? ==> rank < |order.value|)
    ensures var prefix := slepianName + (if order.Some? then "_m" + IntToString(order.value[rank]) else "");
      CreateName(slepianName, order, rank, eigenvalues, formatE)
        == Ok(SafeName(prefix) + ("_rank" + IntToString(rank) + SafeName("_lam" + formatE(eigenvalues[rank]))))
  {
    var prefix := slepianName + (if order.Some? then "_m" + IntToString(order.value[rank]) else "");
    var middle := "_rank" + IntToString(rank);
    var tail := "_lam" + formatE(eigenvalues[rank]);
    RawNameParts(slepianName, order, rank, eigenvalues, formatE);
    SafeNameAppend(prefix, middle + tail);
    RankSurvivesCleaning(rank, tail);
  }

  /** The raw name is the prefix, then the rank part, then the eigenvalue
      part. */
  lemma RawNameParts(slepianName: string, order: Option<seq<int>>, rank: nat, eigenvalues: seq<real>,
                     formatE: real -> string)
    requires rank < |eigenvalues| && (order.Some? ==> rank < |order.value|)
    ensures var prefix := slepianName + (if order.Some? then "_m" + IntToString(order.value[rank]) else "");
      RawName(slepianName, order, rank, eigenvalues, formatE)
        == prefix + (("_rank" + IntToString(rank)) + ("_lam" + formatE(eigenvalues[rank])))
  {
  }

  /** The rank part of a name is clean already. */
  lemma RankSurvivesCleaning(rank: nat, tail: string)
    ensures SafeName("_rank" + IntToString(rank) + tail) == "_rank" + IntToString(rank) + SafeName(tail)
  {
    var middle := "_rank" + IntToString(rank);
    SafeNameAppend(middle, tail);
    IntToStringIsClean(rank);
    SafeNameNoOp(middle);
  }

  /** The hook results this function hands to the common initialisation:
      the name, spin 0, not real, and the coefficients of the eigenvector of
      that rank (`slepian_forward` is a parameter). `_create_coefficients`
      indexes the eigenvectors, so a rank past them is `IndexError` too. */
  function Concrete(slepianName: string, order: Option<seq<int>>, rank: nat, eigenvalues: seq<real>,
                    eigenvectors: seq<seq<Complex>>, formatE: real -> string,
                    slepianForward: seq<Complex> -> seq<Complex>): (c: Result<Coefficients.Concrete>)
    ensures c.Ok? <==> Names(order, rank, eigenvalues) && rank < |eigenvectors|
    ensures c.Err? ==> c.error == IndexError
    ensures c.Ok? ==> c.value.spin == 0 && !c.value.reality
    ensures c.Ok? ==> Ok(c.value.name) == CreateName(slepianName, order, rank, eigenvalues, formatE)
    ensures c.Ok? ==> c.value.coefficients == slepianForward(eigenvectors[rank])
  {
    var name :- CreateName(slepianName, order, rank, eigenvalues, formatE);
    if rank >= |eigenvectors| then Err(IndexError)
    else Ok(Coefficients.Concrete(name, 0, false, slepianForward(eigenvectors[rank])))
  }

  /** `__post_init_post_parse__` up to the hooks: the rank stage, then the
      name and the coefficients of the final rank. Only a rank from the
      extra arguments is compared with `L^2`; a rank given directly that
      the Slepian object has no eigenvalue for fails with `IndexError`. */
  function Initialise(L: nat, extraArgs: Option<seq<int>>, rank: Num, slepianName: string,
                      order: Option<seq<int>>, eigenvalues: seq<real>, eigenvectors: seq<seq<Complex>>,
                      formatE: real -> string, slepianForward: seq<Complex> -> seq<Complex>)
    : (r: Result<Coefficients.Concrete>)
    ensures r.Ok? <==> (
      && InitialiseRank(L, extraArgs, rank).Ok?
      && var k := InitialiseRank(L, extraArgs, rank).value;
         k >= 0 && Names(order, k, eigenvalues) && k < |eigenvectors|)
    ensures r.Ok? ==> var k := if extraArgs.Some? then extraArgs.value[0] else rank.i;
      && 0 <= k < |eigenvalues|
      && Ok(r.value.name) == CreateName(slepianName, order, k, eigenvalues, formatE)
      && r.value.coefficients == slepianForward(eigenvectors[k])
    ensures CheckRank(rank).Ok? && extraArgs.None? && rank.i >= |eigenvalues| ==> r == Err(IndexError)
    ensures InitialiseRank(L, extraArgs, rank).Err? ==> r == Err(InitialiseRank(L, extraArgs, rank).error)
  {
    var k :- InitialiseRank(L, extraArgs, rank);
    Concrete(slepianName, order, k, eigenvalues, eigenvectors, formatE, slepianForward)
  }

  /** A rank given directly is never compared with `L^2`: with `L^2`
      eigenvalues and eigenvectors, as the Slepian objects have, the rank
      `L^2` passes the rank stage and construction fails with `IndexError`
      only when the name reads its eigenvalue. */
  lemma DirectRankReachesIndexError(L: nat, slepianName: string, eigenvalues: seq<real>,
                                    eigenvectors: seq<seq<Complex>>, formatE: real -> string,
                                    slepianForward: seq<Complex> -> seq<Complex>)
    requires |eigenvalues| == |eigenvectors| == HarmonicIndex.Sq(L)
    ensures InitialiseRank(L, None, Int(HarmonicIndex.Sq(L))) == Ok(HarmonicIndex.Sq(L))
    ensures Initialise(L, None, Int(HarmonicIndex.Sq(L)), slepianName, None, eigenvalues, eigenvectors,
                       formatE, slepianForward) == Err(IndexError)
  {
  }
}
