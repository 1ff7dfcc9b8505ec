/** The concentration matrix D of an arbitrary region of the sphere
    (`SlepianArbitrary`): entry (j, i) is the integral over the region of
    the j-th spherical harmonic times the conjugate of the i-th. Each column
    is filled by one call of the matrix helper; for a column of order 0 the
    helper computes only the positive orders and writes each negative order
    from its positive partner. Real and imaginary parts are kept in two
    real matrices, as the source does. */
module SlepianArbitrary {
  import opened ComplexNumbers
  import opened Errors
  import opened HarmonicIndex
  import opened IntegrationMethods
  import opened ParallelMethods
  import opened ArrayMethods
  import opened Storage
  import opened Strings

  /** `(-1) ** m`. */
  function Sign(m: int): (s: real)
    ensures s == 1.0 || s == -1.0
  {
    if m % 2 == 0 then 1.0 else -1.0
  }

  /** The pair the shortcut writes at row ind(ell, -m) from the pair `z` at
      ind(ell, m): the real part times (-1)^m, the imaginary part times
      (-1)^(m+1). */
  function MirrorValue(m: int, z: Complex): (w: Complex)
    ensures w == Scale(Sign(m), Conj(z))
  {
    assert Sign(m + 1) == -Sign(m) by {
      assert (m + 1) % 2 == if m % 2 == 0 then 1 else 0;
    }
    Complex(Sign(m) * z.re, Sign(m + 1) * z.im)
  }

  /** Row `r` of column `i` is written from its positive-order partner. */
  predicate Mirrored(i: nat, r: nat) {
    M(i) == 0 && M(r) < 0 && Ell(r) >= Ell(i)
  }

  /** Row `r` of column `i` is computed directly. */
  predicate Direct(i: nat, r: nat) {
    r == i || (r > i && !(M(i) == 0 && M(r) < 0))
  }

  /** The helper for column `i` writes row `r`. */
  predicate Written(i: nat, r: nat) {
    Direct(i, r) || Mirrored(i, r)
  }

  /** The loop step `j` that writes row `r` of column `i`. */
  function Writer(i: nat, r: nat): nat {
    if Mirrored(i, r) then Mirror(r) else r
  }

  /** A mirrored row is written by a later step of the loop than the
      diagonal. */
  lemma MirrorWrittenLater(i: nat, r: nat)
    requires Mirrored(i, r)
    ensures Mirror(r) > i && M(Mirror(r)) > 0 && !Direct(i, r)
  {
    IndexOrder(i, Mirror(r));
    if r > i {
      IndexOrder(i, r);
    }
  }

  /** Every row below the diagonal of a column ends up written, including
      the negative orders the helper skips. */
  lemma EveryLowerRowWritten(i: nat, r: nat)
    requires i < r
    ensures Written(i, r)
  {
    if M(i) == 0 && M(r) < 0 {
      IndexOrder(i, r);
    }
  }

  /** A mirrored write lands above the diagonal exactly when the row has the
      column's degree. */
  lemma MirrorAboveDiagonal(i: nat, r: nat)
    requires Mirrored(i, r)
    ensures r < i <==> Ell(r) == Ell(i)
  {
    IndexOrder(r, i);
  }

  /** The rows written at loop step `j > i`: row `j` itself unless its order
      is negative under the shortcut, and the mirror of `j` when the
      shortcut applies to a positive order. */
  lemma WrittenAtStep(i: nat, j: nat, r: nat)
    requires i < j
    ensures Written(i, r) && Writer(i, r) == j <==>
      (r == j && !(M(i) == 0 && M(j) < 0)) || (M(i) == 0 && M(j) > 0 && r == Mirror(j))
  {
    if Mirrored(i, r) {
      MirrorWrittenLater(i, r);
      MirrorInvolutive(r);
    }
    if M(i) == 0 && M(j) > 0 && r == Mirror(j) {
      MirrorInvolutive(j);
      IndexOrder(i, j);
    }
  }

  /** The diagonal is the only row of column `i` written before the loop. */
  lemma DiagonalWrittenFirst(i: nat)
    ensures forall r :: Written(i, r) && Writer(i, r) < i + 1 <==> r == i
  {
    forall r
      ensures Written(i, r) && Writer(i, r) < i + 1 <==> r == i
    {
      if Mirrored(i, r) {
        MirrorWrittenLater(i, r);
      }
    }
  }

  /** Every row of the matrix that the helper writes is written by a step
      of its loop. */
  lemma WritersBelowBandlimit(L: nat, i: nat)
    ensures forall r | 0 <= r < Sq(L) && Written(i, r) :: Writer(i, r) < Sq(L)
  {
    forall r | 0 <= r < Sq(L) && Written(i, r)
      ensures Writer(i, r) < Sq(L)
    {
      if Mirrored(i, r) {
        BelowBandlimit(L, r);
        BelowBandlimit(L, Mirror(r));
      }
    }
  }

  type Field = IntegrationMethods.Field

  /** Writes `z` at row `j` of column `c`, then at row `k` the real part
      times `(-1)^m` and the imaginary part times `(-1)^(m+1)`, both read
      back from row `j`. */
  method WritePair(Dr: array2<real>, Di: array2<real>, c: nat, j: nat, k: nat, z: Complex, m: int)
    requires Dr != Di && j != k
    requires Dr.Length0 == Di.Length0 && Dr.Length1 == Di.Length1
    requires j < Dr.Length0 && k < Dr.Length0 && c < Dr.Length1
    modifies Dr, Di
    ensures Dr[j, c] == z.re && Di[j, c] == z.im
    ensures Dr[k, c] == MirrorValue(m, z).re && Di[k, c] == MirrorValue(m, z).im
    ensures forall r, q | 0 <= r < Dr.Length0 && 0 <= q < Dr.Length1 && (q != c || (r != j && r != k)) ::
      Dr[r, q] == old(Dr[r, q]) && Di[r, q] == old(Di[r, q])
  {
    Dr[j, c] := z.re;
    Di[j, c] := z.im;
    Dr[k, c] := Sign(m) * Dr[j, c];
    Di[k, c] := Sign(m + 1) * Di[j, c];
  }

  class SlepianArbitrary {
    /** The bandlimit. */
    const L: nat
    const lMin: nat
    const lMax: nat
    const maskName: string
    /** The Shannon number. */
    const N: nat
    /** The region on the sampling grid. */
    const mask: seq<bool>
    /** The quadrature weights on the sampling grid. */
    const weight: seq<real>
    /** `invert_flm_boosted(create_spherical_harmonic(L, i), L, resolution)`:
        the i-th spherical harmonic sampled on the grid. */
    const synthesise: nat -> Field
    /** `self._fields`, the memo of synthesised harmonics. */
    var fields: map<nat, Field>
    /** The harmonics synthesised since the memo was last reset, in order. */
    ghost var synthesised: seq<nat>

    ghost predicate WellShaped() {
      |weight| == |mask| && forall i :: |synthesise(i)| == |mask|
    }

    ghost predicate Valid()
      reads this
    {
      && WellShaped()
      && lMax <= L
      && (forall i | i in fields :: fields[i] == synthesise(i))
      && (forall i :: i in fields <==> i in synthesised)
      && (forall a, b | 0 <= a < b < |synthesised| :: synthesised[a] != synthesised[b])
    }

    constructor (L: nat, lMin: nat, lMax: nat, maskName: string, N: nat,
                 mask: seq<bool>, weight: seq<real>, synthesise: nat -> Field)
      requires lMax <= L && |weight| == |mask| && forall i :: |synthesise(i)| == |mask|
      ensures Valid() && fields == map[] && synthesised == []
      ensures this.L == L && this.lMin == lMin && this.lMax == lMax && this.maskName == maskName
      ensures this.N == N && this.mask == mask && this.weight == weight && this.synthesise == synthesise
    {
      this.L, this.lMin, this.lMax, this.maskName, this.N := L, lMin, lMax, maskName, N;
      this.mask, this.weight, this.synthesise := mask, weight, synthesise;
      fields, synthesised := map[], [];
    }

    /** The integral over the region of harmonic `i` times the conjugate of
        harmonic `j`. */
    ghost function IntegralValue(i: nat, j: nat): Complex
      requires WellShaped()
    {
      IntegrateRegionSphere(mask, weight, [synthesise(i), ConjField(synthesise(j))])
    }

    /** `_integral(i, j)`: synthesises each harmonic the memo lacks, once,
        and integrates. */
    method Integral(i: nat, j: nat) returns (v: Complex)
      requires Valid()
      modifies this`fields, this`synthesised
      ensures Valid()
      ensures v == IntegralValue(i, j)
      ensures fields.Keys == old(fields.Keys) + {i, j}
      ensures synthesised == old(synthesised) + Missing(old(fields.Keys), i)
                             + Missing(old(fields.Keys) + {i}, j)
    {
      Memoise(i);
      Memoise(j);
      v := IntegrateRegionSphere(mask, weight, [fields[i], ConjField(fields[j])]);
    }

    /** The harmonic `i` when the memo with `keys` lacks it. */
    static function Missing(keys: set<nat>, i: nat): (r: seq<nat>)
      ensures r == [] <==> i in keys
      ensures r != [] ==> r == [i]
    {
      if i in keys then [] else [i]
    }

    /** Synthesises harmonic `i` into the memo unless it is there. */
    method Memoise(i: nat)
      requires Valid()
      modifies this`fields, this`synthesised
      ensures Valid() && i in fields
      ensures fields.Keys == old(fields.Keys) + {i}
      ensures synthesised == old(synthesised) + Missing(old(fields.Keys), i)
    {
      if i !in fields {
        Record(i);
      }
    }

    /** Synthesises harmonic `i` into the memo. */
    method Record(i: nat)
      requires Valid() && i !in fields
      modifies this`fields, this`synthesised
      ensures Valid()
      ensures fields == old(fields)[i := synthesise(i)]
      ensures synthesised == old(synthesised) + [i]
    {
      assert i !in synthesised;
      fields := fields[i := synthesise(i)];
      synthesised := synthesised + [i];
    }

    /** What the helper for column `i` leaves at row `r`. */
    ghost function Expected(i: nat, r: nat): Complex
      requires WellShaped()
    {
      if Mirrored(i, r) then MirrorValue(-M(r), IntegralValue(Mirror(r), i)) else IntegralValue(r, i)
    }

    /** `_matrix_helper(D_r, D_i, i)`: fills column `i` and nothing else. */
    method MatrixHelper(Dr: array2<real>, Di: array2<real>, i: nat)
      requires Valid() && Dr != Di
      requires Dr.Length0 == Dr.Length1 == Di.Length0 == Di.Length1 == Sq(L)
      requires i < Sq(L)
      modifies this`fields, this`synthesised, Dr, Di
      ensures Valid()
      ensures forall r, c | 0 <= r < Sq(L) && 0 <= c < Sq(L) ::
        Dr[r, c] == if c == i && Written(i, r) then Expected(i, r).re else old(Dr[r, c])
      ensures forall r, c | 0 <= r < Sq(L) && 0 <= c < Sq(L) ::
        Di[r, c] == if c == i && Written(i, r) then Expected(i, r).im else old(Di[r, c])
    {
      var n := Dr.Length0;
      var integral := Integral(i, i);
      Dr[i, i] := integral.re;
      Di[i, i] := integral.im;
      DiagonalWrittenFirst(i);
      assert !Mirrored(i, i) && Expected(i, i) == integral;
      HelperLoop(Dr, Di, i);
    }

    /** The loop of the helper: rows `i + 1` up to the end, each writing
        the rows whose writer it is. */
    method HelperLoop(Dr: array2<real>, Di: array2<real>, i: nat)
      requires Valid() && Dr != Di
      requires Dr.Length0 == Dr.Length1 == Di.Length0 == Di.Length1 == Sq(L)
      requires i < Sq(L)
      modifies this`fields, this`synthesised, Dr, Di
      ensures Valid()
      ensures forall r, c | 0 <= r < Sq(L) && 0 <= c < Sq(L) ::
        Dr[r, c] == if c == i && Written(i, r) && i < Writer(i, r) then Expected(i, r).re else old(Dr[r, c])
      ensures forall r, c | 0 <= r < Sq(L) && 0 <= c < Sq(L) ::
        Di[r, c] == if c == i && Written(i, r) && i < Writer(i, r) then Expected(i, r).im else old(Di[r, c])
    {
      var n := Dr.Length0;
      var j := i + 1;
      while j < n
        invariant i < j <= n
        invariant Valid()
        invariant forall r, c | 0 <= r < n && 0 <= c < n ::
          Dr[r, c] == if c == i && Written(i, r) && i < Writer(i, r) < j then Expected(i, r).re else old(Dr[r, c])
        invariant forall r, c | 0 <= r < n && 0 <= c < n ::
          Di[r, c] == if c == i && Written(i, r) && i < Writer(i, r) < j then Expected(i, r).im else old(Di[r, c])
      {
        HelperStep(Dr, Di, i, j);
        j := j + 1;
      }
      WritersBelowBandlimit(L, i);
    }

    /** One pass of the helper's loop, at row `j` of column `i`: writes row
        `j`, and under the order-0 shortcut also its mirror row, or nothing
        when `j` has a negative order the shortcut mirrors. */
    method HelperStep(Dr: array2<real>, Di: array2<real>, i: nat, j: nat)
      requires Valid() && Dr != Di
      requires Dr.Length0 == Dr.Length1 == Di.Length0 == Di.Length1 == Sq(L)
      requires i < j < Sq(L)
      modifies this`fields, this`synthesised, Dr, Di
      ensures Valid()
      ensures forall r, c | 0 <= r < Sq(L) && 0 <= c < Sq(L) ::
        Dr[r, c] == if c == i && Written(i, r) && Writer(i, r) == j then Expected(i, r).re else old(Dr[r, c])
      ensures forall r, c | 0 <= r < Sq(L) && 0 <= c < Sq(L) ::
        Di[r, c] == if c == i && Written(i, r) && Writer(i, r) == j then Expected(i, r).im else old(Di[r, c])
    {
      var mi, ellJ, mj := M(i), Ell(j), M(j);
      BelowBandlimit(L, j);
      forall r | 0 <= r < Sq(L)
        ensures Written(i, r) && Writer(i, r) == j <==>
          (r == j && !(mi == 0 && mj < 0)) || (mi == 0 && mj > 0 && r == Mirror(j))
      {
        WrittenAtStep(i, j, r);
      }
      if mi == 0 && mj != 0 && ellJ < L {
        if mj > 0 {
          MirrorEntry(i, j);
          WriteWithMirror(Dr, Di, i, j);
        }
      } else {
        assert !Mirrored(i, j);
        WriteDirect(Dr, Di, i, j);
      }
    }

    /** The computed pair of row `j`, column `i`. */
    method WriteDirect(Dr: array2<real>, Di: array2<real>, i: nat, j: nat)
      requires Valid() && Dr != Di
      requires Dr.Length0 == Dr.Length1 == Di.Length0 == Di.Length1 == Sq(L)
      requires i < Sq(L) && j < Sq(L) && !Mirrored(i, j)
      modifies this`fields, this`synthesised, Dr, Di
      ensures Valid()
      ensures forall r, c | 0 <= r < Sq(L) && 0 <= c < Sq(L) ::
        Dr[r, c] == if r == j && c == i then Expected(i, j).re else old(Dr[r, c])
      ensures forall r, c | 0 <= r < Sq(L) && 0 <= c < Sq(L) ::
        Di[r, c] == if r == j && c == i then Expected(i, j).im else old(Di[r, c])
    {
      var integral := Integral(j, i);
      Dr[j, i] := integral.re;
      Di[j, i] := integral.im;
    }

    /** The shortcut for an order-0 column: the computed pair of row `j`
        (of positive order) and, from it, the pair of its mirror row. */
    method WriteWithMirror(Dr: array2<real>, Di: array2<real>, i: nat, j: nat)
      requires Valid() && Dr != Di
      requires Dr.Length0 == Dr.Length1 == Di.Length0 == Di.Length1 == Sq(L)
      requires i < Sq(L) && j < Sq(L) && Ell(j) < L && M(i) == 0 && M(j) > 0 && i < j
      modifies this`fields, this`synthesised, Dr, Di
      ensures Valid()
      ensures Mirror(j) < Sq(L) && Mirror(j) != j
      ensures Dr[j, i] == IntegralValue(j, i).re && Di[j, i] == IntegralValue(j, i).im
      ensures Dr[Mirror(j), i] == MirrorValue(M(j), IntegralValue(j, i)).re
      ensures Di[Mirror(j), i] == MirrorValue(M(j), IntegralValue(j, i)).im
      ensures forall r, c | 0 <= r < Sq(L) && 0 <= c < Sq(L) && (c != i || (r != j && r != Mirror(j))) ::
        Dr[r, c] == old(Dr[r, c]) && Di[r, c] == old(Di[r, c])
    {
      var mj := M(j);
      var k := Mirror(j);
      assert k < j;
      var integral := Integral(j, i);
      WritePair(Dr, Di, i, j, k, integral, mj);
    }

    /** Under the shortcut, row `j` is computed and its mirror row holds
        the mirrored value of row `j`. */
    lemma MirrorEntry(i: nat, j: nat)
      requires WellShaped()
      requires j < Sq(L) && Ell(j) < L && M(i) == 0 && M(j) > 0 && i < j
      ensures Mirror(j) == Ind(Ell(j), -M(j)) && Mirror(j) < Sq(L) && Mirror(j) != j
      ensures Mirrored(i, Mirror(j)) && !Mirrored(i, j)
      ensures Expected(i, j) == IntegralValue(j, i)
      ensures Expected(i, Mirror(j)) == MirrorValue(M(j), IntegralValue(j, i))
    {
      var k := Mirror(j);
      MirrorInvolutive(j);
      BelowBandlimit(L, k);
      IndexOrder(i, j);
    }
  
    /** `func(chunk)`: the helper for every column of one chunk, in order. */
    method FillChunk(Dr: array2<real>, Di: array2<real>, chunk: seq<nat>)
      requires Valid() && Dr != Di
      requires Dr.Length0 == Dr.Length1 == Di.Length0 == Di.Length1 == Sq(L)
      requires forall t | 0 <= t < |chunk| :: chunk[t] < Sq(L)
      modifies this`fields, this`synthesised, Dr, Di
      ensures Valid()
      ensures forall r, c | 0 <= r < Sq(L) && 0 <= c < Sq(L) ::
        Dr[r, c] == if c in chunk && Written(c, r) then Expected(c, r).re else old(Dr[r, c])
      ensures forall r, c | 0 <= r < Sq(L) && 0 <= c < Sq(L) ::
        Di[r, c] == if c in chunk && Written(c, r) then Expected(c, r).im else old(Di[r, c])
    {
      var u := 0;
      while u < |chunk|
        invariant 0 <= u <= |chunk| && Valid()
        invariant forall r, c | 0 <= r < Sq(L) && 0 <= c < Sq(L) ::
          Dr[r, c] == if c in chunk[..u] && Written(c, r) then Expected(c, r).re else old(Dr[r, c])
        invariant forall r, c | 0 <= r < Sq(L) && 0 <= c < Sq(L) ::
          Di[r, c] == if c in chunk[..u] && Written(c, r) then Expected(c, r).im else old(Di[r, c])
      {
        MatrixHelper(Dr, Di, chunk[u]);
        assert chunk[..u + 1] == chunk[..u] + [chunk[u]];
        u := u + 1;
      }
      assert chunk[..u] == chunk;
    }

    /** Entry (r, c) of the matrix `_create_D_matrix` returns: the columns
        from L_min^2 up to L_max^2 are filled by the helper, the rest stay 0. */
    ghost function Entry(r: nat, c: nat): Complex
      requires WellShaped()
    {
      if Sq(lMin) <= c < Sq(lMax) && Written(c, r) then Expected(c, r) else Zero
    }

    /** The whole matrix of `Entry`. */
    ghost function BuiltD(): (d: seq<seq<Complex>>)
      requires WellShaped()
      ensures IsSquare(d) && |d| == Sq(L)
    {
      seq(Sq(L), r requires 0 <= r < Sq(L) => seq(Sq(L), c requires 0 <= c < Sq(L) => Entry(r, c)))
    }

    /** `e.map(func, chunks)`, run one chunk after another: every column of
        every chunk is filled, and as each helper call writes its own column
        only, the order of the chunks does not matter. */
    method FillChunks(Dr: array2<real>, Di: array2<real>, chunks: seq<seq<nat>>)
      requires Valid() && Dr != Di
      requires Dr.Length0 == Dr.Length1 == Di.Length0 == Di.Length1 == Sq(L)
      requires forall t, x | 0 <= t < |chunks| && x in chunks[t] :: x < Sq(L)
      modifies this`fields, this`synthesised, Dr, Di
      ensures Valid()
      ensures forall r, c | 0 <= r < Sq(L) && 0 <= c < Sq(L) ::
        Dr[r, c] == if InChunks(chunks, |chunks|, c) && Written(c, r) then Expected(c, r).re else old(Dr[r, c])
      ensures forall r, c | 0 <= r < Sq(L) && 0 <= c < Sq(L) ::
        Di[r, c] == if InChunks(chunks, |chunks|, c) && Written(c, r) then Expected(c, r).im else old(Di[r, c])
    {
      var t := 0;
      while t < |chunks|
        invariant 0 <= t <= |chunks| && Valid()
        invariant forall r, c | 0 <= r < Sq(L) && 0 <= c < Sq(L) ::
          Dr[r, c] == if InChunks(chunks, t, c) && Written(c, r) then Expected(c, r).re else old(Dr[r, c])
        invariant forall r, c | 0 <= r < Sq(L) && 0 <= c < Sq(L) ::
          Di[r, c] == if InChunks(chunks, t, c) && Written(c, r) then Expected(c, r).im else old(Di[r, c])
      {
        var chunk := chunks[t];
        assert forall u | 0 <= u < |chunk| :: chunk[u] in chunks[t];
        FillChunk(Dr, Di, chunk);
        forall c ensures InChunks(chunks, t + 1, c) <==> InChunks(chunks, t, c) || c in chunk {
          if c in chunk {
            assert c in chunks[t];
          }
        }
        t := t + 1;
      }
    }

    /** `_create_D_matrix()`: resets the memo, splits the columns
        [L_min^2, L_max^2) into `ncpu` chunks and fills them. The result
        does not depend on `ncpu`. */
    method CreateDMatrix(ncpu: nat) returns (D: array2<Complex>)
      requires Valid() && 1 <= ncpu
      modifies this`fields, this`synthesised
      ensures Valid() && fresh(D)
      ensures D.Length0 == D.Length1 == Sq(L)
      ensures forall r, c | 0 <= r < Sq(L) && 0 <= c < Sq(L) :: D[r, c] == Entry(r, c)
    {
      fields, synthesised := map[], [];
      var n := Sq(L);
      var Dr := new real[n, n]((r, c) => 0.0);
      var Di := new real[n, n]((r, c) => 0.0);
      var chunks := SplitArrIntoChunks(Sq(lMax), ncpu, Sq(lMin));
      SqMonotone(lMax, L);
      forall c | 0 <= c < n
        ensures InChunks(chunks, ncpu, c) <==> Sq(lMin) <= c < Sq(lMax)
      {
        SplitMembers(Sq(lMax), ncpu, Sq(lMin), c);
      }
      forall t, x | 0 <= t < ncpu && x in chunks[t]
        ensures x < n
      {
        SplitMembers(Sq(lMax), ncpu, Sq(lMin), x);
      }
      FillChunks(Dr, Di, chunks);
      D := new Complex[n, n]((r, c) reads Dr, Di requires 0 <= r < n && 0 <= c < n => Complex(Dr[r, c], Di[r, c]));
    }
  
    /** `_create_matrix_location()`, below the Slepian data directory. */
    function MatrixLocation(slepianPath: string): (loc: string)
      ensures Contains(loc, "/eigensolutions/D_" + maskName)
      ensures |NatToString(N)| <= |loc| && loc[|loc| - |NatToString(N)|..] == NatToString(N)
    {
      var dir := "/eigensolutions/D_" + maskName;
      var tail := "_L" + NatToString(L) + "_N";
      ContainsItself(dir);
      ContainsInSuffix(slepianPath, dir, dir);
      ContainsInPrefix(slepianPath + dir, dir, tail + NatToString(N));
      var loc := slepianPath + dir + tail + NatToString(N);
      assert loc == (slepianPath + dir) + (tail + NatToString(N));
      assert loc[|loc| - |NatToString(N)|..] == NatToString(N);
      loc
    }

    /** A partial run: the bounds of the columns differ from the whole
        range and matrices are being saved. */
    function LargeJob(lMinDefault: nat, saveMatrices: bool): (large: bool)
      ensures !saveMatrices ==> !large
      ensures lMin == lMinDefault && lMax == L ==> !large
      ensures saveMatrices && lMax != L ==> large
    {
      (lMin != lMinDefault || lMax != L) && saveMatrices
    }

    /** Where a partial run leaves its matrix: a `.npy` file under
        `location` named after the bounds of its columns. */
    function IntermediateLocation(location: string): (loc: string)
      ensures |loc| > |location| + 6
      ensures loc[..|location| + 6] == location + "/D_min" && loc[|loc| - 4..] == ".npy"
    {
      location + "/D_min" + NatToString(lMin) + "_max" + NatToString(lMax) + ".npy"
    }

    /** `_solve_D_matrix(eval_loc, evec_loc)`. `eigenSolve` stands for
        `clean_evals_and_evecs(LA.eigh(D))`. A partial run saves the matrix
        as built, before any completion, and fails; otherwise the completed
        matrix is decomposed and, when matrices are saved, all eigenvalues
        but only the first N eigenvectors are written. */
    method SolveDMatrix(disk: Disk, location: string, evalLoc: string, evecLoc: string,
                        saveMatrices: bool, lMinDefault: nat, ncpu: nat,
                        eigenSolve: seq<seq<Complex>> -> (seq<real>, seq<seq<Complex>>))
      returns (result: Result<(Stored, Stored)>)
      requires Valid() && 1 <= ncpu
      modifies this`fields, this`synthesised, disk
      ensures Valid()
      ensures LargeJob(lMinDefault, saveMatrices) ==>
        && result == Err(RuntimeError)
        && disk.files == old(disk.files)[IntermediateLocation(location) := ComplexMatrix(BuiltD())]
      ensures !LargeJob(lMinDefault, saveMatrices) ==>
        var (evals, evecs) := eigenSolve(Completed(BuiltD(), Conj));
        && result == Ok((RealArray(evals), ComplexMatrix(evecs)))
        && disk.files == if saveMatrices
             then old(disk.files)[evalLoc := RealArray(evals)][evecLoc := ComplexMatrix(Take(evecs, N))]
             else old(disk.files)
    {
      var D := CreateDMatrix(ncpu);
      assert forall r | 0 <= r < Sq(L) :: Rows(D)[r] == BuiltD()[r];
      assert Rows(D) == BuiltD();
      if LargeJob(lMinDefault, saveMatrices) {
        disk.Save(IntermediateLocation(location), ComplexMatrix(Rows(D)));
        return Err(RuntimeError);
      }
      FillUpperTriangleOfHermitianMatrix(D, Conj);
      assert Rows(D) == Completed(BuiltD(), Conj);
      var (evals, evecs) := eigenSolve(Rows(D));
      if saveMatrices {
        disk.Save(evalLoc, RealArray(evals));
        disk.Save(evecLoc, ComplexMatrix(Take(evecs, N)));
      }
      return Ok((RealArray(evals), ComplexMatrix(evecs)));
    }

    /** `_solve_eigenproblem()`: the cached binaries, loaded unchecked, when
        both exist; a fresh solution otherwise. */
    method SolveEigenproblem(disk: Disk, slepianPath: string, saveMatrices: bool, lMinDefault: nat,
                             ncpu: nat, eigenSolve: seq<seq<Complex>> -> (seq<real>, seq<seq<Complex>>))
      returns (result: Result<(Stored, Stored)>)
      requires Valid() && 1 <= ncpu
      modifies this`fields, this`synthesised, disk
      ensures Valid()
      ensures var loc := MatrixLocation(slepianPath);
        var evalLoc, evecLoc := loc + "/eigenvalues.npy", loc + "/eigenvectors.npy";
        && (evalLoc in old(disk.files) && evecLoc in old(disk.files) ==>
              result == Ok((old(disk.files)[evalLoc], old(disk.files)[evecLoc])) && disk.files == old(disk.files))
        && (!(evalLoc in old(disk.files) && evecLoc in old(disk.files)) && LargeJob(lMinDefault, saveMatrices) ==>
              && result == Err(RuntimeError)
              && disk.files == old(disk.files)[IntermediateLocation(loc) := ComplexMatrix(BuiltD())])
        && (!(evalLoc in old(disk.files) && evecLoc in old(disk.files)) && !LargeJob(lMinDefault, saveMatrices) ==>
              var (evals, evecs) := eigenSolve(Completed(BuiltD(), Conj));
              && result == Ok((RealArray(evals), ComplexMatrix(evecs)))
              && disk.files == if saveMatrices
                   then old(disk.files)[evalLoc := RealArray(evals)][evecLoc := ComplexMatrix(Take(evecs, N))]
                   else old(disk.files))
    {
      var loc := MatrixLocation(slepianPath);
      var evalLoc, evecLoc := loc + "/eigenvalues.npy", loc + "/eigenvectors.npy";
      if !disk.Exists(evalLoc) || !disk.Exists(evecLoc) {
        result := SolveDMatrix(disk, loc, evalLoc, evecLoc, saveMatrices, lMinDefault, ncpu, eigenSolve);
        return;
      }
      result := Ok((disk.files[evalLoc], disk.files[evecLoc]));
    }

    /** The harmonics obey `Y(ell, -m) == (-1)^m conj(Y(ell, m))`, so the
        order-0 harmonics are real. */
    ghost predicate ConjugateSymmetric()
      requires WellShaped()
    {
      && (forall j | M(j) > 0 :: synthesise(Mirror(j)) == ScaledConjField(Sign(M(j)), synthesise(j)))
      && (forall i | M(i) == 0 :: AllReal(synthesise(i)))
    }

    /** For harmonics with that symmetry the shortcut writes exactly the
        integral it skips computing. */
    lemma ShortcutIsExact(i: nat, r: nat)
      requires WellShaped() && ConjugateSymmetric() && Written(i, r)
      ensures Expected(i, r) == IntegralValue(r, i)
    {
      if Mirrored(i, r) {
        var j := Mirror(r);
        MirrorInvolutive(r);
        assert M(j) > 0 && Mirror(j) == r;
        RegionSphereOfScaledConj(mask, weight, Sign(M(j)), synthesise(j), synthesise(i));
      }
    }

    /** Over the whole range of columns the completed matrix handed to the
        eigen-solver is the concentration matrix: entry (r, c) is the
        region integral of harmonic r times the conjugate of harmonic c. */
    lemma CompletedIsConcentrationMatrix(r: nat, c: nat)
      requires WellShaped() && ConjugateSymmetric() && lMin == 0 && lMax == L
      requires r < Sq(L) && c < Sq(L)
      ensures Completed(BuiltD(), Conj)[r][c] == IntegralValue(r, c)
    {
      if c <= r {
        if c < r {
          EveryLowerRowWritten(c, r);
        }
        ShortcutIsExact(c, r);
      } else {
        EveryLowerRowWritten(r, c);
        ShortcutIsExact(r, c);
        RegionSphereConjSwap(mask, weight, synthesise(c), synthesise(r));
        ConjInvolutive(IntegralValue(r, c));
      }
    }
  }

  /** `check_L_max`: above L is a `ValueError` even for a non-integer; a
      non-integer is a `TypeError`; the default stands for L. */
  function CheckLMax(v: Num, L: nat, lMaxDefault: int): (r: Result<int>)
    ensures r == Err(ValueError) <==> v.AsReal() > L as real
    ensures r == Err(TypeError) <==> v.AsReal() <= L as real && v.Float?
    ensures r.Ok? ==> v.Int? && r.value <= L
    ensures r.Ok? ==> r.value == if v.i == lMaxDefault then L as int else v.i
  {
    if v.AsReal() > L as real then Err(ValueError)
    else if !v.Int? then Err(TypeError)
    else Ok(if v.i != lMaxDefault then v.i else L)
  }

  /** `check_L_min`: negative is a `ValueError`, checked first; a
      non-integer is a `TypeError`. */
  function CheckLMin(v: Num): (r: Result<nat>)
    ensures r == Err(ValueError) <==> v.AsReal() < 0.0
    ensures r == Err(TypeError) <==> v.AsReal() >= 0.0 && v.Float?
    ensures r.Ok? <==> v.Int? && v.i >= 0
    ensures r.Ok? ==> r.value == v.i
  {
    if v.AsReal() < 0.0 then Err(ValueError)
    else if !v.Int? then Err(TypeError)
    else Ok(v.i)
  }
}
