/** `split_arr_into_chunks(arr_max, ncpu, arr_min)`: the index range
    [arr_min, arr_max) cut into `ncpu` consecutive chunks the way
    `np.array_split` cuts it: with `n` indices, every chunk holds `n / ncpu`
    of them and the first `n % ncpu` chunks one more. */
module ParallelMethods {

  /** `range(lo, hi)`. */
  function Range(lo: nat, hi: int): (r: seq<nat>)
    ensures |r| == if hi <= lo then 0 else hi - lo
    ensures forall k | 0 <= k < |r| :: r[k] == lo + k
    decreases hi - lo
  {
    if hi <= lo then [] else [lo] + Range(lo + 1, hi)
  }

  /** `x in range(lo, hi)` exactly when `lo <= x < hi`. */
  lemma RangeMembers(lo: nat, hi: int, x: nat)
    ensures x in Range(lo, hi) <==> lo <= x < hi
  {
    if lo <= x < hi {
      assert Range(lo, hi)[x - lo] == x;
    }
  }

  lemma RangeAppend(a: nat, b: nat, c: nat)
    requires a <= b <= c
    ensures Range(a, b) + Range(b, c) == Range(a, c)
  {
    var lhs, rhs := Range(a, b) + Range(b, c), Range(a, c);
    assert |lhs| == |rhs|;
    forall k | 0 <= k < |rhs| ensures lhs[k] == rhs[k] {
      if k < b - a {
        assert lhs[k] == Range(a, b)[k];
      } else {
        assert lhs[k] == Range(b, c)[k - (b - a)];
      }
    }
  }

  /** The length of chunk `k` when the quotient is `q` and the remainder `r`. */
  function Width(q: nat, r: nat, k: nat): nat {
    q + if k < r then 1 else 0
  }

  /** Where chunk `k` begins, relative to the start of the range. */
  function Start(q: nat, r: nat, k: nat): nat {
    if k == 0 then 0 else Start(q, r, k - 1) + Width(q, r, k - 1)
  }

  lemma {:induction false} StartClosedForm(q: nat, r: nat, k: nat)
    ensures Start(q, r, k) == k * q + if k < r then k else r
  {
    if k > 0 {
      StartClosedForm(q, r, k - 1);
      assert k * q == (k - 1) * q + q;
    }
  }

  /** Chunk `t`: the indices from its start up to the next chunk's start. */
  function Chunk(q: nat, r: nat, lo: nat, t: nat): seq<nat> {
    Range(lo + Start(q, r, t), lo + Start(q, r, t + 1))
  }

  /** The `p` consecutive chunks of widths `Width(q, r, _)` from `lo` on. */
  function Chunks(q: nat, r: nat, p: nat, lo: nat): (chunks: seq<seq<nat>>)
    ensures |chunks| == p
  {
    seq(p, t requires 0 <= t < p => Chunk(q, r, lo, t))
  }

  lemma ChunkAt(q: nat, r: nat, p: nat, lo: nat, t: nat)
    requires t < p
    ensures Chunks(q, r, p, lo)[t] == Chunk(q, r, lo, t)
  {
  }

  /** All elements of the chunks, in chunk order. */
  function Flatten(chunks: seq<seq<nat>>): seq<nat> {
    if chunks == [] then [] else Flatten(chunks[..|chunks| - 1]) + chunks[|chunks| - 1]
  }

  /** Flattening the first `k` chunks adds chunk `k - 1` to the first
      `k - 1`. */
  lemma FlattenStep(chunks: seq<seq<nat>>, k: nat)
    requires 0 < k <= |chunks|
    ensures Flatten(chunks[..k]) == Flatten(chunks[..k - 1]) + chunks[k - 1]
  {
    var prefix := chunks[..k];
    assert prefix[..k - 1] == chunks[..k - 1];
  }

  lemma {:induction false} FlattenPrefix(q: nat, r: nat, p: nat, lo: nat, k: nat)
    requires k <= p
    ensures Flatten(Chunks(q, r, p, lo)[..k]) == Range(lo, lo + Start(q, r, k))
  {
    var chunks := Chunks(q, r, p, lo);
    if k == 0 {
      assert chunks[..0] == [];
    } else {
      FlattenPrefix(q, r, p, lo, k - 1);
      FlattenStep(chunks, k);
      var a, b := lo + Start(q, r, k - 1), lo + Start(q, r, k);
      assert chunks[k - 1] == Range(a, b);
      RangeAppend(lo, a, b);
    }
  }

  /** The `p` chunks of `n / p` indices, one more in the first `n % p`,
      end `n` indices after their start. */
  lemma StartCoversCount(n: nat, p: nat)
    requires 1 <= p
    ensures Start(n / p, n % p, p) == n
  {
    var q, r := n / p, n % p;
    assert p * q + r == n && r < p;
    StartClosedForm(q, r, p);
  }

  lemma ChunkLengths(q: nat, r: nat, p: nat, lo: nat)
    ensures forall k | 0 <= k < p :: |Chunks(q, r, p, lo)[k]| == Width(q, r, k)
  {
    var chunks := Chunks(q, r, p, lo);
    forall k | 0 <= k < p ensures |chunks[k]| == Width(q, r, k) {
      ChunkAt(q, r, p, lo, k);
      assert Start(q, r, k + 1) == Start(q, r, k) + Width(q, r, k);
    }
  }

  /** The number of indices in [arrMin, arrMax). */
  function Count(arrMax: int, arrMin: nat): nat {
    if arrMax <= arrMin then 0 else arrMax - arrMin
  }

  function SplitArrIntoChunks(arrMax: int, ncpu: nat, arrMin: nat): (chunks: seq<seq<nat>>)
    requires 1 <= ncpu
    ensures |chunks| == ncpu
  {
    var n := Count(arrMax, arrMin);
    Chunks(n / ncpu, n % ncpu, ncpu, arrMin)
  }

  /** There are `ncpu` chunks; the first `n % ncpu` hold `n / ncpu + 1`
      indices and the rest `n / ncpu`. */
  lemma SplitLengths(arrMax: int, ncpu: nat, arrMin: nat)
    requires 1 <= ncpu
    ensures var chunks, n := SplitArrIntoChunks(arrMax, ncpu, arrMin), Count(arrMax, arrMin);
      forall k | 0 <= k < ncpu :: |chunks[k]| == Width(n / ncpu, n % ncpu, k)
  {
    var n := Count(arrMax, arrMin);
    ChunkLengths(n / ncpu, n % ncpu, ncpu, arrMin);
  }

  /** Together the chunks list [arrMin, arrMax) in order. */
  lemma SplitCovers(arrMax: int, ncpu: nat, arrMin: nat)
    requires 1 <= ncpu
    ensures Flatten(SplitArrIntoChunks(arrMax, ncpu, arrMin)) == Range(arrMin, arrMax)
  {
    var n := Count(arrMax, arrMin);
    var q, r := n / ncpu, n % ncpu;
    StartCoversCount(n, ncpu);
    ChunksCover(q, r, ncpu, arrMin, n);
    assert Range(arrMin, arrMin + n) == Range(arrMin, arrMax);
  }

  /** Chunks that end `n` indices after `lo` list [lo, lo + n) in order. */
  lemma ChunksCover(q: nat, r: nat, p: nat, lo: nat, n: nat)
    requires Start(q, r, p) == n
    ensures Flatten(Chunks(q, r, p, lo)) == Range(lo, lo + n)
  {
    var chunks := Chunks(q, r, p, lo);
    FlattenPrefix(q, r, p, lo, p);
    assert chunks[..p] == chunks;
  }

  /** The chunk lengths differ by at most one, and are all equal to
      `n / ncpu` when the `n` indices divide evenly. */
  lemma ChunksBalanced(arrMax: int, ncpu: nat, arrMin: nat, a: nat, b: nat)
    requires 1 <= ncpu && a < ncpu && b < ncpu
    ensures var chunks := SplitArrIntoChunks(arrMax, ncpu, arrMin);
      -1 <= |chunks[a]| - |chunks[b]| <= 1
    ensures var n := Count(arrMax, arrMin);
      n % ncpu == 0 ==> |SplitArrIntoChunks(arrMax, ncpu, arrMin)[a]| == n / ncpu
  {
    SplitLengths(arrMax, ncpu, arrMin);
  }

  /** Some chunk among the first `t` holds index `c`. */
  predicate InChunks(chunks: seq<seq<nat>>, t: nat, c: nat)
    requires t <= |chunks|
  {
    exists s | 0 <= s < t :: c in chunks[s]
  }

  /** An index is in the flattened list exactly when some chunk holds it. */
  lemma {:induction false} FlattenMembers(chunks: seq<seq<nat>>, x: nat)
    ensures x in Flatten(chunks) <==> exists c | 0 <= c < |chunks| :: x in chunks[c]
  {
    if chunks != [] {
      var init := chunks[..|chunks| - 1];
      FlattenMembers(init, x);
      if x in Flatten(init) {
        var c :| 0 <= c < |init| && x in init[c];
        assert x in chunks[c];
      }
      if exists c | 0 <= c < |chunks| :: x in chunks[c] {
        var c :| 0 <= c < |chunks| && x in chunks[c];
        if c < |chunks| - 1 {
          assert x in init[c];
        }
      }
    }
  }

  /** The chunks of `split_arr_into_chunks` hold exactly the indices of
      [arrMin, arrMax). */
  lemma SplitMembers(arrMax: int, ncpu: nat, arrMin: nat, x: nat)
    requires 1 <= ncpu
    ensures var chunks := SplitArrIntoChunks(arrMax, ncpu, arrMin);
      (exists c | 0 <= c < ncpu :: x in chunks[c]) <==> arrMin <= x < arrMax
  {
    SplitCovers(arrMax, ncpu, arrMin);
    FlattenMembers(SplitArrIntoChunks(arrMax, ncpu, arrMin), x);
    RangeMembers(arrMin, arrMax, x);
  }
}
