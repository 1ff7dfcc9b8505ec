/** The Slepian functions of a region of a mesh: the eigenvectors of the
    concentration matrix, read from the cached binaries when they can be
    found and otherwise computed and saved. The binaries are looked up in
    the published data set and then in the user data directory
    `userData`, but saved in the package's data directory `dataPath`.
    Both directories are parameters: with `dataPath == userData` the
    class saves where it looks, as intended. */
module MeshSlepian {
  import opened Errors
  import opened Strings
  import opened Storage
  import opened MeshDMatrix

  /** The stem of the cache file names of a mesh with `b` basis functions
      and Shannon number `shannon`. */
  function EigdLocation(name: string, b: nat, shannon: nat): (loc: string)
    ensures |loc| > |"meshes_laplacians_slepian_functions_"|
    ensures loc[..|"meshes_laplacians_slepian_functions_"|] == "meshes_laplacians_slepian_functions_"
  {
    "meshes_laplacians_slepian_functions_" + name + "_b" + NatToString(b) + "_N" + NatToString(shannon)
  }

  /** The eigenvalue file: named after the stem, and never the eigenvector
      file, so saving the eigenvectors cannot overwrite the eigenvalues. */
  function EvalLocation(eigd: string): (loc: string)
    ensures |loc| > |eigd| + 4 && loc[..|eigd|] == eigd && loc[|loc| - 4..] == ".npy"
    ensures loc != EvecLocation(eigd)
  {
    eigd + "_eigenvalues.npy"
  }

  function EvecLocation(eigd: string): string { eigd + "_eigenvectors.npy" }

  class MeshSlepian {
    const mesh: MeshData
    /** The Shannon number: how many Slepian functions are well
        concentrated. */
    const N: nat
    var slepianEigenvalues: Stored
    var slepianFunctions: Stored

    /** The stem of this object's cache file names. */
    function Eigd(): string {
      EigdLocation(mesh.name, mesh.Size(), N)
    }

    /** `__post_init_post_parse__`: the Shannon number is given, as its
        computation is not part of this model. */
    constructor (mesh: MeshData, N: nat, disk: Disk, registry: map<string, Stored>, dataPath: string,
                 userData: string, ncpu: nat, eigh: Eigh)
      requires mesh.Valid() && 1 <= ncpu && Shaped(eigh)
      modifies disk
      ensures this.mesh == mesh && this.N == N
      ensures Computed(old(disk.files), disk.files, registry, dataPath, userData, eigh)
    {
      this.mesh := mesh;
      this.N := N;
      slepianEigenvalues := RealArray([]);
      slepianFunctions := RealMatrix([]);
      new;
      ComputeSlepianFunctions(disk, registry, dataPath, userData, ncpu, eigh);
    }

    /** What `_compute_slepian_functions` leaves behind: the two arrays
        when the lookup finds both; otherwise the fresh solution, with the
        eigenvalues and the leading `N` eigenvectors saved under
        `dataPath`. */
    ghost predicate Computed(before: map<string, Stored>, after: map<string, Stored>, registry: map<string, Stored>,
                             dataPath: string, userData: string, eigh: Eigh)
      requires mesh.Valid() && Shaped(eigh)
      reads this
    {
      var evalFound := FindOnPoochThenLocal(registry, before, userData, EvalLocation(Eigd()));
      var evecFound := FindOnPoochThenLocal(registry, before, userData, EvecLocation(Eigd()));
      if evalFound.Some? && evecFound.Some? then
        slepianEigenvalues == evalFound.value && slepianFunctions == evecFound.value && after == before
      else
        var s := Solved(mesh, eigh);
        slepianEigenvalues == RealArray(s.0) && slepianFunctions == RealMatrix(s.1)
        && after == Saved(before, dataPath, Eigd(), s, N)
    }

    /** `_compute_slepian_functions`: loading a missing file raises a
        `TypeError` (the lookup gives `None`), which falls back to the
        computation from scratch, even when the eigenvalues were already
        loaded. */
    method ComputeSlepianFunctions(disk: Disk, registry: map<string, Stored>, dataPath: string,
                                   userData: string, ncpu: nat, eigh: Eigh)
      requires mesh.Valid() && 1 <= ncpu && Shaped(eigh)
      modifies this, disk
      ensures Computed(old(disk.files), disk.files, registry, dataPath, userData, eigh)
    {
      var eigd := EigdLocation(mesh.name, mesh.Size(), N);
      var evalLoc, evecLoc := EvalLocation(eigd), EvecLocation(eigd);
      var evalFound := disk.Find(registry, userData, evalLoc);
      if evalFound.Some? {
        slepianEigenvalues := evalFound.value;
        var evecFound := disk.Find(registry, userData, evecLoc);
        if evecFound.Some? {
          slepianFunctions := evecFound.value;
          return;
        }
      }
      ComputeSlepianFunctionsFromScratch(disk, dataPath + "/" + evalLoc, dataPath + "/" + evecLoc, ncpu, eigh);
    }

    /** `_compute_slepian_functions_from_scratch`: solves, keeps every
        eigenvector and saves the eigenvalues and the leading `N`
        eigenvectors. */
    method ComputeSlepianFunctionsFromScratch(disk: Disk, evalLoc: string, evecLoc: string, ncpu: nat, eigh: Eigh)
      requires mesh.Valid() && 1 <= ncpu && Shaped(eigh)
      modifies this, disk
      ensures var s := Solved(mesh, eigh);
        slepianEigenvalues == RealArray(s.0) && slepianFunctions == RealMatrix(s.1)
        && disk.files == old(disk.files)[evalLoc := RealArray(s.0)][evecLoc := RealMatrix(Take(s.1, N))]
    {
      var evals, evecs := SolveFromScratch(mesh, ncpu, eigh);
      slepianEigenvalues, slepianFunctions := RealArray(evals), RealMatrix(evecs);
      disk.Save(evalLoc, RealArray(evals));
      disk.Save(evecLoc, RealMatrix(Take(evecs, N)));
    }
  }

  /** The files after a computation from scratch: the eigenvalues and the
      leading `N` eigenvectors under `dataPath`. */
  function Saved(before: map<string, Stored>, dataPath: string, eigd: string, s: (seq<real>, seq<seq<real>>), N: nat)
    : (after: map<string, Stored>)
    ensures after.Keys == before.Keys + {dataPath + "/" + EvalLocation(eigd), dataPath + "/" + EvecLocation(eigd)}
  {
    before[dataPath + "/" + EvalLocation(eigd) := RealArray(s.0)][dataPath + "/" + EvecLocation(eigd) := RealMatrix(Take(s.1, N))]
  }

  /** `d/x` and `e/x` are the same path only when `d` and `e` are. */
  lemma SamePathSameDirectory(d: string, e: string, x: string)
    requires d + "/" + x == e + "/" + x
    ensures d == e
  {
    var p, q := d + "/" + x, e + "/" + x;
    assert |d| == |e|;
    assert forall k | 0 <= k < |d| :: d[k] == p[k] == q[k] == e[k];
  }

  /** As written, a file the computation saves is never found by a later
      lookup unless the published data set has it: the package's data
      directory, where it is saved, is not the user data directory, where
      it is looked for. So a second object over the same mesh computes
      the Slepian functions again. */
  lemma SavedFilesNotFoundAsWritten(before: map<string, Stored>, registry: map<string, Stored>, dataPath: string,
                                    userData: string, eigd: string, s: (seq<real>, seq<seq<real>>), N: nat)
    requires dataPath != userData
    requires EvalLocation(eigd) !in registry && userData + "/" + EvalLocation(eigd) !in before
    ensures FindOnPoochThenLocal(registry, Saved(before, dataPath, eigd, s, N), userData, EvalLocation(eigd)) == None
  {
    var x := EvalLocation(eigd);
    EvalNeverEvecPath(userData, dataPath, eigd);
    if userData + "/" + x == dataPath + "/" + x {
      SamePathSameDirectory(userData, dataPath, x);
    }
  }

  /** An eigenvalue file is never an eigenvector file, whatever the
      directories. */
  lemma EvalNeverEvecPath(u: string, d: string, eigd: string)
    ensures u + "/" + EvalLocation(eigd) != d + "/" + EvecLocation(eigd)
  {
    var p, q := u + "/" + EvalLocation(eigd), d + "/" + EvecLocation(eigd);
    assert p[|p| - 8] == 'l' && q[|q| - 8] == 't';
  }

  /** Saved in the directory the lookup searches, a second object loads
      the files back unless the published data set holds its own: the
      same eigenvalues, and the leading `N` eigenvectors only. */
  lemma SecondRunLoadsCache(before: map<string, Stored>, registry: map<string, Stored>, userData: string,
                            eigd: string, s: (seq<real>, seq<seq<real>>), N: nat)
    requires EvalLocation(eigd) !in registry && EvecLocation(eigd) !in registry
    ensures var after := Saved(before, userData, eigd, s, N);
      && FindOnPoochThenLocal(registry, after, userData, EvalLocation(eigd)) == Some(RealArray(s.0))
      && FindOnPoochThenLocal(registry, after, userData, EvecLocation(eigd)) == Some(RealMatrix(Take(s.1, N)))
  {
    assert userData + "/" + EvalLocation(eigd) != userData + "/" + EvecLocation(eigd);
  }
}
