/** The earlier version of the mesh Slepian class: the cache lives in a
    directory per mesh, is read only when both binaries exist, and is
    written only when matrices are to be saved. */
module MeshSlepianLegacy {
  import opened Strings
  import opened Storage
  import opened MeshDMatrix

  /** The cache directory of a mesh with `b` basis functions and Shannon
      number `shannon` under the meshes data path. */
  function EigdLocation(meshesPath: string, name: string, b: nat, shannon: nat): (loc: string)
    ensures Contains(loc, "/laplacians/slepian_functions/" + name + "_b")
  {
    var dir := "/laplacians/slepian_functions/" + name + "_b";
    ContainsItself(dir);
    ContainsInSuffix(meshesPath, dir, dir);
    ContainsInPrefix(meshesPath + dir, dir, NatToString(b) + "_N" + NatToString(shannon));
    assert meshesPath + dir + NatToString(b) + "_N" + NatToString(shannon)
        == (meshesPath + dir) + (NatToString(b) + "_N" + NatToString(shannon));
    meshesPath + dir + NatToString(b) + "_N" + NatToString(shannon)
  }

  /** The eigenvalue binary: a file inside the directory `eigd`, never the
      eigenvector binary. */
  function EvalLocation(eigd: string): (loc: string)
    ensures |loc| > |eigd| + 4 && loc[..|eigd| + 1] == eigd + "/" && loc[|loc| - 4..] == ".npy"
    ensures loc != EvecLocation(eigd)
  {
    eigd + "/eigenvalues.npy"
  }

  function EvecLocation(eigd: string): string { eigd + "/eigenvectors.npy" }

  class MeshSlepian {
    const mesh: MeshData
    const N: nat
    /** The directory of the meshes data, `data/meshes` of the package. */
    const meshesPath: string
    var slepianEigenvalues: Stored
    var slepianFunctions: Stored

    function Eigd(): string {
      EigdLocation(meshesPath, mesh.name, mesh.Size(), N)
    }

    /** `__post_init_post_parse__`, the Shannon number and the
        `SAVE_MATRICES` setting given. */
    constructor (mesh: MeshData, N: nat, meshesPath: string, disk: Disk, ncpu: nat, saveMatrices: bool, eigh: Eigh)
      requires mesh.Valid() && 1 <= ncpu && Shaped(eigh)
      modifies disk
      ensures this.mesh == mesh && this.N == N && this.meshesPath == meshesPath
      ensures Computed(old(disk.files), disk.files, saveMatrices, eigh)
    {
      this.mesh := mesh;
      this.N := N;
      this.meshesPath := meshesPath;
      slepianEigenvalues := RealArray([]);
      slepianFunctions := RealMatrix([]);
      new;
      ComputeSlepianFunctions(disk, ncpu, saveMatrices, eigh);
    }

    /** The loaded pair when both binaries exist; otherwise the fresh
        solution, saved (eigenvalues and the leading `N` eigenvectors) only
        under `SAVE_MATRICES`. */
    ghost predicate Computed(before: map<string, Stored>, after: map<string, Stored>, saveMatrices: bool, eigh: Eigh)
      requires mesh.Valid() && Shaped(eigh)
      reads this
    {
      var evalLoc, evecLoc := EvalLocation(Eigd()), EvecLocation(Eigd());
      if evalLoc in before && evecLoc in before then
        slepianEigenvalues == before[evalLoc] && slepianFunctions == before[evecLoc] && after == before
      else
        var s := Solved(mesh, eigh);
        slepianEigenvalues == RealArray(s.0) && slepianFunctions == RealMatrix(s.1)
        && after == if saveMatrices
                    then before[evalLoc := RealArray(s.0)][evecLoc := RealMatrix(Take(s.1, N))]
                    else before
    }

    /** `_compute_slepian_functions`. */
    method ComputeSlepianFunctions(disk: Disk, ncpu: nat, saveMatrices: bool, eigh: Eigh)
      requires mesh.Valid() && 1 <= ncpu && Shaped(eigh)
      modifies this, disk
      ensures Computed(old(disk.files), disk.files, saveMatrices, eigh)
    {
      var eigd := EigdLocation(meshesPath, mesh.name, mesh.Size(), N);
      var evalLoc, evecLoc := EvalLocation(eigd), EvecLocation(eigd);
      if disk.Exists(evalLoc) && disk.Exists(evecLoc) {
        slepianEigenvalues := disk.files[evalLoc];
        slepianFunctions := disk.files[evecLoc];
      } else {
        var evals, evecs := SolveFromScratch(mesh, ncpu, eigh);
        slepianEigenvalues, slepianFunctions := RealArray(evals), RealMatrix(evecs);
        if saveMatrices {
          disk.Save(evalLoc, RealArray(evals));
          disk.Save(evecLoc, RealMatrix(Take(evecs, N)));
        }
      }
    }
  }
}
