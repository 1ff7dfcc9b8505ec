/** The cached binaries the eigen-solvers read and write, as a map from
    file name to array: a file exists when its name is a key, `np.save`
    adds or replaces a key, and `np.load` reads the array back. */
module Storage {
  import opened ComplexNumbers
  import opened Errors

  datatype Stored =
    | RealArray(reals: seq<real>)
    | ComplexMatrix(entries: seq<seq<Complex>>)
    | RealMatrix(rows: seq<seq<real>>)

  /** `x[:n]`, the leading rows kept when a matrix is saved. */
  function Take<T>(s: seq<T>, n: nat): (t: seq<T>)
    ensures |t| == if n <= |s| then n else |s|
    ensures t <= s
  {
    if n <= |s| then s[..n] else s
  }

  /** `find_on_pooch_then_local(filename)` and the load of what it finds:
      a file of the registry wins over a local one, and only the user data
      directory is searched locally. */
  function FindOnPoochThenLocal(registry: map<string, Stored>, files: map<string, Stored>,
                                userData: string, filename: string): (r: Option<Stored>)
    ensures r.None? <==> filename !in registry && userData + "/" + filename !in files
    ensures filename in registry ==> r == Some(registry[filename])
    ensures filename !in registry && userData + "/" + filename in files ==> r == Some(files[userData + "/" + filename])
  {
    if filename in registry then Some(registry[filename])
    else if userData + "/" + filename in files then Some(files[userData + "/" + filename])
    else None
  }

  class Disk {
    var files: map<string, Stored>

    constructor (initial: map<string, Stored>)
      ensures files == initial
    {
      files := initial;
    }

    /** `Path(path).exists()`. */
    predicate Exists(path: string)
      reads this
    {
      path in files
    }

    /** `np.load(find_on_pooch_then_local(filename))`, with `registry`
        the files of the published data set: the registry first, then the
        file of that name in the user data directory `userData`; `None`
        when neither holds it. */
    function Find(registry: map<string, Stored>, userData: string, filename: string): (r: Option<Stored>)
      reads this
      ensures r == FindOnPoochThenLocal(registry, files, userData, filename)
    {
      FindOnPoochThenLocal(registry, files, userData, filename)
    }

    /** `np.save(path, x)`. */
    method Save(path: string, x: Stored)
      modifies this
      ensures files == old(files)[path := x]
      ensures Exists(path)
    {
      files := files[path := x];
    }
  }
}
