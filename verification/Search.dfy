/** The driver search and its caches (src/search/search.cxx), and the order of
    its phases (src/search/main.cxx). */
module Search {
  import opened Wrappers
  import opened Paths
  import opened FileSystems
  import opened Sonames

  datatype Driver = Driver(version: int, dir: Path)

  /** A SearchState, and the trace of the inodes whose library was opened. */
  datatype State = State(
    found: Option<Driver>, dirPaths: set<Path>, dirInodes: set<nat>, versions: map<nat, int>,
    probed: seq<nat>)

  const FRESH: State := State(None, {}, {}, map[], [])

  /** The better of what was found and a usable version; the earlier one wins a tie. */
  function Better(found: Option<Driver>, ver: int, dir: Path): Option<Driver> {
    if found.None? || ver > found.value.version then Some(Driver(ver, dir)) else found
  }

  /** The answer about a library file with the version cache as it is. */
  function CachedVersion(fs: FileSystem, versions: map<nat, int>, p: Path, ino: nat): int {
    if ino in versions then versions[ino] else Probe(fs, p)
  }

  /** What a probe leaves in the version cache: the shim's -2 is kept as -1. */
  function Recorded(fs: FileSystem, p: Path): int {
    if Probe(fs, p) == -2 && fs.dlopen(p).value.autocompat then -1 else Probe(fs, p)
  }

  /** The candidate's directory is new to both directory caches. */
  predicate Unvisited(fs: FileSystem, s: State, p: Path) {
    && p.Parent() !in s.dirPaths
    && DirInode(fs, p.Parent()).Some?
    && DirInode(fs, p.Parent()).value !in s.dirInodes
  }

  /** The version update_libcuda weighs, or None when it skips the candidate. */
  function Offer(fs: FileSystem, s: State, p: Path): Option<int> {
    if Unvisited(fs, s, p) && FileInode(fs, p).Some? && Companions(fs, p.Parent()) then
      var ver := CachedVersion(fs, s.versions, p, FileInode(fs, p).value);
      if Usable(ver) then Some(ver) else None
    else None
  }

  /** The caches after a candidate, whatever is decided about it. */
  function Visit(fs: FileSystem, s: State, p: Path): State {
    var dir := p.Parent();
    var s1 := s.(dirPaths := s.dirPaths + {dir});
    if !Unvisited(fs, s, p) then s1
    else
      var s2 := s1.(dirInodes := s1.dirInodes + {DirInode(fs, dir).value});
      if FileInode(fs, p).None? || FileInode(fs, p).value in s.versions then s2
      else
        var ino := FileInode(fs, p).value;
        s2.(versions := s.versions[ino := Recorded(fs, p)], probed := s.probed + [ino])
  }

  /** update_libcuda's effect on the state. */
  function Update(fs: FileSystem, s: State, p: Path): State {
    match Offer(fs, s, p)
    case None => Visit(fs, s, p)
    case Some(ver) => Visit(fs, s, p).(found := Better(s.found, ver, p.Parent()))
  }

  /** update_libcuda on each candidate in turn. */
  function Run(fs: FileSystem, s: State, cands: seq<Path>): State
    decreases |cands|
  {
    if cands == [] then s else Run(fs, Update(fs, s, cands[0]), cands[1..])
  }

  /** search_libraries_libcuda: it stops at the first usable driver. */
  function LoadedRun(fs: FileSystem, s: State, libs: seq<Path>): State
    decreases |libs|
  {
    if libs == [] then s
    else if libs[0].Filename() != LIBCUDA_SONAME then LoadedRun(fs, s, libs[1..])
    else if Offer(fs, s, libs[0]).Some? then Update(fs, s, libs[0])
    else LoadedRun(fs, Update(fs, s, libs[0]), libs[1..])
  }

  const LIBCUDART_SONAMES: seq<string> := ["libcudart.so.11", "libcudart.so.12", "libcudart.so.13"]

  const TOOLKIT_SUBDIR: Path := Path(false, ["targets", "x86_64-linux", "lib"])

  /** src/search/search.cxx:196-204 */
  function ToolkitOf(fs: FileSystem, lib: Path): Option<Path> {
    EndsWith(fs.canonical(lib).Parent(), TOOLKIT_SUBDIR)
  }

  function CompatDriver(toolkit: Path): Path {
    toolkit.Append("compat").Append(LIBCUDA_SONAME)
  }

  /** The candidate of a loaded libcudart. */
  function FromLib(fs: FileSystem, lib: Path): seq<Path> {
    if lib.Filename() in LIBCUDART_SONAMES && ToolkitOf(fs, lib).Some?
    then [CompatDriver(ToolkitOf(fs, lib).value)] else []
  }

  lemma RuntimeLibrary(fs: FileSystem, lib: Path)
    ensures FromLib(fs, lib) != [] <==>
      && (lib.Filename() == "libcudart.so.11" || lib.Filename() == "libcudart.so.12"
        || lib.Filename() == "libcudart.so.13")
      && ToolkitOf(fs, lib).Some?
  {
  }

  function FromLibs(fs: FileSystem, libs: seq<Path>): seq<Path>
    decreases |libs|
  {
    if libs == [] then [] else FromLib(fs, libs[0]) + FromLibs(fs, libs[1..])
  }

  /** The candidate of CUDA_HOME. */
  function FromHome(fs: FileSystem, home: Option<Path>): seq<Path> {
    if home.Some? && IsRegularFile(fs, CompatDriver(home.value)) then [CompatDriver(home.value)] else []
  }

  /** The toolkit of the first runtime library of a search directory that has one. */
  function FirstToolkit(fs: FileSystem, dir: Path, names: seq<string>): Option<Path>
    decreases |names|
  {
    if names == [] then None
    else
      var lib := dir.Append(names[0]);
      if IsRegularFile(fs, lib) && ToolkitOf(fs, lib).Some? then ToolkitOf(fs, lib)
      else FirstToolkit(fs, dir, names[1..])
  }

  function FromToolkitPath(fs: FileSystem, dir: Path): seq<Path> {
    var toolkit := FirstToolkit(fs, dir, LIBCUDART_SONAMES);
    if toolkit.Some? && IsRegularFile(fs, CompatDriver(toolkit.value)) then [CompatDriver(toolkit.value)]
    else []
  }

  function FromToolkitPaths(fs: FileSystem, paths: seq<Path>): seq<Path>
    decreases |paths|
  {
    if paths == [] then [] else FromToolkitPath(fs, paths[0]) + FromToolkitPaths(fs, paths[1..])
  }

  function FromPath(fs: FileSystem, dir: Path): seq<Path> {
    if IsRegularFile(fs, dir.Append(LIBCUDA_SONAME)) then [dir.Append(LIBCUDA_SONAME)] else []
  }

  function FromPaths(fs: FileSystem, paths: seq<Path>): seq<Path>
    decreases |paths|
  {
    if paths == [] then [] else FromPath(fs, paths[0]) + FromPaths(fs, paths[1..])
  }

  /** The candidates of the four phases after the loaded driver, in order. */
  function Candidates(fs: FileSystem, libs: seq<Path>, home: Option<Path>, paths: seq<Path>): seq<Path> {
    FromLibs(fs, libs) + FromHome(fs, home) + FromToolkitPaths(fs, paths) + FromPaths(fs, paths)
  }

  /** The whole search. */
  function SearchRun(fs: FileSystem, libs: seq<Path>, home: Option<Path>, paths: seq<Path>): State {
    var s := LoadedRun(fs, FRESH, libs);
    if s.found.None? then Run(fs, s, Candidates(fs, libs, home, paths)) else s
  }

  lemma {:induction false} RunConcat(fs: FileSystem, s: State, a: seq<Path>, b: seq<Path>)
    ensures Run(fs, s, a + b) == Run(fs, Run(fs, s, a), b)
    decreases |a|
  {
    if a == [] {
      assert a + b == b;
    } else {
      RunConcat(fs, Update(fs, s, a[0]), a[1..], b);
      assert (a + b)[1..] == a[1..] + b;
    }
  }

  /** One round of a loop that updates with the candidates of each item. */
  lemma RunStep(fs: FileSystem, s: State, first: seq<Path>, rest: seq<Path>)
    requires |first| <= 1
    ensures Run(fs, s, first + rest)
      == Run(fs, if first == [] then s else Update(fs, s, first[0]), rest)
  {
    RunConcat(fs, s, first, rest);
    if first != [] {
      assert first[1..] == [];
    }
  }

  /** src/search/search.h:34-39, with the trace of opened inodes. */
  class SearchState {
    var found: Option<Driver>
    var dirPathCache: set<Path>
    var dirInodeCache: set<nat>
    var verCache: map<nat, int>
    ghost var probed: seq<nat>

    ghost function View(): State
      reads this
    {
      State(found, dirPathCache, dirInodeCache, verCache, probed)
    }

    constructor ()
      ensures View() == FRESH
    {
      found, dirPathCache, dirInodeCache, verCache, probed := None, {}, {}, map[], [];
    }

    /** src/search/search.cxx:35-96 */
    method GetLibcudaApiVer(fs: FileSystem, libcudaPath: Path) returns (r: int)
      modifies `verCache, `probed
      ensures fs.stat(libcudaPath).None? ==> r == -3
      ensures fs.stat(libcudaPath).Some? && fs.stat(libcudaPath).value.kind == Directory ==> r == -4
      ensures FileInode(fs, libcudaPath).None? ==> verCache == old(verCache) && probed == old(probed)
      ensures FileInode(fs, libcudaPath).Some? ==>
        var ino := FileInode(fs, libcudaPath).value;
        && r == CachedVersion(fs, old(verCache), libcudaPath, ino)
        && (ino in old(verCache) ==> verCache == old(verCache) && probed == old(probed))
        && (ino !in old(verCache) ==>
          verCache == old(verCache)[ino := Recorded(fs, libcudaPath)] && probed == old(probed) + [ino])
    {
      var libcudaStat := fs.stat(libcudaPath);
      if libcudaStat.None? {
        return -3;
      }
      if libcudaStat.value.kind == Directory {
        return -4;
      }
      var ino := libcudaStat.value.ino;
      if ino in verCache {
        return verCache[ino];
      }
      verCache := verCache[ino := -1];
      probed := probed + [ino];
      var libcuda := fs.dlopen(libcudaPath);
      if libcuda.None? {
        return -1;
      }
      if libcuda.value.autocompat {
        return -2;
      }
      if !libcuda.value.errorName {
        return -1;
      }
      if !libcuda.value.errorString {
        return -1;
      }
      if !libcuda.value.driverVersion {
        return -1;
      }
      if libcuda.value.reports.Some? {
        verCache := verCache[ino := libcuda.value.reports.value];
      }
      return verCache[ino];
    }

    /** src/search/search.cxx:104-179 */
    method UpdateLibcuda(fs: FileSystem, libcudaPath: Path) returns (r: int)
      modifies this
      ensures View() == Update(fs, old(View()), libcudaPath)
      ensures r >= 0 <==> Offer(fs, old(View()), libcudaPath).Some?
      ensures r == 0 <==> found != old(found)
      ensures r == -1 || r == 0 || r == 1
    {
      var libcudaDir := libcudaPath.Parent();
      if libcudaDir in dirPathCache {
        assert dirPathCache + {libcudaDir} == dirPathCache;
        return -1;
      }
      dirPathCache := dirPathCache + {libcudaDir};
      var libcudaDirStat := fs.stat(libcudaDir);
      if libcudaDirStat.None? {
        return -1;
      }
      if libcudaDirStat.value.kind != Directory {
        return -1;
      }
      if libcudaDirStat.value.ino in dirInodeCache {
        return -1;
      }
      dirInodeCache := dirInodeCache + {libcudaDirStat.value.ino};
      var ver := GetLibcudaApiVer(fs, libcudaPath);
      match ver {
        case -4 => return -1;
        case -3 => return -1;
        case -2 => return -1;
        case -1 => return -1;
        case _ =>
      }
      if !IsRegularFile(fs, libcudaDir.Append(LIBNVIDIA_NVVM_SONAME)) {
        return -1;
      }
      if !IsRegularFile(fs, libcudaDir.Append(LIBNVIDIA_PTXJITCOMPILER_SONAME)) {
        return -1;
      }
      if !IsRegularFile(fs, libcudaDir.Append(LIBCUDADEBUGGER_SONAME)) {
        return -1;
      }
      if found.None? {
        found := Some(Driver(ver, libcudaDir));
        return 0;
      }
      if ver > found.value.version {
        found := Some(Driver(ver, libcudaDir));
        return 0;
      }
      return 1;
    }

    /** src/search/search.cxx:208-218 */
    method SearchLibrariesLibcuda(fs: FileSystem, libs: seq<Path>)
      modifies this
      ensures View() == LoadedRun(fs, old(View()), libs)
    {
      for i := 0 to |libs|
        invariant LoadedRun(fs, View(), libs[i..]) == LoadedRun(fs, old(View()), libs)
      {
        assert libs[i..][1..] == libs[i + 1..];
        if libs[i].Filename() == LIBCUDA_SONAME {
          var r := UpdateLibcuda(fs, libs[i]);
          if r >= 0 {
            return;
          }
        }
      }
    }

    /** src/search/search.cxx:220-238 */
    method SearchLibrariesLibcudart(fs: FileSystem, libs: seq<Path>)
      modifies this
      ensures View() == Run(fs, old(View()), FromLibs(fs, libs))
    {
      for i := 0 to |libs|
        invariant Run(fs, View(), FromLibs(fs, libs[i..])) == Run(fs, old(View()), FromLibs(fs, libs))
      {
        assert libs[i..][1..] == libs[i + 1..];
        RunStep(fs, View(), FromLib(fs, libs[i]), FromLibs(fs, libs[i + 1..]));
        RuntimeLibrary(fs, libs[i]);
        if libs[i].Filename() == "libcudart.so.11" || libs[i].Filename() == "libcudart.so.12"
          || libs[i].Filename() == "libcudart.so.13" {
          var toolkitDir := GetToolkitFromLibcudart(fs, libs[i]);
          if toolkitDir.None? {
            continue;
          }
          var _ := UpdateLibcuda(fs, toolkitDir.value.Append("compat").Append("libcuda.so.1"));
        }
      }
    }

    /** src/search/search.cxx:240-255; home is the value of CUDA_HOME, if set. */
    method SearchCudaHome(fs: FileSystem, home: Option<Path>)
      modifies this
      ensures View() == Run(fs, old(View()), FromHome(fs, home))
    {
      if home.None? {
        return;
      }
      var libcudaPath := home.value.Append("compat").Append("libcuda.so.1");
      if !IsRegularFile(fs, libcudaPath) {
        return;
      }
      RunStep(fs, View(), FromHome(fs, home), []);
      assert FromHome(fs, home) + [] == FromHome(fs, home);
      var _ := UpdateLibcuda(fs, libcudaPath);
    }

    /** src/search/search.cxx:257-282 */
    method SearchPathsLibcudart(fs: FileSystem, paths: seq<Path>)
      modifies this
      ensures View() == Run(fs, old(View()), FromToolkitPaths(fs, paths))
    {
      for i := 0 to |paths|
        invariant Run(fs, View(), FromToolkitPaths(fs, paths[i..]))
          == Run(fs, old(View()), FromToolkitPaths(fs, paths))
      {
        assert paths[i..][1..] == paths[i + 1..];
        RunStep(fs, View(), FromToolkitPath(fs, paths[i]), FromToolkitPaths(fs, paths[i + 1..]));
        ghost var before := View();
        var j := 0;
        while j < |LIBCUDART_SONAMES|
          invariant 0 <= j <= |LIBCUDART_SONAMES| && View() == before
          invariant FirstToolkit(fs, paths[i], LIBCUDART_SONAMES[j..])
            == FirstToolkit(fs, paths[i], LIBCUDART_SONAMES)
        {
          assert LIBCUDART_SONAMES[j..][1..] == LIBCUDART_SONAMES[j + 1..];
          var libcudartPath := paths[i].Append(LIBCUDART_SONAMES[j]);
          j := j + 1;
          if !IsRegularFile(fs, libcudartPath) {
            continue;
          }
          var toolkitDir := GetToolkitFromLibcudart(fs, libcudartPath);
          if toolkitDir.None? {
            continue;
          }
          var libcudaPath := toolkitDir.value.Append("compat").Append("libcuda.so.1");
          if IsRegularFile(fs, libcudaPath) {
            var _ := UpdateLibcuda(fs, libcudaPath);
          }
          break;
        }
      }
    }

    /** src/search/search.cxx:284-296 */
    method SearchPathsLibcuda(fs: FileSystem, paths: seq<Path>)
      modifies this
      ensures View() == Run(fs, old(View()), FromPaths(fs, paths))
    {
      for i := 0 to |paths|
        invariant Run(fs, View(), FromPaths(fs, paths[i..])) == Run(fs, old(View()), FromPaths(fs, paths))
      {
        assert paths[i..][1..] == paths[i + 1..];
        RunStep(fs, View(), FromPath(fs, paths[i]), FromPaths(fs, paths[i + 1..]));
        var libPath := paths[i].Append("libcuda.so.1");
        if !IsRegularFile(fs, libPath) {
          continue;
        }
        var _ := UpdateLibcuda(fs, libPath);
      }
    }
  }

  /** src/search/search.cxx:196-204 */
  method GetToolkitFromLibcudart(fs: FileSystem, libPath: Path) returns (toolkit: Option<Path>)
    ensures toolkit == ToolkitOf(fs, libPath)
  {
    toolkit := CheckPathEndsWith(fs.canonical(libPath).Parent(), TOOLKIT_SUBDIR);
  }

  /** The phases of main (src/search/main.cxx:60-70). */
  method SearchAll(fs: FileSystem, libs: seq<Path>, home: Option<Path>, paths: seq<Path>)
    returns (found: Option<Driver>)
    ensures found == SearchRun(fs, libs, home, paths).found
  {
    var state := new SearchState();
    state.SearchLibrariesLibcuda(fs, libs);
    if state.found.None? {
      ghost var s := state.View();
      state.SearchLibrariesLibcudart(fs, libs);
      state.SearchCudaHome(fs, home);
      state.SearchPathsLibcudart(fs, paths);
      state.SearchPathsLibcuda(fs, paths);
      RunConcat(fs, s, FromLibs(fs, libs), FromHome(fs, home));
      RunConcat(fs, s, FromLibs(fs, libs) + FromHome(fs, home), FromToolkitPaths(fs, paths));
      RunConcat(fs, s, FromLibs(fs, libs) + FromHome(fs, home) + FromToolkitPaths(fs, paths),
                FromPaths(fs, paths));
    }
    return state.found;
  }
}
