/** What the search looks at and what it accepts, by literal file names: the
    candidates, their order, and the files a result stands for. */
module Eligibility {
  import opened Wrappers
  import opened Paths
  import opened FileSystems
  import opened Sonames
  import opened Search
  import opened SearchProofs
  import opened SearchLaws

  predicate IsRegular(fs: FileSystem, p: Path) {
    fs.stat(p).Some? && fs.stat(p).value.kind == Regular
  }

  /** The files the loader is sent to are all in the directory. */
  ghost predicate FilesThere(fs: FileSystem, dir: Path) {
    && fs.stat(dir).Some? && fs.stat(dir).value.kind == Directory
    && fs.stat(dir.Append("libcuda.so.1")).Some? && fs.stat(dir.Append("libcuda.so.1")).value.kind != Directory
    && IsRegular(fs, dir.Append("libnvidia-nvvm.so.4"))
    && IsRegular(fs, dir.Append("libnvidia-ptxjitcompiler.so.1"))
    && IsRegular(fs, dir.Append("libcudadebugger.so.1"))
  }

  /** A driver of version v: its files, and a library that loads, is not the
      project's own shim, has the three symbols, and reports v. */
  ghost predicate CompleteDriver(fs: FileSystem, dir: Path, v: int) {
    && FilesThere(fs, dir)
    && fs.dlopen(dir.Append("libcuda.so.1")) == Some(Library(false, true, true, true, Some(v)))
    && (v < -4 || -1 < v)
  }

  /** A directory is eligible exactly when it holds a complete driver. */
  lemma EligibleExactly(fs: FileSystem, dir: Path, v: int)
    requires Plain(dir)
    ensures Verdict(fs, DriverIn(dir)) == Some(v) <==> CompleteDriver(fs, dir, v)
  {
    DriverInIsCandidate(dir);
    FilesExactly(fs, dir);
    ProbeExactly(fs, DriverIn(dir), v);
  }

  lemma FilesExactly(fs: FileSystem, dir: Path)
    ensures FilesThere(fs, dir)
      <==> DirInode(fs, dir).Some? && FileInode(fs, DriverIn(dir)).Some? && Companions(fs, dir)
  {
  }

  lemma ProbeExactly(fs: FileSystem, p: Path, v: int)
    ensures Probe(fs, p) == v && Usable(v)
      <==> fs.dlopen(p) == Some(Library(false, true, true, true, Some(v))) && (v < -4 || -1 < v)
  {
  }

  ghost predicate FoundThere(fs: FileSystem, s: State) {
    s.found.Some? ==> FilesThere(fs, s.found.value.dir)
  }

  lemma UpdateThere(fs: FileSystem, s: State, p: Path)
    requires IsCandidate(p) && FoundThere(fs, s)
    ensures FoundThere(fs, Update(fs, s, p))
  {
    CandidateIsDriverIn(p);
    FilesExactly(fs, p.Parent());
  }

  lemma {:induction false} RunThere(fs: FileSystem, s: State, cands: seq<Path>)
    requires AllCandidates(cands) && FoundThere(fs, s)
    ensures FoundThere(fs, Run(fs, s, cands))
    decreases |cands|
  {
    if cands != [] {
      UpdateThere(fs, s, cands[0]);
      RunThere(fs, Update(fs, s, cands[0]), cands[1..]);
    }
  }

  lemma {:induction false} LoadedRunThere(fs: FileSystem, s: State, libs: seq<Path>)
    requires AllWellFormed(libs) && FoundThere(fs, s)
    ensures FoundThere(fs, LoadedRun(fs, s, libs))
    decreases |libs|
  {
    if libs != [] {
      if libs[0].Filename() == LIBCUDA_SONAME {
        LoadedIsCandidate(libs[0]);
        UpdateThere(fs, s, libs[0]);
        LoadedRunThere(fs, Update(fs, s, libs[0]), libs[1..]);
      }
      LoadedRunThere(fs, s, libs[1..]);
    }
  }

  /** Whatever inode numbers there are, the four files of a result exist. */
  lemma FoundFilesExist(fs: FileSystem, libs: seq<Path>, home: Option<Path>, paths: seq<Path>)
    requires AllWellFormed(libs) && AllWellFormed(paths)
    ensures var found := SearchRun(fs, libs, home, paths).found;
      found.Some? ==> FilesThere(fs, found.value.dir)
  {
    LoadedRunThere(fs, FRESH, libs);
    CandidatesAreCandidates(fs, libs, home, paths);
    RunThere(fs, LoadedRun(fs, FRESH, libs), Candidates(fs, libs, home, paths));
  }

  lemma LeftmostEligible(fs: FileSystem, cands: seq<Path>, r: Driver)
    requires AllCandidates(cands) && IsLeftmostMax(fs, cands, Some(r))
    ensures CompleteDriver(fs, r.dir, r.version)
  {
    var i :| IsLeftmostAt(fs, cands, r, i);
    CandidateIsDriverIn(cands[i]);
    EligibleExactly(fs, r.dir, r.version);
  }

  /** Where inode numbers tell drivers apart, a result is a complete driver of
      the version reported. */
  lemma FoundIsComplete(fs: FileSystem, libs: seq<Path>, home: Option<Path>, paths: seq<Path>)
    requires InodesFaithful(fs, SearchedDirs(fs, libs, home, paths))
    requires AllWellFormed(libs) && AllWellFormed(paths)
    ensures var found := SearchRun(fs, libs, home, paths).found;
      found.Some? ==> CompleteDriver(fs, found.value.dir, found.value.version)
  {
    SearchFindsBest(fs, libs, home, paths);
    if FirstUsable(fs, libs).Some? {
      var lib := FirstUsableIsLoaded(fs, libs);
    } else if Best(fs, libs, home, paths).Some? {
      CandidatesAreCandidates(fs, libs, home, paths);
      PlainRunIsLeftmostMax(fs, Candidates(fs, libs, home, paths));
      LeftmostEligible(fs, Candidates(fs, libs, home, paths), Best(fs, libs, home, paths).value);
    }
  }

  /** A loaded library is a usable driver exactly when it is a complete one. */
  lemma UsableExactly(fs: FileSystem, lib: Path)
    requires lib.WellFormed()
    ensures UsableDriver(fs, lib)
      <==> lib.Filename() == "libcuda.so.1" && exists v :: CompleteDriver(fs, lib.Parent(), v)
  {
    if lib.Filename() == "libcuda.so.1" {
      LoadedIsCandidate(lib);
      CandidateIsDriverIn(lib);
      forall v
        ensures Verdict(fs, lib) == Some(v) <==> CompleteDriver(fs, lib.Parent(), v)
      {
        EligibleExactly(fs, lib.Parent(), v);
      }
      if Verdict(fs, lib).Some? {
        assert CompleteDriver(fs, lib.Parent(), Verdict(fs, lib).value);
      }
    }
  }

  /** A complete driver of version v among the loaded libraries. */
  ghost predicate Loaded(fs: FileSystem, libs: seq<Path>, lib: Path, v: int) {
    lib in libs && lib.Filename() == "libcuda.so.1" && CompleteDriver(fs, lib.Parent(), v)
  }

  lemma LoadedExactly(fs: FileSystem, libs: seq<Path>, lib: Path, v: int)
    requires AllWellFormed(libs) && lib in libs
    ensures Loaded(fs, libs, lib, v) <==> lib.Filename() == LIBCUDA_SONAME && Verdict(fs, lib) == Some(v)
  {
    if lib.Filename() == LIBCUDA_SONAME {
      LoadedIsCandidate(lib);
      CandidateIsDriverIn(lib);
      EligibleExactly(fs, lib.Parent(), v);
    }
  }

  lemma {:induction false} FirstUsableIsLoaded(fs: FileSystem, libs: seq<Path>) returns (lib: Path)
    requires AllWellFormed(libs) && FirstUsable(fs, libs).Some?
    ensures var r := FirstUsable(fs, libs).value; Loaded(fs, libs, lib, r.version) && r.dir == lib.Parent()
    decreases |libs|
  {
    lib := libs[0];
    if lib.Filename() == LIBCUDA_SONAME && Verdict(fs, lib).Some? {
      LoadedExactly(fs, libs, lib, Verdict(fs, lib).value);
    } else {
      lib := FirstUsableIsLoaded(fs, libs[1..]);
    }
  }

  lemma {:induction false} LoadedIsUsable(fs: FileSystem, libs: seq<Path>, lib: Path, v: int)
    requires AllWellFormed(libs) && Loaded(fs, libs, lib, v)
    ensures FirstUsable(fs, libs).Some?
    decreases |libs|
  {
    LoadedExactly(fs, libs, lib, v);
    if libs[0] != lib {
      LoadedIsUsable(fs, libs[1..], lib, v);
    }
  }

  /** When a loaded library is a complete driver, the result is such a one. */
  lemma LoadedIsFound(fs: FileSystem, libs: seq<Path>, home: Option<Path>, paths: seq<Path>, lib: Path, v: int)
    returns (taken: Path)
    requires InodesFaithful(fs, SearchedDirs(fs, libs, home, paths))
    requires AllWellFormed(libs) && AllWellFormed(paths) && Loaded(fs, libs, lib, v)
    ensures var found := SearchRun(fs, libs, home, paths).found;
      found.Some? && Loaded(fs, libs, taken, found.value.version) && found.value.dir == taken.Parent()
  {
    SearchFindsBest(fs, libs, home, paths);
    LoadedIsUsable(fs, libs, lib, v);
    taken := FirstUsableIsLoaded(fs, libs);
  }

  /** When none is, the result is at least as good as every complete driver
      among the candidates. */
  lemma BestIsFound(fs: FileSystem, libs: seq<Path>, home: Option<Path>, paths: seq<Path>, c: Path, v: int)
    requires InodesFaithful(fs, SearchedDirs(fs, libs, home, paths))
    requires AllWellFormed(libs) && AllWellFormed(paths) && forall lib, w :: !Loaded(fs, libs, lib, w)
    requires c in Candidates(fs, libs, home, paths) && CompleteDriver(fs, c.Parent(), v)
    ensures var found := SearchRun(fs, libs, home, paths).found;
      found.Some? && found.value.version >= v
  {
    NoneLoaded(fs, libs);
    SearchFindsLeftmostMax(fs, libs, home, paths);
    CandidatesAreCandidates(fs, libs, home, paths);
    CandidateIsDriverIn(c);
    EligibleExactly(fs, c.Parent(), v);
  }

  lemma NoneLoaded(fs: FileSystem, libs: seq<Path>)
    requires AllWellFormed(libs) && forall lib, w :: !Loaded(fs, libs, lib, w)
    ensures forall i :: 0 <= i < |libs| ==> !UsableDriver(fs, libs[i])
  {
    forall i | 0 <= i < |libs|
      ensures !UsableDriver(fs, libs[i])
    {
      if UsableDriver(fs, libs[i]) {
        LoadedExactly(fs, libs, libs[i], Verdict(fs, libs[i]).value);
      }
    }
  }

  /** And it is a complete driver among the candidates. */
  lemma FoundIsCandidate(fs: FileSystem, libs: seq<Path>, home: Option<Path>, paths: seq<Path>)
    returns (c: Path)
    requires InodesFaithful(fs, SearchedDirs(fs, libs, home, paths))
    requires AllWellFormed(libs) && AllWellFormed(paths) && forall lib, w :: !Loaded(fs, libs, lib, w)
    requires SearchRun(fs, libs, home, paths).found.Some?
    ensures var r := SearchRun(fs, libs, home, paths).found.value;
      c in Candidates(fs, libs, home, paths) && r.dir == c.Parent() && CompleteDriver(fs, r.dir, r.version)
  {
    NoneLoaded(fs, libs);
    SearchFindsLeftmostMax(fs, libs, home, paths);
    FoundIsComplete(fs, libs, home, paths);
    var cands, r := Candidates(fs, libs, home, paths), SearchRun(fs, libs, home, paths).found.value;
    var i :| IsLeftmostAt(fs, cands, r, i);
    c := cands[i];
  }

  /** The toolkit that one runtime library of a search path leads to. */
  function RuntimeToolkit(fs: FileSystem, dir: Path, name: string): Option<Path> {
    if IsRegular(fs, dir.Append(name)) then ToolkitOf(fs, dir.Append(name)) else None
  }

  /** The toolkit of a search path is that of its libcudart.so.11 if it has one,
      else of libcudart.so.12, else of libcudart.so.13. */
  lemma FirstToolkitInOrder(fs: FileSystem, dir: Path)
    ensures var t11, t12, t13 := RuntimeToolkit(fs, dir, "libcudart.so.11"),
                                 RuntimeToolkit(fs, dir, "libcudart.so.12"),
                                 RuntimeToolkit(fs, dir, "libcudart.so.13");
      FirstToolkit(fs, dir, LIBCUDART_SONAMES)
        == if t11.Some? then t11 else if t12.Some? then t12 else t13
  {
    var names := LIBCUDART_SONAMES;
    assert names[1..] == ["libcudart.so.12", "libcudart.so.13"];
    assert names[1..][1..] == ["libcudart.so.13"] && names[1..][1..][1..] == [];
    FirstToolkitStep(fs, dir, names);
    FirstToolkitStep(fs, dir, names[1..]);
    FirstToolkitStep(fs, dir, names[1..][1..]);
  }

  lemma FirstToolkitStep(fs: FileSystem, dir: Path, names: seq<string>)
    requires names != []
    ensures FirstToolkit(fs, dir, names)
      == if RuntimeToolkit(fs, dir, names[0]).Some? then RuntimeToolkit(fs, dir, names[0])
         else FirstToolkit(fs, dir, names[1..])
    ensures names[1..] == [] ==> FirstToolkit(fs, dir, names[1..]).None?
  {
  }

  /** The driver that a toolkit's compat directory holds. */
  predicate IsCompatOf(c: Path, toolkit: Option<Path>) {
    toolkit.Some? && c == toolkit.value.Append("compat").Append("libcuda.so.1")
  }

  /** A loaded runtime library, of any of three versions, leads to c. */
  predicate LibLeadsTo(fs: FileSystem, lib: Path, c: Path) {
    && (lib.Filename() == "libcudart.so.11" || lib.Filename() == "libcudart.so.12"
      || lib.Filename() == "libcudart.so.13")
    && IsCompatOf(c, ToolkitOf(fs, lib))
  }

  /** CUDA_HOME leads to c. */
  predicate HomeLeadsTo(fs: FileSystem, home: Option<Path>, c: Path) {
    IsCompatOf(c, home) && IsRegular(fs, c)
  }

  /** A runtime library in a search path leads to c. */
  predicate PathLeadsTo(fs: FileSystem, dir: Path, c: Path) {
    var t11, t12, t13 := RuntimeToolkit(fs, dir, "libcudart.so.11"),
                         RuntimeToolkit(fs, dir, "libcudart.so.12"),
                         RuntimeToolkit(fs, dir, "libcudart.so.13");
    IsCompatOf(c, if t11.Some? then t11 else if t12.Some? then t12 else t13) && IsRegular(fs, c)
  }

  /** c is the driver in a search path. */
  predicate PathHolds(fs: FileSystem, dir: Path, c: Path) {
    c == dir.Append("libcuda.so.1") && IsRegular(fs, c)
  }

  lemma FromLibExactly(fs: FileSystem, lib: Path, c: Path)
    ensures c in FromLib(fs, lib) <==> LibLeadsTo(fs, lib, c)
  {
    RuntimeLibrary(fs, lib);
  }

  lemma FromHomeExactly(fs: FileSystem, home: Option<Path>, c: Path)
    ensures c in FromHome(fs, home) <==> HomeLeadsTo(fs, home, c)
  {
  }

  lemma FromToolkitPathExactly(fs: FileSystem, dir: Path, c: Path)
    ensures c in FromToolkitPath(fs, dir) <==> PathLeadsTo(fs, dir, c)
  {
    FirstToolkitInOrder(fs, dir);
  }

  lemma FromPathExactly(fs: FileSystem, dir: Path, c: Path)
    ensures c in FromPath(fs, dir) <==> PathHolds(fs, dir, c)
  {
  }

  lemma {:induction false} FromLibsHas(fs: FileSystem, libs: seq<Path>, c: Path)
    ensures c in FromLibs(fs, libs) <==> exists lib :: lib in libs && c in FromLib(fs, lib)
    decreases |libs|
  {
    if libs != [] {
      FromLibsHas(fs, libs[1..], c);
      assert libs == [libs[0]] + libs[1..];
    }
  }

  lemma LibsHave(fs: FileSystem, libs: seq<Path>, c: Path)
    ensures c in FromLibs(fs, libs) <==> exists lib :: lib in libs && LibLeadsTo(fs, lib, c)
  {
    FromLibsHas(fs, libs, c);
    forall lib | lib in libs
      ensures c in FromLib(fs, lib) <==> LibLeadsTo(fs, lib, c)
    {
      FromLibExactly(fs, lib, c);
    }
  }

  lemma ToolkitPathsHave(fs: FileSystem, paths: seq<Path>, c: Path)
    ensures c in FromToolkitPaths(fs, paths) <==> exists d :: d in paths && PathLeadsTo(fs, d, c)
  {
    FromToolkitPathsHas(fs, paths, c);
    forall d | d in paths
      ensures c in FromToolkitPath(fs, d) <==> PathLeadsTo(fs, d, c)
    {
      FromToolkitPathExactly(fs, d, c);
    }
  }

  lemma PathsHave(fs: FileSystem, paths: seq<Path>, c: Path)
    ensures c in FromPaths(fs, paths) <==> exists d :: d in paths && PathHolds(fs, d, c)
  {
    FromPathsHas(fs, paths, c);
    forall d | d in paths
      ensures c in FromPath(fs, d) <==> PathHolds(fs, d, c)
    {
      FromPathExactly(fs, d, c);
    }
  }

  /** What the four later phases look at, and nothing else. */
  lemma CandidateExactly(fs: FileSystem, libs: seq<Path>, home: Option<Path>, paths: seq<Path>, c: Path)
    ensures c in Candidates(fs, libs, home, paths) <==>
      || (exists lib :: lib in libs && LibLeadsTo(fs, lib, c))
      || HomeLeadsTo(fs, home, c)
      || (exists d :: d in paths && PathLeadsTo(fs, d, c))
      || (exists d :: d in paths && PathHolds(fs, d, c))
  {
    LibsHave(fs, libs, c);
    FromHomeExactly(fs, home, c);
    ToolkitPathsHave(fs, paths, c);
    PathsHave(fs, paths, c);
  }

  /** Within a phase the candidates come in the order of the lists. */
  lemma {:induction false} LibsInOrder(fs: FileSystem, a: seq<Path>, b: seq<Path>)
    ensures FromLibs(fs, a + b) == FromLibs(fs, a) + FromLibs(fs, b)
    decreases |a|
  {
    if a == [] {
      assert a + b == b;
    } else {
      assert (a + b)[1..] == a[1..] + b;
      LibsInOrder(fs, a[1..], b);
    }
  }

  lemma {:induction false} ToolkitPathsInOrder(fs: FileSystem, a: seq<Path>, b: seq<Path>)
    ensures FromToolkitPaths(fs, a + b) == FromToolkitPaths(fs, a) + FromToolkitPaths(fs, b)
    decreases |a|
  {
    if a == [] {
      assert a + b == b;
    } else {
      assert (a + b)[1..] == a[1..] + b;
      ToolkitPathsInOrder(fs, a[1..], b);
    }
  }

  lemma {:induction false} PathsInOrder(fs: FileSystem, a: seq<Path>, b: seq<Path>)
    ensures FromPaths(fs, a + b) == FromPaths(fs, a) + FromPaths(fs, b)
    decreases |a|
  {
    if a == [] {
      assert a + b == b;
    } else {
      assert (a + b)[1..] == a[1..] + b;
      PathsInOrder(fs, a[1..], b);
    }
  }

  /** A candidate of the phase has version v. */
  ghost predicate Attains(fs: FileSystem, cands: seq<Path>, v: int) {
    exists i :: 0 <= i < |cands| && Verdict(fs, cands[i]) == Some(v)
  }

  /** dir is that of the first candidate of the phase with version v. */
  ghost predicate FirstAttaining(fs: FileSystem, cands: seq<Path>, v: int, dir: Path) {
    exists i :: AttainsFirst(fs, cands, v, dir, i)
  }

  ghost predicate AttainsFirst(fs: FileSystem, cands: seq<Path>, v: int, dir: Path, i: int) {
    && 0 <= i < |cands| && Verdict(fs, cands[i]) == Some(v) && dir == cands[i].Parent()
    && forall j :: 0 <= j < i ==> Verdict(fs, cands[j]) != Some(v)
  }

  lemma LeftmostIsFirst(fs: FileSystem, cands: seq<Path>, r: Driver)
    requires IsLeftmostMax(fs, cands, Some(r))
    ensures FirstAttaining(fs, cands, r.version, r.dir)
  {
    var i :| IsLeftmostAt(fs, cands, r, i);
    assert AttainsFirst(fs, cands, r.version, r.dir, i);
  }

  /** The first of two phases that attains a version decides. */
  lemma FirstOfTwo(fs: FileSystem, a: seq<Path>, b: seq<Path>, v: int, dir: Path)
    requires FirstAttaining(fs, a + b, v, dir)
    ensures Attains(fs, a, v) ==> FirstAttaining(fs, a, v, dir)
    ensures !Attains(fs, a, v) ==> FirstAttaining(fs, b, v, dir)
  {
    var i :| AttainsFirst(fs, a + b, v, dir, i);
    if i < |a| {
      assert (a + b)[i] == a[i];
      assert forall j :: 0 <= j < i ==> (a + b)[j] == a[j];
      assert AttainsFirst(fs, a, v, dir, i);
    } else {
      assert forall j :: 0 <= j < |a| ==> (a + b)[j] == a[j];
      assert forall j :: 0 <= j < |b| ==> (a + b)[|a| + j] == b[j];
      assert AttainsFirst(fs, b, v, dir, i - |a|);
    }
  }

  /** On a tie the earlier phase wins: the toolkits of loaded runtime libraries,
      CUDA_HOME, the toolkits of the search paths, the search paths. */
  lemma EarlierPhaseWins(fs: FileSystem, libs: seq<Path>, home: Option<Path>, paths: seq<Path>, r: Driver)
    requires InodesFaithful(fs, SearchedDirs(fs, libs, home, paths))
    requires AllWellFormed(libs) && AllWellFormed(paths)
    requires forall i :: 0 <= i < |libs| ==> !UsableDriver(fs, libs[i])
    requires SearchRun(fs, libs, home, paths).found == Some(r)
    ensures var a, b, c, d := FromLibs(fs, libs), FromHome(fs, home), FromToolkitPaths(fs, paths),
                              FromPaths(fs, paths);
      var v := r.version;
      && (Attains(fs, a, v) ==> FirstAttaining(fs, a, v, r.dir))
      && (!Attains(fs, a, v) && Attains(fs, b, v) ==> FirstAttaining(fs, b, v, r.dir))
      && (!Attains(fs, a, v) && !Attains(fs, b, v) && Attains(fs, c, v) ==>
        FirstAttaining(fs, c, v, r.dir))
      && (!Attains(fs, a, v) && !Attains(fs, b, v) && !Attains(fs, c, v) ==>
        FirstAttaining(fs, d, v, r.dir))
  {
    SearchFindsLeftmostMax(fs, libs, home, paths);
    LeftmostIsFirst(fs, Candidates(fs, libs, home, paths), r);
    FourPhases(fs, FromLibs(fs, libs), FromHome(fs, home), FromToolkitPaths(fs, paths),
               FromPaths(fs, paths), r.version, r.dir);
  }

  lemma FourPhases(fs: FileSystem, a: seq<Path>, b: seq<Path>, c: seq<Path>, d: seq<Path>, v: int, dir: Path)
    requires FirstAttaining(fs, a + b + c + d, v, dir)
    ensures Attains(fs, a, v) ==> FirstAttaining(fs, a, v, dir)
    ensures !Attains(fs, a, v) && Attains(fs, b, v) ==> FirstAttaining(fs, b, v, dir)
    ensures !Attains(fs, a, v) && !Attains(fs, b, v) && Attains(fs, c, v) ==> FirstAttaining(fs, c, v, dir)
    ensures !Attains(fs, a, v) && !Attains(fs, b, v) && !Attains(fs, c, v) ==> FirstAttaining(fs, d, v, dir)
  {
    FirstOfTwo(fs, a + b + c, d, v, dir);
    EitherAttains(fs, a + b, c, v);
    EitherAttains(fs, a, b, v);
    if Attains(fs, a + b + c, v) {
      FirstOfTwo(fs, a + b, c, v, dir);
      if Attains(fs, a + b, v) {
        FirstOfTwo(fs, a, b, v, dir);
      }
    }
  }

  lemma EitherAttains(fs: FileSystem, a: seq<Path>, b: seq<Path>, v: int)
    ensures Attains(fs, a + b, v) <==> Attains(fs, a, v) || Attains(fs, b, v)
  {
    assert forall i :: 0 <= i < |a| ==> (a + b)[i] == a[i];
    assert forall i :: 0 <= i < |b| ==> (a + b)[|a| + i] == b[i];
  }
}
