/** Laws of the whole search: what a run finds, what it keeps, and how the
    result depends on the search paths. */
module SearchLaws {
  import opened Wrappers
  import opened Paths
  import opened FileSystems
  import opened Sonames
  import opened Search
  import opened SearchProofs

  ghost predicate AllWellFormed(ps: seq<Path>) {
    forall i :: 0 <= i < |ps| ==> ps[i].WellFormed()
  }

  /** In these directories an inode number names one object, as it does within
      one file system: directories have the same entries, files are the same
      library. */
  ghost predicate InodesIdentifyObjects(fs: FileSystem, ds: set<Path>) {
    && (forall d, e, name :: d in ds && e in ds && SameDirectory(fs, d, e) ==>
      SameObject(fs, d.Append(name), e.Append(name)))
    && (forall p: Path, q: Path :: p.Parent() in ds && q.Parent() in ds && SameFile(fs, p, q) ==>
      fs.dlopen(p) == fs.dlopen(q))
  }

  predicate SameObject(fs: FileSystem, p: Path, q: Path) {
    fs.stat(p) == fs.stat(q) && fs.dlopen(p) == fs.dlopen(q)
  }

  predicate SameFile(fs: FileSystem, p: Path, q: Path) {
    FileInode(fs, p).Some? && FileInode(fs, p) == FileInode(fs, q)
  }

  lemma SameDirectorySameVerdict(fs: FileSystem, ds: set<Path>, d: Path, e: Path)
    requires InodesIdentifyObjects(fs, ds) && d in ds && e in ds
    requires Plain(d) && Plain(e) && SameDirectory(fs, d, e)
    ensures Verdict(fs, DriverIn(d)) == Verdict(fs, DriverIn(e))
  {
    SameEntry(fs, ds, d, e, LIBCUDA_SONAME);
    SameCompanions(fs, ds, d, e);
    VerdictParts(fs, d);
    VerdictParts(fs, e);
  }

  lemma VerdictParts(fs: FileSystem, d: Path)
    requires Plain(d)
    ensures Reached(fs, d) && Companions(fs, d) ==> Verdict(fs, DriverIn(d)) == Answer(fs, d)
    ensures !Reached(fs, d) || !Companions(fs, d) ==> Verdict(fs, DriverIn(d)).None?
  {
    DriverInIsCandidate(d);
  }

  lemma SameCompanions(fs: FileSystem, ds: set<Path>, d: Path, e: Path)
    requires InodesIdentifyObjects(fs, ds) && d in ds && e in ds && SameDirectory(fs, d, e)
    ensures Companions(fs, d) <==> Companions(fs, e)
  {
    SameEntry(fs, ds, d, e, LIBNVIDIA_NVVM_SONAME);
    SameEntry(fs, ds, d, e, LIBNVIDIA_PTXJITCOMPILER_SONAME);
    SameEntry(fs, ds, d, e, LIBCUDADEBUGGER_SONAME);
  }

  lemma SameEntry(fs: FileSystem, ds: set<Path>, d: Path, e: Path, name: string)
    requires InodesIdentifyObjects(fs, ds) && d in ds && e in ds && SameDirectory(fs, d, e)
    ensures fs.stat(d.Append(name)) == fs.stat(e.Append(name))
    ensures fs.dlopen(d.Append(name)) == fs.dlopen(e.Append(name))
  {
    assert SameObject(fs, d.Append(name), e.Append(name));
  }

  lemma SharedFileSameAnswer(fs: FileSystem, ds: set<Path>, d: Path, e: Path)
    requires InodesIdentifyObjects(fs, ds) && d in ds && e in ds
    requires Plain(d) && Plain(e) && SameFile(fs, DriverIn(d), DriverIn(e))
    ensures Answer(fs, d) == Answer(fs, e)
  {
    DriverInIsCandidate(d);
    DriverInIsCandidate(e);
    SameLibrary(fs, ds, DriverIn(d), DriverIn(e));
  }

  lemma SameLibrary(fs: FileSystem, ds: set<Path>, p: Path, q: Path)
    requires InodesIdentifyObjects(fs, ds) && p.Parent() in ds && q.Parent() in ds && SameFile(fs, p, q)
    ensures Probe(fs, p) == Probe(fs, q)
  {
    assert fs.dlopen(p) == fs.dlopen(q);
  }

  /** Within one file system the caches are invisible. */
  lemma IdentityIsFaithful(fs: FileSystem, ds: set<Path>)
    requires InodesIdentifyObjects(fs, ds)
    ensures InodesFaithful(fs, ds)
  {
    forall d, e | d in ds && e in ds && Plain(d) && Plain(e) && SameDirectory(fs, d, e)
      ensures Verdict(fs, DriverIn(d)) == Verdict(fs, DriverIn(e))
    {
      SameDirectorySameVerdict(fs, ds, d, e);
    }
    forall d, e | d in ds && e in ds && Plain(d) && Plain(e) && Shadows(fs, d, e)
      ensures Answer(fs, d) == Answer(fs, e)
    {
      SharedFileSameAnswer(fs, ds, d, e);
    }
  }

  /** The directories of the loaded drivers. */
  function LoadedDirs(libs: seq<Path>): set<Path> {
    set p | p in libs && p.Filename() == LIBCUDA_SONAME :: p.Parent()
  }

  /** The directories of the candidates of the four later phases. */
  function CandidateDirs(fs: FileSystem, libs: seq<Path>, home: Option<Path>, paths: seq<Path>): set<Path> {
    set p | p in Candidates(fs, libs, home, paths) :: p.Parent()
  }

  /** Every directory a search can look at. */
  function SearchedDirs(fs: FileSystem, libs: seq<Path>, home: Option<Path>, paths: seq<Path>): set<Path> {
    LoadedDirs(libs) + CandidateDirs(fs, libs, home, paths)
  }

  // --------------------------------------------------------------- candidates

  lemma CompatIsCandidate(toolkit: Path)
    ensures IsCandidate(CompatDriver(toolkit))
  {
    var dir := toolkit.Append("compat");
    AppendParent(toolkit, "compat");
    AppendParent(dir, LIBCUDA_SONAME);
    assert dir.Filename() != [];
  }

  lemma PathIsCandidate(d: Path)
    requires d.WellFormed()
    ensures IsCandidate(d.Append(LIBCUDA_SONAME))
  {
    var n := |d.comps|;
    AppendParent(d, LIBCUDA_SONAME);
    if n > 0 && d.comps[n - 1] == [] {
      assert d.Append(LIBCUDA_SONAME).Parent().comps == d.comps[..n - 1];
    }
  }

  lemma {:induction false} FromLibsCandidates(fs: FileSystem, libs: seq<Path>)
    ensures AllCandidates(FromLibs(fs, libs))
    decreases |libs|
  {
    if libs != [] {
      FromLibsCandidates(fs, libs[1..]);
      if FromLib(fs, libs[0]) != [] {
        CompatIsCandidate(ToolkitOf(fs, libs[0]).value);
      }
    }
  }

  lemma {:induction false} FromToolkitPathsCandidates(fs: FileSystem, paths: seq<Path>)
    ensures AllCandidates(FromToolkitPaths(fs, paths))
    decreases |paths|
  {
    if paths != [] {
      FromToolkitPathsCandidates(fs, paths[1..]);
      if FromToolkitPath(fs, paths[0]) != [] {
        CompatIsCandidate(FirstToolkit(fs, paths[0], LIBCUDART_SONAMES).value);
      }
    }
  }

  lemma {:induction false} FromPathsCandidates(fs: FileSystem, paths: seq<Path>)
    requires AllWellFormed(paths)
    ensures AllCandidates(FromPaths(fs, paths))
    decreases |paths|
  {
    if paths != [] {
      FromPathsCandidates(fs, paths[1..]);
      PathIsCandidate(paths[0]);
    }
  }

  lemma CandidatesAreCandidates(fs: FileSystem, libs: seq<Path>, home: Option<Path>, paths: seq<Path>)
    requires AllWellFormed(paths)
    ensures AllCandidates(Candidates(fs, libs, home, paths))
  {
    FromLibsCandidates(fs, libs);
    FromToolkitPathsCandidates(fs, paths);
    FromPathsCandidates(fs, paths);
    FromHomeCandidates(fs, home);
    BothCandidates(FromLibs(fs, libs), FromHome(fs, home));
    BothCandidates(FromLibs(fs, libs) + FromHome(fs, home), FromToolkitPaths(fs, paths));
    BothCandidates(FromLibs(fs, libs) + FromHome(fs, home) + FromToolkitPaths(fs, paths), FromPaths(fs, paths));
  }

  lemma FromHomeCandidates(fs: FileSystem, home: Option<Path>)
    ensures AllCandidates(FromHome(fs, home))
  {
    if home.Some? {
      CompatIsCandidate(home.value);
    }
  }

  lemma BothCandidates(a: seq<Path>, b: seq<Path>)
    requires AllCandidates(a) && AllCandidates(b)
    ensures AllCandidates(a + b)
  {
  }

  // ---------------------------------------------------------------- whole run

  /** The phase over loaded drivers finds the first usable one. */
  lemma {:induction false} LoadedRunIsFirstUsable(fs: FileSystem, ds: set<Path>, s: State, libs: seq<Path>)
    requires InodesFaithful(fs, ds) && Tracks(fs, s) && s.dirPaths <= ds && LoadedDirs(libs) <= ds
    requires s.found.None? && AllWellFormed(libs)
    ensures LoadedRun(fs, s, libs).found == FirstUsable(fs, libs)
    ensures Tracks(fs, LoadedRun(fs, s, libs)) && LoadedRun(fs, s, libs).dirPaths <= ds
    decreases |libs|
  {
    if libs != [] {
      var p := libs[0];
      LoadedDirsTail(libs);
      if p.Filename() != LIBCUDA_SONAME {
        LoadedRunIsFirstUsable(fs, ds, s, libs[1..]);
      } else {
        LoadedIsCandidate(p);
        OfferIsVerdict(fs, ds, s, p);
        CandidateIsDriverIn(p);
        UpdateIsConsider(fs, ds, s, p);
        if Offer(fs, s, p).None? {
          LoadedRunIsFirstUsable(fs, ds, Update(fs, s, p), libs[1..]);
        }
      }
    }
  }

  lemma LoadedDirsTail(libs: seq<Path>)
    requires libs != []
    ensures LoadedDirs(libs[1..]) <= LoadedDirs(libs)
    ensures libs[0].Filename() == LIBCUDA_SONAME ==> libs[0].Parent() in LoadedDirs(libs)
  {
  }

  lemma LoadedIsCandidate(p: Path)
    requires p.WellFormed() && p.Filename() == LIBCUDA_SONAME
    ensures IsCandidate(p)
  {
  }

  /** The program finds what it promises: the caches, also those a loaded-driver
      phase without success leaves behind, change nothing. */
  lemma SearchFindsBest(fs: FileSystem, libs: seq<Path>, home: Option<Path>, paths: seq<Path>)
    requires InodesFaithful(fs, SearchedDirs(fs, libs, home, paths))
    requires AllWellFormed(libs) && AllWellFormed(paths)
    ensures SearchRun(fs, libs, home, paths).found == Best(fs, libs, home, paths)
  {
    var ds, s := SearchedDirs(fs, libs, home, paths), LoadedRun(fs, FRESH, libs);
    FreshTracks(fs);
    LoadedRunIsFirstUsable(fs, ds, FRESH, libs);
    CandidatesInDirs(fs, libs, home, paths);
    RunIsPlainRun(fs, ds, s, Candidates(fs, libs, home, paths));
  }

  lemma CandidatesInDirs(fs: FileSystem, libs: seq<Path>, home: Option<Path>, paths: seq<Path>)
    requires AllWellFormed(paths)
    ensures CandidatesIn(Candidates(fs, libs, home, paths), SearchedDirs(fs, libs, home, paths))
  {
    CandidatesAreCandidates(fs, libs, home, paths);
  }

  /** r is the first library in the list that is a usable driver. */
  ghost predicate IsFirstUsable(fs: FileSystem, libs: seq<Path>, r: Driver, i: int) {
    && 0 <= i < |libs| && UsableDriver(fs, libs[i])
    && r == Driver(Verdict(fs, libs[i]).value, libs[i].Parent())
    && forall j :: 0 <= j < i ==> !UsableDriver(fs, libs[j])
  }

  predicate UsableDriver(fs: FileSystem, lib: Path) {
    lib.Filename() == LIBCUDA_SONAME && Verdict(fs, lib).Some?
  }

  lemma {:induction false} FirstUsableAt(fs: FileSystem, libs: seq<Path>, r: Driver, i: int)
    requires IsFirstUsable(fs, libs, r, i)
    ensures FirstUsable(fs, libs) == Some(r)
    decreases |libs|
  {
    if i > 0 {
      assert !UsableDriver(fs, libs[0]);
      assert forall j :: 0 <= j < i - 1 ==> libs[1..][j] == libs[j + 1];
      FirstUsableAt(fs, libs[1..], r, i - 1);
    } else {
      assert UsableDriver(fs, libs[0]);
    }
  }

  /** A usable loaded driver wins, whatever CUDA_HOME and the paths hold. */
  lemma LoadedDriverWins(fs: FileSystem, libs: seq<Path>, home: Option<Path>, paths: seq<Path>,
                         r: Driver, i: int)
    requires InodesFaithful(fs, LoadedDirs(libs)) && AllWellFormed(libs)
    requires IsFirstUsable(fs, libs, r, i)
    ensures SearchRun(fs, libs, home, paths).found == Some(r)
  {
    FreshTracks(fs);
    LoadedRunIsFirstUsable(fs, LoadedDirs(libs), FRESH, libs);
    FirstUsableAt(fs, libs, r, i);
  }

  /** Without a usable loaded driver, the result is the leftmost maximum over
      the candidates of the other phases. */
  lemma SearchFindsLeftmostMax(fs: FileSystem, libs: seq<Path>, home: Option<Path>, paths: seq<Path>)
    requires InodesFaithful(fs, SearchedDirs(fs, libs, home, paths))
    requires AllWellFormed(libs) && AllWellFormed(paths)
    requires forall i :: 0 <= i < |libs| ==> !UsableDriver(fs, libs[i])
    ensures IsLeftmostMax(fs, Candidates(fs, libs, home, paths), SearchRun(fs, libs, home, paths).found)
  {
    NoneUsable(fs, libs);
    SearchFindsBest(fs, libs, home, paths);
    PlainRunIsLeftmostMax(fs, Candidates(fs, libs, home, paths));
  }

  lemma {:induction false} NoneUsable(fs: FileSystem, libs: seq<Path>)
    requires forall i :: 0 <= i < |libs| ==> !UsableDriver(fs, libs[i])
    ensures FirstUsable(fs, libs).None?
    decreases |libs|
  {
    if libs != [] {
      assert !UsableDriver(fs, libs[0]);
      NoneUsable(fs, libs[1..]);
    }
  }

  // ------------------------------------------------------------- search paths

  lemma {:induction false} FromPathsHas(fs: FileSystem, paths: seq<Path>, c: Path)
    ensures c in FromPaths(fs, paths) <==> exists d :: d in paths && c in FromPath(fs, d)
    decreases |paths|
  {
    if paths != [] {
      FromPathsHas(fs, paths[1..], c);
      assert paths == [paths[0]] + paths[1..];
    }
  }

  lemma {:induction false} FromToolkitPathsHas(fs: FileSystem, paths: seq<Path>, c: Path)
    ensures c in FromToolkitPaths(fs, paths) <==> exists d :: d in paths && c in FromToolkitPath(fs, d)
    decreases |paths|
  {
    if paths != [] {
      FromToolkitPathsHas(fs, paths[1..], c);
      assert paths == [paths[0]] + paths[1..];
    }
  }

  lemma CandidatesGrow(fs: FileSystem, libs: seq<Path>, home: Option<Path>, paths: seq<Path>,
                       paths': seq<Path>, c: Path)
    requires forall d :: d in paths ==> d in paths'
    requires c in Candidates(fs, libs, home, paths)
    ensures c in Candidates(fs, libs, home, paths')
  {
    FromPathsHas(fs, paths, c);
    FromPathsHas(fs, paths', c);
    FromToolkitPathsHas(fs, paths, c);
    FromToolkitPathsHas(fs, paths', c);
  }

  lemma DirsGrow(fs: FileSystem, libs: seq<Path>, home: Option<Path>, paths: seq<Path>, paths': seq<Path>)
    requires forall d :: d in paths ==> d in paths'
    ensures SearchedDirs(fs, libs, home, paths) <= SearchedDirs(fs, libs, home, paths')
  {
    forall c | c in Candidates(fs, libs, home, paths)
      ensures c in Candidates(fs, libs, home, paths')
    {
      CandidatesGrow(fs, libs, home, paths, paths', c);
    }
  }

  lemma MaxGrows(fs: FileSystem, cands: seq<Path>, cands': seq<Path>, r: Option<Driver>, r': Option<Driver>)
    requires forall c :: c in cands ==> c in cands'
    requires IsLeftmostMax(fs, cands, r) && IsLeftmostMax(fs, cands', r')
    ensures Improves(r, r')
  {
    if r.Some? {
      var i :| IsLeftmostAt(fs, cands, r.value, i);
      assert cands[i] in cands';
      var j :| 0 <= j < |cands'| && cands'[j] == cands[i];
    }
  }

  /** Adding search paths, anywhere, never loses a result or lowers its version. */
  lemma MorePathsNeverWorse(fs: FileSystem, libs: seq<Path>, home: Option<Path>,
                            paths: seq<Path>, paths': seq<Path>)
    requires InodesFaithful(fs, SearchedDirs(fs, libs, home, paths'))
    requires AllWellFormed(libs) && AllWellFormed(paths) && AllWellFormed(paths')
    requires forall d :: d in paths ==> d in paths'
    ensures Improves(SearchRun(fs, libs, home, paths).found, SearchRun(fs, libs, home, paths').found)
  {
    DirsGrow(fs, libs, home, paths, paths');
    FewerFaithful(fs, SearchedDirs(fs, libs, home, paths), SearchedDirs(fs, libs, home, paths'));
    SearchFindsBest(fs, libs, home, paths);
    SearchFindsBest(fs, libs, home, paths');
    var cands, cands' := Candidates(fs, libs, home, paths), Candidates(fs, libs, home, paths');
    PlainRunIsLeftmostMax(fs, cands);
    PlainRunIsLeftmostMax(fs, cands');
    forall c | c in cands
      ensures c in cands'
    {
      CandidatesGrow(fs, libs, home, paths, paths', c);
    }
    MaxGrows(fs, cands, cands', PlainRun(fs, None, cands), PlainRun(fs, None, cands'));
  }

  /** The version found does not depend on the order of the search paths, nor
      on repetitions. */
  lemma OrderIrrelevant(fs: FileSystem, libs: seq<Path>, home: Option<Path>,
                        paths: seq<Path>, paths': seq<Path>)
    requires InodesFaithful(fs, SearchedDirs(fs, libs, home, paths))
    requires AllWellFormed(libs) && AllWellFormed(paths) && AllWellFormed(paths')
    requires forall d :: d in paths <==> d in paths'
    ensures var r, r' := SearchRun(fs, libs, home, paths).found, SearchRun(fs, libs, home, paths').found;
      (r.None? <==> r'.None?) && (r.Some? ==> r.value.version == r'.value.version)
  {
    DirsGrow(fs, libs, home, paths, paths');
    DirsGrow(fs, libs, home, paths', paths);
    MorePathsNeverWorse(fs, libs, home, paths, paths');
    MorePathsNeverWorse(fs, libs, home, paths', paths);
  }

  // --------------------------------------------------------------- every state

  /** What holds in every state of every run, with no hypothesis about inodes. */
  ghost predicate Sound(fs: FileSystem, s: State) {
    && (forall i, j :: 0 <= i < j < |s.probed| ==> s.probed[i] != s.probed[j])
    && (forall ino :: ino in s.probed <==> ino in s.versions)
    && (forall ino :: ino in s.versions ==> exists p :: Entry(fs, s, p, ino))
    && (s.found.Some? ==>
      && s.found.value.dir in s.dirPaths && Companions(fs, s.found.value.dir)
      && Usable(s.found.value.version))
  }

  /** The version cache's entry for an inode comes from probing p, in a
      directory that was visited. */
  predicate Entry(fs: FileSystem, s: State, p: Path, ino: nat) {
    && p.Parent() in s.dirPaths
    && ino in s.versions && FileInode(fs, p) == Some(ino) && s.versions[ino] == Recorded(fs, p)
  }

  lemma UpdateSound(fs: FileSystem, s: State, p: Path)
    requires Sound(fs, s)
    ensures Sound(fs, Update(fs, s, p))
    ensures Improves(s.found, Update(fs, s, p).found)
  {
    var s' := Update(fs, s, p);
    UpdateCaches(fs, s, p);
    forall ino | ino in s'.versions
      ensures exists q :: Entry(fs, s', q, ino)
    {
      if ino in s.versions {
        var q :| Entry(fs, s, q, ino);
        assert Entry(fs, s', q, ino);
      } else {
        assert Entry(fs, s', p, ino);
      }
    }
    UpdateProbes(fs, s, p);
  }

  lemma UpdateProbes(fs: FileSystem, s: State, p: Path)
    requires Sound(fs, s)
    ensures var s' := Update(fs, s, p);
      && (forall i, j :: 0 <= i < j < |s'.probed| ==> s'.probed[i] != s'.probed[j])
      && (forall ino :: ino in s'.probed <==> ino in s'.versions)
  {
    var s' := Update(fs, s, p);
    if s'.probed != s.probed {
      assert s'.probed == s.probed + [FileInode(fs, p).value];
    }
  }

  lemma {:induction false} RunSound(fs: FileSystem, s: State, cands: seq<Path>)
    requires Sound(fs, s)
    ensures Sound(fs, Run(fs, s, cands))
    ensures Improves(s.found, Run(fs, s, cands).found)
    decreases |cands|
  {
    if cands != [] {
      UpdateSound(fs, s, cands[0]);
      RunSound(fs, Update(fs, s, cands[0]), cands[1..]);
    }
  }

  lemma {:induction false} LoadedRunSound(fs: FileSystem, s: State, libs: seq<Path>)
    requires Sound(fs, s)
    ensures Sound(fs, LoadedRun(fs, s, libs))
    decreases |libs|
  {
    if libs != [] {
      UpdateSound(fs, s, libs[0]);
      LoadedRunSound(fs, s, libs[1..]);
      LoadedRunSound(fs, Update(fs, s, libs[0]), libs[1..]);
    }
  }

  /** The state after the first n candidates of the later phases. */
  function StateAfter(fs: FileSystem, libs: seq<Path>, home: Option<Path>, paths: seq<Path>, n: nat): State
    requires n <= |Candidates(fs, libs, home, paths)|
  {
    Run(fs, LoadedRun(fs, FRESH, libs), Candidates(fs, libs, home, paths)[..n])
  }

  /** No run opens an inode's library twice, keeps a version it did not probe,
      or reports a directory it did not visit, one without the companions, or an
      error code as a version; and while it goes on the result only improves. */
  lemma EveryRunSound(fs: FileSystem, libs: seq<Path>, home: Option<Path>, paths: seq<Path>, n: nat, m: nat)
    requires n <= m <= |Candidates(fs, libs, home, paths)|
    ensures Sound(fs, LoadedRun(fs, FRESH, libs))
    ensures Sound(fs, StateAfter(fs, libs, home, paths, n))
    ensures Improves(StateAfter(fs, libs, home, paths, n).found, StateAfter(fs, libs, home, paths, m).found)
  {
    LoadedRunSound(fs, FRESH, libs);
    RunsOnSound(fs, LoadedRun(fs, FRESH, libs), Candidates(fs, libs, home, paths), n, m);
  }

  lemma RunsOnSound(fs: FileSystem, s: State, cands: seq<Path>, n: nat, m: nat)
    requires Sound(fs, s) && n <= m <= |cands|
    ensures Sound(fs, Run(fs, s, cands[..n]))
    ensures Improves(Run(fs, s, cands[..n]).found, Run(fs, s, cands[..m]).found)
  {
    assert cands[..n] + cands[n..m] == cands[..m];
    PartOfRunSound(fs, s, cands[..n], cands[n..m]);
  }

  lemma SearchRunSound(fs: FileSystem, libs: seq<Path>, home: Option<Path>, paths: seq<Path>)
    ensures Sound(fs, SearchRun(fs, libs, home, paths))
  {
    LoadedRunSound(fs, FRESH, libs);
    RunSound(fs, LoadedRun(fs, FRESH, libs), Candidates(fs, libs, home, paths));
  }

  lemma PartOfRunSound(fs: FileSystem, s: State, a: seq<Path>, b: seq<Path>)
    requires Sound(fs, s)
    ensures Sound(fs, Run(fs, s, a))
    ensures Improves(Run(fs, s, a).found, Run(fs, s, a + b).found)
  {
    RunSound(fs, s, a);
    RunSound(fs, Run(fs, s, a), b);
    RunConcat(fs, s, a, b);
  }

  /** Where inode numbers identify objects, a cached version is what probing any
      file with that inode gives, except that -1 is kept for the shim. */
  lemma CachedVersionsExact(fs: FileSystem, s: State, p: Path, ino: nat)
    requires InodesIdentifyObjects(fs, s.dirPaths + {p.Parent()}) && Sound(fs, s)
    requires FileInode(fs, p) == Some(ino) && ino in s.versions
    ensures s.versions[ino]
      == if fs.dlopen(p).Some? && fs.dlopen(p).value.autocompat then -1 else Probe(fs, p)
  {
    var q :| Entry(fs, s, q, ino);
    assert SameFile(fs, q, p);
  }

  // ------------------------------------------------------------------ toolkits

  /** A toolkit is found exactly when the runtime library lies in its
      targets/x86_64-linux/lib directory. */
  lemma ToolkitHoldsLibrary(fs: FileSystem, lib: Path, toolkit: Path)
    requires fs.canonical(lib).Parent().WellFormed()
    requires toolkit.comps != [] ==> toolkit.Filename() != []
    ensures ToolkitOf(fs, lib) == Some(toolkit)
      <==> toolkit.AppendAll(["targets", "x86_64-linux", "lib"]) == fs.canonical(lib).Parent()
  {
    EndsWithInvertsAppend(fs.canonical(lib).Parent(), TOOLKIT_SUBDIR, toolkit);
  }

  // ----------------------------------------------------------- mounted volumes

  const ROOT_A: Path := Path(true, ["a"])
  const ROOT_B: Path := Path(true, ["b"])

  /** Two volumes, each with a complete driver in its root directory. Root
      directories commonly have inode number 2 on every volume. */
  function TwoVolumes(): FileSystem {
    FileSystem(
      (p: Path) => if p == ROOT_A || p == ROOT_B then Some(Stat(2, Directory))
           else if p.Parent() == ROOT_A && IsDriverFile(p.Filename()) then Some(Stat(11, Regular))
           else if p.Parent() == ROOT_B && IsDriverFile(p.Filename()) then Some(Stat(12, Regular))
           else None,
      (p: Path) => Some(Library(false, true, true, true, Some(if p.Parent() == ROOT_A then 12040 else 13000))),
      (p: Path) => p)
  }

  predicate IsDriverFile(name: string) {
    name == LIBCUDA_SONAME || name == LIBNVIDIA_NVVM_SONAME || name == LIBNVIDIA_PTXJITCOMPILER_SONAME
    || name == LIBCUDADEBUGGER_SONAME
  }

  lemma VolumeVerdicts()
    ensures var fs := TwoVolumes();
      && Verdict(fs, DriverIn(ROOT_A)) == Some(12040) && Verdict(fs, DriverIn(ROOT_B)) == Some(13000)
      && DirInode(fs, ROOT_A) == DirInode(fs, ROOT_B) == Some(2)
  {
    DriverInIsCandidate(ROOT_A);
    DriverInIsCandidate(ROOT_B);
    DriverOf(ROOT_A);
    DriverOf(ROOT_B);
    CompanionsOf(ROOT_A);
    CompanionsOf(ROOT_B);
  }

  lemma DriverOf(root: Path)
    requires root == ROOT_A || root == ROOT_B
    ensures FileInode(TwoVolumes(), DriverIn(root)).Some?
    ensures Probe(TwoVolumes(), DriverIn(root)) == if root == ROOT_A then 12040 else 13000
  {
    AppendParent(root, LIBCUDA_SONAME);
  }

  lemma CompanionsOf(root: Path)
    requires root == ROOT_A || root == ROOT_B
    ensures Companions(TwoVolumes(), root)
  {
    AppendParent(root, LIBNVIDIA_NVVM_SONAME);
    AppendParent(root, LIBNVIDIA_PTXJITCOMPILER_SONAME);
    AppendParent(root, LIBCUDADEBUGGER_SONAME);
  }

  /** The second volume's root is skipped: its inode number was seen. */
  lemma SecondVolumeSkipped()
    ensures Run(TwoVolumes(), FRESH, [DriverIn(ROOT_A), DriverIn(ROOT_B)]).found == Some(Driver(12040, ROOT_A))
  {
    var fs := TwoVolumes();
    VolumeVerdicts();
    DriverInIsCandidate(ROOT_A);
    DriverInIsCandidate(ROOT_B);
    FirstUpdate(fs, ROOT_A);
    RunTwo(fs, DriverIn(ROOT_A), DriverIn(ROOT_B));
    assert !Unvisited(fs, Update(fs, FRESH, DriverIn(ROOT_A)), DriverIn(ROOT_B));
  }

  lemma SecondVolumeIsBest()
    ensures PlainRun(TwoVolumes(), None, [DriverIn(ROOT_A), DriverIn(ROOT_B)]) == Some(Driver(13000, ROOT_B))
  {
    var fs := TwoVolumes();
    VolumeVerdicts();
    DriverInIsCandidate(ROOT_A);
    DriverInIsCandidate(ROOT_B);
    RunTwo(fs, DriverIn(ROOT_A), DriverIn(ROOT_B));
  }

  lemma VolumeCandidates()
    ensures Candidates(TwoVolumes(), [], None, [ROOT_A, ROOT_B]) == [DriverIn(ROOT_A), DriverIn(ROOT_B)]
  {
    NoToolkit(ROOT_A);
    NoToolkit(ROOT_B);
    DriverPresent(ROOT_A);
    DriverPresent(ROOT_B);
    OnlyPair(TwoVolumes(), ROOT_A, ROOT_B, [DriverIn(ROOT_A)], [DriverIn(ROOT_B)]);
    assert [DriverIn(ROOT_A)] + [DriverIn(ROOT_B)] == [DriverIn(ROOT_A), DriverIn(ROOT_B)];
  }

  lemma OnlyPair(fs: FileSystem, a: Path, b: Path, atA: seq<Path>, atB: seq<Path>)
    requires FromToolkitPath(fs, a) == [] && FromToolkitPath(fs, b) == []
    requires FromPath(fs, a) == atA && FromPath(fs, b) == atB
    ensures Candidates(fs, [], None, [a, b]) == atA + atB
  {
    PairOfPaths(fs, a, b);
    OnlyPaths(fs, [a, b]);
  }

  lemma OnlyPaths(fs: FileSystem, paths: seq<Path>)
    requires FromToolkitPaths(fs, paths) == []
    ensures Candidates(fs, [], None, paths) == FromPaths(fs, paths)
  {
  }

  lemma PairOfPaths(fs: FileSystem, a: Path, b: Path)
    ensures FromPaths(fs, [a, b]) == FromPath(fs, a) + FromPath(fs, b)
    ensures FromToolkitPaths(fs, [a, b]) == FromToolkitPath(fs, a) + FromToolkitPath(fs, b)
  {
    OnePath(fs, b);
    assert [a, b][1..] == [b];
  }

  lemma OnePath(fs: FileSystem, d: Path)
    ensures FromPaths(fs, [d]) == FromPath(fs, d)
    ensures FromToolkitPaths(fs, [d]) == FromToolkitPath(fs, d)
  {
    assert [d][1..] == [];
    assert FromPaths(fs, [d]) == FromPath(fs, d) + FromPaths(fs, []);
    assert FromToolkitPaths(fs, [d]) == FromToolkitPath(fs, d) + FromToolkitPaths(fs, []);
  }

  lemma DriverPresent(root: Path)
    requires root == ROOT_A || root == ROOT_B
    ensures FromPath(TwoVolumes(), root) == [DriverIn(root)]
  {
    AppendParent(root, LIBCUDA_SONAME);
  }

  lemma NoToolkit(root: Path)
    requires root == ROOT_A || root == ROOT_B
    ensures FromToolkitPath(TwoVolumes(), root) == []
  {
    RuntimeNames();
    NoRuntimeLibrary(root, LIBCUDART_SONAMES);
  }

  lemma RuntimeNames()
    ensures forall i :: 0 <= i < |LIBCUDART_SONAMES| ==>
      !IsDriverFile(LIBCUDART_SONAMES[i]) && LIBCUDART_SONAMES[i] != []
  {
    forall i | 0 <= i < |LIBCUDART_SONAMES|
      ensures |LIBCUDART_SONAMES[i]| == 15
    {
      assert i == 0 || i == 1 || i == 2;
    }
  }

  lemma {:induction false} NoRuntimeLibrary(root: Path, names: seq<string>)
    requires root == ROOT_A || root == ROOT_B
    requires forall i :: 0 <= i < |names| ==> !IsDriverFile(names[i]) && names[i] != []
    ensures FirstToolkit(TwoVolumes(), root, names).None?
    decreases |names|
  {
    if names != [] {
      AppendParent(root, names[0]);
      NoRuntimeLibrary(root, names[1..]);
    }
  }

  lemma SearchOfCandidates(fs: FileSystem, paths: seq<Path>, cands: seq<Path>)
    requires Candidates(fs, [], None, paths) == cands
    ensures SearchRun(fs, [], None, paths).found == Run(fs, FRESH, cands).found
    ensures Best(fs, [], None, paths) == PlainRun(fs, None, cands)
  {
  }

  /** Across volumes the search can miss the best driver: it takes the second
      root directory for one already checked. */
  lemma VolumesCollide()
    ensures SearchRun(TwoVolumes(), [], None, [ROOT_A, ROOT_B]).found == Some(Driver(12040, ROOT_A))
    ensures Best(TwoVolumes(), [], None, [ROOT_A, ROOT_B]) == Some(Driver(13000, ROOT_B))
    ensures !InodesFaithful(TwoVolumes(), {ROOT_A, ROOT_B})
  {
    VolumeCandidates();
    SecondVolumeSkipped();
    SecondVolumeIsBest();
    SearchOfCandidates(TwoVolumes(), [ROOT_A, ROOT_B], [DriverIn(ROOT_A), DriverIn(ROOT_B)]);
    VolumesUnfaithful();
  }

  lemma VolumesUnfaithful()
    ensures !InodesFaithful(TwoVolumes(), {ROOT_A, ROOT_B})
  {
    VolumeVerdicts();
    assert SameDirectory(TwoVolumes(), ROOT_A, ROOT_B) && Plain(ROOT_A) && Plain(ROOT_B);
  }
}
