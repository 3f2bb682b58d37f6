/** From the search to the application: the driver the search settles on is
    the file the application's loader is sent to. */
module EndToEnd {
  import opened Wrappers
  import opened Memory
  import opened Tokenizer
  import opened PathUtils
  import opened Paths
  import opened FileSystems
  import opened Sonames
  import opened Search
  import opened SearchLaws
  import opened PipeRead
  import opened Handoff
  import opened Args
  import opened SearchProofs
  import opened Eligibility
  import opened ArgsLaws

  /** What the search is given is well-formed, weakly_canonical keeps it so, and
      the empty path names nothing. */
  ghost predicate Sane(fs: FileSystem, libs: seq<Path>, home: Option<Path>, paths: seq<Path>) {
    && AllWellFormed(libs) && AllWellFormed(paths) && (home.Some? ==> home.value.WellFormed())
    && CanonicalWellFormed(fs)
    && fs.stat(Path(false, [])).None?
  }

  /** What the argument parser accepts is sane input for the search. */
  lemma ArgumentsAreSane(fs: FileSystem, libs: seq<string>, home: Option<Path>, paths: seq<string>)
    requires NulFree(libs) && NulFree(paths)
    requires home.Some? ==> home.value.WellFormed()
    requires CanonicalWellFormed(fs) && fs.stat(Path(false, [])).None?
    ensures Sane(fs, Accepted(fs, libs, false), home, Accepted(fs, paths, true))
  {
    AcceptedWellFormed(fs, libs, false);
    AcceptedWellFormed(fs, paths, true);
  }

  /** A directory that can be printed and joined with a file name. */
  ghost predicate Printable(d: Path) {
    d.WellFormed() && !d.Empty()
  }

  ghost predicate FoundPrintable(s: State) {
    s.found.Some? ==> Printable(s.found.value.dir)
  }

  lemma AppendWellFormed(p: Path, name: string)
    requires p.WellFormed() && PlainName(name)
    ensures p.Append(name).WellFormed()
  {
  }

  lemma ParentWellFormed(p: Path)
    requires p.WellFormed()
    ensures p.Parent().WellFormed()
  {
  }

  lemma CompatWellFormed(toolkit: Path)
    requires toolkit.WellFormed()
    ensures CompatDriver(toolkit).Parent().WellFormed()
  {
    AppendWellFormed(toolkit, "compat");
    AppendWellFormed(toolkit.Append("compat"), LIBCUDA_SONAME);
    ParentWellFormed(CompatDriver(toolkit));
  }

  lemma ToolkitWellFormed(fs: FileSystem, lib: Path)
    requires fs.canonical(lib).WellFormed() && ToolkitOf(fs, lib).Some?
    ensures ToolkitOf(fs, lib).value.WellFormed()
  {
    ParentWellFormed(fs.canonical(lib));
    EndsWithWellFormed(fs.canonical(lib).Parent(), TOOLKIT_SUBDIR);
  }

  ghost predicate ParentsWellFormed(ps: seq<Path>) {
    forall i :: 0 <= i < |ps| ==> ps[i].Parent().WellFormed()
  }

  ghost predicate CanonicalWellFormed(fs: FileSystem) {
    forall p: Path :: p.WellFormed() ==> fs.canonical(p).WellFormed()
  }

  lemma {:induction false} FromLibsWellFormed(fs: FileSystem, libs: seq<Path>)
    requires AllWellFormed(libs) && CanonicalWellFormed(fs)
    ensures ParentsWellFormed(FromLibs(fs, libs))
    decreases |libs|
  {
    if libs != [] {
      FromLibsWellFormed(fs, libs[1..]);
      FromLibWellFormed(fs, libs[0]);
      Both(FromLib(fs, libs[0]), FromLibs(fs, libs[1..]));
    }
  }

  lemma FromLibWellFormed(fs: FileSystem, lib: Path)
    requires lib.WellFormed() && CanonicalWellFormed(fs)
    ensures ParentsWellFormed(FromLib(fs, lib))
  {
    if FromLib(fs, lib) != [] {
      ToolkitWellFormed(fs, lib);
      CompatWellFormed(ToolkitOf(fs, lib).value);
    }
  }

  lemma {:induction false} FirstToolkitWellFormed(fs: FileSystem, dir: Path, names: seq<string>)
    requires dir.WellFormed() && CanonicalWellFormed(fs)
    requires forall i :: 0 <= i < |names| ==> PlainName(names[i])
    ensures FirstToolkit(fs, dir, names).Some? ==> FirstToolkit(fs, dir, names).value.WellFormed()
    decreases |names|
  {
    if names != [] {
      AppendWellFormed(dir, names[0]);
      if ToolkitOf(fs, dir.Append(names[0])).Some? {
        ToolkitWellFormed(fs, dir.Append(names[0]));
      }
      FirstToolkitWellFormed(fs, dir, names[1..]);
    }
  }

  lemma RuntimeNamesPlain()
    ensures forall i :: 0 <= i < |LIBCUDART_SONAMES| ==> PlainName(LIBCUDART_SONAMES[i])
  {
    forall i | 0 <= i < |LIBCUDART_SONAMES|
      ensures PlainName(LIBCUDART_SONAMES[i])
    {
      assert i == 0 || i == 1 || i == 2;
    }
  }

  lemma {:induction false} FromToolkitPathsWellFormed(fs: FileSystem, paths: seq<Path>)
    requires AllWellFormed(paths) && CanonicalWellFormed(fs)
    ensures ParentsWellFormed(FromToolkitPaths(fs, paths))
    decreases |paths|
  {
    if paths != [] {
      FromToolkitPathsWellFormed(fs, paths[1..]);
      if FromToolkitPath(fs, paths[0]) != [] {
        RuntimeNamesPlain();
        FirstToolkitWellFormed(fs, paths[0], LIBCUDART_SONAMES);
        CompatWellFormed(FirstToolkit(fs, paths[0], LIBCUDART_SONAMES).value);
      }
    }
  }

  lemma {:induction false} FromPathsWellFormed(fs: FileSystem, paths: seq<Path>)
    requires AllWellFormed(paths)
    ensures ParentsWellFormed(FromPaths(fs, paths))
    decreases |paths|
  {
    if paths != [] {
      FromPathsWellFormed(fs, paths[1..]);
      AppendWellFormed(paths[0], LIBCUDA_SONAME);
      ParentWellFormed(paths[0].Append(LIBCUDA_SONAME));
    }
  }

  lemma CandidatesWellFormed(fs: FileSystem, libs: seq<Path>, home: Option<Path>, paths: seq<Path>)
    requires Sane(fs, libs, home, paths)
    ensures ParentsWellFormed(Candidates(fs, libs, home, paths))
  {
    FromLibsWellFormed(fs, libs);
    FromToolkitPathsWellFormed(fs, paths);
    FromPathsWellFormed(fs, paths);
    if home.Some? {
      CompatWellFormed(home.value);
    }
    Both(FromLibs(fs, libs), FromHome(fs, home));
    Both(FromLibs(fs, libs) + FromHome(fs, home), FromToolkitPaths(fs, paths));
    Both(FromLibs(fs, libs) + FromHome(fs, home) + FromToolkitPaths(fs, paths), FromPaths(fs, paths));
  }

  lemma Both(a: seq<Path>, b: seq<Path>)
    requires ParentsWellFormed(a) && ParentsWellFormed(b)
    ensures ParentsWellFormed(a + b)
  {
  }

  lemma UpdatePrintable(fs: FileSystem, s: State, p: Path)
    requires fs.stat(Path(false, [])).None? && p.Parent().WellFormed() && FoundPrintable(s)
    ensures FoundPrintable(Update(fs, s, p))
  {
    assert p.Parent().Empty() ==> p.Parent() == Path(false, []);
  }

  lemma {:induction false} RunPrintable(fs: FileSystem, s: State, cands: seq<Path>)
    requires fs.stat(Path(false, [])).None? && ParentsWellFormed(cands) && FoundPrintable(s)
    ensures FoundPrintable(Run(fs, s, cands))
    decreases |cands|
  {
    if cands != [] {
      UpdatePrintable(fs, s, cands[0]);
      RunPrintable(fs, Update(fs, s, cands[0]), cands[1..]);
    }
  }

  lemma {:induction false} LoadedRunPrintable(fs: FileSystem, s: State, libs: seq<Path>)
    requires fs.stat(Path(false, [])).None? && AllWellFormed(libs) && FoundPrintable(s)
    ensures FoundPrintable(LoadedRun(fs, s, libs))
    decreases |libs|
  {
    if libs != [] {
      ParentWellFormed(libs[0]);
      UpdatePrintable(fs, s, libs[0]);
      LoadedRunPrintable(fs, s, libs[1..]);
      LoadedRunPrintable(fs, Update(fs, s, libs[0]), libs[1..]);
    }
  }

  /** The directory of a result can be printed, and what is printed names that
      directory and is not empty, so an empty output always means that nothing
      was found. */
  lemma FoundIsPrintable(fs: FileSystem, libs: seq<Path>, home: Option<Path>, paths: seq<Path>)
    requires Sane(fs, libs, home, paths)
    ensures FoundPrintable(SearchRun(fs, libs, home, paths))
    ensures var found := SearchRun(fs, libs, home, paths).found;
      found.Some? ==>
        && found.value.dir.Native() != [] && NUL !in found.value.dir.Native()
        && ParsePath(found.value.dir.Native()) == found.value.dir
  {
    LoadedRunPrintable(fs, FRESH, libs);
    CandidatesWellFormed(fs, libs, home, paths);
    RunPrintable(fs, LoadedRun(fs, FRESH, libs), Candidates(fs, libs, home, paths));
    var found := SearchRun(fs, libs, home, paths).found;
    if found.Some? {
      PrintableNative(found.value.dir);
      NativeNulFree(found.value.dir);
      PrintedPathIsRead(found.value.dir);
    }
  }

  lemma PrintableNative(d: Path)
    requires Printable(d)
    ensures d.Native() != []
  {
    if !d.rooted {
      assert d.comps[0] != [];
    }
  }

  lemma NativeNulFree(d: Path)
    requires d.WellFormed()
    ensures NUL !in d.Native()
  {
    if d.comps != [] {
      JoinNulFree(d.comps);
    }
  }

  lemma {:induction false} JoinNulFree(comps: seq<string>)
    requires comps != [] && NulFree(comps)
    ensures NUL !in Join(comps, '/')
    decreases |comps|
  {
    if |comps| > 1 {
      JoinNulFree(comps[1..]);
    }
  }

  /** The path the audit library sets for a soname is the C++ path of that file
      in the directory found. */
  lemma PathIsFile(d: Path, soname: string, pathMax: nat)
    requires Printable(d) && PlainName(soname)
    ensures LibraryPath(d.Native(), soname, pathMax)
      == if |d.Append(soname).Native()| < pathMax then Some(d.Append(soname).Native()) else None
  {
    PrintableNative(d);
    JoinAgreesWithAppend(d, soname);
  }

  /** All four paths are the files of the directory. */
  function FilesIn(d: Path): LibraryPaths {
    LibraryPaths(
      Some(d.Append(LIBCUDA_SONAME).Native()),
      Some(d.Append(LIBNVIDIA_NVVM_SONAME).Native()),
      Some(d.Append(LIBNVIDIA_PTXJITCOMPILER_SONAME).Native()),
      Some(d.Append(LIBCUDADEBUGGER_SONAME).Native()))
  }

  lemma FourFiles(d: Path, pathMax: nat)
    requires Printable(d) && NUL !in d.Native()
    requires |d.Append(LIBNVIDIA_PTXJITCOMPILER_SONAME).Native()| < pathMax
    ensures PathsFor(d.Native(), pathMax) == FilesIn(d)
  {
    PrintableNative(d);
    SonamesPlain();
    PathIsFile(d, LIBNVIDIA_PTXJITCOMPILER_SONAME, pathMax);
    LibraryPathIs(d.Native(), LIBNVIDIA_PTXJITCOMPILER_SONAME, pathMax);
    FileFits(d, LIBCUDA_SONAME, pathMax);
    FileFits(d, LIBNVIDIA_NVVM_SONAME, pathMax);
    FileFits(d, LIBCUDADEBUGGER_SONAME, pathMax);
  }

  lemma SonamesPlain()
    ensures PlainName(LIBCUDA_SONAME) && PlainName(LIBNVIDIA_NVVM_SONAME)
    ensures PlainName(LIBNVIDIA_PTXJITCOMPILER_SONAME) && PlainName(LIBCUDADEBUGGER_SONAME)
  {
  }

  lemma FileFits(d: Path, soname: string, pathMax: nat)
    requires Printable(d) && NUL !in d.Native() && d.Native() != [] && PlainName(soname)
    requires |soname| <= 29 && |d.Native()| + ExtraSep(d.Native()) + 29 < pathMax
    ensures LibraryPath(d.Native(), soname, pathMax) == Some(d.Append(soname).Native())
  {
    assert soname[0] in soname;
    PathIsFile(d, soname, pathMax);
    LibraryPathIs(d.Native(), soname, pathMax);
  }

  /** Each soname is redirected to its own path. */
  lemma SonamesRedirect(p: LibraryPaths)
    requires AllSet(p)
    ensures Redirect(p, LIBCUDA_SONAME) == p.cuda.value
    ensures Redirect(p, LIBNVIDIA_NVVM_SONAME) == p.nvvm.value
    ensures Redirect(p, LIBNVIDIA_PTXJITCOMPILER_SONAME) == p.ptx.value
    ensures Redirect(p, LIBCUDADEBUGGER_SONAME) == p.debugger.value
  {
    SonamesExclusive(LIBCUDA_SONAME);
    SonamesExclusive(LIBNVIDIA_NVVM_SONAME);
    SonamesExclusive(LIBNVIDIA_PTXJITCOMPILER_SONAME);
    SonamesExclusive(LIBCUDADEBUGGER_SONAME);
  }

  lemma FilesSet(d: Path)
    ensures AllSet(FilesIn(d))
  {
  }

  lemma AllSetBinds(dir: string, pathMax: nat, p: LibraryPaths)
    requires NUL !in dir && p == PathsFor(dir, pathMax) && AllSet(p)
    ensures RedirectsBind(p)
  {
    RedirectAndBindAgree(dir, pathMax);
    AllOrNone(dir, pathMax);
  }

  lemma TextNames(d: Path, text: string, pathMax: nat)
    requires Printable(d) && text == d.Native() && NUL !in text
    requires |d.Append(LIBNVIDIA_PTXJITCOMPILER_SONAME).Native()| < pathMax
    ensures PathsFor(text, pathMax) == FilesIn(d)
  {
    FourFiles(d, pathMax);
  }

  lemma TextRecovered(chunks: seq<string>, text: string, room: nat)
    requires Delivers(chunks, text) && Transmissible(text, room)
    ensures ReadAll(chunks, room) == text && NUL !in text
  {
    RecoveredExactly(chunks, text, room);
  }

  /** The paths built from what the reads return, whatever reads the pipe makes. */
  lemma DirectoryReachesLibrary(d: Path, chunks: seq<string>, pathMax: nat)
    requires Printable(d) && pathMax > 0
    requires Delivers(chunks, d.Native()) && Transmissible(d.Native(), pathMax - 1)
    requires |d.Append(LIBNVIDIA_PTXJITCOMPILER_SONAME).Native()| < pathMax
    ensures PathsFor(ReadAll(chunks, pathMax - 1), pathMax) == FilesIn(d)
  {
    var text := ReadAll(chunks, pathMax - 1);
    TextRecovered(chunks, d.Native(), pathMax - 1);
    TextNames(d, text, pathMax);
  }

  lemma FilesBind(d: Path, pathMax: nat)
    requires Printable(d) && NUL !in d.Native()
    requires |d.Append(LIBNVIDIA_PTXJITCOMPILER_SONAME).Native()| < pathMax
    ensures RedirectsBind(FilesIn(d))
  {
    FourFiles(d, pathMax);
    FilesSet(d);
    AllSetBinds(d.Native(), pathMax, FilesIn(d));
  }

  /** stat fails with ENAMETOOLONG on a path of PATH_MAX bytes or more. */
  ghost predicate PathsBounded(fs: FileSystem, pathMax: nat) {
    forall p: Path :: |p.Native()| >= pathMax ==> fs.stat(p).None?
  }

  /** Every directory the search prints leaves room for the longest soname,
      because the search has seen that file there. So the comment at
      src/rtld-audit/audit.c:184 is right about every directory it prints. */
  lemma FoundDoesNotStraddle(fs: FileSystem, libs: seq<Path>, home: Option<Path>, paths: seq<Path>,
                             pathMax: nat)
    requires Sane(fs, libs, home, paths) && PathsBounded(fs, pathMax)
    ensures var found := SearchRun(fs, libs, home, paths).found;
      found.Some? ==>
        && |found.value.dir.Append(LIBNVIDIA_PTXJITCOMPILER_SONAME).Native()| < pathMax
        && |found.value.dir.Native()| < pathMax
        && !Straddles(found.value.dir.Native(), pathMax)
  {
    FoundIsPrintable(fs, libs, home, paths);
    SearchRunSound(fs, libs, home, paths);
    var found := SearchRun(fs, libs, home, paths).found;
    if found.Some? {
      LongestFits(fs, found.value.dir, pathMax);
    }
  }

  lemma LongestFits(fs: FileSystem, d: Path, pathMax: nat)
    requires PathsBounded(fs, pathMax) && Companions(fs, d) && Printable(d)
    ensures |d.Append(LIBNVIDIA_PTXJITCOMPILER_SONAME).Native()| < pathMax
    ensures |d.Native()| < pathMax && !Straddles(d.Native(), pathMax)
  {
    assert fs.stat(d.Append(LIBNVIDIA_PTXJITCOMPILER_SONAME)).Some?;
    LongestIs(d, pathMax);
  }

  /** What is read of a NUL-free text that fits is the text or shorter. */
  lemma ReadOrShorter(chunks: seq<string>, text: string, room: nat)
    requires Delivers(chunks, text) && NUL !in text && |text| <= room
    ensures ReadAll(chunks, room) == text || |ReadAll(chunks, room)| < |text|
  {
    IndexOfIn(text, NUL);
    ReadIsClean(chunks, text, room);
  }

  lemma ShorterDoesNotStraddle(text: string, read: string, pathMax: nat)
    requires text != [] && |text| + ExtraSep(text) + 29 < pathMax
    requires (read == text || |read| < |text|) && NUL !in read
    ensures AllSet(PathsFor(read, pathMax)) || NoneSet(PathsFor(read, pathMax))
  {
    AllOrNone(read, pathMax);
  }

  /** What la_version reads of a directory the search prints sets all four
      paths or none, whatever the directory's name. */
  lemma ReadDoesNotStraddle(fs: FileSystem, libs: seq<Path>, home: Option<Path>, paths: seq<Path>,
                            d: Path, chunks: seq<string>, pathMax: nat)
    requires Sane(fs, libs, home, paths) && PathsBounded(fs, pathMax) && pathMax > 0
    requires SearchRun(fs, libs, home, paths).found.Some?
    requires d == SearchRun(fs, libs, home, paths).found.value.dir
    requires Delivers(chunks, d.Native())
    ensures var p := PathsFor(ReadAll(chunks, pathMax - 1), pathMax); AllSet(p) || NoneSet(p)
  {
    FoundIsPrintable(fs, libs, home, paths);
    FoundDoesNotStraddle(fs, libs, home, paths, pathMax);
    LongestIs(d, pathMax);
    TextDoesNotStraddle(d.Native(), chunks, pathMax);
  }

  lemma TextDoesNotStraddle(text: string, chunks: seq<string>, pathMax: nat)
    requires text != [] && NUL !in text && |text| + ExtraSep(text) + 29 < pathMax
    requires Delivers(chunks, text)
    ensures var p := PathsFor(ReadAll(chunks, pathMax - 1), pathMax); AllSet(p) || NoneSet(p)
  {
    ReadOrShorter(chunks, text, pathMax - 1);
    ShorterDoesNotStraddle(text, ReadAll(chunks, pathMax - 1), pathMax);
  }

  lemma LongestIs(d: Path, pathMax: nat)
    requires Printable(d) && |d.Append(LIBNVIDIA_PTXJITCOMPILER_SONAME).Native()| < pathMax
    ensures d.Native() != [] && |d.Native()| + ExtraSep(d.Native()) + 29 < pathMax
  {
    SonamesPlain();
    NativeNulFree(d);
    PrintableNative(d);
    PathIsFile(d, LIBNVIDIA_PTXJITCOMPILER_SONAME, pathMax);
    LibraryPathIs(d.Native(), LIBNVIDIA_PTXJITCOMPILER_SONAME, pathMax);
  }

  /** The four libraries are redirected to their files in d. */
  predicate RedirectsTo(p: LibraryPaths, d: Path) {
    && Redirect(p, LIBCUDA_SONAME) == d.Append(LIBCUDA_SONAME).Native()
    && Redirect(p, LIBNVIDIA_NVVM_SONAME) == d.Append(LIBNVIDIA_NVVM_SONAME).Native()
    && Redirect(p, LIBNVIDIA_PTXJITCOMPILER_SONAME) == d.Append(LIBNVIDIA_PTXJITCOMPILER_SONAME).Native()
    && Redirect(p, LIBCUDADEBUGGER_SONAME) == d.Append(LIBCUDADEBUGGER_SONAME).Native()
  }

  /** The file of d that a request for name is answered with: name extends that
      file's soname. */
  ghost predicate Serves(p: LibraryPaths, d: Path, soname: string) {
    forall name :: soname <= name ==> Redirect(p, name) == d.Append(soname).Native()
  }

  /** All four libraries come from d, under any name that extends theirs, and the
      objects bound are exactly those whose names extend a file of d. */
  ghost predicate ServesDriver(p: LibraryPaths, d: Path) {
    && Serves(p, d, "libcuda.so.1") && Serves(p, d, "libnvidia-nvvm.so.4")
    && Serves(p, d, "libnvidia-ptxjitcompiler.so.1") && Serves(p, d, "libcudadebugger.so.1")
    && (forall name :: Bound(p, name) <==>
      || d.Append("libcuda.so.1").Native() <= name
      || d.Append("libnvidia-nvvm.so.4").Native() <= name
      || d.Append("libnvidia-ptxjitcompiler.so.1").Native() <= name
      || d.Append("libcudadebugger.so.1").Native() <= name)
  }

  lemma FilesServe(d: Path)
    ensures ServesDriver(FilesIn(d), d)
  {
    var p := FilesIn(d);
    forall name
      ensures "libcuda.so.1" <= name ==> Redirect(p, name) == d.Append("libcuda.so.1").Native()
      ensures "libnvidia-nvvm.so.4" <= name ==> Redirect(p, name) == d.Append("libnvidia-nvvm.so.4").Native()
      ensures "libnvidia-ptxjitcompiler.so.1" <= name ==>
        Redirect(p, name) == d.Append("libnvidia-ptxjitcompiler.so.1").Native()
      ensures "libcudadebugger.so.1" <= name ==> Redirect(p, name) == d.Append("libcudadebugger.so.1").Native()
    {
      RedirectExactly(p, name);
    }
  }

  lemma FilesRedirect(d: Path)
    ensures RedirectsTo(FilesIn(d), d)
  {
    FilesSet(d);
    SonamesRedirect(FilesIn(d));
  }

  /** What is read of a text with a newline has no newline. */
  lemma NewlineCut(chunks: seq<string>, text: string, room: nat)
    requires Delivers(chunks, text) && NUL !in text
    ensures '\n' !in ReadAll(chunks, room)
  {
    var w := Take(text, room);
    IndexOfIn(w, NUL);
    IndexOfIn(w, '\n');
    ReadIsClean(chunks, text, room);
  }

  /** A redirection built from a text without a newline has none. */
  lemma RedirectHasNoNewline(dir: string, pathMax: nat)
    requires '\n' !in dir
    ensures '\n' !in Redirect(PathsFor(dir, pathMax), LIBCUDA_SONAME)
  {
    assert '\n' !in LIBCUDA_SONAME;
  }

  lemma FileHasNewline(d: Path)
    requires Printable(d) && '\n' in d.Native()
    ensures '\n' in d.Append(LIBCUDA_SONAME).Native()
  {
    SonamesPlain();
    PrintableNative(d);
    NativeNulFree(d);
    JoinAgreesWithAppend(d, LIBCUDA_SONAME);
  }

  /** From the search to the loader: whatever reads the pipe makes, each of the
      four libraries is redirected to its file in the directory of the driver
      the search chose, and that file is bound, exactly when the directory's
      name has no newline. */
  lemma DriverReachesApplication(fs: FileSystem, libs: seq<Path>, home: Option<Path>, paths: seq<Path>,
                                 d: Path, chunks: seq<string>, pathMax: nat)
    requires Sane(fs, libs, home, paths) && PathsBounded(fs, pathMax)
    requires SearchRun(fs, libs, home, paths).found.Some?
    requires d == SearchRun(fs, libs, home, paths).found.value.dir
    requires pathMax > 0 && Delivers(chunks, d.Native())
    ensures var p := PathsFor(ReadAll(chunks, pathMax - 1), pathMax);
      RedirectsTo(p, d) && RedirectsBind(p) <==> '\n' !in d.Native()
  {
    FoundIsPrintable(fs, libs, home, paths);
    FoundDoesNotStraddle(fs, libs, home, paths, pathMax);
    DirectoryRedirects(d, chunks, pathMax);
  }

  lemma DirectoryRedirects(d: Path, chunks: seq<string>, pathMax: nat)
    requires Printable(d) && NUL !in d.Native() && |d.Native()| < pathMax
    requires |d.Append(LIBNVIDIA_PTXJITCOMPILER_SONAME).Native()| < pathMax
    requires Delivers(chunks, d.Native())
    ensures var p := PathsFor(ReadAll(chunks, pathMax - 1), pathMax);
      RedirectsTo(p, d) && RedirectsBind(p) <==> '\n' !in d.Native()
  {
    var read := ReadAll(chunks, pathMax - 1);
    if '\n' in d.Native() {
      NewlineLoses(d, read, d.Native(), chunks, pathMax);
    } else {
      NoNewlineRedirects(d, read, chunks, pathMax);
    }
  }

  lemma NewlineLoses(d: Path, read: string, text: string, chunks: seq<string>, pathMax: nat)
    requires Printable(d) && text == d.Native() && pathMax > 0 && NUL !in text && '\n' in text
    requires Delivers(chunks, text) && read == ReadAll(chunks, pathMax - 1)
    ensures !RedirectsTo(PathsFor(read, pathMax), d)
  {
    NewlineCut(chunks, text, pathMax - 1);
    NewlineLost(d, read, pathMax);
  }

  lemma NoNewlineRedirects(d: Path, read: string, chunks: seq<string>, pathMax: nat)
    requires Printable(d) && pathMax > 0 && Transmissible(d.Native(), pathMax - 1)
    requires |d.Append(LIBNVIDIA_PTXJITCOMPILER_SONAME).Native()| < pathMax
    requires Delivers(chunks, d.Native()) && read == ReadAll(chunks, pathMax - 1)
    ensures RedirectsTo(PathsFor(read, pathMax), d) && RedirectsBind(PathsFor(read, pathMax))
  {
    DirectoryReachesLibrary(d, chunks, pathMax);
    FilesWork(d, PathsFor(read, pathMax), pathMax);
  }

  lemma FilesWork(d: Path, p: LibraryPaths, pathMax: nat)
    requires Printable(d) && NUL !in d.Native() && p == FilesIn(d)
    requires |d.Append(LIBNVIDIA_PTXJITCOMPILER_SONAME).Native()| < pathMax
    ensures RedirectsTo(p, d) && RedirectsBind(p)
  {
    FilesRedirect(d);
    FilesBind(d, pathMax);
  }

  lemma NewlineLost(d: Path, text: string, pathMax: nat)
    requires Printable(d) && '\n' in d.Native() && '\n' !in text
    ensures !RedirectsTo(PathsFor(text, pathMax), d)
  {
    RedirectHasNoNewline(text, pathMax);
    FileHasNewline(d);
  }

  function HomePath(home: Option<string>): Option<Path> {
    if home.Some? then Some(ParsePath(home.value)) else None
  }

  /** What the search program finds, from its command line on. */
  function ProgramFinds(fs: FileSystem, getopt: GetOpt, argv: seq<string>, lines: seq<seq<string>>,
                        defaults: Option<seq<string>>, home: Option<string>): Option<Driver>
    requires argv != []
  {
    var r := Expand(getopt, argv, lines);
    if r.ok && (HasSearchPath(r.opts) || defaults.Some?)
    then SearchRun(fs, LibsOf(fs, r.opts), HomePath(home), PathsFrom(fs, r.opts, defaults)).found
    else None
  }

  /** src/search/main.cxx:46-85: the exit status and what is printed. home is the
      value of CUDA_HOME, defaults the dynamic linker's directories. */
  method RunProgram(fs: FileSystem, getopt: GetOpt, argv: seq<string>, lines: seq<seq<string>>,
                    defaults: Option<seq<string>>, home: Option<string>)
    returns (status: int, output: string)
    requires argv != []
    ensures var found := ProgramFinds(fs, getopt, argv, lines, defaults, home);
      && (found.Some? ==> status == 0 && output == found.value.dir.Native())
      && (found.None? ==> status == 1 && output == [])
  {
    var ok, searchPaths, searchLibs := ParseArgs(fs, getopt, argv, lines, defaults);
    if !ok {
      return 1, [];
    }
    var homePath := None;
    if home.Some? {
      homePath := Some(ParsePath(home.value));
    }
    var found := SearchAll(fs, searchLibs, homePath, searchPaths);
    if found.Some? {
      return 0, found.value.dir.Native();
    }
    return 1, [];
  }

  /** The strings the program is given are C strings, weakly_canonical keeps
      paths well-formed, and stat fails on an empty and on a too long path. */
  ghost predicate SaneProgram(fs: FileSystem, getopt: GetOpt, defaults: Option<seq<string>>,
                              home: Option<string>, pathMax: nat) {
    && ReportsCStrings(getopt) && (defaults.Some? ==> NulFree(defaults.value))
    && (home.Some? ==> NUL !in home.value)
    && CanonicalWellFormed(fs) && fs.stat(Path(false, [])).None? && PathsBounded(fs, pathMax)
  }

  lemma ProgramIsSane(fs: FileSystem, getopt: GetOpt, argv: seq<string>, lines: seq<seq<string>>,
                      defaults: Option<seq<string>>, home: Option<string>, pathMax: nat)
    requires argv != [] && SaneProgram(fs, getopt, defaults, home, pathMax)
    ensures var r := Expand(getopt, argv, lines);
      Sane(fs, LibsOf(fs, r.opts), HomePath(home), PathsFrom(fs, r.opts, defaults))
  {
    var opts := Expand(getopt, argv, lines).opts;
    ExpandNulFree(getopt, argv, lines);
    PiecesForNulFree(opts, false);
    PiecesForNulFree(opts, true);
    if home.Some? {
      ParseWellFormed(home.value);
    }
    ArgumentsAreSane(fs, PiecesFor(opts, false), HomePath(home), PathPieces(opts, defaults));
  }

  /** The directory la_version reads: nothing when the program fails. */
  function DirectoryRead(found: Option<Driver>, chunks: seq<string>, pathMax: nat): string
    requires pathMax > 0
  {
    if found.Some? then ReadAll(chunks, pathMax - 1) else []
  }

  /** The paths la_version builds from the program's output. */
  function PathsBuilt(found: Option<Driver>, chunks: seq<string>, pathMax: nat): LibraryPaths
    requires pathMax > 0
  {
    PathsFor(DirectoryRead(found, chunks, pathMax), pathMax)
  }

  /** The whole chain, from the command line to the loader: what is printed names
      the directory found, whose four files exist. An application gets them, and
      they are bound, exactly when the directory's name has no newline. */
  lemma ProgramReachesApplication(fs: FileSystem, getopt: GetOpt, argv: seq<string>,
                                  lines: seq<seq<string>>, defaults: Option<seq<string>>,
                                  home: Option<string>, d: Path, chunks: seq<string>, pathMax: nat)
    requires argv != [] && pathMax > 0 && SaneProgram(fs, getopt, defaults, home, pathMax)
    requires var found := ProgramFinds(fs, getopt, argv, lines, defaults, home);
      found.Some? && d == found.value.dir
    requires Delivers(chunks, d.Native())
    ensures ParsePath(d.Native()) == d && d.Native() != [] && FilesThere(fs, d)
    ensures var p := PathsBuilt(ProgramFinds(fs, getopt, argv, lines, defaults, home), chunks, pathMax);
      && (RedirectsTo(p, d) && RedirectsBind(p) <==> '\n' !in d.Native())
      && ('\n' !in d.Native() ==> ServesDriver(p, d))
      && (AllSet(p) || NoneSet(p))
  {
    var r := Expand(getopt, argv, lines);
    var libs, homePath, paths := LibsOf(fs, r.opts), HomePath(home), PathsFrom(fs, r.opts, defaults);
    ProgramIsSane(fs, getopt, argv, lines, defaults, home, pathMax);
    FoundIsPrintable(fs, libs, homePath, paths);
    FoundFilesExist(fs, libs, homePath, paths);
    DriverReachesApplication(fs, libs, homePath, paths, d, chunks, pathMax);
    ReadDoesNotStraddle(fs, libs, homePath, paths, d, chunks, pathMax);
    if '\n' !in d.Native() {
      FoundDoesNotStraddle(fs, libs, homePath, paths, pathMax);
      DirectoryReachesLibrary(d, chunks, pathMax);
      FilesServe(d);
    }
  }

  /** No other library is touched: a name that extends none of the sonames is
      answered with itself, whatever was found and read; and when nothing was
      found, so is every name, and no object is bound. */
  lemma OtherLibrariesUntouched(found: Option<Driver>, chunks: seq<string>, pathMax: nat, name: string)
    requires pathMax > 0
    ensures IsOther(name) || found.None? ==> Redirect(PathsBuilt(found, chunks, pathMax), name) == name
    ensures found.None? ==> !Bound(PathsBuilt(found, chunks, pathMax), name)
  {
    RedirectExactly(PathsBuilt(found, chunks, pathMax), name);
  }

  /** The program's arguments are accepted, and n lines are read for them. */
  ghost predicate ArgumentsAccepted(getopt: GetOpt, argv: seq<string>, lines: seq<seq<string>>, n: nat)
    requires argv != []
  {
    Accepts(getopt(argv)) && Reads(getopt, argv[0], Dashes(getopt(argv)), lines, n)
  }

  /** The options of the command line and of the lines read. */
  function OptionsRead(getopt: GetOpt, argv: seq<string>, lines: seq<seq<string>>, n: nat): seq<Opt>
    requires argv != [] && n <= |lines|
  {
    getopt(argv).opts + OptsOf(getopt, argv[0], lines, n)
  }

  /** The program finds nothing when its arguments are not accepted, or when they
      name no search path and the linker gives none. */
  lemma ProgramRefuses(fs: FileSystem, getopt: GetOpt, argv: seq<string>, lines: seq<seq<string>>,
                       defaults: Option<seq<string>>, home: Option<string>)
    requires argv != []
    requires forall n :: ArgumentsAccepted(getopt, argv, lines, n) ==>
      defaults.None? && forall o :: o in OptionsRead(getopt, argv, lines, n) ==> !o.SearchPath?
    ensures ProgramFinds(fs, getopt, argv, lines, defaults, home).None?
  {
    ParsesExactly(getopt, argv, lines);
    if Expand(getopt, argv, lines).ok {
      var n :| Reads(getopt, argv[0], Dashes(getopt(argv)), lines, n);
      assert ArgumentsAccepted(getopt, argv, lines, n);
      ParsedOptions(getopt, argv, lines, n);
      SearchPathGiven(OptionsRead(getopt, argv, lines, n));
    }
  }

  /** A driver that the arguments point to: in a directory named by -p (or by the
      linker, without -p), in the compat directory of CUDA_HOME or of a toolkit
      that a runtime library named by -l or lying in such a directory leads to. */
  ghost predicate Offered(fs: FileSystem, opts: seq<Opt>, defaults: Option<seq<string>>, home: Option<string>,
                          c: Path) {
    || (exists d :: SearchesDir(fs, opts, defaults, d) && PathHolds(fs, d, c))
    || (home.Some? && HomeLeadsTo(fs, Some(ParsePath(home.value)), c))
    || (exists d :: SearchesDir(fs, opts, defaults, d) && PathLeadsTo(fs, d, c))
    || (exists lib :: NamesLib(opts, lib) && IsRegular(fs, lib) && LibLeadsTo(fs, lib, c))
  }

  ghost predicate SearchesDir(fs: FileSystem, opts: seq<Opt>, defaults: Option<seq<string>>, d: Path) {
    && fs.stat(d).Some? && fs.stat(d).value.kind == Directory
    && (UsesDefaults(opts, defaults) ==> exists src :: src in defaults.value && StandsFor(src, true, d))
    && (!UsesDefaults(opts, defaults) ==> NamesPath(opts, d))
  }

  lemma OfferedExactly(fs: FileSystem, opts: seq<Opt>, defaults: Option<seq<string>>, home: Option<string>,
                       c: Path)
    ensures Offered(fs, opts, defaults, home, c)
      <==> c in Candidates(fs, LibsOf(fs, opts), HomePath(home), PathsFrom(fs, opts, defaults))
  {
    CandidateExactly(fs, LibsOf(fs, opts), HomePath(home), PathsFrom(fs, opts, defaults), c);
    forall lib
      ensures lib in LibsOf(fs, opts) <==> NamesLib(opts, lib) && IsRegular(fs, lib)
    {
      LibsOfExactly(fs, opts, lib);
    }
    forall d
      ensures d in PathsFrom(fs, opts, defaults) <==> SearchesDir(fs, opts, defaults, d)
    {
      PathsFromExactly(fs, opts, defaults, d);
    }
  }

  /** A loaded driver the arguments name, complete with version v. */
  ghost predicate LoadedDriver(fs: FileSystem, opts: seq<Opt>, lib: Path, v: int) {
    && NamesLib(opts, lib) && IsRegular(fs, lib)
    && lib.Filename() == "libcuda.so.1" && CompleteDriver(fs, lib.Parent(), v)
  }

  /** What the program's arguments make it search, where inode numbers tell the
      drivers apart. */
  ghost predicate Searches(fs: FileSystem, getopt: GetOpt, argv: seq<string>, lines: seq<seq<string>>, n: nat,
                           defaults: Option<seq<string>>, home: Option<string>, pathMax: nat) {
    && argv != [] && SaneProgram(fs, getopt, defaults, home, pathMax) && ArgumentsAccepted(getopt, argv, lines, n)
    && var opts := OptionsRead(getopt, argv, lines, n);
      && (defaults.Some? || exists o :: o in opts && o.SearchPath?)
      && InodesFaithful(fs, SearchedDirs(fs, LibsOf(fs, opts), HomePath(home), PathsFrom(fs, opts, defaults)))
  }

  lemma SearchesFinds(fs: FileSystem, getopt: GetOpt, argv: seq<string>, lines: seq<seq<string>>, n: nat,
                      defaults: Option<seq<string>>, home: Option<string>, pathMax: nat)
    requires Searches(fs, getopt, argv, lines, n, defaults, home, pathMax)
    ensures var opts := OptionsRead(getopt, argv, lines, n);
      var libs, homePath, paths := LibsOf(fs, opts), HomePath(home), PathsFrom(fs, opts, defaults);
      && Sane(fs, libs, homePath, paths)
      && ProgramFinds(fs, getopt, argv, lines, defaults, home) == SearchRun(fs, libs, homePath, paths).found
  {
    ParsedOptions(getopt, argv, lines, n);
    SearchPathGiven(OptionsRead(getopt, argv, lines, n));
    ProgramIsSane(fs, getopt, argv, lines, defaults, home, pathMax);
  }

  lemma LoadedDriverIsLoaded(fs: FileSystem, opts: seq<Opt>, lib: Path, v: int)
    ensures LoadedDriver(fs, opts, lib, v) <==> Loaded(fs, LibsOf(fs, opts), lib, v)
  {
    LibsOfExactly(fs, opts, lib);
  }

  /** If a library named by -l is a complete driver, the program finds such a
      one, whatever else the arguments offer. */
  lemma ProgramTakesLoaded(fs: FileSystem, getopt: GetOpt, argv: seq<string>, lines: seq<seq<string>>, n: nat,
                           defaults: Option<seq<string>>, home: Option<string>, pathMax: nat,
                           lib: Path, v: int)
    returns (taken: Path)
    requires Searches(fs, getopt, argv, lines, n, defaults, home, pathMax)
    requires LoadedDriver(fs, OptionsRead(getopt, argv, lines, n), lib, v)
    ensures var found := ProgramFinds(fs, getopt, argv, lines, defaults, home);
      && found.Some? && found.value.dir == taken.Parent()
      && LoadedDriver(fs, OptionsRead(getopt, argv, lines, n), taken, found.value.version)
  {
    var opts := OptionsRead(getopt, argv, lines, n);
    SearchesFinds(fs, getopt, argv, lines, n, defaults, home, pathMax);
    LoadedDriverIsLoaded(fs, opts, lib, v);
    taken := LoadedIsFound(fs, LibsOf(fs, opts), HomePath(home), PathsFrom(fs, opts, defaults), lib, v);
    var found := ProgramFinds(fs, getopt, argv, lines, defaults, home);
    LoadedDriverIsLoaded(fs, opts, taken, found.value.version);
  }

  /** Otherwise it finds a driver at least as new as every complete one that its
      arguments, the lines read and CUDA_HOME offer. */
  lemma ProgramFindsBest(fs: FileSystem, getopt: GetOpt, argv: seq<string>, lines: seq<seq<string>>, n: nat,
                         defaults: Option<seq<string>>, home: Option<string>, pathMax: nat,
                         c: Path, v: int)
    requires Searches(fs, getopt, argv, lines, n, defaults, home, pathMax)
    requires forall lib, w :: !LoadedDriver(fs, OptionsRead(getopt, argv, lines, n), lib, w)
    requires Offered(fs, OptionsRead(getopt, argv, lines, n), defaults, home, c)
    requires CompleteDriver(fs, c.Parent(), v)
    ensures var found := ProgramFinds(fs, getopt, argv, lines, defaults, home);
      found.Some? && found.value.version >= v
  {
    var opts := OptionsRead(getopt, argv, lines, n);
    SearchesFinds(fs, getopt, argv, lines, n, defaults, home, pathMax);
    NoLoadedDriver(fs, opts);
    OfferedExactly(fs, opts, defaults, home, c);
    BestIsFound(fs, LibsOf(fs, opts), HomePath(home), PathsFrom(fs, opts, defaults), c, v);
  }

  lemma NoLoadedDriver(fs: FileSystem, opts: seq<Opt>)
    requires forall lib, w :: !LoadedDriver(fs, opts, lib, w)
    ensures forall lib, w :: !Loaded(fs, LibsOf(fs, opts), lib, w)
  {
    forall lib, w
      ensures !Loaded(fs, LibsOf(fs, opts), lib, w)
    {
      LoadedDriverIsLoaded(fs, opts, lib, w);
    }
  }

  /** And what it finds is a complete driver that they offer. */
  lemma ProgramFindsOffered(fs: FileSystem, getopt: GetOpt, argv: seq<string>, lines: seq<seq<string>>, n: nat,
                            defaults: Option<seq<string>>, home: Option<string>, pathMax: nat)
    returns (c: Path)
    requires Searches(fs, getopt, argv, lines, n, defaults, home, pathMax)
    requires forall lib, w :: !LoadedDriver(fs, OptionsRead(getopt, argv, lines, n), lib, w)
    requires ProgramFinds(fs, getopt, argv, lines, defaults, home).Some?
    ensures var r := ProgramFinds(fs, getopt, argv, lines, defaults, home).value;
      && Offered(fs, OptionsRead(getopt, argv, lines, n), defaults, home, c)
      && r.dir == c.Parent() && CompleteDriver(fs, r.dir, r.version)
  {
    var opts := OptionsRead(getopt, argv, lines, n);
    SearchesFinds(fs, getopt, argv, lines, n, defaults, home, pathMax);
    NoLoadedDriver(fs, opts);
    c := FoundIsCandidate(fs, LibsOf(fs, opts), HomePath(home), PathsFrom(fs, opts, defaults));
    OfferedExactly(fs, opts, defaults, home, c);
  }
}
