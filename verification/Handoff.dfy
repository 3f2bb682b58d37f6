/** The audit library (src/rtld-audit/audit.c): la_version builds the four
    library paths from the directory the search helper prints, la_objsearch
    redirects to them, la_objopen recognises them. */
module Handoff {
  import opened Wrappers
  import opened Memory
  import opened Tokenizer
  import opened PathUtils
  import opened PipeRead
  import opened LdAudit
  import opened Sonames

  const LA_FLG_BINDTO: nat := 1
  const LA_FLG_BINDFROM: nat := 2

  /** The paths the audit library redirects to; None is one that is not set. */
  datatype LibraryPaths = LibraryPaths(
    cuda: Option<string>, nvvm: Option<string>, ptx: Option<string>, debugger: Option<string>)

  /** A library's path in a directory, if there is a directory and it fits. */
  function LibraryPath(dir: string, soname: string, pathMax: nat): Option<string> {
    if dir != [] && |Joined(dir, soname)| < pathMax then Some(Joined(dir, soname)) else None
  }

  function PathsFor(dir: string, pathMax: nat): LibraryPaths {
    LibraryPaths(
      LibraryPath(dir, LIBCUDA_SONAME, pathMax),
      LibraryPath(dir, LIBNVIDIA_NVVM_SONAME, pathMax),
      LibraryPath(dir, LIBNVIDIA_PTXJITCOMPILER_SONAME, pathMax),
      LibraryPath(dir, LIBCUDADEBUGGER_SONAME, pathMax))
  }

  /** What a buffer and its length say about one path. */
  ghost predicate Stores(m: seq<char>, len: int, path: Option<string>) {
    match path
    case None => len == -1 && Holds(m, [])
    case Some(p) => len == |p| && p != [] && |p| < |m| && NUL !in p && Holds(m, p)
  }

  /** The C string a path buffer holds. */
  function Stored(path: Option<string>): string {
    if path.Some? then path.value else []
  }

  /** strncmp(a, b, n) == 0, for the strings a and b. */
  predicate StrncmpEqual(a: string, b: string, n: nat) {
    Take(a, n) == Take(b, n)
  }

  /** The conversion of an int to the size_t parameter of strncmp. */
  function AsSize(n: int): nat
    requires -1 <= n < 0x8000_0000
  {
    if n == -1 then 0xFFFF_FFFF_FFFF_FFFF else n
  }

  /** Where la_objsearch sends a library name. */
  function Redirect(p: LibraryPaths, name: string): string {
    if p.cuda.None? then name
    else if LIBCUDA_SONAME <= name then Stored(p.cuda)
    else if LIBNVIDIA_NVVM_SONAME <= name then Stored(p.nvvm)
    else if LIBNVIDIA_PTXJITCOMPILER_SONAME <= name then Stored(p.ptx)
    else if LIBCUDADEBUGGER_SONAME <= name then Stored(p.debugger)
    else name
  }

  predicate Extends(name: string, path: Option<string>) {
    path.Some? && path.value <= name
  }

  /** The objects la_objopen asks to bind: those whose name extends a path that
      is set. */
  predicate Bound(p: LibraryPaths, name: string) {
    Extends(name, p.cuda) || Extends(name, p.nvvm) || Extends(name, p.ptx) || Extends(name, p.debugger)
  }

  lemma TakePrefix(a: string, b: string)
    ensures StrncmpEqual(a, b, |b|) <==> b <= a
  {
    assert Take(b, |b|) == b;
    if |b| <= |a| {
      assert Take(a, |b|) == a[..|b|];
    }
  }

  /** Comparing a name with a stored path as la_objopen does. A path that is
      not set has length -1, which compares whole strings. */
  lemma ComparesPath(name: string, m: seq<char>, len: int, path: Option<string>)
    requires name != []
    requires Stores(m, len, path) && 0 < |m| < 0x8000_0000
    ensures Terminated(m, 0)
    ensures StrncmpEqual(name, CStr(m, 0), AsSize(len)) <==> Extends(name, path)
  {
    HoldsString(m, Stored(path));
    if path.Some? {
      TakePrefix(name, path.value);
    }
  }

  class AuditLibrary {
    const libcudaPath: array<char>
    const libnvidiaNvvmPath: array<char>
    const libnvidiaPtxjitcompilerPath: array<char>
    const libcudadebuggerPath: array<char>
    var libcudaPathLen: int
    var libnvidiaNvvmPathLen: int
    var libnvidiaPtxjitcompilerPathLen: int
    var libcudadebuggerPathLen: int

    ghost predicate Separate(pathMax: nat) {
      && 0 < pathMax < 0x8000_0000
      && libcudaPath.Length == libnvidiaNvvmPath.Length == libnvidiaPtxjitcompilerPath.Length
         == libcudadebuggerPath.Length == pathMax
      && libcudaPath != libnvidiaNvvmPath && libcudaPath != libnvidiaPtxjitcompilerPath
      && libcudaPath != libcudadebuggerPath && libnvidiaNvvmPath != libnvidiaPtxjitcompilerPath
      && libnvidiaNvvmPath != libcudadebuggerPath && libnvidiaPtxjitcompilerPath != libcudadebuggerPath
    }

    ghost function Buffers(): set<array<char>> {
      {libcudaPath, libnvidiaNvvmPath, libnvidiaPtxjitcompilerPath, libcudadebuggerPath}
    }

    /** The library's state stands for these paths. */
    ghost predicate Represents(p: LibraryPaths)
      reads this, Buffers()
    {
      && Stores(libcudaPath[..], libcudaPathLen, p.cuda)
      && Stores(libnvidiaNvvmPath[..], libnvidiaNvvmPathLen, p.nvvm)
      && Stores(libnvidiaPtxjitcompilerPath[..], libnvidiaPtxjitcompilerPathLen, p.ptx)
      && Stores(libcudadebuggerPath[..], libcudadebuggerPathLen, p.debugger)
    }

    constructor (pathMax: nat)
      requires 0 < pathMax < 0x8000_0000
      ensures Separate(pathMax) && fresh(Buffers())
      ensures Represents(LibraryPaths(None, None, None, None))
    {
      libcudaPath := new char[pathMax](_ => NUL);
      libnvidiaNvvmPath := new char[pathMax](_ => NUL);
      libnvidiaPtxjitcompilerPath := new char[pathMax](_ => NUL);
      libcudadebuggerPath := new char[pathMax](_ => NUL);
      libcudaPathLen, libnvidiaNvvmPathLen := -1, -1;
      libnvidiaPtxjitcompilerPathLen, libcudadebuggerPathLen := -1, -1;
    }

    /** src/rtld-audit/audit.c:143-150 */
    method ClearPaths(pathMax: nat)
      requires Separate(pathMax)
      modifies this, Buffers()
      ensures Represents(LibraryPaths(None, None, None, None))
    {
      Memset(libcudaPath, 0, pathMax);
      Memset(libnvidiaNvvmPath, 0, pathMax);
      Memset(libnvidiaPtxjitcompilerPath, 0, pathMax);
      Memset(libcudadebuggerPath, 0, pathMax);
      libcudaPathLen, libnvidiaNvvmPathLen := -1, -1;
      libnvidiaPtxjitcompilerPathLen, libcudadebuggerPathLen := -1, -1;
    }

    /** The path-building part of la_version (src/rtld-audit/audit.c:143-150
        and 159-173), with what find_libcuda reported. Nothing in between
        touches the paths. */
    method BuildPaths(pathMax: nat, libcudaDir: string)
      requires Separate(pathMax) && NUL !in libcudaDir
      modifies this, Buffers()
      ensures Represents(PathsFor(libcudaDir, pathMax))
    {
      ClearPaths(pathMax);
      if |libcudaDir| == 0 {
        return;
      }
      libcudaPathLen := BuildPath(libcudaPath, libcudaDir, LIBCUDA_SONAME);
      libnvidiaNvvmPathLen := BuildPath(libnvidiaNvvmPath, libcudaDir, LIBNVIDIA_NVVM_SONAME);
      libnvidiaPtxjitcompilerPathLen :=
        BuildPath(libnvidiaPtxjitcompilerPath, libcudaDir, LIBNVIDIA_PTXJITCOMPILER_SONAME);
      libcudadebuggerPathLen := BuildPath(libcudadebuggerPath, libcudaDir, LIBCUDADEBUGGER_SONAME);
    }

    /** src/rtld-audit/audit.c:142-180. The backup is the static one that
        la_version clears first. Its slot is never set after sanitising, so the
        restore at line 176 is dead code. */
    method LaVersion(pathMax: nat, ldAudit: array?<char>, selfPath: Option<seq<char>>,
                     helperFound: bool, pipe: Option<Pipe>, exitStatus: int)
      returns (dir: string)
      requires Separate(pathMax)
      requires ldAudit != null ==> Terminated(ldAudit[..], 0) && ldAudit !in Buffers()
      requires selfPath.Some? ==> Terminated(selfPath.value, 0)
      requires ldAudit != null && selfPath.Some? ==>
        SlotFits(ldAudit[..], Filename(CStr(selfPath.value, 0)), pathMax)
      modifies this, Buffers(), ldAudit, if pipe.Some? then {pipe.value} else {}
      ensures dir == if helperFound && pipe.Some? && exitStatus == 0
                     then ReadAll(old(pipe.value.chunks), pathMax - 1) else []
      ensures Represents(PathsFor(dir, pathMax))
      ensures ldAudit != null && selfPath.Some? ==>
        ldAudit[..] == Sanitized(old(ldAudit[..]), Filename(CStr(selfPath.value, 0)))
      ensures ldAudit != null && selfPath.None? ==> ldAudit[..] == old(ldAudit[..])
    {
      var backup := SanitizeEnvironment(pathMax, ldAudit, selfPath);
      dir := ReadDirectory(pathMax, helperFound, pipe, exitStatus);
      BuildPaths(pathMax, dir);
      if backup.slot.Some? {
        assert false;
      }
    }

    /** src/rtld-audit/audit.c:183-199; the result is the string the returned
        pointer points to. */
    method LaObjsearch(pathMax: nat, name: string, ghost p: LibraryPaths) returns (r: string)
      requires Separate(pathMax) && Represents(p) && NUL !in name
      ensures r == Redirect(p, name)
    {
      StoredStrings(pathMax, p);
      TakePrefix(name, LIBCUDA_SONAME);
      TakePrefix(name, LIBNVIDIA_NVVM_SONAME);
      TakePrefix(name, LIBNVIDIA_PTXJITCOMPILER_SONAME);
      TakePrefix(name, LIBCUDADEBUGGER_SONAME);
      if libcudaPath[0] != NUL {
        if StrncmpEqual(name, LIBCUDA_SONAME, |LIBCUDA_SONAME|) {
          return CStr(libcudaPath[..], 0);
        } else if StrncmpEqual(name, LIBNVIDIA_NVVM_SONAME, |LIBNVIDIA_NVVM_SONAME|) {
          return CStr(libnvidiaNvvmPath[..], 0);
        } else if StrncmpEqual(name, LIBNVIDIA_PTXJITCOMPILER_SONAME, |LIBNVIDIA_PTXJITCOMPILER_SONAME|) {
          return CStr(libnvidiaPtxjitcompilerPath[..], 0);
        } else if StrncmpEqual(name, LIBCUDADEBUGGER_SONAME, |LIBCUDADEBUGGER_SONAME|) {
          return CStr(libcudadebuggerPath[..], 0);
        }
      }
      return name;
    }

    lemma StoredStrings(pathMax: nat, p: LibraryPaths)
      requires Separate(pathMax) && Represents(p)
      ensures Terminated(libcudaPath[..], 0) && CStr(libcudaPath[..], 0) == Stored(p.cuda)
      ensures Terminated(libnvidiaNvvmPath[..], 0) && CStr(libnvidiaNvvmPath[..], 0) == Stored(p.nvvm)
      ensures Terminated(libnvidiaPtxjitcompilerPath[..], 0)
        && CStr(libnvidiaPtxjitcompilerPath[..], 0) == Stored(p.ptx)
      ensures Terminated(libcudadebuggerPath[..], 0)
        && CStr(libcudadebuggerPath[..], 0) == Stored(p.debugger)
      ensures libcudaPath[0] != NUL <==> p.cuda.Some?
    {
      HoldsString(libcudaPath[..], Stored(p.cuda));
      HoldsString(libnvidiaNvvmPath[..], Stored(p.nvvm));
      HoldsString(libnvidiaPtxjitcompilerPath[..], Stored(p.ptx));
      HoldsString(libcudadebuggerPath[..], Stored(p.debugger));
    }

    /** src/rtld-audit/audit.c:202-219; name is None for a null l_name. */
    method LaObjopen(pathMax: nat, name: Option<string>, ghost p: LibraryPaths) returns (flags: nat)
      requires Separate(pathMax) && Represents(p)
      requires name.Some? ==> NUL !in name.value
      ensures flags == if name.Some? && name.value != [] && Bound(p, name.value)
                       then LA_FLG_BINDTO + LA_FLG_BINDFROM else 0
    {
      if name.None? || name.value == [] {
        return 0;
      }
      ComparesPath(name.value, libcudaPath[..], libcudaPathLen, p.cuda);
      ComparesPath(name.value, libnvidiaNvvmPath[..], libnvidiaNvvmPathLen, p.nvvm);
      ComparesPath(name.value, libnvidiaPtxjitcompilerPath[..], libnvidiaPtxjitcompilerPathLen, p.ptx);
      ComparesPath(name.value, libcudadebuggerPath[..], libcudadebuggerPathLen, p.debugger);
      if StrncmpEqual(name.value, CStr(libcudaPath[..], 0), AsSize(libcudaPathLen))
        || StrncmpEqual(name.value, CStr(libnvidiaNvvmPath[..], 0), AsSize(libnvidiaNvvmPathLen))
        || StrncmpEqual(name.value, CStr(libnvidiaPtxjitcompilerPath[..], 0),
                        AsSize(libnvidiaPtxjitcompilerPathLen))
        || StrncmpEqual(name.value, CStr(libcudadebuggerPath[..], 0), AsSize(libcudadebuggerPathLen)) {
        return LA_FLG_BINDTO + LA_FLG_BINDFROM;
      }
      return 0;
    }
  }

  /** src/rtld-audit/audit.c:152-155 */
  method SanitizeEnvironment(pathMax: nat, ldAudit: array?<char>, selfPath: Option<seq<char>>)
    returns (backup: LdAuditBackup)
    requires ldAudit != null ==> Terminated(ldAudit[..], 0)
    requires selfPath.Some? ==> Terminated(selfPath.value, 0)
    requires ldAudit != null && selfPath.Some? ==>
      SlotFits(ldAudit[..], Filename(CStr(selfPath.value, 0)), pathMax)
    modifies ldAudit
    ensures fresh(backup) && backup.slot.None?
    ensures ldAudit != null && selfPath.Some? ==>
      ldAudit[..] == Sanitized(old(ldAudit[..]), Filename(CStr(selfPath.value, 0)))
    ensures ldAudit != null && selfPath.None? ==> ldAudit[..] == old(ldAudit[..])
  {
    backup := new LdAuditBackup(pathMax);
    backup.Sanitize(ldAudit, selfPath);
  }

  /** src/rtld-audit/audit.c:157-158: the bytes of libcuda_dir up to its length. */
  method ReadDirectory(pathMax: nat, helperFound: bool, pipe: Option<Pipe>, exitStatus: int)
    returns (dir: string)
    requires pathMax > 0
    modifies if pipe.Some? then {pipe.value} else {}
    ensures dir == if helperFound && pipe.Some? && exitStatus == 0
                   then ReadAll(old(pipe.value.chunks), pathMax - 1) else []
  {
    var libcudaDir := new char[pathMax];
    var len, whole := FindLibcuda(libcudaDir, helperFound, pipe, exitStatus);
    dir := libcudaDir[..len];
    assert dir == whole;
  }

  /** One path_join2 into a cleared buffer. */
  method BuildPath(buf: array<char>, dir: string, soname: string) returns (len: int)
    requires dir != [] && NUL !in dir && NUL !in soname && Holds(buf[..], [])
    modifies buf
    ensures Stores(buf[..], len, LibraryPath(dir, soname, buf.Length))
  {
    len := PathJoin(buf, dir, soname);
  }

  /** No name extends two of the sonames, so the order of la_objsearch's tests
      is irrelevant. */
  lemma SonamesExclusive(name: string)
    ensures LIBCUDA_SONAME <= name ==>
      !(LIBNVIDIA_NVVM_SONAME <= name || LIBNVIDIA_PTXJITCOMPILER_SONAME <= name || LIBCUDADEBUGGER_SONAME <= name)
    ensures LIBNVIDIA_NVVM_SONAME <= name ==>
      !(LIBNVIDIA_PTXJITCOMPILER_SONAME <= name || LIBCUDADEBUGGER_SONAME <= name)
    ensures LIBNVIDIA_PTXJITCOMPILER_SONAME <= name ==> !(LIBCUDADEBUGGER_SONAME <= name)
  {
    assert LIBCUDA_SONAME[3] == 'c' && LIBCUDA_SONAME[7] == '.';
    assert LIBNVIDIA_NVVM_SONAME[3] == 'n' && LIBNVIDIA_NVVM_SONAME[10] == 'n';
    assert LIBNVIDIA_PTXJITCOMPILER_SONAME[3] == 'n' && LIBNVIDIA_PTXJITCOMPILER_SONAME[10] == 'p';
    assert LIBCUDADEBUGGER_SONAME[3] == 'c' && LIBCUDADEBUGGER_SONAME[7] == 'd';
  }

  /** A library that is none of the driver's four. */
  predicate IsOther(name: string) {
    && !("libcuda.so.1" <= name) && !("libnvidia-nvvm.so.4" <= name)
    && !("libnvidia-ptxjitcompiler.so.1" <= name) && !("libcudadebugger.so.1" <= name)
  }

  /** The answer to every request, whatever paths are set: a name that extends a
      soname gets that soname's path (an unset one is an empty string), and any
      other name is returned unchanged. */
  lemma RedirectExactly(p: LibraryPaths, name: string)
    ensures IsOther(name) || p.cuda.None? ==> Redirect(p, name) == name
    ensures p.cuda.Some? && "libcuda.so.1" <= name ==> Redirect(p, name) == p.cuda.value
    ensures p.cuda.Some? && "libnvidia-nvvm.so.4" <= name ==> Redirect(p, name) == Stored(p.nvvm)
    ensures p.cuda.Some? && "libnvidia-ptxjitcompiler.so.1" <= name ==> Redirect(p, name) == Stored(p.ptx)
    ensures p.cuda.Some? && "libcudadebugger.so.1" <= name ==> Redirect(p, name) == Stored(p.debugger)
  {
    SonamesExclusive(name);
  }

  /** The separator path_join adds between a directory and a soname. */
  function ExtraSep(dir: string): nat
    requires dir != []
  {
    if dir[|dir| - 1] == '/' then 0 else 1
  }

  predicate AllSet(p: LibraryPaths) {
    p.cuda.Some? && p.nvvm.Some? && p.ptx.Some? && p.debugger.Some?
  }

  predicate NoneSet(p: LibraryPaths) {
    p.cuda.None? && p.nvvm.None? && p.ptx.None? && p.debugger.None?
  }

  /** A path is the directory, a separator if it lacks one, and the soname, and
      is set exactly when that fits. */
  lemma LibraryPathIs(dir: string, soname: string, pathMax: nat)
    requires dir != [] && NUL !in dir && soname != [] && soname[0] != '/'
    ensures Joined(dir, soname) == dir + (if ExtraSep(dir) == 1 then "/" else []) + soname
    ensures LibraryPath(dir, soname, pathMax).Some? <==> |dir| + ExtraSep(dir) + |soname| < pathMax
  {
    assert dir[0] in dir;
  }

  /** The longest soname has 29 bytes and the shortest is libcuda's, so all
      four are set when the longest fits, and none when libcuda's does not. */
  lemma PathsSet(dir: string, pathMax: nat)
    requires dir != [] && NUL !in dir
    ensures AllSet(PathsFor(dir, pathMax)) <==> |dir| + ExtraSep(dir) + 29 < pathMax
    ensures PathsFor(dir, pathMax).cuda.Some? <==> |dir| + ExtraSep(dir) + 12 < pathMax
    ensures PathsFor(dir, pathMax).cuda.None? ==> NoneSet(PathsFor(dir, pathMax))
  {
    LibraryPathIs(dir, LIBCUDA_SONAME, pathMax);
    LibraryPathIs(dir, LIBNVIDIA_NVVM_SONAME, pathMax);
    LibraryPathIs(dir, LIBNVIDIA_PTXJITCOMPILER_SONAME, pathMax);
    LibraryPathIs(dir, LIBCUDADEBUGGER_SONAME, pathMax);
  }

  /** The directory's length puts some paths inside the limit and some outside. */
  predicate Straddles(dir: string, pathMax: nat) {
    dir != [] && |dir| + ExtraSep(dir) + 12 < pathMax <= |dir| + ExtraSep(dir) + 29
  }

  /** An object is bound exactly when its name extends the directory's path of one
      of the four libraries, and that path fits. */
  lemma BoundExactly(dir: string, pathMax: nat, name: string)
    requires dir != [] && NUL !in dir
    ensures Bound(PathsFor(dir, pathMax), name) <==>
      || BoundAs(dir, pathMax, name, "libcuda.so.1")
      || BoundAs(dir, pathMax, name, "libnvidia-nvvm.so.4")
      || BoundAs(dir, pathMax, name, "libnvidia-ptxjitcompiler.so.1")
      || BoundAs(dir, pathMax, name, "libcudadebugger.so.1")
  {
    ExtendsExactly(dir, pathMax, name, LIBCUDA_SONAME);
    ExtendsExactly(dir, pathMax, name, LIBNVIDIA_NVVM_SONAME);
    ExtendsExactly(dir, pathMax, name, LIBNVIDIA_PTXJITCOMPILER_SONAME);
    ExtendsExactly(dir, pathMax, name, LIBCUDADEBUGGER_SONAME);
  }

  /** The name extends the directory's path of a library, and that path fits. */
  predicate BoundAs(dir: string, pathMax: nat, name: string, soname: string)
    requires dir != []
  {
    var path := dir + (if ExtraSep(dir) == 1 then "/" else "") + soname;
    |path| < pathMax && path <= name
  }

  lemma ExtendsExactly(dir: string, pathMax: nat, name: string, soname: string)
    requires dir != [] && NUL !in dir && soname != [] && soname[0] != '/'
    ensures Extends(name, LibraryPath(dir, soname, pathMax)) <==> BoundAs(dir, pathMax, name, soname)
  {
    LibraryPathIs(dir, soname, pathMax);
  }

  /** For la_version alone, given any directory, the comment at
      src/rtld-audit/audit.c:184 ("all set or none") is right exactly when the
      directory does not straddle the limit. */
  lemma AllOrNone(dir: string, pathMax: nat)
    requires NUL !in dir
    ensures AllSet(PathsFor(dir, pathMax)) || NoneSet(PathsFor(dir, pathMax)) <==> !Straddles(dir, pathMax)
  {
    if dir != [] {
      PathsSet(dir, pathMax);
    }
  }

  /** A directory that la_version alone would half use: it can be read from the
      pipe, and some of its paths fit while others do not. */
  lemma StraddlingDirectory(pathMax: nat) returns (dir: string)
    requires pathMax > 30
    ensures Transmissible(dir, pathMax - 1) && Straddles(dir, pathMax)
    ensures !AllSet(PathsFor(dir, pathMax)) && !NoneSet(PathsFor(dir, pathMax))
  {
    dir := seq(pathMax - 30, i => 'd');
    AllOrNone(dir, pathMax);
  }

  /** la_objsearch replaces these names. */
  predicate Substituted(p: LibraryPaths, name: string) {
    p.cuda.Some? && (LIBCUDA_SONAME <= name || LIBNVIDIA_NVVM_SONAME <= name
      || LIBNVIDIA_PTXJITCOMPILER_SONAME <= name || LIBCUDADEBUGGER_SONAME <= name)
  }

  /** Every object a redirection loads is one la_objopen binds. */
  ghost predicate RedirectsBind(p: LibraryPaths) {
    forall name :: Substituted(p, name) ==> Redirect(p, name) != [] && Bound(p, Redirect(p, name))
  }

  /** Redirection and binding agree exactly when no path is cut off. */
  lemma RedirectAndBindAgree(dir: string, pathMax: nat)
    requires NUL !in dir
    ensures RedirectsBind(PathsFor(dir, pathMax)) <==> !Straddles(dir, pathMax)
  {
    var p := PathsFor(dir, pathMax);
    AllOrNone(dir, pathMax);
    if AllSet(p) {
      forall name | Substituted(p, name)
        ensures Redirect(p, name) != [] && Bound(p, Redirect(p, name))
      {
        PathsNotEmpty(dir, pathMax);
      }
    } else if !NoneSet(p) {
      PathsSet(dir, pathMax);
      UnsetRedirect(p);
    }
  }

  lemma PathsNotEmpty(dir: string, pathMax: nat)
    requires AllSet(PathsFor(dir, pathMax))
    ensures var p := PathsFor(dir, pathMax);
      p.cuda.value != [] && p.nvvm.value != [] && p.ptx.value != [] && p.debugger.value != []
  {
  }

  /** A name whose path is not set is redirected to the empty name. */
  lemma UnsetRedirect(p: LibraryPaths)
    requires p.cuda.Some? && !AllSet(p)
    ensures exists name :: Substituted(p, name) && Redirect(p, name) == []
  {
    var name := if p.nvvm.None? then LIBNVIDIA_NVVM_SONAME
                else if p.ptx.None? then LIBNVIDIA_PTXJITCOMPILER_SONAME
                else LIBCUDADEBUGGER_SONAME;
    SonamesExclusive(name);
    assert Substituted(p, name) && Redirect(p, name) == [];
  }
}
