/** What the search asks of the system: stat, dlopen and weakly_canonical, as
    functions of a path that do not change during a run. */
module FileSystems {
  import opened Wrappers
  import opened Paths
  import opened Sonames

  datatype Kind = Directory | Regular | Other

  /** The part of a stat result the search looks at. It has an inode number but
      no device number, because the search never reads st_dev. */
  datatype Stat = Stat(ino: nat, kind: Kind)

  /** A loaded library: which symbols it has, and what cuDriverGetVersion
      stores, if it stores anything. */
  datatype Library = Library(
    autocompat: bool, errorName: bool, errorString: bool, driverVersion: bool, reports: Option<int>)

  datatype FileSystem = FileSystem(
    stat: Path -> Option<Stat>, dlopen: Path -> Option<Library>, canonical: Path -> Path)

  /** check_file_exists, src/search/search.cxx:98-102. */
  predicate IsRegularFile(fs: FileSystem, p: Path) {
    fs.stat(p).Some? && fs.stat(p).value.kind == Regular
  }

  /** The inode of a directory. */
  function DirInode(fs: FileSystem, p: Path): Option<nat> {
    if fs.stat(p).Some? && fs.stat(p).value.kind == Directory then Some(fs.stat(p).value.ino) else None
  }

  /** The inode of anything else that exists. */
  function FileInode(fs: FileSystem, p: Path): Option<nat> {
    if fs.stat(p).Some? && fs.stat(p).value.kind != Directory then Some(fs.stat(p).value.ino) else None
  }

  /** What probing a library file afresh finds: a version, -2 for this project's
      own shim, -1 for a library that cannot be used. A library that stores
      nothing leaves -1. */
  function Probe(fs: FileSystem, p: Path): int {
    match fs.dlopen(p)
    case None => -1
    case Some(lib) =>
      if lib.autocompat then -2
      else if !lib.errorName || !lib.errorString || !lib.driverVersion || lib.reports.None? then -1
      else lib.reports.value
  }

  /** Versions that are not error codes. */
  predicate Usable(ver: int) {
    !(-4 <= ver <= -1)
  }

  /** All three companions are in the directory. */
  predicate Companions(fs: FileSystem, dir: Path) {
    && IsRegularFile(fs, dir.Append(LIBNVIDIA_NVVM_SONAME))
    && IsRegularFile(fs, dir.Append(LIBNVIDIA_PTXJITCOMPILER_SONAME))
    && IsRegularFile(fs, dir.Append(LIBCUDADEBUGGER_SONAME))
  }

  /** The version a candidate library offers, looked at without any cache. */
  function Verdict(fs: FileSystem, p: Path): Option<int> {
    if DirInode(fs, p.Parent()).Some? && FileInode(fs, p).Some? && Usable(Probe(fs, p))
       && Companions(fs, p.Parent())
    then Some(Probe(fs, p)) else None
  }
}
