/** What the search computes, and when its caches can be trusted. */
module SearchProofs {
  import opened Wrappers
  import opened Paths
  import opened FileSystems
  import opened Sonames
  import opened Search

  /** A directory named without a trailing separator. */
  predicate Plain(d: Path) {
    d.comps == [] || d.Filename() != []
  }

  /** The candidate library in a directory. */
  function DriverIn(d: Path): Path {
    d.Append(LIBCUDA_SONAME)
  }

  /** Every candidate of the search names libcuda.so.1 in some directory. */
  predicate IsCandidate(p: Path) {
    p.comps != [] && p.Filename() == LIBCUDA_SONAME && Plain(p.Parent())
  }

  ghost predicate AllCandidates(cands: seq<Path>) {
    forall i :: 0 <= i < |cands| ==> IsCandidate(cands[i])
  }

  /** The candidates all lie in these directories. */
  ghost predicate CandidatesIn(cands: seq<Path>, ds: set<Path>) {
    AllCandidates(cands) && forall i :: 0 <= i < |cands| ==> cands[i].Parent() in ds
  }

  lemma CandidateIsDriverIn(p: Path)
    requires IsCandidate(p)
    ensures DriverIn(p.Parent()) == p
  {
    assert p.comps == p.comps[..|p.comps| - 1] + [p.Filename()];
  }

  lemma DriverInIsCandidate(d: Path)
    requires Plain(d)
    ensures IsCandidate(DriverIn(d)) && DriverIn(d).Parent() == d
  {
    AppendParent(d, LIBCUDA_SONAME);
  }

  // ---------------------------------------------------------------- no caches

  /** The search without caches: every candidate is probed afresh. */
  function PlainRun(fs: FileSystem, found: Option<Driver>, cands: seq<Path>): Option<Driver>
    decreases |cands|
  {
    if cands == [] then found
    else PlainRun(fs, Consider(fs, found, cands[0]), cands[1..])
  }

  function Consider(fs: FileSystem, found: Option<Driver>, p: Path): Option<Driver> {
    match Verdict(fs, p)
    case None => found
    case Some(ver) => Better(found, ver, p.Parent())
  }

  /** The first usable driver among the loaded libraries. */
  function FirstUsable(fs: FileSystem, libs: seq<Path>): Option<Driver>
    decreases |libs|
  {
    if libs == [] then None
    else if libs[0].Filename() == LIBCUDA_SONAME && Verdict(fs, libs[0]).Some?
    then Some(Driver(Verdict(fs, libs[0]).value, libs[0].Parent()))
    else FirstUsable(fs, libs[1..])
  }

  /** What the program promises: a usable loaded driver is taken; otherwise the
      best of all candidates. */
  function Best(fs: FileSystem, libs: seq<Path>, home: Option<Path>, paths: seq<Path>): Option<Driver> {
    if FirstUsable(fs, libs).Some? then FirstUsable(fs, libs)
    else PlainRun(fs, None, Candidates(fs, libs, home, paths))
  }

  /** The leftmost maximum: no result without an eligible candidate; otherwise
      the version is the greatest, and the directory is the first to reach it. */
  ghost predicate IsLeftmostMax(fs: FileSystem, cands: seq<Path>, r: Option<Driver>) {
    match r
    case None => forall i :: 0 <= i < |cands| ==> Verdict(fs, cands[i]).None?
    case Some(driver) => exists i :: IsLeftmostAt(fs, cands, driver, i)
  }

  ghost predicate IsLeftmostAt(fs: FileSystem, cands: seq<Path>, driver: Driver, i: int) {
    && 0 <= i < |cands| && Verdict(fs, cands[i]) == Some(driver.version)
    && driver.dir == cands[i].Parent()
    && (forall j :: 0 <= j < |cands| && Verdict(fs, cands[j]).Some? ==>
      Verdict(fs, cands[j]).value <= driver.version)
    && (forall j :: 0 <= j < i && Verdict(fs, cands[j]).Some? ==>
      Verdict(fs, cands[j]).value < driver.version)
  }

  lemma {:induction false} PlainRunConcat(fs: FileSystem, found: Option<Driver>, a: seq<Path>, b: seq<Path>)
    ensures PlainRun(fs, found, a + b) == PlainRun(fs, PlainRun(fs, found, a), b)
    decreases |a|
  {
    if a == [] {
      assert a + b == b;
    } else {
      PlainRunConcat(fs, Consider(fs, found, a[0]), a[1..], b);
      assert (a + b)[1..] == a[1..] + b;
    }
  }

  lemma PlainRunSnoc(fs: FileSystem, found: Option<Driver>, cands: seq<Path>, p: Path)
    ensures PlainRun(fs, found, cands + [p]) == Consider(fs, PlainRun(fs, found, cands), p)
  {
    PlainRunConcat(fs, found, cands, [p]);
    assert [p][1..] == [];
  }

  lemma {:induction false} PlainRunIsLeftmostMax(fs: FileSystem, cands: seq<Path>)
    ensures IsLeftmostMax(fs, cands, PlainRun(fs, None, cands))
    decreases |cands|
  {
    if cands != [] {
      var front, p := cands[..|cands| - 1], cands[|cands| - 1];
      assert cands == front + [p];
      PlainRunIsLeftmostMax(fs, front);
      PlainRunSnoc(fs, None, front, p);
      LeftmostSnoc(fs, front, p, PlainRun(fs, None, front));
    }
  }

  lemma LeftmostSnoc(fs: FileSystem, front: seq<Path>, p: Path, r: Option<Driver>)
    requires IsLeftmostMax(fs, front, r)
    ensures IsLeftmostMax(fs, front + [p], Consider(fs, r, p))
  {
    var cands, n := front + [p], |front|;
    assert forall j :: 0 <= j < n ==> cands[j] == front[j];
    assert cands[n] == p;
    if Consider(fs, r, p) != r {
      assert IsLeftmostAt(fs, cands, Consider(fs, r, p).value, n);
    } else if r.Some? {
      var i :| IsLeftmostAt(fs, front, r.value, i);
      assert IsLeftmostAt(fs, cands, r.value, i);
    }
  }

  lemma LeftmostMaxUnique(fs: FileSystem, cands: seq<Path>, r: Option<Driver>, r': Option<Driver>)
    requires IsLeftmostMax(fs, cands, r) && IsLeftmostMax(fs, cands, r')
    ensures r == r'
  {
    if r.Some? && r'.Some? {
      var i :| IsLeftmostAt(fs, cands, r.value, i);
      var i' :| IsLeftmostAt(fs, cands, r'.value, i');
      assert r.value.version == r'.value.version;
      assert i == i';
    }
  }

  /** Searching without caches finds the leftmost maximum and nothing else. */
  lemma PlainRunFindsBest(fs: FileSystem, cands: seq<Path>, r: Option<Driver>)
    ensures r == PlainRun(fs, None, cands) <==> IsLeftmostMax(fs, cands, r)
  {
    PlainRunIsLeftmostMax(fs, cands);
    if IsLeftmostMax(fs, cands, r) {
      LeftmostMaxUnique(fs, cands, r, PlainRun(fs, None, cands));
    }
  }

  // ------------------------------------------------------------------- caches

  ghost predicate SameDirectory(fs: FileSystem, d: Path, e: Path) {
    DirInode(fs, d).Some? && DirInode(fs, d) == DirInode(fs, e)
  }

  /** The candidate's file is looked at when its directory is new. */
  ghost predicate Reached(fs: FileSystem, d: Path) {
    DirInode(fs, d).Some? && FileInode(fs, DriverIn(d)).Some?
  }

  /** One inode number for the libraries of directories with different ones. */
  ghost predicate SharesFile(fs: FileSystem, d: Path, e: Path) {
    && Reached(fs, d) && Reached(fs, e) && DirInode(fs, d) != DirInode(fs, e)
    && FileInode(fs, DriverIn(d)) == FileInode(fs, DriverIn(e))
  }

  /** The version cached for the first directory's library can be taken for the
      second's, which is otherwise complete. */
  ghost predicate Shadows(fs: FileSystem, d: Path, e: Path) {
    SharesFile(fs, d, e) && Companions(fs, e)
  }

  /** The version a fresh probe of the directory's library gives, if usable. */
  function Answer(fs: FileSystem, d: Path): Option<int> {
    if Usable(Probe(fs, DriverIn(d))) then Some(Probe(fs, DriverIn(d))) else None
  }

  /** Inode numbers tell the drivers in these directories apart: directories
      with one inode number give one verdict, and files with one inode number,
      in directories with different ones, probe alike as far as that can matter. */
  ghost predicate InodesFaithful(fs: FileSystem, ds: set<Path>) {
    && (forall d, e :: d in ds && e in ds && Plain(d) && Plain(e) && SameDirectory(fs, d, e) ==>
      Verdict(fs, DriverIn(d)) == Verdict(fs, DriverIn(e)))
    && (forall d, e :: d in ds && e in ds && Plain(d) && Plain(e) && Shadows(fs, d, e) ==>
      Answer(fs, d) == Answer(fs, e))
  }

  lemma FewerFaithful(fs: FileSystem, ds: set<Path>, ds': set<Path>)
    requires InodesFaithful(fs, ds') && ds <= ds'
    ensures InodesFaithful(fs, ds)
  {
  }

  /** The caches never change what a search of these directories finds. */
  ghost predicate CachesInvisible(fs: FileSystem, ds: set<Path>) {
    forall cands :: CandidatesIn(cands, ds) ==> SameWithoutCaches(fs, cands)
  }

  ghost predicate SameWithoutCaches(fs: FileSystem, cands: seq<Path>) {
    Run(fs, FRESH, cands).found == PlainRun(fs, None, cands)
  }

  /** Every directory cached was looked at, the caches come from those
      directories, and what was found is at least as good as all of them. */
  ghost predicate Tracks(fs: FileSystem, s: State) {
    && (forall d :: d in s.dirPaths ==> Plain(d) && Dominated(fs, s.found, d))
    && (forall ino :: ino in s.dirInodes ==> exists d :: d in s.dirPaths && DirInode(fs, d) == Some(ino))
    && (forall ino :: ino in s.versions ==> exists d :: ProbedIn(fs, s, d, ino))
  }

  ghost predicate Dominated(fs: FileSystem, found: Option<Driver>, d: Path) {
    Verdict(fs, DriverIn(d)).Some? ==>
      found.Some? && found.value.version >= Verdict(fs, DriverIn(d)).value
  }

  ghost predicate ProbedIn(fs: FileSystem, s: State, d: Path, ino: nat) {
    && d in s.dirPaths && Reached(fs, d) && FileInode(fs, DriverIn(d)) == Some(ino)
    && DirInode(fs, d).value in s.dirInodes
    && ino in s.versions && s.versions[ino] == Recorded(fs, DriverIn(d))
  }

  lemma FreshTracks(fs: FileSystem)
    ensures Tracks(fs, FRESH)
  {
  }

  /** The version cache answers as a fresh probe would, where it matters. */
  lemma CacheAnswers(fs: FileSystem, ds: set<Path>, s: State, d: Path)
    requires InodesFaithful(fs, ds) && Tracks(fs, s) && s.dirPaths <= ds && d in ds
    requires Plain(d) && Reached(fs, d) && Companions(fs, d)
    requires DirInode(fs, d).value !in s.dirInodes
    ensures var ver := CachedVersion(fs, s.versions, DriverIn(d), FileInode(fs, DriverIn(d)).value);
      Answer(fs, d) == if Usable(ver) then Some(ver) else None
  {
    var ino := FileInode(fs, DriverIn(d)).value;
    if ino in s.versions {
      var e :| ProbedIn(fs, s, e, ino);
      assert Shadows(fs, e, d);
      assert Answer(fs, e) == Answer(fs, d);
    }
  }

  /** A directory inode that was visited belongs to a directory that was. */
  lemma VisitedInode(fs: FileSystem, ds: set<Path>, s: State, d: Path)
    requires InodesFaithful(fs, ds) && Tracks(fs, s) && s.dirPaths <= ds && d in ds && Plain(d)
    requires DirInode(fs, d).Some? && DirInode(fs, d).value in s.dirInodes
    ensures Dominated(fs, s.found, d)
  {
    var e :| e in s.dirPaths && DirInode(fs, e) == DirInode(fs, d);
    assert SameDirectory(fs, e, d) && Plain(e);
    assert Verdict(fs, DriverIn(e)) == Verdict(fs, DriverIn(d));
    assert Dominated(fs, s.found, e);
  }

  /** A candidate that is skipped could not have improved the result, and one
      that is not is weighed at its true version. */
  lemma OfferIsVerdict(fs: FileSystem, ds: set<Path>, s: State, p: Path)
    requires InodesFaithful(fs, ds) && Tracks(fs, s) && s.dirPaths <= ds
    requires IsCandidate(p) && p.Parent() in ds
    ensures Unvisited(fs, s, p) ==> Offer(fs, s, p) == Verdict(fs, p)
    ensures !Unvisited(fs, s, p) ==> Dominated(fs, s.found, p.Parent())
  {
    var d := p.Parent();
    CandidateIsDriverIn(p);
    DriverInIsCandidate(d);
    if d in s.dirPaths || DirInode(fs, d).None? {
    } else if DirInode(fs, d).value in s.dirInodes {
      VisitedInode(fs, ds, s, d);
    } else if FileInode(fs, p).Some? && Companions(fs, d) {
      CacheAnswers(fs, ds, s, d);
    }
  }

  /** One cached step is one step without caches, and keeps Tracks. */
  lemma UpdateIsConsider(fs: FileSystem, ds: set<Path>, s: State, p: Path)
    requires InodesFaithful(fs, ds) && Tracks(fs, s) && s.dirPaths <= ds
    requires IsCandidate(p) && p.Parent() in ds
    ensures Update(fs, s, p).found == Consider(fs, s.found, p)
    ensures Tracks(fs, Update(fs, s, p)) && Update(fs, s, p).dirPaths <= ds
  {
    FoundIsConsidered(fs, ds, s, p);
    UpdateTracks(fs, s, p);
    UpdateCaches(fs, s, p);
  }

  lemma FoundIsConsidered(fs: FileSystem, ds: set<Path>, s: State, p: Path)
    requires InodesFaithful(fs, ds) && Tracks(fs, s) && s.dirPaths <= ds
    requires IsCandidate(p) && p.Parent() in ds
    ensures Update(fs, s, p).found == Consider(fs, s.found, p)
    ensures Dominated(fs, Update(fs, s, p).found, p.Parent())
    ensures Improves(s.found, Update(fs, s, p).found)
  {
    OfferIsVerdict(fs, ds, s, p);
    CandidateIsDriverIn(p);
  }

  lemma UpdateTracks(fs: FileSystem, s: State, p: Path)
    requires Tracks(fs, s) && IsCandidate(p)
    requires Dominated(fs, Update(fs, s, p).found, p.Parent())
    requires Improves(s.found, Update(fs, s, p).found)
    ensures Tracks(fs, Update(fs, s, p))
  {
    var s' := Update(fs, s, p);
    UpdateCaches(fs, s, p);
    forall ino | ino in s'.dirInodes
      ensures exists e :: e in s'.dirPaths && DirInode(fs, e) == Some(ino)
    {
      var e :| e in s.dirPaths + {p.Parent()} && DirInode(fs, e) == Some(ino);
      assert e in s'.dirPaths;
    }
    forall ino | ino in s'.versions
      ensures exists e :: ProbedIn(fs, s', e, ino)
    {
      UpdateKeepsProbed(fs, s, p, ino);
    }
    forall d | d in s'.dirPaths
      ensures Plain(d) && Dominated(fs, s'.found, d)
    {
      assert d != p.Parent() ==> Dominated(fs, s.found, d);
    }
  }

  /** The result never reverts to nothing and its version never decreases. */
  predicate Improves(before: Option<Driver>, after: Option<Driver>) {
    before.Some? ==> after.Some? && after.value.version >= before.value.version
  }

  /** What an update does to the caches, in one place. */
  lemma UpdateCaches(fs: FileSystem, s: State, p: Path)
    ensures var s', d := Update(fs, s, p), p.Parent();
      && s'.dirPaths == s.dirPaths + {d}
      && (Unvisited(fs, s, p) ==> s'.dirInodes == s.dirInodes + {DirInode(fs, d).value})
      && (!Unvisited(fs, s, p) ==> s'.dirInodes == s.dirInodes && s'.versions == s.versions)
      && (forall ino :: ino in s'.versions && ino !in s.versions ==>
        Unvisited(fs, s, p) && FileInode(fs, p) == Some(ino) && s'.versions[ino] == Recorded(fs, p))
      && (forall ino :: ino in s.versions ==> ino in s'.versions && s'.versions[ino] == s.versions[ino])
  {
  }

  lemma UpdateKeepsProbed(fs: FileSystem, s: State, p: Path, ino: nat)
    requires Tracks(fs, s) && IsCandidate(p) && ino in Update(fs, s, p).versions
    ensures exists e :: ProbedIn(fs, Update(fs, s, p), e, ino)
  {
    var s' := Update(fs, s, p);
    UpdateCaches(fs, s, p);
    CandidateIsDriverIn(p);
    if ino in s.versions {
      var e :| ProbedIn(fs, s, e, ino);
      assert ProbedIn(fs, s', e, ino);
    } else {
      assert ProbedIn(fs, s', p.Parent(), ino);
    }
  }

  lemma {:induction false} RunIsPlainRun(fs: FileSystem, ds: set<Path>, s: State, cands: seq<Path>)
    requires InodesFaithful(fs, ds) && Tracks(fs, s) && s.dirPaths <= ds && CandidatesIn(cands, ds)
    ensures Run(fs, s, cands).found == PlainRun(fs, s.found, cands)
    ensures Tracks(fs, Run(fs, s, cands))
    decreases |cands|
  {
    if cands != [] {
      UpdateIsConsider(fs, ds, s, cands[0]);
      RunIsPlainRun(fs, ds, Update(fs, s, cands[0]), cands[1..]);
    }
  }

  lemma InvisibleOn(fs: FileSystem, ds: set<Path>, cands: seq<Path>)
    requires CachesInvisible(fs, ds) && CandidatesIn(cands, ds)
    ensures SameWithoutCaches(fs, cands)
  {
  }

  lemma PairIn(d: Path, e: Path, ds: set<Path>)
    requires Plain(d) && Plain(e) && d in ds && e in ds
    ensures CandidatesIn([DriverIn(d), DriverIn(e)], ds)
  {
    DriverInIsCandidate(d);
    DriverInIsCandidate(e);
    BothIn(DriverIn(d), DriverIn(e), ds);
  }

  lemma BothIn(p: Path, q: Path, ds: set<Path>)
    requires IsCandidate(p) && IsCandidate(q) && p.Parent() in ds && q.Parent() in ds
    ensures CandidatesIn([p, q], ds)
  {
  }

  /** Searching one directory and then the other gives what the plain search
      gives. */
  ghost predicate PairInvisible(fs: FileSystem, d: Path, e: Path) {
    Update(fs, Update(fs, FRESH, DriverIn(d)), DriverIn(e)).found
      == Consider(fs, Consider(fs, None, DriverIn(d)), DriverIn(e))
  }

  lemma PairRuns(fs: FileSystem, ds: set<Path>, d: Path, e: Path)
    requires CachesInvisible(fs, ds) && Plain(d) && Plain(e) && d in ds && e in ds
    ensures PairInvisible(fs, d, e)
  {
    PairIn(d, e, ds);
    InvisibleOn(fs, ds, [DriverIn(d), DriverIn(e)]);
    RunTwo(fs, DriverIn(d), DriverIn(e));
  }

  lemma RunTwo(fs: FileSystem, p: Path, q: Path)
    ensures Run(fs, FRESH, [p, q]) == Update(fs, Update(fs, FRESH, p), q)
    ensures PlainRun(fs, None, [p, q]) == Consider(fs, Consider(fs, None, p), q)
  {
    assert [p, q] == [p] + [q];
    RunConcat(fs, FRESH, [p], [q]);
    PlainRunSnoc(fs, None, [p], q);
    PlainRunSnoc(fs, None, [], p);
    assert [] + [p] == [p] && [p][1..] == [] && [q][1..] == [];
  }

  /** A second directory with the first one's inode number is skipped. */
  lemma SkippedDirectory(fs: FileSystem, d: Path, e: Path)
    requires PairInvisible(fs, d, e) && Plain(d) && Plain(e) && SameDirectory(fs, d, e)
    ensures Consider(fs, Consider(fs, None, DriverIn(d)), DriverIn(e)) == Consider(fs, None, DriverIn(d))
  {
    DriverInIsCandidate(d);
    DriverInIsCandidate(e);
    FirstUpdate(fs, d);
  }

  lemma FirstUpdate(fs: FileSystem, d: Path)
    requires Plain(d)
    ensures var s := Update(fs, FRESH, DriverIn(d));
      && s.found == Consider(fs, None, DriverIn(d))
      && s.dirPaths == {d}
      && s.dirInodes == (if DirInode(fs, d).Some? then {DirInode(fs, d).value} else {})
      && s.versions == (if Reached(fs, d)
                        then map[FileInode(fs, DriverIn(d)).value := Recorded(fs, DriverIn(d))] else map[])
  {
    DriverInIsCandidate(d);
  }

  lemma VerdictsAgree(fs: FileSystem, d: Path, e: Path)
    requires PairInvisible(fs, d, e) && PairInvisible(fs, e, d)
    requires Plain(d) && Plain(e) && SameDirectory(fs, d, e)
    ensures Verdict(fs, DriverIn(d)) == Verdict(fs, DriverIn(e))
  {
    SkippedDirectory(fs, d, e);
    SkippedDirectory(fs, e, d);
  }

  /** A second file with the first one's inode number is weighed at the first
      one's version. */
  lemma CachedSecond(fs: FileSystem, d: Path, e: Path)
    requires PairInvisible(fs, d, e)
    requires Plain(d) && Plain(e) && Shadows(fs, d, e)
    ensures Consider(fs, Consider(fs, None, DriverIn(d)), DriverIn(e))
      == Weigh(Consider(fs, None, DriverIn(d)), Answer(fs, d), e)
  {
    FirstUpdate(fs, d);
    SecondUpdate(fs, d, e, Update(fs, FRESH, DriverIn(d)));
  }

  function Weigh(found: Option<Driver>, answer: Option<int>, dir: Path): Option<Driver> {
    if answer.Some? then Better(found, answer.value, dir) else found
  }

  lemma SecondUpdate(fs: FileSystem, d: Path, e: Path, s: State)
    requires Plain(d) && Plain(e) && Shadows(fs, d, e)
    requires s.dirPaths == {d} && s.dirInodes == {DirInode(fs, d).value}
    requires s.versions == map[FileInode(fs, DriverIn(d)).value := Recorded(fs, DriverIn(d))]
    ensures Update(fs, s, DriverIn(e)).found == Weigh(s.found, Answer(fs, d), e)
  {
    DriverInIsCandidate(e);
    assert e != d;
    assert Unvisited(fs, s, DriverIn(e));
  }

  /** The plain search weighs a directory at its own answer. */
  lemma ConsiderWeighs(fs: FileSystem, found: Option<Driver>, d: Path)
    requires Plain(d) && Reached(fs, d)
    ensures Companions(fs, d) ==> Consider(fs, found, DriverIn(d)) == Weigh(found, Answer(fs, d), d)
    ensures !Companions(fs, d) ==> Consider(fs, found, DriverIn(d)) == found
  {
    DriverInIsCandidate(d);
  }

  /** The first directory's verdict, when its companions may be missing. */
  function FirstWeighed(answer: Option<int>, complete: bool, d: Path): Option<Driver> {
    if complete then Weigh(None, answer, d) else None
  }

  /** The second directory weighs the same at its own answer and at the first's. */
  lemma WeighedPair(fs: FileSystem, d: Path, e: Path)
    requires PairInvisible(fs, d, e)
    requires Plain(d) && Plain(e) && Shadows(fs, d, e)
    ensures var first := FirstWeighed(Answer(fs, d), Companions(fs, d), d);
      Weigh(first, Answer(fs, e), e) == Weigh(first, Answer(fs, d), e)
  {
    CachedSecond(fs, d, e);
    ConsiderWeighs(fs, None, d);
    ConsiderWeighs(fs, Consider(fs, None, DriverIn(d)), e);
  }

  /** Two answers that weigh the same in both orders are the same. */
  lemma WeighsAgree(x: Option<int>, y: Option<int>, d: Path, e: Path, complete: bool)
    requires d != e
    requires var first := FirstWeighed(x, complete, d); Weigh(first, y, e) == Weigh(first, x, e)
    requires complete ==> var first := Weigh(None, y, e); Weigh(first, x, d) == Weigh(first, y, d)
    ensures x == y
  {
  }

  lemma AnswersAgree(fs: FileSystem, d: Path, e: Path)
    requires PairInvisible(fs, d, e) && PairInvisible(fs, e, d)
    requires Plain(d) && Plain(e) && Shadows(fs, d, e)
    ensures Answer(fs, d) == Answer(fs, e)
  {
    WeighedPair(fs, d, e);
    if Companions(fs, d) {
      WeighedPair(fs, e, d);
    }
    WeighsAgree(Answer(fs, d), Answer(fs, e), d, e, Companions(fs, d));
  }

  lemma InvisibleIfFaithful(fs: FileSystem, ds: set<Path>)
    requires InodesFaithful(fs, ds)
    ensures CachesInvisible(fs, ds)
  {
    forall cands | CandidatesIn(cands, ds)
      ensures SameWithoutCaches(fs, cands)
    {
      FreshTracks(fs);
      RunIsPlainRun(fs, ds, FRESH, cands);
    }
  }

  lemma FaithfulIfInvisible(fs: FileSystem, ds: set<Path>)
    requires CachesInvisible(fs, ds)
    ensures InodesFaithful(fs, ds)
  {
    forall d, e | d in ds && e in ds && Plain(d) && Plain(e)
      ensures PairInvisible(fs, d, e)
    {
      PairRuns(fs, ds, d, e);
    }
    PairsFaithful(fs, ds);
  }

  lemma PairsFaithful(fs: FileSystem, ds: set<Path>)
    requires forall d, e :: d in ds && e in ds && Plain(d) && Plain(e) ==> PairInvisible(fs, d, e)
    ensures InodesFaithful(fs, ds)
  {
    forall d, e | d in ds && e in ds && Plain(d) && Plain(e) && SameDirectory(fs, d, e)
      ensures Verdict(fs, DriverIn(d)) == Verdict(fs, DriverIn(e))
    {
      VerdictsAgree(fs, d, e);
    }
    forall d, e | d in ds && e in ds && Plain(d) && Plain(e) && Shadows(fs, d, e)
      ensures Answer(fs, d) == Answer(fs, e)
    {
      AnswersAgree(fs, d, e);
    }
  }

  /** The caches never change what a search of some directories finds exactly
      when inode numbers tell the drivers in those directories apart. */
  lemma CachesInvisibleExactly(fs: FileSystem, ds: set<Path>)
    ensures CachesInvisible(fs, ds) <==> InodesFaithful(fs, ds)
  {
    if InodesFaithful(fs, ds) {
      InvisibleIfFaithful(fs, ds);
    }
    if CachesInvisible(fs, ds) {
      FaithfulIfInvisible(fs, ds);
    }
  }
}
