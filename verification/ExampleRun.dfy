/** One machine with one driver, on which the whole program is followed: the
    assumptions of the program's laws can be met together. */
module ExampleRun {
  import opened Wrappers
  import opened Memory
  import opened Tokenizer
  import opened PathUtils
  import opened Paths
  import opened FileSystems
  import opened Sonames
  import opened Search
  import opened SearchProofs
  import opened SearchLaws
  import opened Eligibility
  import opened Args
  import opened ArgsLaws
  import opened EndToEnd

  const DIR: Path := Path(true, ["d"])

  /** /d is a directory with a complete driver, and nothing else is there. */
  function OneDriver(): FileSystem {
    FileSystem(
      (p: Path) => if p == DIR then Some(Stat(1, Directory))
           else if InDir(p) then Some(Stat(2, Regular))
           else None,
      (p: Path) => Some(Library(false, true, true, true, Some(12040))),
      (p: Path) => p)
  }

  predicate InDir(p: Path) {
    p.rooted && |p.comps| == 2 && p.comps[0] == "d" && IsDriverFile(p.comps[1])
  }

  /** The command line is "-p /d". */
  function OneOption(): GetOpt {
    (argv: seq<string>) => Parsed([SearchPath("/d")], argv, |argv|)
  }

  lemma FileInDir(name: string)
    requires IsDriverFile(name)
    ensures InDir(DIR.Append(name)) && DIR.Append(name).Parent() == DIR
  {
    AppendParent(DIR, name);
    assert DIR.Append(name).comps == ["d", name];
  }

  lemma DriverIsComplete()
    ensures CompleteDriver(OneDriver(), DIR, 12040)
  {
    FileInDir("libcuda.so.1");
    FileInDir("libnvidia-nvvm.so.4");
    FileInDir("libnvidia-ptxjitcompiler.so.1");
    FileInDir("libcudadebugger.so.1");
  }

  lemma DirIsNamed()
    ensures NamesPath([SearchPath("/d")], DIR)
  {
    var o, src := SearchPath("/d"), "/d";
    assert Join([src], ':') == src;
    SplitUnique([src], ':');
    assert src in Split(o.arg, ':');
    PrintedPathIsRead(DIR);
    assert DIR.Native() == "/" + "d";
    assert Gives(o, true, src) && StandsFor(src, true, DIR);
    assert o in [SearchPath("/d")];
  }

  lemma OnlyOneDirectory(ds: set<Path>)
    ensures InodesFaithful(OneDriver(), ds)
  {
    forall d, e | SameDirectory(OneDriver(), d, e)
      ensures d == DIR && e == DIR
    {
    }
  }

  lemma NativeInDir(p: Path)
    requires InDir(p)
    ensures |p.Native()| < 4096
  {
    assert p.comps == ["d", p.comps[1]];
    JoinPair("d", p.comps[1], '/');
  }

  lemma ShortPaths()
    ensures PathsBounded(OneDriver(), 4096)
  {
    forall p: Path | |p.Native()| >= 4096
      ensures OneDriver().stat(p).None?
    {
      assert DIR.Native() == "/" + "d";
      if InDir(p) {
        NativeInDir(p);
      }
    }
  }

  lemma ExampleSearches()
    ensures Searches(OneDriver(), OneOption(), ["search"], [], 0, None, None, 4096)
  {
    var opts := OptionsRead(OneOption(), ["search"], [], 0);
    assert opts == [SearchPath("/d")];
    assert opts[0] in opts;
    ShortPaths();
    OnlyOneDirectory(SearchedDirs(OneDriver(), LibsOf(OneDriver(), opts), None, PathsFrom(OneDriver(), opts, None)));
  }

  lemma ExampleOffers()
    ensures Offered(OneDriver(), [SearchPath("/d")], None, None, DIR.Append("libcuda.so.1"))
  {
    DirIsNamed();
    FileInDir("libcuda.so.1");
    assert PathHolds(OneDriver(), DIR, DIR.Append("libcuda.so.1"));
    assert SearchesDir(OneDriver(), [SearchPath("/d")], None, DIR);
  }

  lemma OnlyDriver(d: Path, v: int)
    requires CompleteDriver(OneDriver(), d, v)
    ensures d == DIR && v == 12040
  {
  }

  lemma NothingLoaded()
    ensures forall lib, w :: !LoadedDriver(OneDriver(), [SearchPath("/d")], lib, w)
  {
  }

  lemma ExampleOptions()
    ensures OptionsRead(OneOption(), ["search"], [], 0) == [SearchPath("/d")]
  {
  }

  lemma ExampleFindsSome()
    ensures ProgramFinds(OneDriver(), OneOption(), ["search"], [], None, None).Some?
  {
    ExampleSearches();
    ExampleOptions();
    ExampleOffers();
    NothingLoaded();
    DriverIsComplete();
    FileInDir("libcuda.so.1");
    ProgramFindsBest(OneDriver(), OneOption(), ["search"], [], 0, None, None, 4096,
                     DIR.Append("libcuda.so.1"), 12040);
  }

  lemma ExampleFindsComplete()
    ensures var found := ProgramFinds(OneDriver(), OneOption(), ["search"], [], None, None);
      found.Some? && CompleteDriver(OneDriver(), found.value.dir, found.value.version)
  {
    ExampleFindsSome();
    ExampleSearches();
    ExampleOptions();
    NothingLoaded();
    var c := ProgramFindsOffered(OneDriver(), OneOption(), ["search"], [], 0, None, None, 4096);
  }

  lemma OnlyResult(found: Option<Driver>)
    requires found.Some? && CompleteDriver(OneDriver(), found.value.dir, found.value.version)
    ensures found == Some(Driver(12040, DIR))
  {
    OnlyDriver(found.value.dir, found.value.version);
  }

  /** The program finds the driver, and prints "/d". */
  lemma ExampleFinds()
    ensures ProgramFinds(OneDriver(), OneOption(), ["search"], [], None, None) == Some(Driver(12040, DIR))
    ensures DIR.Native() == "/d"
  {
    ExampleFindsComplete();
    OnlyResult(ProgramFinds(OneDriver(), OneOption(), ["search"], [], None, None));
  }
}
