/** When parsing the arguments succeeds, and what it yields, told without
    following the parser: by the command line and the lines read. */
module ArgsLaws {
  import opened Wrappers
  import opened Memory
  import opened Tokenizer
  import opened Paths
  import opened FileSystems
  import opened Args

  /** All options are -p or -l. */
  ghost predicate OnlyLists(opts: seq<Opt>) {
    forall i :: 0 <= i < |opts| ==> opts[i].SearchPath? || opts[i].Libs?
  }

  ghost predicate OnlyDashes(args: seq<string>) {
    forall i :: 0 <= i < |args| ==> args[i] == "-"
  }

  /** A command line that is accepted, up to the lines it asks for. */
  ghost predicate Accepts(p: Parsed) {
    OnlyLists(p.opts) && forall i :: p.optind <= i < |p.argv| ==> p.argv[i] == "-"
  }

  /** How many lines a command line asks for. */
  function Dashes(p: Parsed): int {
    if p.optind < |p.argv| then |p.argv| - p.optind else 0
  }

  /** The command line that a line read makes. */
  function LineOf(getopt: GetOpt, exe: string, line: seq<string>): Parsed {
    getopt([exe] + line)
  }

  /** How many lines are still asked for after n of them, when start were asked
      for before the first. */
  function Pending(getopt: GetOpt, exe: string, start: int, lines: seq<seq<string>>, n: nat): int
    requires n <= |lines|
    decreases n
  {
    if n == 0 then start
    else Pending(getopt, exe, start, lines, n - 1) - 1 + Dashes(LineOf(getopt, exe, lines[n - 1]))
  }

  ghost predicate GoodLine(getopt: GetOpt, exe: string, line: seq<string>) {
    line != [] && Accepts(LineOf(getopt, exe, line))
  }

  /** Exactly n lines are asked for, one after the other, and all are accepted. */
  ghost predicate Reads(getopt: GetOpt, exe: string, start: int, lines: seq<seq<string>>, n: nat) {
    && n <= |lines| && Pending(getopt, exe, start, lines, n) == 0
    && (forall i :: 0 <= i < n ==> GoodLine(getopt, exe, lines[i]))
    && (forall i :: 0 <= i < n ==> Pending(getopt, exe, start, lines, i) > 0)
  }

  /** The options of the first n lines, in order. */
  function OptsOf(getopt: GetOpt, exe: string, lines: seq<seq<string>>, n: nat): seq<Opt>
    requires n <= |lines|
    decreases n
  {
    if n == 0 then []
    else OptsOf(getopt, exe, lines, n - 1) + LineOf(getopt, exe, lines[n - 1]).opts
  }

  /** The loop over options goes to the end exactly when all are -p or -l. */
  lemma {:induction false} LeadingExactly(opts: seq<Opt>)
    ensures |Leading(opts)| == |opts| <==> OnlyLists(opts)
    decreases |opts|
  {
    if opts != [] {
      LeadingExactly(opts[1..]);
      LeadingShorter(opts[1..]);
      assert opts == [opts[0]] + opts[1..];
    }
  }

  lemma AcceptsExactly(p: Parsed)
    ensures Accepts(p) <==> |Leading(p.opts)| == |p.opts| && OnlyDashes(Positionals(p))
    ensures |Positionals(p)| == Dashes(p)
  {
    LeadingExactly(p.opts);
    if p.optind < |p.argv| {
      assert forall i :: p.optind <= i < |p.argv| ==> p.argv[i] == Positionals(p)[i - p.optind];
    }
  }

  lemma {:induction false} PendingShift(getopt: GetOpt, exe: string, start: int, lines: seq<seq<string>>, n: nat)
    requires n < |lines|
    ensures Pending(getopt, exe, start, lines, n + 1)
      == Pending(getopt, exe, start - 1 + Dashes(LineOf(getopt, exe, lines[0])), lines[1..], n)
    decreases n
  {
    if n > 0 {
      PendingShift(getopt, exe, start, lines, n - 1);
      assert lines[1..][n - 1] == lines[n];
    }
  }

  lemma {:induction false} OptsShift(getopt: GetOpt, exe: string, lines: seq<seq<string>>, n: nat)
    requires n < |lines|
    ensures OptsOf(getopt, exe, lines, n + 1)
      == LineOf(getopt, exe, lines[0]).opts + OptsOf(getopt, exe, lines[1..], n)
    decreases n
  {
    if n == 0 {
      OneLine(getopt, exe, lines);
    } else {
      OptsShift(getopt, exe, lines, n - 1);
      assert lines[1..][n - 1] == lines[n];
      Regrouped(LineOf(getopt, exe, lines[0]).opts, OptsOf(getopt, exe, lines[1..], n - 1),
                LineOf(getopt, exe, lines[n]).opts);
    }
  }

  lemma OneLine(getopt: GetOpt, exe: string, lines: seq<seq<string>>)
    requires lines != []
    ensures OptsOf(getopt, exe, lines, 1) == LineOf(getopt, exe, lines[0]).opts
    ensures LineOf(getopt, exe, lines[0]).opts + OptsOf(getopt, exe, lines[1..], 0)
      == LineOf(getopt, exe, lines[0]).opts
  {
    var opts := LineOf(getopt, exe, lines[0]).opts;
    assert OptsOf(getopt, exe, lines, 1) == OptsOf(getopt, exe, lines, 0) + opts;
    assert [] + opts == opts;
  }

  lemma Regrouped(a: seq<Opt>, b: seq<Opt>, c: seq<Opt>)
    ensures (a + b) + c == a + (b + c)
  {
  }

  lemma ReadsFirst(getopt: GetOpt, exe: string, start: int, lines: seq<seq<string>>, n: nat)
    requires n > 0 && Reads(getopt, exe, start, lines, n)
    ensures start > 0 && lines != [] && GoodLine(getopt, exe, lines[0])
    ensures Reads(getopt, exe, start - 1 + Dashes(LineOf(getopt, exe, lines[0])), lines[1..], n - 1)
  {
    var start' := start - 1 + Dashes(LineOf(getopt, exe, lines[0]));
    PendingShift(getopt, exe, start, lines, n - 1);
    assert Pending(getopt, exe, start, lines, 0) == start;
    forall i | 0 <= i < n - 1
      ensures GoodLine(getopt, exe, lines[1..][i]) && Pending(getopt, exe, start', lines[1..], i) > 0
    {
      PendingShift(getopt, exe, start, lines, i);
      assert lines[1..][i] == lines[i + 1];
    }
  }

  lemma ReadsBefore(getopt: GetOpt, exe: string, start: int, lines: seq<seq<string>>, n: nat)
    requires start > 0 && lines != [] && GoodLine(getopt, exe, lines[0])
    requires Reads(getopt, exe, start - 1 + Dashes(LineOf(getopt, exe, lines[0])), lines[1..], n)
    ensures Reads(getopt, exe, start, lines, n + 1)
  {
    PendingShift(getopt, exe, start, lines, n);
    forall i | 0 <= i < n + 1
      ensures GoodLine(getopt, exe, lines[i]) && Pending(getopt, exe, start, lines, i) > 0
    {
      if i > 0 {
        PendingShift(getopt, exe, start, lines, i - 1);
        assert lines[1..][i - 1] == lines[i];
      }
    }
  }

  /** Reading n lines as asked is what the flattened recursion does. */
  lemma {:induction false} FlatReads(getopt: GetOpt, exe: string, waiting: seq<string>,
                                     lines: seq<seq<string>>, n: nat)
    requires OnlyDashes(waiting) && Reads(getopt, exe, |waiting|, lines, n)
    ensures Flat(getopt, exe, waiting, lines) == Outcome(true, OptsOf(getopt, exe, lines, n), lines[n..])
    decreases n
  {
    if n == 0 {
      assert waiting == [];
    } else {
      ReadsFirst(getopt, exe, |waiting|, lines, n);
      var p := LineOf(getopt, exe, lines[0]);
      AcceptsExactly(p);
      FlatReads(getopt, exe, Positionals(p) + waiting[1..], lines[1..], n - 1);
      OptsShift(getopt, exe, lines, n - 1);
      assert lines[1..][n - 1..] == lines[n..];
      LeadingAll(p.opts);
      FlatStep(getopt, exe, waiting, lines);
    }
  }

  /** One line of the flattened recursion. */
  lemma FlatStep(getopt: GetOpt, exe: string, waiting: seq<string>, lines: seq<seq<string>>)
    requires waiting != [] && waiting[0] == "-" && lines != [] && lines[0] != []
    ensures var p := LineOf(getopt, exe, lines[0]);
      var rest := Flat(getopt, exe, Positionals(p) + waiting[1..], lines[1..]);
      && (|Leading(p.opts)| == |p.opts| ==>
        Flat(getopt, exe, waiting, lines) == Outcome(rest.ok, Leading(p.opts) + rest.opts, rest.lines))
      && (|Leading(p.opts)| < |p.opts| ==> !Flat(getopt, exe, waiting, lines).ok)
  {
  }

  /** The flattened recursion succeeds only by reading lines as asked. */
  lemma {:induction false} FlatOk(getopt: GetOpt, exe: string, waiting: seq<string>, lines: seq<seq<string>>)
    returns (n: nat)
    requires Flat(getopt, exe, waiting, lines).ok
    ensures OnlyDashes(waiting) && Reads(getopt, exe, |waiting|, lines, n)
    decreases |lines|
  {
    if waiting == [] {
      n := 0;
    } else {
      var p := LineOf(getopt, exe, lines[0]);
      FlatStep(getopt, exe, waiting, lines);
      LeadingShorter(p.opts);
      var waiting' := Positionals(p) + waiting[1..];
      n := FlatOk(getopt, exe, waiting', lines[1..]);
      AllDashes(Positionals(p), waiting);
      AcceptsExactly(p);
      ReadsBefore(getopt, exe, |waiting|, lines, n);
      n := n + 1;
    }
  }

  lemma AllDashes(args: seq<string>, waiting: seq<string>)
    requires waiting != [] && waiting[0] == "-" && OnlyDashes(args + waiting[1..])
    ensures OnlyDashes(args) && OnlyDashes(waiting)
  {
    var all := args + waiting[1..];
    assert forall i :: 0 <= i < |args| ==> args[i] == all[i];
    assert forall i :: 1 <= i < |waiting| ==> waiting[i] == all[|args| + i - 1];
  }

  /** Parsing succeeds exactly when the command line and every line it asks for,
      directly or through other lines, hold nothing but -p, -l and "-", and no
      line asked for is missing or empty. */
  lemma ParsesExactly(getopt: GetOpt, argv: seq<string>, lines: seq<seq<string>>)
    requires argv != []
    ensures Expand(getopt, argv, lines).ok
      <==> Accepts(getopt(argv))
           && exists n :: Reads(getopt, argv[0], Dashes(getopt(argv)), lines, n)
  {
    var p := getopt(argv);
    AcceptsExactly(p);
    LeadingShorter(p.opts);
    if |Leading(p.opts)| == |p.opts| {
      ExpandIsFlat(getopt, argv, lines);
      if Expand(getopt, argv, lines).ok {
        var n := FlatOk(getopt, argv[0], Positionals(p), lines);
      } else if Accepts(p) {
        forall n | Reads(getopt, argv[0], Dashes(p), lines, n)
          ensures false
        {
          FlatReads(getopt, argv[0], Positionals(p), lines, n);
        }
      }
    }
  }

  /** What a successful parsing acts on, and the lines it leaves. */
  lemma ParsedOptions(getopt: GetOpt, argv: seq<string>, lines: seq<seq<string>>, n: nat)
    requires argv != [] && Accepts(getopt(argv))
    requires Reads(getopt, argv[0], Dashes(getopt(argv)), lines, n)
    ensures Expand(getopt, argv, lines)
      == Outcome(true, getopt(argv).opts + OptsOf(getopt, argv[0], lines, n), lines[n..])
  {
    var p := getopt(argv);
    AcceptsExactly(p);
    ExpandIsFlat(getopt, argv, lines);
    FlatReads(getopt, argv[0], Positionals(p), lines, n);
  }

  /** One of these options ends the program. */
  lemma EndingOptionFails(getopt: GetOpt, argv: seq<string>, lines: seq<seq<string>>, o: Opt)
    requires argv != [] && o in getopt(argv).opts
    requires o == Help || o == Unrecognized || o == MissingArgument || o == OtherError
    ensures !Expand(getopt, argv, lines).ok
  {
    ParsesExactly(getopt, argv, lines);
  }

  /** A piece of an argument stands for p: an empty one for "." in a path list,
      and for nothing in a library list. */
  ghost predicate StandsFor(src: string, dirMode: bool, p: Path) {
    (src != "" && p == ParsePath(src)) || (src == "" && dirMode && p == ParsePath("."))
  }

  lemma DotIsRead()
    ensures ParsePath(".") == Path(false, ["."])
  {
    var pieces: seq<string> := ["."];
    assert Join(pieces, '/') == ".";
    SplitUnique(pieces, '/');
    NonEmptyAll(pieces);
  }

  lemma PieceExactly(src: string, dirMode: bool, p: Path)
    ensures PieceOf(src, dirMode) == Some(p) <==> StandsFor(src, dirMode, p)
  {
    DotIsRead();
  }

  lemma {:induction false} PathsOfHas(srcs: seq<string>, dirMode: bool, p: Path)
    ensures p in PathsOf(srcs, dirMode) <==> exists src :: src in srcs && StandsFor(src, dirMode, p)
    decreases |srcs|
  {
    if srcs != [] {
      var front, last := srcs[..|srcs| - 1], srcs[|srcs| - 1];
      assert srcs == front + [last];
      PathsOfHas(front, dirMode, p);
      PieceExactly(last, dirMode, p);
    }
  }

  /** Pieces stand for paths in their order. */
  lemma {:induction false} PathsOfConcat(a: seq<string>, b: seq<string>, dirMode: bool)
    ensures PathsOf(a + b, dirMode) == PathsOf(a, dirMode) + PathsOf(b, dirMode)
    decreases |b|
  {
    if b == [] {
      assert a + b == a;
    } else {
      var front, last := b[..|b| - 1], b[|b| - 1];
      assert (a + b)[..|a + b| - 1] == a + front;
      PathsOfConcat(a, front, dirMode);
    }
  }

  /** An option's argument has the piece src: not an empty argument, which has
      none. */
  ghost predicate Gives(o: Opt, dirMode: bool, src: string) {
    && (if dirMode then o.SearchPath? else o.Libs?)
    && o.arg != "" && src in Split(o.arg, ':')
  }

  lemma OptPiecesExactly(o: Opt, dirMode: bool, src: string)
    ensures src in OptPieces(o, dirMode) <==> Gives(o, dirMode, src)
  {
  }

  lemma {:induction false} PiecesForHas(opts: seq<Opt>, dirMode: bool, src: string)
    ensures src in PiecesFor(opts, dirMode) <==> exists o :: o in opts && Gives(o, dirMode, src)
    decreases |opts|
  {
    if opts != [] {
      PiecesForHas(opts[1..], dirMode, src);
      OptPiecesExactly(opts[0], dirMode, src);
      assert opts == [opts[0]] + opts[1..];
    }
  }

  /** A library is named by an -l option. */
  ghost predicate NamesLib(opts: seq<Opt>, p: Path) {
    exists o, src :: o in opts && Gives(o, false, src) && StandsFor(src, false, p)
  }

  /** A directory is named by a -p option. */
  ghost predicate NamesPath(opts: seq<Opt>, p: Path) {
    exists o, src :: o in opts && Gives(o, true, src) && StandsFor(src, true, p)
  }

  /** The dynamic linker's directories are used: no -p option is there. */
  ghost predicate UsesDefaults(opts: seq<Opt>, defaults: Option<seq<string>>) {
    defaults.Some? && forall o :: o in opts ==> !o.SearchPath?
  }

  lemma AcceptedHas(fs: FileSystem, srcs: seq<string>, dirMode: bool, p: Path)
    ensures p in Accepted(fs, srcs, dirMode) <==>
      && (exists src :: src in srcs && StandsFor(src, dirMode, p))
      && fs.stat(p).Some? && fs.stat(p).value.kind == if dirMode then Directory else Regular
  {
    AcceptedExactly(fs, srcs, dirMode);
    PathsOfHas(srcs, dirMode, p);
  }

  /** The library list holds exactly the regular files named by -l options. */
  lemma LibsOfExactly(fs: FileSystem, opts: seq<Opt>, p: Path)
    ensures p in LibsOf(fs, opts)
      <==> NamesLib(opts, p) && fs.stat(p).Some? && fs.stat(p).value.kind == Regular
  {
    AcceptedHas(fs, PiecesFor(opts, false), false, p);
    forall src
      ensures src in PiecesFor(opts, false) <==> exists o :: o in opts && Gives(o, false, src)
    {
      PiecesForHas(opts, false, src);
    }
  }

  /** The search path holds exactly the directories named by -p options, or the
      linker's when there is no such option. */
  lemma PathsFromExactly(fs: FileSystem, opts: seq<Opt>, defaults: Option<seq<string>>, p: Path)
    ensures !UsesDefaults(opts, defaults) ==>
      (p in PathsFrom(fs, opts, defaults)
       <==> NamesPath(opts, p) && fs.stat(p).Some? && fs.stat(p).value.kind == Directory)
    ensures UsesDefaults(opts, defaults) ==>
      (p in PathsFrom(fs, opts, defaults)
       <==> (exists src :: src in defaults.value && StandsFor(src, true, p))
            && fs.stat(p).Some? && fs.stat(p).value.kind == Directory)
  {
    AcceptedHas(fs, PathPieces(opts, defaults), true, p);
    SearchPathGiven(opts);
    forall src
      ensures src in PiecesFor(opts, true) <==> exists o :: o in opts && Gives(o, true, src)
    {
      PiecesForHas(opts, true, src);
    }
  }

  lemma SearchPathGiven(opts: seq<Opt>)
    ensures HasSearchPath(opts) <==> exists o :: o in opts && o.SearchPath?
  {
    if HasSearchPath(opts) {
      var i :| 0 <= i < |opts| && opts[i].SearchPath?;
      assert opts[i] in opts;
    }
  }
}
