/** Collecting the search paths and libraries from the command line and from
    lines on standard input (src/search/parse_args.cxx). */
module Args {
  import opened Wrappers
  import opened Memory
  import opened Tokenizer
  import opened Paths
  import opened FileSystems

  /** The path a piece of an argument stands for: an empty one is the current
      directory in a path list, and nothing in a library list. */
  function PieceOf(src: string, dirMode: bool): Option<Path> {
    if src == [] then if dirMode then Some(Path(false, ["."])) else None else Some(ParsePath(src))
  }

  /** The paths of the pieces, in order, repetitions included. */
  function PathsOf(srcs: seq<string>, dirMode: bool): seq<Path>
    decreases |srcs|
  {
    if srcs == [] then []
    else
      var front := PathsOf(srcs[..|srcs| - 1], dirMode);
      match PieceOf(srcs[|srcs| - 1], dirMode)
      case None => front
      case Some(p) => front + [p]
  }

  /** First occurrences only. */
  function Dedup(ps: seq<Path>): seq<Path>
    decreases |ps|
  {
    if ps == [] then []
    else
      var front := ps[..|ps| - 1];
      if ps[|ps| - 1] in front then Dedup(front) else Dedup(front) + [ps[|ps| - 1]]
  }

  /** The path exists and is of the kind the list is for. */
  predicate Admissible(fs: FileSystem, p: Path, dirMode: bool) {
    fs.stat(p).Some? && fs.stat(p).value.kind == if dirMode then Directory else Regular
  }

  function Filter(fs: FileSystem, ps: seq<Path>, dirMode: bool): seq<Path>
    decreases |ps|
  {
    if ps == [] then []
    else
      var front := Filter(fs, ps[..|ps| - 1], dirMode);
      if Admissible(fs, ps[|ps| - 1], dirMode) then front + [ps[|ps| - 1]] else front
  }

  /** What a list holds after these pieces. */
  function Accepted(fs: FileSystem, srcs: seq<string>, dirMode: bool): seq<Path> {
    Filter(fs, Dedup(PathsOf(srcs, dirMode)), dirMode)
  }

  /** The paths of the pieces, as a set. */
  ghost function Seen(srcs: seq<string>, dirMode: bool): set<Path> {
    set p | p in PathsOf(srcs, dirMode)
  }

  /** The pieces of an argument; an empty argument has none. */
  function Pieces(arg: string): seq<string> {
    if arg == [] then [] else Split(arg, ':')
  }

  lemma Snoc<T>(xs: seq<T>, x: T)
    ensures (xs + [x])[..|xs + [x]| - 1] == xs && (xs + [x])[|xs + [x]| - 1] == x
  {
  }

  /** One more piece. */
  lemma AcceptedSnoc(fs: FileSystem, srcs: seq<string>, src: string, dirMode: bool)
    ensures PieceOf(src, dirMode).None? ==>
      Seen(srcs + [src], dirMode) == Seen(srcs, dirMode)
      && Accepted(fs, srcs + [src], dirMode) == Accepted(fs, srcs, dirMode)
    ensures PieceOf(src, dirMode).Some? ==>
      var p := PieceOf(src, dirMode).value;
      && Seen(srcs + [src], dirMode) == Seen(srcs, dirMode) + {p}
      && (p !in Seen(srcs, dirMode) && Admissible(fs, p, dirMode) ==>
        Accepted(fs, srcs + [src], dirMode) == Accepted(fs, srcs, dirMode) + [p])
      && (p in Seen(srcs, dirMode) || !Admissible(fs, p, dirMode) ==>
        Accepted(fs, srcs + [src], dirMode) == Accepted(fs, srcs, dirMode))
  {
    Snoc(srcs, src);
    if PieceOf(src, dirMode).Some? {
      var p, ps := PieceOf(src, dirMode).value, PathsOf(srcs, dirMode);
      Snoc(ps, p);
      Snoc(Dedup(ps), p);
    }
  }

  /** A list of paths and its cache (the two reference parameters of add_path),
      with the trace of the pieces it was given. */
  class PathList {
    const dirMode: bool
    var out: seq<Path>
    var cache: set<Path>
    ghost var pieces: seq<string>

    ghost predicate Valid(fs: FileSystem)
      reads this
    {
      out == Accepted(fs, pieces, dirMode) && cache == Seen(pieces, dirMode)
    }

    constructor (fs: FileSystem, dirMode: bool)
      ensures Valid(fs) && pieces == [] && out == [] && this.dirMode == dirMode
    {
      this.dirMode := dirMode;
      out, cache, pieces := [], {}, [];
    }

    /** src/search/parse_args.cxx:137-172 */
    method AddPath(fs: FileSystem, src: string)
      requires Valid(fs)
      modifies this
      ensures Valid(fs) && pieces == old(pieces) + [src]
    {
      AcceptedSnoc(fs, pieces, src, dirMode);
      pieces := pieces + [src];
      var srcPath;
      if src == [] {
        if !dirMode {
          return;
        }
        srcPath := Path(false, ["."]);
      } else {
        srcPath := ParsePath(src);
      }
      if srcPath in cache {
        return;
      }
      cache := cache + {srcPath};
      if fs.stat(srcPath).None? {
        return;
      }
      if dirMode && fs.stat(srcPath).value.kind != Directory {
        return;
      }
      if !dirMode && fs.stat(srcPath).value.kind != Regular {
        return;
      }
      out := out + [srcPath];
    }

    /** src/search/parse_args.cxx:174-190 */
    method ParsePaths(fs: FileSystem, src: string)
      requires Valid(fs)
      modifies this
      ensures Valid(fs) && pieces == old(pieces) + Pieces(src)
    {
      if src == [] {
        return;
      }
      ghost var start := pieces;
      var cur := AddBeforeColons(fs, src);
      var piece := if cur == 0 then src else src[cur..];
      GivenLast(pieces, src, cur, start, piece);
      AddPath(fs, piece);
    }

    /** The loop, which adds each piece that ends in a colon. */
    method AddBeforeColons(fs: FileSystem, src: string) returns (cur: nat)
      requires Valid(fs)
      modifies this
      ensures cur <= |src| && Find(src, ':', cur).None? && Valid(fs)
      ensures Given(pieces, src, cur) == Given(old(pieces), src, 0)
    {
      ghost var all := Given(pieces, src, 0);
      cur := 0;
      var next := Find(src, ':', cur);
      while next.Some?
        invariant cur <= |src| && next == Find(src, ':', cur) && Valid(fs)
        invariant Given(pieces, src, cur) == all
        decreases |src| - cur
      {
        cur, next := AddNext(fs, src, cur, next.value, all);
      }
    }

    /** One round: the piece before the colon at next. */
    method AddNext(fs: FileSystem, src: string, cur: nat, next: nat, ghost all: seq<string>)
      returns (cur': nat, next': Option<nat>)
      requires Valid(fs) && cur <= |src| && Find(src, ':', cur) == Some(next)
      requires Given(pieces, src, cur) == all
      modifies this
      ensures Valid(fs) && cur < cur' <= |src| && next' == Find(src, ':', cur')
      ensures Given(pieces, src, cur') == all
    {
      var piece := src[cur..next];
      cur' := next + 1;
      GivenNext(pieces, src, cur, next, piece);
      AddPiece(fs, piece, src, cur', all);
      next' := Find(src, ':', cur');
    }

    /** add_path for the piece before offset cur of src. */
    method AddPiece(fs: FileSystem, piece: string, ghost src: string, ghost cur: nat, ghost all: seq<string>)
      requires Valid(fs) && cur <= |src| && Given(pieces + [piece], src, cur) == all
      modifies this
      ensures Valid(fs) && Given(pieces, src, cur) == all
    {
      AddPath(fs, piece);
    }
  }

  /** std::string::find from an offset on; None is npos. */
  function Find(s: string, c: char, i: nat): (r: Option<nat>)
    requires i <= |s|
    ensures r.Some? ==> i <= r.value < |s| && s[r.value] == c
    ensures forall j :: i <= j < (if r.Some? then r.value else |s|) ==> s[j] != c
  {
    var k := IndexOf(s, c, i);
    if k < |s| then Some(k) else None
  }

  /** All pieces there will be, when those of src before cur have been added. */
  ghost function Given(pieces: seq<string>, src: string, cur: nat): seq<string>
    requires cur <= |src|
  {
    pieces + SplitFrom(src, ':', cur)
  }

  lemma GivenNext(pieces: seq<string>, src: string, cur: nat, next: nat, piece: string)
    requires cur <= |src| && Find(src, ':', cur) == Some(next) && piece == src[cur..next]
    ensures Given(pieces + [piece], src, next + 1) == Given(pieces, src, cur)
  {
  }

  lemma GivenLast(pieces: seq<string>, src: string, cur: nat, start: seq<string>, piece: string)
    requires cur <= |src| && Find(src, ':', cur).None? && src != [] && piece == src[cur..]
    requires Given(pieces, src, cur) == Given(start, src, 0)
    ensures pieces + [piece] == start + Pieces(src)
  {
    assert src[cur..|src|] == src[cur..];
    assert SplitFrom(src, ':', cur) == [piece];
  }

  /** What getopt_long reports, one after the other. */
  datatype Opt = SearchPath(arg: string) | Libs(arg: string) | Help | Unrecognized | MissingArgument | OtherError

  /** getopt_long over a whole argument vector: the options, the permuted
      vector, and where its positional arguments start. */
  datatype Parsed = Parsed(opts: seq<Opt>, argv: seq<string>, optind: nat)

  type GetOpt = seq<string> -> Parsed

  function Positionals(p: Parsed): seq<string> {
    if p.optind < |p.argv| then p.argv[p.optind..] else []
  }

  predicate Collects(o: Opt) {
    o.SearchPath? || o.Libs?
  }

  /** The options before the first one that ends the program. */
  function Leading(opts: seq<Opt>): seq<Opt>
    decreases |opts|
  {
    if opts == [] || !Collects(opts[0]) then [] else [opts[0]] + Leading(opts[1..])
  }

  /** The pieces an option adds to the path list, or to the library list. */
  function OptPieces(opt: Opt, dirMode: bool): seq<string> {
    match opt
    case SearchPath(arg) => if dirMode then Pieces(arg) else []
    case Libs(arg) => if dirMode then [] else Pieces(arg)
    case _ => []
  }

  /** The pieces all these options add. */
  function PiecesFor(opts: seq<Opt>, dirMode: bool): seq<string>
    decreases |opts|
  {
    if opts == [] then [] else OptPieces(opts[0], dirMode) + PiecesFor(opts[1..], dirMode)
  }

  predicate HasSearchPath(opts: seq<Opt>) {
    exists i :: 0 <= i < |opts| && opts[i].SearchPath?
  }

  /** Success, the options acted on in order, and the lines not read. */
  datatype Outcome = Outcome(ok: bool, opts: seq<Opt>, lines: seq<seq<string>>)

  /** All options of a command line, those of the lines read for its "-"
      arguments in their place. A line is given as its words. */
  function Expand(getopt: GetOpt, argv: seq<string>, lines: seq<seq<string>>): (r: Outcome)
    requires argv != []
    ensures |r.lines| <= |lines|
    decreases |lines|, 1, 0
  {
    var p := getopt(argv);
    var opts := Leading(p.opts);
    if |opts| < |p.opts| then Outcome(false, opts, lines)
    else
      var rest := ExpandRest(getopt, argv[0], Positionals(p), lines);
      Outcome(rest.ok, opts + rest.opts, rest.lines)
  }

  function ExpandRest(getopt: GetOpt, exe: string, args: seq<string>, lines: seq<seq<string>>): (r: Outcome)
    ensures |r.lines| <= |lines|
    decreases |lines|, 0, |args|
  {
    if args == [] then Outcome(true, [], lines)
    else if args[0] != "-" || lines == [] then Outcome(false, [], lines)
    else if lines[0] == [] then Outcome(false, [], lines[1..])
    else
      var first := Expand(getopt, [exe] + lines[0], lines[1..]);
      if !first.ok then first
      else
        var rest := ExpandRest(getopt, exe, args[1..], first.lines);
        Outcome(rest.ok, first.opts + rest.opts, rest.lines)
  }

  /** The same without recursion into lines: one list of arguments waiting, to
      whose front each line's own arguments are put. */
  function Flat(getopt: GetOpt, exe: string, waiting: seq<string>, lines: seq<seq<string>>): Outcome
    decreases |lines|
  {
    if waiting == [] then Outcome(true, [], lines)
    else if waiting[0] != "-" || lines == [] then Outcome(false, [], lines)
    else if lines[0] == [] then Outcome(false, [], lines[1..])
    else
      var p := getopt([exe] + lines[0]);
      var opts := Leading(p.opts);
      if |opts| < |p.opts| then Outcome(false, opts, lines[1..])
      else
        var rest := Flat(getopt, exe, Positionals(p) + waiting[1..], lines[1..]);
        Outcome(rest.ok, opts + rest.opts, rest.lines)
  }

  /** After these arguments, the ones after them. */
  function Then(first: Outcome, getopt: GetOpt, exe: string, after: seq<string>): Outcome {
    if !first.ok then first
    else
      var rest := Flat(getopt, exe, after, first.lines);
      Outcome(rest.ok, first.opts + rest.opts, rest.lines)
  }

  lemma {:induction false} RestIsFlat(getopt: GetOpt, exe: string, args: seq<string>, after: seq<string>,
                                      lines: seq<seq<string>>)
    ensures Flat(getopt, exe, args + after, lines)
      == Then(ExpandRest(getopt, exe, args, lines), getopt, exe, after)
    decreases |lines|, |args|
  {
    if args == [] {
      assert args + after == after;
    } else if args[0] == "-" && lines != [] && lines[0] != [] {
      var p := getopt([exe] + lines[0]);
      assert (args + after)[1..] == args[1..] + after;
      LeadingShorter(p.opts);
      var opts := Leading(p.opts);
      ExpandLine(getopt, exe, lines);
      if |opts| == |p.opts| {
        var waiting := args[1..] + after;
        RestIsFlat(getopt, exe, Positionals(p), waiting, lines[1..]);
        var inner := ExpandRest(getopt, exe, Positionals(p), lines[1..]);
        var flat := Flat(getopt, exe, Positionals(p) + waiting, lines[1..]);
        assert Flat(getopt, exe, args + after, lines) == Outcome(flat.ok, opts + flat.opts, flat.lines);
        if inner.ok {
          RestIsFlat(getopt, exe, args[1..], after, inner.lines);
          var r := ExpandRest(getopt, exe, args[1..], inner.lines);
          OptsAssoc(opts, inner.opts, r.opts, Flat(getopt, exe, after, r.lines).opts);
        }
      }
    }
  }

  lemma ExpandLine(getopt: GetOpt, exe: string, lines: seq<seq<string>>)
    requires lines != []
    ensures var p := getopt([exe] + lines[0]);
      |Leading(p.opts)| == |p.opts| ==>
        var inner := ExpandRest(getopt, exe, Positionals(p), lines[1..]);
        Expand(getopt, [exe] + lines[0], lines[1..])
          == Outcome(inner.ok, Leading(p.opts) + inner.opts, inner.lines)
    ensures var p := getopt([exe] + lines[0]);
      |Leading(p.opts)| < |p.opts| ==>
        Expand(getopt, [exe] + lines[0], lines[1..]) == Outcome(false, Leading(p.opts), lines[1..])
  {
    assert ([exe] + lines[0])[0] == exe;
  }

  lemma OptsAssoc(a: seq<Opt>, b: seq<Opt>, c: seq<Opt>, d: seq<Opt>)
    ensures a + (b + c) == (a + b) + c
    ensures a + (b + (c + d)) == ((a + b) + c) + d
  {
  }

  /** The recursion over lines is a flattening: the options are acted on in the
      order in which the lines, read one after the other, replace their "-". */
  lemma ExpandIsFlat(getopt: GetOpt, argv: seq<string>, lines: seq<seq<string>>)
    requires argv != [] && |Leading(getopt(argv).opts)| == |getopt(argv).opts|
    ensures var rest := Flat(getopt, argv[0], Positionals(getopt(argv)), lines);
      Expand(getopt, argv, lines) == Outcome(rest.ok, getopt(argv).opts + rest.opts, rest.lines)
  {
    var p := getopt(argv);
    LeadingAll(p.opts);
    RestIsFlat(getopt, argv[0], Positionals(p), [], lines);
    assert Positionals(p) + [] == Positionals(p);
  }

  lemma {:induction false} LeadingAll(opts: seq<Opt>)
    requires |Leading(opts)| == |opts|
    ensures Leading(opts) == opts
    decreases |opts|
  {
    if opts != [] {
      LeadingShorter(opts[1..]);
      LeadingAll(opts[1..]);
    }
  }

  lemma {:induction false} LeadingShorter(opts: seq<Opt>)
    ensures |Leading(opts)| <= |opts|
    decreases |opts|
  {
    if opts != [] {
      LeadingShorter(opts[1..]);
    }
  }

  lemma {:induction false} PiecesForConcat(a: seq<Opt>, b: seq<Opt>, dirMode: bool)
    ensures PiecesFor(a + b, dirMode) == PiecesFor(a, dirMode) + PiecesFor(b, dirMode)
    decreases |a|
  {
    if a == [] {
      assert a + b == b;
    } else {
      assert (a + b)[1..] == a[1..] + b;
      PiecesForConcat(a[1..], b, dirMode);
    }
  }

  /** Earlier options and the first i of these. */
  ghost function Followed(before: seq<Opt>, opts: seq<Opt>, i: nat): seq<Opt>
    requires i <= |opts|
  {
    before + opts[..i]
  }

  lemma FollowedStep(before: seq<Opt>, opts: seq<Opt>, i: nat)
    requires i < |opts|
    ensures Followed(before, opts, i) + [opts[i]] == Followed(before, opts, i + 1)
  {
    assert opts[..i + 1] == opts[..i] + [opts[i]];
    ActedAssoc(before, opts[..i], [opts[i]]);
  }

  lemma FollowedEnds(before: seq<Opt>, opts: seq<Opt>)
    ensures Followed(before, opts, 0) == before
    ensures Followed(before, opts, |opts|) == before + opts
  {
    assert opts[..|opts|] == opts;
    assert before + [] == before;
  }

  lemma {:induction false} LeadingPrefix(opts: seq<Opt>)
    ensures |Leading(opts)| <= |opts| && Leading(opts) == opts[..|Leading(opts)|]
    decreases |opts|
  {
    if opts != [] {
      LeadingPrefix(opts[1..]);
    }
  }

  lemma {:induction false} LeadingStep(opts: seq<Opt>, i: nat)
    requires i < |opts| && i <= |Leading(opts)|
    ensures Collects(opts[i]) ==> i < |Leading(opts)| && Leading(opts)[i] == opts[i]
    ensures !Collects(opts[i]) ==> i == |Leading(opts)|
    decreases i
  {
    if i > 0 {
      LeadingStep(opts[1..], i - 1);
    }
  }

  function Prefixed(opts: seq<Opt>, r: Outcome): Outcome {
    Outcome(r.ok, opts + r.opts, r.lines)
  }

  /** What remains to be expanded after some "-" arguments. */
  lemma NextLine(getopt: GetOpt, exe: string, args: seq<string>, lines: seq<seq<string>>, more: seq<Opt>)
    requires args != [] && args[0] == "-" && lines != [] && lines[0] != []
    ensures var first := Expand(getopt, [exe] + lines[0], lines[1..]);
      && (first.ok ==>
        Prefixed(more + first.opts, ExpandRest(getopt, exe, args[1..], first.lines))
          == Prefixed(more, ExpandRest(getopt, exe, args, lines)))
      && (!first.ok ==>
        Outcome(false, more + first.opts, first.lines) == Prefixed(more, ExpandRest(getopt, exe, args, lines)))
  {
    var first := Expand(getopt, [exe] + lines[0], lines[1..]);
    if first.ok {
      var rest := ExpandRest(getopt, exe, args[1..], first.lines);
      OptsAssoc(more, first.opts, rest.opts, []);
    }
  }

  /** The state parse_args_helper shares between its calls: the two lists,
      whether a search path was given, getopt's global optind, and the lines
      standard input still has. acted is the trace of the options acted on. */
  class Arguments {
    const paths: PathList
    const libs: PathList
    var searchPathSeen: bool
    var optind: nat
    var lines: seq<seq<string>>
    ghost var acted: seq<Opt>

    ghost predicate Valid(fs: FileSystem)
      reads this, paths, libs
    {
      && paths != libs && paths.dirMode && !libs.dirMode
      && paths.Valid(fs) && libs.Valid(fs)
      && paths.pieces == PiecesFor(acted, true)
      && libs.pieces == PiecesFor(acted, false)
      && searchPathSeen == HasSearchPath(acted)
    }

    constructor (fs: FileSystem, lines: seq<seq<string>>)
      ensures Valid(fs) && this.lines == lines && acted == []
      ensures fresh(paths) && fresh(libs)
    {
      paths := new PathList(fs, true);
      libs := new PathList(fs, false);
      searchPathSeen, optind := false, 1;
      this.lines := lines;
      acted := [];
    }

    /** src/search/parse_args.cxx:276-284 */
    method Act(fs: FileSystem, opt: Opt)
      requires Valid(fs) && Collects(opt)
      modifies this`searchPathSeen, this`acted, paths, libs
      ensures Valid(fs) && acted == old(acted) + [opt]
    {
      PiecesForSnoc(acted, opt, true);
      PiecesForSnoc(acted, opt, false);
      HasSearchPathSnoc(acted, opt);
      acted := acted + [opt];
      if opt.SearchPath? {
        searchPathSeen := true;
        paths.ParsePaths(fs, opt.arg);
      } else {
        libs.ParsePaths(fs, opt.arg);
      }
    }

    /** The getopt loop, src/search/parse_args.cxx:268-300. */
    method ActOnOptions(fs: FileSystem, parsed: Parsed) returns (ok: bool)
      requires Valid(fs)
      modifies this`searchPathSeen, this`acted, this`optind, paths, libs
      ensures Valid(fs) && acted == old(acted) + Leading(parsed.opts)
      ensures ok <==> |Leading(parsed.opts)| == |parsed.opts|
      ensures ok ==> optind == parsed.optind
    {
      optind := 1;
      ghost var before, lead := acted, Leading(parsed.opts);
      FollowedEnds(before, lead);
      LeadingShorter(parsed.opts);
      var i := 0;
      while i < |parsed.opts|
        invariant 0 <= i <= |lead| && Valid(fs)
        invariant acted == Followed(before, lead, i)
      {
        var opt := parsed.opts[i];
        LeadingStep(parsed.opts, i);
        if !Collects(opt) {
          return false;
        }
        FollowedStep(before, lead, i);
        Act(fs, opt);
        i := i + 1;
      }
      optind := parsed.optind;
      return true;
    }

    /** src/search/parse_args.cxx:256-328. The recursive call resets optind, but
        the positional arguments were fixed before it. */
    method ParseArgsHelper(fs: FileSystem, getopt: GetOpt, argv: seq<string>) returns (ok: bool)
      requires Valid(fs) && argv != []
      modifies this, paths, libs
      ensures Valid(fs)
      ensures var r := Expand(getopt, argv, old(lines));
        ok == r.ok && acted == old(acted) + r.opts && lines == r.lines
      decreases |lines|, 1
    {
      var parsed := getopt(argv);
      LeadingShorter(parsed.opts);
      ok := ActOnOptions(fs, parsed);
      if !ok {
        return false;
      }
      var rest := [];
      if optind < |parsed.argv| {
        rest := parsed.argv[optind..];
      }
      ok := ReadArguments(fs, getopt, argv[0], rest);
      OptsAssoc(old(acted), Leading(parsed.opts), ExpandRest(getopt, argv[0], rest, old(lines)).opts, []);
    }

    /** The loop over positional arguments, src/search/parse_args.cxx:302-326. */
    method ReadArguments(fs: FileSystem, getopt: GetOpt, exe: string, args: seq<string>) returns (ok: bool)
      requires Valid(fs)
      modifies this, paths, libs
      ensures Valid(fs)
      ensures var r := ExpandRest(getopt, exe, args, old(lines));
        ok == r.ok && acted == old(acted) + r.opts && lines == r.lines
      decreases |lines|, 0
    {
      ghost var more: seq<Opt> := [];
      ghost var whole := ExpandRest(getopt, exe, args, lines);
      assert Prefixed(more, whole) == whole;
      for k := 0 to |args|
        invariant Valid(fs) && acted == old(acted) + more && |lines| <= |old(lines)|
        invariant Prefixed(more, ExpandRest(getopt, exe, args[k..], lines)) == whole
      {
        assert args[k..][0] == args[k] && args[k..][1..] == args[k + 1..];
        if args[k] != "-" {
          assert more + [] == more;
          return false;
        }
        if lines == [] {
          assert more + [] == more;
          return false;
        }
        var newArgs := lines[0];
        NextLineOrNone(getopt, exe, args[k..], lines, more);
        lines := lines[1..];
        if newArgs == [] {
          return false;
        }
        ghost var first := Expand(getopt, [exe] + newArgs, lines);
        ok := ParseArgsHelper(fs, getopt, [exe] + newArgs);
        ActedAssoc(old(acted), more, first.opts);
        more := more + first.opts;
        if !ok {
          return false;
        }
      }
      assert more + [] == more;
      return true;
    }
  }

  lemma NextLineOrNone(getopt: GetOpt, exe: string, args: seq<string>, lines: seq<seq<string>>, more: seq<Opt>)
    requires args != [] && args[0] == "-" && lines != []
    ensures lines[0] == [] ==>
      Prefixed(more, ExpandRest(getopt, exe, args, lines)) == Outcome(false, more, lines[1..])
    ensures lines[0] != [] ==>
      var first := Expand(getopt, [exe] + lines[0], lines[1..]);
      && (first.ok ==>
        Prefixed(more + first.opts, ExpandRest(getopt, exe, args[1..], first.lines))
          == Prefixed(more, ExpandRest(getopt, exe, args, lines)))
      && (!first.ok ==>
        Outcome(false, more + first.opts, first.lines) == Prefixed(more, ExpandRest(getopt, exe, args, lines)))
  {
    if lines[0] != [] {
      NextLine(getopt, exe, args, lines, more);
    } else {
      assert more + [] == more;
    }
  }

  lemma ActedAssoc(a: seq<Opt>, b: seq<Opt>, c: seq<Opt>)
    ensures (a + b) + c == a + (b + c)
  {
  }

  lemma PiecesForSnoc(opts: seq<Opt>, opt: Opt, dirMode: bool)
    ensures PiecesFor(opts + [opt], dirMode) == PiecesFor(opts, dirMode) + OptPieces(opt, dirMode)
  {
    PiecesForConcat(opts, [opt], dirMode);
    assert [opt][1..] == [];
    assert PiecesFor([opt], dirMode) == OptPieces(opt, dirMode) + PiecesFor([], dirMode);
  }

  lemma HasSearchPathSnoc(opts: seq<Opt>, opt: Opt)
    ensures HasSearchPath(opts + [opt]) <==> HasSearchPath(opts) || opt.SearchPath?
  {
    var all := opts + [opt];
    assert forall i :: 0 <= i < |opts| ==> all[i] == opts[i];
    assert all[|opts|] == opt;
  }

  /** The library list the options stand for. */
  function LibsOf(fs: FileSystem, opts: seq<Opt>): seq<Path> {
    Accepted(fs, PiecesFor(opts, false), false)
  }

  /** The pieces of the search path: the defaults, when no option gives any. */
  function PathPieces(opts: seq<Opt>, defaults: Option<seq<string>>): seq<string> {
    if !HasSearchPath(opts) && defaults.Some? then defaults.value else PiecesFor(opts, true)
  }

  function PathsFrom(fs: FileSystem, opts: seq<Opt>, defaults: Option<seq<string>>): seq<Path> {
    Accepted(fs, PathPieces(opts, defaults), true)
  }

  /** src/search/parse_args.cxx:333-354. defaults are the dynamic linker's
      search directories, None when it does not give any. */
  method ParseArgs(fs: FileSystem, getopt: GetOpt, argv: seq<string>, lines: seq<seq<string>>,
                   defaults: Option<seq<string>>)
    returns (ok: bool, paths: seq<Path>, libs: seq<Path>)
    requires argv != []
    ensures var r := Expand(getopt, argv, lines);
      && (ok <==> r.ok && (HasSearchPath(r.opts) || defaults.Some?))
      && (ok ==> libs == LibsOf(fs, r.opts) && paths == PathsFrom(fs, r.opts, defaults))
  {
    var args := new Arguments(fs, lines);
    ok := args.ParseArgsHelper(fs, getopt, argv);
    ghost var opts := args.acted;
    assert opts == Expand(getopt, argv, lines).opts;
    if !ok {
      return false, [], [];
    }
    if !args.searchPathSeen {
      if defaults.None? {
        return false, [], [];
      }
      NoSearchPieces(opts);
      AddDefaults(fs, args.paths, defaults.value);
    }
    assert args.paths.pieces == PathPieces(opts, defaults);
    return true, args.paths.out, args.libs.out;
  }

  lemma {:induction false} NoSearchPieces(opts: seq<Opt>)
    requires !HasSearchPath(opts)
    ensures PiecesFor(opts, true) == []
    decreases |opts|
  {
    if opts != [] {
      assert !opts[0].SearchPath?;
      assert forall i :: 0 <= i < |opts[1..]| ==> opts[1..][i] == opts[i + 1];
      NoSearchPieces(opts[1..]);
    }
  }

  /** src/search/parse_args.cxx:231-233 */
  method AddDefaults(fs: FileSystem, paths: PathList, defaults: seq<string>)
    requires paths.Valid(fs) && paths.pieces == []
    modifies paths
    ensures paths.Valid(fs) && paths.pieces == defaults
  {
    for i := 0 to |defaults|
      invariant paths.Valid(fs) && paths.pieces == FirstOf(defaults, i)
    {
      FirstOfNext(defaults, i);
      paths.AddPath(fs, defaults[i]);
    }
    assert FirstOf(defaults, |defaults|) == defaults;
  }

  ghost function FirstOf(xs: seq<string>, i: nat): seq<string>
    requires i <= |xs|
  {
    xs[..i]
  }

  lemma FirstOfNext(xs: seq<string>, i: nat)
    requires i < |xs|
    ensures FirstOf(xs, i + 1) == FirstOf(xs, i) + [xs[i]]
  {
  }

  /** The first occurrence of a is before every occurrence of b. */
  ghost predicate FirstBefore(ps: seq<Path>, a: Path, b: Path) {
    forall m :: 0 <= m < |ps| && ps[m] == b ==> a in ps[..m]
  }

  /** out has exactly the admissible paths of ps, once each, in the order of
      their first occurrences. */
  ghost predicate IsAccepted(fs: FileSystem, ps: seq<Path>, dirMode: bool, out: seq<Path>) {
    && (forall p :: p in out <==> p in ps && Admissible(fs, p, dirMode))
    && Ordered(ps, out)
  }

  ghost predicate Ordered(ps: seq<Path>, out: seq<Path>) {
    forall i, j :: 0 <= i < j < |out| ==> out[i] != out[j] && FirstBefore(ps, out[i], out[j])
  }

  lemma {:induction false} FilterDedupIsAccepted(fs: FileSystem, ps: seq<Path>, dirMode: bool)
    ensures IsAccepted(fs, ps, dirMode, Filter(fs, Dedup(ps), dirMode))
    decreases |ps|
  {
    if ps != [] {
      var front, last := ps[..|ps| - 1], ps[|ps| - 1];
      assert ps == front + [last];
      FilterDedupIsAccepted(fs, front, dirMode);
      var out := Filter(fs, Dedup(front), dirMode);
      if last in front {
        RepeatAccepted(fs, front, last, dirMode, out);
      } else {
        Snoc(Dedup(front), last);
        NewAccepted(fs, front, last, dirMode, out);
      }
    }
  }

  lemma RepeatAccepted(fs: FileSystem, ps: seq<Path>, last: Path, dirMode: bool, out: seq<Path>)
    requires IsAccepted(fs, ps, dirMode, out) && last in ps
    ensures IsAccepted(fs, ps + [last], dirMode, out)
  {
    forall i, j | 0 <= i < j < |out|
      ensures FirstBefore(ps + [last], out[i], out[j])
    {
      FirstBeforeSnoc(ps, last, out[i], out[j]);
    }
  }

  lemma FirstBeforeSnoc(ps: seq<Path>, last: Path, a: Path, b: Path)
    requires FirstBefore(ps, a, b) && a in ps
    ensures FirstBefore(ps + [last], a, b)
  {
    forall m | 0 <= m < |ps + [last]| && (ps + [last])[m] == b
      ensures a in (ps + [last])[..m]
    {
      if m < |ps| {
        assert ps[m] == b;
        assert (ps + [last])[..m] == ps[..m];
      } else {
        assert (ps + [last])[..m] == ps;
      }
    }
  }

  lemma NewAccepted(fs: FileSystem, ps: seq<Path>, last: Path, dirMode: bool, out: seq<Path>)
    requires IsAccepted(fs, ps, dirMode, out) && last !in ps
    ensures Admissible(fs, last, dirMode) ==> IsAccepted(fs, ps + [last], dirMode, out + [last])
    ensures !Admissible(fs, last, dirMode) ==> IsAccepted(fs, ps + [last], dirMode, out)
  {
    forall i, j | 0 <= i < j < |out|
      ensures FirstBefore(ps + [last], out[i], out[j])
    {
      assert out[i] in out;
      FirstBeforeSnoc(ps, last, out[i], out[j]);
    }
    forall i | 0 <= i < |out|
      ensures out[i] != last && FirstBefore(ps + [last], out[i], last)
    {
      assert out[i] in out;
      LastIsLast(ps, last, out[i]);
    }
  }

  lemma LastIsLast(ps: seq<Path>, last: Path, a: Path)
    requires last !in ps && a in ps
    ensures FirstBefore(ps + [last], a, last)
  {
    forall m | 0 <= m < |ps + [last]| && (ps + [last])[m] == last
      ensures a in (ps + [last])[..m]
    {
      assert m >= |ps|;
      assert (ps + [last])[..|ps|] == ps;
    }
  }

  /** A list holds exactly the existing paths of the right kind among its
      pieces, each once, in the order of first occurrence. */
  lemma AcceptedExactly(fs: FileSystem, srcs: seq<string>, dirMode: bool)
    ensures IsAccepted(fs, PathsOf(srcs, dirMode), dirMode, Accepted(fs, srcs, dirMode))
  {
    FilterDedupIsAccepted(fs, PathsOf(srcs, dirMode), dirMode);
  }

  /** No other list is like that. */
  lemma AcceptedUnique(fs: FileSystem, ps: seq<Path>, dirMode: bool, a: seq<Path>, b: seq<Path>)
    requires IsAccepted(fs, ps, dirMode, a) && IsAccepted(fs, ps, dirMode, b)
    ensures a == b
  {
    SameOrder(ps, a, b);
  }

  lemma {:induction false} SameOrder(ps: seq<Path>, a: seq<Path>, b: seq<Path>)
    requires forall p :: p in a <==> p in b
    requires forall p :: p in a ==> p in ps
    requires Ordered(ps, a) && Ordered(ps, b)
    ensures a == b
    decreases |a|
  {
    if a == [] {
      if b != [] {
        HasFirst(b);
      }
    } else {
      assert a[0] in b;
      var j :| 0 <= j < |b| && b[j] == a[0];
      assert b[0] in a;
      var i :| 0 <= i < |a| && a[i] == b[0];
      if a[0] != b[0] {
        NotBothFirst(ps, a[0], b[0]);
      }
      forall p
        ensures p in a[1..] <==> p in b[1..]
      {
        TailHas(ps, a, p);
        TailHas(ps, b, p);
      }
      SameOrder(ps, a[1..], b[1..]);
    }
  }

  lemma HasFirst(ps: seq<Path>)
    requires ps != []
    ensures exists p :: p in ps
  {
    assert ps[0] in ps;
  }

  lemma TailHas(ps: seq<Path>, out: seq<Path>, p: Path)
    requires out != [] && Ordered(ps, out)
    ensures p in out[1..] <==> p in out && p != out[0]
  {
    assert out == [out[0]] + out[1..];
  }

  lemma NotBothFirst(ps: seq<Path>, a: Path, b: Path)
    requires a in ps && b in ps && a != b && FirstBefore(ps, a, b)
    ensures !FirstBefore(ps, b, a)
  {
    var m := FirstIndex(ps, a);
    var k := FirstIndex(ps, b);
    assert a in ps[..k];
    assert m < k;
    assert b !in ps[..m];
  }

  lemma FirstIndex(ps: seq<Path>, p: Path) returns (m: nat)
    requires p in ps
    ensures m < |ps| && ps[m] == p && p !in ps[..m]
    decreases |ps|
  {
    var front := ps[..|ps| - 1];
    assert ps == front + [ps[|ps| - 1]];
    if p in front {
      m := FirstIndex(front, p);
      assert ps[..m] == front[..m];
    } else {
      m := |front|;
    }
  }

  /** parse_paths and next_token cut an argument alike, but for the empty piece
      after a final colon; and there is room for one piece more than colons. */
  lemma TokenizersAgree(arg: string)
    requires arg != []
    ensures Pieces(arg) == Tokens(arg, ':') + (if arg[|arg| - 1] == ':' then [[]] else [])
    ensures |Pieces(arg)| == Count(arg, ':', 0) + 1
  {
    TokensAreSplit(arg, ':');
    SplitTiles(arg, ':');
  }

  /** The strings getopt reports are C strings. */
  ghost predicate NulFreeOpt(o: Opt) {
    match o
    case SearchPath(arg) => NUL !in arg
    case Libs(arg) => NUL !in arg
    case _ => true
  }

  ghost predicate NulFreeOpts(opts: seq<Opt>) {
    forall i :: 0 <= i < |opts| ==> NulFreeOpt(opts[i])
  }

  ghost predicate ReportsCStrings(getopt: GetOpt) {
    forall argv :: NulFreeOpts(getopt(argv).opts)
  }

  ghost predicate NulFree(srcs: seq<string>) {
    forall i :: 0 <= i < |srcs| ==> NUL !in srcs[i]
  }

  lemma LeadingNulFree(opts: seq<Opt>)
    requires NulFreeOpts(opts)
    ensures NulFreeOpts(Leading(opts))
  {
    LeadingPrefix(opts);
  }

  lemma BothNulFree(a: seq<Opt>, b: seq<Opt>)
    requires NulFreeOpts(a) && NulFreeOpts(b)
    ensures NulFreeOpts(a + b)
  {
  }

  lemma {:induction false} ExpandNulFree(getopt: GetOpt, argv: seq<string>, lines: seq<seq<string>>)
    requires argv != [] && ReportsCStrings(getopt)
    ensures NulFreeOpts(Expand(getopt, argv, lines).opts)
    decreases |lines|, 1, 0
  {
    var p := getopt(argv);
    LeadingNulFree(p.opts);
    ExpandRestNulFree(getopt, argv[0], Positionals(p), lines);
    BothNulFree(Leading(p.opts), ExpandRest(getopt, argv[0], Positionals(p), lines).opts);
  }

  lemma {:induction false} ExpandRestNulFree(getopt: GetOpt, exe: string, args: seq<string>,
                                             lines: seq<seq<string>>)
    requires ReportsCStrings(getopt)
    ensures NulFreeOpts(ExpandRest(getopt, exe, args, lines).opts)
    decreases |lines|, 0, |args|
  {
    if args != [] && args[0] == "-" && lines != [] && lines[0] != [] {
      var first := Expand(getopt, [exe] + lines[0], lines[1..]);
      ExpandNulFree(getopt, [exe] + lines[0], lines[1..]);
      if first.ok {
        ExpandRestNulFree(getopt, exe, args[1..], first.lines);
        BothNulFree(first.opts, ExpandRest(getopt, exe, args[1..], first.lines).opts);
      }
    }
  }

  lemma {:induction false} PiecesForNulFree(opts: seq<Opt>, dirMode: bool)
    requires NulFreeOpts(opts)
    ensures NulFree(PiecesFor(opts, dirMode))
    decreases |opts|
  {
    if opts != [] {
      PiecesForNulFree(opts[1..], dirMode);
      assert NulFreeOpt(opts[0]);
      if opts[0].SearchPath? || opts[0].Libs? {
        PiecesNulFree(opts[0].arg, ':', 0);
      }
    }
  }

  lemma {:induction false} PathsOfWellFormed(srcs: seq<string>, dirMode: bool)
    requires NulFree(srcs)
    ensures forall p :: p in PathsOf(srcs, dirMode) ==> p.WellFormed()
    decreases |srcs|
  {
    if srcs != [] {
      PathsOfWellFormed(srcs[..|srcs| - 1], dirMode);
      ParseWellFormed(srcs[|srcs| - 1]);
    }
  }

  /** What the lists hold is well-formed, since arguments are NUL-terminated. */
  lemma AcceptedWellFormed(fs: FileSystem, srcs: seq<string>, dirMode: bool)
    requires NulFree(srcs)
    ensures forall p :: p in Accepted(fs, srcs, dirMode) ==> p.WellFormed()
  {
    PathsOfWellFormed(srcs, dirMode);
    AcceptedExactly(fs, srcs, dirMode);
  }
}
