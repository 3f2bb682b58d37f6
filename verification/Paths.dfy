/** std::filesystem::path, compared and decomposed by components
    ([fs.path.compare] and [fs.path.decompose] of ISO C++20). A trailing
    separator is an empty last component; redundant separators have no place
    in a component list. */
module Paths {
  import opened Wrappers
  import opened Memory
  import opened Tokenizer
  import opened PathUtils

  datatype Path = Path(rooted: bool, comps: seq<string>) {

    predicate Empty() {
      !rooted && comps == []
    }

    /** The last component; empty for a root directory and for "". */
    function Filename(): string {
      if comps == [] then [] else comps[|comps| - 1]
    }

    /** Everything before the last component; a root directory and "" are
        their own parents. */
    function Parent(): Path {
      if comps == [] then this else Path(rooted, comps[..|comps| - 1])
    }

    /** operator/ with a single component. */
    function Append(name: string): Path {
      if comps != [] && comps[|comps| - 1] == [] then Path(rooted, comps[..|comps| - 1] + [name])
      else Path(rooted, comps + [name])
    }

    function AppendAll(names: seq<string>): Path
      decreases |names|
    {
      if names == [] then this else Append(names[0]).AppendAll(names[1..])
    }

    /** What a path parsed from a string is like: components are free of
        separators and NULs, and only the last of several may be empty. */
    ghost predicate WellFormed() {
      && (forall i :: 0 <= i < |comps| ==> '/' !in comps[i] && NUL !in comps[i])
      && (forall i :: 0 <= i < |comps| - 1 ==> comps[i] != [])
      && (|comps| == 1 ==> comps[0] != [])
    }

    /** The characters of the path, with single separators. */
    function Native(): string {
      (if rooted then "/" else []) + (if comps == [] then [] else Join(comps, '/'))
    }
  }

  /** The pieces that are not empty. */
  function NonEmpty(pieces: seq<string>): seq<string> {
    if pieces == [] then []
    else if pieces[0] == [] then NonEmpty(pieces[1..])
    else [pieces[0]] + NonEmpty(pieces[1..])
  }

  /** The path a string denotes. */
  function ParsePath(s: string): Path {
    var names := NonEmpty(Split(s, '/'));
    Path(s != [] && s[0] == '/', if s != [] && names != [] && s[|s| - 1] == '/' then names + [[]] else names)
  }

  lemma {:induction false} NonEmptyIs(pieces: seq<string>)
    ensures forall i :: 0 <= i < |NonEmpty(pieces)| ==> NonEmpty(pieces)[i] != [] && NonEmpty(pieces)[i] in pieces
    decreases |pieces|
  {
    if pieces != [] {
      NonEmptyIs(pieces[1..]);
    }
  }

  /** A parsed path is well-formed. */
  lemma ParseWellFormed(s: string)
    requires NUL !in s
    ensures ParsePath(s).WellFormed()
  {
    var pieces := Split(s, '/');
    NonEmptyIs(pieces);
    SplitTiles(s, '/');
    PiecesNulFree(s, '/', 0);
    forall i | 0 <= i < |NonEmpty(pieces)|
      ensures '/' !in NonEmpty(pieces)[i] && NUL !in NonEmpty(pieces)[i]
    {
      var j :| 0 <= j < |pieces| && pieces[j] == NonEmpty(pieces)[i];
    }
  }

  lemma {:induction false} PiecesNulFree(s: string, delim: char, i: nat)
    requires i <= |s| && NUL !in s
    ensures forall j :: 0 <= j < |SplitFrom(s, delim, i)| ==> NUL !in SplitFrom(s, delim, i)[j]
    decreases |s| - i
  {
    if IndexOf(s, delim, i) < |s| {
      PiecesNulFree(s, delim, IndexOf(s, delim, i) + 1);
    }
  }

  /** A plain file name: one component that names something. */
  ghost predicate PlainName(name: string) {
    name != [] && '/' !in name && NUL !in name
  }

  lemma AppendParent(p: Path, name: string)
    ensures p.Append(name).Filename() == name
    ensures p.comps == [] || p.comps[|p.comps| - 1] != [] ==> p.Append(name).Parent() == p
  {
    assert (p.comps + [name])[..|p.comps|] == p.comps;
  }

  /** full without suffix at its end, if it ends with it. */
  function EndsWith(full: Path, suffix: Path): Option<Path> {
    var n := |full.comps| - |suffix.comps|;
    if n >= 0 && full.comps[n..] == suffix.comps then Some(Path(full.rooted, full.comps[..n])) else None
  }

  /** src/search/search.cxx:181-204. The one suffix it is called with is
      relative; a rooted one could loop for ever. */
  method CheckPathEndsWith(full: Path, suffix: Path) returns (r: Option<Path>)
    requires !suffix.rooted && suffix.WellFormed()
    ensures r == EndsWith(full, suffix)
  {
    var full', suffix' := full, suffix;
    ghost var steps := 0;
    while !suffix'.Empty()
      invariant steps <= |suffix.comps| && !suffix'.rooted
      invariant suffix'.comps == suffix.comps[..|suffix.comps| - steps]
      invariant Matched(full, full', suffix, steps)
      decreases |suffix'.comps|
    {
      if full'.Empty() {
        return None;
      }
      MatchStep(full, full', suffix, suffix', steps);
      if full'.Filename() != suffix'.Filename() {
        return None;
      }
      full', suffix' := full'.Parent(), suffix'.Parent();
      steps := steps + 1;
    }
    MatchDone(full, full', suffix, steps);
    return Some(full');
  }

  /** The last components agree, and have been taken off full. The second case
      is a root directory, which has an empty name like a trailing separator. */
  ghost predicate Matched(full: Path, full': Path, suffix: Path, steps: nat)
    requires steps <= |suffix.comps|
  {
    var n, k := |full.comps|, |suffix.comps|;
    && full'.rooted == full.rooted
    && (if steps <= n
        then full'.comps == full.comps[..n - steps]
          && forall j :: k - steps <= j < k ==> full.comps[j + n - k] == suffix.comps[j]
        else n == 0 && full'.comps == [] && steps == 1 && suffix.comps[k - 1] == [])
  }

  lemma MatchStep(full: Path, full': Path, suffix: Path, suffix': Path, steps: nat)
    requires suffix.WellFormed() && steps < |suffix.comps| && !full'.Empty()
    requires suffix'.comps == suffix.comps[..|suffix.comps| - steps]
    requires Matched(full, full', suffix, steps)
    ensures full'.Filename() == suffix'.Filename() ==> Matched(full, full'.Parent(), suffix, steps + 1)
    ensures full'.Filename() != suffix'.Filename() ==> EndsWith(full, suffix).None?
  {
    var n, k := |full.comps|, |suffix.comps|;
    assert suffix'.Filename() == suffix.comps[k - steps - 1];
    if steps < n {
      assert full'.Filename() == full.comps[n - steps - 1];
      assert full'.Parent().comps == full.comps[..n - steps - 1];
      if full'.Filename() != suffix'.Filename() && n >= k {
        assert full.comps[n - k..][k - steps - 1] == full.comps[n - steps - 1];
      }
    }
  }

  lemma MatchDone(full: Path, full': Path, suffix: Path, steps: nat)
    requires suffix.WellFormed() && steps == |suffix.comps| && Matched(full, full', suffix, steps)
    ensures EndsWith(full, suffix) == Some(full')
  {
    var n, k := |full.comps|, |suffix.comps|;
    if steps <= n {
      forall i | 0 <= i < k
        ensures full.comps[n - k..][i] == suffix.comps[i]
      {
        assert full.comps[i + n - k] == suffix.comps[i];
      }
    }
  }

  /** Appending names to a path without a trailing separator adds components. */
  lemma {:induction false} AppendAllAdds(p: Path, names: seq<string>)
    requires forall i :: 0 <= i < |names| ==> names[i] != []
    requires p.comps != [] ==> p.comps[|p.comps| - 1] != []
    ensures p.AppendAll(names) == Path(p.rooted, p.comps + names)
    decreases |names|
  {
    if names != [] {
      var q := p.Append(names[0]);
      AppendAllAdds(q, names[1..]);
      assert p.comps + names == q.comps + names[1..];
    } else {
      assert p.comps + names == p.comps;
    }
  }

  /** check_path_ends_with inverts appending: it finds p exactly when p with the
      suffix's components appended is the whole path. */
  lemma EndsWithInvertsAppend(full: Path, suffix: Path, p: Path)
    requires full.WellFormed() && suffix.comps != []
    requires forall i :: 0 <= i < |suffix.comps| ==> suffix.comps[i] != []
    requires p.comps != [] ==> p.Filename() != []
    ensures EndsWith(full, suffix) == Some(p) <==> p.AppendAll(suffix.comps) == full
  {
    AppendAllAdds(p, suffix.comps);
    var n := |full.comps| - |suffix.comps|;
    var whole := p.comps + suffix.comps;
    assert whole[..|p.comps|] == p.comps && whole[|p.comps|..] == suffix.comps;
    if EndsWith(full, suffix) == Some(p) {
      assert full.comps == full.comps[..n] + full.comps[n..];
    }
  }

  /** The result of a strip has no trailing separator. */
  lemma EndsWithWellFormed(full: Path, suffix: Path)
    requires full.WellFormed() && suffix.comps != [] && EndsWith(full, suffix).Some?
    ensures var p := EndsWith(full, suffix).value;
      p.WellFormed() && (p.comps != [] ==> p.Filename() != [])
  {
  }

  lemma {:induction false} JoinSnoc(pieces: seq<string>, last: string, delim: char)
    requires pieces != []
    ensures Join(pieces + [last], delim) == Join(pieces, delim) + [delim] + last
    decreases |pieces|
  {
    if |pieces| == 1 {
      JoinPair(pieces[0], last, delim);
      assert pieces + [last] == [pieces[0], last];
    } else {
      var rest := pieces[1..];
      JoinSnoc(rest, last, delim);
      JoinStep(pieces[0], rest + [last], delim);
      assert pieces + [last] == [pieces[0]] + (rest + [last]);
      Assoc(pieces[0] + [delim], Join(rest, delim), [delim], last);
    }
  }

  lemma JoinPair(a: string, b: string, delim: char)
    ensures Join([a, b], delim) == a + [delim] + b
  {
    assert [a, b][1..] == [b];
  }

  lemma Assoc(a: string, b: string, c: string, d: string)
    ensures a + (b + c + d) == (a + b) + c + d
  {
  }

  lemma {:induction false} NonEmptySnoc(pieces: seq<string>, last: string)
    ensures last != [] ==> NonEmpty(pieces + [last]) == NonEmpty(pieces) + [last]
    ensures last == [] ==> NonEmpty(pieces + [last]) == NonEmpty(pieces)
    decreases |pieces|
  {
    if pieces == [] {
      assert [] + [last] == [last];
    } else {
      assert (pieces + [last])[1..] == pieces[1..] + [last];
      NonEmptySnoc(pieces[1..], last);
    }
  }

  /** One more component, after a separator, is one more piece. */
  lemma SplitSnoc(s: string, last: string)
    requires '/' !in last
    ensures Split(s + "/" + last, '/') == Split(s, '/') + [last]
  {
    var pieces := Split(s, '/');
    SplitTiles(s, '/');
    JoinSnoc(pieces, last, '/');
    SplitUnique(pieces + [last], '/');
  }

  /** The components of a directory's spelling, with a name after a separator. */
  lemma NamesSnoc(s: string, name: string)
    requires PlainName(name)
    ensures NonEmpty(Split(s + "/" + name, '/')) == NonEmpty(Split(s, '/')) + [name]
    ensures NonEmpty(Split(s + "/", '/')) == NonEmpty(Split(s, '/'))
  {
    SplitSnoc(s, name);
    SplitSnoc(s, []);
    assert s + "/" + [] == s + "/";
    NonEmptySnoc(Split(s, '/'), name);
    NonEmptySnoc(Split(s, '/'), []);
  }

  /** The path of a spelling that ends in a name, or in a separator. */
  lemma ParseName(s: string, names: seq<string>, name: string)
    requires PlainName(name) && names == NonEmpty(Split(s, '/'))
    ensures ParsePath(s + "/" + name) == Path((s + "/")[0] == '/', names + [name])
  {
    var t := s + "/" + name;
    NamesSnoc(s, name);
    assert t[0] == (s + "/")[0];
    assert t[|t| - 1] == name[|name| - 1] && t[|t| - 1] in name;
  }

  lemma ParseSeparator(s: string, names: seq<string>)
    requires names == NonEmpty(Split(s, '/'))
    ensures ParsePath(s + "/") == Path((s + "/")[0] == '/', if names == [] then [] else names + [[]])
  {
    NamesSnoc(s, "x");
  }

  lemma JoinToSeparator(dir: string, front: string, name: string)
    requires PlainName(name) && dir == front + "/"
    ensures ParsePath(dir + name) == ParsePath(dir).Append(name)
  {
    var names := NonEmpty(Split(front, '/'));
    ParseName(front, names, name);
    ParseSeparator(front, names);
    if names != [] {
      assert (names + [[]])[..|names|] == names;
    } else {
      assert names + [name] == [] + [name];
    }
  }

  lemma JoinToName(dir: string, name: string)
    requires dir != [] && dir[|dir| - 1] != '/' && PlainName(name)
    ensures ParsePath(dir + "/" + name) == ParsePath(dir).Append(name)
  {
    var names := NonEmpty(Split(dir, '/'));
    NonEmptyIs(Split(dir, '/'));
    ParseName(dir, names, name);
    assert ParsePath(dir) == Path(dir[0] == '/', names);
  }

  lemma JoinedName(dir: string, name: string)
    requires dir != [] && dir[0] != NUL && PlainName(name)
    ensures dir[|dir| - 1] == '/' ==> Joined(dir, name) == dir + name
    ensures dir[|dir| - 1] != '/' ==> Joined(dir, name) == dir + "/" + name
  {
    assert name[0] in name;
  }

  /** However a directory is spelled, redundant separators included, what
      path_join (C) builds from it is the path operator/ (C++) builds. */
  lemma JoinNamesAppend(dir: string, name: string)
    requires dir != [] && NUL !in dir && PlainName(name)
    ensures ParsePath(Joined(dir, name)) == ParsePath(dir).Append(name)
  {
    assert dir[0] in dir;
    JoinedName(dir, name);
    if dir[|dir| - 1] == '/' {
      JoinToSeparator(dir, dir[..|dir| - 1], name);
    } else {
      JoinToName(dir, name);
    }
  }

  lemma {:induction false} NonEmptyAll(pieces: seq<string>)
    requires forall i :: 0 <= i < |pieces| ==> pieces[i] != []
    ensures NonEmpty(pieces) == pieces
    decreases |pieces|
  {
    if pieces != [] {
      NonEmptyAll(pieces[1..]);
    }
  }

  /** Components of which only the last may be empty. */
  ghost predicate Components(comps: seq<string>) {
    && comps != [] && DelimiterFree(comps, '/')
    && forall i :: 0 <= i < |comps| - 1 ==> comps[i] != []
  }

  /** Components without an empty last one. */
  function Names(comps: seq<string>): seq<string>
    requires comps != []
  {
    if comps[|comps| - 1] == [] then comps[..|comps| - 1] else comps
  }

  lemma NonEmptyNames(comps: seq<string>)
    requires Components(comps)
    ensures NonEmpty(comps) == Names(comps)
  {
    var front, last := comps[..|comps| - 1], comps[|comps| - 1];
    assert comps == front + [last];
    NonEmptyAll(front);
    NonEmptySnoc(front, last);
  }

  /** What the characters of joined components begin and end with. */
  lemma JoinBegins(comps: seq<string>)
    requires Components(comps) && comps[0] != []
    ensures Join(comps, '/') != [] && Join(comps, '/')[0] != '/'
  {
    assert comps[0][0] in comps[0];
  }

  lemma JoinFinishes(comps: seq<string>)
    requires Components(comps) && (|comps| > 1 || comps[0] != [])
    ensures var s := Join(comps, '/');
      s != [] && (s[|s| - 1] == '/' <==> comps[|comps| - 1] == [])
  {
    var last := comps[|comps| - 1];
    if |comps| > 1 {
      var front := comps[..|comps| - 1];
      assert comps == front + [last];
      JoinSnoc(front, last, '/');
    }
    if last != [] {
      assert last[|last| - 1] in last;
    }
  }

  /** The path of the characters of components, without a root and with one. */
  lemma ParseJoined(comps: seq<string>)
    requires Components(comps) && comps[0] != []
    ensures ParsePath(Join(comps, '/')) == Path(false, comps)
  {
    SplitUnique(comps, '/');
    NonEmptyNames(comps);
    JoinBegins(comps);
    JoinFinishes(comps);
    NamesBack(comps);
  }

  lemma ParseRooted(comps: seq<string>)
    requires Components(comps) && comps[0] != []
    ensures ParsePath("/" + Join(comps, '/')) == Path(true, comps)
  {
    var s := "/" + Join(comps, '/');
    JoinStep([], comps, '/');
    assert [[]] + comps != [] && s == Join([[]] + comps, '/');
    RootedSplit(comps);
    NonEmptyNames(comps);
    JoinFinishes(comps);
    assert s[|s| - 1] == Join(comps, '/')[|Join(comps, '/')| - 1];
    NamesBack(comps);
  }

  lemma RootedSplit(comps: seq<string>)
    requires Components(comps)
    ensures Split(Join([[]] + comps, '/'), '/') == [[]] + comps
    ensures NonEmpty([[]] + comps) == NonEmpty(comps)
  {
    SplitUnique([[]] + comps, '/');
    assert ([[]] + comps)[1..] == comps;
  }

  lemma NamesBack(comps: seq<string>)
    requires comps != [] && comps[0] != []
    ensures Names(comps) != []
    ensures comps == if comps[|comps| - 1] == [] then Names(comps) + [[]] else Names(comps)
  {
  }

  /** Printing a path and reading it back gives the path. */
  lemma PrintedPathIsRead(p: Path)
    requires p.WellFormed()
    ensures ParsePath(p.Native()) == p
  {
    if p.comps == [] {
      RootIsRead();
      assert p.Native() == if p.rooted then "/" else "";
    } else if p.rooted {
      ParseRooted(p.comps);
    } else {
      assert p.Native() == Join(p.comps, '/');
      ParseJoined(p.comps);
    }
  }

  lemma RootIsRead()
    ensures ParsePath("/") == Path(true, []) && ParsePath("") == Path(false, [])
  {
    var pieces: seq<string> := ["", ""];
    assert pieces[1..] == [""] && pieces[1..][1..] == [];
    assert Join(pieces, '/') == "/";
    SplitUnique(pieces, '/');
  }

  /** No separator directly follows another. */
  ghost predicate SingleSeparators(s: string) {
    forall i :: 0 <= i < |s| - 1 && s[i] == '/' ==> s[i + 1] != '/'
  }

  /** Only the first and the last of the pieces can be empty. */
  ghost predicate InnerNonEmpty(pieces: seq<string>) {
    forall k :: 0 < k < |pieces| - 1 ==> pieces[k] != []
  }

  lemma {:induction false} InnerPieces(s: string, i: nat)
    requires i <= |s| && SingleSeparators(s)
    ensures InnerNonEmpty(SplitFrom(s, '/', i))
    ensures i > 0 && s[i - 1] == '/' && |SplitFrom(s, '/', i)| > 1 ==> SplitFrom(s, '/', i)[0] != []
    decreases |s| - i
  {
    var e := IndexOf(s, '/', i);
    if e < |s| {
      InnerPieces(s, e + 1);
      InnerCons(s[i..e], SplitFrom(s, '/', e + 1));
    }
  }

  lemma InnerCons(first: string, rest: seq<string>)
    requires InnerNonEmpty(rest) && (|rest| > 1 ==> rest[0] != [])
    ensures InnerNonEmpty([first] + rest)
  {
  }

  lemma InnerComponents(pieces: seq<string>)
    requires pieces != [] && DelimiterFree(pieces, '/') && InnerNonEmpty(pieces)
    ensures Inner(pieces) == pieces && |pieces| > 1 ==> Components(pieces) && pieces[0] != []
    ensures Inner(pieces) != pieces ==> Components(Inner(pieces)) && pieces == [[]] + Inner(pieces)
    ensures Inner(pieces) != pieces && |pieces| > 2 ==> Inner(pieces)[0] != []
  {
    if |pieces| > 1 && pieces[0] == [] {
      assert |Inner(pieces)| < |pieces|;
    }
  }

  /** The components that the pieces of a spelling stand for. */
  function Inner(pieces: seq<string>): seq<string>
    requires pieces != []
  {
    if |pieces| > 1 && pieces[0] == [] then pieces[1..] else pieces
  }

  /** Reading a path spelled with single separators and printing it gives the
      spelling. */
  lemma ReadPathIsPrinted(s: string)
    requires SingleSeparators(s)
    ensures ParsePath(s).Native() == s
  {
    var pieces := Split(s, '/');
    var comps := Inner(pieces);
    SplitTiles(s, '/');
    InnerPieces(s, 0);
    if s == "" || s == "/" {
      RootIsRead();
    } else if comps == pieces {
      RelativeComponents(s);
      ParseJoined(pieces);
      assert ParsePath(s).Native() == Join(pieces, '/');
    } else {
      RootedComponents(s);
      ParseRooted(comps);
    }
  }

  lemma RelativeComponents(s: string)
    requires s != "" && SingleSeparators(s) && Inner(Split(s, '/')) == Split(s, '/')
    ensures Components(Split(s, '/')) && Split(s, '/')[0] != []
  {
    SplitTiles(s, '/');
    InnerPieces(s, 0);
    InnerComponents(Split(s, '/'));
  }

  lemma RootedComponents(s: string)
    requires s != "/" && SingleSeparators(s) && Inner(Split(s, '/')) != Split(s, '/')
    ensures var comps := Inner(Split(s, '/'));
      Components(comps) && comps[0] != [] && s == "/" + Join(comps, '/')
  {
    var pieces := Split(s, '/');
    var comps := Inner(pieces);
    SplitTiles(s, '/');
    InnerPieces(s, 0);
    InnerComponents(pieces);
    JoinStep([], comps, '/');
    assert s == [] + "/" + Join(comps, '/');
    assert |comps| == 1 ==> s == "/" + comps[0];
  }

  /** path_join (C) and operator/ (C++) build the same file name from a
      directory that is not empty. */
  lemma JoinAgreesWithAppend(p: Path, name: string)
    requires p.WellFormed() && !p.Empty() && PlainName(name)
    ensures Joined(p.Native(), name) == p.Append(name).Native()
  {
    if p.comps == [] {
      NativeRoot(name);
    } else if p.comps[|p.comps| - 1] == [] {
      NativeTrailing(p, name);
    } else {
      NativePlain(p, name);
    }
  }

  lemma NativeRoot(name: string)
    requires PlainName(name)
    ensures Joined(Path(true, []).Native(), name) == Path(true, []).Append(name).Native()
  {
    assert Path(true, []).Append(name).comps == [name];
    assert "/" + [] == "/";
  }

  /** The end of a path's characters, and the end after one more component. */
  lemma NativeEnds(rooted: bool, front: seq<string>, last: string)
    requires front != []
    ensures Path(rooted, front + [last]).Native() == Path(rooted, front).Native() + "/" + last
  {
    var root := if rooted then "/" else [];
    JoinSnoc(front, last, '/');
    assert root + (Join(front, '/') + "/" + last) == (root + Join(front, '/')) + "/" + last;
  }

  lemma NativeTrailing(p: Path, name: string)
    requires p.WellFormed() && p.comps != [] && p.Filename() == [] && PlainName(name)
    ensures Joined(p.Native(), name) == p.Append(name).Native()
  {
    var front := p.comps[..|p.comps| - 1];
    assert p.comps == front + [[]];
    NativeEnds(p.rooted, front, []);
    NativeEnds(p.rooted, front, name);
    NativeSlash(Path(p.rooted, front).Native(), name);
  }

  lemma NativePlain(p: Path, name: string)
    requires p.WellFormed() && p.comps != [] && p.Filename() != [] && PlainName(name)
    ensures Joined(p.Native(), name) == p.Append(name).Native()
  {
    var last := p.Filename();
    NativeEnds(p.rooted, p.comps, name);
    if |p.comps| == 1 {
      assert p.comps == [last];
      NativeEnd(if p.rooted then "/" else [], last, name);
    } else {
      var front := p.comps[..|p.comps| - 1];
      assert p.comps == front + [last];
      NativeEnds(p.rooted, front, last);
      NativeEnd(Path(p.rooted, front).Native() + "/", last, name);
    }
  }

  lemma NativeEnd(before: string, last: string, name: string)
    requires last != [] && '/' !in last && NUL !in last && PlainName(name)
    ensures Joined(before + last, name) == before + last + "/" + name
  {
    var d := before + last;
    assert d[|d| - 1] == last[|last| - 1] && d[|d| - 1] in last;
    assert name[0] in name;
  }

  lemma NativeSlash(before: string, name: string)
    requires PlainName(name)
    ensures Joined(before + "/" + [], name) == before + "/" + name
  {
    var d := before + "/" + [];
    assert d == before + "/" && d[|d| - 1] == '/';
  }
}
