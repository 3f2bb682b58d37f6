/** The path algebra of src/utils/c/path_utils.c, on NUL-terminated bytes. */
module PathUtils {
  import opened Wrappers
  import opened Memory
  import opened Tokenizer

  /** The component at o starts with prefix and may be matched: the last one,
      when no separator follows it, names a file unless isDir holds. */
  predicate Eligible(s: string, o: nat, prefix: string, isDir: bool) {
    && StartsAt(s, '/', o)
    && prefix <= EntryAt(s, '/', o)
    && (isDir || IndexOf(s, '/', o) < |s|)
  }

  /** r is the offset of the separator before the last eligible component, or
      -1 when the only eligible component is the very first, or there is none. */
  ghost predicate IsPathPrefix(s: string, prefix: string, isDir: bool, r: int) {
    && -1 <= r
    && (0 <= r ==> Eligible(s, r + 1, prefix, isDir))
    && forall o: nat :: r + 1 < o ==> !Eligible(s, o, prefix, isDir)
  }

  /** src/utils/c/path_utils.c:55-79. A match is recorded as the offset one
      before its component, which for the first component is -1. A pointer with
      a length is passed as the bytes it covers. */
  method PathPrefix(path: seq<char>, prefix: string, isDir: bool) returns (r: int)
    requires Terminated(path, 0)
    ensures prefix == [] ==> r == -1
    ensures prefix != [] ==> IsPathPrefix(CStr(path, 0), prefix, isDir, r)
  {
    if prefix == [] {
      return -1;
    }
    ghost var s := CStr(path, 0);
    ghost var eligible := EligibleOffsets(s, prefix, isDir);
    var cursor := 0;
    var found: Option<int> := None;
    while true
      invariant cursor <= |s| && Scanned(s, cursor, eligible, found)
      decreases |s| - cursor
    {
      StringBytes(path, cursor);
      var next, component, componentLen := NextToken(path, cursor, '/');
      if next.None? {
        break;
      }
      ScanRound(path, cursor, componentLen, next.value, prefix, isDir, eligible, found);
      if !isDir && path[component + componentLen] == NUL {
        cursor := next.value;
        break;
      }
      if componentLen >= |prefix| && BytesAt(path, component, prefix) {
        found := Some(component - 1);
      }
      cursor := next.value;
    }
    ScanResult(s, cursor, prefix, isDir, eligible, found);
    return if found.Some? then found.value else -1;
  }

  ghost function EligibleOffsets(s: string, prefix: string, isDir: bool): set<nat> {
    set o: nat | o < |s| && Eligible(s, o, prefix, isDir)
  }

  /** found is the last eligible component that starts before cursor, and
      cursor is where the next component starts, or the end. */
  ghost predicate Scanned(s: string, cursor: nat, eligible: set<nat>, found: Option<int>) {
    && (cursor == 0 || cursor >= |s| || s[cursor - 1] == '/')
    && (found.Some? ==> -1 <= found.value && found.value + 1 in eligible)
    && forall o :: o in eligible && o < cursor ==> found.Some? && o <= found.value + 1
  }

  /** The decision about a component, read off the bytes as the code does. */
  lemma EligibleInMemory(m: seq<char>, cursor: nat, len: nat, prefix: string, isDir: bool, eligible: set<nat>)
    requires Terminated(m, 0) && cursor + len < |m|
    requires eligible == EligibleOffsets(CStr(m, 0), prefix, isDir)
    requires StartsAt(CStr(m, 0), '/', cursor) && IndexOf(CStr(m, 0), '/', cursor) == cursor + len
    requires cursor + len < |CStr(m, 0)| <==> m[cursor + len] == '/'
    requires EntryAt(CStr(m, 0), '/', cursor) == m[cursor..cursor + len]
    ensures cursor in eligible
      <==> (isDir || m[cursor + len] == '/') && |prefix| <= len && BytesAt(m, cursor, prefix)
  {
    if |prefix| <= len {
      assert m[cursor..cursor + len][..|prefix|] == m[cursor..cursor + |prefix|];
    }
  }

  /** No component starts inside another, so a round of the loop decides every
      offset up to the next cursor. */
  lemma ScanStep(s: string, cursor: nat, eligible: set<nat>, found: Option<int>)
    requires cursor < |s| && forall o :: o in eligible ==> StartsAt(s, '/', o)
    requires Scanned(s, cursor, eligible, found)
    ensures Scanned(s, NextAfter(s, '/', cursor), eligible,
                    if cursor in eligible then Some(cursor - 1) else found)
  {
    forall o | o in eligible && cursor < o
      ensures NextAfter(s, '/', cursor) <= o
    {
      assert s[o - 1] == '/';
    }
  }

  /** One round of the loop, on the token next_token reports. */
  lemma ScanRound(m: seq<char>, cursor: nat, len: nat, next: nat, prefix: string, isDir: bool,
                  eligible: set<nat>, found: Option<int>)
    requires Terminated(m, 0) && cursor < |CStr(m, 0)| && cursor + len < |m|
    requires forall i :: cursor <= i < cursor + len ==> m[i] != '/' && m[i] != NUL
    requires m[cursor + len] == '/' || m[cursor + len] == NUL
    requires eligible == EligibleOffsets(CStr(m, 0), prefix, isDir)
    requires Scanned(CStr(m, 0), cursor, eligible, found)
    requires next == cursor + len + (if m[cursor + len] == '/' then 1 else 0)
    ensures cursor < next <= |CStr(m, 0)|
    ensures m[cursor + len] == NUL ==> next == |CStr(m, 0)|
    ensures (isDir || m[cursor + len] != NUL) && len >= |prefix| && BytesAt(m, cursor, prefix) ==>
      Scanned(CStr(m, 0), next, eligible, Some(cursor - 1))
    ensures !((isDir || m[cursor + len] != NUL) && len >= |prefix| && BytesAt(m, cursor, prefix)) ==>
      Scanned(CStr(m, 0), next, eligible, found)
  {
    TokenInString(m, cursor, len, '/');
    ScanStep(CStr(m, 0), cursor, eligible, found);
    EligibleInMemory(m, cursor, len, prefix, isDir, eligible);
  }

  lemma ScanResult(s: string, cursor: nat, prefix: string, isDir: bool, eligible: set<nat>, found: Option<int>)
    requires eligible == EligibleOffsets(s, prefix, isDir)
    requires cursor >= |s| && Scanned(s, cursor, eligible, found)
    ensures IsPathPrefix(s, prefix, isDir, if found.Some? then found.value else -1)
  {
    var r := if found.Some? then found.value else -1;
    forall o: nat | r + 1 < o
      ensures !Eligible(s, o, prefix, isDir)
    {
      assert o !in eligible;
    }
  }

  /** At most one answer is right. */
  lemma PathPrefixUnique(s: string, prefix: string, isDir: bool, r: int, r': int)
    requires IsPathPrefix(s, prefix, isDir, r) && IsPathPrefix(s, prefix, isDir, r')
    ensures r == r'
  {
    assert 0 <= r ==> Eligible(s, r + 1, prefix, isDir);
    assert 0 <= r' ==> Eligible(s, r' + 1, prefix, isDir);
  }

  /** A piece of the split starts at some offset, the last one where no further
      separator follows. */
  lemma {:induction false} PieceOffset(s: string, i: nat, k: nat) returns (o: nat)
    requires i <= |s| && k < |SplitFrom(s, '/', i)|
    ensures i <= o <= |s| && EntryAt(s, '/', o) == SplitFrom(s, '/', i)[k]
    ensures k == 0 ==> o == i
    ensures k > 0 ==> o > i && s[o - 1] == '/'
    ensures IndexOf(s, '/', o) < |s| <==> k < |SplitFrom(s, '/', i)| - 1
    decreases |s| - i
  {
    if k == 0 {
      o := i;
    } else {
      o := PieceOffset(s, IndexOf(s, '/', i) + 1, k - 1);
    }
  }

  /** The pieces that path_prefix looks at: all but the last, unless isDir. */
  function Searched(pieces: seq<string>, isDir: bool): seq<string>
    requires pieces != []
  {
    if isDir then pieces else pieces[..|pieces| - 1]
  }

  /** No piece but the first one starts with prefix. */
  ghost predicate OnlyFirst(pieces: seq<string>, prefix: string) {
    forall k :: 1 <= k < |pieces| ==> !(prefix <= pieces[k])
  }

  lemma LaterPieces(s: string, i: nat, prefix: string, isDir: bool, eligible: set<nat>)
    requires i <= |s| && prefix != [] && eligible == EligibleOffsets(s, prefix, isDir)
    requires forall o :: o in eligible ==> o <= i
    ensures OnlyFirst(Searched(SplitFrom(s, '/', i), isDir), prefix)
  {
    var pieces := SplitFrom(s, '/', i);
    forall k | 1 <= k < |Searched(pieces, isDir)|
      ensures !(prefix <= pieces[k])
    {
      var o := PieceOffset(s, i, k);
      assert o !in eligible;
    }
  }

  /** What path_prefix finds, by the components of the path: what follows offset
      r and its separator begins with a component that starts with prefix, and
      no later one does; with -1, none but perhaps the first component does. */
  lemma PathPrefixComponents(s: string, prefix: string, isDir: bool, r: int)
    requires prefix != [] && IsPathPrefix(s, prefix, isDir, r)
    ensures r == -1 ==> OnlyFirst(Searched(Split(s, '/'), isDir), prefix)
    ensures r >= 0 ==>
      && r + 1 < |s| && s[r] == '/'
      && var after := Searched(SplitFrom(s, '/', r + 1), isDir);
        after != [] && prefix <= after[0] && OnlyFirst(after, prefix)
  {
    var eligible := EligibleOffsets(s, prefix, isDir);
    PrefixOffsets(s, prefix, isDir, r, eligible);
    LaterPieces(s, r + 1, prefix, isDir, eligible);
    if r >= 0 {
      FoundPiece(s, r + 1, prefix, isDir, eligible);
    }
  }

  lemma PrefixOffsets(s: string, prefix: string, isDir: bool, r: int, eligible: set<nat>)
    requires IsPathPrefix(s, prefix, isDir, r) && eligible == EligibleOffsets(s, prefix, isDir)
    ensures -1 <= r < |s| && forall o :: o in eligible ==> o <= r + 1
    ensures r >= 0 ==> r + 1 in eligible
  {
  }

  lemma FoundPiece(s: string, o: nat, prefix: string, isDir: bool, eligible: set<nat>)
    requires o > 0 && o in eligible && eligible == EligibleOffsets(s, prefix, isDir)
    ensures o < |s| && s[o - 1] == '/'
    ensures var after := Searched(SplitFrom(s, '/', o), isDir);
      after != [] && prefix <= after[0]
  {
    FirstPieceAt(s, o);
  }

  lemma FirstPieceAt(s: string, i: nat)
    requires i <= |s|
    ensures SplitFrom(s, '/', i)[0] == EntryAt(s, '/', i)
    ensures IndexOf(s, '/', i) < |s| <==> |SplitFrom(s, '/', i)| > 1
  {
  }

  /** The parent path_join works with: an empty one stands for ".". */
  function ParentOrDot(parent: string): (p: string)
    ensures p != []
  {
    if parent == [] || parent == [NUL] then "." else parent
  }

  /** Parent and child with exactly the separators they bring, or one between
      them when neither brings any. */
  function Joined(parent: string, child: string): string {
    var p := ParentOrDot(parent);
    if p[|p| - 1] == '/' || (child != [] && child[0] == '/') then p + child
    else p + "/" + child
  }

  /** The parts of a joined path: the parent, or "." for an empty one, a
      separator exactly when neither side brings one, and the child. */
  lemma JoinedParts(parent: string, child: string)
    ensures parent == [] || parent == [NUL] ==> Joined(parent, child) == Joined(".", child)
    ensures parent != [] && parent != [NUL] ==>
      var r := Joined(parent, child);
      && parent <= r && |r| >= |parent| + |child| && r[|r| - |child|..] == child
      && r[|parent|..|r| - |child|]
         == if parent[|parent| - 1] != '/' && !("/" <= child) then "/" else []
  {
    if parent != [] && parent != [NUL] {
      var r := Joined(parent, child);
      if parent[|parent| - 1] != '/' && !("/" <= child) {
        assert r == parent + ("/" + child);
      } else {
        assert r == parent + child;
      }
    }
  }

  /** src/utils/c/path_utils.c:81-116. The destination's length is PATH_MAX. */
  method PathJoin(dst: array<char>, parent: string, child: string) returns (r: int)
    modifies dst
    ensures |Joined(parent, child)| < dst.Length ==>
      r == |Joined(parent, child)| && Holds(dst[..], Joined(parent, child))
    ensures |Joined(parent, child)| >= dst.Length ==> r == -1 && dst[..] == old(dst[..])
  {
    var parent' := parent;
    if |parent| == 0 || (|parent| == 1 && parent[0] == NUL) {
      parent' := ".";
    }
    assert parent' == ParentOrDot(parent);
    var parentHasSep := parent'[|parent'| - 1] == '/';
    var childHasSep := |child| > 0 && child[0] == '/';
    var extraSep := if parentHasSep || childHasSep then 0 else 1;
    var totalLen := |parent'| + |child| + extraSep;
    if totalLen >= dst.Length {
      return -1;
    }
    WriteParts(dst, parent', extraSep, child);
    return totalLen;
  }

  /** The three writes and the zero fill of path_join. */
  method WriteParts(dst: array<char>, parent: string, extraSep: nat, child: string)
    requires extraSep <= 1 && |parent| + extraSep + |child| < dst.Length
    modifies dst
    ensures extraSep == 1 ==> Holds(dst[..], parent + "/" + child)
    ensures extraSep == 0 ==> Holds(dst[..], parent + child)
  {
    Memcpy(dst, 0, parent);
    var cursor := |parent|;
    if extraSep == 1 {
      dst[cursor] := '/';
      cursor := cursor + 1;
    }
    Memcpy(dst, cursor, child);
    cursor := cursor + |child|;
    Memset(dst, cursor, dst.Length - cursor);
  }

  /** Where the last component of s[..i] starts. */
  function LastComponent(s: string, i: nat): (o: nat)
    requires i <= |s|
    ensures o <= i && (o == 0 || s[o - 1] == '/')
    ensures forall j :: o <= j < i ==> s[j] != '/'
  {
    if i == 0 || s[i - 1] == '/' then i else LastComponent(s, i - 1)
  }

  /** The bytes after the last separator. */
  function Filename(s: string): (f: string)
    ensures |f| <= |s| && '/' !in f
  {
    s[LastComponent(s, |s|)..]
  }

  /** A filename is the longest end of the string without a separator. */
  lemma FilenameIsEnd(s: string)
    ensures var f := Filename(s);
      s[|s| - |f|..] == f && '/' !in f && (|f| < |s| ==> s[|s| - |f| - 1] == '/')
  {
  }

  lemma LastComponentIs(s: string, o: nat)
    requires o <= |s| && (o == 0 || s[o - 1] == '/') && forall j :: o <= j < |s| ==> s[j] != '/'
    ensures LastComponent(s, |s|) == o
  {
    var k := LastComponent(s, |s|);
    assert k > 0 ==> s[k - 1] == '/';
    assert o > 0 ==> s[o - 1] == '/';
  }

  lemma FilenameAt(m: seq<char>, path: nat, len: nat, f: nat)
    requires path <= f <= path + len <= |m|
    requires (f == path || m[f - 1] == '/') && forall j :: f <= j < path + len ==> m[j] != '/'
    ensures m[f..path + len] == Filename(m[path..path + len])
  {
    LastComponentIs(m[path..path + len], f - path);
  }

  /** src/utils/c/path_utils.c:118-133, on the len bytes at offset path of m. */
  method PathFilename(m: seq<char>, path: nat, len: nat) returns (filename: nat)
    requires path + len <= |m|
    ensures path <= filename <= path + len
    ensures m[filename..path + len] == Filename(m[path..path + len])
  {
    var lastDir: Option<nat> := None;
    var cur := path;
    while cur < path + len
      invariant path <= cur <= path + len
      invariant lastDir.Some? ==> path <= lastDir.value < cur && m[lastDir.value] == '/'
      invariant forall j :: (if lastDir.Some? then lastDir.value + 1 else path) <= j < cur ==> m[j] != '/'
    {
      if m[cur] == '/' {
        lastDir := Some(cur);
      }
      cur := cur + 1;
    }
    filename := if lastDir.Some? then lastDir.value + 1 else path;
    FilenameAt(m, path, len, filename);
  }

  /** src/utils/c/path_utils.c:135-153 */
  method PathFilename2(m: seq<char>) returns (filename: nat, len: nat)
    requires Terminated(m, 0)
    ensures filename + len == |CStr(m, 0)|
    ensures m[filename..filename + len] == Filename(CStr(m, 0))
  {
    var lastDir: Option<nat> := None;
    var cur := 0;
    ghost var end := IndexOf(m, NUL, 0);
    while m[cur] != NUL
      invariant cur <= end
      invariant lastDir.Some? ==> lastDir.value < cur && m[lastDir.value] == '/'
      invariant forall j :: (if lastDir.Some? then lastDir.value + 1 else 0) <= j < cur ==> m[j] != '/'
      decreases end - cur
    {
      if m[cur] == '/' {
        lastDir := Some(cur);
      }
      cur := cur + 1;
    }
    filename := if lastDir.Some? then lastDir.value + 1 else 0;
    len := cur - filename;
    FilenameAt(m, 0, end, filename);
    assert m[0..end] == CStr(m, 0);
  }

  const HELPER_SUFFIX := "/libexec/cuda-autocompat-search"

  /** The libexec candidate of find_search_helper
      (src/utils/c/search_helper.c:35-47): None when it is rejected. */
  method LibexecCandidate(outPath: array<char>, selfPath: seq<char>) returns (ok: bool, ghost r: int)
    requires Terminated(selfPath, 0)
    modifies outPath
    ensures IsPathPrefix(CStr(selfPath, 0), "lib", false, r)
    ensures ok <==> 0 <= r && |Joined(CStr(selfPath, 0)[..r], HELPER_SUFFIX)| < outPath.Length
    ensures ok ==> Holds(outPath[..], Joined(CStr(selfPath, 0)[..r], HELPER_SUFFIX))
    ensures !ok ==> Holds(outPath[..], [])
  {
    var prefixLen := PathPrefix(selfPath, "lib", false);
    r := prefixLen;
    ghost var s := CStr(selfPath, 0);
    if prefixLen == -1 {
      Memset(outPath, 0, outPath.Length);
      return false, r;
    }
    assert selfPath[..prefixLen] == s[..prefixLen];
    var joined := PathJoin(outPath, selfPath[..prefixLen], HELPER_SUFFIX);
    if joined == -1 {
      Memset(outPath, 0, outPath.Length);
      return false, r;
    }
    return true, r;
  }

  /** The candidate is the sibling of the lib directory exactly when that
      directory is not directly under the root (and was found at all); there,
      it is a path below the current directory. */
  lemma LibexecIsSibling(s: string, r: nat)
    requires NUL !in s && IsPathPrefix(s, "lib", false, r)
    ensures Joined(s[..r], HELPER_SUFFIX) == s[..r] + "/libexec/cuda-autocompat-search" <==> r >= 1
    ensures r == 0 ==> Joined(s[..r], HELPER_SUFFIX) == "./libexec/cuda-autocompat-search"
  {
    if r == 0 {
      assert Joined(s[..r], HELPER_SUFFIX)[0] == '.';
    } else {
      assert s[0] in s;
      assert Eligible(s, r + 1, "lib", false);
      assert s[..r] != [NUL];
    }
  }
}
