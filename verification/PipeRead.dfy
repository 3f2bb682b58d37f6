/** find_libcuda's reading of the search helper's output
    (src/utils/c/search_helper.c). */
module PipeRead {
  import opened Wrappers
  import opened Memory
  import opened Tokenizer

  function Take(s: string, n: nat): (t: string)
    ensures |t| <= n && |t| <= |s|
  {
    if |s| <= n then s else s[..n]
  }

  /** What the next fread of at most n bytes delivers, and what it leaves. The
      pieces a pipe delivers are its business: any non-empty ones are possible. */
  function NextChunk(chunks: seq<string>, n: nat): string {
    if chunks == [] then [] else Take(chunks[0], n)
  }

  function AfterChunk(chunks: seq<string>, n: nat): seq<string> {
    if chunks == [] then []
    else if |chunks[0]| <= n then chunks[1..]
    else [chunks[0][n..]] + chunks[1..]
  }

  /** The output pipe of the helper. */
  class Pipe {
    var chunks: seq<string>

    constructor (chunks: seq<string>)
      ensures this.chunks == chunks
    {
      this.chunks := chunks;
    }

    method Fread(buf: array<char>, at: nat, n: nat) returns (k: nat)
      requires at + n <= buf.Length
      modifies this, buf
      ensures k == |NextChunk(old(chunks), n)| <= n
      ensures chunks == AfterChunk(old(chunks), n)
      ensures forall i :: at <= i < at + k ==> buf[i] == NextChunk(old(chunks), n)[i - at]
      ensures forall i :: 0 <= i < buf.Length && (i < at || at + k <= i) ==> buf[i] == old(buf[i])
    {
      var c := NextChunk(chunks, n);
      Memcpy(buf, at, c);
      k := |c|;
      chunks := AfterChunk(chunks, n);
    }
  }

  /** Where the data ends in what one read delivered: at the first NUL, or at
      the first newline when there is no NUL (src/utils/c/search_helper.c:99-100). */
  function FirstStop(c: string): (k: Option<nat>)
    ensures k.Some? ==> k.value < |c| && NUL !in c[..k.value]
    ensures k.None? ==> NUL !in c && '\n' !in c
  {
    if NUL in c then Some(IndexOf(c, NUL, 0))
    else if '\n' in c then Some(IndexOf(c, '\n', 0))
    else None
  }

  /** The bytes the loop keeps when there is room for this many more. */
  function ReadAll(chunks: seq<string>, room: nat): (s: string)
    ensures |s| <= room && NUL !in s
    decreases room
  {
    if room == 0 then []
    else
      var c := NextChunk(chunks, room);
      if c == [] then []
      else if FirstStop(c).Some? then c[..FirstStop(c).value]
      else c + ReadAll(AfterChunk(chunks, room), room - |c|)
  }

  /** src/utils/c/search_helper.c:76-125. helperFound is what find_search_helper
      returned, pipe what popen did, and exitStatus what pclose will. */
  method FindLibcuda(outPath: array<char>, helperFound: bool, pipe: Option<Pipe>, exitStatus: int)
    returns (len: nat, ghost dir: string)
    requires outPath.Length > 0
    modifies outPath, if pipe.Some? then {pipe.value} else {}
    ensures dir == if helperFound && pipe.Some? && exitStatus == 0
                   then ReadAll(old(pipe.value.chunks), outPath.Length - 1) else []
    ensures |dir| < outPath.Length && Holds(outPath[..], dir) && len == |dir|
  {
    Memset(outPath, 0, outPath.Length);
    if !helperFound {
      return 0, [];
    }
    if pipe.None? {
      return 0, [];
    }
    dir := ReadAll(pipe.value.chunks, outPath.Length - 1);
    var bufCur := ReadLoop(outPath, pipe.value);
    var ret := exitStatus;
    if ret == -1 {
      Memset(outPath, 0, outPath.Length);
      return 0, [];
    } else if ret != 0 {
      Memset(outPath, 0, outPath.Length);
      return 0, [];
    }
    return bufCur, dir;
  }

  /** src/utils/c/search_helper.c:92-109, on a cleared buffer. */
  method ReadLoop(outPath: array<char>, pipe: Pipe) returns (bufCur: nat)
    requires outPath.Length > 0 && Holds(outPath[..], [])
    modifies outPath, pipe
    ensures Holds(outPath[..], ReadAll(old(pipe.chunks), outPath.Length - 1))
    ensures bufCur == |ReadAll(old(pipe.chunks), outPath.Length - 1)|
  {
    ghost var got: string, d := [], ReadAll(pipe.chunks, outPath.Length - 1);
    NothingRead(pipe.chunks, outPath.Length - 1);
    bufCur := 0;
    var bytesRemaining: nat := outPath.Length - 1;
    while bytesRemaining > 0
      invariant bufCur + bytesRemaining == outPath.Length - 1
      invariant |got| == bufCur && Holds(outPath[..], got)
      invariant Whole(got, pipe.chunks, bytesRemaining) == d
      decreases bytesRemaining
    {
      var more;
      bufCur, bytesRemaining, more, got := ReadOnce(outPath, pipe, bufCur, bytesRemaining, got, d);
      if !more {
        return;
      }
    }
    AllRead(got, pipe.chunks);
  }

  /** What has been read with what is still to be read, when there is room for
      this many bytes more. */
  ghost function Whole(got: string, chunks: seq<string>, room: nat): string {
    got + ReadAll(chunks, room)
  }

  lemma NothingRead(chunks: seq<string>, room: nat)
    ensures Whole([], chunks, room) == ReadAll(chunks, room)
  {
  }

  lemma AllRead(got: string, chunks: seq<string>)
    ensures Whole(got, chunks, 0) == got
  {
  }

  /** What one read does to the whole. */
  lemma WholeStep(got: string, chunks: seq<string>, room: nat)
    requires room > 0
    ensures var c := NextChunk(chunks, room);
      && (c == [] ==> Whole(got, chunks, room) == got)
      && (c != [] && FirstStop(c).Some? ==> Whole(got, chunks, room) == got + c[..FirstStop(c).value])
      && (c != [] && FirstStop(c).None? ==>
        Whole(got, chunks, room) == Whole(got + c, AfterChunk(chunks, room), room - |c|))
  {
    var c := NextChunk(chunks, room);
    if c == [] {
      assert got + [] == got;
    } else if FirstStop(c).None? {
      Regroup(got, c, ReadAll(AfterChunk(chunks, room), room - |c|));
    }
  }

  lemma Regroup(a: string, b: string, c: string)
    ensures a + (b + c) == (a + b) + c
  {
  }

  /** One round of the loop; more is false in the last one. */
  method ReadOnce(outPath: array<char>, pipe: Pipe, bufCur: nat, bytesRemaining: nat,
                  ghost got: string, ghost d: string)
    returns (bufCur': nat, bytesRemaining': nat, more: bool, ghost got': string)
    requires bytesRemaining > 0 && bufCur + bytesRemaining < outPath.Length
    requires Holds(outPath[..], got) && |got| == bufCur
    requires Whole(got, pipe.chunks, bytesRemaining) == d
    modifies outPath, pipe
    ensures |got'| == bufCur' && Holds(outPath[..], got')
    ensures more ==>
      && bytesRemaining' < bytesRemaining && bufCur' + bytesRemaining' == bufCur + bytesRemaining
      && Whole(got', pipe.chunks, bytesRemaining') == d
    ensures !more ==> got' == d
  {
    WholeStep(got, pipe.chunks, bytesRemaining);
    ghost var c := NextChunk(pipe.chunks, bytesRemaining);
    var bytesRead := ReadInto(outPath, pipe, bufCur, bytesRemaining, got);
    if bytesRead == 0 {
      return bufCur, bytesRemaining, false, got;
    }
    var eod := FirstStop(outPath[bufCur..bufCur + bytesRead]);
    if eod.Some? {
      Clear(outPath, bufCur + eod.value, bytesRead - eod.value, got + c, got + c[..eod.value]);
      return bufCur + eod.value, bytesRemaining, false, got + c[..eod.value];
    }
    return bufCur + bytesRead, bytesRemaining - bytesRead, true, got + c;
  }

  /** The fread of one round. */
  method ReadInto(outPath: array<char>, pipe: Pipe, bufCur: nat, bytesRemaining: nat, ghost got: string)
    returns (bytesRead: nat)
    requires bufCur + bytesRemaining < outPath.Length
    requires Holds(outPath[..], got) && |got| == bufCur
    modifies outPath, pipe
    ensures pipe.chunks == AfterChunk(old(pipe.chunks), bytesRemaining)
    ensures var c := NextChunk(old(pipe.chunks), bytesRemaining);
      && bytesRead == |c| <= bytesRemaining && Holds(outPath[..], got + c)
      && outPath[bufCur..bufCur + bytesRead] == c
  {
    bytesRead := pipe.Fread(outPath, bufCur, bytesRemaining);
  }

  /** memset(eod, 0, bytes_read - eod_offset) */
  method Clear(outPath: array<char>, at: nat, n: nat, ghost before: string, ghost after: string)
    requires Holds(outPath[..], before) && at + n == |before| && after == before[..at]
    modifies outPath
    ensures Holds(outPath[..], after)
  {
    Memset(outPath, at, n);
  }

  function Flatten(chunks: seq<string>): string {
    if chunks == [] then [] else chunks[0] + Flatten(chunks[1..])
  }

  ghost predicate NoEmptyChunk(chunks: seq<string>) {
    forall i :: 0 <= i < |chunks| ==> chunks[i] != []
  }

  /** One way a pipe may deliver the stream. */
  ghost predicate Delivers(chunks: seq<string>, stream: string) {
    Flatten(chunks) == stream && NoEmptyChunk(chunks)
  }

  /** The bytes before the first NUL or newline. */
  function Clean(s: string): string {
    var z, y := IndexOf(s, NUL, 0), IndexOf(s, '\n', 0);
    if z <= y then s[..z] else s[..y]
  }

  /** That is the longest front of the string without a NUL and a newline. */
  lemma CleanExactly(s: string, t: string)
    ensures t == Clean(s) <==>
      && t <= s && NUL !in t && '\n' !in t
      && (|t| < |s| ==> s[|t|] == NUL || s[|t|] == '\n')
  {
    CleanIsFront(s);
    if t <= s && t != Clean(s) {
      if |t| < |Clean(s)| {
        assert s[|t|] == Clean(s)[|t|] && Clean(s)[|t|] in Clean(s);
      } else {
        assert s[|Clean(s)|] == t[|Clean(s)|] && t[|Clean(s)|] in t;
      }
    }
  }

  lemma CleanIsFront(s: string)
    ensures var c := Clean(s);
      && c <= s && NUL !in c && '\n' !in c
      && (|c| < |s| ==> s[|c|] == NUL || s[|c|] == '\n')
  {
  }

  /** A newline is followed, somewhere, by a NUL. */
  predicate NewlineBeforeNul(s: string) {
    IndexOf(s, '\n', 0) < IndexOf(s, NUL, 0) < |s|
  }

  lemma {:induction false} IndexOfTake(s: string, n: nat, c: char, i: nat)
    requires i <= n <= |s|
    ensures IndexOf(s[..n], c, i) == if IndexOf(s, c, i) < n then IndexOf(s, c, i) else n
    decreases n - i
  {
    if i < n && s[i] != c {
      IndexOfTake(s, n, c, i + 1);
    }
  }

  lemma {:induction false} IndexOfConcat(a: string, b: string, c: char, i: nat)
    requires i <= |a|
    ensures IndexOf(a + b, c, i)
      == if IndexOf(a, c, i) < |a| then IndexOf(a, c, i) else |a| + IndexOf(b, c, 0)
    decreases |a| - i
  {
    if i == |a| {
      IndexOfShift(a, b, c, 0);
    } else {
      assert (a + b)[i] == a[i];
      if a[i] != c {
        IndexOfConcat(a, b, c, i + 1);
      }
    }
  }

  lemma IndexOfIn(s: string, c: char)
    ensures c in s <==> IndexOf(s, c, 0) < |s|
  {
  }

  /** The first bytes of the stream that there is room for. */
  function Window(chunks: seq<string>, room: nat): string {
    Take(Flatten(chunks), room)
  }

  /** A window is its first chunk and the window of the rest. */
  lemma WindowSplits(chunks: seq<string>, room: nat)
    requires chunks != [] && chunks[0] != [] && room > 0
    ensures var c := NextChunk(chunks, room);
      c != [] && Window(chunks, room) == c + Window(AfterChunk(chunks, room), room - |c|)
  {
    if |chunks[0]| > room {
      assert Window(chunks, room) == chunks[0][..room];
    }
  }

  lemma CleanConcat(a: string, b: string)
    requires NUL !in a && '\n' !in a
    ensures Clean(a + b) == a + Clean(b)
    ensures NewlineBeforeNul(a + b) <==> NewlineBeforeNul(b)
  {
    IndexOfIn(a, NUL);
    IndexOfIn(a, '\n');
    IndexOfConcat(a, b, NUL, 0);
    IndexOfConcat(a, b, '\n', 0);
  }

  lemma CleanFirst(a: string, b: string)
    requires FirstStop(a).Some? && !NewlineBeforeNul(a + b)
    ensures Clean(a + b) == a[..FirstStop(a).value]
  {
    IndexOfIn(a, NUL);
    IndexOfIn(a, '\n');
    IndexOfConcat(a, b, NUL, 0);
    IndexOfConcat(a, b, '\n', 0);
  }

  lemma {:induction false} WindowIsClean(chunks: seq<string>, room: nat)
    requires NoEmptyChunk(chunks) && !NewlineBeforeNul(Window(chunks, room))
    ensures ReadAll(chunks, room) == Clean(Window(chunks, room))
    decreases room
  {
    if room == 0 || chunks == [] {
      assert Window(chunks, room) == [];
    } else {
      var c := NextChunk(chunks, room);
      if FirstStop(c).None? {
        RestOfWindow(chunks, room);
        WindowIsClean(AfterChunk(chunks, room), room - |c|);
      }
      WindowStep(chunks, room, c);
    }
  }

  lemma WindowStep(chunks: seq<string>, room: nat, c: string)
    requires chunks != [] && chunks[0] != [] && room > 0 && c == NextChunk(chunks, room)
    requires !NewlineBeforeNul(Window(chunks, room))
    requires FirstStop(c).None? ==>
      ReadAll(AfterChunk(chunks, room), room - |c|) == Clean(Window(AfterChunk(chunks, room), room - |c|))
    ensures ReadAll(chunks, room) == Clean(Window(chunks, room))
  {
    WindowSplits(chunks, room);
    StepIsClean(chunks, room, c, Window(AfterChunk(chunks, room), room - |c|));
  }

  lemma RestOfWindow(chunks: seq<string>, room: nat)
    requires chunks != [] && room > 0 && NoEmptyChunk(chunks) && !NewlineBeforeNul(Window(chunks, room))
    requires FirstStop(NextChunk(chunks, room)).None?
    ensures var c, chunks' := NextChunk(chunks, room), AfterChunk(chunks, room);
      NoEmptyChunk(chunks') && !NewlineBeforeNul(Window(chunks', room - |c|))
  {
    var c := NextChunk(chunks, room);
    WindowSplits(chunks, room);
    CleanConcat(c, Window(AfterChunk(chunks, room), room - |c|));
  }

  lemma StepIsClean(chunks: seq<string>, room: nat, c: string, w': string)
    requires room > 0 && c == NextChunk(chunks, room) && c != [] && !NewlineBeforeNul(c + w')
    requires FirstStop(c).None? ==> ReadAll(AfterChunk(chunks, room), room - |c|) == Clean(w')
    ensures ReadAll(chunks, room) == Clean(c + w')
  {
    if FirstStop(c).None? {
      CleanConcat(c, w');
    } else {
      CleanFirst(c, w');
    }
  }

  /** However the stream is delivered, the loop keeps the bytes of the window
      before its first NUL or newline, unless a newline comes before a NUL. */
  lemma ReadIsClean(chunks: seq<string>, stream: string, room: nat)
    requires Delivers(chunks, stream) && !NewlineBeforeNul(Take(stream, room))
    ensures ReadAll(chunks, room) == Clean(Take(stream, room))
  {
    WindowIsClean(chunks, room);
  }

  /** What is read does not depend on how the stream is cut into reads. */
  ghost predicate ChunkIndependent(stream: string, room: nat) {
    forall a, b :: Delivers(a, stream) && Delivers(b, stream) ==> ReadAll(a, room) == ReadAll(b, room)
  }

  /** Exactly when the window holds no newline followed by a NUL. */
  lemma ChunkIndependence(stream: string, room: nat)
    ensures ChunkIndependent(stream, room) <==> !NewlineBeforeNul(Take(stream, room))
  {
    if !NewlineBeforeNul(Take(stream, room)) {
      forall a, b | Delivers(a, stream) && Delivers(b, stream)
        ensures ReadAll(a, room) == ReadAll(b, room)
      {
        ReadIsClean(a, stream, room);
        ReadIsClean(b, stream, room);
      }
    } else {
      var a, b := ChunksDiffer(stream, room);
    }
  }

  /** One read for everything, or a first read that ends at the newline. */
  lemma ChunksDiffer(stream: string, room: nat) returns (a: seq<string>, b: seq<string>)
    requires NewlineBeforeNul(Take(stream, room))
    ensures Delivers(a, stream) && Delivers(b, stream) && ReadAll(a, room) != ReadAll(b, room)
  {
    var w := Take(stream, room);
    var z, y := IndexOf(w, NUL, 0), IndexOf(w, '\n', 0);
    a := [stream];
    b := [stream[..y + 1], stream[y + 1..]];
    FlattenOne(stream);
    FlattenTwo(stream[..y + 1], stream[y + 1..]);
    assert stream[..y + 1] + stream[y + 1..] == stream;
    ReadWhole(stream, room);
    ReadToNewline(stream, room, stream[y + 1..]);
    assert |w[..z]| != |w[..y]|;
  }

  lemma FlattenOne(s: string)
    ensures Flatten([s]) == s
  {
    assert Flatten([s]) == s + Flatten([s][1..]);
  }

  lemma FlattenTwo(s: string, t: string)
    ensures Flatten([s, t]) == s + t
  {
    assert [s, t][1..] == [t];
    FlattenOne(t);
  }

  lemma ReadWhole(stream: string, room: nat)
    requires NewlineBeforeNul(Take(stream, room))
    ensures var w := Take(stream, room);
      ReadAll([stream], room) == w[..IndexOf(w, NUL, 0)]
  {
    IndexOfIn(Take(stream, room), NUL);
  }

  lemma ReadToNewline(stream: string, room: nat, rest: string)
    requires NewlineBeforeNul(Take(stream, room))
    ensures var w := Take(stream, room);
      var y := IndexOf(w, '\n', 0);
      ReadAll([stream[..y + 1], rest], room) == w[..y]
  {
    var w := Take(stream, room);
    var y := IndexOf(w, '\n', 0);
    var c := w[..y + 1];
    assert c == stream[..y + 1];
    assert NextChunk([c, rest], room) == c;
    assert c[y] == '\n';
    IndexOfTake(w, y + 1, NUL, 0);
    IndexOfTake(w, y + 1, '\n', 0);
    IndexOfIn(c, NUL);
    assert c[..y] == w[..y];
  }

  /** A directory fits and has no byte the reader stops at. */
  predicate Transmissible(d: string, room: nat) {
    |d| <= room && NUL !in d && '\n' !in d
  }

  /** The helper's output is recovered exactly when it is transmissible, however
      the pipe delivers it. */
  lemma RecoveredExactly(chunks: seq<string>, d: string, room: nat)
    requires Delivers(chunks, d)
    ensures ReadAll(chunks, room) == d <==> Transmissible(d, room)
  {
    if |d| <= room && NUL !in d {
      IndexOfIn(d, NUL);
      IndexOfIn(d, '\n');
      ReadIsClean(chunks, d, room);
    }
  }
}
