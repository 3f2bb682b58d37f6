/** The two tokenisers: next_token (src/utils/c/path_utils.c) and the loop of
    parse_paths (src/search/parse_args.cxx, in Args.dfy), against one
    independent notion of splitting a string at a delimiter. */
module Tokenizer {
  import opened Wrappers
  import opened Memory

  /** The pieces of s between delimiters, empty ones included. */
  function Split(s: string, delim: char): (pieces: seq<string>)
    ensures pieces != []
  {
    SplitFrom(s, delim, 0)
  }

  function SplitFrom(s: string, delim: char, i: nat): (pieces: seq<string>)
    requires i <= |s|
    ensures pieces != []
    decreases |s| - i
  {
    var e := IndexOf(s, delim, i);
    if e < |s| then [s[i..e]] + SplitFrom(s, delim, e + 1) else [s[i..e]]
  }

  function Join(pieces: seq<string>, delim: char): string
    requires pieces != []
  {
    if |pieces| == 1 then pieces[0] else pieces[0] + [delim] + Join(pieces[1..], delim)
  }

  /** What iterating next_token to its end visits. */
  function Tokens(s: string, delim: char): seq<string> {
    TokensFrom(s, delim, 0)
  }

  function TokensFrom(s: string, delim: char, i: nat): seq<string>
    requires i <= |s|
    decreases |s| - i
  {
    if i == |s| then []
    else
      var e := IndexOf(s, delim, i);
      if e < |s| then [s[i..e]] + TokensFrom(s, delim, e + 1) else [s[i..e]]
  }

  ghost predicate DelimiterFree(pieces: seq<string>, delim: char) {
    forall i :: 0 <= i < |pieces| ==> delim !in pieces[i]
  }

  function Count(s: string, c: char, i: nat): nat
    requires i <= |s|
    decreases |s| - i
  {
    if i == |s| then 0 else (if s[i] == c then 1 else 0) + Count(s, c, i + 1)
  }

  lemma {:induction false} IndexOfShift(before: string, s: string, c: char, i: nat)
    requires i <= |s|
    ensures IndexOf(before + s, c, |before| + i) == |before| + IndexOf(s, c, i)
    decreases |s| - i
  {
    if i < |s| {
      assert (before + s)[|before| + i] == s[i];
      if s[i] != c {
        IndexOfShift(before, s, c, i + 1);
      }
    }
  }

  lemma {:induction false} IndexOfPrefix(a: string, b: string, c: char, i: nat)
    requires i <= |a| && IndexOf(a, c, i) < |a|
    ensures IndexOf(a + b, c, i) == IndexOf(a, c, i)
    decreases |a| - i
  {
    assert (a + b)[i] == a[i];
    if a[i] != c {
      IndexOfPrefix(a, b, c, i + 1);
    }
  }

  lemma SliceShift(before: string, s: string, i: nat, e: nat)
    requires i <= e <= |s|
    ensures (before + s)[|before| + i..|before| + e] == s[i..e]
  {
  }

  lemma SlicePrefix(a: string, b: string, i: nat, e: nat)
    requires i <= e <= |a|
    ensures (a + b)[i..e] == a[i..e]
  {
  }

  lemma Prepend<T>(x: T, a: seq<T>, b: seq<T>)
    ensures [x] + (a + b) == ([x] + a) + b
  {
  }

  lemma {:induction false} CountStep(s: string, c: char, i: nat)
    requires i <= |s|
    ensures var e := IndexOf(s, c, i);
      Count(s, c, i) == if e < |s| then 1 + Count(s, c, e + 1) else 0
    decreases |s| - i
  {
    if i < |s| && s[i] != c {
      CountStep(s, c, i + 1);
    }
  }

  /** Splitting loses nothing, and makes one piece more than there are delimiters. */
  lemma SplitTiles(s: string, delim: char)
    ensures Join(Split(s, delim), delim) == s
    ensures DelimiterFree(Split(s, delim), delim)
    ensures |Split(s, delim)| == Count(s, delim, 0) + 1
  {
    SplitJoins(s, delim, 0);
    SplitPieces(s, delim, 0);
    SplitCounts(s, delim, 0);
    assert s[0..] == s;
  }

  lemma {:induction false} SplitJoins(s: string, delim: char, i: nat)
    requires i <= |s|
    ensures Join(SplitFrom(s, delim, i), delim) == s[i..]
    decreases |s| - i
  {
    var e := IndexOf(s, delim, i);
    if e < |s| {
      SplitJoins(s, delim, e + 1);
      SplitExtend(s, delim, i, s[i..e], SplitFrom(s, delim, e + 1));
      JoinFirst(s, delim, i, e, SplitFrom(s, delim, e + 1));
    } else {
      assert s[i..e] == s[i..];
    }
  }

  lemma JoinFirst(s: string, delim: char, i: nat, e: nat, rest: seq<string>)
    requires i <= e < |s| && s[e] == delim && rest != [] && Join(rest, delim) == s[e + 1..]
    ensures Join([s[i..e]] + rest, delim) == s[i..]
  {
    JoinStep(s[i..e], rest, delim);
    TileStep(s, i, e);
  }

  lemma {:induction false} SplitPieces(s: string, delim: char, i: nat)
    requires i <= |s|
    ensures DelimiterFree(SplitFrom(s, delim, i), delim)
    decreases |s| - i
  {
    var e := IndexOf(s, delim, i);
    if e < |s| {
      SplitPieces(s, delim, e + 1);
    }
  }

  lemma {:induction false} SplitCounts(s: string, delim: char, i: nat)
    requires i <= |s|
    ensures |SplitFrom(s, delim, i)| == Count(s, delim, i) + 1
    decreases |s| - i
  {
    var e := IndexOf(s, delim, i);
    CountStep(s, delim, i);
    if e < |s| {
      SplitCounts(s, delim, e + 1);
    }
  }

  lemma JoinStep(first: string, rest: seq<string>, delim: char)
    requires rest != []
    ensures Join([first] + rest, delim) == first + [delim] + Join(rest, delim)
  {
    assert ([first] + rest)[1..] == rest;
  }

  lemma TileStep(s: string, i: nat, e: nat)
    requires i <= e < |s|
    ensures s[i..] == s[i..e] + [s[e]] + s[e + 1..]
  {
  }

  /** Split is the only way to write a string as delimiter-free pieces joined
      by the delimiter. */
  lemma SplitUnique(pieces: seq<string>, delim: char)
    requires pieces != [] && DelimiterFree(pieces, delim)
    ensures Split(Join(pieces, delim), delim) == pieces
  {
    assert [] + Join(pieces, delim) == Join(pieces, delim);
    SplitAfter(Join(pieces, delim), [], pieces, delim);
  }

  lemma {:induction false} SplitAfter(s: string, before: string, pieces: seq<string>, delim: char)
    requires pieces != [] && DelimiterFree(pieces, delim) && s == before + Join(pieces, delim)
    ensures SplitFrom(s, delim, |before|) == pieces
    decreases |pieces|
  {
    var first := pieces[0];
    if |pieces| == 1 {
      assert first + [] == first;
      FirstPiece(s, before, first, [], delim);
      assert pieces == [first];
    } else {
      var rest := Join(pieces[1..], delim);
      Rearrange(before, first, delim, rest);
      FirstPiece(s, before, first, [delim] + rest, delim);
      SplitAfter(s, before + first + [delim], pieces[1..], delim);
      SplitExtend(s, delim, |before|, first, pieces[1..]);
      HeadTail(pieces);
    }
  }

  lemma HeadTail<T>(xs: seq<T>)
    requires xs != []
    ensures xs == [xs[0]] + xs[1..]
  {
  }

  lemma Rearrange(before: string, first: string, delim: char, rest: string)
    ensures before + (first + [delim] + rest) == before + (first + ([delim] + rest))
    ensures (before + first + [delim]) + rest == before + (first + [delim] + rest)
  {
    assert first + [delim] + rest == first + ([delim] + rest);
  }

  lemma SplitExtend(s: string, delim: char, i: nat, first: string, rest: seq<string>)
    requires i <= |s| && IndexOf(s, delim, i) < |s|
    requires first == s[i..IndexOf(s, delim, i)]
    requires rest == SplitFrom(s, delim, IndexOf(s, delim, i) + 1)
    ensures SplitFrom(s, delim, i) == [first] + rest
  {
  }

  lemma FirstPiece(s: string, before: string, first: string, rest: string, delim: char)
    requires s == before + (first + rest)
    requires delim !in first && (rest == [] || rest[0] == delim)
    ensures IndexOf(s, delim, |before|) == |before| + |first|
    ensures s[|before|..|before| + |first|] == first
  {
    IndexOfShift(before, first + rest, delim, 0);
    SliceShift(before, first + rest, 0, |first|);
    SlicePrefix(first, rest, 0, |first|);
    PieceEnd(first, rest, delim, 0);
  }

  lemma {:induction false} PieceEnd(first: string, rest: string, delim: char, i: nat)
    requires i <= |first| && delim !in first && (rest == [] || rest[0] == delim)
    ensures IndexOf(first + rest, delim, i) == |first|
    decreases |first| - i
  {
    if i < |first| {
      assert (first + rest)[i] == first[i];
      PieceEnd(first, rest, delim, i + 1);
    } else {
      assert rest != [] ==> (first + rest)[i] == rest[0];
    }
  }

  /** next_token's tokens are the pieces of the split, except that an empty
      piece after a final delimiter is not reported. */
  lemma TokensAreSplit(s: string, delim: char)
    requires s != []
    ensures Split(s, delim) == Tokens(s, delim) + (if s[|s| - 1] == delim then [[]] else [])
  {
    TokensAreSplitFrom(s, delim, 0);
  }

  lemma {:induction false} TokensAreSplitFrom(s: string, delim: char, i: nat)
    requires i <= |s|
    ensures SplitFrom(s, delim, i)
      == TokensFrom(s, delim, i) + (if i == |s| || s[|s| - 1] == delim then [[]] else [])
    decreases |s| - i
  {
    var e := IndexOf(s, delim, i);
    if e < |s| {
      TokensAreSplitFrom(s, delim, e + 1);
      Prepend(s[i..e], TokensFrom(s, delim, e + 1),
              if e + 1 == |s| || s[|s| - 1] == delim then [[]] else []);
    } else if i == |s| {
      assert s[i..e] == [];
    }
  }

  /** Tokens from an offset on depend on the bytes from there on alone. */
  lemma {:induction false} TokensShift(whole: string, k: nat, s: string, delim: char, i: nat)
    requires k <= |whole| && s == whole[k..] && i <= |s|
    ensures TokensFrom(whole, delim, k + i) == TokensFrom(s, delim, i)
    decreases |s| - i
  {
    if i < |s| {
      var e := IndexOf(s, delim, i);
      if e < |s| {
        TokensShift(whole, k, s, delim, e + 1);
      }
      ShiftStep(whole, k, s, delim, i, e);
    }
  }

  lemma ShiftStep(whole: string, k: nat, s: string, delim: char, i: nat, e: nat)
    requires k <= |whole| && s == whole[k..] && i < |s| && e == IndexOf(s, delim, i)
    requires e < |s| ==> TokensFrom(whole, delim, k + (e + 1)) == TokensFrom(s, delim, e + 1)
    ensures TokensFrom(whole, delim, k + i) == TokensFrom(s, delim, i)
  {
    ShiftFirst(whole, k, s, delim, i);
    SameTokens(whole, k + i, k + e, s, i, e, delim);
  }

  lemma ShiftFirst(whole: string, k: nat, s: string, delim: char, i: nat)
    requires k <= |whole| && s == whole[k..] && i < |s|
    ensures var e := IndexOf(s, delim, i);
      IndexOf(whole, delim, k + i) == k + e && whole[k + i..k + e] == s[i..e]
  {
    var before := whole[..k];
    assert whole == before + s;
    IndexOfShift(before, s, delim, i);
    SliceShift(before, s, i, IndexOf(s, delim, i));
  }

  /** Equal first tokens and equal remaining ones. */
  lemma SameTokens(s: string, i: nat, e: nat, t: string, j: nat, e': nat, delim: char)
    requires i < |s| && j < |t| && e == IndexOf(s, delim, i) && e' == IndexOf(t, delim, j)
    requires s[i..e] == t[j..e'] && (e < |s| <==> e' < |t|)
    requires e < |s| ==> TokensFrom(s, delim, e + 1) == TokensFrom(t, delim, e' + 1)
    ensures TokensFrom(s, delim, i) == TokensFrom(t, delim, j)
  {
    if e < |s| {
      TokensMore(s, i, delim);
      TokensMore(t, j, delim);
    } else {
      TokensLast(s, i, delim);
      TokensLast(t, j, delim);
    }
  }

  /** Tokens of a string whose first part ends at a token boundary. */
  lemma TokensConcat(a: string, b: string, delim: char)
    requires a == [] || a[|a| - 1] == delim
    ensures Tokens(a + b, delim) == Tokens(a, delim) + Tokens(b, delim)
  {
    TokensConcatFrom(a, b, delim, 0);
  }

  lemma {:induction false} TokensConcatFrom(a: string, b: string, delim: char, i: nat)
    requires i <= |a| && (a == [] || a[|a| - 1] == delim)
    ensures TokensFrom(a + b, delim, i) == TokensFrom(a, delim, i) + TokensFrom(b, delim, 0)
    decreases |a| - i
  {
    if i == |a| {
      assert (a + b)[|a|..] == b;
      TokensShift(a + b, |a|, b, delim, 0);
    } else {
      var e := IndexOf(a, delim, i);
      assert e < |a|;
      IndexOfPrefix(a, b, delim, i);
      SlicePrefix(a, b, i, e);
      TokensConcatFrom(a, b, delim, e + 1);
      TokensExtend(a, a + b, i, TokensFrom(b, delim, 0), delim);
    }
  }

  lemma TokensExtend(a: string, ab: string, i: nat, rest: seq<string>, delim: char)
    requires i < |a| <= |ab|
    requires var e := IndexOf(a, delim, i);
      && e < |a| && IndexOf(ab, delim, i) == e && ab[i..e] == a[i..e]
      && TokensFrom(ab, delim, e + 1) == TokensFrom(a, delim, e + 1) + rest
    ensures TokensFrom(ab, delim, i) == TokensFrom(a, delim, i) + rest
  {
    var e := IndexOf(a, delim, i);
    TokensMore(a, i, delim);
    TokensMore(ab, i, delim);
    Prepend(a[i..e], TokensFrom(a, delim, e + 1), rest);
  }

  lemma TokensMore(s: string, i: nat, delim: char)
    requires i < |s| && IndexOf(s, delim, i) < |s|
    ensures var e := IndexOf(s, delim, i);
      TokensFrom(s, delim, i) == [s[i..e]] + TokensFrom(s, delim, e + 1)
  {
  }

  lemma TokensLast(s: string, i: nat, delim: char)
    requires i < |s| && IndexOf(s, delim, i) == |s|
    ensures TokensFrom(s, delim, i) == [s[i..|s|]]
  {
  }

  /** An entry of s starts at o: at the front or after a delimiter. */
  predicate StartsAt(s: string, delim: char, o: nat) {
    o < |s| && (o == 0 || s[o - 1] == delim)
  }

  /** The entry that starts at o. */
  function EntryAt(s: string, delim: char, o: nat): string
    requires o <= |s|
  {
    s[o..IndexOf(s, delim, o)]
  }

  /** Where the entry after the one at o starts, or the end. */
  function NextAfter(s: string, delim: char, o: nat): (n: nat)
    requires o <= |s|
    ensures o <= n <= |s| && (o < |s| ==> o < n)
    ensures n == |s| || s[n - 1] == delim
  {
    var e := IndexOf(s, delim, o);
    if e < |s| then e + 1 else e
  }

  /** An entry splits the tokens into those before it, itself, and those after. */
  lemma TokensAround(s: string, delim: char, o: nat)
    requires StartsAt(s, delim, o)
    ensures Tokens(s, delim) == Tokens(s[..o], delim)
      + ([EntryAt(s, delim, o)] + Tokens(s[NextAfter(s, delim, o)..], delim))
  {
    TokensSplitAt(s, delim, o);
    var next := NextAfter(s, delim, o);
    TokensSuffix(s, delim, next);
    assert TokensFrom(s, delim, o) == [EntryAt(s, delim, o)] + TokensFrom(s, delim, next);
  }

  lemma TokensSuffix(s: string, delim: char, o: nat)
    requires o <= |s|
    ensures Tokens(s[o..], delim) == TokensFrom(s, delim, o)
  {
    TokensShift(s, o, s[o..], delim, 0);
  }

  lemma TokensSplitAt(s: string, delim: char, o: nat)
    requires StartsAt(s, delim, o)
    ensures Tokens(s, delim) == Tokens(s[..o], delim) + TokensFrom(s, delim, o)
  {
    assert s[..o] + s[o..] == s;
    TokensConcat(s[..o], s[o..], delim);
    TokensSuffix(s, delim, o);
  }

  /** Every token is the entry at some offset. */
  lemma {:induction false} TokenOffset(s: string, delim: char, i: nat, k: nat) returns (o: nat)
    requires i <= |s| && (i == |s| || StartsAt(s, delim, i)) && k < |TokensFrom(s, delim, i)|
    ensures i <= o && StartsAt(s, delim, o) && EntryAt(s, delim, o) == TokensFrom(s, delim, i)[k]
    decreases |s| - i
  {
    if k == 0 {
      o := i;
    } else {
      o := TokenOffset(s, delim, IndexOf(s, delim, i) + 1, k - 1);
    }
  }

  /** src/utils/c/path_utils.c:39-53. The out-parameters are meaningless when
      there is no next token; the code leaves them alone then. */
  method NextToken(m: seq<char>, cursor: nat, delim: char)
    returns (next: Option<nat>, token: nat, tokenLen: nat)
    requires Terminated(m, cursor) && delim != NUL
    ensures next.None? <==> m[cursor] == NUL
    ensures next.Some? ==>
      && token == cursor && token + tokenLen < |m|
      && (forall i :: token <= i < token + tokenLen ==> m[i] != delim && m[i] != NUL)
      && (m[token + tokenLen] == delim || m[token + tokenLen] == NUL)
      && next.value == token + tokenLen + (if m[token + tokenLen] == delim then 1 else 0)
  {
    token, tokenLen := 0, 0;
    if m[cursor] == NUL {
      return None, token, tokenLen;
    }
    token := cursor;
    var tokenEnd := token;
    ghost var end := IndexOf(m, NUL, cursor);
    while m[tokenEnd] != delim && m[tokenEnd] != NUL
      invariant cursor <= tokenEnd <= end
      invariant forall i :: cursor <= i < tokenEnd ==> m[i] != delim
      decreases end - tokenEnd
    {
      tokenEnd := tokenEnd + 1;
    }
    tokenLen := tokenEnd - token;
    next := Some(if m[tokenEnd] == delim then tokenEnd + 1 else tokenEnd);
  }

  /** What a call of next_token finds inside the C string at the front of m:
      the entry at its cursor, and the start of the next one. */
  lemma TokenInString(m: seq<char>, cursor: nat, len: nat, delim: char)
    requires Terminated(m, 0) && delim != NUL && cursor <= |CStr(m, 0)| && cursor + len < |m|
    requires forall i :: cursor <= i < cursor + len ==> m[i] != delim && m[i] != NUL
    requires m[cursor + len] == delim || m[cursor + len] == NUL
    ensures var s := CStr(m, 0);
      && IndexOf(s, delim, cursor) == cursor + len
      && (cursor + len < |s| <==> m[cursor + len] == delim)
      && NextAfter(s, delim, cursor) == cursor + len + (if m[cursor + len] == delim then 1 else 0)
      && EntryAt(s, delim, cursor) == m[cursor..cursor + len]
  {
    var s := CStr(m, 0);
    assert forall i :: 0 <= i < |s| ==> s[i] == m[i] && s[i] in s;
    assert cursor + len <= |s|;
    assert IndexOf(s, delim, cursor) == cursor + len;
  }

  /** Some tokens, and those from the offset o on. */
  ghost function WithRest(toks: seq<string>, s: string, delim: char, o: nat): seq<string>
    requires o <= |s|
  {
    toks + TokensFrom(s, delim, o)
  }

  lemma RestNext(toks: seq<string>, s: string, delim: char, o: nat)
    requires o < |s|
    ensures WithRest(toks + [EntryAt(s, delim, o)], s, delim, NextAfter(s, delim, o))
      == WithRest(toks, s, delim, o)
  {
  }

  /** The loop of next_token's callers: call it until there is no next token. */
  method Collect(m: seq<char>, delim: char) returns (toks: seq<string>)
    requires Terminated(m, 0) && delim != NUL
    ensures toks == Tokens(CStr(m, 0), delim)
  {
    toks := [];
    var cursor := 0;
    ghost var s := CStr(m, 0);
    while true
      invariant cursor <= |s| && WithRest(toks, s, delim, cursor) == Tokens(s, delim)
      decreases |s| - cursor
    {
      StringBytes(m, cursor);
      var next, token, tokenLen := NextToken(m, cursor, delim);
      if next.None? {
        break;
      }
      TokenInString(m, cursor, tokenLen, delim);
      RestNext(toks, s, delim, cursor);
      toks := toks + [m[token..token + tokenLen]];
      cursor := next.value;
    }
  }
}
