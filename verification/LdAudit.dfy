/** Editing LD_AUDIT in place (src/rtld-audit/audit.c): the audit library takes
    its own entry out, so that the search helper runs without it. */
module LdAudit {
  import opened Wrappers
  import opened Memory
  import opened Tokenizer
  import opened PathUtils

  /** The length of the C string at cursor. */
  function TrailingLen(m: seq<char>, cursor: nat): nat
    requires Terminated(m, cursor)
  {
    IndexOf(m, NUL, cursor) - cursor
  }

  /** The buffer after the bytes from token to cursor are cut out: the rest of
      the string moves up, and the room it leaves is cleared. */
  function Cut(m: seq<char>, token: nat, cursor: nat): (r: seq<char>)
    requires token <= cursor && Terminated(m, cursor)
    ensures |r| == |m|
  {
    var len := TrailingLen(m, cursor);
    seq(|m|, i requires 0 <= i < |m| =>
      if i < token then m[i]
      else if i < token + len then m[i - token + cursor]
      else if i < cursor + len then NUL
      else m[i])
  }

  /** The buffer after slot is put back before the trailing bytes at token. */
  function PutBack(m: seq<char>, token: nat, slot: seq<char>, trailingLen: nat): (r: seq<char>)
    requires token + |slot| + trailingLen <= |m|
    ensures |r| == |m|
  {
    seq(|m|, i requires 0 <= i < |m| =>
      if i < token then m[i]
      else if i < token + |slot| then slot[i - token]
      else if i < token + |slot| + trailingLen then m[i - |slot|]
      else m[i])
  }

  function Nuls(n: nat): (s: seq<char>)
    ensures |s| == n && forall i :: 0 <= i < n ==> s[i] == NUL
  {
    seq(n, i => NUL)
  }

  /** The edited buffer in its parts: the bytes before the slot, those after it
      up to the terminator, zeros in place of the slot's length, and the rest. */
  lemma CutParts(m: seq<char>, token: nat, cursor: nat)
    requires token <= cursor && Terminated(m, cursor)
    ensures var tail := CStr(m, cursor);
      Cut(m, token, cursor)
        == m[..token] + tail + Nuls(cursor - token) + m[cursor + |tail|..]
  {
    var tail := CStr(m, cursor);
    var parts := m[..token] + tail + Nuls(cursor - token) + m[cursor + |tail|..];
    assert |parts| == |m|;
    assert forall i :: 0 <= i < |m| ==> Cut(m, token, cursor)[i] == parts[i];
  }

  /** The restored buffer in its parts. */
  lemma PutBackParts(m: seq<char>, token: nat, slot: seq<char>, trailingLen: nat)
    requires token + |slot| + trailingLen <= |m|
    ensures PutBack(m, token, slot, trailingLen)
      == m[..token] + slot + m[token..token + trailingLen] + m[token + |slot| + trailingLen..]
  {
    var parts := m[..token] + slot + m[token..token + trailingLen] + m[token + |slot| + trailingLen..];
    assert |parts| == |m|;
    assert forall i :: 0 <= i < |m| ==> PutBack(m, token, slot, trailingLen)[i] == parts[i];
  }

  /** Putting the slot back undoes the cut, on every byte of the buffer. */
  lemma CutThenPutBack(m: seq<char>, token: nat, cursor: nat)
    requires token <= cursor && Terminated(m, cursor)
    ensures PutBack(Cut(m, token, cursor), token, m[token..cursor], TrailingLen(m, cursor)) == m
  {
    var r := PutBack(Cut(m, token, cursor), token, m[token..cursor], TrailingLen(m, cursor));
    assert forall i :: 0 <= i < |m| ==> r[i] == m[i];
  }

  /** What the cut leaves is the string without those bytes, and it stays
      terminated. */
  lemma CutString(m: seq<char>, token: nat, cursor: nat)
    requires Terminated(m, 0) && token < cursor <= |CStr(m, 0)|
    ensures Terminated(m, cursor) && Terminated(Cut(m, token, cursor), 0)
    ensures CStr(Cut(m, token, cursor), 0) == CStr(m, 0)[..token] + CStr(m, 0)[cursor..]
  {
    var s, r := CStr(m, 0), Cut(m, token, cursor);
    var n := |s| - (cursor - token);
    CutBytes(m, token, cursor);
    assert forall i :: 0 <= i < token ==> r[i] in s;
    assert forall i :: token <= i < n ==> r[i] in s;
    CStrIs(r, 0, n);
    assert r[0..n] == s[..token] + s[cursor..];
  }

  lemma CutBytes(m: seq<char>, token: nat, cursor: nat)
    requires Terminated(m, 0) && token < cursor <= |CStr(m, 0)|
    ensures Terminated(m, cursor)
    ensures var s, r := CStr(m, 0), Cut(m, token, cursor);
      var n := |s| - (cursor - token);
      && (forall i :: 0 <= i < token ==> r[i] == s[i])
      && (forall i :: token <= i < n ==> r[i] == s[i - token + cursor])
      && r[n] == NUL
  {
    StringBytes(m, cursor);
    assert IndexOf(m, NUL, cursor) == |CStr(m, 0)|;
  }

  /** The entry that starts at o has the given filename. */
  predicate Matches(s: string, fname: string, o: nat) {
    StartsAt(s, ':', o) && Filename(EntryAt(s, ':', o)) == fname
  }

  /** Where the first such entry from o on starts. */
  function FirstMatch(s: string, fname: string, o: nat): (r: Option<nat>)
    requires o <= |s|
    ensures r.None? ==> forall k :: o <= k < |s| ==> !Matches(s, fname, k)
    ensures r.Some? ==> o <= r.value && Matches(s, fname, r.value)
    ensures r.Some? ==> forall k :: o <= k < r.value ==> !Matches(s, fname, k)
    decreases |s| - o
  {
    if o == |s| then None else if Matches(s, fname, o) then Some(o) else FirstMatch(s, fname, o + 1)
  }

  /** LD_AUDIT after sanitize_ld_audit, for a library with this filename. */
  function Sanitized(m: seq<char>, fname: string): (r: seq<char>)
    requires Terminated(m, 0)
    ensures |r| == |m|
  {
    var s := CStr(m, 0);
    if fname == [] then m
    else match FirstMatch(s, fname, 0)
      case None => m
      case Some(o) =>
        StringBytes(m, NextAfter(s, ':', o));
        Cut(m, o, NextAfter(s, ':', o))
  }

  /** The entry of index k is the first with the given filename. */
  ghost predicate FirstEntry(toks: seq<string>, fname: string, k: nat) {
    && k < |toks| && Filename(toks[k]) == fname
    && forall i :: 0 <= i < k ==> Filename(toks[i]) != fname
  }

  ghost predicate NoEntry(toks: seq<string>, fname: string) {
    forall i :: 0 <= i < |toks| ==> Filename(toks[i]) != fname
  }

  /** No matching offset means no matching token. */
  lemma NoMatchNoEntry(s: string, fname: string)
    requires forall k :: 0 <= k < |s| ==> !Matches(s, fname, k)
    ensures NoEntry(Tokens(s, ':'), fname)
  {
    forall i | 0 <= i < |Tokens(s, ':')|
      ensures Filename(Tokens(s, ':')[i]) != fname
    {
      var o := TokenOffset(s, ':', 0, i);
      assert !Matches(s, fname, o);
    }
  }

  /** The part of a string before an entry has only entries of the string. */
  lemma NoMatchBefore(s: string, fname: string, o: nat)
    requires StartsAt(s, ':', o) && forall k :: 0 <= k < o ==> !Matches(s, fname, k)
    ensures NoEntry(Tokens(s[..o], ':'), fname)
  {
    var a := s[..o];
    forall k | 0 <= k < |a|
      ensures !Matches(a, fname, k)
    {
      if StartsAt(a, ':', k) {
        SameEntry(s, o, k);
        assert StartsAt(s, ':', k) && !Matches(s, fname, k);
      }
    }
    NoMatchNoEntry(a, fname);
  }

  lemma SameEntry(s: string, o: nat, k: nat)
    requires StartsAt(s, ':', o) && k < o
    ensures EntryAt(s[..o], ':', k) == EntryAt(s, ':', k)
  {
    assert s[..o] + s[o..] == s;
    assert s[..o][o - 1] == ':';
    IndexOfPrefix(s[..o], s[o..], ':', k);
  }

  /** The matching offset cuts the token list around the first matching entry. */
  lemma EntriesAround(s: string, fname: string, o: nat)
    returns (before: seq<string>, entry: string, after: seq<string>)
    requires FirstMatch(s, fname, 0) == Some(o)
    ensures Tokens(s, ':') == before + ([entry] + after)
    ensures NoEntry(before, fname) && Filename(entry) == fname
    ensures Tokens(s[..o] + s[NextAfter(s, ':', o)..], ':') == before + after
  {
    var next := NextAfter(s, ':', o);
    before, entry, after := Tokens(s[..o], ':'), EntryAt(s, ':', o), Tokens(s[next..], ':');
    TokensAround(s, ':', o);
    NoMatchBefore(s, fname, o);
    TokensConcat(s[..o], s[next..], ':');
  }

  /** What is left when the first matching entry is taken out. */
  lemma TakenOut(toks: seq<string>, before: seq<string>, entry: string, after: seq<string>,
                 fname: string, k: nat)
    requires toks == before + ([entry] + after) && NoEntry(before, fname) && Filename(entry) == fname
    requires FirstEntry(toks, fname, k)
    ensures before + after == toks[..k] + toks[k + 1..]
  {
    assert toks[|before|] == entry;
    assert forall i :: 0 <= i < |before| ==> toks[i] == before[i];
    assert toks[..k] == before && toks[k + 1..] == after;
  }

  /** Sanitising removes exactly the first entry with the library's own
      filename; every other entry stays, in order. */
  lemma SanitizeRemovesOne(m: seq<char>, fname: string, k: nat)
    requires Terminated(m, 0) && fname != []
    requires FirstEntry(Tokens(CStr(m, 0), ':'), fname, k)
    ensures var toks := Tokens(CStr(m, 0), ':');
      && Terminated(Sanitized(m, fname), 0)
      && Tokens(CStr(Sanitized(m, fname), 0), ':') == toks[..k] + toks[k + 1..]
      && Sanitized(m, fname) != m
  {
    var s := CStr(m, 0);
    if FirstMatch(s, fname, 0).None? {
      NoMatchNoEntry(s, fname);
    } else {
      var o := FirstMatch(s, fname, 0).value;
      var before, entry, after := EntriesAround(s, fname, o);
      TakenOut(Tokens(s, ':'), before, entry, after, fname, k);
      CutString(m, o, NextAfter(s, ':', o));
      assert |CStr(Sanitized(m, fname), 0)| < |s|;
    }
  }

  /** Sanitising leaves LD_AUDIT alone exactly when no entry names the library,
      or the library has no name. */
  lemma SanitizeUnchanged(m: seq<char>, fname: string)
    requires Terminated(m, 0)
    ensures Sanitized(m, fname) == m <==> fname == [] || NoEntry(Tokens(CStr(m, 0), ':'), fname)
  {
    var s := CStr(m, 0);
    if fname != [] && FirstMatch(s, fname, 0).None? {
      NoMatchNoEntry(s, fname);
    } else if fname != [] {
      var o := FirstMatch(s, fname, 0).value;
      var before, entry, after := EntriesAround(s, fname, o);
      assert Tokens(s, ':')[|before|] == entry;
      CutString(m, o, NextAfter(s, ':', o));
      assert |CStr(Sanitized(m, fname), 0)| < |s|;
    }
  }

  /** The entry to cut fits the backup; the code does not check it. */
  ghost predicate SlotFits(m: seq<char>, fname: string, pathMax: nat)
    requires Terminated(m, 0)
  {
    var s := CStr(m, 0);
    FirstMatch(s, fname, 0).Some? ==>
      var o := FirstMatch(s, fname, 0).value;
      NextAfter(s, ':', o) - o <= pathMax
  }

  /** src/rtld-audit/audit.c:41-46. The slot pointer is an offset into the
      LD_AUDIT buffer; data has PATH_MAX bytes. */
  class LdAuditBackup {
    const data: array<char>
    var slot: Option<nat>
    var slotLen: nat
    var trailingLen: nat

    constructor (pathMax: nat)
      ensures slot.None? && data.Length == pathMax && fresh(data)
    {
      data := new char[pathMax](_ => NUL);
      slot, slotLen, trailingLen := None, 0, 0;
    }

    /** src/rtld-audit/audit.c:98-110: back the slot up and cut it out. */
    method CutSlot(ldAudit: array<char>, token: nat, cursor: nat)
      requires token <= cursor && Terminated(ldAudit[..], cursor)
      requires cursor - token <= data.Length && data != ldAudit
      modifies this, data, ldAudit
      ensures slot == Some(token) && slotLen == cursor - token
      ensures trailingLen == TrailingLen(old(ldAudit[..]), cursor)
      ensures data[..slotLen] == old(ldAudit[token..cursor])
      ensures forall i :: slotLen <= i < data.Length ==> data[i] == NUL
      ensures ldAudit[..] == Cut(old(ldAudit[..]), token, cursor)
    {
      slotLen := cursor - token;
      slot := Some(token);
      BackUp(data, ldAudit[token..cursor]);
      trailingLen := TrailingLen(ldAudit[..], cursor);
      MoveUp(ldAudit, token, cursor, trailingLen);
    }

    /** src/rtld-audit/audit.c:119-139 */
    method Restore(ldAudit: array<char>)
      requires slot.Some? ==>
        slotLen <= data.Length && slot.value + slotLen + trailingLen <= ldAudit.Length
      requires data != ldAudit
      modifies this, data, ldAudit
      ensures old(slot).None? ==> unchanged(this) && unchanged(data) && unchanged(ldAudit)
      ensures old(slot).Some? ==>
        && slot.None? && slotLen == 0 && trailingLen == 0 && Holds(data[..], [])
        && ldAudit[..]
           == PutBack(old(ldAudit[..]), old(slot).value, old(data[..slotLen]), old(trailingLen))
    {
      if slot.None? {
        return;
      }
      PutSlotBack(ldAudit, slot.value, data[..slotLen], trailingLen);
      Memset(data, 0, data.Length);
      slot, slotLen, trailingLen := None, 0, 0;
    }

    /** src/rtld-audit/audit.c:48-117. ldAudit is null when the variable is
        unset, selfPath when the library cannot find its own path. The slot is
        cleared at the end, after the break as well as without it. */
    method Sanitize(ldAudit: array?<char>, selfPath: Option<seq<char>>)
      requires ldAudit != null ==> Terminated(ldAudit[..], 0) && data != ldAudit
      requires selfPath.Some? ==> Terminated(selfPath.value, 0)
      requires ldAudit != null && selfPath.Some? ==>
        SlotFits(ldAudit[..], Filename(CStr(selfPath.value, 0)), data.Length)
      modifies this, data, ldAudit
      ensures old(slot).Some? ==> unchanged(this)
      ensures old(slot).None? ==> slot.None?
      ensures ldAudit != null && (old(slot).Some? || selfPath.None?) ==> ldAudit[..] == old(ldAudit[..])
      ensures ldAudit != null && old(slot).None? && selfPath.Some? ==>
        ldAudit[..] == Sanitized(old(ldAudit[..]), Filename(CStr(selfPath.value, 0)))
    {
      if slot.Some? {
        return;
      }
      if ldAudit == null {
        slot := None;
        return;
      }
      if selfPath.None? {
        slot := None;
        return;
      }
      var selfFname, selfFnameLen := PathFilename2(selfPath.value);
      if selfFnameLen <= 0 {
        slot := None;
        return;
      }
      CutOwnEntry(ldAudit, selfPath.value[selfFname..selfFname + selfFnameLen]);
      slot := None;
    }

    /** The loop over the entries, src/rtld-audit/audit.c:83-113. */
    method CutOwnEntry(ldAudit: array<char>, selfFname: string)
      requires Terminated(ldAudit[..], 0) && data != ldAudit && selfFname != []
      requires SlotFits(ldAudit[..], selfFname, data.Length)
      modifies this, data, ldAudit
      ensures ldAudit[..] == Sanitized(old(ldAudit[..]), selfFname)
    {
      var m := ldAudit[..];
      var cursor := 0;
      while true
        invariant ldAudit[..] == m && Visited(CStr(m, 0), selfFname, cursor)
        decreases |m| - cursor
      {
        var next, token, own := VisitEntry(m, cursor, selfFname);
        if next.None? {
          break;
        }
        cursor := next.value;
        if own {
          MatchFound(m, selfFname, token, cursor);
          CutSlot(ldAudit, token, cursor);
          return;
        }
      }
      NoMatchFound(m, selfFname);
    }
  }

  /** One round: the next entry, and whether it is the library's own. */
  method VisitEntry(m: seq<char>, cursor: nat, selfFname: string)
    returns (next: Option<nat>, token: nat, own: bool)
    requires Terminated(m, 0) && Visited(CStr(m, 0), selfFname, cursor)
    ensures next.None? ==> cursor == |CStr(m, 0)|
    ensures next.Some? ==> token == cursor < next.value == NextAfter(CStr(m, 0), ':', cursor)
    ensures next.Some? && own ==>
      Visited(CStr(m, 0), selfFname, token) && Matches(CStr(m, 0), selfFname, token)
    ensures next.Some? && !own ==> Visited(CStr(m, 0), selfFname, next.value)
  {
    StringBytes(m, cursor);
    var tokenLen;
    next, token, tokenLen := NextToken(m, cursor, ':');
    if next.None? {
      return next, token, false;
    }
    own := IsOwnEntry(m, token, tokenLen, selfFname);
    VisitRound(m, cursor, tokenLen, next.value, selfFname, own);
  }

  /** The comparison of filenames, src/rtld-audit/audit.c:89-97; an entry shorter
      than the filename is not looked at. */
  method IsOwnEntry(m: seq<char>, token: nat, tokenLen: nat, selfFname: string) returns (own: bool)
    requires token + tokenLen <= |m|
    ensures own <==> Filename(m[token..token + tokenLen]) == selfFname
  {
    if tokenLen < |selfFname| {
      return false;
    }
    var tokenFname := PathFilename(m, token, tokenLen);
    var tokenFnameLen := tokenLen - (tokenFname - token);
    return tokenFnameLen == |selfFname| && BytesAt(m, tokenFname, selfFname);
  }

  /** src/rtld-audit/audit.c:103-104 */
  method BackUp(data: array<char>, bytes: seq<char>)
    requires |bytes| <= data.Length
    modifies data
    ensures data[..|bytes|] == bytes
    ensures forall i :: |bytes| <= i < data.Length ==> data[i] == NUL
  {
    Memcpy(data, 0, bytes);
    Memset(data, |bytes|, data.Length - |bytes|);
  }

  /** src/rtld-audit/audit.c:106-110 */
  method MoveUp(a: array<char>, token: nat, cursor: nat, trailingLen: nat)
    requires token <= cursor && Terminated(a[..], cursor) && trailingLen == TrailingLen(a[..], cursor)
    modifies a
    ensures a[..] == Cut(old(a[..]), token, cursor)
  {
    ghost var m0 := a[..];
    Memmove(a, token, cursor, trailingLen);
    ghost var m1 := a[..];
    Memset(a, token + trailingLen, cursor - token);
    MovesCut(m0, m1, a[..], token, cursor, trailingLen);
  }

  /** src/rtld-audit/audit.c:133-135 */
  method PutSlotBack(a: array<char>, token: nat, slot: seq<char>, trailingLen: nat)
    requires token + |slot| + trailingLen <= a.Length
    modifies a
    ensures a[..] == PutBack(old(a[..]), token, slot, trailingLen)
  {
    Memmove(a, token + |slot|, token, trailingLen);
    Memcpy(a, token, slot);
  }

  lemma MovesCut(m0: seq<char>, m1: seq<char>, m2: seq<char>, token: nat, cursor: nat, len: nat)
    requires |m0| == |m1| == |m2| && token <= cursor
    requires Terminated(m0, cursor) && len == TrailingLen(m0, cursor)
    requires forall i :: token <= i < token + len ==> m1[i] == m0[i - token + cursor]
    requires forall i :: 0 <= i < |m0| && (i < token || token + len <= i) ==> m1[i] == m0[i]
    requires forall i :: token + len <= i < cursor + len ==> m2[i] == NUL
    requires forall i :: 0 <= i < |m0| && (i < token + len || cursor + len <= i) ==> m2[i] == m1[i]
    ensures m2 == Cut(m0, token, cursor)
  {
    var r := Cut(m0, token, cursor);
    assert forall i :: 0 <= i < |m0| ==> m2[i] == r[i];
  }

  /** cursor is at an entry or at the end, and no entry before it matches. */
  ghost predicate Visited(s: string, fname: string, cursor: nat) {
    && cursor <= |s| && (cursor == |s| || cursor == 0 || s[cursor - 1] == ':')
    && forall k :: 0 <= k < cursor ==> !Matches(s, fname, k)
  }

  lemma VisitRound(m: seq<char>, cursor: nat, len: nat, next: nat, fname: string, own: bool)
    requires Terminated(m, 0) && cursor < |CStr(m, 0)| && cursor + len < |m|
    requires Visited(CStr(m, 0), fname, cursor)
    requires forall i :: cursor <= i < cursor + len ==> m[i] != ':' && m[i] != NUL
    requires m[cursor + len] == ':' || m[cursor + len] == NUL
    requires next == cursor + len + (if m[cursor + len] == ':' then 1 else 0)
    requires own <==> Filename(m[cursor..cursor + len]) == fname
    ensures cursor < next <= |CStr(m, 0)| && next == NextAfter(CStr(m, 0), ':', cursor)
    ensures own ==> Matches(CStr(m, 0), fname, cursor)
    ensures !own ==> Visited(CStr(m, 0), fname, next)
  {
    var s := CStr(m, 0);
    TokenInString(m, cursor, len, ':');
    forall k | cursor < k < next
      ensures !StartsAt(s, ':', k)
    {
      assert s[k - 1] != ':';
    }
  }

  lemma MatchFound(m: seq<char>, fname: string, o: nat, next: nat)
    requires Terminated(m, 0) && fname != [] && Visited(CStr(m, 0), fname, o)
    requires Matches(CStr(m, 0), fname, o) && next == NextAfter(CStr(m, 0), ':', o)
    ensures Terminated(m, next) && Sanitized(m, fname) == Cut(m, o, next)
    ensures forall pathMax: nat :: SlotFits(m, fname, pathMax) ==> next - o <= pathMax
  {
    StringBytes(m, next);
    assert FirstMatch(CStr(m, 0), fname, 0) == Some(o);
  }

  lemma NoMatchFound(m: seq<char>, fname: string)
    requires Terminated(m, 0) && Visited(CStr(m, 0), fname, |CStr(m, 0)|)
    ensures Sanitized(m, fname) == m
  {
  }
}
