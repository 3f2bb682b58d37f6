/** The C memory the audit library works on. A byte is a char: the code only
    compares bytes for equality. A buffer that is written is an array; a string
    that is only read is a sequence of bytes and an offset into it. */
module Memory {

  const NUL: char := '\0'

  /** The first offset at or after i that holds c, or the end. */
  function IndexOf(s: seq<char>, c: char, i: nat): (k: nat)
    requires i <= |s|
    ensures i <= k <= |s|
    ensures forall j :: i <= j < k ==> s[j] != c
    ensures k < |s| ==> s[k] == c
    decreases |s| - i
  {
    if i == |s| || s[i] == c then i else IndexOf(s, c, i + 1)
  }

  /** A NUL lies at or after offset o, so the bytes at o are a C string. */
  predicate Terminated(m: seq<char>, o: nat) {
    o <= |m| && IndexOf(m, NUL, o) < |m|
  }

  /** The C string at offset o, without its terminator. */
  function CStr(m: seq<char>, o: nat): (s: string)
    requires Terminated(m, o)
    ensures o + |s| < |m| && s == m[o..o + |s|]
    ensures m[o + |s|] == NUL && NUL !in s
  {
    m[o..IndexOf(m, NUL, o)]
  }

  /** A cleared buffer that s was written to: s, then NULs to the end. */
  predicate Holds(m: seq<char>, s: string) {
    && |s| <= |m|
    && (forall i :: 0 <= i < |s| ==> m[i] == s[i])
    && (forall i :: |s| <= i < |m| ==> m[i] == NUL)
  }

  lemma HoldsString(m: seq<char>, s: string)
    requires Holds(m, s) && |s| < |m| && NUL !in s
    ensures Terminated(m, 0) && CStr(m, 0) == s
  {
    CStrIs(m, 0, |s|);
  }

  /** The C string at an offset is the only NUL-free run of bytes that starts
      there and is followed by a NUL. */
  lemma CStrIs(m: seq<char>, o: nat, n: nat)
    requires o + n < |m| && m[o + n] == NUL && forall i :: o <= i < o + n ==> m[i] != NUL
    ensures Terminated(m, o) && CStr(m, o) == m[o..o + n]
  {
    assert IndexOf(m, NUL, o) == o + n;
  }

  lemma CStrTail(m: seq<char>, o: nat, k: nat)
    requires Terminated(m, o) && k <= |CStr(m, o)|
    ensures Terminated(m, o + k) && CStr(m, o + k) == CStr(m, o)[k..]
  {
    CStrIs(m, o + k, |CStr(m, o)| - k);
  }

  /** Every offset within a C string is the start of one, and its terminator
      is the one that ends it. */
  lemma StringBytes(m: seq<char>, cursor: nat)
    requires Terminated(m, 0) && cursor <= |CStr(m, 0)|
    ensures Terminated(m, cursor) && (m[cursor] == NUL <==> cursor == |CStr(m, 0)|)
  {
    CStrTail(m, 0, cursor);
    assert cursor < |CStr(m, 0)| ==> m[cursor] == CStr(m, 0)[cursor];
  }

  /** memcmp(m + at, bytes, |bytes|) == 0 */
  predicate BytesAt(m: seq<char>, at: nat, bytes: string) {
    at + |bytes| <= |m| && m[at..at + |bytes|] == bytes
  }

  /** memset(a + at, 0, n) */
  method Memset(a: array<char>, at: nat, n: nat)
    requires at + n <= a.Length
    modifies a
    ensures forall i :: 0 <= i < a.Length ==> a[i] == if at <= i < at + n then NUL else old(a[i])
  {
    forall i | at <= i < at + n {
      a[i] := NUL;
    }
  }

  /** memmove(a + dst, a + src, n): the two ranges may overlap. */
  method Memmove(a: array<char>, dst: nat, src: nat, n: nat)
    requires dst + n <= a.Length && src + n <= a.Length
    modifies a
    ensures forall i :: 0 <= i < a.Length ==>
      a[i] == if dst <= i < dst + n then old(a[i - dst + src]) else old(a[i])
  {
    forall i | 0 <= i < n {
      a[dst + i] := a[src + i];
    }
  }

  /** memcpy(a + at, bytes, n), for bytes held outside a. */
  method Memcpy(a: array<char>, at: nat, bytes: seq<char>)
    requires at + |bytes| <= a.Length
    modifies a
    ensures forall i :: 0 <= i < a.Length ==>
      a[i] == if at <= i < at + |bytes| then bytes[i - at] else old(a[i])
  {
    forall i | 0 <= i < |bytes| {
      a[at + i] := bytes[i];
    }
  }
}
