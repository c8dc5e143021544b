/** Bytes, C strings and byte buffers. */
module Bytes {
  type byte = x: int | 0 <= x < 256

  // Largest packet; the buffer models carry one more byte, which the name reader may look at.
  const MAX_PACKET := 1460
  const BUFFER := MAX_PACKET + 1

  function Lower(b: byte): byte
  {
    if 65 <= b <= 90 then b + 32 else b
  }

  // Equal up to the case of ASCII letters.
  predicate SameText(a: seq<byte>, b: seq<byte>)
  {
    |a| == |b| && forall i :: 0 <= i < |a| ==> Lower(a[i]) == Lower(b[i])
  }

  // The C string that starts a buffer: what stands before the first zero byte.
  function CString(s: seq<byte>): (r: seq<byte>)
    ensures |r| <= |s| && r == s[..|r|] && 0 !in r
    ensures |r| < |s| ==> s[|r|] == 0
  {
    if s == [] || s[0] == 0 then [] else [s[0]] + CString(s[1..])
  }

  lemma CStringIs(s: seq<byte>)
    requires 0 !in s
    ensures CString(s) == s
  {
    forall i | 0 <= i < |s| ensures s[i] != 0 {
      assert s[i] in s;
    }
  }

  // The buffer with the given bytes written at an offset.
  function Put(buf: seq<byte>, at: nat, bytes: seq<byte>): (r: seq<byte>)
    requires at + |bytes| <= |buf|
    ensures |r| == |buf|
  {
    buf[..at] + bytes + buf[at + |bytes|..]
  }

  lemma PutKeeps(buf: seq<byte>, at: nat, bytes: seq<byte>)
    requires at + |bytes| <= |buf|
    ensures Put(buf, at, bytes)[..at] == buf[..at]
    ensures Put(buf, at, bytes)[at..at + |bytes|] == bytes
    ensures Put(buf, at, bytes)[at + |bytes|..] == buf[at + |bytes|..]
  {
  }

  lemma PutBelow(buf: seq<byte>, at: nat, bytes: seq<byte>, n: nat)
    requires n <= at && at + |bytes| <= |buf|
    ensures Put(buf, at, bytes)[..n] == buf[..n]
  {
  }

  lemma PutTwice(buf: seq<byte>, at: nat, a: seq<byte>, b: seq<byte>)
    requires at + |a| + |b| <= |buf|
    ensures Put(Put(buf, at, a), at + |a|, b) == Put(buf, at, a + b)
  {
  }
}
