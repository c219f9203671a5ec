/** C strings in fixed buffers: their length, and cutting them. */
module CStrings {
  import opened Bytes

  /** The bytes of a C string in a buffer. */
  function CString(b: seq<Byte>): (s: seq<Byte>)
    ensures |s| <= |b| && 0 !in s && s == b[..|s|] && (|s| < |b| ==> b[|s|] == 0)
  {
    if |b| == 0 then [] else if b[0] == 0 then [] else [b[0]] + CString(b[1..])
  }

  lemma {:induction false} CStringIs(b: seq<Byte>, n: nat)
    requires n < |b| && b[n] == 0 && 0 !in b[..n]
    ensures CString(b) == b[..n]
  {
    if n > 0 {
      assert b[..n][0] == b[0] && b[0] in b[..n];
      assert b[1..][..n - 1] == b[..n][1..];
      CStringIs(b[1..], n - 1);
    }
  }

  /** strlen, in a buffer that holds a terminator. */
  method StrLen(buf: array<Byte>) returns (n: nat)
    requires |CString(buf[..])| < buf.Length
    ensures n == |CString(buf[..])|
  {
    n := 0;
    while buf[n] != 0
      invariant n <= |CString(buf[..])|
      decreases buf.Length - n
    {
      n := n + 1;
    }
  }

  /** Writing a terminator. */
  method CutAt(buf: array<Byte>, n: nat)
    requires n <= |CString(buf[..])| < buf.Length
    modifies buf
    ensures CString(buf[..]) == old(CString(buf[..]))[..n]
  {
    ghost var before := buf[..];
    buf[n] := 0;
    assert buf[..n] == before[..n];
    CStringIs(buf[..], n);
  }
}
