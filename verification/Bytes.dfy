/** Bytes, C strings, big-endian integers and the leaf encoders of the canonical hash. */
module Bytes {

  type Byte = x: int | 0 <= x < 256

  /** The bytes of a C string: everything before the terminating NUL. */
  type Str = s: seq<Byte> | 0 !in s

  datatype Option<+T> = None | Some(value: T)

  const DOT: Byte := 46

  const SHA256_HASH_LEN: nat := 32

  /** The size of the buffers strings are read into, terminator included. */
  const DEFAULT_DECODE_BUFFER_SIZE: nat := 64

  predicate IsHash(h: seq<Byte>) { |h| == 32 }

  function ZeroHash(b: seq<Byte>): seq<Byte> { seq(32, _ => 0) }

  /** SHA-256 is any function to 32 bytes. */
  type Sha256 = h: seq<Byte> -> seq<Byte> | forall b :: IsHash(h(b)) witness ZeroHash

  // ------------------------------------------------------------------ integers


  const WIDTH_32: nat := 4
  const WIDTH_64: nat := 8

  /** The n least significant bytes of v, most significant first. */
  function BigEndian(v: nat, n: nat): (b: seq<Byte>)
    ensures |b| == n
  {
    if n == 0 then [] else BigEndian(v / 256, n - 1) + [v % 256]
  }

  function FromBigEndian(b: seq<Byte>): nat
  {
    if |b| == 0 then 0
    else
      var last: int := b[|b| - 1];
      FromBigEndian(b[..|b| - 1]) * 256 + last
  }

  /** v needs no more than n bytes. */
  predicate FitsBytes(v: nat, n: nat) { if n == 0 then v == 0 else FitsBytes(v / 256, n - 1) }

  /** The casts to uint32 and uint64; the identity on values that fit. */
  function Wrap32(v: int): nat { if 0 <= v < 0x1_0000_0000 then v else v % 0x1_0000_0000 }
  function Wrap64(v: int): nat { if 0 <= v < 0x1_0000_0000_0000_0000 then v else v % 0x1_0000_0000_0000_0000 }

  /** Four bytes, most significant first; a negative int32 goes through its uint32 cast. */
  function U32(v: int): (b: seq<Byte>)
    ensures |b| == 4
  {
    BigEndian(Wrap32(v), WIDTH_32)
  }

  function U64(v: int): (b: seq<Byte>)
    ensures |b| == 8
  {
    BigEndian(Wrap64(v), WIDTH_64)
  }

  lemma {:induction false} BigEndianInverse(v: nat, n: nat)
    requires FitsBytes(v, n)
    ensures FromBigEndian(BigEndian(v, n)) == v
  {
    if n > 0 {
      BigEndianInverse(v / 256, n - 1);
      assert BigEndian(v, n)[..n - 1] == BigEndian(v / 256, n - 1);
    }
  }

  lemma WordsFit(v: int)
    ensures FitsBytes(Wrap32(v), WIDTH_32)
    ensures FitsBytes(Wrap64(v), WIDTH_64)
  {
    assert FitsBytes(0, 0);
    forall u: nat, n: nat | n > 0 && FitsBytes(u / 256, n - 1)
      ensures FitsBytes(u, n)
    {
    }
    var a := Wrap32(v);
    var b := Wrap64(v);
    assert FitsBytes(a / 256 / 256 / 256, 1) && FitsBytes(a / 256 / 256, 2) && FitsBytes(a / 256, 3);
    var c := b / 256 / 256 / 256 / 256;
    assert FitsBytes(c / 256 / 256 / 256, 1) && FitsBytes(c / 256 / 256, 2) && FitsBytes(c / 256, 3);
    assert FitsBytes(c, 4) && FitsBytes(b / 256 / 256 / 256, 5) && FitsBytes(b / 256 / 256, 6) && FitsBytes(b / 256, 7);
  }

  /** Reading a word back yields it modulo its width. */
  lemma WordInverse(v: int)
    ensures FromBigEndian(U32(v)) == Wrap32(v)
    ensures FromBigEndian(U64(v)) == Wrap64(v)
  {
    WordsFit(v);
    BigEndianInverse(Wrap32(v), WIDTH_32);
    BigEndianInverse(Wrap64(v), WIDTH_64);
  }

  /** The bytes of a word, by shifts. */
  lemma WordBytes(v: int)
    ensures var u := Wrap32(v); U32(v) == [u / 0x100_0000 % 256, u / 0x1_0000 % 256, u / 0x100 % 256, u % 256]
  {
    FourBytes(Wrap32(v));
  }

  lemma FourBytes(u: nat)
    ensures BigEndian(u, 4) == [u / 0x100_0000 % 256, u / 0x1_0000 % 256, u / 0x100 % 256, u % 256]
  {
    assert u / 256 / 256 == u / 0x1_0000 && u / 256 / 256 / 256 == u / 0x100_0000;
    assert BigEndian(u / 256 / 256 / 256, 1) == [u / 0x100_0000 % 256];
    assert BigEndian(u / 256 / 256, 2) == [u / 0x100_0000 % 256, u / 0x1_0000 % 256];
    assert BigEndian(u / 256, 3) == [u / 0x100_0000 % 256, u / 0x1_0000 % 256, u / 0x100 % 256];
  }

  lemma DoubleWordBytes(v: int)
    ensures
      var u := Wrap64(v);
      U64(v) == [u / 0x100_0000_0000_0000 % 256, u / 0x1_0000_0000_0000 % 256, u / 0x100_0000_0000 % 256, u / 0x1_0000_0000 % 256,
                 u / 0x100_0000 % 256, u / 0x1_0000 % 256, u / 0x100 % 256, u % 256]
  {
    var u := Wrap64(v);
    var high := u / 256 / 256 / 256 / 256;
    FourBytes(high);
    HighHalf(u, 4);
    FourBytes(u);
    assert high == u / 0x1_0000_0000;
    assert high / 0x100_0000 == u / 0x100_0000_0000_0000 && high / 0x1_0000 == u / 0x1_0000_0000_0000 && high / 0x100 == u / 0x100_0000_0000;
  }

  /** A number's bytes are those of its upper part and then its four lowest. */
  lemma HighHalf(u: nat, n: nat)
    ensures BigEndian(u, n + 4) == BigEndian(u / 256 / 256 / 256 / 256, n) + BigEndian(u, 4)
  {
    FourBytes(u);
    assert u / 256 / 256 == u / 0x1_0000 && u / 256 / 256 / 256 == u / 0x100_0000;
    var high := BigEndian(u / 256 / 256 / 256 / 256, n);
    assert BigEndian(u / 256 / 256 / 256, n + 1) == high + [u / 256 / 256 / 256 % 256];
    assert BigEndian(u / 256 / 256, n + 2) == high + [u / 256 / 256 / 256 % 256] + [u / 256 / 256 % 256];
    assert BigEndian(u / 256, n + 3) == high + [u / 256 / 256 / 256 % 256] + [u / 256 / 256 % 256] + [u / 256 % 256];
  }

  predicate IsInt32(v: int) { -0x8000_0000 <= v < 0x8000_0000 }
  predicate IsInt64(v: int) { -0x8000_0000_0000_0000 <= v < 0x8000_0000_0000_0000 }

  /** The signed reading of an unsigned word. */
  function Signed32(u: nat): int { if u < 0x8000_0000 then u else u - 0x1_0000_0000 }
  function Signed64(u: nat): int { if u < 0x8000_0000_0000_0000 then u else u - 0x1_0000_0000_0000_0000 }

  // ------------------------------------------------------------------ concatenation

  /** Concatenation is associative; stated once so that long encodings can be regrouped. */
  lemma ConcatAssoc()
    ensures forall a: seq<Byte>, b: seq<Byte>, c: seq<Byte> {:trigger (a + b) + c} :: (a + b) + c == a + (b + c)
  {
    forall a: seq<Byte>, b: seq<Byte>, c: seq<Byte>
      ensures (a + b) + c == a + (b + c)
    {
      assert (a + b) + c == a + (b + c);
    }
  }

  lemma Assoc(a: seq<Byte>, b: seq<Byte>, c: seq<Byte>)
    ensures (a + b) + c == a + (b + c)
  {
  }

  /** Dropping a leading tag byte. */
  lemma Untag(t: Byte, b: seq<Byte>)
    ensures ([t] + b)[1..] == b && ([t] + b)[0] == t && |[t] + b| == 1 + |b|
  {
  }

  function Concat(pieces: seq<seq<Byte>>): seq<Byte>
  {
    if |pieces| == 0 then [] else Concat(pieces[..|pieces| - 1]) + pieces[|pieces| - 1]
  }

  lemma ConcatStep(ps: seq<seq<Byte>>, p: seq<Byte>)
    ensures Concat([]) == [] && Concat(ps + [p]) == Concat(ps) + p
  {
    assert (ps + [p])[..|ps|] == ps;
  }

  lemma {:induction false} ConcatPrefix(pieces: seq<seq<Byte>>, k: nat)
    requires k <= |pieces|
    ensures |Concat(pieces[..k])| <= |Concat(pieces)|
    decreases |pieces|
  {
    if k < |pieces| {
      assert pieces[..|pieces| - 1][..k] == pieces[..k];
      ConcatPrefix(pieces[..|pieces| - 1], k);
    } else {
      assert pieces[..k] == pieces;
    }
  }

  // ------------------------------------------------------------------ strings

  /** A length prefix and the bytes themselves. */
  function EncBytes(s: seq<Byte>): seq<Byte> { U32(|s|) + s }

  /** An absent string writes nothing; the caller latches HASH_ERROR_MISSING_FIELD. */
  function EncString(s: Option<Str>): seq<Byte>
  {
    match s
    case None => []
    case Some(t) => EncBytes(t)
  }

  predicate FitsInt32<T>(s: seq<T>) { |s| < 0x8000_0000 }

  function TakeBytes(b: seq<Byte>): Option<(seq<Byte>, seq<Byte>)>
  {
    if |b| < 4 then None
    else
      var n := FromBigEndian(b[..4]);
      if |b| - 4 < n then None else Some((b[4..4 + n], b[4 + n..]))
  }

  lemma TakeBytesInverse(s: seq<Byte>, rest: seq<Byte>)
    requires FitsInt32(s)
    ensures TakeBytes(EncBytes(s) + rest) == Some((s, rest))
  {
    var b := EncBytes(s) + rest;
    WordInverse(|s|);
    assert b[..4] == U32(|s|);
    assert b[4..4 + |s|] == s;
    assert b[4 + |s|..] == rest;
  }

  // ------------------------------------------------------------------ hex strings

  /** hex_val: lower-case digits are tested, everything else goes through the upper-case formula as a uint8. */
  function HexVal(c: Byte): Byte
  {
    if 48 <= c <= 57 then c - 48
    else if 97 <= c <= 102 then c - 97 + 10
    else (10 + c - 65) % 256
  }

  /** Bitwise or of two nibbles. */
  function OrNibble(a: int, b: int): int
    requires 0 <= a < 16 && 0 <= b < 16
  {
    if b == 0 then a else
    (if a / 8 == 1 || b / 8 == 1 then 8 else 0) +
    (if a / 4 % 2 == 1 || b / 4 % 2 == 1 then 4 else 0) +
    (if a / 2 % 2 == 1 || b / 2 % 2 == 1 then 2 else 0) +
    (if a % 2 == 1 || b % 2 == 1 then 1 else 0)
  }

  /** (hex_val(hi) << 4) | hex_val(lo), kept to eight bits. */
  function HexByte(hi: Byte, lo: Byte): Byte
  {
    OrNibble(HexVal(hi) % 16, HexVal(lo) / 16) * 16 + HexVal(lo) % 16
  }

  function HexBytes(s: seq<Byte>): (b: seq<Byte>)
    requires |s| % 2 == 0
    ensures |b| == |s| / 2
  {
    if |s| == 0 then [] else [HexByte(s[0], s[1])] + HexBytes(s[2..])
  }

  /** An odd length writes nothing; the caller latches HASH_ERROR_INVALID_HASH_STRING. */
  function EncHex(s: Option<Str>): seq<Byte>
  {
    match s
    case None => []
    case Some(t) => if |t| % 2 == 1 then [] else EncBytes(HexBytes(t))
  }

  predicate IsLowerHexDigit(c: Byte) { 48 <= c <= 57 || 97 <= c <= 102 }

  predicate IsLowerHex(s: seq<Byte>) { |s| % 2 == 0 && forall i :: 0 <= i < |s| ==> IsLowerHexDigit(s[i]) }

  function HexDigit(n: int): (c: Byte)
    requires 0 <= n < 16
    ensures c != 0
  {
    if n < 10 then 48 + n else 97 + n - 10
  }

  function ToHex(b: seq<Byte>): (s: Str)
    ensures |s| == 2 * |b|
  {
    if |b| == 0 then [] else [HexDigit(b[0] / 16), HexDigit(b[0] % 16)] + ToHex(b[1..])
  }

  lemma HexPairInverse(hi: Byte, lo: Byte)
    requires IsLowerHexDigit(hi) && IsLowerHexDigit(lo)
    ensures HexDigit(HexByte(hi, lo) / 16) == hi && HexDigit(HexByte(hi, lo) % 16) == lo
  {
  }

  lemma {:induction false} HexInverse(s: Str)
    requires IsLowerHex(s)
    ensures ToHex(HexBytes(s)) == s
  {
    if |s| == 0 {
    } else {
      assert IsLowerHexDigit(s[0]) && IsLowerHexDigit(s[1]);
      assert forall i :: 0 <= i < |s| - 2 ==> s[2..][i] == s[i + 2];
      HexPairInverse(s[0], s[1]);
      HexInverse(s[2..]);
      var b := HexBytes(s);
      assert b[0] == HexByte(s[0], s[1]) && b[1..] == HexBytes(s[2..]);
    }
  }

  predicate IsHexDigit(c: Byte) { 48 <= c <= 57 || 65 <= c <= 70 || 97 <= c <= 102 }

  /** A pair of digits of either case is the number they spell. */
  lemma HexPair(hi: Byte, lo: Byte)
    requires IsHexDigit(hi) && IsHexDigit(lo)
    ensures
      var x: int := if hi <= 57 then hi - 48 else if hi <= 70 then hi - 55 else hi - 87;
      var y: int := if lo <= 57 then lo - 48 else if lo <= 70 then lo - 55 else lo - 87;
      HexByte(hi, lo) as int == 16 * x + y
  {
    assert HexVal(lo) / 16 == 0;
  }

  /** The bytes of a hex string are its pairs, in order. */
  lemma {:induction false} HexPairs(s: Str, i: nat)
    requires |s| % 2 == 0 && i < |s| / 2
    ensures HexBytes(s)[i] == HexByte(s[2 * i], s[2 * i + 1])
    decreases i
  {
    hide HexByte;
    if i > 0 {
      assert s[2..][2 * (i - 1)] == s[2 * i] && s[2..][2 * (i - 1) + 1] == s[2 * i + 1];
      HexPairs(s[2..], i - 1);
    }
  }

  // ------------------------------------------------------------------ dotted names

  /** Index of the first dot at or after position i, or the length. */
  function FirstDot(s: seq<Byte>): (k: nat)
    ensures k <= |s|
    ensures forall j :: 0 <= j < k ==> s[j] != DOT
    ensures k < |s| ==> s[k] == DOT
  {
    if |s| == 0 then 0 else if s[0] == DOT then 0 else 1 + FirstDot(s[1..])
  }

  function Split(s: seq<Byte>): (parts: seq<seq<Byte>>)
    ensures |parts| >= 1
    decreases |s|
  {
    var k := FirstDot(s);
    if k == |s| then [s] else [s[..k]] + Split(s[k + 1..])
  }

  function Join(parts: seq<seq<Byte>>): seq<Byte>
  {
    if |parts| == 0 then [] else if |parts| == 1 then parts[0] else parts[0] + [DOT] + Join(parts[1..])
  }

  function EncParts(parts: seq<seq<Byte>>): seq<Byte>
  {
    if |parts| == 0 then [] else EncBytes(parts[0]) + EncParts(parts[1..])
  }

  function EncDotted(s: Option<Str>): seq<Byte>
  {
    match s
    case None => []
    case Some(t) => U32(|Split(t)|) + EncParts(Split(t))
  }

  function TakeParts(n: nat, b: seq<Byte>): Option<(seq<seq<Byte>>, seq<Byte>)>
    decreases n
  {
    if n == 0 then Some(([], b))
    else match TakeBytes(b)
      case None => None
      case Some((p, rest)) =>
        match TakeParts(n - 1, rest)
        case None => None
        case Some((ps, rest')) => Some(([p] + ps, rest'))
  }

  lemma {:induction false} JoinSplit(s: seq<Byte>)
    ensures Join(Split(s)) == s
    decreases |s|
  {
    var k := FirstDot(s);
    if k < |s| {
      JoinSplit(s[k + 1..]);
      assert s == s[..k] + [DOT] + s[k + 1..];
      hide FirstDot;
      assert Split(s)[1..] == Split(s[k + 1..]);
    }
  }

  lemma {:induction false} SplitFits(s: seq<Byte>)
    requires FitsInt32(s)
    ensures |Split(s)| <= |s| + 1
    ensures forall p :: p in Split(s) ==> |p| <= |s|
    decreases |s|
  {
    var k := FirstDot(s);
    if k < |s| {
      SplitFits(s[k + 1..]);
    }
  }

  lemma {:induction false} TakePartsInverse(parts: seq<seq<Byte>>, rest: seq<Byte>)
    requires forall p :: p in parts ==> FitsInt32(p)
    ensures TakeParts(|parts|, EncParts(parts) + rest) == Some((parts, rest))
  {
    hide EncBytes, TakeBytes;
    if |parts| == 0 {
      assert EncParts(parts) + rest == rest;
    } else {
      assert parts[0] in parts;
      TakeBytesInverse(parts[0], EncParts(parts[1..]) + rest);
      Assoc(EncBytes(parts[0]), EncParts(parts[1..]), rest);
      TakePartsInverse(parts[1..], rest);
      assert parts == [parts[0]] + parts[1..];
    }
  }
}
