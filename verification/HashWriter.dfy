/** The byte stream fed to SHA-256 and the error latch beside it (canonical_hash.c). */
module HashWriter {
  import opened Bytes
  import opened CanonicalValue

  datatype HashError =
    | HASH_OK
    | HASH_ERROR_INVALID_HASH_STRING
    | HASH_ERROR_FAILED_TO_LOAD_NODE_HASH
    | HASH_ERROR_MAX_NODE_CHILDREN_EXCEEDED
    | HASH_ERROR_MISSING_FIELD

  // ------------------------------------------------------------------ specification

  /** What a writer has absorbed so far, and the first error met. */
  datatype Feed = Feed(out: seq<Byte>, err: HashError)

  function Put(f: Feed, b: seq<Byte>): Feed { f.(out := f.out + b) }

  function Latch(first: HashError, e: HashError): HashError { if first == HASH_OK then e else first }

  function Fail(f: Feed, e: HashError): Feed { f.(err := Latch(f.err, e)) }

  function FeedString(f: Feed, s: Option<Str>): Feed
  {
    if s.None? then Fail(f, HASH_ERROR_MISSING_FIELD) else Put(f, EncString(s))
  }

  function FeedHex(f: Feed, s: Option<Str>): Feed
  {
    if s.None? then Fail(f, HASH_ERROR_MISSING_FIELD)
    else if |s.value| % 2 != 0 then Fail(f, HASH_ERROR_INVALID_HASH_STRING)
    else Put(f, EncHex(s))
  }

  function FeedDotted(f: Feed, s: Option<Str>): Feed
  {
    if s.None? then Fail(f, HASH_ERROR_MISSING_FIELD) else Put(f, EncDotted(s))
  }

  function FeedIdentifier(f: Feed, id: Identifier): Feed
  {
    FeedDotted(FeedDotted(FeedString(f, id.packageId), id.moduleName), id.entityName)
  }

  predicate CompleteIdentifier(id: Identifier) { id.packageId.Some? && id.moduleName.Some? && id.entityName.Some? }

  /** An identifier writes its encoding, and is silent about errors exactly when it is complete. */
  lemma FeedIdentifierWrites(f: Feed, id: Identifier)
    ensures FeedIdentifier(f, id).out == f.out + EncIdentifier(id)
    ensures FeedIdentifier(f, id).err == HASH_OK <==> f.err == HASH_OK && CompleteIdentifier(id)
    ensures CompleteIdentifier(id) ==> FeedIdentifier(f, id).err == f.err
  {
    hide EncBytes, EncParts, Split, U32;
    var a := EncString(id.packageId);
    var b := EncDotted(id.moduleName);
    var c := EncDotted(id.entityName);
    assert f.out + a + b + c == f.out + (a + b + c) by { ConcatAssoc(); }
    assert a == [] ==> f.out + a == f.out;
    assert b == [] ==> f.out + a + b == f.out + a;
    assert c == [] ==> f.out + a + b + c == f.out + a + b;
  }

  function EncStrings(ss: seq<Option<Str>>): seq<Byte>
  {
    if |ss| == 0 then [] else EncString(ss[0]) + EncStrings(ss[1..])
  }

  /** The repeated-field encoding: a count and the elements. */
  function EncRepeated(ss: seq<Option<Str>>): seq<Byte> { U32(|ss|) + EncStrings(ss) }

  function FeedStrings(f: Feed, ss: seq<Option<Str>>): Feed
    decreases |ss|
  {
    if |ss| == 0 then f else FeedStrings(FeedString(f, ss[0]), ss[1..])
  }

  function FeedRepeated(f: Feed, ss: seq<Option<Str>>): Feed { FeedStrings(Put(f, U32(|ss|)), ss) }

  predicate AllPresent(ss: seq<Option<Str>>) { forall i :: 0 <= i < |ss| ==> ss[i].Some? }

  lemma {:induction false} FeedStringsWrite(f: Feed, ss: seq<Option<Str>>)
    ensures FeedStrings(f, ss).out == f.out + EncStrings(ss)
    ensures FeedStrings(f, ss).err == HASH_OK <==> f.err == HASH_OK && AllPresent(ss)
    ensures AllPresent(ss) || f.err != HASH_OK ==> FeedStrings(f, ss).err == f.err
    decreases |ss|
  {
    hide EncBytes;
    if |ss| == 0 {
      assert f.out + [] == f.out;
    } else {
      var g := FeedString(f, ss[0]);
      FeedStringsWrite(g, ss[1..]);
      assert g.out == f.out + EncString(ss[0]) by { assert f.out + [] == f.out; }
      Assoc(f.out, EncString(ss[0]), EncStrings(ss[1..]));
      assert forall i :: 0 < i < |ss| ==> ss[i] == ss[1..][i - 1];
    }
  }

  /** A repeated field writes its encoding, and latches an error exactly when an element is absent. */
  lemma FeedRepeatedWrites(f: Feed, ss: seq<Option<Str>>)
    ensures FeedRepeated(f, ss).out == f.out + EncRepeated(ss)
    ensures FeedRepeated(f, ss).err == HASH_OK <==> f.err == HASH_OK && AllPresent(ss)
    ensures AllPresent(ss) || f.err != HASH_OK ==> FeedRepeated(f, ss).err == f.err
  {
    hide U32, FeedStrings, EncStrings, AllPresent;
    FeedStringsWrite(Put(f, U32(|ss|)), ss);
    Assoc(f.out, U32(|ss|), EncStrings(ss));
  }

  // ------------------------------------------------------------------ the writer

  class HashErrorInfo {
    var code: HashError

    constructor ()
      ensures code == HASH_OK
    {
      code := HASH_OK;
    }

    /** The first error stays. */
    method Set(err: HashError)
      modifies this
      ensures code == Latch(old(code), err)
    {
      if code != HASH_OK {
        return;
      }
      code := err;
    }

    method Clear()
      modifies this
      ensures code == HASH_OK
    {
      code := HASH_OK;
    }
  }

  class Writer {
    var stream: seq<Byte>
    const errs: HashErrorInfo

    constructor (errs: HashErrorInfo)
      ensures stream == [] && this.errs == errs
    {
      this.errs := errs;
      stream := [];
    }

    ghost function State(): Feed
      reads this, errs
    {
      Feed(stream, errs.code)
    }

    method Init()
      modifies this
      ensures stream == []
    {
      stream := [];
    }

    method PutBytes(b: seq<Byte>)
      modifies this
      ensures State() == Put(old(State()), b)
    {
      stream := stream + b;
    }

    method PutU32Be(v: int)
      modifies this
      ensures State() == Put(old(State()), U32(v))
    {
      var u := Wrap32(v);
      WordBytes(v);
      PutBytes([u / 0x100_0000 % 256, u / 0x1_0000 % 256, u / 0x100 % 256, u % 256]);
    }

    method PutU64Be(v: int)
      modifies this
      ensures State() == Put(old(State()), U64(v))
    {
      var u := Wrap64(v);
      DoubleWordBytes(v);
      PutBytes([u / 0x100_0000_0000_0000 % 256, u / 0x1_0000_0000_0000 % 256, u / 0x100_0000_0000 % 256, u / 0x1_0000_0000 % 256,
                u / 0x100_0000 % 256, u / 0x1_0000 % 256, u / 0x100 % 256, u % 256]);
    }

    method EncodeBytes(data: seq<Byte>)
      modifies this
      ensures State() == Put(old(State()), EncBytes(data))
    {
      PutU32Be(|data|);
      PutBytes(data);
      Assoc(old(stream), U32(|data|), data);
    }

    method EncodeString(s: Option<Str>)
      modifies this, errs
      ensures State() == FeedString(old(State()), s)
    {
      if s.None? {
        errs.Set(HASH_ERROR_MISSING_FIELD);
        return;
      }
      EncodeBytes(s.value);
    }

    method EncodeHexString(hex: Option<Str>)
      modifies this, errs
      ensures State() == FeedHex(old(State()), hex)
    {
      hide U32, HexBytes;
      if hex.None? {
        errs.Set(HASH_ERROR_MISSING_FIELD);
        return;
      }
      var len := |hex.value|;
      if len % 2 != 0 {
        errs.Set(HASH_ERROR_INVALID_HASH_STRING);
        return;
      }
      PutU32Be(len / 2);
      Assoc(old(stream), U32(len / 2), HexBytes(hex.value));
      PutHexBytes(hex.value);
    }

    /** Two digits make one byte. */
    method PutHexBytes(hex: Str)
      requires |hex| % 2 == 0
      modifies this
      ensures State() == Put(old(State()), HexBytes(hex))
    {
      hide HexByte;
      ghost var target := stream + HexBytes(hex);
      assert hex[0..] == hex;
      var i := 0;
      while i < |hex|
        invariant 0 <= i <= |hex| && i % 2 == 0
        invariant stream + HexBytes(hex[i..]) == target
      {
        ghost var tail := hex[i..];
        assert tail[2..] == hex[i + 2..];
        Assoc(stream, [HexByte(tail[0], tail[1])], HexBytes(tail[2..]));
        PutBytes([HexByte(hex[i], hex[i + 1])]);
        i := i + 2;
      }
      assert stream == target;
    }

    method SplitDotAndEncode(dotted: Option<Str>)
      modifies this, errs
      ensures State() == FeedDotted(old(State()), dotted)
    {
      if dotted.None? {
        errs.Set(HASH_ERROR_MISSING_FIELD);
        return;
      }
      var parts := CountParts(dotted.value);
      PutU32Be(parts);
      Assoc(old(stream), U32(parts), EncParts(Split(dotted.value)));
      EncodeParts(dotted.value);
    }

    static method CountParts(s: seq<Byte>) returns (parts: nat)
      ensures parts == |Split(s)|
    {
      parts := 1;
      var p := 0;
      assert s[0..] == s;
      while p < |s|
        invariant 0 <= p <= |s|
        invariant parts - 1 + |Split(s[p..])| == |Split(s)|
      {
        SplitStep(s[p..]);
        assert s[p..][1..] == s[p + 1..];
        if s[p] == DOT {
          parts := parts + 1;
        }
        p := p + 1;
      }
    }

    method EncodeParts(s: seq<Byte>)
      modifies this
      ensures State() == Put(old(State()), EncParts(Split(s)))
    {
      hide EncBytes;
      ghost var target := stream + EncParts(Split(s));
      var start := 0;
      assert s[start..] == s;
      while true
        invariant 0 <= start <= |s|
        invariant stream + EncParts(Split(s[start..])) == target
        decreases |s| - start
      {
        var len := FirstDot(s[start..]);
        ghost var rest := Split(s[start..])[1..];
        Assoc(stream, EncBytes(s[start..][..len]), EncParts(rest));
        EncodeBytes(s[start..][..len]);
        if start + len == |s| {
          assert s[start..][..len] == s[start..];
          assert stream + [] == stream;
          break;
        }
        assert s[start..][len + 1..] == s[start + len + 1..];
        start := start + len + 1;
      }
    }

    method EncodeIdentifier(id: Identifier)
      modifies this, errs
      ensures State() == FeedIdentifier(old(State()), id)
    {
      EncodeString(id.packageId);
      SplitDotAndEncode(id.moduleName);
      SplitDotAndEncode(id.entityName);
    }

    method EncodeRepeated(strings: seq<Option<Str>>)
      modifies this, errs
      ensures State() == FeedRepeated(old(State()), strings)
    {
      hide U32, EncBytes, FeedString;
      PutU32Be(|strings|);
      ghost var target := FeedStrings(State(), strings);
      assert strings[0..] == strings;
      var i := 0;
      while i < |strings|
        invariant 0 <= i <= |strings|
        invariant FeedStrings(State(), strings[i..]) == target
      {
        EncodeString(strings[i]);
        assert strings[i..][1..] == strings[i + 1..];
        i := i + 1;
      }
    }
  }

  /** One character of the dot count. */
  lemma SplitStep(s: seq<Byte>)
    requires |s| > 0
    ensures |Split(s)| == (if s[0] == DOT then 1 else 0) + |Split(s[1..])|
  {
    if s[0] != DOT {
      var k := FirstDot(s[1..]);
      assert FirstDot(s) == 1 + k;
      if 1 + k < |s| {
        assert s[1 + k + 1..] == s[1..][k + 1..];
      }
    }
  }
}
