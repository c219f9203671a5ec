/** Daml values, their canonical encoding, and a decoder that inverts it. */
module CanonicalValue {
  import opened Bytes

  datatype Identifier = Identifier(packageId: Option<Str>, moduleName: Option<Str>, entityName: Option<Str>)

  /** A protobuf Value in parsed field order. Strings read through a raw 64-byte buffer (labels,
      map keys, constructors) keep the bytes of the wire; an empty one is a field the wire omits.
      NoValue is a Value whose oneof carries no member, or a field that is absent. */
  datatype Value =
    | NoValue
    | Unit
    | Bool(b: bool)
    | Int64(i: int)
    | Numeric(numeric: Str)
    | Timestamp(micros: int)
    | Date(days: int)
    | Party(party: Str)
    | Text(text: Str)
    | ContractId(contractId: Str)
    | Optional(inner: Option<Value>)
    | List(elems: seq<Value>)
    | TextMap(textEntries: seq<TextEntry>)
    | Record(recordId: Option<Identifier>, fields: seq<Field>)
    | Variant(variantId: Option<Identifier>, variantCtor: seq<Byte>, payload: Value)
    | Enum(enumId: Option<Identifier>, enumCtor: Option<Str>)
    | GenMap(genEntries: seq<GenEntry>)

  datatype TextEntry = TextEntry(key: seq<Byte>, value: Value)
  datatype GenEntry = GenEntry(genKey: Value, genValue: Value)
  datatype Field = Field(name: seq<Byte>, fieldValue: Value)

  // ------------------------------------------------------------------ encoding

  function EncIdentifier(id: Identifier): seq<Byte>
  {
    EncString(id.packageId) + EncDotted(id.moduleName) + EncDotted(id.entityName)
  }

  function EncOptIdentifier(id: Option<Identifier>): seq<Byte>
  {
    match id
    case None => [0]
    case Some(i) => [1] + EncIdentifier(i)
  }

  /** The first byte of each kind of value. */
  function Tag(v: Value): Byte
  {
    match v
    case NoValue => 0
    case Unit => 0x00
    case Bool(_) => 0x01
    case Int64(_) => 0x02
    case Numeric(_) => 0x03
    case Timestamp(_) => 0x04
    case Date(_) => 0x05
    case Party(_) => 0x06
    case Text(_) => 0x07
    case ContractId(_) => 0x08
    case Optional(_) => 0x09
    case List(_) => 0x0A
    case TextMap(_) => 0x0B
    case Record(_, _) => 0x0C
    case Variant(_, _, _) => 0x0D
    case Enum(_, _) => 0x0E
    case GenMap(_) => 0x0F
  }

  /** The encoding by structural recursion: the tag, then the parts. */
  function Encode(v: Value): seq<Byte>
    decreases v, 1
  {
    if v.NoValue? then [] else [Tag(v)] + Body(v)
  }

  function Body(v: Value): seq<Byte>
    decreases v, 0
  {
    match v
    case NoValue => []
    case Unit => []
    case Bool(b) => [if b then 1 else 0]
    case Int64(i) => U64(i)
    case Numeric(s) => EncBytes(s)
    case Timestamp(t) => U64(t)
    case Date(d) => U32(d)
    case Party(s) => EncBytes(s)
    case Text(s) => EncBytes(s)
    case ContractId(s) => EncHex(Some(s))
    case Optional(None) => [0x00]
    case Optional(Some(x)) => [0x01] + Encode(x)
    case List(es) => U32(|es|) + EncodeElems(es)
    case TextMap(es) => U32(|es|) + EncodeTextEntries(es)
    case Record(id, fs) => EncOptIdentifier(id) + U32(|fs|) + EncodeFields(fs)
    case Variant(id, ctor, x) => EncOptIdentifier(id) + EncBytes(ctor) + Encode(x)
    case Enum(id, ctor) => EncOptIdentifier(id) + EncString(ctor)
    case GenMap(es) => U32(|es|) + EncodeGenEntries(es)
  }

  function EncodeElems(es: seq<Value>): seq<Byte>
  {
    if |es| == 0 then [] else Encode(es[0]) + EncodeElems(es[1..])
  }

  function EncodeTextEntries(es: seq<TextEntry>): seq<Byte>
  {
    if |es| == 0 then [] else EncodeTextEntry(es[0]) + EncodeTextEntries(es[1..])
  }

  function EncodeTextEntry(e: TextEntry): seq<Byte>
  {
    EncBytes(e.key) + Encode(e.value)
  }

  function EncodeGenEntries(es: seq<GenEntry>): seq<Byte>
  {
    if |es| == 0 then [] else EncodeGenEntry(es[0]) + EncodeGenEntries(es[1..])
  }

  function EncodeGenEntry(e: GenEntry): seq<Byte>
  {
    Encode(e.genKey) + Encode(e.genValue)
  }

  function EncodeFields(fs: seq<Field>): seq<Byte>
  {
    if |fs| == 0 then [] else EncodeField(fs[0]) + EncodeFields(fs[1..])
  }

  function EncodeField(f: Field): seq<Byte>
  {
    [0x01] + EncBytes(f.name) + Encode(f.fieldValue)
  }

  // ------------------------------------------------------------------ the decodable domain

  predicate GoodString(s: Option<Str>) { s.Some? && FitsInt32(s.value) }

  predicate GoodIdentifier(id: Identifier)
  {
    GoodString(id.packageId) &&
    GoodString(id.moduleName) && |id.moduleName.value| < 0x7fff_ffff &&
    GoodString(id.entityName) && |id.entityName.value| < 0x7fff_ffff
  }

  predicate GoodHex(s: Str) { IsLowerHex(s) && FitsInt32(s) }

  /** Values whose parts are present and fit the widths they are written in. */
  predicate Canonical(v: Value)
  {
    match v
    case NoValue => false
    case Int64(i) => IsInt64(i)
    case Numeric(s) => FitsInt32(s)
    case Timestamp(t) => IsInt64(t)
    case Date(d) => IsInt32(d)
    case Party(s) => FitsInt32(s)
    case Text(s) => FitsInt32(s)
    case ContractId(s) => GoodHex(s)
    case Optional(Some(x)) => Canonical(x)
    case List(es) => FitsInt32(es) && forall i :: 0 <= i < |es| ==> Canonical(es[i])
    case TextMap(es) => FitsInt32(es) && forall i :: 0 <= i < |es| ==> FitsInt32(es[i].key) && Canonical(es[i].value)
    case GenMap(es) => FitsInt32(es) && forall i :: 0 <= i < |es| ==> CanonicalGenEntry(es[i])
    case Record(id, fs) =>
      (id.Some? ==> GoodIdentifier(id.value)) && FitsInt32(fs) &&
      forall i :: 0 <= i < |fs| ==> FitsInt32(fs[i].name) && Canonical(fs[i].fieldValue)
    case Variant(id, ctor, x) => (id.Some? ==> GoodIdentifier(id.value)) && FitsInt32(ctor) && Canonical(x)
    case Enum(id, ctor) => (id.Some? ==> GoodIdentifier(id.value)) && GoodString(ctor)
    case _ => true
  }

  predicate CanonicalGenEntry(e: GenEntry) { Canonical(e.genKey) && Canonical(e.genValue) }

  // ------------------------------------------------------------------ decoding

  type Parse<+T> = Option<(T, seq<Byte>)>

  function TakeU32(b: seq<Byte>): Parse<nat>
  {
    if |b| < 4 then None else Some((FromBigEndian(b[..4]), b[4..]))
  }

  function TakeU64(b: seq<Byte>): Parse<nat>
  {
    if |b| < 8 then None else Some((FromBigEndian(b[..8]), b[8..]))
  }

  function TakeString(b: seq<Byte>): Parse<Str>
  {
    match TakeBytes(b)
    case None => None
    case Some((s, rest)) => if 0 in s then None else Some((s, rest))
  }

  function TakePartList(b: seq<Byte>): Parse<seq<seq<Byte>>>
  {
    match TakeU32(b)
    case None => None
    case Some((n, rest)) => TakeParts(n, rest)
  }

  function TakeDotted(b: seq<Byte>): Parse<Str>
  {
    match TakePartList(b)
    case None => None
    case Some((parts, rest)) => if 0 in Join(parts) then None else Some((Join(parts), rest))
  }

  function TakeIdentifier(b: seq<Byte>): Parse<Identifier>
  {
    match TakeString(b)
    case None => None
    case Some((p, b1)) =>
      match TakeDotted(b1)
      case None => None
      case Some((m, b2)) =>
        match TakeDotted(b2)
        case None => None
        case Some((e, b3)) => Some((Identifier(Some(p), Some(m), Some(e)), b3))
  }

  function TakeOptIdentifier(b: seq<Byte>): Parse<Option<Identifier>>
  {
    if |b| == 0 then None
    else if b[0] == 0 then Some((None, b[1..]))
    else match TakeIdentifier(b[1..])
      case None => None
      case Some((id, rest)) => Some((Some(id), rest))
  }

  predicate Shorter<T>(p: Parse<T>, b: seq<Byte>) { p.Some? ==> |p.value.1| <= |b| }

  lemma {:induction false} TakePartsShortens(n: nat, b: seq<Byte>)
    ensures Shorter(TakeParts(n, b), b)
    decreases n
  {
    if n > 0 {
      match TakeBytes(b) {
        case None =>
        case Some((p, rest)) => TakePartsShortens(n - 1, rest);
      }
    }
  }

  lemma TakeIdentifierShortens(b: seq<Byte>)
    ensures Shorter(TakeIdentifier(b), b)
    ensures Shorter(TakeOptIdentifier(b), b)
  {
    forall c: seq<Byte>
      ensures Shorter(TakeDotted(c), c)
    {
      if |c| >= 4 {
        TakePartsShortens(FromBigEndian(c[..4]), c[4..]);
      }
    }
  }

  /** The decoder: reads one value off the front and returns what follows it. */
  function Decode(b: seq<Byte>): (p: Parse<Value>)
    ensures p.Some? ==> |p.value.1| < |b|
    decreases |b|, 0, 0
  {
    if |b| == 0 then None else DecodeBody(b[0], b[1..])
  }

  /** What follows a tag. */
  function DecodeBody(tag: Byte, r: seq<Byte>): (p: Parse<Value>)
    ensures Shorter(p, r)
    decreases |r|, 4, 0
  {
      match tag
      case 0x00 => Some((Unit, r))
      case 0x01 => if |r| == 0 then None else Some((Bool(r[0] == 1), r[1..]))
      case 0x02 => (match TakeU64(r) case None => None case Some((u, s)) => Some((Int64(Signed64(u)), s)))
      case 0x03 => (match TakeString(r) case None => None case Some((t, s)) => Some((Numeric(t), s)))
      case 0x04 => (match TakeU64(r) case None => None case Some((u, s)) => Some((Timestamp(Signed64(u)), s)))
      case 0x05 => (match TakeU32(r) case None => None case Some((u, s)) => Some((Date(Signed32(u)), s)))
      case 0x06 => (match TakeString(r) case None => None case Some((t, s)) => Some((Party(t), s)))
      case 0x07 => (match TakeString(r) case None => None case Some((t, s)) => Some((Text(t), s)))
      case 0x08 => (match TakeBytes(r) case None => None case Some((t, s)) => Some((ContractId(ToHex(t)), s)))
      case 0x09 =>
        if |r| == 0 then None
        else if r[0] == 0 then Some((Optional(None), r[1..]))
        else DecodeSome(r[1..])
      case 0x0A => DecodeList(r)
      case 0x0B => DecodeTextMap(r)
      case 0x0C => DecodeRecord(r)
      case 0x0D => DecodeVariant(r)
      case 0x0E => DecodeEnum(r)
      case 0x0F => DecodeGenMap(r)
      case _ => None
  }

  function DecodeSome(b: seq<Byte>): (p: Parse<Value>)
    ensures Shorter(p, b)
    decreases |b|, 3, 0
  {
    match Decode(b) case None => None case Some((x, s)) => Some((Optional(Some(x)), s))
  }

  function DecodeList(b: seq<Byte>): (p: Parse<Value>)
    ensures Shorter(p, b)
    decreases |b|, 3, 0
  {
    match TakeU32(b) case None => None case Some((n, s)) =>
    match DecodeElems(n, s) case None => None case Some((es, t)) => Some((List(es), t))
  }

  function DecodeTextMap(b: seq<Byte>): (p: Parse<Value>)
    ensures Shorter(p, b)
    decreases |b|, 3, 0
  {
    match TakeU32(b) case None => None case Some((n, s)) =>
    match DecodeTextEntries(n, s) case None => None case Some((es, t)) => Some((TextMap(es), t))
  }

  function DecodeGenMap(b: seq<Byte>): (p: Parse<Value>)
    ensures Shorter(p, b)
    decreases |b|, 3, 0
  {
    match TakeU32(b) case None => None case Some((n, s)) =>
    match DecodeGenEntries(n, s) case None => None case Some((es, t)) => Some((GenMap(es), t))
  }

  function DecodeRecord(b: seq<Byte>): (p: Parse<Value>)
    ensures Shorter(p, b)
    decreases |b|, 3, 0
  {
    TakeIdentifierShortens(b);
    match TakeOptIdentifier(b) case None => None case Some((id, s)) =>
    match TakeU32(s) case None => None case Some((n, t)) =>
    match DecodeFields(n, t) case None => None case Some((fs, u)) => Some((Record(id, fs), u))
  }

  function DecodeVariant(b: seq<Byte>): (p: Parse<Value>)
    ensures Shorter(p, b)
    decreases |b|, 3, 0
  {
    TakeIdentifierShortens(b);
    match TakeOptIdentifier(b) case None => None case Some((id, s)) =>
    match TakeBytes(s) case None => None case Some((ctor, t)) =>
    match Decode(t) case None => None case Some((x, u)) => Some((Variant(id, ctor, x), u))
  }

  function DecodeEnum(b: seq<Byte>): (p: Parse<Value>)
    ensures Shorter(p, b)
  {
    TakeIdentifierShortens(b);
    match TakeOptIdentifier(b) case None => None case Some((id, s)) =>
    match TakeString(s) case None => None case Some((ctor, t)) => Some((Enum(id, Some(ctor)), t))
  }

  function DecodeElems(n: nat, b: seq<Byte>): (p: Parse<seq<Value>>)
    ensures Shorter(p, b)
    decreases |b|, 1, n
  {
    if n == 0 then Some(([], b))
    else
      match Decode(b) case None => None case Some((e, r)) =>
      match DecodeElems(n - 1, r) case None => None case Some((es, s)) => Some(([e] + es, s))
  }

  function DecodeTextEntries(n: nat, b: seq<Byte>): (p: Parse<seq<TextEntry>>)
    ensures Shorter(p, b)
    decreases |b|, 2, n
  {
    if n == 0 then Some(([], b))
    else
      match DecodeTextEntry(b) case None => None case Some((e, r)) =>
      match DecodeTextEntries(n - 1, r) case None => None case Some((es, t)) => Some(([e] + es, t))
  }

  function DecodeTextEntry(b: seq<Byte>): (p: Parse<TextEntry>)
    ensures p.Some? ==> |p.value.1| < |b|
    decreases |b|, 1, 0
  {
    match TakeBytes(b) case None => None case Some((k, r)) =>
    match Decode(r) case None => None case Some((v, s)) => Some((TextEntry(k, v), s))
  }

  function DecodeGenEntries(n: nat, b: seq<Byte>): (p: Parse<seq<GenEntry>>)
    ensures Shorter(p, b)
    decreases |b|, 2, n
  {
    if n == 0 then Some(([], b))
    else
      match DecodeGenEntry(b) case None => None case Some((e, r)) =>
      match DecodeGenEntries(n - 1, r) case None => None case Some((es, t)) => Some(([e] + es, t))
  }

  function DecodeGenEntry(b: seq<Byte>): (p: Parse<GenEntry>)
    ensures p.Some? ==> |p.value.1| < |b|
    decreases |b|, 1, 0
  {
    match Decode(b) case None => None case Some((k, r)) =>
    match Decode(r) case None => None case Some((v, s)) => Some((GenEntry(k, v), s))
  }

  function DecodeFields(n: nat, b: seq<Byte>): (p: Parse<seq<Field>>)
    ensures Shorter(p, b)
    decreases |b|, 1, n
  {
    if n == 0 then Some(([], b))
    else
      match DecodeField(b) case None => None case Some((f, r)) =>
      match DecodeFields(n - 1, r) case None => None case Some((fs, s)) => Some(([f] + fs, s))
  }

  function DecodeField(b: seq<Byte>): (p: Parse<Field>)
    ensures p.Some? ==> |p.value.1| < |b|
    decreases |b|, 0, 0
  {
    if |b| == 0 || b[0] != 1 then None
    else
      match TakeBytes(b[1..]) case None => None case Some((l, r)) =>
      match Decode(r) case None => None case Some((v, s)) => Some((Field(l, v), s))
  }

  // ------------------------------------------------------------------ decoding inverts encoding

  lemma TakeU32Inverse(v: int, rest: seq<Byte>)
    ensures TakeU32(U32(v) + rest) == Some((Wrap32(v), rest))
  {
    WordInverse(v);
    assert (U32(v) + rest)[..4] == U32(v);
    assert (U32(v) + rest)[4..] == rest;
  }

  lemma TakeU64Inverse(v: int, rest: seq<Byte>)
    ensures TakeU64(U64(v) + rest) == Some((Wrap64(v), rest))
  {
    WordInverse(v);
    assert (U64(v) + rest)[..8] == U64(v);
    assert (U64(v) + rest)[8..] == rest;
  }

  lemma TakePartListInverse(parts: seq<seq<Byte>>, rest: seq<Byte>)
    requires |parts| < 0x8000_0000 && forall p :: p in parts ==> FitsInt32(p)
    ensures TakePartList(U32(|parts|) + EncParts(parts) + rest) == Some((parts, rest))
  {
    TakeU32Inverse(|parts|, EncParts(parts) + rest);
    TakePartsInverse(parts, rest);
    Assoc(U32(|parts|), EncParts(parts), rest);
  }

  lemma TakeDottedInverse(s: Str, rest: seq<Byte>)
    requires |s| < 0x7fff_ffff
    ensures TakeDotted(EncDotted(Some(s)) + rest) == Some((s, rest))
  {
    SplitFits(s);
    JoinSplit(s);
    TakePartListInverse(Split(s), rest);
  }

  lemma TakeIdentifierInverse(id: Identifier, rest: seq<Byte>)
    requires GoodIdentifier(id)
    ensures TakeIdentifier(EncIdentifier(id) + rest) == Some((id, rest))
  {
    var e := EncDotted(id.entityName) + rest;
    var m := EncDotted(id.moduleName) + e;
    assert EncIdentifier(id) + rest == EncString(id.packageId) + m by { ConcatAssoc(); }
    TakeBytesInverse(id.packageId.value, m);
    TakeDottedInverse(id.moduleName.value, e);
    TakeDottedInverse(id.entityName.value, rest);
  }

  lemma TakeOptIdentifierInverse(id: Option<Identifier>, rest: seq<Byte>)
    requires id.Some? ==> GoodIdentifier(id.value)
    ensures TakeOptIdentifier(EncOptIdentifier(id) + rest) == Some((id, rest))
  {
    match id {
      case None => assert ([0] + rest)[1..] == rest;
      case Some(i) =>
        TakeIdentifierInverse(i, rest);
        assert EncOptIdentifier(id) + rest == [1] + (EncIdentifier(i) + rest);
        assert ([1] + (EncIdentifier(i) + rest))[1..] == EncIdentifier(i) + rest;
    }
  }

  lemma SignedInverse(v: int)
    ensures IsInt32(v) ==> Signed32(Wrap32(v)) == v
    ensures IsInt64(v) ==> Signed64(Wrap64(v)) == v
  {
  }

  lemma Peel(v: Value, rest: seq<Byte>)
    requires !v.NoValue?
    ensures Decode(Encode(v) + rest) == DecodeBody(Tag(v), Body(v) + rest)
  {
    hide Tag, Body, DecodeBody;
    Assoc([Tag(v)], Body(v), rest);
    Untag(Tag(v), Body(v) + rest);
  }

  /** The encoding of a leaf value decodes to it. */
  lemma DecodeEncodeLeaf(v: Value, rest: seq<Byte>)
    requires Canonical(v)
    requires v == Optional(None) || v.Unit? || v.Bool? || v.Int64? || v.Numeric? || v.Timestamp? || v.Date? || v.Party? || v.Text? || v.ContractId?
    ensures Decode(Encode(v) + rest) == Some((v, rest))
  {
    var body := Body(v) + rest;
    Peel(v, rest);
    match v {
      case Optional(None) =>
        assert body[1..] == rest;
      case Unit =>
        assert body == rest;
      case Bool(x) =>
        assert body[1..] == rest;
      case Int64(i) =>
        TakeU64Inverse(i, rest); SignedInverse(i);
        assert body == U64(i) + rest;
      case Timestamp(i) =>
        TakeU64Inverse(i, rest); SignedInverse(i);
        assert body == U64(i) + rest;
      case Date(i) =>
        TakeU32Inverse(i, rest); SignedInverse(i);
        assert body == U32(i) + rest;
      case Numeric(s) =>
        TakeBytesInverse(s, rest);
        assert body == EncBytes(s) + rest;
      case Party(s) =>
        TakeBytesInverse(s, rest);
        assert body == EncBytes(s) + rest;
      case Text(s) =>
        TakeBytesInverse(s, rest);
        assert body == EncBytes(s) + rest;
      case ContractId(s) =>
        TakeBytesInverse(HexBytes(s), rest);
        HexInverse(s);
        assert body == EncBytes(HexBytes(s)) + rest;
    }
  }

  /** What follows each container tag decodes once its entries do. */
  lemma DecodeListInverse(es: seq<Value>, rest: seq<Byte>)
    requires FitsInt32(es) && DecodeElems(|es|, EncodeElems(es) + rest) == Some((es, rest))
    ensures DecodeList(U32(|es|) + EncodeElems(es) + rest) == Some((List(es), rest))
  {
    hide U32, Decode, DecodeElems, EncodeElems;
    Assoc(U32(|es|), EncodeElems(es), rest);
    TakeU32Inverse(|es|, EncodeElems(es) + rest);
  }

  lemma DecodeTextMapInverse(es: seq<TextEntry>, rest: seq<Byte>)
    requires FitsInt32(es) && DecodeTextEntries(|es|, EncodeTextEntries(es) + rest) == Some((es, rest))
    ensures DecodeTextMap(U32(|es|) + EncodeTextEntries(es) + rest) == Some((TextMap(es), rest))
  {
    hide U32, Decode, DecodeTextEntries, EncodeTextEntries;
    Assoc(U32(|es|), EncodeTextEntries(es), rest);
    TakeU32Inverse(|es|, EncodeTextEntries(es) + rest);
  }

  lemma DecodeGenMapInverse(es: seq<GenEntry>, rest: seq<Byte>)
    requires FitsInt32(es) && DecodeGenEntries(|es|, EncodeGenEntries(es) + rest) == Some((es, rest))
    ensures DecodeGenMap(U32(|es|) + EncodeGenEntries(es) + rest) == Some((GenMap(es), rest))
  {
    hide U32, Decode, DecodeGenEntries, EncodeGenEntries;
    Assoc(U32(|es|), EncodeGenEntries(es), rest);
    TakeU32Inverse(|es|, EncodeGenEntries(es) + rest);
  }

  lemma DecodeRecordInverse(id: Option<Identifier>, fs: seq<Field>, rest: seq<Byte>)
    requires (id.Some? ==> GoodIdentifier(id.value)) && FitsInt32(fs)
    requires DecodeFields(|fs|, EncodeFields(fs) + rest) == Some((fs, rest))
    ensures DecodeRecord(EncOptIdentifier(id) + U32(|fs|) + EncodeFields(fs) + rest) == Some((Record(id, fs), rest))
  {
    hide U32, Decode, DecodeFields, EncodeFields, EncOptIdentifier, TakeOptIdentifier, GoodIdentifier;
    var body := EncodeFields(fs) + rest;
    TakeU32Inverse(|fs|, body);
    TakeOptIdentifierInverse(id, U32(|fs|) + body);
    ConcatAssoc();
  }

  lemma DecodeVariantInverse(id: Option<Identifier>, ctor: seq<Byte>, x: Value, rest: seq<Byte>)
    requires (id.Some? ==> GoodIdentifier(id.value)) && FitsInt32(ctor)
    requires Decode(Encode(x) + rest) == Some((x, rest))
    ensures DecodeVariant(EncOptIdentifier(id) + EncBytes(ctor) + Encode(x) + rest) == Some((Variant(id, ctor, x), rest))
  {
    hide EncBytes, TakeBytes, Decode, Encode, EncOptIdentifier, TakeOptIdentifier, GoodIdentifier;
    var body := Encode(x) + rest;
    TakeBytesInverse(ctor, body);
    TakeOptIdentifierInverse(id, EncBytes(ctor) + body);
    ConcatAssoc();
  }

  lemma DecodeEnumInverse(id: Option<Identifier>, ctor: Str, rest: seq<Byte>)
    requires (id.Some? ==> GoodIdentifier(id.value)) && FitsInt32(ctor)
    ensures DecodeEnum(EncOptIdentifier(id) + EncBytes(ctor) + rest) == Some((Enum(id, Some(ctor)), rest))
  {
    hide EncBytes, TakeBytes, EncOptIdentifier, TakeOptIdentifier, GoodIdentifier;
    TakeBytesInverse(ctor, rest);
    TakeOptIdentifierInverse(id, EncBytes(ctor) + rest);
    ConcatAssoc();
  }

  /** Decode(Encode(v) ++ rest) = (v, rest) for every canonical value tree. */
  lemma {:induction false} DecodeEncode(v: Value, rest: seq<Byte>)
    requires Canonical(v)
    ensures Decode(Encode(v) + rest) == Some((v, rest))
    decreases v, 1
  {
    hide Encode, EncodeElems, EncodeTextEntries, EncodeGenEntries, EncodeFields, EncOptIdentifier, EncBytes, U32,
         DecodeList, DecodeTextMap, DecodeGenMap, DecodeRecord, DecodeVariant, DecodeEnum, GoodIdentifier;
    Peel(v, rest);
    match v {
      case Optional(Some(x)) =>
        Untag(1, Encode(x) + rest);
        Assoc([1], Encode(x), rest);
        DecodeEncode(x, rest);
      case List(es) =>
        DecodeEncodeElems(es, rest);
        DecodeListInverse(es, rest);
      case TextMap(es) =>
        DecodeEncodeTextEntries(es, rest);
        DecodeTextMapInverse(es, rest);
      case GenMap(es) =>
        DecodeEncodeGenEntries(es, rest);
        DecodeGenMapInverse(es, rest);
      case Record(id, fs) =>
        DecodeEncodeFields(fs, rest);
        DecodeRecordInverse(id, fs, rest);
      case Variant(id, ctor, x) =>
        DecodeEncode(x, rest);
        DecodeVariantInverse(id, ctor, x, rest);
      case Enum(id, ctor) =>
        DecodeEnumInverse(id, ctor.value, rest);
      case _ =>
        DecodeEncodeLeaf(v, rest);
    }
  }

  lemma {:induction false} DecodeEncodeElems(es: seq<Value>, rest: seq<Byte>)
    requires forall i :: 0 <= i < |es| ==> Canonical(es[i])
    ensures DecodeElems(|es|, EncodeElems(es) + rest) == Some((es, rest))
    decreases es, 0
  {
    hide Decode, Encode, Canonical;
    if |es| == 0 {
      assert EncodeElems(es) + rest == rest;
    } else {
      var tail := EncodeElems(es[1..]) + rest;
      DecodeEncode(es[0], tail);
      DecodeEncodeElems(es[1..], rest);
      Assoc(Encode(es[0]), EncodeElems(es[1..]), rest);
      assert es == [es[0]] + es[1..];
    }
  }

  lemma {:induction false} DecodeEncodeTextEntries(es: seq<TextEntry>, rest: seq<Byte>)
    requires forall i :: 0 <= i < |es| ==> FitsInt32(es[i].key) && Canonical(es[i].value)
    ensures DecodeTextEntries(|es|, EncodeTextEntries(es) + rest) == Some((es, rest))
    decreases es, 0
  {
    hide Decode, Encode, Canonical, EncodeTextEntry, DecodeTextEntry;
    if |es| == 0 {
      assert EncodeTextEntries(es) + rest == rest;
    } else {
      var tail := EncodeTextEntries(es[1..]) + rest;
      DecodeEncode(es[0].value, tail);
      DecodeTextEntryInverse(es[0], tail);
      DecodeEncodeTextEntries(es[1..], rest);
      Assoc(EncodeTextEntry(es[0]), EncodeTextEntries(es[1..]), rest);
      assert es == [es[0]] + es[1..];
    }
  }

  lemma DecodeTextEntryInverse(e: TextEntry, rest: seq<Byte>)
    requires FitsInt32(e.key) && Decode(Encode(e.value) + rest) == Some((e.value, rest))
    ensures DecodeTextEntry(EncodeTextEntry(e) + rest) == Some((e, rest))
  {
    hide EncBytes, TakeBytes, Encode, Decode;
    Assoc(EncBytes(e.key), Encode(e.value), rest);
    TakeBytesInverse(e.key, Encode(e.value) + rest);
  }

  lemma {:induction false} DecodeEncodeGenEntries(es: seq<GenEntry>, rest: seq<Byte>)
    requires forall i :: 0 <= i < |es| ==> CanonicalGenEntry(es[i])
    ensures DecodeGenEntries(|es|, EncodeGenEntries(es) + rest) == Some((es, rest))
    decreases es, 0
  {
    hide Decode, Encode, Canonical, EncodeGenEntry, DecodeGenEntry;
    if |es| == 0 {
      assert EncodeGenEntries(es) + rest == rest;
    } else {
      var tail := EncodeGenEntries(es[1..]) + rest;
      DecodeGenEntryInverse(es[0], tail);
      DecodeEncodeGenEntries(es[1..], rest);
      Assoc(EncodeGenEntry(es[0]), EncodeGenEntries(es[1..]), rest);
      assert es == [es[0]] + es[1..];
    }
  }

  lemma {:induction false} DecodeGenEntryInverse(e: GenEntry, rest: seq<Byte>)
    requires CanonicalGenEntry(e)
    ensures DecodeGenEntry(EncodeGenEntry(e) + rest) == Some((e, rest))
    decreases e, 0
  {
    hide Encode, Decode, Canonical;
    Assoc(Encode(e.genKey), Encode(e.genValue), rest);
    DecodeEncode(e.genKey, Encode(e.genValue) + rest);
    DecodeEncode(e.genValue, rest);
  }

  lemma {:induction false} DecodeEncodeFields(fs: seq<Field>, rest: seq<Byte>)
    requires forall i :: 0 <= i < |fs| ==> FitsInt32(fs[i].name) && Canonical(fs[i].fieldValue)
    ensures DecodeFields(|fs|, EncodeFields(fs) + rest) == Some((fs, rest))
    decreases fs, 0
  {
    hide Decode, Encode, Canonical, EncodeField, DecodeField;
    if |fs| == 0 {
      assert EncodeFields(fs) + rest == rest;
    } else {
      var tail := EncodeFields(fs[1..]) + rest;
      DecodeEncode(fs[0].fieldValue, tail);
      DecodeFieldInverse(fs[0], tail);
      DecodeEncodeFields(fs[1..], rest);
      Assoc(EncodeField(fs[0]), EncodeFields(fs[1..]), rest);
      assert fs == [fs[0]] + fs[1..];
    }
  }

  lemma DecodeFieldInverse(f: Field, rest: seq<Byte>)
    requires FitsInt32(f.name) && Decode(Encode(f.fieldValue) + rest) == Some((f.fieldValue, rest))
    ensures DecodeField(EncodeField(f) + rest) == Some((f, rest))
  {
    hide EncBytes, TakeBytes, Encode, Decode;
    var b := EncBytes(f.name) + (Encode(f.fieldValue) + rest);
    TakeBytesInverse(f.name, Encode(f.fieldValue) + rest);
    assert EncodeField(f) + rest == [1] + b by { ConcatAssoc(); }
    Untag(1, b);
  }

  /** No canonical encoding is a proper prefix of another: what follows cannot be absorbed. */
  lemma EncodeIsPrefixFree(v: Value, w: Value, r: seq<Byte>, s: seq<Byte>)
    requires Canonical(v) && Canonical(w)
    requires Encode(v) + r == Encode(w) + s
    ensures v == w && r == s
  {
    DecodeEncode(v, r);
    DecodeEncode(w, s);
  }
}
