/** The streaming value encoder (pb_hashing_parser.c): a counting pre-pass into one shared counter, a
    rewind, then mutually recursive callbacks that write as the fields go by. */
module ValueStream {
  import opened Bytes
  import opened CanonicalValue
  import opened HashWriter

  const VALUE_ELEM_COUNT_NONE: int := -1

  /** What a buffer holds besides the terminator. */
  const LABEL_MAX: nat := DEFAULT_DECODE_BUFFER_SIZE - 1

  // ------------------------------------------------------------------ the callbacks, as functions

  /** The parser's shared state: ctx.value_elem_count and the node hash stream. */
  datatype Walk = Walk(count: int, feed: Feed)

  function Write(w: Walk, b: seq<Byte>): Walk { w.(feed := Put(w.feed, b)) }

  /** count_value: it runs for the members that are messages, so a scalar leaves the counter stale. */
  function Counted(v: Value, count: int): int
  {
    match v
    case Unit => 0
    case Enum(_, _) => 0
    case Optional(x) => if x.Some? then 1 else 0
    case List(es) => |es|
    case TextMap(es) => |es|
    case GenMap(es) => |es|
    case Record(_, fs) => |fs|
    case Variant(id, _, _) => if id.Some? then 1 else 0
    case _ => count
  }

  function CutAtNul(s: seq<Byte>): (t: Str)
    ensures |t| <= |s|
    ensures |t| == |s| <==> 0 !in s
    ensures 0 !in s ==> t == s
  {
    if |s| == 0 || s[0] == 0 then [] else [s[0]] + CutAtNul(s[1..])
  }

  /** What one call of a string callback reads: as much as a buffer holds. */
  function Fill(raw: seq<Byte>): (n: nat)
    ensures n <= |raw| && (raw != [] ==> 0 < n)
  {
    if |raw| <= LABEL_MAX then |raw| else LABEL_MAX
  }

  /** A string read into a zeroed 64-byte buffer and then used as a C string. */
  function Buffered(raw: seq<Byte>): Str { CutAtNul(raw[..Fill(raw)]) }

  /** The callback of a string field is called until the field is used up, and writes every piece behind
      the same head. It is not called for a field the wire omits. */
  function StreamPieces(head: seq<Byte>, raw: seq<Byte>, w: Walk): Walk
    decreases |raw|
  {
    if raw == [] then w else StreamPieces(head, raw[Fill(raw)..], Write(w, head + EncBytes(Buffered(raw))))
  }

  function StreamLabel(raw: seq<Byte>, w: Walk): Walk { StreamPieces([0x01], raw, w) }

  /** Map keys and constructors. */
  function StreamName(raw: seq<Byte>, w: Walk): Walk { StreamPieces([], raw, w) }

  function StreamIdentifier(id: Option<Identifier>, w: Walk): Walk
  {
    if id.None? then w else w.(feed := FeedIdentifier(w.feed, id.value))
  }

  /** decode_value_primitive_variants. */
  function StreamPrimitive(v: Value, w: Walk): Walk
  {
    match v
    case Unit => Write(w, [0x00])
    case Bool(b) => Write(Write(w, [0x01]), [if b then 1 else 0])
    case Int64(i) => Write(Write(w, [0x02]), U64(i))
    case Date(d) => Write(Write(w, [0x05]), U32(d))
    case Timestamp(t) => Write(Write(w, [0x04]), U64(t))
    case Numeric(s) => Write(Write(w, [0x03]), EncBytes(s))
    case Party(s) => Write(Write(w, [0x06]), EncBytes(s))
    case Text(s) => Write(Write(w, [0x07]), EncBytes(s))
    case ContractId(s) =>
      var w1 := Write(w, [0x08]);
      w1.(feed := FeedHex(w1.feed, Some(s)))
    case _ => w
  }

  /** A presence byte taken from the counter, which is then spent. */
  function StreamPresence(tag: Byte, w: Walk): Walk
  {
    Write(w, [tag, if w.count == 0 then 0x00 else 0x01]).(count := VALUE_ELEM_COUNT_NONE)
  }

  function StreamCount(tag: Byte, w: Walk): Walk
  {
    Write(Write(w, [tag]), U32(w.count)).(count := VALUE_ELEM_COUNT_NONE)
  }

  /** decode_record_id: presence byte, identifier, then the pending count. */
  function StreamRecordId(id: Option<Identifier>, w: Walk): Walk
  {
    if id.None? then w
    else
      var w1 := StreamIdentifier(id, Write(w, [0x01]));
      if w1.count != VALUE_ELEM_COUNT_NONE then Write(w1, U32(w1.count)).(count := VALUE_ELEM_COUNT_NONE) else w1
  }

  /** decode_enum: it returns with the submessage consumed, so nothing else writes. */
  function StreamEnum(id: Option<Identifier>, ctor: Option<Str>, w: Walk): Walk
  {
    var w1 := if id.Some? then StreamIdentifier(id, Write(w, [0x01])) else Write(w, [0x00]);
    w1.(feed := FeedString(w1.feed, ctor))
  }

  /** decode_value_variant and the callbacks it installs, in parsed field order. */
  function StreamVariant(v: Value, w: Walk): Walk
    decreases v, 0
  {
    match v
    case Optional(None) => StreamPresence(0x09, w)
    case Optional(Some(x)) => StreamCounted(x, StreamPresence(0x09, w))
    case List(es) => StreamElems(es, StreamCount(0x0A, w))
    case TextMap(es) => StreamTextEntries(es, StreamCount(0x0B, w))
    case GenMap(es) => StreamGenEntries(es, StreamCount(0x0F, w))
    case Record(id, fs) => StreamFields(fs, StreamRecordId(id, Write(w, [0x0C])))
    case Variant(id, ctor, x) => StreamCounted(x, StreamName(ctor, StreamIdentifier(id, StreamPresence(0x0D, w))))
    case Enum(id, ctor) => StreamEnum(id, ctor, Write(w, [0x0E]))
    case _ => w
  }

  function StreamValue(v: Value, w: Walk): Walk
    decreases v, 1
  {
    StreamPrimitive(v, StreamVariant(v, w))
  }

  /** decode_value_field, decode_list_elem and decode_value: count, rewind, decode. */
  function StreamCounted(v: Value, w: Walk): Walk
    decreases v, 2
  {
    StreamValue(v, w.(count := Counted(v, w.count)))
  }

  function StreamElems(es: seq<Value>, w: Walk): Walk
  {
    if |es| == 0 then w else StreamElems(es[1..], StreamCounted(es[0], w))
  }

  function StreamTextEntries(es: seq<TextEntry>, w: Walk): Walk
  {
    if |es| == 0 then w else StreamTextEntries(es[1..], StreamTextEntry(es[0], w))
  }

  function StreamTextEntry(e: TextEntry, w: Walk): Walk
  {
    StreamValue(e.value, StreamName(e.key, w.(count := Counted(e.value, w.count))))
  }

  function StreamGenEntries(es: seq<GenEntry>, w: Walk): Walk
  {
    if |es| == 0 then w else StreamGenEntries(es[1..], StreamGenEntry(es[0], w))
  }

  /** decode_gen_map_entry counts the entry's value only, then decodes the key and the value. */
  function StreamGenEntry(e: GenEntry, w: Walk): Walk
  {
    StreamValue(e.genValue, StreamValue(e.genKey, w.(count := Counted(e.genValue, w.count))))
  }

  function StreamFields(fs: seq<Field>, w: Walk): Walk
  {
    if |fs| == 0 then w else StreamFields(fs[1..], StreamField(fs[0], w))
  }

  function StreamField(f: Field, w: Walk): Walk
  {
    StreamValue(f.fieldValue, StreamLabel(f.name, w.(count := Counted(f.fieldValue, w.count))))
  }

  // ------------------------------------------------------------------ the domain

  /** A string the 64-byte buffer reads whole. */
  predicate Short(raw: seq<Byte>) { 1 <= |raw| <= LABEL_MAX && 0 !in raw }

  /** Map keys that do not consume the counter: scalars, unit and enums. */
  predicate SimpleKey(v: Value)
  {
    !(v.Optional? || v.List? || v.TextMap? || v.GenMap? || v.Record? || v.Variant?)
  }

  predicate SimpleKeys(v: Value)
  {
    match v
    case Optional(Some(x)) => SimpleKeys(x)
    case List(es) => forall i :: 0 <= i < |es| ==> SimpleKeys(es[i])
    case TextMap(es) => forall i :: 0 <= i < |es| ==> SimpleKeys(es[i].value)
    case GenMap(es) => forall i :: 0 <= i < |es| ==> SimpleKey(es[i].genKey) && SimpleKeys(es[i].genValue)
    case Record(_, fs) => forall i :: 0 <= i < |fs| ==> SimpleKeys(fs[i].fieldValue)
    case Variant(_, _, x) => SimpleKeys(x)
    case _ => true
  }

  /** Every record names its id, and labels, keys and constructors are short. */
  predicate Readable(v: Value)
  {
    match v
    case Optional(Some(x)) => Readable(x)
    case List(es) => forall i :: 0 <= i < |es| ==> Readable(es[i])
    case TextMap(es) => forall i :: 0 <= i < |es| ==> Short(es[i].key) && Readable(es[i].value)
    case GenMap(es) => forall i :: 0 <= i < |es| ==> Readable(es[i].genValue)
    case Record(id, fs) => id.Some? && forall i :: 0 <= i < |fs| ==> Short(fs[i].name) && Readable(fs[i].fieldValue)
    case Variant(_, ctor, x) => Short(ctor) && Readable(x)
    case _ => true
  }

  // ------------------------------------------------------------------ leaves

  /** A short string is read whole in one piece. */
  lemma BufferedIsWhole(raw: seq<Byte>)
    ensures |Buffered(raw)| <= LABEL_MAX && |Buffered(raw)| <= |raw|
    ensures Short(raw) ==> Buffered(raw) == raw
    ensures raw != [] && !Short(raw) ==> |Buffered(raw)| < |raw|
  {
    assert |raw| <= LABEL_MAX ==> raw[..Fill(raw)] == raw;
  }

  lemma EnumWrites(id: Option<Identifier>, ctor: Option<Str>, w: Walk)
    ensures StreamEnum(id, ctor, w).feed.out == w.feed.out + (EncOptIdentifier(id) + EncString(ctor))
    ensures StreamEnum(id, ctor, w).count == w.count
  {
    hide EncBytes, EncIdentifier, FeedIdentifier;
    var out := w.feed.out;
    if id.Some? {
      FeedIdentifierWrites(Put(w.feed, [0x01]), id.value);
      Assoc(out, [0x01], EncIdentifier(id.value));
    }
    Assoc(out, EncOptIdentifier(id), EncString(ctor));
    assert out + EncOptIdentifier(id) + [] == out + EncOptIdentifier(id);
  }

  lemma PrimitiveWrites(v: Value, w: Walk)
    requires SimpleKey(v)
    ensures StreamValue(v, w).feed.out == w.feed.out + Encode(v)
    ensures StreamValue(v, w).count == w.count
  {
    hide U32, U64, EncBytes, StreamEnum, EncOptIdentifier, EncString;
    var out := w.feed.out;
    match v {
      case NoValue => assert out + [] == out;
      case Unit => assert [0x00] + [] == [0x00];
      case ContractId(s) =>
        Assoc(out, [0x08], EncHex(Some(s)));
        assert |s| % 2 != 0 ==> out + [0x08] + [] == out + [0x08];
      case Enum(id, ctor) =>
        EnumWrites(id, ctor, Write(w, [0x0E]));
        Assoc(out, [0x0E], EncOptIdentifier(id) + EncString(ctor));
      case _ => Assoc(out, [Tag(v)], Body(v));
    }
  }

  // ------------------------------------------------------------------ when the stream is canonical

  /** Where decoding a value leaves the counter. */
  function CountAfter(v: Value, count: int): int
    decreases v, 1
  {
    match v
    case Optional(None) => VALUE_ELEM_COUNT_NONE
    case Optional(Some(x)) => AfterCounted(x, VALUE_ELEM_COUNT_NONE)
    case List(es) => AfterElems(es, VALUE_ELEM_COUNT_NONE)
    case TextMap(es) => AfterTextEntries(es, VALUE_ELEM_COUNT_NONE)
    case GenMap(es) => AfterGenEntries(es, VALUE_ELEM_COUNT_NONE)
    case Record(id, fs) => AfterFields(fs, if id.Some? then VALUE_ELEM_COUNT_NONE else count)
    case Variant(_, _, x) => AfterCounted(x, VALUE_ELEM_COUNT_NONE)
    case _ => count
  }

  function AfterCounted(v: Value, count: int): int
    decreases v, 2
  {
    CountAfter(v, Counted(v, count))
  }

  function AfterElems(es: seq<Value>, count: int): int
  {
    if |es| == 0 then count else AfterElems(es[1..], AfterCounted(es[0], count))
  }

  function AfterTextEntries(es: seq<TextEntry>, count: int): int
  {
    if |es| == 0 then count else AfterTextEntries(es[1..], AfterCounted(es[0].value, count))
  }

  function AfterGenEntries(es: seq<GenEntry>, count: int): int
  {
    if |es| == 0 then count else AfterGenEntries(es[1..], AfterGenEntry(es[0], count))
  }

  function AfterGenEntry(e: GenEntry, count: int): int
  {
    CountAfter(e.genValue, CountAfter(e.genKey, Counted(e.genValue, count)))
  }

  function AfterFields(fs: seq<Field>, count: int): int
  {
    if |fs| == 0 then count else AfterFields(fs[1..], AfterCounted(fs[0].fieldValue, count))
  }

  /** What the first departure from the canonical bytes does. Kept: there is none. Broken: some byte is
      written differently, whatever follows. Shifted: something is left out, and what follows moves up. */
  datatype Fate = Kept | Broken | Shifted

  function Then(p: Fate, q: Fate): Fate { if p == Kept then q else p }

  function FateIf(kept: bool): Fate { if kept then Kept else Broken }

  /** The counter holds n, as far as the four bytes written for it tell. */
  predicate Counts(count: int, n: nat) { Wrap32(count) == Wrap32(n) }

  /** A name is left out when it is empty; a longer one is kept when one buffer reads it whole, and
      otherwise its length is written differently. */
  function FateOfName(raw: seq<Byte>): Fate
  {
    if Short(raw) then Kept else if raw == [] || !FitsInt32(raw) then Shifted else Broken
  }

  predicate IsLabelled(fs: seq<Field>) { 0 < |fs| < 0x100_0000 && fs[0].name != [] }

  /** Without an id neither presence byte nor count is written, and the count only while one is pending. */
  function FateOfRecord(id: Option<Identifier>, count: int, fs: seq<Field>): Fate
  {
    if id.Some? && count != VALUE_ELEM_COUNT_NONE then FateIf(Counts(count, |fs|))
    else if IsLabelled(fs) then Broken
    else Shifted
  }

  /** The fate of a value met with this counter. */
  function FateOf(v: Value, count: int): Fate
    decreases v, 1
  {
    match v
    case Optional(None) => FateIf(count == 0)
    case Optional(Some(x)) => Then(FateIf(count != 0), FateCounted(x, VALUE_ELEM_COUNT_NONE))
    case List(es) => Then(FateIf(Counts(count, |es|)), FateOfElems(es, VALUE_ELEM_COUNT_NONE))
    case TextMap(es) => Then(FateIf(Counts(count, |es|)), FateOfTextEntries(es, VALUE_ELEM_COUNT_NONE))
    case GenMap(es) => Then(FateIf(Counts(count, |es|)), FateOfGenEntries(es, VALUE_ELEM_COUNT_NONE))
    case Record(id, fs) => Then(FateOfRecord(id, count, fs), FateOfFields(fs, if id.Some? then VALUE_ELEM_COUNT_NONE else count))
    case Variant(id, ctor, x) => Then(Then(FateIf((count != 0) == id.Some?), FateOfName(ctor)), FateCounted(x, VALUE_ELEM_COUNT_NONE))
    case _ => Kept
  }

  function FateCounted(v: Value, count: int): Fate
    decreases v, 2
  {
    FateOf(v, Counted(v, count))
  }

  function FateOfElems(es: seq<Value>, count: int): Fate
  {
    if |es| == 0 then Kept else Then(FateCounted(es[0], count), FateOfElems(es[1..], AfterCounted(es[0], count)))
  }

  function FateOfTextEntry(e: TextEntry, count: int): Fate
  {
    Then(FateOfName(e.key), FateCounted(e.value, count))
  }

  function FateOfTextEntries(es: seq<TextEntry>, count: int): Fate
  {
    if |es| == 0 then Kept else Then(FateOfTextEntry(es[0], count), FateOfTextEntries(es[1..], AfterCounted(es[0].value, count)))
  }

  /** The key meets the counter of the entry's value, the value whatever the key leaves. */
  function FateOfGenEntry(e: GenEntry, count: int): Fate
  {
    var c := Counted(e.genValue, count);
    Then(FateOf(e.genKey, c), FateOf(e.genValue, CountAfter(e.genKey, c)))
  }

  function FateOfGenEntries(es: seq<GenEntry>, count: int): Fate
  {
    if |es| == 0 then Kept else Then(FateOfGenEntry(es[0], count), FateOfGenEntries(es[1..], AfterGenEntry(es[0], count)))
  }

  function FateOfField(f: Field, count: int): Fate
  {
    Then(FateOfName(f.name), FateCounted(f.fieldValue, count))
  }

  function FateOfFields(fs: seq<Field>, count: int): Fate
  {
    if |fs| == 0 then Kept else Then(FateOfField(fs[0], count), FateOfFields(fs[1..], AfterCounted(fs[0].fieldValue, count)))
  }

  /** No label, key or constructor needs more than one buffer; empty ones and NULs are allowed. */
  predicate Bounded(v: Value)
  {
    match v
    case Optional(Some(x)) => Bounded(x)
    case List(es) => BoundedElems(es)
    case TextMap(es) => BoundedTextEntries(es)
    case GenMap(es) => BoundedGenEntries(es)
    case Record(_, fs) => BoundedFields(fs)
    case Variant(_, ctor, x) => |ctor| <= LABEL_MAX && Bounded(x)
    case _ => true
  }

  predicate BoundedElems(es: seq<Value>) { |es| > 0 ==> Bounded(es[0]) && BoundedElems(es[1..]) }

  predicate BoundedTextEntry(e: TextEntry) { |e.key| <= LABEL_MAX && Bounded(e.value) }

  predicate BoundedTextEntries(es: seq<TextEntry>) { |es| > 0 ==> BoundedTextEntry(es[0]) && BoundedTextEntries(es[1..]) }

  predicate BoundedGenEntry(e: GenEntry) { Bounded(e.genKey) && Bounded(e.genValue) }

  predicate BoundedGenEntries(es: seq<GenEntry>) { |es| > 0 ==> BoundedGenEntry(es[0]) && BoundedGenEntries(es[1..]) }

  predicate BoundedField(f: Field) { |f.name| <= LABEL_MAX && Bounded(f.fieldValue) }

  predicate BoundedFields(fs: seq<Field>) { |fs| > 0 ==> BoundedField(fs[0]) && BoundedFields(fs[1..]) }

  // ------------------------------------------------------------------ appending

  /** Some byte after the first a is not the one expected. */
  ghost predicate Differs(a: nat, b: seq<Byte>, expected: seq<Byte>) { exists i :: a <= i < |b| && i < |expected| && b[i] != expected[i] }

  /** Something was appended to a: the canonical bytes when the fate is Kept, a differing byte when it is
      Broken. With bounded names it is never longer than they are, and shorter when the fate is Shifted. */
  ghost predicate Appends(a: seq<Byte>, b: seq<Byte>, canonical: seq<Byte>, fate: Fate, bounded: bool)
  {
    |a| <= |b| && b[..|a|] == a &&
    (fate == Kept ==> b == a + canonical) &&
    (fate == Broken ==> Differs(|a|, b, a + canonical)) &&
    (bounded ==> |b| <= |a| + |canonical| && (fate == Shifted ==> |b| < |a| + |canonical|))
  }

  ghost predicate Streams(before: Walk, after: Walk, canonical: seq<Byte>, fate: Fate, bounded: bool, count: int)
  {
    Appends(before.feed.out, after.feed.out, canonical, fate, bounded) && after.count == count
  }

  lemma AppendsNothing(a: seq<Byte>)
    ensures Appends(a, a, [], Kept, true)
  {
    assert a + [] == a;
  }

  lemma AppendsAll(a: seq<Byte>, x: seq<Byte>)
    ensures Appends(a, a + x, x, Kept, true)
  {
  }

  /** Bytes of the right number are the right ones, or one of them differs. */
  lemma AppendsSized(a: seq<Byte>, d: seq<Byte>, x: seq<Byte>)
    requires |d| == |x|
    ensures Appends(a, a + d, x, FateIf(d == x), true)
  {
    if d != x {
      var k :| 0 <= k < |x| && d[k] != x[k];
      assert (a + d)[|a| + k] != (a + x)[|a| + k];
    }
  }

  lemma AppendsLess(a: seq<Byte>, d: seq<Byte>, x: seq<Byte>)
    requires |d| < |x|
    ensures Appends(a, a + d, x, Shifted, true)
  {
  }

  /** What comes first decides, unless it is kept. */
  lemma AppendsThen(a: seq<Byte>, b: seq<Byte>, c: seq<Byte>, x: seq<Byte>, y: seq<Byte>, p: Fate, q: Fate, m: bool, n: bool)
    requires Appends(a, b, x, p, m) && Appends(b, c, y, q, n)
    ensures Appends(a, c, x + y, Then(p, q), m && n)
  {
    Assoc(a, x, y);
    assert c[..|a|] == a by {
      assert c[..|b|][..|a|] == c[..|a|];
    }
    if p == Broken {
      var i :| |a| <= i < |b| && i < |a + x| && b[i] != (a + x)[i];
      assert c[i] == c[..|b|][i] == b[i] && (a + (x + y))[i] == (a + x)[i];
    }
  }

  /** A head that breaks: nothing that is appended to it, here or there, can mend it. */
  lemma AppendsBroken(a: seq<Byte>, d: seq<Byte>, b: seq<Byte>, e: seq<Byte>, x: seq<Byte>, bounded: bool)
    requires |d| == |e| && d != e && |a| + |d| <= |b| && b[..|a| + |d|] == a + d && |e| <= |x| && x[..|e|] == e
    requires bounded ==> |b| <= |a| + |x|
    ensures Appends(a, b, x, Broken, bounded)
  {
    var k :| 0 <= k < |d| && d[k] != e[k];
    assert b[|a| + k] == b[..|a| + |d|][|a| + k] == (a + d)[|a| + k] == d[k];
    assert (a + x)[|a| + k] == x[k] == x[..|e|][k] == e[k];
    assert b[..|a|] == a by {
      assert b[..|a| + |d|][..|a|] == b[..|a|];
    }
  }

  // ------------------------------------------------------------------ headers

  lemma CountsIff(count: int, n: nat)
    ensures U32(count) == U32(n) <==> Counts(count, n)
  {
    hide BigEndian, FromBigEndian;
    WordInverse(count);
    WordInverse(n);
  }

  lemma CountStreams(tag: Byte, n: nat, w: Walk)
    ensures Streams(w, StreamCount(tag, w), [tag] + U32(n), FateIf(Counts(w.count, n)), true, VALUE_ELEM_COUNT_NONE)
  {
    hide U32, Counts, Appends;
    CountsIff(w.count, n);
    AppendsSized(w.feed.out, [tag] + U32(w.count), [tag] + U32(n));
    Assoc(w.feed.out, [tag], U32(w.count));
    Untag(tag, U32(w.count));
    Untag(tag, U32(n));
  }

  lemma PresenceStreams(tag: Byte, present: bool, w: Walk)
    ensures Streams(w, StreamPresence(tag, w), [tag] + [if present then 1 else 0], FateIf((w.count != 0) == present), true, VALUE_ELEM_COUNT_NONE)
  {
    hide Appends;
    var d := [tag, if w.count == 0 then 0x00 else 0x01];
    AppendsSized(w.feed.out, d, [tag] + [if present then 1 else 0]);
    assert d[1] == 0 <==> w.count == 0;
  }

  lemma IdentifierStreams(id: Option<Identifier>, w: Walk)
    ensures Streams(w, StreamIdentifier(id, w), if id.None? then [] else EncIdentifier(id.value), Kept, true, w.count)
  {
    hide EncIdentifier, FeedIdentifier, Appends;
    if id.None? {
      AppendsNothing(w.feed.out);
    } else {
      FeedIdentifierWrites(w.feed, id.value);
      AppendsAll(w.feed.out, EncIdentifier(id.value));
    }
  }

  // ------------------------------------------------------------------ names

  lemma {:induction false} PiecesGrow(head: seq<Byte>, raw: seq<Byte>, w: Walk)
    ensures StreamPieces(head, raw, w).count == w.count && StreamPieces(head, raw, w).feed.err == w.feed.err
    ensures |w.feed.out| <= |StreamPieces(head, raw, w).feed.out| && StreamPieces(head, raw, w).feed.out[..|w.feed.out|] == w.feed.out
    decreases |raw|
  {
    hide Buffered, EncBytes;
    if raw != [] {
      var w1 := Write(w, head + EncBytes(Buffered(raw)));
      PiecesGrow(head, raw[Fill(raw)..], w1);
      assert StreamPieces(head, raw, w).feed.out[..|w1.feed.out|][..|w.feed.out|] == w.feed.out;
    }
  }

  /** One piece is all there is of a name that fits the buffer. */
  lemma OnePiece(head: seq<Byte>, raw: seq<Byte>, w: Walk)
    requires raw != [] && |raw| <= LABEL_MAX
    ensures StreamPieces(head, raw, w) == Write(w, head + EncBytes(Buffered(raw)))
  {
    hide Buffered, EncBytes;
    assert raw[Fill(raw)..] == [];
  }

  /** A name that one buffer does not read whole differs in its length, whatever is written after it: a
      NUL makes it shorter, and a long one is written in pieces of at most 63 bytes. */
  lemma LongNameDiverges(head: seq<Byte>, raw: seq<Byte>, w: Walk)
    requires raw != [] && !Short(raw) && FitsInt32(raw)
    ensures Differs(|w.feed.out|, StreamPieces(head, raw, w).feed.out, w.feed.out + (head + EncBytes(raw)))
    ensures Appends(w.feed.out, StreamPieces(head, raw, w).feed.out, head + EncBytes(raw), Broken, |raw| <= LABEL_MAX)
  {
    hide U32, Buffered;
    var a, b, first := w.feed.out, StreamPieces(head, raw, w).feed.out, Buffered(raw);
    BufferedIsWhole(raw);
    var w1 := Write(w, head + EncBytes(first));
    PiecesGrow(head, raw[Fill(raw)..], w1);
    assert U32(|first|) != U32(|raw|) by {
      CountsIff(|first|, |raw|);
    }
    var d, e := head + U32(|first|), head + U32(|raw|);
    assert d[|head|..] == U32(|first|) && e[|head|..] == U32(|raw|);
    assert b[..|a| + |d|] == a + d by {
      assert b[..|w1.feed.out|] == w1.feed.out == a + (head + (U32(|first|) + first)) == a + d + first;
      assert b[..|w1.feed.out|][..|a| + |d|] == b[..|a| + |d|];
    }
    assert (head + EncBytes(raw))[..|e|] == e;
    if |raw| <= LABEL_MAX {
      OnePiece(head, raw, w);
    }
    AppendsBroken(a, d, b, e, head + EncBytes(raw), |raw| <= LABEL_MAX);
  }

  lemma PiecesStream(head: seq<Byte>, raw: seq<Byte>, w: Walk)
    ensures Streams(w, StreamPieces(head, raw, w), head + EncBytes(raw), FateOfName(raw), |raw| <= LABEL_MAX, w.count)
  {
    hide U32, Buffered, Differs;
    BufferedIsWhole(raw);
    PiecesGrow(head, raw, w);
    if raw == [] {
      AppendsLess(w.feed.out, [], head + EncBytes(raw));
      assert w.feed.out + [] == w.feed.out;
    } else if Short(raw) {
      OnePiece(head, raw, w);
      AppendsAll(w.feed.out, head + EncBytes(raw));
    } else if FitsInt32(raw) {
      LongNameDiverges(head, raw, w);
    }
  }

  lemma NameStreams(raw: seq<Byte>, w: Walk)
    ensures Streams(w, StreamName(raw, w), EncBytes(raw), FateOfName(raw), |raw| <= LABEL_MAX, w.count)
  {
    hide StreamPieces, EncBytes, FateOfName, Appends;
    PiecesStream([], raw, w);
    assert [] + EncBytes(raw) == EncBytes(raw);
  }

  lemma LabelStreams(raw: seq<Byte>, w: Walk)
    ensures Streams(w, StreamLabel(raw, w), [0x01] + EncBytes(raw), FateOfName(raw), |raw| <= LABEL_MAX, w.count)
  {
    hide StreamPieces, EncBytes, FateOfName, Appends;
    PiecesStream([0x01], raw, w);
  }

  lemma VariantStreams(id: Option<Identifier>, ctor: seq<Byte>, w: Walk)
    ensures Streams(w, StreamName(ctor, StreamIdentifier(id, StreamPresence(0x0D, w))), [0x0D] + (EncOptIdentifier(id) + EncBytes(ctor)),
                    Then(FateIf((w.count != 0) == id.Some?), FateOfName(ctor)), |ctor| <= LABEL_MAX, VALUE_ELEM_COUNT_NONE)
  {
    hide StreamName, StreamIdentifier, StreamPresence, EncIdentifier, EncBytes, FateOfName, Appends;
    var w1 := StreamPresence(0x0D, w);
    var w2 := StreamIdentifier(id, w1);
    var w3 := StreamName(ctor, w2);
    var presence, ident := [if id.Some? then 1 else 0], if id.None? then [] else EncIdentifier(id.value);
    var p := FateIf((w.count != 0) == id.Some?);
    PresenceStreams(0x0D, id.Some?, w);
    IdentifierStreams(id, w1);
    NameStreams(ctor, w2);
    AppendsThen(w.feed.out, w1.feed.out, w2.feed.out, [0x0D] + presence, ident, p, Kept, true, true);
    AppendsThen(w.feed.out, w2.feed.out, w3.feed.out, [0x0D] + presence + ident, EncBytes(ctor), p, FateOfName(ctor), true, |ctor| <= LABEL_MAX);
    assert EncOptIdentifier(id) == presence + ident by {
      assert [0] + [] == [0];
    }
    Assoc([0x0D], presence, ident);
    Assoc([0x0D], EncOptIdentifier(id), EncBytes(ctor));
  }

  // ------------------------------------------------------------------ the exact condition

  /** Every value tree, met with any counter: the stream's fate is that of the value. */
  lemma {:induction false} ValueStreams(v: Value, w: Walk)
    ensures Streams(w, StreamValue(v, w), Encode(v), FateOf(v, w.count), Bounded(v), CountAfter(v, w.count))
    decreases v, 1
  {
    hide StreamCounted, StreamCount, StreamPresence, StreamRecordId, StreamElems, StreamTextEntries, StreamGenEntries, StreamFields,
         EncodeElems, EncodeTextEntries, EncodeGenEntries, EncodeFields, U32, EncOptIdentifier, EncBytes, Counts,
         StreamName, StreamIdentifier, Appends, FateCounted, FateOfElems, FateOfTextEntries, FateOfGenEntries, FateOfFields, FateOfName, FateOfRecord,
         AfterCounted, AfterElems, AfterTextEntries, AfterGenEntries, AfterFields, StreamEnum, FateIf, Then,
         BoundedElems, BoundedTextEntries, BoundedGenEntries, BoundedFields;
    var c, out := w.count, w.feed.out;
    match v {
      case Optional(None) =>
        PresenceStreams(0x09, false, w);
      case Optional(Some(x)) =>
        var w1 := StreamPresence(0x09, w);
        PresenceStreams(0x09, true, w);
        CountedStreams(x, w1);
        AppendsThen(out, w1.feed.out, StreamCounted(x, w1).feed.out, [0x09] + [0x01], Encode(x), FateIf(c != 0),
                    FateCounted(x, VALUE_ELEM_COUNT_NONE), true, Bounded(x));
        Assoc([0x09], [0x01], Encode(x));
      case List(es) =>
        var w1 := StreamCount(0x0A, w);
        CountStreams(0x0A, |es|, w);
        ElemsStream(es, w1);
        assert StreamValue(v, w) == StreamElems(es, w1);
        AppendsThen(out, w1.feed.out, StreamElems(es, w1).feed.out, [0x0A] + U32(|es|), EncodeElems(es), FateIf(Counts(c, |es|)),
                    FateOfElems(es, VALUE_ELEM_COUNT_NONE), true, BoundedElems(es));
        Assoc([0x0A], U32(|es|), EncodeElems(es));
      case TextMap(es) =>
        var w1 := StreamCount(0x0B, w);
        CountStreams(0x0B, |es|, w);
        TextEntriesStream(es, w1);
        assert StreamValue(v, w) == StreamTextEntries(es, w1);
        AppendsThen(out, w1.feed.out, StreamTextEntries(es, w1).feed.out, [0x0B] + U32(|es|), EncodeTextEntries(es), FateIf(Counts(c, |es|)),
                    FateOfTextEntries(es, VALUE_ELEM_COUNT_NONE), true, BoundedTextEntries(es));
        Assoc([0x0B], U32(|es|), EncodeTextEntries(es));
      case GenMap(es) =>
        var w1 := StreamCount(0x0F, w);
        CountStreams(0x0F, |es|, w);
        GenEntriesStream(es, w1);
        assert StreamValue(v, w) == StreamGenEntries(es, w1);
        AppendsThen(out, w1.feed.out, StreamGenEntries(es, w1).feed.out, [0x0F] + U32(|es|), EncodeGenEntries(es), FateIf(Counts(c, |es|)),
                    FateOfGenEntries(es, VALUE_ELEM_COUNT_NONE), true, BoundedGenEntries(es));
        Assoc([0x0F], U32(|es|), EncodeGenEntries(es));
      case Record(id, fs) => RecordStreams(id, fs, w);
      case Variant(id, ctor, x) => VariantIsStreamed(id, ctor, x, w);
      case _ =>
        PrimitiveWrites(v, w);
        AppendsAll(out, Encode(v));
    }
  }

  /** The first byte a labelled record writes behind its head. */
  lemma {:induction false} FirstLabelByte(fs: seq<Field>, w: Walk)
    requires |fs| > 0 && fs[0].name != []
    ensures
      var a, b := w.feed.out, StreamFields(fs, w).feed.out;
      |a| < |b| && b[..|a| + 1] == a + [0x01]
    decreases fs, 0
  {
    hide StreamValue, Buffered, EncBytes, Encode, EncodeFields, Differs, FateOf, FateOfFields, FateCounted, Bounded, BoundedFields,
         Counted, CountAfter, AfterFields, AfterCounted;
    var f := fs[0];
    var w0 := w.(count := Counted(f.fieldValue, w.count));
    var w1 := Write(w0, [0x01] + EncBytes(Buffered(f.name)));
    var w2 := StreamLabel(f.name, w0);
    PiecesGrow([0x01], f.name[Fill(f.name)..], w1);
    ValueStreams(f.fieldValue, w2);
    FieldsStream(fs[1..], StreamField(f, w));
    var a, b := w.feed.out, StreamFields(fs, w).feed.out;
    assert w1.feed.out[..|a| + 1] == a + [0x01];
    assert w2.feed.out[..|w1.feed.out|][..|a| + 1] == w2.feed.out[..|a| + 1];
    assert StreamField(f, w).feed.out[..|w2.feed.out|][..|a| + 1] == StreamField(f, w).feed.out[..|a| + 1];
    assert b[..|StreamField(f, w).feed.out|][..|a| + 1] == b[..|a| + 1];
  }

  lemma SmallCount(n: nat)
    requires n < 0x100_0000
    ensures U32(n)[0] == 0
  {
    assert n / 256 / 256 / 256 == 0;
    assert BigEndian(n, 4)[..3] == BigEndian(n / 256, 3);
    assert BigEndian(n / 256, 3)[..2] == BigEndian(n / 256 / 256, 2);
    assert BigEndian(n / 256 / 256, 2)[..1] == BigEndian(n / 256 / 256 / 256, 1);
  }

  /** The head as it is written, and the head that is canonical. */
  lemma RecordHead(id: Option<Identifier>, w: Walk)
    ensures
      var w1 := StreamRecordId(id, Write(w, [0x0C]));
      w1.count == (if id.Some? then VALUE_ELEM_COUNT_NONE else w.count) &&
      w1.feed.out == w.feed.out + if id.None? then [0x0C] else
        [0x0C] + EncOptIdentifier(id) + if w.count == VALUE_ELEM_COUNT_NONE then [] else U32(w.count)
  {
    hide U32, EncIdentifier, FeedIdentifier;
    var out := w.feed.out;
    if id.Some? {
      FeedIdentifierWrites(Put(Put(w.feed, [0x0C]), [0x01]), id.value);
      var head := [0x0C] + EncOptIdentifier(id);
      assert out + [0x0C] + [0x01] + EncIdentifier(id.value) == out + head by { ConcatAssoc(); }
      assert head + [] == head;
      Assoc(out, head, U32(w.count));
    }
  }

  lemma {:induction false} RecordStreams(id: Option<Identifier>, fs: seq<Field>, w: Walk)
    ensures var v := Record(id, fs);
      Streams(w, StreamValue(v, w), Encode(v), FateOf(v, w.count), Bounded(v), CountAfter(v, w.count))
    decreases fs, 2
  {
    hide StreamRecordId, StreamFields, EncodeFields, U32, EncOptIdentifier, Appends, FateOfFields, FateOfRecord, AfterFields, BoundedFields;
    var w1 := StreamRecordId(id, Write(w, [0x0C]));
    var x, y := [0x0C] + (EncOptIdentifier(id) + U32(|fs|)), EncodeFields(fs);
    RecordHead(id, w);
    FieldsStream(fs, w1);
    Assoc([0x0C], EncOptIdentifier(id) + U32(|fs|), y);
    if id.Some? && w.count != VALUE_ELEM_COUNT_NONE {
      CountedHeadStreams(id, fs, w);
      AppendsThen(w.feed.out, w1.feed.out, StreamFields(fs, w1).feed.out, x, y, FateOfRecord(id, w.count, fs), FateOfFields(fs, w1.count), true, BoundedFields(fs));
    } else {
      UncountedHeadStreams(id, fs, w);
      AppendsThen(w.feed.out, w1.feed.out, StreamFields(fs, w1).feed.out, x, y, Shifted, FateOfFields(fs, w1.count), true, BoundedFields(fs));
      UncountedRecord(id, fs, w);
    }
  }

  /** With an id and a pending count the head has the right length. */
  lemma CountedHeadStreams(id: Option<Identifier>, fs: seq<Field>, w: Walk)
    requires id.Some? && w.count != VALUE_ELEM_COUNT_NONE
    ensures Appends(w.feed.out, StreamRecordId(id, Write(w, [0x0C])).feed.out, [0x0C] + (EncOptIdentifier(id) + U32(|fs|)),
                    FateOfRecord(id, w.count, fs), true)
  {
    hide StreamRecordId, EncOptIdentifier, U32, Appends, Counts;
    var head := [0x0C] + EncOptIdentifier(id);
    RecordHead(id, w);
    CountsIff(w.count, |fs|);
    AppendsSized(w.feed.out, head + U32(w.count), head + U32(|fs|));
    assert (head + U32(w.count))[|head|..] == U32(w.count) && (head + U32(|fs|))[|head|..] == U32(|fs|);
    Assoc([0x0C], EncOptIdentifier(id), U32(|fs|));
  }

  lemma UncountedHeadStreams(id: Option<Identifier>, fs: seq<Field>, w: Walk)
    requires id.None? || w.count == VALUE_ELEM_COUNT_NONE
    ensures Appends(w.feed.out, StreamRecordId(id, Write(w, [0x0C])).feed.out, [0x0C] + (EncOptIdentifier(id) + U32(|fs|)), Shifted, true)
  {
    hide StreamRecordId, EncOptIdentifier, U32, Appends;
    RecordHead(id, w);
    AppendsLess(w.feed.out, if id.None? then [0x0C] else [0x0C] + EncOptIdentifier(id) + [], [0x0C] + (EncOptIdentifier(id) + U32(|fs|)));
  }

  /** Without a count a record is too short, and when it starts with a label it is different. */
  lemma {:induction false} UncountedRecord(id: Option<Identifier>, fs: seq<Field>, w: Walk)
    requires id.None? || w.count == VALUE_ELEM_COUNT_NONE
    requires Appends(w.feed.out, StreamFields(fs, StreamRecordId(id, Write(w, [0x0C]))).feed.out,
                     [0x0C] + (EncOptIdentifier(id) + U32(|fs|)) + EncodeFields(fs), Shifted, BoundedFields(fs))
    ensures Appends(w.feed.out, StreamFields(fs, StreamRecordId(id, Write(w, [0x0C]))).feed.out,
                    [0x0C] + (EncOptIdentifier(id) + U32(|fs|)) + EncodeFields(fs), FateOfRecord(id, w.count, fs), BoundedFields(fs))
    ensures FateOfRecord(id, w.count, fs) != Kept
    decreases fs, 1
  {
    hide StreamRecordId, StreamFields, EncodeFields, U32, EncOptIdentifier, Appends, BoundedFields;
    if IsLabelled(fs) {
      var w1 := StreamRecordId(id, Write(w, [0x0C]));
      var a, b := w.feed.out, StreamFields(fs, w1).feed.out;
      var x, head := [0x0C] + (EncOptIdentifier(id) + U32(|fs|)), if id.None? then [0x0C] else [0x0C] + EncOptIdentifier(id);
      RecordHead(id, w);
      assert head + [] == head;
      assert w1.feed.out == a + head;
      FirstLabelByte(fs, w1);
      Assoc(a, head, [0x01]);
      UncountedHead(id, |fs|);
      assert (x + EncodeFields(fs))[..|head| + 1] == x[..|head| + 1] == head + [0x00];
      assert (head + [0x01])[|head|] != (head + [0x00])[|head|];
      BrokenBy(a, head + [0x01], b, head + [0x00], x + EncodeFields(fs), BoundedFields(fs));
    }
  }

  /** The byte that should follow the head of a record with few fields. */
  lemma UncountedHead(id: Option<Identifier>, n: nat)
    requires n < 0x100_0000
    ensures
      var x := [0x0C] + (EncOptIdentifier(id) + U32(n));
      id.None? ==> x[..2] == [0x0C] + [0x00]
    ensures
      var x, head := [0x0C] + (EncOptIdentifier(id) + U32(n)), [0x0C] + EncOptIdentifier(id);
      x[..|head| + 1] == head + [0x00]
  {
    hide EncIdentifier, U32;
    SmallCount(n);
    Assoc([0x0C], EncOptIdentifier(id), U32(n));
  }

  /** A byte that differs breaks what was already known not to be too long. */
  lemma BrokenBy(a: seq<Byte>, d: seq<Byte>, b: seq<Byte>, e: seq<Byte>, x: seq<Byte>, bounded: bool)
    requires Appends(a, b, x, Shifted, bounded)
    requires |d| == |e| && d != e && |a| + |d| <= |b| && b[..|a| + |d|] == a + d && |e| <= |x| && x[..|e|] == e
    ensures Appends(a, b, x, Broken, bounded)
  {
    AppendsBroken(a, d, b, e, x, bounded);
  }

  lemma {:induction false} VariantIsStreamed(id: Option<Identifier>, ctor: seq<Byte>, x: Value, w: Walk)
    ensures var v := Variant(id, ctor, x);
      Streams(w, StreamValue(v, w), Encode(v), FateOf(v, w.count), Bounded(v), CountAfter(v, w.count))
    decreases x, 3
  {
    hide StreamName, StreamIdentifier, StreamPresence, EncOptIdentifier, EncBytes, FateOfName, Appends, StreamCounted, FateCounted, AfterCounted, Then, FateIf;
    var w1 := StreamName(ctor, StreamIdentifier(id, StreamPresence(0x0D, w)));
    VariantStreams(id, ctor, w);
    CountedStreams(x, w1);
    AppendsThen(w.feed.out, w1.feed.out, StreamCounted(x, w1).feed.out, [0x0D] + (EncOptIdentifier(id) + EncBytes(ctor)), Encode(x),
                Then(FateIf((w.count != 0) == id.Some?), FateOfName(ctor)), FateCounted(x, VALUE_ELEM_COUNT_NONE), |ctor| <= LABEL_MAX, Bounded(x));
    Assoc([0x0D], EncOptIdentifier(id) + EncBytes(ctor), Encode(x));
  }

  lemma {:induction false} CountedStreams(v: Value, w: Walk)
    ensures Streams(w, StreamCounted(v, w), Encode(v), FateCounted(v, w.count), Bounded(v), AfterCounted(v, w.count))
    decreases v, 2
  {
    hide StreamValue, Encode, FateOf, CountAfter, Appends, Counted, Bounded;
    ValueStreams(v, w.(count := Counted(v, w.count)));
  }

  lemma {:induction false} ElemsStream(es: seq<Value>, w: Walk)
    ensures Streams(w, StreamElems(es, w), EncodeElems(es), FateOfElems(es, w.count), BoundedElems(es), AfterElems(es, w.count))
  {
    hide StreamCounted, Encode, FateCounted, AfterCounted, Appends, Bounded, Then;
    if |es| == 0 {
      AppendsNothing(w.feed.out);
    } else {
      var w1 := StreamCounted(es[0], w);
      CountedStreams(es[0], w);
      ElemsStream(es[1..], w1);
      AppendsThen(w.feed.out, w1.feed.out, StreamElems(es[1..], w1).feed.out, Encode(es[0]), EncodeElems(es[1..]),
                  FateCounted(es[0], w.count), FateOfElems(es[1..], w1.count), Bounded(es[0]), BoundedElems(es[1..]));
    }
  }

  lemma {:induction false} TextEntriesStream(es: seq<TextEntry>, w: Walk)
    ensures Streams(w, StreamTextEntries(es, w), EncodeTextEntries(es), FateOfTextEntries(es, w.count), BoundedTextEntries(es), AfterTextEntries(es, w.count))
  {
    hide StreamTextEntry, EncodeTextEntry, FateOfTextEntry, AfterCounted, Appends, BoundedTextEntry, Then;
    if |es| == 0 {
      AppendsNothing(w.feed.out);
    } else {
      var e := es[0];
      var w1 := StreamTextEntry(e, w);
      TextEntryStreams(e, w);
      TextEntriesStream(es[1..], w1);
      AppendsThen(w.feed.out, w1.feed.out, StreamTextEntries(es[1..], w1).feed.out, EncodeTextEntry(e), EncodeTextEntries(es[1..]),
                  FateOfTextEntry(e, w.count), FateOfTextEntries(es[1..], w1.count), BoundedTextEntry(e), BoundedTextEntries(es[1..]));
    }
  }

  lemma {:induction false} TextEntryStreams(e: TextEntry, w: Walk)
    ensures Streams(w, StreamTextEntry(e, w), EncodeTextEntry(e), FateOfTextEntry(e, w.count), BoundedTextEntry(e), AfterCounted(e.value, w.count))
    decreases e, 0
  {
    hide StreamValue, StreamName, Encode, EncBytes, FateOfName, Appends, FateOf, CountAfter, Counted, Bounded, Then;
    var w0 := w.(count := Counted(e.value, w.count));
    var w1 := StreamName(e.key, w0);
    NameStreams(e.key, w0);
    ValueStreams(e.value, w1);
    AppendsThen(w.feed.out, w1.feed.out, StreamValue(e.value, w1).feed.out, EncBytes(e.key), Encode(e.value), FateOfName(e.key),
                FateOf(e.value, w1.count), |e.key| <= LABEL_MAX, Bounded(e.value));
  }

  lemma {:induction false} GenEntriesStream(es: seq<GenEntry>, w: Walk)
    ensures Streams(w, StreamGenEntries(es, w), EncodeGenEntries(es), FateOfGenEntries(es, w.count), BoundedGenEntries(es), AfterGenEntries(es, w.count))
  {
    hide StreamGenEntry, EncodeGenEntry, FateOfGenEntry, AfterGenEntry, Appends, BoundedGenEntry, Then;
    if |es| == 0 {
      AppendsNothing(w.feed.out);
    } else {
      var e := es[0];
      var w1 := StreamGenEntry(e, w);
      GenEntryStreams(e, w);
      GenEntriesStream(es[1..], w1);
      AppendsThen(w.feed.out, w1.feed.out, StreamGenEntries(es[1..], w1).feed.out, EncodeGenEntry(e), EncodeGenEntries(es[1..]),
                  FateOfGenEntry(e, w.count), FateOfGenEntries(es[1..], w1.count), BoundedGenEntry(e), BoundedGenEntries(es[1..]));
    }
  }

  lemma {:induction false} GenEntryStreams(e: GenEntry, w: Walk)
    ensures Streams(w, StreamGenEntry(e, w), EncodeGenEntry(e), FateOfGenEntry(e, w.count), BoundedGenEntry(e), AfterGenEntry(e, w.count))
    decreases e, 0
  {
    hide StreamValue, Encode, Appends, FateOf, CountAfter, Counted, Bounded, Then;
    var w0 := w.(count := Counted(e.genValue, w.count));
    var w1 := StreamValue(e.genKey, w0);
    ValueStreams(e.genKey, w0);
    ValueStreams(e.genValue, w1);
    AppendsThen(w.feed.out, w1.feed.out, StreamValue(e.genValue, w1).feed.out, Encode(e.genKey), Encode(e.genValue),
                FateOf(e.genKey, w0.count), FateOf(e.genValue, w1.count), Bounded(e.genKey), Bounded(e.genValue));
  }

  lemma {:induction false} FieldsStream(fs: seq<Field>, w: Walk)
    ensures Streams(w, StreamFields(fs, w), EncodeFields(fs), FateOfFields(fs, w.count), BoundedFields(fs), AfterFields(fs, w.count))
    decreases fs, 1
  {
    hide StreamField, EncodeField, FateOfField, AfterCounted, Appends, BoundedField, Then;
    if |fs| == 0 {
      AppendsNothing(w.feed.out);
    } else {
      var f := fs[0];
      var w1 := StreamField(f, w);
      FieldStreams(f, w);
      FieldsStream(fs[1..], w1);
      AppendsThen(w.feed.out, w1.feed.out, StreamFields(fs[1..], w1).feed.out, EncodeField(f), EncodeFields(fs[1..]),
                  FateOfField(f, w.count), FateOfFields(fs[1..], w1.count), BoundedField(f), BoundedFields(fs[1..]));
    }
  }

  lemma {:induction false} FieldStreams(f: Field, w: Walk)
    ensures Streams(w, StreamField(f, w), EncodeField(f), FateOfField(f, w.count), BoundedField(f), AfterCounted(f.fieldValue, w.count))
    decreases f, 0
  {
    hide StreamValue, StreamLabel, Encode, EncBytes, FateOfName, Appends, FateOf, CountAfter, Counted, Bounded, Then;
    var w0 := w.(count := Counted(f.fieldValue, w.count));
    var w1 := StreamLabel(f.name, w0);
    LabelStreams(f.name, w0);
    ValueStreams(f.fieldValue, w1);
    AppendsThen(w.feed.out, w1.feed.out, StreamValue(f.fieldValue, w1).feed.out, [0x01] + EncBytes(f.name), Encode(f.fieldValue),
                FateOfName(f.name), FateOf(f.fieldValue, w1.count), |f.name| <= LABEL_MAX, Bounded(f.fieldValue));
  }

  /** The only trees not covered: something is left out first, and a later name is long enough to make up
      for what is missing. */
  predicate Decided(v: Value, count: int) { Bounded(v) || FateCounted(v, count) != Shifted }

  /** decode_value_field appends the canonical encoding exactly when the value is kept: wherever the counter
      is spent it holds what the value says there, every record names its id, and every label, key and
      constructor fits the buffer. */
  lemma StreamIsCanonicalIff(v: Value, w: Walk)
    requires Decided(v, w.count)
    ensures StreamCounted(v, w).feed.out == w.feed.out + Encode(v) <==> FateCounted(v, w.count) == Kept
  {
    hide StreamCounted, Encode, FateCounted, AfterCounted, Bounded;
    CountedStreams(v, w);
  }

  /** A broken value cannot be mended: no two continuations make the streams equal. */
  lemma BrokenStreamNeverAgrees(v: Value, w: Walk, r: seq<Byte>, s: seq<Byte>)
    requires FateCounted(v, w.count) == Broken
    ensures StreamCounted(v, w).feed.out + r != w.feed.out + Encode(v) + s
  {
    hide StreamCounted, Encode, FateCounted, AfterCounted, Bounded;
    CountedStreams(v, w);
    var b, x := StreamCounted(v, w).feed.out, w.feed.out + Encode(v);
    var i :| |w.feed.out| <= i < |b| && i < |x| && b[i] != x[i];
    assert (b + r)[i] == b[i] && (x + s)[i] == x[i];
  }

  // ------------------------------------------------------------------ the stated domain

  /** Nothing is left out: every name is there, and a record without an id at least starts with a label. */
  predicate Labelled(v: Value)
  {
    match v
    case Optional(Some(x)) => Labelled(x)
    case List(es) => forall i :: 0 <= i < |es| ==> Labelled(es[i])
    case TextMap(es) => forall i :: 0 <= i < |es| ==> Named(es[i].key) && Labelled(es[i].value)
    case GenMap(es) => forall i :: 0 <= i < |es| ==> Labelled(es[i].genValue)
    case Record(id, fs) => (id.Some? || IsLabelled(fs)) && forall i :: 0 <= i < |fs| ==> Named(fs[i].name) && Labelled(fs[i].fieldValue)
    case Variant(_, ctor, x) => Named(ctor) && Labelled(x)
    case _ => true
  }

  predicate Named(raw: seq<Byte>) { raw != [] && FitsInt32(raw) }

  /** What simple map keys make of a fate. */
  ghost predicate Simplifies(fate: Fate, readable: bool, labelled: bool)
  {
    (fate == Kept <==> readable) && (labelled ==> fate != Shifted)
  }

  /** With simple map keys the counter is always the value's own, so only readability is left. */
  lemma {:induction false} SimpleKeysIff(v: Value, count: int)
    requires SimpleKeys(v) && count == Counted(v, count)
    ensures Simplifies(FateOf(v, count), Readable(v), Labelled(v))
    decreases v, 1
  {
    hide FateOfElems, FateOfTextEntries, FateOfGenEntries, FateOfFields, FateOfName, FateCounted, Short, Named, Wrap32, CountAfter, AfterCounted, SimpleKey;
    match v {
      case Optional(Some(x)) => SimpleKeysCounted(x, VALUE_ELEM_COUNT_NONE);
      case List(es) => SimpleElems(es, VALUE_ELEM_COUNT_NONE);
      case TextMap(es) => SimpleTextEntries(es, VALUE_ELEM_COUNT_NONE);
      case GenMap(es) => SimpleGenEntries(es, VALUE_ELEM_COUNT_NONE);
      case Record(id, fs) => SimpleRecord(id, fs, count);
      case Variant(_, ctor, x) =>
        SimpleName(ctor);
        SimpleKeysCounted(x, VALUE_ELEM_COUNT_NONE);
      case _ =>
    }
  }

  lemma {:induction false} SimpleRecord(id: Option<Identifier>, fs: seq<Field>, count: int)
    requires SimpleKeys(Record(id, fs)) && count == |fs|
    ensures Simplifies(FateOf(Record(id, fs), count), Readable(Record(id, fs)), Labelled(Record(id, fs)))
    decreases fs, 1
  {
    hide FateOfFields, Short, Named, Wrap32, AfterFields, SimpleKey, IsLabelled;
    SimpleFields(fs, if id.Some? then VALUE_ELEM_COUNT_NONE else count);
  }

  lemma SimpleName(raw: seq<Byte>)
    ensures Simplifies(FateOfName(raw), Short(raw), Named(raw))
  {
  }

  lemma {:induction false} SimpleKeysCounted(v: Value, count: int)
    requires SimpleKeys(v)
    ensures Simplifies(FateCounted(v, count), Readable(v), Labelled(v))
    decreases v, 2
  {
    hide FateOf, Readable, SimpleKeys, Labelled;
    SimpleKeysIff(v, Counted(v, count));
  }

  lemma {:induction false} SimpleElems(es: seq<Value>, count: int)
    requires forall i :: 0 <= i < |es| ==> SimpleKeys(es[i])
    ensures Simplifies(FateOfElems(es, count), forall i :: 0 <= i < |es| ==> Readable(es[i]), forall i :: 0 <= i < |es| ==> Labelled(es[i]))
  {
    hide FateCounted, AfterCounted, Readable, SimpleKeys, Labelled;
    if |es| > 0 {
      SimpleKeysCounted(es[0], count);
      SimpleElems(es[1..], AfterCounted(es[0], count));
      assert forall i :: 0 < i < |es| ==> es[i] == es[1..][i - 1];
    }
  }

  lemma {:induction false} SimpleTextEntries(es: seq<TextEntry>, count: int)
    requires forall i :: 0 <= i < |es| ==> SimpleKeys(es[i].value)
    ensures Simplifies(FateOfTextEntries(es, count), forall i :: 0 <= i < |es| ==> Short(es[i].key) && Readable(es[i].value),
                       forall i :: 0 <= i < |es| ==> Named(es[i].key) && Labelled(es[i].value))
  {
    hide FateCounted, AfterCounted, Readable, SimpleKeys, Short, Labelled;
    if |es| > 0 {
      SimpleKeysCounted(es[0].value, count);
      SimpleTextEntries(es[1..], AfterCounted(es[0].value, count));
      assert forall i :: 0 < i < |es| ==> es[i] == es[1..][i - 1];
    }
  }

  lemma {:induction false} SimpleGenEntries(es: seq<GenEntry>, count: int)
    requires forall i :: 0 <= i < |es| ==> SimpleKey(es[i].genKey) && SimpleKeys(es[i].genValue)
    ensures Simplifies(FateOfGenEntries(es, count), forall i :: 0 <= i < |es| ==> Readable(es[i].genValue),
                       forall i :: 0 <= i < |es| ==> Labelled(es[i].genValue))
  {
    hide FateOfGenEntry, AfterGenEntry, Readable, SimpleKeys, SimpleKey, Labelled;
    if |es| > 0 {
      SimpleGenEntry(es[0], count);
      SimpleGenEntries(es[1..], AfterGenEntry(es[0], count));
      assert forall i :: 0 < i < |es| ==> es[i] == es[1..][i - 1];
    }
  }

  /** A simple key leaves the counter to the value. */
  lemma {:induction false} SimpleGenEntry(e: GenEntry, count: int)
    requires SimpleKey(e.genKey) && SimpleKeys(e.genValue)
    ensures Simplifies(FateOfGenEntry(e, count), Readable(e.genValue), Labelled(e.genValue))
    decreases e, 0
  {
    hide Readable, SimpleKeys, Labelled;
    SimpleKeysIff(e.genValue, Counted(e.genValue, count));
  }

  lemma {:induction false} SimpleFields(fs: seq<Field>, count: int)
    requires forall i :: 0 <= i < |fs| ==> SimpleKeys(fs[i].fieldValue)
    ensures Simplifies(FateOfFields(fs, count), forall i :: 0 <= i < |fs| ==> Short(fs[i].name) && Readable(fs[i].fieldValue),
                       forall i :: 0 <= i < |fs| ==> Named(fs[i].name) && Labelled(fs[i].fieldValue))
    decreases fs, 0
  {
    hide FateCounted, AfterCounted, Readable, SimpleKeys, Short, Labelled;
    if |fs| > 0 {
      SimpleKeysCounted(fs[0].fieldValue, count);
      SimpleFields(fs[1..], AfterCounted(fs[0].fieldValue, count));
      assert forall i :: 0 < i < |fs| ==> fs[i] == fs[1..][i - 1];
    }
  }

  /** With scalar or enum map keys, the stream is canonical exactly for the readable values, whatever
      value_elem_count held before: on all values without long names, and on all values that leave nothing
      out, however long their names are. */
  lemma SimpleStreamIsCanonicalIff(v: Value, w: Walk)
    requires SimpleKeys(v) && (Bounded(v) || Labelled(v))
    ensures StreamCounted(v, w).feed.out == w.feed.out + Encode(v) <==> Readable(v)
  {
    hide StreamCounted, Encode, FateCounted, Readable, SimpleKeys, Bounded, Labelled;
    SimpleKeysCounted(v, w.count);
    StreamIsCanonicalIff(v, w);
  }

  /** decode_value_field appends exactly Encode(v), whatever value_elem_count held before. */
  lemma CountedRefines(v: Value, w: Walk)
    requires SimpleKeys(v) && Readable(v)
    ensures StreamCounted(v, w).feed.out == w.feed.out + Encode(v)
  {
    hide StreamCounted, Encode, FateCounted, Readable, SimpleKeys, Bounded, Labelled;
    SimpleKeysCounted(v, w.count);
    StreamIsCanonicalIff(v, w);
  }

  // ------------------------------------------------------------------ compound keys

  /** Values that leave the counter alone. */
  predicate Scalar(v: Value) { SimpleKey(v) && !v.Unit? && !v.Enum? && !v.NoValue? }

  /** Keys that spend the counter on a number of entries. */
  predicate CountedKey(v: Value)
  {
    match v
    case List(es) => FitsInt32(es)
    case TextMap(es) => FitsInt32(es)
    case GenMap(es) => FitsInt32(es)
    case Record(_, fs) => true
    case _ => false
  }

  /** A map whose first entry has a list, a map or a record for a key and a scalar for a value is never
      hashed canonically: the key's count is taken from the value, which has none. A record that starts
      without a label needs bounded names. */
  lemma CompoundKeyDiverges(key: Value, value: Value, rest: seq<GenEntry>, w: Walk)
    requires CountedKey(key) && Scalar(value)
    requires key.Record? && !IsLabelled(key.fields) ==> Bounded(GenMap([GenEntry(key, value)] + rest))
    ensures
      var v := GenMap([GenEntry(key, value)] + rest);
      StreamCounted(v, w).feed.out != w.feed.out + Encode(v)
  {
    hide StreamCounted, Encode, FateOfElems, FateOfTextEntries, FateOfFields, CountAfter, Bounded, IsLabelled;
    var es := [GenEntry(key, value)] + rest;
    assert es[0] == GenEntry(key, value);
    var fate := if key.Record? && !IsLabelled(key.fields) then Shifted else Broken;
    assert FateOfGenEntry(es[0], VALUE_ELEM_COUNT_NONE) == fate;
    assert FateOfGenEntries(es, VALUE_ELEM_COUNT_NONE) == fate;
    assert FateCounted(GenMap(es), w.count) == fate;
    StreamIsCanonicalIff(GenMap(es), w);
  }

  // ------------------------------------------------------------------ errors

  /** Nothing in the value latches an error: identifiers complete, names present, hex of even length. */
  predicate Sound(v: Value)
  {
    match v
    case ContractId(s) => |s| % 2 == 0
    case Optional(Some(x)) => Sound(x)
    case List(es) => forall i :: 0 <= i < |es| ==> Sound(es[i])
    case TextMap(es) => forall i :: 0 <= i < |es| ==> Sound(es[i].value)
    case GenMap(es) => forall i :: 0 <= i < |es| ==> SoundEntry(es[i])
    case Record(id, fs) => (id.Some? ==> CompleteIdentifier(id.value)) && forall i :: 0 <= i < |fs| ==> Sound(fs[i].fieldValue)
    case Variant(id, _, x) => (id.Some? ==> CompleteIdentifier(id.value)) && Sound(x)
    case Enum(id, ctor) => (id.Some? ==> CompleteIdentifier(id.value)) && ctor.Some?
    case _ => true
  }

  predicate SoundEntry(e: GenEntry) { Sound(e.genKey) && Sound(e.genValue) }

  ghost predicate Latches(before: Walk, after: Walk, sound: bool)
  {
    after.feed.err == HASH_OK <==> before.feed.err == HASH_OK && sound
  }

  /** Every value tree, domain or not: the latch stays clear exactly when the value is sound. */
  lemma {:induction false} ValueLatches(v: Value, w: Walk)
    ensures Latches(w, StreamValue(v, w), Sound(v))
    decreases v, 1
  {
    hide StreamCounted, StreamElems, StreamTextEntries, StreamGenEntries, StreamFields, Counted, U32, EncBytes,
         CompleteIdentifier, FeedIdentifier, StreamPieces;
    match v {
      case Optional(Some(x)) =>
        CountedLatches(x, StreamPresence(0x09, w));
      case List(es) =>
        ElemsLatch(es, StreamCount(0x0A, w));
      case TextMap(es) =>
        TextEntriesLatch(es, StreamCount(0x0B, w));
      case GenMap(es) =>
        GenEntriesLatch(es, StreamCount(0x0F, w));
      case Record(id, fs) => RecordLatches(v, w);
      case Variant(id, ctor, x) => RecordLatches(v, w);
      case _ => PrimitiveLatches(v, w);
    }
  }

  lemma {:induction false} RecordLatches(v: Value, w: Walk)
    requires v.Record? || v.Variant?
    ensures Latches(w, StreamValue(v, w), Sound(v))
    decreases v, 0
  {
    hide StreamCounted, StreamFields, U32, EncBytes, CompleteIdentifier, FeedIdentifier, StreamPieces;
    match v {
      case Record(id, fs) =>
        var w0 := Write(w, [0x0C]);
        if id.Some? {
          FeedIdentifierWrites(Write(w0, [0x01]).feed, id.value);
        }
        FieldsLatch(fs, StreamRecordId(id, w0));
      case Variant(id, ctor, x) =>
        var w0 := StreamPresence(0x0D, w);
        if id.Some? {
          FeedIdentifierWrites(w0.feed, id.value);
        }
        PiecesGrow([], ctor, StreamIdentifier(id, w0));
        CountedLatches(x, StreamName(ctor, StreamIdentifier(id, w0)));
    }
  }

  lemma PrimitiveLatches(v: Value, w: Walk)
    requires SimpleKey(v) || v == Optional(None)
    ensures Latches(w, StreamValue(v, w), Sound(v))
  {
    hide U32, U64, EncBytes, EncHex, FeedIdentifier, CompleteIdentifier;
    if v.Enum? && v.enumId.Some? {
      FeedIdentifierWrites(Write(Write(w, [0x0E]), [0x01]).feed, v.enumId.value);
    }
  }

  lemma {:induction false} CountedLatches(v: Value, w: Walk)
    ensures Latches(w, StreamCounted(v, w), Sound(v))
    decreases v, 2
  {
    hide Sound, StreamValue;
    ValueLatches(v, w.(count := Counted(v, w.count)));
  }

  lemma {:induction false} ElemsLatch(es: seq<Value>, w: Walk)
    ensures Latches(w, StreamElems(es, w), forall i :: 0 <= i < |es| ==> Sound(es[i]))
  {
    hide Sound, StreamCounted;
    if |es| > 0 {
      CountedLatches(es[0], w);
      ElemsLatch(es[1..], StreamCounted(es[0], w));
      assert forall i :: 0 < i < |es| ==> es[i] == es[1..][i - 1];
    }
  }

  lemma {:induction false} TextEntriesLatch(es: seq<TextEntry>, w: Walk)
    ensures Latches(w, StreamTextEntries(es, w), forall i :: 0 <= i < |es| ==> Sound(es[i].value))
  {
    hide Sound, StreamValue, StreamPieces;
    if |es| > 0 {
      var e := es[0];
      var w1 := w.(count := Counted(e.value, w.count));
      PiecesGrow([], e.key, w1);
      ValueLatches(e.value, StreamName(e.key, w1));
      TextEntriesLatch(es[1..], StreamTextEntry(e, w));
      assert forall i :: 0 < i < |es| ==> es[i] == es[1..][i - 1];
    }
  }

  lemma {:induction false} GenEntriesLatch(es: seq<GenEntry>, w: Walk)
    ensures Latches(w, StreamGenEntries(es, w), forall i :: 0 <= i < |es| ==> SoundEntry(es[i]))
  {
    hide Sound, StreamValue;
    if |es| > 0 {
      var e := es[0];
      assert e.genKey < e && e.genValue < e;
      var w1 := w.(count := Counted(e.genValue, w.count));
      ValueLatches(e.genKey, w1);
      ValueLatches(e.genValue, StreamValue(e.genKey, w1));
      GenEntriesLatch(es[1..], StreamGenEntry(e, w));
      assert forall i :: 0 < i < |es| ==> es[i] == es[1..][i - 1];
    }
  }

  lemma {:induction false} FieldsLatch(fs: seq<Field>, w: Walk)
    ensures Latches(w, StreamFields(fs, w), forall i :: 0 <= i < |fs| ==> Sound(fs[i].fieldValue))
  {
    hide Sound, StreamValue, StreamPieces;
    if |fs| > 0 {
      var f := fs[0];
      var w1 := w.(count := Counted(f.fieldValue, w.count));
      PiecesGrow([0x01], f.name, w1);
      ValueLatches(f.fieldValue, StreamLabel(f.name, w1));
      FieldsLatch(fs[1..], StreamField(f, w));
      assert forall i :: 0 < i < |fs| ==> fs[i] == fs[1..][i - 1];
    }
  }
}
