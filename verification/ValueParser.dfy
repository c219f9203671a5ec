/** The value callbacks of pb_hashing_parser.c as they run: one shared counter, one hash stream, and
    failures when the stack has no room for another level. */
module ValueParser {
  import opened Bytes
  import opened CanonicalValue
  import opened HashWriter
  import opened ValueStream

  class Parser {
    var valueElemCount: int
    /** Some level did not fit on the stack. */
    ghost var stackFull: bool
    const nodeHw: Writer

    constructor (nodeHw: Writer)
      ensures this.nodeHw == nodeHw && valueElemCount == VALUE_ELEM_COUNT_NONE && !stackFull
    {
      this.nodeHw := nodeHw;
      valueElemCount := VALUE_ELEM_COUNT_NONE;
      stackFull := false;
    }

    ghost function State(): Walk
      reads this, nodeHw, nodeHw.errs
    {
      Walk(valueElemCount, nodeHw.State())
    }

    /** Whether one more level fits depends on the stack, which is not part of this model. */
    method StackHasRoom() returns (room: bool)
      modifies `stackFull
      ensures stackFull == (old(stackFull) || !room)
    {
      room := *;
      stackFull := stackFull || !room;
    }

    // ---------------------------------------------------------------- counting

    /** The pre-pass: the counter is zeroed and then bumped once per element callback. */
    method CountValue(v: Value)
      modifies `valueElemCount
      ensures valueElemCount == Counted(v, old(valueElemCount))
    {
      match v {
        case Unit => valueElemCount := 0;
        case Enum(_, _) => valueElemCount := 0;
        case Optional(x) =>
          valueElemCount := 0;
          if x.Some? {
            valueElemCount := valueElemCount + 1;
          }
        case Variant(id, _, _) =>
          valueElemCount := 0;
          if id.Some? {
            valueElemCount := valueElemCount + 1;
          }
        case List(es) => CountElements(|es|);
        case TextMap(es) => CountElements(|es|);
        case GenMap(es) => CountElements(|es|);
        case Record(_, fs) => CountElements(|fs|);
        case _ =>
      }
    }

    method CountElements(n: nat)
      modifies `valueElemCount
      ensures valueElemCount == n
    {
      valueElemCount := 0;
      for i := 0 to n
        invariant valueElemCount == i
      {
        valueElemCount := valueElemCount + 1;
      }
    }

    // ---------------------------------------------------------------- leaves

    method DecodePrimitiveVariants(v: Value)
      modifies nodeHw, nodeHw.errs
      ensures State() == StreamPrimitive(v, old(State()))
    {
      match v {
        case Unit => nodeHw.PutBytes([0x00]);
        case Bool(b) =>
          nodeHw.PutBytes([0x01]);
          nodeHw.PutBytes([if b then 1 else 0]);
        case Int64(i) =>
          nodeHw.PutBytes([0x02]);
          nodeHw.PutU64Be(i);
        case Date(d) =>
          nodeHw.PutBytes([0x05]);
          nodeHw.PutU32Be(d);
        case Timestamp(t) =>
          nodeHw.PutBytes([0x04]);
          nodeHw.PutU64Be(t);
        case Numeric(s) =>
          nodeHw.PutBytes([0x03]);
          nodeHw.EncodeString(Some(s));
        case Party(s) =>
          nodeHw.PutBytes([0x06]);
          nodeHw.EncodeString(Some(s));
        case Text(s) =>
          nodeHw.PutBytes([0x07]);
          nodeHw.EncodeString(Some(s));
        case ContractId(s) =>
          nodeHw.PutBytes([0x08]);
          nodeHw.EncodeHexString(Some(s));
        case _ =>
      }
    }

    /** The label callback, called until the field is used up: a presence byte before every piece. */
    method DecodeLabel(raw: seq<Byte>)
      modifies nodeHw, nodeHw.errs
      ensures State() == StreamLabel(raw, old(State()))
    {
      hide Buffered, EncBytes;
      var left := raw;
      while left != []
        invariant StreamLabel(left, State()) == StreamLabel(raw, old(State()))
        decreases |left|
      {
        ghost var before := nodeHw.stream;
        nodeHw.PutBytes([0x01]);
        nodeHw.EncodeString(Some(Buffered(left)));
        Assoc(before, [0x01], EncBytes(Buffered(left)));
        left := left[Fill(left)..];
      }
    }

    /** The callback of a map key or a constructor. */
    method DecodeName(raw: seq<Byte>)
      modifies nodeHw, nodeHw.errs
      ensures State() == StreamName(raw, old(State()))
    {
      hide Buffered, EncBytes;
      var left := raw;
      while left != []
        invariant StreamName(left, State()) == StreamName(raw, old(State()))
        decreases |left|
      {
        assert [] + EncBytes(Buffered(left)) == EncBytes(Buffered(left));
        nodeHw.EncodeString(Some(Buffered(left)));
        left := left[Fill(left)..];
      }
    }

    method DecodeIdentifier(id: Option<Identifier>)
      modifies nodeHw, nodeHw.errs
      ensures State() == StreamIdentifier(id, old(State()))
    {
      if id.Some? {
        nodeHw.EncodeIdentifier(id.value);
      }
    }

    method DecodeRecordId(id: Option<Identifier>)
      modifies `valueElemCount, nodeHw, nodeHw.errs
      ensures State() == StreamRecordId(id, old(State()))
    {
      if id.Some? {
        nodeHw.PutBytes([0x01]);
        DecodeIdentifier(id);
        if valueElemCount != VALUE_ELEM_COUNT_NONE {
          nodeHw.PutU32Be(valueElemCount);
          valueElemCount := VALUE_ELEM_COUNT_NONE;
        }
      }
    }

    method DecodeEnum(id: Option<Identifier>, ctor: Option<Str>)
      modifies nodeHw, nodeHw.errs
      ensures State() == StreamEnum(id, ctor, old(State()))
    {
      if id.Some? {
        nodeHw.PutBytes([0x01]);
        nodeHw.EncodeIdentifier(id.value);
      } else {
        nodeHw.PutBytes([0x00]);
      }
      nodeHw.EncodeString(ctor);
    }

    method PutPresence(tag: Byte)
      modifies `valueElemCount, nodeHw
      ensures State() == StreamPresence(tag, old(State()))
    {
      nodeHw.PutBytes([tag]);
      nodeHw.PutBytes([if valueElemCount == 0 then 0x00 else 0x01]);
      valueElemCount := VALUE_ELEM_COUNT_NONE;
      Assoc(old(nodeHw.stream), [tag], [if old(valueElemCount) == 0 then 0x00 else 0x01]);
    }

    method PutCount(tag: Byte)
      modifies `valueElemCount, nodeHw
      ensures State() == StreamCount(tag, old(State()))
    {
      nodeHw.PutBytes([tag]);
      nodeHw.PutU32Be(valueElemCount);
      valueElemCount := VALUE_ELEM_COUNT_NONE;
    }

    // ---------------------------------------------------------------- recursive callbacks

    method DecodeValueVariant(v: Value) returns (ok: bool)
      modifies this, nodeHw, nodeHw.errs
      ensures stackFull == (old(stackFull) || !ok)
      ensures ok ==> State() == StreamVariant(v, old(State()))
      decreases v, 0
    {
      hide StreamCounted, StreamElems, StreamTextEntries, StreamGenEntries, StreamFields, StreamCount, StreamPresence,
           StreamRecordId, StreamEnum, StreamName, StreamIdentifier;
      ok := true;
      match v {
        case Optional(x) =>
          PutPresence(0x09);
          if x.Some? {
            ok := DecodeNested(x.value);
          }
        case List(es) =>
          PutCount(0x0A);
          ok := DecodeListElems(es);
        case TextMap(es) =>
          PutCount(0x0B);
          ok := DecodeTextMapEntries(es);
        case GenMap(es) =>
          PutCount(0x0F);
          ok := DecodeGenMapEntries(es);
        case Record(id, fs) =>
          nodeHw.PutBytes([0x0C]);
          DecodeRecordId(id);
          ok := DecodeRecordFields(fs);
        case Variant(id, ctor, x) =>
          PutPresence(0x0D);
          DecodeIdentifier(id);
          DecodeName(ctor);
          ok := DecodeNested(x);
        case Enum(id, ctor) =>
          nodeHw.PutBytes([0x0E]);
          DecodeEnum(id, ctor);
        case _ =>
      }
    }

    /** The second decode of a Value: its variant callback, then its primitive members. */
    method DecodeSum(v: Value) returns (ok: bool)
      modifies this, nodeHw, nodeHw.errs
      ensures stackFull == (old(stackFull) || !ok)
      ensures ok ==> State() == StreamValue(v, old(State()))
      decreases v, 1
    {
      hide StreamVariant, StreamPrimitive;
      ok := DecodeValueVariant(v);
      if ok {
        DecodePrimitiveVariants(v);
      }
    }

    /** decode_list_elem and decode_value, whose bodies are the same: count, rewind, decode. */
    method DecodeNested(v: Value) returns (ok: bool)
      modifies this, nodeHw, nodeHw.errs
      ensures stackFull == (old(stackFull) || !ok)
      ensures ok ==> State() == StreamCounted(v, old(State()))
      decreases v, 3
    {
      ok := StackHasRoom();
      if ok {
        ok := DecodeValueField(v);
      }
    }

    /** decode_value_field, the entry from a node: the same without a stack check. */
    method DecodeValueField(v: Value) returns (ok: bool)
      modifies this, nodeHw, nodeHw.errs
      ensures stackFull == (old(stackFull) || !ok)
      ensures ok ==> State() == StreamCounted(v, old(State()))
      ensures ok && SimpleKeys(v) && Readable(v) ==> nodeHw.stream == old(nodeHw.stream) + Encode(v)
      decreases v, 2
    {
      hide StreamValue, Encode, Readable, SimpleKeys;
      CountValue(v);
      ok := DecodeSum(v);
      if ok && SimpleKeys(v) && Readable(v) {
        CountedRefines(v, old(State()));
      }
    }

    method DecodeListElems(es: seq<Value>) returns (ok: bool)
      modifies this, nodeHw, nodeHw.errs
      ensures stackFull == (old(stackFull) || !ok)
      ensures ok ==> State() == StreamElems(es, old(State()))
      decreases es
    {
      hide StreamCounted;
      ghost var target := StreamElems(es, State());
      assert es[0..] == es;
      for i := 0 to |es|
        invariant StreamElems(es[i..], State()) == target
        invariant stackFull == old(stackFull)
      {
        assert es[i..][1..] == es[i + 1..];
        ok := DecodeNested(es[i]);
        if !ok {
          return;
        }
      }
      ok := true;
    }

    method DecodeTextMapEntries(es: seq<TextEntry>) returns (ok: bool)
      modifies this, nodeHw, nodeHw.errs
      ensures stackFull == (old(stackFull) || !ok)
      ensures ok ==> State() == StreamTextEntries(es, old(State()))
      decreases es
    {
      hide StreamTextEntry;
      ghost var target := StreamTextEntries(es, State());
      assert es[0..] == es;
      for i := 0 to |es|
        invariant StreamTextEntries(es[i..], State()) == target
        invariant stackFull == old(stackFull)
      {
        assert es[i..][1..] == es[i + 1..];
        ok := DecodeTextMapEntry(es[i]);
        if !ok {
          return;
        }
      }
      ok := true;
    }

    method DecodeTextMapEntry(e: TextEntry) returns (ok: bool)
      modifies this, nodeHw, nodeHw.errs
      ensures stackFull == (old(stackFull) || !ok)
      ensures ok ==> State() == StreamTextEntry(e, old(State()))
      decreases e, 0
    {
      hide StreamValue, StreamName;
      ok := StackHasRoom();
      if ok {
        CountValue(e.value);
        DecodeName(e.key);
        ok := DecodeSum(e.value);
      }
    }

    method DecodeGenMapEntries(es: seq<GenEntry>) returns (ok: bool)
      modifies this, nodeHw, nodeHw.errs
      ensures stackFull == (old(stackFull) || !ok)
      ensures ok ==> State() == StreamGenEntries(es, old(State()))
      decreases es
    {
      hide StreamGenEntry;
      ghost var target := StreamGenEntries(es, State());
      assert es[0..] == es;
      for i := 0 to |es|
        invariant StreamGenEntries(es[i..], State()) == target
        invariant stackFull == old(stackFull)
      {
        assert es[i..][1..] == es[i + 1..];
        ok := DecodeGenMapEntry(es[i]);
        if !ok {
          return;
        }
      }
      ok := true;
    }

    /** Two decodes of the entry: the first with the key callback, the second with the value callback. */
    method DecodeGenMapEntry(e: GenEntry) returns (ok: bool)
      modifies this, nodeHw, nodeHw.errs
      ensures stackFull == (old(stackFull) || !ok)
      ensures ok ==> State() == StreamGenEntry(e, old(State()))
      decreases e, 0
    {
      hide StreamValue;
      ok := StackHasRoom();
      if ok {
        CountValue(e.genValue);
        ok := DecodeSum(e.genKey);
        if ok {
          ok := DecodeSum(e.genValue);
        }
      }
    }

    method DecodeRecordFields(fs: seq<Field>) returns (ok: bool)
      modifies this, nodeHw, nodeHw.errs
      ensures stackFull == (old(stackFull) || !ok)
      ensures ok ==> State() == StreamFields(fs, old(State()))
      decreases fs
    {
      hide StreamField;
      ghost var target := StreamFields(fs, State());
      assert fs[0..] == fs;
      for i := 0 to |fs|
        invariant StreamFields(fs[i..], State()) == target
        invariant stackFull == old(stackFull)
      {
        assert fs[i..][1..] == fs[i + 1..];
        ok := DecodeRecordField(fs[i]);
        if !ok {
          return;
        }
      }
      ok := true;
    }

    method DecodeRecordField(f: Field) returns (ok: bool)
      modifies this, nodeHw, nodeHw.errs
      ensures stackFull == (old(stackFull) || !ok)
      ensures ok ==> State() == StreamField(f, old(State()))
      decreases f, 0
    {
      hide StreamValue, StreamLabel;
      ok := StackHasRoom();
      if ok {
        CountValue(f.fieldValue);
        DecodeLabel(f.name);
        ok := DecodeSum(f.fieldValue);
      }
    }
  }
}
