/** The transaction header, the metadata with its input contracts, and the hash that is signed. */
module CanonicalMetadata {
  import opened Bytes
  import opened CanonicalValue
  import opened HashWriter
  import opened ValueStream
  import opened CanonicalNode
  import opened NodePhase

  /** PREPARED_TRANSACTION_HASH_PURPOSE and HASHING_SCHEME_VERSION. */
  const HASH_PURPOSE: seq<Byte> := [0x00, 0x00, 0x00, 0x30]
  const SCHEME_VERSION: Byte := 0x02

  datatype Metadata = Metadata(
    actAs: seq<Option<Str>>, commandId: Option<Str>, transactionUuid: Option<Str>, mediatorGroup: int, synchronizerId: Option<Str>,
    minLedgerTime: Option<int>, maxLedgerTime: Option<int>, preparationTime: int, inputContractsCount: int)

  /** A disclosed contract; None when the oneof carries no known version. */
  datatype InputContract = InputContract(contract: Option<CreateFields>, createdAt: int)

  // ------------------------------------------------------------------ what the encoders write

  /** hash_transaction: the purpose, the version, the number of roots. */
  function FeedHeader(hdr: Header): Feed
  {
    Put(FeedString(Feed(HASH_PURPOSE, HASH_OK), hdr.version), U32(|hdr.roots|))
  }

  function EncOptU64(t: Option<int>): seq<Byte> { if t.None? then [0] else [1] + U64(t.value) }

  function FeedSubmitter(f: Feed, m: Metadata): Feed
  {
    FeedString(FeedString(FeedRepeated(f, m.actAs), m.commandId), m.transactionUuid)
  }

  function FeedTimes(f: Feed, m: Metadata): Feed
  {
    Put(Put(Put(f, EncOptU64(m.minLedgerTime)), EncOptU64(m.maxLedgerTime)), U64(m.preparationTime))
  }

  /** hash_metadata; the error state is that of the transaction so far. */
  function FeedMetadata(m: Metadata, err: HashError): Feed
  {
    var f1 := FeedSubmitter(Put(Feed(HASH_PURPOSE, err), [0x01]), m);
    var f2 := FeedString(Put(f1, U32(m.mediatorGroup)), m.synchronizerId);
    Put(FeedTimes(f2, m), U32(m.inputContractsCount))
  }

  function ContractBody(c: InputContract): NodeBody { if c.contract.None? then NoBody else Create(c.contract.value) }

  predicate ContractParses(c: InputContract) { IsComplete(ContractBody(c)) }

  predicate ContractsParse(cs: seq<InputContract>) { forall i :: 0 <= i < |cs| ==> ContractParses(cs[i]) }

  function ContractFeed(c: InputContract, err: HashError): Feed
    requires ContractParses(c)
  {
    StreamShell(ContractBody(c), None, Blank(err)).feed
  }

  /** proto_deserialize_input_contract: created_at, then the hash of the create without a seed. */
  function FeedContract(h: Sha256, f: Feed, c: InputContract): Feed
    requires ContractParses(c)
  {
    var inner := ContractFeed(c, f.err);
    Feed(f.out + U64(c.createdAt) + h(inner.out), inner.err)
  }

  function FeedContracts(h: Sha256, f: Feed, cs: seq<InputContract>): Feed
    requires ContractsParse(cs)
  {
    if |cs| == 0 then f else FeedContract(h, FeedContracts(h, f, cs[..|cs| - 1]), cs[|cs| - 1])
  }

  /** finalize_hash. */
  function FinalPreimage(txHash: seq<Byte>, mdHash: seq<Byte>): seq<Byte>
  {
    HASH_PURPOSE + [SCHEME_VERSION] + txHash + mdHash
  }

  /** The layout of the final preimage, by position. */
  lemma FinalLayout(txHash: seq<Byte>, mdHash: seq<Byte>)
    requires IsHash(txHash) && IsHash(mdHash)
    ensures
      var p := FinalPreimage(txHash, mdHash);
      |p| == 69 && p[..5] == [0x00, 0x00, 0x00, 0x30, 0x02] && p[5..37] == txHash && p[37..] == mdHash
  {
  }

  // ------------------------------------------------------------------ canonical bytes

  function HeaderBytes(version: Option<Str>, roots: nat): seq<Byte> { HASH_PURPOSE + EncString(version) + U32(roots) }

  function SubmitterBytes(m: Metadata): seq<Byte>
  {
    EncRepeated(m.actAs) + EncString(m.commandId) + EncString(m.transactionUuid)
  }

  function TimeBytes(m: Metadata): seq<Byte>
  {
    EncOptU64(m.minLedgerTime) + EncOptU64(m.maxLedgerTime) + U64(m.preparationTime)
  }

  function MetadataBytes(m: Metadata): seq<Byte>
  {
    HASH_PURPOSE + [0x01] + SubmitterBytes(m) + U32(m.mediatorGroup) + EncString(m.synchronizerId) + TimeBytes(m) +
    U32(m.inputContractsCount)
  }

  function ContractBytes(c: InputContract): seq<Byte>
    requires ContractParses(c)
  {
    ShellBytes(ContractBody(c), None)
  }

  function EntryBytes(h: Sha256, c: InputContract): seq<Byte>
    requires ContractParses(c)
  {
    U64(c.createdAt) + h(ContractBytes(c))
  }

  function EntriesBytes(h: Sha256, cs: seq<InputContract>): seq<Byte>
    requires ContractsParse(cs)
  {
    if |cs| == 0 then [] else EntriesBytes(h, cs[..|cs| - 1]) + EntryBytes(h, cs[|cs| - 1])
  }

  // ------------------------------------------------------------------ the encoders write canonical bytes

  predicate PresentMetadata(m: Metadata)
  {
    AllPresent(m.actAs) && m.commandId.Some? && m.transactionUuid.Some? && m.synchronizerId.Some?
  }

  /** The header latches an error exactly when the version is absent. */
  lemma HeaderWrites(hdr: Header)
    ensures FeedHeader(hdr).err == HASH_OK <==> hdr.version.Some?
    ensures FeedHeader(hdr).out == HeaderBytes(hdr.version, |hdr.roots|)
  {
    hide U32, EncBytes;
    assert HASH_PURPOSE + [] == HASH_PURPOSE;
  }

  /** The metadata latches an error exactly when one of its strings is absent. */
  lemma MetadataWrites(m: Metadata, err: HashError)
    ensures FeedMetadata(m, err).err == HASH_OK <==> err == HASH_OK && PresentMetadata(m)
    ensures PresentMetadata(m) ==> FeedMetadata(m, err).out == MetadataBytes(m)
  {
    hide U32, U64, EncBytes, FeedRepeated, EncRepeated, EncOptU64, AllPresent;
    FeedRepeatedWrites(Put(Feed(HASH_PURPOSE, err), [0x01]), m.actAs);
    if PresentMetadata(m) {
      var a, b, c := EncRepeated(m.actAs), EncString(m.commandId), EncString(m.transactionUuid);
      var p := HASH_PURPOSE + [0x01];
      assert p + a + b + c == p + (a + b + c) by { ConcatAssoc(); }
      var q := p + SubmitterBytes(m) + U32(m.mediatorGroup) + EncString(m.synchronizerId);
      var x, y, z := EncOptU64(m.minLedgerTime), EncOptU64(m.maxLedgerTime), U64(m.preparationTime);
      assert q + x + y + z == q + (x + y + z) by { ConcatAssoc(); }
    }
  }

  predicate ReadableContracts(cs: seq<InputContract>)
  {
    ContractsParse(cs) && forall i :: 0 <= i < |cs| ==> ReadableNode(ContractBody(cs[i]))
  }

  lemma {:induction false} ContractsWrite(h: Sha256, f: Feed, cs: seq<InputContract>)
    requires ReadableContracts(cs)
    ensures FeedContracts(h, f, cs).out == f.out + EntriesBytes(h, cs)
  {
    hide U64, FeedContract, EntryBytes, ContractParses, ReadableNode, ContractBody;
    if |cs| == 0 {
      assert f.out + [] == f.out;
    } else {
      var k := |cs| - 1;
      ContractsWrite(h, f, cs[..k]);
      var g := FeedContracts(h, f, cs[..k]);
      OneContractWrites(h, g, cs[k]);
      Assoc(f.out, EntriesBytes(h, cs[..k]), EntryBytes(h, cs[k]));
    }
  }

  lemma ContractIsCanonical(c: InputContract, err: HashError)
    requires ContractParses(c) && ReadableNode(ContractBody(c))
    ensures ContractFeed(c, err).out == ContractBytes(c)
  {
    hide StreamShell, ShellBytes, ReadableNode, IsComplete;
    ShellIsCanonical(ContractBody(c), None, err);
  }

  lemma OneContractWrites(h: Sha256, f: Feed, c: InputContract)
    requires ContractParses(c) && ReadableNode(ContractBody(c))
    ensures FeedContract(h, f, c).out == f.out + EntryBytes(h, c)
  {
    hide U64, ContractFeed, ContractBytes, ReadableNode, ContractParses;
    ContractIsCanonical(c, f.err);
    Assoc(f.out, U64(c.createdAt), h(ContractBytes(c)));
  }
}
