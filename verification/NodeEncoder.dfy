/** The node encoders of canonical_hash.c as they run, over a writer and the hash store. */
module NodeEncoder {
  import opened Bytes
  import opened CanonicalValue
  import opened HashWriter
  import opened CanonicalNode
  import opened NodeTreeCheck
  import opened NodeHashStore
  import opened NodePhase
  import opened CanonicalMetadata

  method EncodeOptIdentifier(hw: Writer, id: Option<Identifier>)
    modifies hw, hw.errs
    ensures hw.State() == FeedOptIdentifier(old(hw.State()), id)
  {
    hw.PutBytes([if id.Some? then 1 else 0]);
    if id.Some? {
      hw.EncodeIdentifier(id.value);
    }
  }

  method EncodeHead(hw: Writer, lf: Option<Str>, tag: Byte)
    modifies hw, hw.errs
    ensures hw.State() == FeedHead(old(hw.State()), lf, tag)
  {
    hw.PutBytes([0x01]);
    hw.EncodeString(lf);
    hw.PutBytes([tag]);
  }

  method EncodeIds(hw: Writer, cid: Option<Str>, pkg: Option<Str>, tid: Identifier)
    modifies hw, hw.errs
    ensures hw.State() == FeedIds(old(hw.State()), cid, pkg, tid)
  {
    hw.EncodeHexString(cid);
    hw.EncodeString(pkg);
    hw.EncodeIdentifier(tid);
  }

  method EncodeParties(hw: Writer, signatories: seq<Option<Str>>, stakeholders: seq<Option<Str>>)
    modifies hw, hw.errs
    ensures hw.State() == FeedParties(old(hw.State()), signatories, stakeholders)
  {
    hw.EncodeRepeated(signatories);
    hw.EncodeRepeated(stakeholders);
  }

  method EncodeCreateStart(hw: Writer, c: CreateFields, seed: Option<seq<Byte>>)
    requires c.templateId.Some?
    modifies hw, hw.errs
    ensures hw.State() ==
      FeedIds(Put(FeedHead(old(hw.State()), c.lfVersion, 0x00), EncOptHash(seed)), c.contractId, c.packageName, c.templateId.value)
  {
    hide FeedIds, FeedHead;
    EncodeHead(hw, c.lfVersion, 0x00);
    ghost var before := hw.stream;
    hw.PutBytes([if seed.Some? then 1 else 0]);
    if seed.Some? {
      hw.PutBytes(seed.value);
      Assoc(before, [1], seed.value);
    }
    EncodeIds(hw, c.contractId, c.packageName, c.templateId.value);
  }

  method EncodeExerciseStart(hw: Writer, e: ExerciseFields, seed: seq<Byte>)
    requires e.templateId.Some?
    modifies hw, hw.errs
    ensures hw.State() ==
      FeedActors(FeedIds(Put(FeedHead(old(hw.State()), e.lfVersion, 0x01), seed), e.contractId, e.packageName, e.templateId.value), e)
  {
    hide FeedIds, FeedHead, FeedParties, FeedOptIdentifier, FeedRepeated;
    EncodeHead(hw, e.lfVersion, 0x01);
    hw.PutBytes(seed);
    EncodeIds(hw, e.contractId, e.packageName, e.templateId.value);
    EncodeParties(hw, e.signatories, e.stakeholders);
    hw.EncodeRepeated(e.actingParties);
    EncodeOptIdentifier(hw, e.interfaceId);
    hw.EncodeString(e.choiceId);
  }

  method EncodeFetch(hw: Writer, f: FetchFields)
    requires f.templateId.Some?
    modifies hw, hw.errs
    ensures hw.State() ==
      FeedRepeated(FeedOptIdentifier(FeedParties(FeedIds(FeedHead(old(hw.State()), f.lfVersion, 0x02), f.contractId, f.packageName, f.templateId.value),
            f.signatories, f.stakeholders), f.interfaceId), f.actingParties)
  {
    hide FeedIds, FeedHead, FeedParties, FeedOptIdentifier, FeedRepeated;
    EncodeHead(hw, f.lfVersion, 0x02);
    EncodeIds(hw, f.contractId, f.packageName, f.templateId.value);
    EncodeParties(hw, f.signatories, f.stakeholders);
    EncodeOptIdentifier(hw, f.interfaceId);
    hw.EncodeRepeated(f.actingParties);
  }

  /** A count and the stored hash of each child, up to the first that is not in the store. */
  method EncodeRepeatedNodeIds(hw: Writer, store: Store, ids: seq<Str>)
    requires store.Valid()
    modifies hw, hw.errs
    ensures hw.State() == FeedNodeIds(store.Model(), ids, Put(old(hw.State()), U32(|ids|)))
  {
    hide GetHash, AToInt, U32;
    hw.PutU32Be(|ids|);
    ghost var target := FeedNodeIds(store.Model(), ids, hw.State());
    assert ids[0..] == ids;
    for i := 0 to |ids|
      invariant FeedNodeIds(store.Model(), ids[i..], hw.State()) == target
    {
      assert ids[i..][0] == ids[i] && ids[i..][1..] == ids[i + 1..];
      var hash := store.GetNodeHash(AToInt(ids[i]));
      if hash.None? {
        hw.errs.Set(HASH_ERROR_FAILED_TO_LOAD_NODE_HASH);
        return;
      }
      hw.PutBytes(hash.value);
    }
  }

  /** The tail of encode_exercise_end and encode_rollback. */
  method EncodeChildren(hw: Writer, store: Store, body: NodeBody)
    requires store.Valid() && HasChildren(body)
    modifies hw, hw.errs
    ensures hw.State() == FeedChildren(store.Model(), body, old(hw.State()))
  {
    hide FeedNodeIds, U32, GetHash;
    if |ChildrenOf(body)| > MAX_NODE_CHILDREN {
      hw.errs.Set(HASH_ERROR_MAX_NODE_CHILDREN_EXCEEDED);
      return;
    }
    EncodeRepeatedNodeIds(hw, store, ChildrenOf(body));
  }

  /** hash_transaction: a new hash, no error, an empty store, then the header. */
  method HashTransaction(hw: Writer, store: Store, hdr: Header)
    requires store.Valid()
    modifies hw, hw.errs, store.slots
    ensures hw.State() == FeedHeader(hdr) && store.Valid() && store.Model() == EmptyRing(store.cursor)
  {
    hide U32, EncBytes;
    hw.errs.Clear();
    store.InitStore();
    hw.Init();
    hw.PutBytes(HASH_PURPOSE);
    hw.EncodeString(hdr.version);
    hw.PutU32Be(|hdr.roots|);
  }

  method EncodeOptTime(hw: Writer, t: Option<int>)
    modifies hw
    ensures hw.State() == Put(old(hw.State()), EncOptU64(t))
  {
    hide U64;
    hw.PutBytes([if t.Some? then 1 else 0]);
    if t.Some? {
      hw.PutU64Be(t.value);
      Assoc(old(hw.stream), [1], U64(t.value));
    }
  }

  method EncodeSubmitter(hw: Writer, m: Metadata)
    modifies hw, hw.errs
    ensures hw.State() == FeedSubmitter(old(hw.State()), m)
  {
    hide EncBytes, FeedRepeated;
    hw.EncodeRepeated(m.actAs);
    hw.EncodeString(m.commandId);
    hw.EncodeString(m.transactionUuid);
  }

  method EncodeTimes(hw: Writer, m: Metadata)
    modifies hw
    ensures hw.State() == FeedTimes(old(hw.State()), m)
  {
    hide U64, EncOptU64;
    EncodeOptTime(hw, m.minLedgerTime);
    EncodeOptTime(hw, m.maxLedgerTime);
    hw.PutU64Be(m.preparationTime);
  }

  /** hash_metadata keeps the error state of the transaction so far. */
  method HashMetadata(hw: Writer, m: Metadata)
    modifies hw, hw.errs
    ensures hw.State() == FeedMetadata(m, old(hw.errs.code))
  {
    hide U32, FeedSubmitter, FeedTimes, FeedString;
    hw.Init();
    hw.PutBytes(HASH_PURPOSE);
    assert [] + HASH_PURPOSE == HASH_PURPOSE;
    hw.PutBytes([0x01]);
    EncodeSubmitter(hw, m);
    hw.PutU32Be(m.mediatorGroup);
    hw.EncodeString(m.synchronizerId);
    EncodeTimes(hw, m);
    hw.PutU32Be(m.inputContractsCount);
  }
}
