/** What the signature covers: two prepared transactions with one final hash have one content, unless
    SHA-256 collides on what was hashed. */
module SignedHash {
  import opened Bytes
  import opened CanonicalValue
  import opened HashWriter
  import opened CanonicalNode
  import opened NodeBinding
  import opened NodePhase
  import opened NodeMerkle
  import opened TreeBinding
  import opened CanonicalMetadata

  /** The hashed content; no tree when the root did not arrive under its header spelling. */
  datatype Transaction = Transaction(version: Option<Str>, roots: nat, tree: Option<Tree>, metadata: Metadata, contracts: seq<InputContract>)

  // ------------------------------------------------------------------ the stated domain

  predicate IsUint32(v: int) { 0 <= v < 0x1_0000_0000 }
  predicate IsUint64(v: int) { 0 <= v < 0x1_0000_0000_0000_0000 }
  predicate GoodTime(t: Option<int>) { t.Some? ==> IsUint64(t.value) }

  /** Strings are present and the integers are those of their protobuf fields. */
  predicate GoodMetadata(m: Metadata)
  {
    GoodStrings(m.actAs) && GoodString(m.commandId) && GoodString(m.transactionUuid) && GoodString(m.synchronizerId) &&
    IsUint32(m.mediatorGroup) && GoodTime(m.minLedgerTime) && GoodTime(m.maxLedgerTime) && IsUint64(m.preparationTime) &&
    IsUint32(m.inputContractsCount)
  }

  predicate GoodContract(c: InputContract)
  {
    ContractParses(c) && Hashable(ContractBody(c)) && ReadableNode(ContractBody(c)) && IsUint64(c.createdAt)
  }

  predicate GoodContracts(cs: seq<InputContract>) { ContractsParse(cs) && forall i :: 0 <= i < |cs| ==> GoodContract(cs[i]) }

  predicate Bindable(x: Transaction)
  {
    GoodString(x.version) && IsUint32(x.roots) && (x.tree.Some? ==> BindableTree(x.tree.value) && HashableTree(x.tree.value)) &&
    GoodMetadata(x.metadata) && GoodContracts(x.contracts)
  }

  // ------------------------------------------------------------------ the three preimages

  function TransactionPreimage(h: Sha256, x: Transaction): seq<Byte>
    requires Bindable(x)
  {
    HeaderBytes(x.version, x.roots) + if x.tree.Some? then TreeHash(h, x.tree.value) else []
  }

  function MetadataPreimage(h: Sha256, x: Transaction): seq<Byte>
    requires Bindable(x)
  {
    MetadataBytes(x.metadata) + EntriesBytes(h, x.contracts)
  }

  function SignedPreimage(h: Sha256, x: Transaction): seq<Byte>
    requires Bindable(x)
  {
    FinalPreimage(h(TransactionPreimage(h, x)), h(MetadataPreimage(h, x)))
  }

  /** The hash that is signed. */
  function FinalHash(h: Sha256, x: Transaction): seq<Byte>
    requires Bindable(x)
  {
    h(SignedPreimage(h, x))
  }

  function ContractPreimages(cs: seq<InputContract>): set<seq<Byte>>
    requires GoodContracts(cs)
  {
    set i | 0 <= i < |cs| :: ContractBytes(cs[i])
  }

  /** Everything hashed on the way to the signed hash. */
  function AllPreimages(h: Sha256, x: Transaction): set<seq<Byte>>
    requires Bindable(x)
  {
    {SignedPreimage(h, x), TransactionPreimage(h, x), MetadataPreimage(h, x)} + ContractPreimages(x.contracts) +
    if x.tree.Some? then Preimages(h, x.tree.value) else {}
  }

  ghost predicate SameTransaction(x: Transaction, y: Transaction)
  {
    x.version == y.version && x.roots == y.roots && x.metadata == y.metadata && x.contracts == y.contracts &&
    x.tree.Some? == y.tree.Some? && (x.tree.Some? ==> SameContent(x.tree.value, y.tree.value))
  }

  // ------------------------------------------------------------------ peeling

  lemma PeelU64(m: nat, r: seq<Byte>, n: nat, s: seq<Byte>)
    requires IsUint64(m) && IsUint64(n) && U64(m) + r == U64(n) + s
    ensures m == n && r == s
  {
    hide U64;
    PeelFixed(U64(m), r, U64(n), s);
    WordInverse(m);
    WordInverse(n);
  }

  lemma PeelOptU64(a: Option<int>, r: seq<Byte>, b: Option<int>, s: seq<Byte>)
    requires GoodTime(a) && GoodTime(b) && EncOptU64(a) + r == EncOptU64(b) + s
    ensures a == b && r == s
  {
    hide U64;
    assert (EncOptU64(a) + r)[0] == EncOptU64(a)[0] && (EncOptU64(b) + s)[0] == EncOptU64(b)[0];
    if a.Some? {
      Assoc([1], U64(a.value), r);
      Assoc([1], U64(b.value), s);
      PeelFixed([1], U64(a.value) + r, [1], U64(b.value) + s);
      PeelU64(a.value, r, b.value, s);
    } else {
      PeelFixed([0], r, [0], s);
    }
  }

  lemma MetadataSplit(m: Metadata, r: seq<Byte>)
    ensures MetadataBytes(m) + r ==
      (HASH_PURPOSE + [0x01]) + (EncRepeated(m.actAs) + (EncString(m.commandId) + (EncString(m.transactionUuid) +
        (U32(m.mediatorGroup) + (EncString(m.synchronizerId) + (EncOptU64(m.minLedgerTime) + (EncOptU64(m.maxLedgerTime) +
          (U64(m.preparationTime) + (U32(m.inputContractsCount) + r)))))))))
  {
    hide EncRepeated, EncString, EncOptU64, U32, U64;
    ConcatAssoc();
  }

  lemma SubmitterBinds(m: Metadata, r: seq<Byte>, n: Metadata, s: seq<Byte>)
    requires GoodMetadata(m) && GoodMetadata(n)
    requires EncRepeated(m.actAs) + (EncString(m.commandId) + (EncString(m.transactionUuid) + r)) ==
             EncRepeated(n.actAs) + (EncString(n.commandId) + (EncString(n.transactionUuid) + s))
    ensures m.actAs == n.actAs && m.commandId == n.commandId && m.transactionUuid == n.transactionUuid && r == s
  {
    hide EncRepeated, EncString, GoodStrings, GoodString;
    PeelRepeated(m.actAs, EncString(m.commandId) + (EncString(m.transactionUuid) + r),
                 n.actAs, EncString(n.commandId) + (EncString(n.transactionUuid) + s));
    PeelString(m.commandId, EncString(m.transactionUuid) + r, n.commandId, EncString(n.transactionUuid) + s);
    PeelString(m.transactionUuid, r, n.transactionUuid, s);
  }

  lemma TimesBind(m: Metadata, r: seq<Byte>, n: Metadata, s: seq<Byte>)
    requires GoodMetadata(m) && GoodMetadata(n)
    requires EncOptU64(m.minLedgerTime) + (EncOptU64(m.maxLedgerTime) + (U64(m.preparationTime) + r)) ==
             EncOptU64(n.minLedgerTime) + (EncOptU64(n.maxLedgerTime) + (U64(n.preparationTime) + s))
    ensures m.minLedgerTime == n.minLedgerTime && m.maxLedgerTime == n.maxLedgerTime && m.preparationTime == n.preparationTime && r == s
  {
    hide U64, EncOptU64, GoodStrings, GoodString;
    PeelOptU64(m.minLedgerTime, EncOptU64(m.maxLedgerTime) + (U64(m.preparationTime) + r),
               n.minLedgerTime, EncOptU64(n.maxLedgerTime) + (U64(n.preparationTime) + s));
    PeelOptU64(m.maxLedgerTime, U64(m.preparationTime) + r, n.maxLedgerTime, U64(n.preparationTime) + s);
    PeelU64(m.preparationTime, r, n.preparationTime, s);
  }

  /** The metadata part of the hash is prefix-free. */
  lemma MetadataBinds(m: Metadata, r: seq<Byte>, n: Metadata, s: seq<Byte>)
    requires GoodMetadata(m) && GoodMetadata(n) && MetadataBytes(m) + r == MetadataBytes(n) + s
    ensures m == n && r == s
  {
    hide MetadataBytes, EncRepeated, EncString, EncOptU64, U32, U64, GoodStrings, GoodString;
    MetadataSplit(m, r);
    MetadataSplit(n, s);
    var r1, s1 := U32(m.inputContractsCount) + r, U32(n.inputContractsCount) + s;
    var r2 := EncOptU64(m.minLedgerTime) + (EncOptU64(m.maxLedgerTime) + (U64(m.preparationTime) + r1));
    var s2 := EncOptU64(n.minLedgerTime) + (EncOptU64(n.maxLedgerTime) + (U64(n.preparationTime) + s1));
    var r3, s3 := EncString(m.synchronizerId) + r2, EncString(n.synchronizerId) + s2;
    var r4, s4 := U32(m.mediatorGroup) + r3, U32(n.mediatorGroup) + s3;
    PeelFixed(HASH_PURPOSE + [0x01], EncRepeated(m.actAs) + (EncString(m.commandId) + (EncString(m.transactionUuid) + r4)),
              HASH_PURPOSE + [0x01], EncRepeated(n.actAs) + (EncString(n.commandId) + (EncString(n.transactionUuid) + s4)));
    SubmitterBinds(m, r4, n, s4);
    PeelCount(m.mediatorGroup, r3, n.mediatorGroup, s3);
    PeelString(m.synchronizerId, r2, n.synchronizerId, s2);
    TimesBind(m, r1, n, s1);
    PeelCount(m.inputContractsCount, r, n.inputContractsCount, s);
  }

  // ------------------------------------------------------------------ input contracts

  lemma {:induction false} EntriesSize(h: Sha256, cs: seq<InputContract>)
    requires GoodContracts(cs)
    ensures |EntriesBytes(h, cs)| == 40 * |cs|
  {
    hide GoodContract, ContractBytes, U64;
    if |cs| > 0 {
      EntriesSize(h, cs[..|cs| - 1]);
    }
  }

  /** The forty bytes of one contract: the creation time, then the hash of the create, without a seed. */
  predicate IsEntry(h: Sha256, c: InputContract, e: seq<Byte>)
  {
    |e| == 40 && e[..8] == U64(c.createdAt) &&
    (c.contract.Some? ==> (IsComplete(Create(c.contract.value)) && e[8..] == h(NodeStream(Create(c.contract.value), None, []))))
  }

  lemma {:induction false} EntryAt(h: Sha256, cs: seq<InputContract>, i: nat)
    requires GoodContracts(cs) && i < |cs|
    ensures ContractsParse(cs) && |EntriesBytes(h, cs)| == 40 * |cs| && IsEntry(h, cs[i], EntriesBytes(h, cs)[40 * i..40 * i + 40])
    decreases |cs|
  {
    hide *;
    var k := |cs| - 1;
    GoodContractsParse(cs);
    EntriesSize(h, cs);
    EntriesStep(h, cs, k);
    EntriesSize(h, cs[..k]);
    if i < k {
      EntryAt(h, cs[..k], i);
      assert EntriesBytes(h, cs)[40 * i..40 * i + 40] == EntriesBytes(h, cs[..k])[40 * i..40 * i + 40];
    } else {
      EntryParts(h, cs[k]);
      assert EntriesBytes(h, cs)[40 * i..40 * i + 40] == EntryBytes(h, cs[k]);
    }
  }

  lemma EntryParts(h: Sha256, c: InputContract)
    requires GoodContract(c)
    ensures ContractParses(c) && IsEntry(h, c, EntryBytes(h, c))
  {
    hide StreamShell, ShellBytes, U64, IsComplete, Hashable, ReadableNode;
    if c.contract.Some? {
      var b := Create(c.contract.value);
      ShellIsCanonical(b, None, HASH_OK);
      assert ShellBytes(b, None) + [] == ShellBytes(b, None);
    }
  }

  lemma SameContract(c: InputContract, d: InputContract)
    requires GoodContract(c) && GoodContract(d) && c.createdAt == d.createdAt && ContractBytes(c) == ContractBytes(d)
    ensures c == d
  {
    hide Hashable, ShellBytes, ReadableNode, IsComplete;
    var b, e := ContractBody(c), ContractBody(d);
    assert !HasChildren(b) && !HasChildren(e);
    assert ShellBytes(b, None) + [] == ShellBytes(b, None) && ShellBytes(e, None) + [] == ShellBytes(e, None);
    NodeBytesBind(b, None, [], e, None, []);
  }

  lemma GoodContractsParse(cs: seq<InputContract>)
    requires GoodContracts(cs)
    ensures ContractsParse(cs)
  {
  }

  /** The last entry of the list. */
  lemma EntriesStep(h: Sha256, cs: seq<InputContract>, k: nat)
    requires GoodContracts(cs) && |cs| == k + 1
    ensures GoodContracts(cs[..k]) && GoodContract(cs[k]) && ContractParses(cs[k]) && ContractsParse(cs) && ContractsParse(cs[..k])
    ensures EntriesBytes(h, cs) == EntriesBytes(h, cs[..k]) + EntryBytes(h, cs[k])
    ensures |EntryBytes(h, cs[k])| == 40 && cs == cs[..k] + [cs[k]]
  {
    hide ContractBytes, U64, Hashable, ReadableNode, ContractParses;
  }

  /** Equal entries, equal contracts. */
  lemma {:induction false} EntriesBind(h: Sha256, cs: seq<InputContract>, ds: seq<InputContract>)
    requires GoodContracts(cs) && GoodContracts(ds) && EntriesBytes(h, cs) == EntriesBytes(h, ds)
    requires NoCollision(h, ContractPreimages(cs) + ContractPreimages(ds))
    ensures cs == ds
  {
    hide *;
    GoodContractsParse(cs);
    GoodContractsParse(ds);
    EntriesSize(h, cs);
    EntriesSize(h, ds);
    if |cs| > 0 {
      var k := |cs| - 1;
      EntriesStep(h, cs, k);
      EntriesStep(h, ds, k);
      PeelFixed(EntriesBytes(h, cs[..k]), EntryBytes(h, cs[k]), EntriesBytes(h, ds[..k]), EntryBytes(h, ds[k]));
      LastContract(h, cs, ds, k);
      PrefixPreimages(cs, k);
      PrefixPreimages(ds, k);
      SubsetKeepsNoCollision(h, ContractPreimages(cs) + ContractPreimages(ds), ContractPreimages(cs[..k]) + ContractPreimages(ds[..k]));
      EntriesBind(h, cs[..k], ds[..k]);
    }
  }

  lemma PrefixPreimages(cs: seq<InputContract>, k: nat)
    requires GoodContracts(cs) && k <= |cs|
    ensures ContractPreimages(cs[..k]) <= ContractPreimages(cs)
  {
    hide ContractBytes, Hashable, ReadableNode, ContractParses;
    forall b | b in ContractPreimages(cs[..k])
      ensures b in ContractPreimages(cs)
    {
      var i :| 0 <= i < k && b == ContractBytes(cs[..k][i]);
      assert cs[..k][i] == cs[i];
    }
  }

  lemma LastContract(h: Sha256, cs: seq<InputContract>, ds: seq<InputContract>, k: nat)
    requires GoodContracts(cs) && GoodContracts(ds) && k < |cs| && k < |ds|
    requires NoCollision(h, ContractPreimages(cs) + ContractPreimages(ds))
    requires EntryBytes(h, cs[k]) == EntryBytes(h, ds[k])
    ensures cs[k] == ds[k]
  {
    hide GoodContract, ContractBytes, U64;
    GoodContractParts(cs[k]);
    GoodContractParts(ds[k]);
    PeelU64(cs[k].createdAt, h(ContractBytes(cs[k])), ds[k].createdAt, h(ContractBytes(ds[k])));
    assert ContractBytes(cs[k]) in ContractPreimages(cs) && ContractBytes(ds[k]) in ContractPreimages(ds);
    SameContract(cs[k], ds[k]);
  }

  lemma GoodContractParts(c: InputContract)
    requires GoodContract(c)
    ensures ContractParses(c) && IsUint64(c.createdAt)
  {
  }

  // ------------------------------------------------------------------ the whole transaction

  lemma HeaderBinds(v: Option<Str>, m: nat, r: seq<Byte>, w: Option<Str>, n: nat, s: seq<Byte>)
    requires GoodString(v) && GoodString(w) && IsUint32(m) && IsUint32(n)
    requires HeaderBytes(v, m) + r == HeaderBytes(w, n) + s
    ensures v == w && m == n && r == s
  {
    hide EncString, U32, GoodString;
    ConcatAssoc();
    PeelFixed(HASH_PURPOSE, EncString(v) + (U32(m) + r), HASH_PURPOSE, EncString(w) + (U32(n) + s));
    PeelString(v, U32(m) + r, w, U32(n) + s);
    PeelCount(m, r, n, s);
  }

  lemma StagesBind(h: Sha256, x: Transaction, y: Transaction)
    requires Bindable(x) && Bindable(y) && NoCollision(h, AllPreimages(h, x) + AllPreimages(h, y))
    requires FinalHash(h, x) == FinalHash(h, y)
    ensures TransactionPreimage(h, x) == TransactionPreimage(h, y) && MetadataPreimage(h, x) == MetadataPreimage(h, y)
  {
    hide Bindable, TransactionPreimage, MetadataPreimage, HashableTree, BindableTree, Preimages, ContractPreimages, NoCollision;
    var tx, ty, mx, my := TransactionPreimage(h, x), TransactionPreimage(h, y), MetadataPreimage(h, x), MetadataPreimage(h, y);
    var ps := AllPreimages(h, x) + AllPreimages(h, y);
    Uncollided(h, ps, SignedPreimage(h, x), SignedPreimage(h, y));
    var start := HASH_PURPOSE + [SCHEME_VERSION];
    Assoc(start, h(tx), h(mx));
    Assoc(start, h(ty), h(my));
    PeelFixed(start, h(tx) + h(mx), start, h(ty) + h(my));
    PeelFixed(h(tx), h(mx), h(ty), h(my));
    Uncollided(h, ps, tx, ty);
    Uncollided(h, ps, mx, my);
  }

  lemma Uncollided(h: Sha256, ps: set<seq<Byte>>, a: seq<Byte>, b: seq<Byte>)
    requires NoCollision(h, ps) && a in ps && b in ps && h(a) == h(b)
    ensures a == b
  {
  }

  /** The layout of the three preimages. */
  lemma StageLayout(h: Sha256, x: Transaction)
    requires Bindable(x)
    ensures (x.tree.Some? ==> HashableTree(x.tree.value)) && ContractsParse(x.contracts)
    ensures
      var nodes := [0x00, 0x00, 0x00, 0x30] + EncString(x.version) + U32(x.roots) + if x.tree.Some? then TreeHash(h, x.tree.value) else [];
      var m := x.metadata;
      var metadata :=
        [0x00, 0x00, 0x00, 0x30, 0x01] + (EncRepeated(m.actAs) + (EncString(m.commandId) + (EncString(m.transactionUuid) +
          (U32(m.mediatorGroup) + (EncString(m.synchronizerId) +
            ((if m.minLedgerTime.None? then [0x00] else [0x01] + U64(m.minLedgerTime.value)) +
              ((if m.maxLedgerTime.None? then [0x00] else [0x01] + U64(m.maxLedgerTime.value)) + (U64(m.preparationTime) + (U32(m.inputContractsCount) + EntriesBytes(h, x.contracts))))))))));
      FinalHash(h, x) == h([0x00, 0x00, 0x00, 0x30, 0x02] + h(nodes) + h(metadata))
  {
    hide MetadataBytes, EncRepeated, EncString, U32, U64, EntriesBytes, TreeHash, HashableTree, BindableTree, GoodMetadata, GoodContracts,
         GoodString;
    TransactionParts(h, x);
    MetadataSplit(x.metadata, EntriesBytes(h, x.contracts));
    assert HASH_PURPOSE + [0x01] == [0x00, 0x00, 0x00, 0x30, 0x01];
    assert HASH_PURPOSE + [SCHEME_VERSION] == [0x00, 0x00, 0x00, 0x30, 0x02];
  }

  lemma TreesBind(h: Sha256, t: Option<Tree>, u: Option<Tree>)
    requires t.Some? ==> BindableTree(t.value) && HashableTree(t.value)
    requires u.Some? ==> BindableTree(u.value) && HashableTree(u.value)
    requires (if t.Some? then TreeHash(h, t.value) else []) == (if u.Some? then TreeHash(h, u.value) else [])
    requires (t.Some? && u.Some?) ==> NoCollision(h, Preimages(h, t.value) + Preimages(h, u.value))
    ensures t.Some? == u.Some? && (t.Some? ==> SameContent(t.value, u.value))
  {
    hide BindableTree, HashableTree, Preimages, NoCollision, SameContent;
    if t.Some? && u.Some? {
      TreeBinds(h, t.value, u.value);
    }
  }

  lemma TransactionParts(h: Sha256, x: Transaction)
    requires Bindable(x)
    ensures GoodString(x.version) && IsUint32(x.roots) && GoodMetadata(x.metadata) && GoodContracts(x.contracts) && ContractsParse(x.contracts)
    ensures x.tree.Some? ==> BindableTree(x.tree.value) && HashableTree(x.tree.value)
    ensures TransactionPreimage(h, x) == HeaderBytes(x.version, x.roots) + if x.tree.Some? then TreeHash(h, x.tree.value) else []
    ensures MetadataPreimage(h, x) == MetadataBytes(x.metadata) + EntriesBytes(h, x.contracts)
    ensures ContractPreimages(x.contracts) <= AllPreimages(h, x)
    ensures x.tree.Some? ==> Preimages(h, x.tree.value) <= AllPreimages(h, x)
  {
    hide GoodMetadata, GoodContracts, BindableTree, HashableTree, TreeHash, Preimages, ContractPreimages, MetadataBytes, HeaderBytes,
         EntriesBytes, GoodString, SignedPreimage;
    GoodContractsParse(x.contracts);
  }

  lemma SameParts(x: Transaction, y: Transaction)
    requires x.version == y.version && x.roots == y.roots && x.metadata == y.metadata && x.contracts == y.contracts
    requires x.tree.Some? == y.tree.Some? && (x.tree.Some? ==> SameContent(x.tree.value, y.tree.value))
    ensures SameTransaction(x, y)
  {
    hide SameContent;
  }

  /** Equal final hashes mean equal hashed content: version, node tree, metadata and input contracts. */
  lemma FinalHashBinds(h: Sha256, x: Transaction, y: Transaction)
    requires Bindable(x) && Bindable(y) && NoCollision(h, AllPreimages(h, x) + AllPreimages(h, y))
    requires FinalHash(h, x) == FinalHash(h, y)
    ensures SameTransaction(x, y)
  {
    hide *;
    StagesBind(h, x, y);
    TransactionParts(h, x);
    TransactionParts(h, y);
    HeaderBinds(x.version, x.roots, if x.tree.Some? then TreeHash(h, x.tree.value) else [],
                y.version, y.roots, if y.tree.Some? then TreeHash(h, y.tree.value) else []);
    MetadataBinds(x.metadata, EntriesBytes(h, x.contracts), y.metadata, EntriesBytes(h, y.contracts));
    var ps := AllPreimages(h, x) + AllPreimages(h, y);
    SubsetKeepsNoCollision(h, ps, ContractPreimages(x.contracts) + ContractPreimages(y.contracts));
    EntriesBind(h, x.contracts, y.contracts);
    if x.tree.Some? && y.tree.Some? {
      SubsetKeepsNoCollision(h, ps, Preimages(h, x.tree.value) + Preimages(h, y.tree.value));
    }
    TreesBind(h, x.tree, y.tree);
    SameParts(x, y);
  }
}
