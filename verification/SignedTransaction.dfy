/** End to end: what a finalized run signs, and that equal signed hashes mean equal transactions. */
module SignedTransaction {
  import opened Bytes
  import opened HashWriter
  import opened CanonicalNode
  import opened NodeBinding
  import opened NodeTreeCheck
  import opened NodePhase
  import opened NodeMerkle
  import opened TreeBinding
  import opened CanonicalMetadata
  import opened SignedHash
  import opened PreparedTransaction
  import opened TransactionRuns

  /** The final state of a finalized run. */
  function Final(h: Sha256, start: TxState, ms: seq<Message>): TxState
    requires Finalizes(h, start, ms)
  {
    After(h, start, ms, |ms|).st
  }

  /** x is the transaction the messages carry: the header's version, the tree its nodes unfold into (when
      the root came under its header spelling), the metadata, and the disclosed contracts. */
  ghost predicate Carries(h: Sha256, start: TxState, ms: seq<Message>, x: Transaction)
  {
    |ms| > 0 && ms[0].header.Some? && CarriesFrom(h, start, ms, ms[0].header.value.nodesCount, x)
  }

  ghost predicate CarriesFrom(h: Sha256, start: TxState, ms: seq<Message>, n: int, x: Transaction)
  {
    0 <= n && n + 2 <= |ms| && NodesSent(ms, n) && ms[n + 1].metadata.Some? && ContractsSent(ms, n + 2, |ms| - n - 2) &&
    CarriesTree(NodeSession(h, start, ms, n), x.tree) &&
    x.version == ms[0].header.value.version && x.roots == |ms[0].header.value.roots| && x.metadata == ms[n + 1].metadata.value &&
    x.contracts == Contracts(ms, n + 2, |ms| - n - 2)
  }

  ghost predicate CarriesTree(s: Session, tree: Option<Tree>)
  {
    tree.Some? == RootSpelled(s) && (tree.Some? ==> Unfolds(s, tree.value) && tree.value.id == s.RootId())
  }

  /** The facts about a complete run under a tree verdict of TREE_OK. */
  lemma CompleteFacts(h: Sha256, start: TxState, ms: seq<Message>, st: TxState) returns (n: nat, s: Session)
    requires Complete(h, start, ms, st) && st.node.tree.err == TREE_OK
    ensures n + 2 + st.contractsCount == |ms| && 0 <= st.contractsCount && NodesSent(ms, n) && ms[n + 1].metadata.Some?
    ensures ms[0].header.Some? && n == ms[0].header.value.nodesCount && s == NodeSession(h, start, ms, n)
    ensures s.Accepted() && s.Parses() && st.mHash == h(FinalPreimage(h(s.State(n).hasher), h(st.node.hasher)))
    ensures ContractsFollow(h, ms, n + 2, ms[n + 1].metadata.value, st.contractsCount, NodeFeedOf(st.node))
  {
    hide Verify, FinalPreimage, ContractsFollow, Session.Parses, Session.State, HeaderNode;
    n := st.header.nodesCount;
    s := NodeSession(h, start, ms, n);
  }

  lemma FinalIsComplete(h: Sha256, start: TxState, ms: seq<Message>)
    requires Finalizes(h, start, ms)
    ensures Complete(h, start, ms, Final(h, start, ms))
  {
    hide After, Complete, Finalizes;
    FinalizedRunIsComplete(h, start, ms);
  }

  /** The node stage: the header and the Merkle root. */
  lemma NodeStage(s: Session, x: Transaction)
    requires s.Accepted() && CarriesTree(s, x.tree) && Bindable(x) && s.start.hasher == FeedHeader(s.header).out
    requires x.version == s.header.version && x.roots == |s.header.roots|
    ensures s.Parses() && s.State(|s.parts|).hasher == TransactionPreimage(s.h, x)
  {
    hide Session.Accepted, Session.Parses, Session.State, Unfolds, RootSpelled, FeedHeader, HeaderBytes, TreeHash, HashableTree, Bindable,
         Session.RootId;
    HeaderWrites(s.header);
    TransactionParts(s.h, x);
    if x.tree.Some? {
      MerkleSoundness(s, x.tree.value);
    } else {
      var t := TreeTheorem(s);
      MerkleSoundness(s, t);
    }
  }

  /** The metadata stage: the metadata and the disclosed contracts. */
  lemma MetadataStage(h: Sha256, x: Transaction, feed: Feed)
    requires Bindable(x) && ContractsParse(x.contracts) && feed == FeedContracts(h, FeedMetadata(x.metadata, HASH_OK), x.contracts)
    ensures feed.out == MetadataPreimage(h, x)
  {
    hide FeedContracts, FeedMetadata, MetadataBytes, EntriesBytes, GoodContracts, GoodMetadata, PresentMetadata, ReadableContracts,
         BindableTree, HashableTree;
    GoodIsPresent(x.metadata);
    MetadataWrites(x.metadata, HASH_OK);
    assert ReadableContracts(x.contracts) by { GoodIsReadable(x.contracts); }
    ContractsWrite(h, FeedMetadata(x.metadata, HASH_OK), x.contracts);
  }

  lemma GoodIsPresent(m: Metadata)
    requires GoodMetadata(m)
    ensures PresentMetadata(m)
  {
  }

  lemma GoodIsReadable(cs: seq<InputContract>)
    requires GoodContracts(cs)
    ensures ReadableContracts(cs)
  {
    hide ReadableNode, ContractParses, Hashable;
  }

  lemma FollowMeaning(h: Sha256, ms: seq<Message>, at: nat, md: Metadata, i: nat, feed: Feed)
    requires ContractsFollow(h, ms, at, md, i, feed)
    ensures ContractsSent(ms, at, i) && ContractsParse(Contracts(ms, at, i)) && feed == FeedContracts(h, FeedMetadata(md, HASH_OK), Contracts(ms, at, i))
  {
  }

  lemma CarriesMeaning(h: Sha256, start: TxState, ms: seq<Message>, x: Transaction, n: nat)
    requires Carries(h, start, ms, x) && n == ms[0].header.value.nodesCount
    ensures n + 2 <= |ms| && NodesSent(ms, n) && ms[n + 1].metadata.Some? && ContractsSent(ms, n + 2, |ms| - n - 2)
    ensures CarriesTree(NodeSession(h, start, ms, n), x.tree)
    ensures x.version == ms[0].header.value.version && x.roots == |ms[0].header.value.roots| && x.metadata == ms[n + 1].metadata.value
    ensures x.contracts == Contracts(ms, n + 2, |ms| - n - 2)
  {
    hide CarriesTree, NodeSession, NodesSent, ContractsSent;
  }

  lemma CompleteHash(h: Sha256, start: TxState, ms: seq<Message>, st: TxState, x: Transaction)
    requires Complete(h, start, ms, st) && st.node.tree.err == TREE_OK && Carries(h, start, ms, x) && Bindable(x)
    ensures st.mHash == FinalHash(h, x)
  {
    hide *;
    var n, s := CompleteFacts(h, start, ms, st);
    CarriesMeaning(h, start, ms, x, n);
    FollowMeaning(h, ms, n + 2, x.metadata, st.contractsCount, NodeFeedOf(st.node));
    HeaderHasher(start, ms[0]);
    NodeStage(s, x);
    MetadataStage(h, x, NodeFeedOf(st.node));
    HashUnfolds(h, x, st);
  }

  /** What is signed after an accepted node tree is the hash of the transaction the messages carry. */
  lemma SignedHashIsTransactionHash(h: Sha256, start: TxState, ms: seq<Message>, x: Transaction)
    requires Finalizes(h, start, ms) && Final(h, start, ms).node.tree.err == TREE_OK
    requires Carries(h, start, ms, x) && Bindable(x)
    ensures Final(h, start, ms).mHash == FinalHash(h, x)
  {
    hide *;
    FinalIsComplete(h, start, ms);
    CompleteHash(h, start, ms, Final(h, start, ms), x);
  }

  /** What a finalized run hashes last: 69 bytes, the fixed five, then the hash of all that the header and the
      nodes fed, then the hash of all that the metadata and the contracts fed. */
  lemma SignedBytes(h: Sha256, start: TxState, ms: seq<Message>) returns (p: seq<Byte>, n: nat)
    requires Finalizes(h, start, ms)
    ensures n + 2 <= |ms| && NodesSent(ms, n) && n == ms[0].header.value.nodesCount && ms[n + 1].metadata.Some?
    ensures ContractsSent(ms, n + 2, |ms| - n - 2) && ContractsParse(Contracts(ms, n + 2, |ms| - n - 2)) && NodeSession(h, start, ms, n).Parses()
    ensures |p| == 69 && p[..5] == [0x00, 0x00, 0x00, 0x30, 0x02] && After(h, start, ms, |ms|).st.mHash == h(p)
    ensures p[5..37] == h(NodeSession(h, start, ms, n).State(n).hasher)
    ensures p[37..] == h(FeedContracts(h, FeedMetadata(ms[n + 1].metadata.value, HASH_OK), Contracts(ms, n + 2, |ms| - n - 2)).out)
  {
    hide *;
    FinalizesMeaning(h, start, ms);
    FinalizedRunIsComplete(h, start, ms);
    p, n := CompleteBytes(h, start, ms, After(h, start, ms, |ms|).st);
  }

  lemma CompleteBytes(h: Sha256, start: TxState, ms: seq<Message>, st: TxState) returns (p: seq<Byte>, n: nat)
    requires Complete(h, start, ms, st)
    ensures n + 2 <= |ms| && NodesSent(ms, n) && n == ms[0].header.value.nodesCount && ms[n + 1].metadata.Some?
    ensures ContractsSent(ms, n + 2, |ms| - n - 2) && ContractsParse(Contracts(ms, n + 2, |ms| - n - 2)) && NodeSession(h, start, ms, n).Parses()
    ensures |p| == 69 && p[..5] == [0x00, 0x00, 0x00, 0x30, 0x02] && st.mHash == h(p)
    ensures p[5..37] == h(NodeSession(h, start, ms, n).State(n).hasher)
    ensures p[37..] == h(FeedContracts(h, FeedMetadata(ms[n + 1].metadata.value, HASH_OK), Contracts(ms, n + 2, |ms| - n - 2)).out)
  {
    hide *;
    n := CompleteStages(h, start, ms, st);
    FollowMeaning(h, ms, n + 2, ms[n + 1].metadata.value, st.contractsCount, NodeFeedOf(st.node));
    FeedOutput(st.node);
    p := FinalPreimage(st.partialTxHash, h(st.node.hasher));
    FinalLayout(st.partialTxHash, h(st.node.hasher));
  }

  lemma FinalizesMeaning(h: Sha256, start: TxState, ms: seq<Message>)
    requires Finalizes(h, start, ms)
    ensures Starts(start) && After(h, start, ms, |ms|).Finalized?
  {
    hide After, Starts;
  }

  lemma FeedOutput(node: NodeState)
    ensures NodeFeedOf(node).out == node.hasher
  {
  }

  /** The two stages of a complete run. */
  lemma CompleteStages(h: Sha256, start: TxState, ms: seq<Message>, st: TxState) returns (n: nat)
    requires Complete(h, start, ms, st)
    ensures n + 2 + st.contractsCount == |ms| && 0 <= st.contractsCount && NodesSent(ms, n) && ms[n + 1].metadata.Some?
    ensures n == ms[0].header.value.nodesCount && NodeSession(h, start, ms, n).Parses()
    ensures st.partialTxHash == h(NodeSession(h, start, ms, n).State(n).hasher) && IsHash(st.partialTxHash)
    ensures st.mHash == h(FinalPreimage(st.partialTxHash, h(st.node.hasher)))
    ensures ContractsFollow(h, ms, n + 2, ms[n + 1].metadata.value, st.contractsCount, NodeFeedOf(st.node))
  {
    hide Verify, FinalPreimage, ContractsFollow, Session.Parses, Session.State, HeaderNode;
    n := st.header.nodesCount;
  }

  lemma HeaderHasher(start: TxState, m: Message)
    requires m.header.Some?
    ensures HeaderNode(start, m).hasher == FeedHeader(m.header.value).out
  {
  }

  lemma HashUnfolds(h: Sha256, x: Transaction, st: TxState)
    requires Bindable(x)
    ensures NodeFeedOf(st.node).out == st.node.hasher
    ensures FinalHash(h, x) == h(FinalPreimage(h(TransactionPreimage(h, x)), h(MetadataPreimage(h, x))))
  {
    hide Bindable, TransactionPreimage, MetadataPreimage, FinalPreimage;
  }

  /** The layout of what is signed after an accepted node tree: three nested hashes over the purpose, the scheme
      version and every field, in this order. */
  lemma SignedLayout(h: Sha256, start: TxState, ms: seq<Message>, x: Transaction)
    requires Finalizes(h, start, ms) && Final(h, start, ms).node.tree.err == TREE_OK
    requires Carries(h, start, ms, x) && Bindable(x)
    ensures x.tree.Some? ==> HashableTree(x.tree.value)
    ensures ContractsParse(x.contracts)
    ensures
      var nodes := [0x00, 0x00, 0x00, 0x30] + EncString(x.version) + U32(x.roots) + if x.tree.Some? then TreeHash(h, x.tree.value) else [];
      var m := x.metadata;
      var metadata :=
        [0x00, 0x00, 0x00, 0x30, 0x01] + (EncRepeated(m.actAs) + (EncString(m.commandId) + (EncString(m.transactionUuid) +
          (U32(m.mediatorGroup) + (EncString(m.synchronizerId) +
            ((if m.minLedgerTime.None? then [0x00] else [0x01] + U64(m.minLedgerTime.value)) +
              ((if m.maxLedgerTime.None? then [0x00] else [0x01] + U64(m.maxLedgerTime.value)) + (U64(m.preparationTime) + (U32(m.inputContractsCount) + EntriesBytes(h, x.contracts))))))))));
      Final(h, start, ms).mHash == h([0x00, 0x00, 0x00, 0x30, 0x02] + h(nodes) + h(metadata))
  {
    hide *;
    SignedHashIsTransactionHash(h, start, ms, x);
    StageLayout(h, x);
  }

  /** Two finalized runs with accepted trees that leave one hash to sign carried one transaction. */
  lemma SignaturesBind(h: Sha256, a: TxState, ms: seq<Message>, x: Transaction, b: TxState, ns: seq<Message>, y: Transaction)
    requires Finalizes(h, a, ms) && Final(h, a, ms).node.tree.err == TREE_OK && Carries(h, a, ms, x) && Bindable(x)
    requires Finalizes(h, b, ns) && Final(h, b, ns).node.tree.err == TREE_OK && Carries(h, b, ns, y) && Bindable(y)
    requires NoCollision(h, AllPreimages(h, x) + AllPreimages(h, y))
    requires Final(h, a, ms).mHash == Final(h, b, ns).mHash
    ensures SameTransaction(x, y)
  {
    hide *;
    SignedHashIsTransactionHash(h, a, ms, x);
    SignedHashIsTransactionHash(h, b, ns, y);
    FinalHashBinds(h, x, y);
  }
}
