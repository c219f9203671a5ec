/** Every run of the phase machine up to its first successful finalization: which messages it took, in
    which order, and what hash it leaves to sign. */
module TransactionRuns {
  import opened Bytes
  import opened HashWriter
  import opened CanonicalNode
  import opened NodeTreeCheck
  import opened NodeHashStore
  import opened NodePhase
  import opened NodeTree
  import opened CanonicalMetadata
  import opened ValuesCheck
  import opened ValuesVerdict
  import opened PreparedTransaction

  // ------------------------------------------------------------------ one step in each phase

  lemma HeaderEffects(st: TxState, m: Message)
    requires ValidRing(st.node.ring) && !HeaderStep(st, m).Refused?
    ensures m.header.Some? && HeaderStep(st, m).Continue?
    ensures
      var hdr, t := m.header.value, HeaderStep(st, m).st;
      t.header == hdr && t.recvIdx == 0 && t.node == HeaderNode(st, m) && t.log == st.log && t.review == st.review &&
      t.phase == (if hdr.nodesCount == 0 then RECEIVING_METADATA else RECEIVING_DAML_NODES) &&
      t.node.err == HASH_OK && Begins(hdr, t.node) && t.node.hasher == FeedHeader(hdr).out
  {
    hide Init, FeedHeader;
  }

  /** The node state the header leaves. */
  function HeaderNode(st: TxState, m: Message): NodeState
    requires m.header.Some?
  {
    NodeState(Init(m.header.value.roots, m.header.value.nodesCount, m.room), EmptyRing(st.node.ring.cursor),
              FeedHeader(m.header.value).err, FeedHeader(m.header.value).out)
  }

  lemma NodeEffects(h: Sha256, st: TxState, m: Message)
    requires ValidRing(st.node.ring) && !NodeMessageStep(h, st, m).Refused?
    ensures m.node.Some? && PartParses(st.header, m.node.value) && NodeMessageStep(h, st, m).Continue?
    ensures
      var t := NodeMessageStep(h, st, m).st;
      t.header == st.header && t.recvIdx == st.recvIdx + 1 && t.node == NodeStep(h, st.header, st.node, m.node.value) && t.node.err == HASH_OK &&
      t.phase == (if t.recvIdx == st.header.nodesCount then RECEIVING_METADATA else RECEIVING_DAML_NODES)
  {
    hide NodeStep, PartParses, Findings;
  }

  lemma MetadataEffects(h: Sha256, st: TxState, m: Message)
    requires ValidRing(st.node.ring) && !MetadataStep(h, st, m).Refused?
    ensures m.metadata.Some? && !IsImpossible(Verify(st.node.tree).err)
    ensures
      var md, t := m.metadata.value, MetadataStep(h, st, m).st;
      t.header == st.header && t.recvIdx == 0 && t.contractsCount == md.inputContractsCount && t.partialTxHash == h(st.node.hasher) &&
      (md.inputContractsCount != 0 ==> t.phase == RECEIVING_METADATA_INPUT_CONTRACTS) &&
        NodeFeedOf(t.node) == FeedMetadata(md, st.node.err) && t.node.err == HASH_OK &&
      t.node.tree == Verify(st.node.tree) && MetadataStep(h, st, m).Finalized? == (md.inputContractsCount == 0) &&
      (md.inputContractsCount == 0 ==> t.mHash == h(FinalPreimage(t.partialTxHash, h(t.node.hasher))))
  {
    hide Verify, FeedMetadata, FinalPreimage, Verdict, Run;
  }

  /** The hasher and its error. */
  function NodeFeedOf(n: NodeState): Feed { Feed(n.hasher, n.err) }

  lemma ContractEffects(h: Sha256, st: TxState, m: Message)
    requires ValidRing(st.node.ring) && !ContractStep(h, st, m).Refused?
    ensures m.contract.Some? && ContractParses(m.contract.value)
    ensures
      var t := ContractStep(h, st, m).st;
      t.header == st.header && t.recvIdx == st.recvIdx + 1 && t.contractsCount == st.contractsCount && t.partialTxHash == st.partialTxHash &&
      t.phase == st.phase && NodeFeedOf(t.node) == FeedContract(h, NodeFeedOf(st.node), m.contract.value) && t.node.err == HASH_OK &&
      t.node.tree == st.node.tree && ContractStep(h, st, m).Finalized? == (t.recvIdx == st.contractsCount) &&
      (ContractStep(h, st, m).Finalized? ==> t.mHash == h(FinalPreimage(t.partialTxHash, h(t.node.hasher))))
  {
    hide FeedContract, ContractParses, FinalPreimage, Verdict, Run, Discloses;
  }

  // ------------------------------------------------------------------ the session inside a run

  ghost predicate NodesSent(ms: seq<Message>, i: nat)
  {
    i + 1 <= |ms| && ms[0].header.Some? && forall m :: 1 <= m <= i ==> ms[m].node.Some?
  }

  /** The node phase of a run, after i node messages. */
  ghost function NodeSession(h: Sha256, start: TxState, ms: seq<Message>, i: nat): (s: Session)
    requires NodesSent(ms, i)
    ensures s.h == h && s.header == ms[0].header.value && s.start == HeaderNode(start, ms[0]) && |s.parts| == i
    ensures forall j :: 0 <= j < i ==> s.parts[j] == ms[1 + j].node.value
  {
    Session(h, ms[0].header.value, HeaderNode(start, ms[0]), seq(i, j requires 0 <= j < i => ms[1 + j].node.value))
  }

  /** A session's state does not depend on later parts. */
  lemma {:induction false} StatePrefix(s: Session, t: Session, i: nat)
    requires s.Parses() && t.Parses() && s.h == t.h && s.header == t.header && s.start == t.start
    requires i <= |s.parts| <= |t.parts| && forall j :: 0 <= j < |s.parts| ==> s.parts[j] == t.parts[j]
    ensures s.State(i) == t.State(i)
    decreases i
  {
    hide NodeStep, Session.Parses, PartParses;
    if i > 0 {
      StatePrefix(s, t, i - 1);
      SessionStep(s, i - 1);
      SessionStep(t, i - 1);
    }
  }

  lemma SessionStep(s: Session, i: nat)
    requires s.Parses() && i < |s.parts|
    ensures PartParses(s.header, s.parts[i]) && s.State(i + 1) == NodeStep(s.h, s.header, s.State(i), s.parts[i])
  {
    hide NodeStep, PartParses, Begins;
  }

  /** The run's node state is the session's. */
  ghost predicate NodesFollow(h: Sha256, start: TxState, ms: seq<Message>, i: nat, node: NodeState)
  {
    NodesSent(ms, i) && NodeSession(h, start, ms, i).Parses() && NodeSession(h, start, ms, i).State(i) == node && node.err == HASH_OK
  }

  lemma NodesFollowZero(h: Sha256, start: TxState, ms: seq<Message>, node: NodeState)
    requires |ms| > 0 && ms[0].header.Some? && node == HeaderNode(start, ms[0]) && node.err == HASH_OK
    requires Begins(ms[0].header.value, node)
    ensures NodesFollow(h, start, ms, 0, node)
  {
    hide HeaderNode;
  }

  lemma SessionExtends(h: Sha256, start: TxState, ms: seq<Message>, i: nat)
    requires NodesSent(ms, i) && NodeSession(h, start, ms, i).Parses() && i + 1 < |ms| && ms[i + 1].node.Some?
    requires PartParses(ms[0].header.value, ms[i + 1].node.value)
    ensures NodesSent(ms, i + 1) && NodeSession(h, start, ms, i + 1).Parses()
  {
    hide NodeStep, PartParses, Begins, HeaderNode;
    var s, t := NodeSession(h, start, ms, i), NodeSession(h, start, ms, i + 1);
    forall j | 0 <= j < i + 1
      ensures PartParses(t.header, t.parts[j])
    {
      assert j < i ==> PartParses(s.header, s.parts[j]);
    }
  }

  lemma NodesFollowStep(h: Sha256, start: TxState, ms: seq<Message>, i: nat, node: NodeState)
    requires NodesFollow(h, start, ms, i, node) && i + 1 < |ms| && ms[i + 1].node.Some? && ValidRing(node.ring)
    requires PartParses(ms[0].header.value, ms[i + 1].node.value)
    requires NodeStep(h, ms[0].header.value, node, ms[i + 1].node.value).err == HASH_OK
    ensures NodesFollow(h, start, ms, i + 1, NodeStep(h, ms[0].header.value, node, ms[i + 1].node.value))
  {
    hide NodeStep, PartParses, HeaderNode, Session.State, Session.Parses;
    var s, t := NodeSession(h, start, ms, i), NodeSession(h, start, ms, i + 1);
    SessionExtends(h, start, ms, i);
    StatePrefix(s, t, i);
    SessionStep(t, i);
  }

  // ------------------------------------------------------------------ the metadata phase inside a run

  ghost predicate ContractsSent(ms: seq<Message>, at: nat, i: nat)
  {
    at + i <= |ms| && forall m :: at <= m < at + i ==> ms[m].contract.Some?
  }

  ghost function Contracts(ms: seq<Message>, at: nat, i: nat): (cs: seq<InputContract>)
    requires ContractsSent(ms, at, i)
    ensures |cs| == i && forall j :: 0 <= j < i ==> cs[j] == ms[at + j].contract.value
  {
    seq(i, j requires 0 <= j < i => ms[at + j].contract.value)
  }

  ghost predicate ContractsFollow(h: Sha256, ms: seq<Message>, at: nat, md: Metadata, i: nat, feed: Feed)
  {
    ContractsSent(ms, at, i) && ContractsParse(Contracts(ms, at, i)) &&
    feed == FeedContracts(h, FeedMetadata(md, HASH_OK), Contracts(ms, at, i))
  }

  lemma ContractsFollowZero(h: Sha256, ms: seq<Message>, at: nat, md: Metadata)
    requires at <= |ms|
    ensures ContractsFollow(h, ms, at, md, 0, FeedMetadata(md, HASH_OK))
  {
    hide FeedMetadata;
  }

  lemma ContractsFollowStep(h: Sha256, ms: seq<Message>, at: nat, md: Metadata, i: nat, feed: Feed)
    requires ContractsFollow(h, ms, at, md, i, feed) && at + i < |ms| && ms[at + i].contract.Some? && ContractParses(ms[at + i].contract.value)
    ensures ContractsFollow(h, ms, at, md, i + 1, FeedContract(h, feed, ms[at + i].contract.value))
  {
    hide FeedMetadata, FeedContract, ContractParses;
    var cs := Contracts(ms, at, i + 1);
    assert cs[..i] == Contracts(ms, at, i);
    forall j | 0 <= j < i + 1
      ensures ContractParses(cs[j])
    {
      assert j < i ==> ContractParses(Contracts(ms, at, i)[j]);
    }
  }

  // ------------------------------------------------------------------ the invariant of the run

  /** What has been received when the machine is in each phase, after k messages. */
  ghost predicate Shape(h: Sha256, start: TxState, ms: seq<Message>, k: nat, st: TxState)
  {
    match st.phase
    case RECEIVING_DAML_TX_PART => k == 0 && st == start
    case RECEIVING_DAML_NODES =>
      0 <= st.recvIdx && k == 1 + st.recvIdx && st.recvIdx != st.header.nodesCount && NodesFollow(h, start, ms, st.recvIdx, st.node) &&
      st.header == ms[0].header.value
    case RECEIVING_METADATA =>
      0 <= st.header.nodesCount && k == 1 + st.header.nodesCount && NodesFollow(h, start, ms, st.header.nodesCount, st.node) &&
      st.header == ms[0].header.value
    case RECEIVING_METADATA_INPUT_CONTRACTS =>
      st.recvIdx != st.contractsCount && ContractShape(h, start, ms, k, st)
  }

  ghost predicate ContractShape(h: Sha256, start: TxState, ms: seq<Message>, k: nat, st: TxState)
  {
    0 <= st.header.nodesCount && 0 <= st.recvIdx && k == 2 + st.header.nodesCount + st.recvIdx <= |ms| &&
    st.header.nodesCount + 2 <= |ms| && ms[st.header.nodesCount + 1].metadata.Some? &&
    NodesDone(h, start, ms, st.header, st.partialTxHash, st.node.tree) && st.contractsCount == ms[st.header.nodesCount + 1].metadata.value.inputContractsCount &&
    ContractsFollow(h, ms, st.header.nodesCount + 2, ms[st.header.nodesCount + 1].metadata.value, st.recvIdx, NodeFeedOf(st.node))
  }

  /** The header and its nodes arrived, then the metadata; the first stage's hash and the tree verdict. */
  ghost predicate NodesDone(h: Sha256, start: TxState, ms: seq<Message>, hdr: Header, partialTxHash: seq<Byte>, tree: Check)
  {
    0 <= hdr.nodesCount && NodesSent(ms, hdr.nodesCount) && hdr == ms[0].header.value &&
    var s := NodeSession(h, start, ms, hdr.nodesCount);
    s.Parses() && s.State(hdr.nodesCount).err == HASH_OK && partialTxHash == h(s.State(hdr.nodesCount).hasher) &&
    tree == Verify(s.State(hdr.nodesCount).tree) && !IsImpossible(tree.err)
  }

  /** The messages a finalized run took: a header, the nodes it announces, the metadata, the contracts it
      announces; and the hash of the two stages. */
  ghost predicate Complete(h: Sha256, start: TxState, ms: seq<Message>, st: TxState)
  {
    st.recvIdx == st.contractsCount && ContractShape(h, start, ms, |ms|, st) && st.mHash == h(FinalPreimage(st.partialTxHash, h(st.node.hasher)))
  }

  lemma ShapeAfterHeader(h: Sha256, start: TxState, ms: seq<Message>)
    requires Starts(start) && |ms| > 0 && !HeaderStep(start, ms[0]).Refused?
    ensures HeaderStep(start, ms[0]).Continue? && Shape(h, start, ms, 1, HeaderStep(start, ms[0]).st)
  {
    hide HeaderStep, NodesFollow, Begins, HeaderNode, FeedHeader;
    HeaderEffects(start, ms[0]);
    var t := HeaderStep(start, ms[0]).st;
    NodesFollowZero(h, start, ms, t.node);
  }

  lemma ShapeAfterNode(h: Sha256, start: TxState, ms: seq<Message>, k: nat, st: TxState)
    requires k < |ms| && ValidRing(st.node.ring) && st.phase == RECEIVING_DAML_NODES && Shape(h, start, ms, k, st)
    requires !NodeMessageStep(h, st, ms[k]).Refused?
    ensures NodeMessageStep(h, st, ms[k]).Continue? && Shape(h, start, ms, k + 1, NodeMessageStep(h, st, ms[k]).st)
  {
    hide NodeMessageStep, NodesFollow, NodeStep, PartParses, IsComplete, NodesSent, HeaderNode;
    NodeEffects(h, st, ms[k]);
    NodesFollowStep(h, start, ms, st.recvIdx, st.node);
  }

  lemma NodesFollowMeaning(h: Sha256, start: TxState, ms: seq<Message>, i: nat, node: NodeState)
    requires NodesFollow(h, start, ms, i, node)
    ensures NodesSent(ms, i) && NodeSession(h, start, ms, i).Parses() && NodeSession(h, start, ms, i).State(i) == node && node.err == HASH_OK
  {
  }

  lemma MetadataShape(h: Sha256, start: TxState, ms: seq<Message>, k: nat, st: TxState)
    requires st.phase == RECEIVING_METADATA && Shape(h, start, ms, k, st)
    ensures 0 <= st.header.nodesCount && k == 1 + st.header.nodesCount && NodesFollow(h, start, ms, st.header.nodesCount, st.node)
    ensures |ms| > 0 && ms[0].header.Some? && st.header == ms[0].header.value
  {
    hide HeaderNode, Session.State, Session.Parses;
  }

  lemma NodesAreDone(h: Sha256, start: TxState, ms: seq<Message>, hdr: Header, n: nat, node: NodeState)
    requires n == hdr.nodesCount && NodesFollow(h, start, ms, n, node) && |ms| > 0 && hdr == ms[0].header.value && !IsImpossible(Verify(node.tree).err)
    ensures NodesDone(h, start, ms, hdr, h(node.hasher), Verify(node.tree))
  {
    hide NodeSession, Verify, NodesSent, Session.Parses, Session.State;
  }

  lemma ShapeAfterMetadata(h: Sha256, start: TxState, ms: seq<Message>, k: nat, st: TxState)
    requires k < |ms| && ValidRing(st.node.ring) && st.phase == RECEIVING_METADATA && Shape(h, start, ms, k, st)
    requires !MetadataStep(h, st, ms[k]).Refused?
    ensures ContractShape(h, start, ms, k + 1, MetadataStep(h, st, ms[k]).st)
    ensures MetadataStep(h, st, ms[k]).Finalized? ==> k + 1 == 2 + st.header.nodesCount
  {
    hide *;
    MetadataEffects(h, st, ms[k]);
    MetadataShape(h, start, ms, k, st);
    NodesAreDone(h, start, ms, st.header, st.header.nodesCount, st.node);
    NodesFollowMeaning(h, start, ms, st.header.nodesCount, st.node);
    ContractsFollowZero(h, ms, k + 1, ms[k].metadata.value);
    ContractShapeOf(h, start, ms, k + 1, MetadataStep(h, st, ms[k]).st);
  }

  lemma ContractShapeParts(h: Sha256, start: TxState, ms: seq<Message>, k: nat, st: TxState)
    requires ContractShape(h, start, ms, k, st)
    ensures 0 <= st.header.nodesCount && 0 <= st.recvIdx && k == 2 + st.header.nodesCount + st.recvIdx <= |ms| &&
      st.header.nodesCount + 2 <= |ms| && ms[st.header.nodesCount + 1].metadata.Some?
    ensures NodesDone(h, start, ms, st.header, st.partialTxHash, st.node.tree) &&
      st.contractsCount == ms[st.header.nodesCount + 1].metadata.value.inputContractsCount
    ensures ContractsFollow(h, ms, st.header.nodesCount + 2, ms[st.header.nodesCount + 1].metadata.value, st.recvIdx, NodeFeedOf(st.node))
  {
    hide NodesDone, ContractsFollow;
  }

  lemma ContractShapeOf(h: Sha256, start: TxState, ms: seq<Message>, k: nat, t: TxState)
    requires 0 <= t.header.nodesCount && 0 <= t.recvIdx && k == 2 + t.header.nodesCount + t.recvIdx <= |ms| &&
      t.header.nodesCount + 2 <= |ms| && ms[t.header.nodesCount + 1].metadata.Some?
    requires NodesDone(h, start, ms, t.header, t.partialTxHash, t.node.tree) && t.contractsCount == ms[t.header.nodesCount + 1].metadata.value.inputContractsCount
    requires ContractsFollow(h, ms, t.header.nodesCount + 2, ms[t.header.nodesCount + 1].metadata.value, t.recvIdx, NodeFeedOf(t.node))
    ensures ContractShape(h, start, ms, k, t)
  {
    hide NodesDone, ContractsFollow;
  }

  lemma ShapeAfterContract(h: Sha256, start: TxState, ms: seq<Message>, k: nat, st: TxState)
    requires k < |ms| && ValidRing(st.node.ring) && st.phase == RECEIVING_METADATA_INPUT_CONTRACTS && ContractShape(h, start, ms, k, st)
    requires !ContractStep(h, st, ms[k]).Refused?
    ensures ContractShape(h, start, ms, k + 1, ContractStep(h, st, ms[k]).st)
  {
    hide *;
    ContractEffects(h, st, ms[k]);
    ContractShapeParts(h, start, ms, k, st);
    assert k == st.header.nodesCount + 2 + st.recvIdx;
    ContractsFollowStep(h, ms, st.header.nodesCount + 2, ms[st.header.nodesCount + 1].metadata.value, st.recvIdx, NodeFeedOf(st.node));
    ContractShapeOf(h, start, ms, k + 1, ContractStep(h, st, ms[k]).st);
  }

  lemma StepDispatch(h: Sha256, start: TxState, ms: seq<Message>, k: nat)
    requires Starts(start) && k < |ms| && After(h, start, ms, k).Continue?
    ensures
      var st, o := After(h, start, ms, k).st, After(h, start, ms, k + 1);
      o == match st.phase {
        case RECEIVING_DAML_TX_PART => HeaderStep(st, ms[k])
        case RECEIVING_DAML_NODES => NodeMessageStep(h, st, ms[k])
        case RECEIVING_METADATA => MetadataStep(h, st, ms[k])
        case RECEIVING_METADATA_INPUT_CONTRACTS => ContractStep(h, st, ms[k])
      }
  {
    hide HeaderStep, NodeMessageStep, MetadataStep, ContractStep;
  }

  lemma EarlierContinues(h: Sha256, start: TxState, ms: seq<Message>, k: nat)
    requires Starts(start) && k < |ms| && After(h, start, ms, k + 1).Continue?
    ensures After(h, start, ms, k).Continue?
  {
    hide Step;
  }

  lemma {:induction false} RunHasShape(h: Sha256, start: TxState, ms: seq<Message>, k: nat)
    requires Starts(start) && k <= |ms| && After(h, start, ms, k).Continue?
    decreases k
    ensures Shape(h, start, ms, k, After(h, start, ms, k).st)
  {
    hide *;
    if k == 0 {
      ShapeAtStart(h, start, ms);
    } else {
      var j := k - 1;
      EarlierContinues(h, start, ms, j);
      RunHasShape(h, start, ms, j);
      OneMore(h, start, ms, j);
    }
  }

  lemma ShapeAtStart(h: Sha256, start: TxState, ms: seq<Message>)
    requires Starts(start)
    ensures After(h, start, ms, 0) == Continue(start) && Shape(h, start, ms, 0, start)
  {
  }

  /** One message: the shape is kept, or the transaction is complete. */
  lemma OneMore(h: Sha256, start: TxState, ms: seq<Message>, k: nat)
    requires Starts(start) && k < |ms| && After(h, start, ms, k).Continue? && Shape(h, start, ms, k, After(h, start, ms, k).st)
    ensures After(h, start, ms, k + 1).Continue? ==> Shape(h, start, ms, k + 1, After(h, start, ms, k + 1).st)
    ensures After(h, start, ms, k + 1).Finalized? && k + 1 == |ms| ==> Complete(h, start, ms, After(h, start, ms, k + 1).st)
  {
    hide After, HeaderStep, NodeMessageStep, MetadataStep, ContractStep, ContractShape, NodesFollow, FinalPreimage, FeedContract, FeedMetadata, Verify;
    var st, o := After(h, start, ms, k).st, After(h, start, ms, k + 1);
    StepDispatch(h, start, ms, k);
    if !o.Refused? {
      match st.phase {
        case RECEIVING_DAML_TX_PART => ShapeAfterHeader(h, start, ms);
        case RECEIVING_DAML_NODES => ShapeAfterNode(h, start, ms, k, st);
        case RECEIVING_METADATA =>
          ShapeAfterMetadata(h, start, ms, k, st);
          MetadataEffects(h, st, ms[k]);
        case RECEIVING_METADATA_INPUT_CONTRACTS =>
          ShapeAfterContract(h, start, ms, k, st);
          ContractEffects(h, st, ms[k]);
      }
    }
  }

  /** Phase order: a run that finalizes took exactly one header, the announced nodes, one metadata and the
      announced contracts, in that order, and leaves the hash of the two stages. */
  lemma FinalizedRunIsComplete(h: Sha256, start: TxState, ms: seq<Message>)
    requires Finalizes(h, start, ms)
    ensures Complete(h, start, ms, After(h, start, ms, |ms|).st)
    ensures
      var st := After(h, start, ms, |ms|).st;
      st.header.nodesCount >= 0 && st.contractsCount >= 0 && |ms| == 1 + st.header.nodesCount + 1 + st.contractsCount
  {
    hide After, Shape, ContractsFollow, NodeSession, Verify, FinalPreimage, NodesSent;
    RunHasShape(h, start, ms, |ms| - 1);
    OneMore(h, start, ms, |ms| - 1);
  }
}
