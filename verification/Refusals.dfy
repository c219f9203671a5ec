/** Why a transaction is refused: for the next message of any run, each status as a condition on what the
    messages carry. */
module Refusals {
  import opened Bytes
  import opened HashWriter
  import opened CanonicalNode
  import opened NodeTreeCheck
  import opened NodeHashStore
  import opened NodePhase
  import opened TreeVerdict
  import opened NodeTree
  import opened NodeMerkle
  import opened CanonicalMetadata
  import opened ValuesCheck
  import opened ValuesVerdict
  import opened PreparedTransaction
  import opened TransactionRuns
  import opened ClearSigning

  /** The run goes on to message k, which finds the machine in this phase. */
  predicate Awaits(h: Sha256, start: TxState, ms: seq<Message>, k: nat, phase: Phase)
  {
    Starts(start) && k < |ms| && After(h, start, ms, k).Continue? && After(h, start, ms, k).st.phase == phase
  }

  predicate Refuses(o: Outcome, sw: Status) { o.Refused? && o.sw == sw }

  /** The state that meets the message. */
  lemma Reached(h: Sha256, start: TxState, ms: seq<Message>, k: nat, phase: Phase) returns (st: TxState)
    requires Awaits(h, start, ms, k, phase)
    ensures Starts(start) && k < |ms| && st.phase == phase && Shape(h, start, ms, k, st) && Reviewed(h, start, ms, st) && ValidRing(st.node.ring)
    ensures After(h, start, ms, k) == Continue(st)
    ensures phase == RECEIVING_DAML_TX_PART ==> After(h, start, ms, k + 1) == HeaderStep(st, ms[k])
    ensures phase == RECEIVING_DAML_NODES ==> After(h, start, ms, k + 1) == NodeMessageStep(h, st, ms[k])
    ensures phase == RECEIVING_METADATA ==> After(h, start, ms, k + 1) == MetadataStep(h, st, ms[k])
    ensures phase == RECEIVING_METADATA_INPUT_CONTRACTS ==> After(h, start, ms, k + 1) == ContractStep(h, st, ms[k])
  {
    hide After, HeaderStep, NodeMessageStep, MetadataStep, ContractStep, Shape, Reviewed, Starts, ValidRing;
    st := After(h, start, ms, k).st;
    RunHasShape(h, start, ms, k);
    RunIsReviewed(h, start, ms, k);
    StepDispatch(h, start, ms, k);
  }

  // ------------------------------------------------------------------ the tree

  /** A tree that no correct host sends: the header starts the check, and its root is out of range, or some
      node or claim is out of range, repeated, of itself, or of the root. */
  ghost predicate Impossible(s: Session, room: bool)
  {
    var roots, n, es := s.header.roots, s.header.nodesCount, EventsUpTo(s, |s.parts|);
    0 <= n <= 256 && |roots| == 1 && room &&
    (!(0 <= NodeIdFromStr(roots[0]) < n) || exists i :: 0 <= i < |es| && Offence(es, i, NodeIdFromStr(roots[0]), n) != TREE_OK)
  }

  lemma SessionIsImpossible(s: Session, room: bool)
    requires s.Parses() && s.start.tree == Init(s.header.roots, s.header.nodesCount, room)
    ensures IsImpossible(Verify(s.State(|s.parts|).tree).err) <==> Impossible(s, room)
  {
    hide Session.State, Session.Parses, Init, TreeVerdict.Run, Verify, IsImpossible, Flatten, CallsUpTo, EventsUpTo, PartCalls, Offence, NodeIdFromStr;
    CallsDescribeTree(s, |s.parts|);
    CallsDescribeEvents(s, |s.parts|);
    ImpossibleIff(s.header.roots, s.header.nodesCount, room, CallsUpTo(s, |s.parts|));
  }

  lemma SessionOfRun(h: Sha256, start: TxState, ms: seq<Message>, n: nat)
    requires NodesSent(ms, n)
    ensures var s := NodeSession(h, start, ms, n); s.start.tree == Init(s.header.roots, s.header.nodesCount, ms[0].room) && |s.parts| == n
  {
    hide Init, FeedHeader;
  }

  // ------------------------------------------------------------------ the metadata message

  /** The answers to the metadata message: the tree first, then the metadata and its strings, then whether the
      transaction ends here. */
  predicate MetadataAnswered(impossible: bool, msg: Message, o: Outcome)
  {
    var m := msg.metadata;
    var present := m.Some? && m.value.commandId.Some? && m.value.transactionUuid.Some? && m.value.synchronizerId.Some? &&
      forall i :: 0 <= i < |m.value.actAs| ==> m.value.actAs[i].Some?;
    (Refuses(o, SW_TX_INVALID_NODE_TREE) <==> impossible) &&
    (Refuses(o, SW_TX_PARSING_FAIL) <==> !impossible && m.None?) &&
    (Refuses(o, SW_TX_HASH_FAIL) <==> !impossible && m.Some? && !present) &&
    (Refuses(o, SW_BAD_STATE) <==> !impossible && present && m.value.inputContractsCount == 0 && !msg.last) &&
    (o.Finalized? <==> !impossible && present && m.value.inputContractsCount == 0 && msg.last)
  }

  lemma MetadataStatus(h: Sha256, st: TxState, m: Message)
    requires ValidRing(st.node.ring) && st.node.err == HASH_OK
    ensures MetadataAnswered(IsImpossible(Verify(st.node.tree).err), m, MetadataStep(h, st, m))
  {
    hide Verify, FeedMetadata, IsImpossible, AfterMetadata, PresentMetadata, Finalize, MetadataBytes;
    if m.metadata.Some? {
      MetadataWrites(m.metadata.value, st.node.err);
      StringsPresent(m.metadata.value);
      CountStays(h, st, m.metadata.value);
      FinalizeStatus(h, AfterMetadata(h, st, m.metadata.value), m);
    }
  }

  lemma FinalizeStatus(h: Sha256, st: TxState, m: Message)
    ensures if m.last then Finalize(h, st, m).Finalized? else Refuses(Finalize(h, st, m), SW_BAD_STATE)
  {
    hide Verdict, ValuesVerdict.Run, FinalPreimage;
  }

  lemma StringsPresent(m: Metadata)
    ensures PresentMetadata(m) <==>
      m.commandId.Some? && m.transactionUuid.Some? && m.synchronizerId.Some? && forall i :: 0 <= i < |m.actAs| ==> m.actAs[i].Some?
  {
  }

  lemma CountStays(h: Sha256, st: TxState, m: Metadata)
    requires ValidRing(st.node.ring)
    ensures AfterMetadata(h, st, m).contractsCount == m.inputContractsCount
  {
    hide Verify, FeedMetadata;
  }

  /** The tree verdict that waits for the metadata. */
  lemma VerdictOfRun(h: Sha256, start: TxState, ms: seq<Message>, k: nat, st: TxState) returns (s: Session)
    requires k < |ms| && st.phase == RECEIVING_METADATA && Shape(h, start, ms, k, st)
    ensures 0 < k && NodesSent(ms, k - 1) && s == NodeSession(h, start, ms, k - 1) && k == 1 + s.header.nodesCount
    ensures st.node.err == HASH_OK && (IsImpossible(Verify(st.node.tree).err) <==> Impossible(s, ms[0].room))
  {
    hide *;
    NodesCame(h, start, ms, k, st);
    FollowedVerdict(h, start, ms, k - 1, st.node);
    s := NodeSession(h, start, ms, k - 1);
  }

  lemma NodesCame(h: Sha256, start: TxState, ms: seq<Message>, k: nat, st: TxState)
    requires st.phase == RECEIVING_METADATA && Shape(h, start, ms, k, st)
    ensures 0 < k && NodesFollow(h, start, ms, k - 1, st.node) && |ms| > 0 && ms[0].header.Some? && k == 1 + ms[0].header.value.nodesCount
  {
    hide *;
    MetadataShape(h, start, ms, k, st);
  }

  lemma FollowedVerdict(h: Sha256, start: TxState, ms: seq<Message>, i: nat, node: NodeState)
    requires NodesFollow(h, start, ms, i, node)
    ensures NodesSent(ms, i) && node.err == HASH_OK
    ensures IsImpossible(Verify(node.tree).err) <==> Impossible(NodeSession(h, start, ms, i), ms[0].room)
  {
    hide *;
    NodesFollowMeaning(h, start, ms, i, node);
    SessionOfRun(h, start, ms, i);
    SessionIsImpossible(NodeSession(h, start, ms, i), ms[0].room);
  }

  /** The metadata message is refused for its tree exactly when the tree is impossible. Several roots, too
      many nodes, no memory for the check, an orphan and a missing child never refuse it. */
  lemma MetadataRefusedIff(h: Sha256, start: TxState, ms: seq<Message>, k: nat) returns (s: Session)
    requires Awaits(h, start, ms, k, RECEIVING_METADATA)
    ensures 0 < k && NodesSent(ms, k - 1) && s == NodeSession(h, start, ms, k - 1) && k == 1 + s.header.nodesCount
    ensures MetadataAnswered(Impossible(s, ms[0].room), ms[k], After(h, start, ms, k + 1))
  {
    hide *;
    var st := Reached(h, start, ms, k, RECEIVING_METADATA);
    s := VerdictOfRun(h, start, ms, k, st);
    MetadataStatus(h, st, ms[k]);
  }

  // ------------------------------------------------------------------ the other messages

  /** The header is refused when it cannot be read, and when its version is absent. */
  lemma HeaderRefusedIff(h: Sha256, start: TxState, ms: seq<Message>, k: nat)
    requires Awaits(h, start, ms, k, RECEIVING_DAML_TX_PART)
    ensures
      var hdr, o := ms[k].header, After(h, start, ms, k + 1);
      (Refuses(o, SW_TX_PARSING_FAIL) <==> hdr.None?) && (Refuses(o, SW_TX_HASH_FAIL) <==> hdr.Some? && hdr.value.version.None?) &&
      (o.Continue? <==> hdr.Some? && hdr.value.version.Some?)
  {
    hide *;
    var st := Reached(h, start, ms, k, RECEIVING_DAML_TX_PART);
    HeaderStatus(st, ms[k]);
  }

  lemma HeaderStatus(st: TxState, m: Message)
    requires ValidRing(st.node.ring)
    ensures
      var hdr, o := m.header, HeaderStep(st, m);
      (Refuses(o, SW_TX_PARSING_FAIL) <==> hdr.None?) && (Refuses(o, SW_TX_HASH_FAIL) <==> hdr.Some? && hdr.value.version.None?) &&
      (o.Continue? <==> hdr.Some? && hdr.value.version.Some?)
  {
    hide FeedHeader, HeaderBytes, Init;
    if m.header.Some? {
      HeaderWrites(m.header.value);
    }
  }

  /** The display parse of a message that cannot be read, or that lacks a mandatory field. */
  predicate DisplayFails(d: Display) { d.DecodeFails? || d.MissingField? }

  /** A node or a contract: it must parse, then be hashed, then be shown if its turn has come. */
  predicate PartAnswered(parses: bool, hashes: bool, shows: bool, o: Outcome)
  {
    (Refuses(o, SW_TX_PARSING_FAIL) <==> !parses || (hashes && !shows)) && (Refuses(o, SW_TX_HASH_FAIL) <==> parses && !hashes) &&
    (parses && hashes && shows ==> !o.Refused? || Refuses(o, SW_BAD_STATE))
  }

  /** What the encoder needs of a node: sound fields, and at most 32 children, each with a hash in the ring. */
  predicate Hashes(ring: Ring, body: NodeBody)
  {
    SoundNode(body) && |ChildrenOf(body)| <= 32 && forall k :: 0 <= k < |ChildrenOf(body)| ==> GetHash(ring, AToInt(ChildrenOf(body)[k])).Some?
  }

  lemma NodeStatus(h: Sha256, st: TxState, m: Message)
    requires ValidRing(st.node.ring) && st.node.err == HASH_OK
    ensures
      var parses := m.node.Some? && PartParses(st.header, m.node.value);
      var hashes := parses && Hashes(st.node.ring, m.node.value.body);
      var good := hashes && NodeStep(h, st.header, st.node, m.node.value).tree.err == TREE_OK;
      var o := NodeMessageStep(h, st, m);
      PartAnswered(parses, hashes, !(good && ParsesNode(st.review) && DisplayFails(m.display)), o) && !o.Finalized? && !Refuses(o, SW_BAD_STATE) &&
      (hashes ==> NodeStep(h, st.header, st.node, m.node.value).err == HASH_OK)
  {
    hide NodeStep, PartParses, Findings, Show, NodeFeed, Hashes;
    if m.node.Some? && PartParses(st.header, m.node.value) {
      var part := m.node.value;
      HashesMeaning(st.node.ring, part.body);
      PartHashesIff(st.header, st.node.ring, st.node.err, part);
      StepError(h, st.header, st.node, part);
      var node := NodeStep(h, st.header, st.node, part);
      ShowStatus(st.(node := node, log := st.log + Findings(h, st.templates, part.body, m)), node.tree.err == TREE_OK && ParsesNode(st.review), m.display);
    }
  }

  lemma ShowStatus(st: TxState, wanted: bool, d: Display)
    ensures if wanted && DisplayFails(d) then Refuses(Show(st, wanted, d), SW_TX_PARSING_FAIL) else Show(st, wanted, d).Continue?
    ensures Show(st, wanted, d).Continue? ==>
      Show(st, wanted, d).st.recvIdx == st.recvIdx && Show(st, wanted, d).st.contractsCount == st.contractsCount
  {
  }

  lemma HashesMeaning(ring: Ring, body: NodeBody)
    ensures Hashes(ring, body) <==>
      SoundNode(body) && |ChildrenOf(body)| <= 32 && forall k :: 0 <= k < |ChildrenOf(body)| ==> GetHash(ring, AToInt(ChildrenOf(body)[k])).Some?
  {
  }

  lemma StepError(h: Sha256, hdr: Header, node: NodeState, part: NodePart)
    requires ValidRing(node.ring) && PartParses(hdr, part)
    ensures NodeStep(h, hdr, node, part).err == NodeFeed(hdr, node.ring, node.err, part).err
  {
    hide NodeFeed, PartParses;
  }

  lemma NodesComing(h: Sha256, start: TxState, ms: seq<Message>, k: nat, st: TxState)
    requires st.phase == RECEIVING_DAML_NODES && Shape(h, start, ms, k, st)
    ensures 0 < k && k == 1 + st.recvIdx && NodesFollow(h, start, ms, k - 1, st.node) && |ms| > 0 && ms[0].header.Some? && st.header == ms[0].header.value
  {
    hide HeaderNode, Session.State, Session.Parses;
  }

  lemma NodeTurn(h: Sha256, start: TxState, ms: seq<Message>, k: nat, st: TxState)
    requires st.phase == RECEIVING_DAML_NODES && Reviewed(h, start, ms, st) && k == 1 + st.recvIdx
    ensures NodesSent(ms, k - 1) && (ParsesNode(st.review) <==> NodeDecision(h, start, ms, k - 1).None?)
  {
    hide NodeDecision, NodeCalls, LastScreen, Unbound;
  }

  /** Whether message k, a node, is parsed for display: nothing was shown yet, and the tree is good with it. */
  ghost predicate NodeIsShown(h: Sha256, start: TxState, ms: seq<Message>, k: nat)
  {
    0 < k && NodesSent(ms, k) && NodeDecision(h, start, ms, k - 1).None? && TreeGood(NodeSession(h, start, ms, k))
  }

  lemma FollowedTree(h: Sha256, start: TxState, ms: seq<Message>, i: nat, node: NodeState)
    requires NodesFollow(h, start, ms, i, node)
    ensures NodesSent(ms, i) && (node.tree.err == TREE_OK <==> TreeGood(NodeSession(h, start, ms, i)))
  {
    hide *;
    NodesFollowMeaning(h, start, ms, i, node);
    TreeGoodIff(NodeSession(h, start, ms, i));
  }

  lemma ShownWith(h: Sha256, start: TxState, ms: seq<Message>, k: nat, node: NodeState)
    requires 0 < k && NodesSent(ms, k - 1) && NodesFollow(h, start, ms, k, node)
    ensures NodeIsShown(h, start, ms, k) <==> NodeDecision(h, start, ms, k - 1).None? && node.tree.err == TREE_OK
  {
    hide *;
    FollowedTree(h, start, ms, k, node);
    ShownMeaning(h, start, ms, k);
  }

  lemma ShownMeaning(h: Sha256, start: TxState, ms: seq<Message>, k: nat)
    requires 0 < k && NodesSent(ms, k) && NodesSent(ms, k - 1)
    ensures NodeIsShown(h, start, ms, k) <==> NodeDecision(h, start, ms, k - 1).None? && TreeGood(NodeSession(h, start, ms, k))
  {
    hide NodeDecision, TreeGood, NodeSession;
  }

  lemma NodeIsShownIff(h: Sha256, start: TxState, ms: seq<Message>, k: nat, st: TxState)
    requires k < |ms| && st.phase == RECEIVING_DAML_NODES && Shape(h, start, ms, k, st) && Reviewed(h, start, ms, st) && ValidRing(st.node.ring)
    requires ms[k].node.Some? && PartParses(st.header, ms[k].node.value) && NodeStep(h, st.header, st.node, ms[k].node.value).err == HASH_OK
    ensures NodeIsShown(h, start, ms, k) <==>
      ParsesNode(st.review) && NodeStep(h, st.header, st.node, ms[k].node.value).tree.err == TREE_OK
  {
    hide *;
    NodesComing(h, start, ms, k, st);
    NodeTurn(h, start, ms, k, st);
    NodesFollowStep(h, start, ms, k - 1, st.node);
    ShownWith(h, start, ms, k, NodeStep(h, st.header, st.node, ms[k].node.value));
  }

  /** Nothing is shown of a part that was not hashed. */
  lemma AnsweredAlike(parses: bool, hashes: bool, shows: bool, shows': bool, o: Outcome)
    requires PartAnswered(parses, hashes, shows, o) && (hashes ==> shows == shows')
    ensures PartAnswered(parses, hashes, shows', o)
  {
  }

  lemma NodeAnswer(h: Sha256, start: TxState, ms: seq<Message>, k: nat, st: TxState)
    requires k < |ms| && st.phase == RECEIVING_DAML_NODES && Shape(h, start, ms, k, st) && Reviewed(h, start, ms, st) && ValidRing(st.node.ring)
    requires st.node.err == HASH_OK
    ensures
      var parses := ms[k].node.Some? && PartParses(st.header, ms[k].node.value);
      var hashes, o := parses && Hashes(st.node.ring, ms[k].node.value.body), NodeMessageStep(h, st, ms[k]);
      PartAnswered(parses, hashes, !(NodeIsShown(h, start, ms, k) && DisplayFails(ms[k].display)), o) && !o.Finalized? && !Refuses(o, SW_BAD_STATE)
  {
    hide *;
    NodeStatus(h, st, ms[k]);
    var parses := ms[k].node.Some? && PartParses(st.header, ms[k].node.value);
    var hashes := parses && Hashes(st.node.ring, ms[k].node.value.body);
    var shows := !(hashes && NodeStep(h, st.header, st.node, ms[k].node.value).tree.err == TREE_OK && ParsesNode(st.review) && DisplayFails(ms[k].display));
    if hashes {
      NodeIsShownIff(h, start, ms, k, st);
    }
    AnsweredAlike(parses, hashes, shows, !(NodeIsShown(h, start, ms, k) && DisplayFails(ms[k].display)), NodeMessageStep(h, st, ms[k]));
  }

  lemma SessionSoFar(h: Sha256, start: TxState, ms: seq<Message>, k: nat, st: TxState) returns (s: Session)
    requires k < |ms| && st.phase == RECEIVING_DAML_NODES && Shape(h, start, ms, k, st)
    ensures 0 < k && NodesSent(ms, k - 1) && s == NodeSession(h, start, ms, k - 1) && s.Parses()
    ensures s.header == st.header && s.State(k - 1) == st.node && st.node.err == HASH_OK
  {
    hide *;
    NodesComing(h, start, ms, k, st);
    var i: nat := k - 1;
    s := FollowedSession(h, start, ms, i, st.node);
  }

  lemma FollowedSession(h: Sha256, start: TxState, ms: seq<Message>, i: nat, node: NodeState) returns (s: Session)
    requires NodesFollow(h, start, ms, i, node)
    ensures NodesSent(ms, i) && s == NodeSession(h, start, ms, i) && s.Parses() && s.State(i) == node && node.err == HASH_OK
    ensures s.header == ms[0].header.value
  {
    hide *;
    NodesFollowMeaning(h, start, ms, i, node);
    s := NodeSession(h, start, ms, i);
  }

  /** A node message is refused for its form exactly when it does not parse, or its turn to be shown has come
      and its display cannot be read; and for its hash exactly when a field is unsound or a child is missing
      from the ring. */
  lemma NodeRefusedIff(h: Sha256, start: TxState, ms: seq<Message>, k: nat) returns (s: Session)
    requires Awaits(h, start, ms, k, RECEIVING_DAML_NODES)
    ensures 0 < k < |ms| && NodesSent(ms, k - 1) && s == NodeSession(h, start, ms, k - 1) && s.Parses()
    ensures
      var parses := ms[k].node.Some? && PartParses(s.header, ms[k].node.value);
      var hashes, o := parses && Hashes(s.State(k - 1).ring, ms[k].node.value.body), After(h, start, ms, k + 1);
      PartAnswered(parses, hashes, !(NodeIsShown(h, start, ms, k) && DisplayFails(ms[k].display)), o) && !o.Finalized? && !Refuses(o, SW_BAD_STATE)
  {
    hide *;
    var st := Reached(h, start, ms, k, RECEIVING_DAML_NODES);
    s := SessionSoFar(h, start, ms, k, st);
    NodeAnswer(h, start, ms, k, st);
  }

  /** No hash error is pending while contracts come in. */
  lemma NoErrorPending(h: Sha256, start: TxState, ms: seq<Message>, k: nat)
    requires Starts(start) && k < |ms| && After(h, start, ms, k + 1).Continue?
    requires After(h, start, ms, k + 1).st.phase == RECEIVING_METADATA_INPUT_CONTRACTS
    ensures After(h, start, ms, k + 1).st.node.err == HASH_OK
  {
    hide *;
    EarlierContinues(h, start, ms, k);
    StepDispatch(h, start, ms, k);
    RingStays(h, start, ms, k);
    var st := After(h, start, ms, k).st;
    match st.phase {
      case RECEIVING_DAML_TX_PART => HeaderEffects(st, ms[k]);
      case RECEIVING_DAML_NODES => NodeEffects(h, st, ms[k]);
      case RECEIVING_METADATA => MetadataEffects(h, st, ms[k]);
      case RECEIVING_METADATA_INPUT_CONTRACTS => ContractEffects(h, st, ms[k]);
    }
  }

  lemma RingStays(h: Sha256, start: TxState, ms: seq<Message>, k: nat)
    requires Starts(start) && k <= |ms| && After(h, start, ms, k).Continue?
    ensures ValidRing(After(h, start, ms, k).st.node.ring)
  {
    hide After;
  }

  lemma ContractStatus(h: Sha256, st: TxState, m: Message)
    requires ValidRing(st.node.ring) && st.node.err == HASH_OK
    ensures
      var parses := m.contract.Some? && ContractParses(m.contract.value);
      var hashes, o := parses && SoundNode(ContractBody(m.contract.value)), ContractStep(h, st, m);
      var shows, ends := !(ParsesContract(st.review) && DisplayFails(m.display)), st.recvIdx + 1 == st.contractsCount;
      PartAnswered(parses, hashes, shows, o) && !Refuses(o, SW_TX_INVALID_NODE_TREE) &&
      (Refuses(o, SW_BAD_STATE) <==> hashes && shows && ends && !m.last) && (o.Finalized? <==> hashes && shows && ends && m.last)
  {
    hide Discloses, Show, SoundNode, NextContract, ContractFeed, ContractParses, ContractBody;
    if m.contract.Some? && ContractParses(m.contract.value) {
      var c := m.contract.value;
      ContractLatches(c);
      var feed := FeedContract(h, Feed(st.node.hasher, st.node.err), c);
      var st1 := st.(node := st.node.(err := feed.err, hasher := feed.out), log := st.log + Discloses(c));
      ShowStatus(st1, ParsesContract(st.review), m.display);
      var o := Show(st1, ParsesContract(st.review), m.display);
      if o.Continue? {
        NextStatus(h, o.st, m);
      }
    }
  }

  lemma NextStatus(h: Sha256, st: TxState, m: Message)
    ensures
      var o, ends := NextContract(h, st, m), st.recvIdx + 1 == st.contractsCount;
      (o.Refused? <==> Refuses(o, SW_BAD_STATE)) && (o.Refused? <==> ends && !m.last) && (o.Finalized? <==> ends && m.last)
  {
    hide Finalize;
    FinalizeStatus(h, st.(recvIdx := st.recvIdx + 1), m);
  }

  lemma ContractLatches(c: InputContract)
    requires ContractParses(c)
    ensures ContractFeed(c, HASH_OK).err == HASH_OK <==> SoundNode(ContractBody(c))
  {
    hide StreamShell, SoundNode, IsComplete;
    ShellLatches(ContractBody(c), None, Blank(HASH_OK));
  }

  lemma ContractsComing(h: Sha256, start: TxState, ms: seq<Message>, k: nat, st: TxState) returns (n: nat)
    requires st.phase == RECEIVING_METADATA_INPUT_CONTRACTS && Shape(h, start, ms, k, st) && Reviewed(h, start, ms, st)
    ensures NodesSent(ms, n) && n == ms[0].header.value.nodesCount && n + 2 <= k <= |ms| && ms[n + 1].metadata.Some?
    ensures st.contractsCount == ms[n + 1].metadata.value.inputContractsCount && k == n + 2 + st.recvIdx
    ensures ParsesContract(st.review) <==> Defers(NodeDecision(h, start, ms, n)) && ContractDecision(ms, n + 2, k - n - 2).None?
  {
    hide *;
    HeaderArrived(h, start, ms, k, st);
    ContractShapeIs(h, start, ms, k, st);
    ContractShapeParts(h, start, ms, k, st);
    ContractPhaseParts(h, start, ms, k, st);
    n := st.header.nodesCount;
    ContractTurn(h, start, ms, n, st.recvIdx, st);
  }

  lemma ContractShapeIs(h: Sha256, start: TxState, ms: seq<Message>, k: nat, st: TxState)
    requires st.phase == RECEIVING_METADATA_INPUT_CONTRACTS && Shape(h, start, ms, k, st)
    ensures ContractShape(h, start, ms, k, st)
  {
    hide ContractShape;
  }

  lemma ContractTurn(h: Sha256, start: TxState, ms: seq<Message>, n: nat, i: nat, st: TxState)
    requires NodesSent(ms, n) && ContractsReviewed(BasisOf(h, start, ms, n), ms, n + 2, i, st)
    ensures n + 2 + i <= |ms| && (ParsesContract(st.review) <==> Defers(NodeDecision(h, start, ms, n)) && ContractDecision(ms, n + 2, i).None?)
  {
    hide NodeDecision, NodeCalls, ContractDecision, ContractCalls, LastScreen, Unbound, WellFormed, NodeSession;
  }

  /** A disclosed contract is refused for its form exactly when it does not parse, or the nodes deferred their
      screen to it and its display cannot be read; for its hash exactly when a field is unsound; and as out of
      turn exactly when it is the last one announced and was not sent as the last. */
  lemma ContractRefusedIff(h: Sha256, start: TxState, ms: seq<Message>, k: nat) returns (n: nat)
    requires Awaits(h, start, ms, k, RECEIVING_METADATA_INPUT_CONTRACTS)
    ensures NodesSent(ms, n) && n == ms[0].header.value.nodesCount && n + 2 <= k < |ms| && ms[n + 1].metadata.Some?
    ensures
      var c, o := ms[k].contract, After(h, start, ms, k + 1);
      var parses := c.Some? && ContractParses(c.value);
      var hashes := parses && SoundNode(ContractBody(c.value));
      var turn := Defers(NodeDecision(h, start, ms, n)) && ContractDecision(ms, n + 2, k - n - 2).None?;
      var shows, ends := !(turn && DisplayFails(ms[k].display)), k == n + 1 + ms[n + 1].metadata.value.inputContractsCount;
      PartAnswered(parses, hashes, shows, o) && !Refuses(o, SW_TX_INVALID_NODE_TREE) &&
      (Refuses(o, SW_BAD_STATE) <==> hashes && shows && ends && !ms[k].last) && (o.Finalized? <==> hashes && shows && ends && ms[k].last)
  {
    hide *;
    var st := Reached(h, start, ms, k, RECEIVING_METADATA_INPUT_CONTRACTS);
    n := ContractsComing(h, start, ms, k, st);
    var j: nat := k - 1;
    NoErrorPending(h, start, ms, j);
    ContractStatus(h, st, ms[k]);
  }
}
