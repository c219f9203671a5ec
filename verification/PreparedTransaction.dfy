/** The phase machine of a prepared transaction (prepared_transaction.c): header, nodes, metadata, input
    contracts, and the finalization that leaves the hash to sign. */
module PreparedTransaction {
  import opened Bytes
  import opened HashWriter
  import opened CanonicalNode
  import opened NodeTreeCheck
  import opened NodeHashStore
  import opened NodePhase
  import opened CanonicalMetadata
  import opened ValuesCheck
  import opened ValuesVerdict
  import opened HoldingWalk
  import opened CanonicalValue

  datatype Phase = RECEIVING_DAML_TX_PART | RECEIVING_DAML_NODES | RECEIVING_METADATA | RECEIVING_METADATA_INPUT_CONTRACTS

  datatype Status = SW_TX_PARSING_FAIL | SW_TX_HASH_FAIL | SW_TX_INVALID_NODE_TREE | SW_BAD_STATE

  /** What a display parse of a message would find: no configuration (perhaps one deferred to a disclosed
      contract), a message it cannot decode, a screen it populates, a screen whose values it cannot show,
      or a screen without a mandatory field. */
  datatype Display =
    | NoScreen(defers: bool)
    | DecodeFails
    | Populates(screen: Screen)
    | CannotShow(screen: Screen)
    | MissingField(screen: Screen)

  /** What the template tables say about a template: where it keeps its holding, that it holds nothing, or
      that it is not listed. */
  datatype Template = HoldsValue(cfg: Config) | HoldsNothing | Unlisted

  type Templates = Identifier -> Template

  function Classify(templates: Templates, id: Option<Identifier>): Template
  {
    if id.None? then Unlisted else templates(id.value)
  }

  /** A complete message: what each parser reads in it, and what is outside this model: whether an array
      could be allocated, whether the value collector's parse fits on the stack, the display, and whether
      it was sent as the last. */
  datatype Message = Message(
    header: Option<Header>, node: Option<NodePart>, metadata: Option<Metadata>, contract: Option<InputContract>,
    room: bool, fits: bool, display: Display, last: bool)

  /** clear_signing_available, display_failed, and whether a screen waits for a disclosed contract. */
  datatype Review = Review(clear: bool, displayFailed: bool, deferred: bool)

  /** templates are the static tables; log holds the calls made into the value check since its reset. */
  datatype TxState = TxState(
    templates: Templates, phase: Phase, recvIdx: int, header: Header, contractsCount: int, node: NodeState, log: seq<Event>,
    review: Review, partialTxHash: seq<Byte>, mHash: seq<Byte>)

  datatype Outcome = Continue(st: TxState) | Finalized(st: TxState) | Refused(sw: Status)

  // ------------------------------------------------------------------ display

  /** What the display parse hands to the value check. */
  function Binds(d: Display): seq<Event>
  {
    match d
    case Populates(s) => [BindEvent(s)]
    case CannotShow(s) => [BindEvent(s)]
    case MissingField(s) => [BindEvent(s)]
    case _ => []
  }

  /** process_display_parsing; None when it fails. */
  function ParseForDisplay(r: Review, d: Display): Option<Review>
  {
    match d
    case NoScreen(defers) => Some(Review(false, r.displayFailed, r.deferred || defers))
    case DecodeFails => None
    case Populates(_) => Some(Review(true, r.displayFailed, false))
    case CannotShow(_) => Some(Review(false, true, false))
    case MissingField(_) => None
  }

  predicate ParsesNode(r: Review) { !r.clear && !r.displayFailed && !r.deferred }
  predicate ParsesContract(r: Review) { !r.clear && !r.displayFailed && r.deferred }

  /** The review and the log after a message whose display parse runs when wanted. */
  function Show(st: TxState, wanted: bool, d: Display): (o: Outcome)
    ensures !o.Finalized? && (o.Continue? ==> o.st.node == st.node)
  {
    if !wanted then Continue(st)
    else match ParseForDisplay(st.review, d)
      case None => Refused(SW_TX_PARSING_FAIL)
      case Some(r) => Continue(st.(review := r, log := st.log + Binds(d)))
  }

  // ------------------------------------------------------------------ the phases

  function HeaderStep(st: TxState, m: Message): (o: Outcome)
    requires ValidRing(st.node.ring)
    ensures o.Continue? ==> ValidRing(o.st.node.ring)
  {
    if m.header.None? then Refused(SW_TX_PARSING_FAIL)
    else
      var hdr := m.header.value;
      var feed := FeedHeader(hdr);
      if feed.err != HASH_OK then Refused(SW_TX_HASH_FAIL)
      else
        var node := NodeState(Init(hdr.roots, hdr.nodesCount, m.room), EmptyRing(st.node.ring.cursor), feed.err, feed.out);
        Continue(st.(header := hdr, recvIdx := 0, node := node,
                     phase := if hdr.nodesCount == 0 then RECEIVING_METADATA else RECEIVING_DAML_NODES))
  }

  /** The contract a node acts on. */
  function UsesOf(body: NodeBody, room: bool): seq<Event>
  {
    match body
    case Create(c) => [UseEvent(c.contractId, room)]
    case Exercise(e, _) => [UseEvent(e.contractId, room)]
    case Fetch(f) => [UseEvent(f.contractId, room)]
    case _ => []
  }

  /** values_collect_from_node: only a create writes value, and only under a listed template is it known
      where; fits says whether the parse of its argument fits on the stack. */
  function Reports(h: Sha256, templates: Templates, body: NodeBody, fits: bool): seq<Event>
  {
    match body
    case Create(c) =>
      (match Classify(templates, c.templateId)
       case HoldsValue(cfg) => [if fits then CollectCreate(h, cfg, c.argument) else GiveUpEvent]
       case HoldsNothing => []
       case Unlisted => [GiveUpEvent])
    case _ => []
  }

  /** The contract used, then what the value collector finds. */
  function Findings(h: Sha256, templates: Templates, body: NodeBody, m: Message): seq<Event>
  {
    UsesOf(body, m.room) + Reports(h, templates, body, m.fits)
  }

  function NextNode(st: TxState): TxState
  {
    st.(recvIdx := st.recvIdx + 1,
        phase := if st.recvIdx + 1 == st.header.nodesCount then RECEIVING_METADATA else RECEIVING_DAML_NODES)
  }

  function NodeMessageStep(h: Sha256, st: TxState, m: Message): (o: Outcome)
    requires ValidRing(st.node.ring)
    ensures o.Continue? ==> ValidRing(o.st.node.ring)
  {
    if m.node.None? || !PartParses(st.header, m.node.value) then Refused(SW_TX_PARSING_FAIL)
    else
      var node := NodeStep(h, st.header, st.node, m.node.value);
      if node.err != HASH_OK then Refused(SW_TX_HASH_FAIL)
      else
        var st1 := st.(node := node, log := st.log + Findings(h, st.templates, m.node.value.body, m));
        var o := Show(st1, node.tree.err == TREE_OK && ParsesNode(st.review), m.display);
        if o.Continue? then Continue(NextNode(o.st)) else o
  }

  /** process_prepared_tx_finalize: only on the message sent as the last. */
  function Finalize(h: Sha256, st: TxState, m: Message): Outcome
  {
    if !m.last then Refused(SW_BAD_STATE)
    else
      var clear := st.review.clear && Verdict(Run(h, FRESH, st.log));
      Finalized(st.(review := Review(clear, st.review.displayFailed, false),
                    mHash := h(FinalPreimage(st.partialTxHash, h(st.node.hasher)))))
  }

  /** The state once the node stage is hashed and the metadata is taken. */
  function AfterMetadata(h: Sha256, st: TxState, md: Metadata): (t: TxState)
    requires ValidRing(st.node.ring)
    ensures ValidRing(t.node.ring)
  {
    var tree, feed := Verify(st.node.tree), FeedMetadata(md, st.node.err);
    st.(node := NodeState(tree, st.node.ring, feed.err, feed.out), recvIdx := 0, contractsCount := md.inputContractsCount,
        review := if tree.err == TREE_OK then st.review else st.review.(clear := false),
        partialTxHash := h(st.node.hasher),
        phase := if md.inputContractsCount == 0 then st.phase else RECEIVING_METADATA_INPUT_CONTRACTS)
  }

  /** apply_node_tree_verdict, both hashes, and the metadata. */
  function MetadataStep(h: Sha256, st: TxState, m: Message): (o: Outcome)
    requires ValidRing(st.node.ring)
    ensures o.Continue? ==> ValidRing(o.st.node.ring)
  {
    if IsImpossible(Verify(st.node.tree).err) then Refused(SW_TX_INVALID_NODE_TREE)
    else if m.metadata.None? then Refused(SW_TX_PARSING_FAIL)
    else if FeedMetadata(m.metadata.value, st.node.err).err != HASH_OK then Refused(SW_TX_HASH_FAIL)
    else
      var st1 := AfterMetadata(h, st, m.metadata.value);
      if st1.contractsCount == 0 then Finalize(h, st1, m) else Continue(st1)
  }

  function NextContract(h: Sha256, st: TxState, m: Message): (o: Outcome)
    ensures o.Continue? ==> o.st.node == st.node
  {
    var st1 := st.(recvIdx := st.recvIdx + 1);
    if st1.recvIdx == st1.contractsCount then Finalize(h, st1, m) else Continue(st1)
  }

  function Discloses(c: InputContract): seq<Event>
  {
    if c.contract.None? then [] else [DiscloseEvent(c.contract.value.contractId)]
  }

  function ContractStep(h: Sha256, st: TxState, m: Message): (o: Outcome)
    requires ValidRing(st.node.ring)
    ensures o.Continue? ==> ValidRing(o.st.node.ring)
  {
    if m.contract.None? || !ContractParses(m.contract.value) then Refused(SW_TX_PARSING_FAIL)
    else
      var feed := FeedContract(h, Feed(st.node.hasher, st.node.err), m.contract.value);
      if feed.err != HASH_OK then Refused(SW_TX_HASH_FAIL)
      else
        var node := st.node.(err := feed.err, hasher := feed.out);
        var o := Show(st.(node := node, log := st.log + Discloses(m.contract.value)), ParsesContract(st.review), m.display);
        if o.Continue? then NextContract(h, o.st, m) else o
  }

  function Step(h: Sha256, st: TxState, m: Message): (o: Outcome)
    requires ValidRing(st.node.ring)
    ensures o.Continue? ==> ValidRing(o.st.node.ring)
  {
    match st.phase
    case RECEIVING_DAML_TX_PART => HeaderStep(st, m)
    case RECEIVING_DAML_NODES => NodeMessageStep(h, st, m)
    case RECEIVING_METADATA => MetadataStep(h, st, m)
    case RECEIVING_METADATA_INPUT_CONTRACTS => ContractStep(h, st, m)
  }

  // ------------------------------------------------------------------ runs

  /** The state left by clean_context and process_prepared_tx_init. */
  predicate Starts(st: TxState)
  {
    st.phase == RECEIVING_DAML_TX_PART && ValidRing(st.node.ring) && st.log == [] && st.review == Review(false, false, false)
  }

  /** The outcome of the k-th message; a finalized or refused transaction takes no further message. */
  function After(h: Sha256, start: TxState, ms: seq<Message>, k: nat): (o: Outcome)
    requires Starts(start) && k <= |ms|
    ensures o.Continue? ==> ValidRing(o.st.node.ring)
  {
    if k == 0 then Continue(start)
    else match After(h, start, ms, k - 1)
      case Continue(st) => Step(h, st, ms[k - 1])
      case done => done
  }

  /** The run reaches its first successful finalization with the last of these messages. */
  predicate Finalizes(h: Sha256, start: TxState, ms: seq<Message>)
  {
    Starts(start) && |ms| > 0 && After(h, start, ms, |ms| - 1).Continue? && After(h, start, ms, |ms|).Finalized?
  }
}
