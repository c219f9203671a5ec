/** process_prepared_tx_part over the module states it drives: the node reader with its tree check, hash
    store and hashers, the value check, and the fields of the global context. */
module TransactionProcessor {
  import opened Bytes
  import opened HashWriter
  import opened CanonicalNode
  import opened NodeTreeCheck
  import opened NodeHashStore
  import opened NodePhase
  import opened NodeEncoder
  import opened NodeParser
  import opened CanonicalMetadata
  import opened ValuesCheck
  import opened ValuesVerdict
  import opened CanonicalValue
  import opened HoldingWalk
  import opened PreparedTransaction

  /** What process_prepared_tx_part returns. */
  datatype Reply = OK | Refuse(sw: Status)

  function ReplyOf(o: Outcome): Reply { if o.Refused? then Refuse(o.sw) else OK }

  class Processor {
    const h: Sha256
    const reader: NodeReader
    const values: ValuesStore
    const walker: Walker
    const templates: Templates
    var txState: Phase
    var recvIdx: int
    var header: Header
    var contractsCount: int
    var review: Review
    var partialTxHash: seq<Byte>
    var mHash: seq<Byte>
    ghost var log: seq<Event>

    ghost predicate Valid()
      reads `log, reader, reader.tree, reader.store, values, values.holdings, values.used
    {
      reader.Valid() && values.Valid() && reader.h == h && values.h == h && values.Model() == Run(h, FRESH, log)
    }

    /** The value collector's own state is ready for another walk. */
    ghost predicate CanCollect()
      reads walker.path
    {
      walker.Valid() && walker.h == h
    }

    ghost function Model(): TxState
      requires reader.Valid()
      reads this, reader, reader.tree, reader.tree.nodes, reader.store, reader.store.slots, reader.errs, reader.hasher
    {
      TxState(templates, txState, recvIdx, header, contractsCount, reader.State(), log, review, partialTxHash, mHash)
    }

    lemma ReaderIsValid()
      requires Valid()
      ensures reader.Valid()
    {
      hide Run;
    }

    lemma ValuesFollow()
      requires Valid()
      ensures values.Valid() && values.Model() == Run(h, FRESH, log)
    {
      hide Run;
    }

    lemma WalkerIsValid()
      ensures CanCollect() <==> walker.Valid() && walker.h == h
    {
    }

    constructor (h: Sha256, templates: Templates)
      ensures Valid() && CanCollect() && Starts(Model()) && this.templates == templates
    {
      this.h := h;
      this.templates := templates;
      walker := new Walker(h);
      reader := new NodeReader(h);
      values := new ValuesStore(h);
      txState, recvIdx, header, contractsCount := RECEIVING_DAML_TX_PART, 0, Header(None, [], 0, []), 0;
      review, partialTxHash, mHash, log := Review(false, false, false), [], [], [];
    }

    // ---------------------------------------------------------------- the value check

    /** Keep the log of value-check calls in step. */
    ghost method Logged(e: Event)
      requires reader.Valid() && values.Valid() && reader.h == h && values.h == h && values.Model() == Apply(h, Run(h, FRESH, log), e)
      modifies `log
      ensures Valid() && log == old(log) + [e]
    {
      assert (log + [e])[..|log|] == log;
      log := log + [e];
    }

    /** values_record_used_contract for the contract a node acts on. */
    method RecordUse(contractId: Option<Str>, room: bool)
      requires Valid()
      modifies `log, values, values.used
      ensures Valid() && log == old(log) + [UseEvent(contractId, room)]
    {
      hide RecordUsed, Run;
      values.RecordUsedContract(contractId, room);
      Logged(UseEvent(contractId, room));
    }

    method CheckDisclosure(contractId: Option<Str>)
      requires Valid()
      modifies `log, values
      ensures Valid() && log == old(log) + [DiscloseEvent(contractId)]
    {
      hide CheckDisclosed, Run;
      values.CheckDisclosedContract(contractId);
      Logged(DiscloseEvent(contractId));
    }

    /** What the walk over a create reports. */
    method RecordReport(report: Event)
      requires Valid() && (report.ReportEvent? || report.GiveUpEvent?)
      modifies `log, values, values.holdings
      ensures Valid() && log == old(log) + [report]
    {
      hide Report, Run;
      match report {
        case ReportEvent(note) => values.ReportHolding(note.holding, note.instrument);
        case GiveUpEvent => values.GiveUpNow();
      }
      Logged(report);
    }

    method RecordUses(body: NodeBody, room: bool)
      requires Valid()
      modifies `log, values, values.used
      ensures Valid() && log == old(log) + UsesOf(body, room)
    {
      match body {
        case Create(c) => RecordUse(c.contractId, room);
        case Exercise(e, _) => RecordUse(e.contractId, room);
        case Fetch(f) => RecordUse(f.contractId, room);
        case _ =>
      }
    }

    /** values_collect_from_node: the template, then the walk over the argument; a walk that does not fit on
        the stack is a parse failure. */
    method CollectFromNode(body: NodeBody) returns (ghost fits: bool)
      requires Valid() && CanCollect()
      modifies `log, values, values.holdings, walker, walker.path
      ensures CanCollect() && Valid() && log == old(log) + Reports(h, templates, body, fits)
    {
      hide Processor.Valid, Processor.CanCollect, CollectCreate;
      fits := true;
      assert log + [] == log;
      if body.Create? {
        match Classify(templates, body.create.templateId) {
          case HoldsValue(cfg) => fits := CollectFromCreate(cfg, body.create.argument);
          case HoldsNothing =>
          case Unlisted => RecordReport(GiveUpEvent);
        }
      }
    }

    method CollectFromCreate(cfg: Config, argument: Value) returns (ghost fits: bool)
      requires Valid() && CanCollect()
      modifies `log, values, values.holdings, walker, walker.path
      ensures CanCollect() && Valid() && log == old(log) + [if fits then CollectCreate(h, cfg, argument) else GiveUpEvent]
    {
      hide *;
      WalkerIsValid();
      var ok, report := walker.CollectHolding(cfg, argument);
      WalkerIsValid();
      fits := ok;
      if !ok {
        report := GiveUpEvent;
      }
      RecordReport(report);
    }

    // ---------------------------------------------------------------- display

    /** The effect of a display parse on the review and on the value check. */
    method ShowMessage(d: Display) returns (ok: bool)
      requires Valid()
      modifies `log, `review, values
      ensures Valid() && ok == ParseForDisplay(old(review), d).Some?
      ensures ok ==> review == ParseForDisplay(old(review), d).value && log == old(log) + Binds(d)
    {
      hide Run;
      match d {
        case NoScreen(defers) => review := Review(false, review.displayFailed, review.deferred || defers);
        case DecodeFails => review := review.(deferred := false);
        case Populates(s) =>
          values.BindScreen(s);
          Logged(BindEvent(s));
          review := Review(true, review.displayFailed, false);
        case CannotShow(s) =>
          values.BindScreen(s);
          Logged(BindEvent(s));
          review := Review(false, true, false);
        case MissingField(s) =>
          values.BindScreen(s);
          Logged(BindEvent(s));
          review := Review(false, review.displayFailed, false);
      }
      ok := !d.DecodeFails? && !d.MissingField?;
    }

    // ---------------------------------------------------------------- the phases

    /** abort_prepared_tx: both checks give their memory back. */
    method Abort(sw: Status) returns (r: Reply)
      requires Valid()
      modifies `log, reader.tree, values
      ensures Valid() && fresh(reader.tree.Repr() - {reader.tree}) && r == Refuse(sw)
    {
      reader.tree.Reset();
      values.Reset();
      log := [];
      return Refuse(sw);
    }

    /** The node phase starts: the tree check, then the header's hash and the empty store. */
    method StartNodes(hdr: Header, room: bool)
      requires Valid()
      modifies reader.tree, reader.store.slots, reader.hasher, reader.errs
      ensures Valid() && fresh(reader.tree.Repr() - {reader.tree})
      ensures reader.State() ==
        NodeState(Init(hdr.roots, hdr.nodesCount, room), EmptyRing(old(reader.store.cursor)), FeedHeader(hdr).err, FeedHeader(hdr).out)
    {
      hide Run, FeedHeader, Init;
      var started := reader.tree.InitCheck(hdr.roots, hdr.nodesCount, room);
      HashTransaction(reader.hasher, reader.store, hdr);
    }

    method ReceiveHeader(m: Message) returns (r: Reply)
      requires Valid()
      modifies `header, `recvIdx, `txState, reader.tree, reader.store.slots, reader.hasher, reader.errs
      ensures Valid() && fresh(reader.tree.Repr() - old(reader.tree.Repr()))
      ensures r == ReplyOf(HeaderStep(old(Model()), m)) && (r == OK ==> Model() == HeaderStep(old(Model()), m).st)
    {
      hide Processor.Valid, FeedHeader, Init, EmptyRing;
      ReaderIsValid();
      if m.header.None? {
        return Refuse(SW_TX_PARSING_FAIL);
      }
      header := m.header.value;
      StartNodes(header, m.room);
      if reader.errs.code != HASH_OK {
        return Refuse(SW_TX_HASH_FAIL);
      }
      recvIdx := 0;
      txState := if header.nodesCount == 0 then RECEIVING_METADATA else RECEIVING_DAML_NODES;
      return OK;
    }

    /** Hash and record one node; the step of the node state. */
    method HashNode(part: NodePart) returns (ok: bool)
      requires Valid()
      modifies reader, reader.values, reader.nodeHw, reader.hasher, reader.errs, reader.store,
               reader.store.slots, reader.tree.Repr()
      ensures Valid() && reader.tree.Repr() == old(reader.tree.Repr())
      ensures reader.values.stackFull == (old(reader.values.stackFull) || (!ok && PartParses(header, part)))
      ensures ok ==> PartParses(header, part) && reader.State() == NodeStep(h, header, old(reader.State()), part)
    {
      hide Run, NodeStep, PartParses;
      ok := reader.ProtoDeserializeNode(header, part);
    }

    /** The contract the node acts on, then what the value collector finds in it. */
    method Collect(part: NodePart, m: Message) returns (ghost fits: bool)
      requires Valid() && CanCollect()
      modifies `log, values, values.holdings, values.used, walker, walker.path
      ensures CanCollect() && Valid() && log == old(log) + Findings(h, templates, part.body, m.(fits := fits))
    {
      hide Processor.Valid, Processor.CanCollect, UsesOf, Reports;
      RecordUses(part.body, m.room);
      fits := CollectFromNode(part.body);
      EventsAssoc(old(log), UsesOf(part.body, m.room), Reports(h, templates, part.body, fits));
    }

    method ShowWanted(wanted: bool, d: Display) returns (ok: bool)
      requires Valid()
      modifies `log, `review, values
      ensures Valid()
      ensures
        var o := Show(old(Model()), wanted, d);
        ok == o.Continue? && (ok ==> review == o.st.review && log == o.st.log)
    {
      hide Processor.Valid, Binds, ParseForDisplay, NodeReader.State;
      ReaderIsValid();
      ok := true;
      if wanted {
        ok := ShowMessage(d);
      }
    }

    /** The first half of a node message: hash the node and read the hash error. */
    method TakeNode(m: Message) returns (r: Reply)
      requires Valid()
      modifies reader, reader.values, reader.nodeHw, reader.hasher, reader.errs, reader.store, reader.store.slots, reader.tree.Repr()
      ensures Valid()
      ensures r == OK ==> m.node.Some? && PartParses(header, m.node.value) && reader.State().err == HASH_OK
      ensures r == OK ==> Model() == old(Model()).(node := NodeStep(h, header, old(reader.State()), m.node.value))
      ensures r != OK && !reader.values.stackFull ==> Refused(r.sw) == NodeMessageStep(h, old(Model()), m)
      ensures r != OK ==> Refused(r.sw) == NodeMessageStep(h, old(Model()), m) || r == Refuse(SW_TX_PARSING_FAIL)
    {
      hide Processor.Valid, NodeReader.State, NodeStep, PartParses, Findings, NodeMessageStep, Show;
      ReaderIsValid();
      StateParts();
      RefusedNode(h, Model(), m);
      if m.node.None? {
        return Refuse(SW_TX_PARSING_FAIL);
      }
      var ok := HashNode(m.node.value);
      if !ok {
        return Refuse(SW_TX_PARSING_FAIL);
      }
      ReaderIsValid();
      StateParts();
      if reader.errs.code != HASH_OK {
        return Refuse(SW_TX_HASH_FAIL);
      }
      return OK;
    }

    /** The second half: the display parse while the tree is good, and the next phase after the last node. */
    method ShowNode(ghost st: TxState, ghost n: Message, m: Message) returns (r: Reply)
      requires n == m.(fits := n.fits)
      requires Valid() && ValidRing(st.node.ring) && m.node.Some? && PartParses(st.header, m.node.value) && reader.State().err == HASH_OK
      requires Model() == st.(node := NodeStep(h, st.header, st.node, m.node.value), log := st.log + Findings(h, st.templates, m.node.value.body, n))
      modifies `log, `review, `recvIdx, `txState, values
      ensures Valid() && r == ReplyOf(NodeMessageStep(h, st, n))
      ensures r == OK ==> NodeMessageStep(h, st, n).Continue? && Model() == NodeMessageStep(h, st, n).st
    {
      hide Processor.Valid, Processor.CanCollect, NodeReader.State, NodeStep, PartParses, Findings, NodeMessageStep, Show;
      ReaderIsValid();
      StateParts();
      var wanted := reader.tree.err == TREE_OK && ParsesNode(review);
      TakenNode(h, st, n, Model(), wanted);
      var ok := ShowWanted(wanted, m.display);
      if !ok {
        return Refuse(SW_TX_PARSING_FAIL);
      }
      recvIdx := recvIdx + 1;
      txState := if recvIdx == header.nodesCount then RECEIVING_METADATA else RECEIVING_DAML_NODES;
      return OK;
    }

    /** A node message; only a stack overflow can refuse what the specification takes. n is the message with
        what became of the collector's parse. */
    method ReceiveNode(m: Message) returns (r: Reply, ghost n: Message)
      requires Valid() && CanCollect()
      modifies `log, `review, `recvIdx, `txState, reader, reader.values, reader.nodeHw, reader.hasher, reader.errs, reader.store,
               reader.store.slots, reader.tree.Repr(), values, values.holdings, values.used, walker, walker.path
      ensures CanCollect() && Valid() && n == m.(fits := n.fits)
      ensures !reader.values.stackFull ==> r == ReplyOf(NodeMessageStep(h, old(Model()), n))
      ensures r == OK ==> NodeMessageStep(h, old(Model()), n).Continue? && Model() == NodeMessageStep(h, old(Model()), n).st
      ensures r == ReplyOf(NodeMessageStep(h, old(Model()), n)) || r == Refuse(SW_TX_PARSING_FAIL)
    {
      hide Processor.Valid, Processor.CanCollect, NodeReader.State, NodeStep, PartParses, Findings, NodeMessageStep, Show;
      ReaderIsValid();
      StateParts();
      ghost var st := Model();
      r := TakeNode(m);
      n := m;
      if r == OK {
        n := CollectNode(st, m);
        ReaderIsValid();
        r := ShowNode(st, n, m);
      }
    }

    /** The value collector runs on a node that was hashed. */
    method CollectNode(ghost st: TxState, m: Message) returns (ghost n: Message)
      requires Valid() && CanCollect() && ValidRing(st.node.ring) && m.node.Some? && PartParses(st.header, m.node.value)
      requires Model() == st.(node := NodeStep(h, st.header, st.node, m.node.value))
      modifies `log, values, values.holdings, values.used, walker, walker.path
      ensures CanCollect() && Valid() && n == m.(fits := n.fits)
      ensures Model() == st.(node := NodeStep(h, st.header, st.node, m.node.value), log := st.log + Findings(h, st.templates, m.node.value.body, n))
    {
      hide Processor.Valid, Processor.CanCollect, NodeReader.State, NodeStep, PartParses, Findings;
      ReaderIsValid();
      ghost var fits := Collect(m.node.value, m);
      n := m.(fits := fits);
      ReaderIsValid();
    }

    lemma StateParts()
      requires reader.Valid()
      ensures reader.State().err == reader.errs.code && reader.State().tree.err == reader.tree.err && reader.State().hasher == reader.hasher.stream
      ensures reader.State().tree == reader.tree.Model() && reader.State().ring == reader.store.Model() && ValidRing(reader.State().ring)
    {
    }

    /** The value verdict, asked only while a clear screen is at stake. */
    method Judge() returns (clear: bool)
      requires values.Valid() && values.Model() == Run(h, FRESH, log)
      modifies values
      ensures values.Valid() && clear == (review.clear && Verdict(Run(h, FRESH, log)))
    {
      hide Run, Verdict;
      clear := review.clear;
      if clear {
        clear := values.CanClearSign();
      }
      values.ReleaseUsedContracts();
    }

    /** process_prepared_tx_finalize. */
    method Finish(m: Message) returns (r: Reply)
      requires Valid()
      modifies `review, `mHash, values
      ensures reader.Valid() && values.Valid() && (r != OK ==> Valid())
      ensures r == ReplyOf(Finalize(h, old(Model()), m)) && (r == OK ==> Model() == Finalize(h, old(Model()), m).st)
    {
      hide Processor.Valid, Run, Verdict, FinalPreimage, NodeReader.State;
      ReaderIsValid();
      ValuesFollow();
      StateParts();
      if !m.last {
        return Refuse(SW_BAD_STATE);
      }
      var clear := Judge();
      review := Review(clear, review.displayFailed, false);
      mHash := h(FinalPreimage(partialTxHash, h(reader.hasher.stream)));
      return OK;
    }

    /** apply_node_tree_verdict: refuse an impossible tree, blind sign an unexpected one. */
    method ApplyNodeTreeVerdict() returns (r: Reply)
      requires Valid()
      modifies `review, reader.tree
      ensures Valid() && (r == OK || r == Refuse(SW_TX_INVALID_NODE_TREE))
      ensures reader.State() == old(reader.State()).(tree := Verify(old(reader.State().tree)))
      ensures r != OK <==> IsImpossible(reader.State().tree.err)
      ensures r == OK ==> review == if reader.State().tree.err == TREE_OK then old(review) else old(review).(clear := false)
    {
      hide Run, Verify;
      var e := reader.tree.VerifyComplete();
      if e == TREE_OK {
        return OK;
      }
      if IsImpossible(e) {
        return Refuse(SW_TX_INVALID_NODE_TREE);
      }
      review := review.(clear := false);
      return OK;
    }

    /** Both transaction hashes change hands: the node stage is finished and the metadata is hashed. */
    method TakeMetadata(md: Metadata)
      requires Valid()
      modifies `partialTxHash, reader.hasher, reader.errs
      ensures Valid() && partialTxHash == h(old(reader.hasher.stream))
      ensures
        var feed := FeedMetadata(md, old(reader.errs.code));
        reader.State() == old(reader.State()).(err := feed.err, hasher := feed.out)
    {
      hide Run, FeedMetadata;
      partialTxHash := h(reader.hasher.stream);
      HashMetadata(reader.hasher, md);
    }

    /** The metadata, once the tree verdict is applied. */
    method HashMetadataMessage(ghost st: TxState, m: Message) returns (r: Reply)
      requires Valid() && ValidRing(st.node.ring) && m.metadata.Some? && !IsImpossible(Verify(st.node.tree).err)
      requires Model() == Judged(st)
      modifies `recvIdx, `contractsCount, `txState, `partialTxHash, reader.hasher, reader.errs
      ensures Valid()
      ensures r != OK ==> MetadataStep(h, st, m) == Refused(r.sw)
      ensures r == OK ==> Model() == AfterMetadata(h, st, m.metadata.value)
      ensures r == OK ==> MetadataStep(h, st, m) == if contractsCount == 0 then Finalize(h, Model(), m) else Continue(Model())
    {
      hide Processor.Valid, NodeReader.State, FeedMetadata, Verify, IsImpossible, MetadataStep, AfterMetadata, Finalize;
      ReaderIsValid();
      StateParts();
      RefusedMetadata(h, st, m);
      TakeMetadata(m.metadata.value);
      ReaderIsValid();
      StateParts();
      if reader.errs.code != HASH_OK {
        return Refuse(SW_TX_HASH_FAIL);
      }
      ExpectContracts(m.metadata.value.inputContractsCount);
      TakenMetadata(h, st, m);
      return OK;
    }

    /** The metadata message up to the finalization. */
    method TakeMetadataMessage(m: Message) returns (r: Reply)
      requires Valid()
      modifies `review, `recvIdx, `contractsCount, `txState, `partialTxHash, reader.tree, reader.hasher, reader.errs
      ensures Valid()
      ensures r != OK ==> MetadataStep(h, old(Model()), m) == Refused(r.sw)
      ensures r == OK ==> m.metadata.Some? && Model() == AfterMetadata(h, old(Model()), m.metadata.value)
      ensures r == OK ==> MetadataStep(h, old(Model()), m) == if contractsCount == 0 then Finalize(h, Model(), m) else Continue(Model())
    {
      hide Processor.Valid, NodeReader.State, FeedMetadata, Verify, IsImpossible, MetadataStep, AfterMetadata, Finalize;
      ReaderIsValid();
      StateParts();
      ghost var st := Model();
      RefusedMetadata(h, st, m);
      r := ApplyNodeTreeVerdict();
      if r != OK {
        return;
      }
      if m.metadata.None? {
        return Refuse(SW_TX_PARSING_FAIL);
      }
      ReaderIsValid();
      r := HashMetadataMessage(st, m);
    }

    method ExpectContracts(count: int)
      requires Valid()
      modifies `recvIdx, `contractsCount, `txState
      ensures Valid() && contractsCount == count
      ensures Model() == old(Model()).(recvIdx := 0, contractsCount := count,
                                       phase := if count == 0 then old(txState) else RECEIVING_METADATA_INPUT_CONTRACTS)
    {
      hide Processor.Valid, NodeReader.State;
      ReaderIsValid();
      recvIdx, contractsCount := 0, count;
      txState := if contractsCount == 0 then txState else RECEIVING_METADATA_INPUT_CONTRACTS;
    }

    method ReceiveMetadata(m: Message) returns (r: Reply)
      requires Valid()
      modifies `review, `recvIdx, `contractsCount, `txState, `partialTxHash, `mHash, reader.tree, reader.hasher, reader.errs, values
      ensures reader.Valid() && values.Valid() && (!MetadataStep(h, old(Model()), m).Finalized? ==> Valid())
      ensures r == ReplyOf(MetadataStep(h, old(Model()), m)) && (r == OK ==> Model() == MetadataStep(h, old(Model()), m).st)
    {
      hide Processor.Valid, NodeReader.State, MetadataStep, AfterMetadata;
      r := TakeMetadataMessage(m);
      ReaderIsValid();
      ValuesFollow();
      if r == OK && contractsCount == 0 {
        r := Finish(m);
      }
    }

    /** Hash one disclosed contract; the step of the metadata hash. */
    method HashContract(c: InputContract) returns (ok: bool)
      requires Valid()
      modifies reader, reader.values, reader.nodeHw, reader.hasher, reader.errs
      ensures Valid()
      ensures reader.values.stackFull == (old(reader.values.stackFull) || (!ok && ContractParses(c)))
      ensures ok ==> ContractParses(c) && reader.State() == ContractNode(h, old(reader.State()), c)
    {
      hide Run, FeedContract, ContractParses;
      ok := reader.ProtoDeserializeInputContract(header, c);
    }

    /** The first half of a contract message: hash it, read the hash error, check that a node used it. */
    method TakeContract(m: Message) returns (r: Reply)
      requires Valid()
      modifies `log, reader, reader.values, reader.nodeHw, reader.hasher, reader.errs, values
      ensures Valid()
      ensures r == OK ==> m.contract.Some? && ContractParses(m.contract.value) && reader.State().err == HASH_OK
      ensures r == OK ==> reader.State() == ContractNode(h, old(reader.State()), m.contract.value)
      ensures r == OK ==> log == old(log) + Discloses(m.contract.value)
      ensures r != OK && !reader.values.stackFull ==> Refused(r.sw) == ContractStep(h, old(Model()), m)
      ensures r != OK ==> Refused(r.sw) == ContractStep(h, old(Model()), m) || r == Refuse(SW_TX_PARSING_FAIL)
    {
      hide Processor.Valid, NodeReader.State, ContractNode, ContractParses, ContractStep;
      ReaderIsValid();
      StateParts();
      RefusedContract(h, Model(), m);
      if m.contract.None? {
        return Refuse(SW_TX_PARSING_FAIL);
      }
      var ok := HashContract(m.contract.value);
      if !ok {
        return Refuse(SW_TX_PARSING_FAIL);
      }
      ReaderIsValid();
      StateParts();
      if reader.errs.code != HASH_OK {
        return Refuse(SW_TX_HASH_FAIL);
      }
      if m.contract.value.contract.Some? {
        CheckDisclosure(m.contract.value.contract.value.contractId);
      }
      return OK;
    }

    /** The display parse of a contract while a screen waits for it. */
    method ShowContract(ghost st: TxState, m: Message) returns (r: Reply)
      requires Valid() && ValidRing(st.node.ring) && m.contract.Some? && ContractParses(m.contract.value) && reader.State().err == HASH_OK
      requires Model() == st.(node := ContractNode(h, st.node, m.contract.value), log := st.log + Discloses(m.contract.value))
      modifies `log, `review, `recvIdx, values
      ensures Valid()
      ensures r != OK ==> ContractStep(h, st, m) == Refused(r.sw)
      ensures r == OK ==> ContractStep(h, st, m) == if recvIdx == contractsCount then Finalize(h, Model(), m) else Continue(Model())
    {
      hide Processor.Valid, NodeReader.State, ContractNode, ContractParses, Discloses, ContractStep, Show, Finalize;
      ReaderIsValid();
      StateParts();
      var wanted := ParsesContract(review);
      TakenContract(h, st, m, Model(), wanted);
      var ok := ShowWanted(wanted, m.display);
      if !ok {
        return Refuse(SW_TX_PARSING_FAIL);
      }
      recvIdx := recvIdx + 1;
      return OK;
    }

    /** The contract message up to the finalization. */
    method TakeContractMessage(m: Message) returns (r: Reply)
      requires Valid()
      modifies `log, `review, `recvIdx, reader, reader.values, reader.nodeHw, reader.hasher, reader.errs, values
      ensures Valid()
      ensures r != OK && !reader.values.stackFull ==> Refused(r.sw) == ContractStep(h, old(Model()), m)
      ensures r != OK ==> Refused(r.sw) == ContractStep(h, old(Model()), m) || r == Refuse(SW_TX_PARSING_FAIL)
      ensures r == OK ==> ContractStep(h, old(Model()), m) == if recvIdx == contractsCount then Finalize(h, Model(), m) else Continue(Model())
    {
      hide Processor.Valid, NodeReader.State, ContractNode, ContractParses, Discloses, ContractStep, Finalize;
      ReaderIsValid();
      StateParts();
      ghost var st := Model();
      r := TakeContract(m);
      ReaderIsValid();
      if r == OK {
        r := ShowContract(st, m);
      }
    }

    method ReceiveContract(m: Message) returns (r: Reply)
      requires Valid()
      modifies `log, `review, `recvIdx, `mHash, reader, reader.values, reader.nodeHw, reader.hasher, reader.errs, values
      ensures reader.Valid() && values.Valid() && (r != OK || !ContractStep(h, old(Model()), m).Finalized? ==> Valid())
      ensures !reader.values.stackFull ==> r == ReplyOf(ContractStep(h, old(Model()), m))
      ensures r == OK ==> !ContractStep(h, old(Model()), m).Refused? && Model() == ContractStep(h, old(Model()), m).st
      ensures r == ReplyOf(ContractStep(h, old(Model()), m)) || r == Refuse(SW_TX_PARSING_FAIL)
    {
      hide Processor.Valid, NodeReader.State, ContractStep;
      r := TakeContractMessage(m);
      ReaderIsValid();
      ValuesFollow();
      if r == OK && recvIdx == contractsCount {
        r := Finish(m);
      }
    }

    // ---------------------------------------------------------------- the entry point

    /** The phases; nothing is released yet. */
    method Receive(m: Message) returns (r: Reply, ghost n: Message)
      requires Valid() && CanCollect()
      modifies this, reader, reader.values, reader.nodeHw, reader.hasher, reader.errs, reader.store, reader.store.slots, reader.tree.Repr(),
               values, values.holdings, values.used, walker, walker.path
      ensures CanCollect() && n == m.(fits := n.fits)
      ensures ValidRing(old(Model()).node.ring) && reader.Valid()
      ensures !reader.values.stackFull ==> r == ReplyOf(Step(h, old(Model()), n))
      ensures r == OK ==> !Step(h, old(Model()), n).Refused? && Model() == Step(h, old(Model()), n).st
      ensures r == ReplyOf(Step(h, old(Model()), n)) || r == Refuse(SW_TX_PARSING_FAIL)
      ensures r != OK || !Step(h, old(Model()), n).Finalized? ==> Valid()
    {
      hide Processor.Valid, Processor.CanCollect, NodeReader.State, HeaderStep, NodeMessageStep, MetadataStep, ContractStep, NodeReader.Valid, ValuesStore.Valid;
      ReaderIsValid();
      StateParts();
      n := m;
      match txState {
        case RECEIVING_DAML_TX_PART =>
          r := ReceiveHeader(m);
          ReaderIsValid();
        case RECEIVING_DAML_NODES =>
          r, n := ReceiveNode(m);
          ReaderIsValid();
        case RECEIVING_METADATA => r := ReceiveMetadata(m);
        case RECEIVING_METADATA_INPUT_CONTRACTS => r := ReceiveContract(m);
      }
    }

    /** One complete message: the outcome of the specification, unless the stack overflows, which refuses
        the transaction as malformed. A refusal resets both checks. n is m with what became of the
        collector's parse. */
    method ProcessPreparedTxPart(m: Message) returns (r: Reply, ghost n: Message)
      requires Valid() && CanCollect()
      modifies this, reader, reader.values, reader.nodeHw, reader.hasher, reader.errs, reader.store, reader.store.slots, reader.tree.Repr(),
               values, values.holdings, values.used, walker, walker.path
      ensures CanCollect() && n == m.(fits := n.fits)
      ensures ValidRing(old(Model()).node.ring)
      ensures !reader.values.stackFull ==> r == ReplyOf(Step(h, old(Model()), n))
      ensures r == OK ==> reader.Valid() && !Step(h, old(Model()), n).Refused? && Model() == Step(h, old(Model()), n).st
      ensures r == ReplyOf(Step(h, old(Model()), n)) || r == Refuse(SW_TX_PARSING_FAIL)
      ensures r != OK || !Step(h, old(Model()), n).Finalized? ==> Valid()
    {
      hide Processor.Valid, Processor.CanCollect, NodeReader.State, Step, NodeReader.Valid;
      ReaderIsValid();
      r, n := Receive(m);
      if r != OK {
        r := Abort(r.sw);
      }
    }
  }

  /** The node state after one disclosed contract: only the hasher and its error move. */
  function ContractNode(h: Sha256, node: NodeState, c: InputContract): NodeState
    requires ContractParses(c)
  {
    node.(err := FeedContract(h, Feed(node.hasher, node.err), c).err, hasher := FeedContract(h, Feed(node.hasher, node.err), c).out)
  }

  lemma RefusedContract(h: Sha256, st: TxState, m: Message)
    requires ValidRing(st.node.ring)
    ensures m.contract.None? || !ContractParses(m.contract.value) ==> ContractStep(h, st, m) == Refused(SW_TX_PARSING_FAIL)
    ensures m.contract.Some? && ContractParses(m.contract.value) && ContractNode(h, st.node, m.contract.value).err != HASH_OK ==>
      ContractStep(h, st, m) == Refused(SW_TX_HASH_FAIL)
  {
    hide FeedContract, ContractParses, Discloses, Show, NextContract;
  }

  lemma TakenContract(h: Sha256, st: TxState, m: Message, mid: TxState, wanted: bool)
    requires ValidRing(st.node.ring) && m.contract.Some? && ContractParses(m.contract.value)
    requires mid == st.(node := ContractNode(h, st.node, m.contract.value), log := st.log + Discloses(m.contract.value))
    requires mid.node.err == HASH_OK && (wanted <==> ParsesContract(st.review))
    ensures
      var o := Show(mid, wanted, m.display);
      (o.Continue? ==> o.st == mid.(review := o.st.review, log := o.st.log)) &&
      (!o.Continue? ==> ContractStep(h, st, m) == Refused(SW_TX_PARSING_FAIL)) &&
      (o.Continue? ==> (var t := o.st.(recvIdx := st.recvIdx + 1);
         ContractStep(h, st, m) == if t.recvIdx == t.contractsCount then Finalize(h, t, m) else Continue(t)))
  {
    hide FeedContract, ContractParses, Discloses, ParseForDisplay, Binds, Finalize;
  }

  /** The state once the tree verdict is applied. */
  function Judged(st: TxState): TxState
  {
    st.(node := st.node.(tree := Verify(st.node.tree)),
        review := if Verify(st.node.tree).err == TREE_OK then st.review else st.review.(clear := false))
  }

  lemma RefusedMetadata(h: Sha256, st: TxState, m: Message)
    requires ValidRing(st.node.ring)
    ensures IsImpossible(Verify(st.node.tree).err) ==> MetadataStep(h, st, m) == Refused(SW_TX_INVALID_NODE_TREE)
    ensures !IsImpossible(Verify(st.node.tree).err) && m.metadata.None? ==> MetadataStep(h, st, m) == Refused(SW_TX_PARSING_FAIL)
    ensures !IsImpossible(Verify(st.node.tree).err) && m.metadata.Some? && FeedMetadata(m.metadata.value, st.node.err).err != HASH_OK ==>
      MetadataStep(h, st, m) == Refused(SW_TX_HASH_FAIL)
  {
    hide Verify, FeedMetadata, IsImpossible;
  }

  lemma TakenMetadata(h: Sha256, st: TxState, m: Message)
    requires ValidRing(st.node.ring) && m.metadata.Some? && !IsImpossible(Verify(st.node.tree).err)
    requires FeedMetadata(m.metadata.value, st.node.err).err == HASH_OK
    ensures
      var md, t := m.metadata.value, AfterMetadata(h, st, m.metadata.value);
      t.node == NodeState(Verify(st.node.tree), st.node.ring, FeedMetadata(md, st.node.err).err, FeedMetadata(md, st.node.err).out) &&
      t == TxState(st.templates, if md.inputContractsCount == 0 then st.phase else RECEIVING_METADATA_INPUT_CONTRACTS, 0, st.header, md.inputContractsCount,
                   t.node, st.log, if Verify(st.node.tree).err == TREE_OK then st.review else st.review.(clear := false),
                   h(st.node.hasher), st.mHash) &&
      MetadataStep(h, st, m) == if md.inputContractsCount == 0 then Finalize(h, t, m) else Continue(t)
  {
    hide Verify, FeedMetadata, IsImpossible, Finalize;
  }

  lemma RefusedNode(h: Sha256, st: TxState, m: Message)
    requires ValidRing(st.node.ring)
    ensures m.node.None? || !PartParses(st.header, m.node.value) ==> NodeMessageStep(h, st, m) == Refused(SW_TX_PARSING_FAIL)
    ensures m.node.Some? && PartParses(st.header, m.node.value) && NodeStep(h, st.header, st.node, m.node.value).err != HASH_OK ==>
      NodeMessageStep(h, st, m) == Refused(SW_TX_HASH_FAIL)
  {
    hide NodeStep, PartParses, Findings, Show;
  }

  /** A node that parses and hashes: the rest is the display parse. */
  lemma TakenNode(h: Sha256, st: TxState, m: Message, mid: TxState, wanted: bool)
    requires ValidRing(st.node.ring) && m.node.Some? && PartParses(st.header, m.node.value)
    requires mid == st.(node := NodeStep(h, st.header, st.node, m.node.value), log := st.log + Findings(h, st.templates, m.node.value.body, m))
    requires mid.node.err == HASH_OK && (wanted <==> mid.node.tree.err == TREE_OK && ParsesNode(st.review))
    ensures
      var o := Show(mid, wanted, m.display);
      NodeMessageStep(h, st, m) == (if o.Continue? then Continue(NextNode(o.st)) else Refused(SW_TX_PARSING_FAIL)) &&
      (o.Continue? ==> o.st == mid.(review := o.st.review, log := o.st.log))
  {
    hide NodeStep, PartParses, Findings, ParseForDisplay, Binds;
  }

  lemma EventsAssoc(a: seq<Event>, b: seq<Event>, c: seq<Event>)
    ensures (a + b) + c == a + (b + c)
  {
  }
}
