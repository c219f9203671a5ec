/** A screen that waits for a disclosed contract is not held to the node tree verdict. */
module DeferredScreen {
  import opened Bytes
  import opened CanonicalValue
  import opened HashWriter
  import opened ValueStream
  import opened CanonicalNode
  import opened NodeTreeCheck
  import opened NodeHashStore
  import opened NodePhase
  import opened CanonicalMetadata
  import opened ValuesCheck
  import opened ValuesVerdict
  import opened HoldingWalk
  import opened PreparedTransaction
  import opened TransactionRuns
  import opened ClearSigning

  const ZERO: Str := [48]
  const ONE: Str := [49]
  /** Two nodes under root 0; node 1 has a seed. */
  function Announced(seed: seq<Byte>): Header { Header(Some([50]), [ZERO], 2, [NodeSeed(1, Some(seed))]) }

  /** A contract that is exercised and disclosed, each time without a hash error. */
  predicate Usable(f: ExerciseFields, seed: seq<Byte>, c: InputContract)
  {
    IsHash(seed) && IsComplete(Exercise(f, [])) && StreamShell(Exercise(f, []), Some(seed), Blank(HASH_OK)).feed.err == HASH_OK &&
    ContractParses(c) && c.contract.Some? && ContractFeed(c, HASH_OK).err == HASH_OK && c.contract.value.contractId == f.contractId
  }

  /** The screen of a transfer that is accepted, and the holding it announces. */
  predicate Announces(s: Screen, note: Note)
  {
    s.kind == DEST_RECEIVER && s.destination == Some(note.holding.owner) && CarriesAmount(s, note.holding) &&
    (s.admin.Some? ==> s.admin.value == note.holding.admin) && (note.instrument.Some? ==> s.instrument == note.instrument)
  }

  /** A create that is hashed without an error and writes one holding. */
  predicate Writes(h: Sha256, templates: Templates, a: CreateFields, note: Note)
  {
    IsComplete(Create(a)) && StreamShell(Create(a), None, Blank(HASH_OK)).feed.err == HASH_OK &&
    Classify(templates, a.templateId).HoldsValue? && CollectCreate(h, Classify(templates, a.templateId).cfg, a.argument) == ReportEvent(note)
  }

  function Blankly(d: Display): Message { Message(None, None, None, None, true, true, d, false) }

  /** Node 1 exercises the contract and defers its screen; root 0 creates the holding and has no children, so
      node 1 is an orphan. */
  function OrphanMessages(f: ExerciseFields, seed: seq<Byte>, a: CreateFields, md: Metadata, c: InputContract, s: Screen): seq<Message>
  {
    [Blankly(DecodeFails).(header := Some(Announced(seed))),
     Blankly(NoScreen(true)).(node := Some(NodePart(Some(ONE), Exercise(f, [])))),
     Blankly(DecodeFails).(node := Some(NodePart(Some(ZERO), Create(a)))),
     Blankly(DecodeFails).(metadata := Some(md)),
     Blankly(Populates(s)).(contract := Some(c), last := true)]
  }

  lemma Numbers()
    ensures AToInt(ZERO) == 0 && AToInt(ONE) == 1 && NodeIdFromStr(ZERO) == 0
  {
    assert ZERO[..0] == [] && Decimal([]) == 0 && Decimal(ZERO) == 0;
    assert ONE[..0] == [] && Decimal(ONE) == 1;
  }

  lemma TreeStarts()
    ensures Init([ZERO], 2, true) == Check([NodeCheck(false, true), NodeCheck(false, false)], 0, TREE_OK)
  {
    Numbers();
  }

  /** The orphan's part: marked, and never claimed. */
  lemma OrphanPart(h: Sha256, st: NodeState, f: ExerciseFields, seed: seq<Byte>)
    requires ValidRing(st.ring) && st.err == HASH_OK && IsHash(seed) && IsComplete(Exercise(f, []))
    requires StreamShell(Exercise(f, []), Some(seed), Blank(HASH_OK)).feed.err == HASH_OK
    ensures
      var hdr, part := Announced(seed), NodePart(Some(ONE), Exercise(f, []));
      PartParses(hdr, part) && NodeStep(h, hdr, st, part).err == HASH_OK &&
      NodeStep(h, hdr, st, part).tree == MarkSeen(st.tree, 1) && ValidRing(NodeStep(h, hdr, st, part).ring)
  {
    hide StreamShell, MarkSeen, IsComplete, U32;
    Numbers();
    assert ChildIds([]) == [];
    var hdr, part := Announced(seed), NodePart(Some(ONE), Exercise(f, []));
    assert SeedEntry(hdr.seeds, 1) == Some(NodeSeed(1, Some(seed)));
    assert SeedOf(hdr, part) == Some(seed);
  }

  lemma RootPart(h: Sha256, st: NodeState, a: CreateFields, seed: seq<Byte>)
    requires ValidRing(st.ring) && st.err == HASH_OK && IsComplete(Create(a)) && StreamShell(Create(a), None, Blank(HASH_OK)).feed.err == HASH_OK
    ensures
      var hdr, part := Announced(seed), NodePart(Some(ZERO), Create(a));
      PartParses(hdr, part) && NodeStep(h, hdr, st, part).err == HASH_OK &&
      NodeStep(h, hdr, st, part).tree == MarkSeen(st.tree, 0) && ValidRing(NodeStep(h, hdr, st, part).ring)
  {
    hide StreamShell, MarkSeen, IsComplete, U32;
    Numbers();
    var hdr, part := Announced(seed), NodePart(Some(ZERO), Create(a));
    assert SeedEntry(hdr.seeds[1..], 0) == None;
    assert SeedEntry(hdr.seeds, 0) == None;
    assert SeedOf(hdr, part) == None;
  }

  lemma RunStep(h: Sha256, v: Values, es: seq<Event>, e: Event)
    ensures Run(h, v, es + [e]) == Apply(h, Run(h, v, es), e) && Run(h, v, []) == v
  {
    hide Apply;
    assert (es + [e])[..|es|] == es;
  }

  function Calls(used: Option<Str>, made: Option<Str>, note: Note, s: Screen): seq<Event>
  {
    [UseEvent(used, true)] + [UseEvent(made, true)] + [ReportEvent(note)] + [DiscloseEvent(used)] + [BindEvent(s)]
  }

  /** The value check sees two used contracts, the holding, the disclosed contract, and the screen that
      announces the holding. */
  lemma ValuesAgree(h: Sha256, used: Option<Str>, made: Option<Str>, note: Note, s: Screen)
    requires Announces(s, note)
    ensures Verdict(Run(h, FRESH, Calls(used, made, note, s)))
  {
    hide Run, ContractDigest, Agrees, RecordUsed, Announces, CheckDisclosed;
    var e1, e2, e3 := [UseEvent(used, true)], [UseEvent(used, true)] + [UseEvent(made, true)], [UseEvent(used, true)] + [UseEvent(made, true)] + [ReportEvent(note)];
    assert [] + e1 == e1;
    RunStep(h, FRESH, [], e1[0]);
    RunStep(h, FRESH, e1, UseEvent(made, true));
    RunStep(h, FRESH, e2, ReportEvent(note));
    RunStep(h, FRESH, e3, DiscloseEvent(used));
    RunStep(h, FRESH, e3 + [DiscloseEvent(used)], BindEvent(s));
    UsedAndDisclosed(h, used, made, note);
    assert [] + [note.holding] == [note.holding];
    OneHoldingAgrees(note, s);
  }

  lemma UsedAndDisclosed(h: Sha256, used: Option<Str>, made: Option<Str>, note: Note)
    ensures
      var v := RecordUsed(h, RecordUsed(h, FRESH, used, true), made, true);
      v.ok && v.holdings == [] && v.instrument == None && v.screen == None &&
        CheckDisclosed(h, Report(v, note.holding, note.instrument), used) == Report(v, note.holding, note.instrument)
  {
    hide ContractDigest;
  }

  lemma OneHoldingAgrees(note: Note, s: Screen)
    requires Announces(s, note)
    ensures Agrees([note.holding], note.instrument, s)
  {
    var hs := [note.holding];
    assert hs[..0] == [] && Owned(hs, note.holding.owner) == 1;
    assert hs[0].owner == s.destination.value && CarriesAmount(s, hs[0]);
  }

  lemma HeaderTaken(h: Sha256, start: TxState, f: ExerciseFields, seed: seq<Byte>, a: CreateFields, md: Metadata, c: InputContract, s: Screen) returns (st: TxState)
    requires Starts(start)
    ensures After(h, start, OrphanMessages(f, seed, a, md, c, s), 1) == Continue(st) && ValidRing(st.node.ring)
    ensures st.phase == RECEIVING_DAML_NODES && st.header == Announced(seed) && st.recvIdx == 0 && st.log == [] &&
      st.review == Review(false, false, false) && st.templates == start.templates
    ensures st.node.err == HASH_OK && st.node.tree == Check([NodeCheck(false, true), NodeCheck(false, false)], 0, TREE_OK)
  {
    hide HeaderStep, Init, NodeMessageStep, MetadataStep, ContractStep;
    var ms := OrphanMessages(f, seed, a, md, c, s);
    TreeStarts();
    HeaderIsTaken(start, ms[0]);
    HeaderEffects(start, ms[0]);
    TemplatesStay(h, start, ms[0]);
    StepDispatch(h, start, ms, 0);
    st := HeaderStep(start, ms[0]).st;
  }

  lemma HeaderIsTaken(st: TxState, m: Message)
    requires ValidRing(st.node.ring) && m.header.Some? && m.header.value.version.Some?
    ensures HeaderStep(st, m).Continue?
  {
    hide Init, FeedHeader;
    HeaderWrites(m.header.value);
  }

  /** A node message that hashes and whose display parse does not fail is taken. */
  lemma NodeIsTaken(h: Sha256, st: TxState, m: Message)
    requires ValidRing(st.node.ring) && m.node.Some? && PartParses(st.header, m.node.value)
    requires NodeStep(h, st.header, st.node, m.node.value).err == HASH_OK && ValidRing(NodeStep(h, st.header, st.node, m.node.value).ring)
    requires st.review.deferred || ParseForDisplay(st.review, m.display).Some?
    ensures NodeMessageStep(h, st, m).Continue?
  {
    hide NodeStep, PartParses, Findings;
  }

  lemma FindingsOf(h: Sha256, templates: Templates, body: NodeBody, m: Message)
    requires m.fits && m.room
    ensures body.Exercise? ==> Findings(h, templates, body, m) == [UseEvent(body.exercise.contractId, true)]
    ensures forall note :: body.Create? && Writes(h, templates, body.create, note) ==>
      Findings(h, templates, body, m) == [UseEvent(body.create.contractId, true)] + [ReportEvent(note)]
  {
    hide CollectCreate, IsComplete, StreamShell;
  }

  lemma OrphanTaken(h: Sha256, start: TxState, f: ExerciseFields, seed: seq<Byte>, a: CreateFields, md: Metadata, c: InputContract, s: Screen) returns (st: TxState)
    requires Starts(start) && Usable(f, seed, c)
    ensures After(h, start, OrphanMessages(f, seed, a, md, c, s), 2) == Continue(st) && ValidRing(st.node.ring)
    ensures st.phase == RECEIVING_DAML_NODES && st.header == Announced(seed) && st.recvIdx == 1 &&
      st.review == Review(false, false, true) && st.templates == start.templates
    ensures st.log == [UseEvent(f.contractId, true)] && st.node.err == HASH_OK
    ensures st.node.tree == Check([NodeCheck(false, true), NodeCheck(true, false)], 0, TREE_OK)
  {
    hide HeaderStep, NodeMessageStep, MetadataStep, ContractStep, NodeStep, PartParses, Findings, IsComplete, StreamShell, Starts, After;
    var ms := OrphanMessages(f, seed, a, md, c, s);
    var st0 := HeaderTaken(h, start, f, seed, a, md, c, s);
    OrphanPart(h, st0.node, f, seed);
    NodeIsTaken(h, st0, ms[1]);
    NodeEffects(h, st0, ms[1]);
    NodeReview(h, st0, ms[1]);
    FindingsOf(h, st0.templates, Exercise(f, []), ms[1]);
    TemplatesStay(h, st0, ms[1]);
    StepDispatch(h, start, ms, 1);
    st := NodeMessageStep(h, st0, ms[1]).st;
    assert [] + [UseEvent(f.contractId, true)] + [] == [UseEvent(f.contractId, true)];
  }

  lemma RootTaken(h: Sha256, start: TxState, f: ExerciseFields, seed: seq<Byte>, a: CreateFields, md: Metadata, c: InputContract, s: Screen, note: Note)
    returns (st: TxState)
    requires Starts(start) && Usable(f, seed, c) && Writes(h, start.templates, a, note)
    ensures After(h, start, OrphanMessages(f, seed, a, md, c, s), 3) == Continue(st) && ValidRing(st.node.ring)
    ensures st.phase == RECEIVING_METADATA && st.header == Announced(seed) && st.review == Review(false, false, true)
    ensures st.log == [UseEvent(f.contractId, true)] + [UseEvent(a.contractId, true)] + [ReportEvent(note)] && st.node.err == HASH_OK
    ensures st.node.tree == Check([NodeCheck(true, true), NodeCheck(true, false)], 0, TREE_OK)
  {
    hide HeaderStep, NodeMessageStep, MetadataStep, ContractStep, NodeStep, PartParses, Findings, Usable, Starts, After, Writes, MarkSeen;
    var ms := OrphanMessages(f, seed, a, md, c, s);
    var st0 := OrphanTaken(h, start, f, seed, a, md, c, s);
    RootIsTaken(h, st0, ms[2], a, seed, note);
    StepDispatch(h, start, ms, 2);
    st := NodeMessageStep(h, st0, ms[2]).st;
    MarkRoot();
  }

  lemma MarkRoot()
    ensures MarkSeen(Check([NodeCheck(false, true), NodeCheck(true, false)], 0, TREE_OK), 0) == Check([NodeCheck(true, true), NodeCheck(true, false)], 0, TREE_OK)
  {
  }

  lemma RootIsTaken(h: Sha256, st0: TxState, m: Message, a: CreateFields, seed: seq<Byte>, note: Note)
    requires ValidRing(st0.node.ring) && st0.node.err == HASH_OK && st0.header == Announced(seed) && st0.recvIdx == 1 && st0.review == Review(false, false, true)
    requires m.node == Some(NodePart(Some(ZERO), Create(a))) && m.fits && m.room && Writes(h, st0.templates, a, note)
    ensures NodeMessageStep(h, st0, m).Continue?
    ensures
      var t := NodeMessageStep(h, st0, m).st;
      ValidRing(t.node.ring) && t.phase == RECEIVING_METADATA && t.header == st0.header && t.review == st0.review && t.node.err == HASH_OK &&
      t.node.tree == MarkSeen(st0.node.tree, 0) && t.log == st0.log + [UseEvent(a.contractId, true)] + [ReportEvent(note)]
  {
    hide NodeMessageStep, NodeStep, PartParses, Findings, MarkSeen, IsComplete, StreamShell, CollectCreate, ValidRing;
    RootPart(h, st0.node, a, seed);
    NodeIsTaken(h, st0, m);
    NodeEffects(h, st0, m);
    NodeReview(h, st0, m);
    FindingsOf(h, st0.templates, Create(a), m);
    var fs := Findings(h, st0.templates, Create(a), m);
    CallsAssoc(st0.log, [UseEvent(a.contractId, true)], [ReportEvent(note)]);
    assert st0.log + fs + [] == st0.log + fs;
  }

  lemma OrphanVerdict()
    ensures
      var tree := Check([NodeCheck(true, true), NodeCheck(true, false)], 0, TREE_OK);
      Verify(tree).err == TREE_ERR_ORPHAN_NODE && !IsImpossible(Verify(tree).err)
  {
    var nodes := [NodeCheck(true, true), NodeCheck(true, false)];
    assert nodes[1..] == [NodeCheck(true, false)];
    assert Sweep(nodes) == Sweep(nodes[1..]) == TREE_ERR_ORPHAN_NODE;
  }

  lemma MetadataIsTaken(h: Sha256, st: TxState, m: Message)
    requires ValidRing(st.node.ring) && !IsImpossible(Verify(st.node.tree).err) && m.metadata.Some? && PresentMetadata(m.metadata.value)
    requires st.node.err == HASH_OK && m.metadata.value.inputContractsCount != 0
    ensures MetadataStep(h, st, m).Continue?
  {
    hide Verify, FeedMetadata;
    MetadataWrites(m.metadata.value, HASH_OK);
  }

  lemma MetadataTaken(h: Sha256, start: TxState, f: ExerciseFields, seed: seq<Byte>, a: CreateFields, md: Metadata, c: InputContract, s: Screen, note: Note)
    returns (st: TxState)
    requires Starts(start) && Usable(f, seed, c) && Writes(h, start.templates, a, note) && PresentMetadata(md) && md.inputContractsCount == 1
    ensures After(h, start, OrphanMessages(f, seed, a, md, c, s), 4) == Continue(st) && ValidRing(st.node.ring)
    ensures st.phase == RECEIVING_METADATA_INPUT_CONTRACTS && st.recvIdx == 0 && st.contractsCount == 1 && st.review == Review(false, false, true)
    ensures st.log == [UseEvent(f.contractId, true)] + [UseEvent(a.contractId, true)] + [ReportEvent(note)] &&
      st.node.err == HASH_OK && st.node.tree.err == TREE_ERR_ORPHAN_NODE
  {
    hide HeaderStep, NodeMessageStep, MetadataStep, ContractStep, Usable, Writes, Starts, After, FeedMetadata, Verify, PresentMetadata;
    var ms := OrphanMessages(f, seed, a, md, c, s);
    var st0 := RootTaken(h, start, f, seed, a, md, c, s, note);
    OrphanVerdict();
    MetadataIsTaken(h, st0, ms[3]);
    MetadataEffects(h, st0, ms[3]);
    MetadataReview(h, st0, ms[3]);
    StepDispatch(h, start, ms, 3);
    st := MetadataStep(h, st0, ms[3]).st;
  }

  lemma ContractIsTaken(h: Sha256, st: TxState, m: Message)
    requires ValidRing(st.node.ring) && m.contract.Some? && ContractParses(m.contract.value)
    requires FeedContract(h, NodeFeedOf(st.node), m.contract.value).err == HASH_OK && m.display.Populates? && m.last
    requires st.recvIdx + 1 == st.contractsCount
    ensures ContractStep(h, st, m).Finalized?
  {
    hide FeedContract, ContractParses, Discloses, FinalPreimage, Verdict, Run;
  }

  /** A transaction whose node tree has an orphan, so that the tree verdict alone calls for blind signing,
      is still clear signed when its screen was deferred to a disclosed contract: here the acceptance of a
      transfer, whose holding the root creates. */
  lemma DeferredScreenSkipsTree(h: Sha256, start: TxState, f: ExerciseFields, seed: seq<Byte>, a: CreateFields, md: Metadata, c: InputContract, s: Screen,
                                note: Note)
    requires Starts(start) && Usable(f, seed, c) && Writes(h, start.templates, a, note) && Announces(s, note)
    requires PresentMetadata(md) && md.inputContractsCount == 1
    ensures Finalizes(h, start, OrphanMessages(f, seed, a, md, c, s))
    ensures
      var st := After(h, start, OrphanMessages(f, seed, a, md, c, s), 5).st;
      st.review.clear && st.node.tree.err == TREE_ERR_ORPHAN_NODE
  {
    hide HeaderStep, NodeMessageStep, MetadataStep, ContractStep, Starts, After, PresentMetadata, Verdict, Run, ContractParses, ContractFeed,
         IsComplete, StreamShell, Writes, Announces;
    var ms := OrphanMessages(f, seed, a, md, c, s);
    var st := MetadataTaken(h, start, f, seed, a, md, c, s, note);
    ContractIsTaken(h, st, ms[4]);
    ContractEffects(h, st, ms[4]);
    ContractReview(h, st, ms[4]);
    StepDispatch(h, start, ms, 4);
    ValuesAgree(h, f.contractId, a.contractId, note, s);
  }
}
