/** When clear signing is left on, as a condition on the messages: a node of a well-formed tree decides on a
    screen, or a node defers it and a disclosed contract decides, whatever becomes of the tree; and the
    value check agrees with that screen on everything the messages report. */
module ClearSigning {
  import opened Bytes
  import opened HashWriter
  import opened CanonicalNode
  import opened NodeTreeCheck
  import opened NodeHashStore
  import opened NodePhase
  import opened NodeTree
  import opened HoldingWalk
  import opened CanonicalMetadata
  import opened ValuesCheck
  import opened ValuesVerdict
  import opened PreparedTransaction
  import opened TransactionRuns

  // ------------------------------------------------------------------ what one message does to the review

  /** The static tables stay. */
  lemma TemplatesStay(h: Sha256, st: TxState, m: Message)
    requires ValidRing(st.node.ring)
    ensures !Step(h, st, m).Refused? ==> Step(h, st, m).st.templates == st.templates
  {
    hide NodeStep, PartParses, Findings, Verify, FeedMetadata, FeedHeader, FeedContract, ContractParses, FinalPreimage, Verdict, Run, Init, Discloses;
  }

  /** The review after the display parse, before any finalization. */
  function Shown(r: Review, wanted: bool, d: Display): Review
  {
    if wanted && ParseForDisplay(r, d).Some? then ParseForDisplay(r, d).value else r
  }

  lemma NodeReview(h: Sha256, st: TxState, m: Message)
    requires ValidRing(st.node.ring) && NodeMessageStep(h, st, m).Continue?
    ensures m.node.Some?
    ensures
      var t := NodeMessageStep(h, st, m).st;
      var wanted := t.node.tree.err == TREE_OK && ParsesNode(st.review);
      t.review == Shown(st.review, wanted, m.display) && (wanted ==> ParseForDisplay(st.review, m.display).Some?) &&
      t.log == st.log + Findings(h, st.templates, m.node.value.body, m) + if wanted then Binds(m.display) else []
  {
    hide NodeStep, PartParses, Findings, Binds;
    assert st.log + Findings(h, st.templates, m.node.value.body, m) + [] == st.log + Findings(h, st.templates, m.node.value.body, m);
  }

  lemma MetadataReview(h: Sha256, st: TxState, m: Message)
    requires ValidRing(st.node.ring) && !MetadataStep(h, st, m).Refused?
    ensures
      var o := MetadataStep(h, st, m);
      var clear := st.review.clear && Verify(st.node.tree).err == TREE_OK;
      o.st.log == st.log && o.st.node.tree == Verify(st.node.tree) && o.st.header == st.header &&
      (o.Continue? ==> o.st.review == st.review.(clear := clear)) &&
      (o.Finalized? ==> (o.st.review.clear <==> clear && Verdict(Run(h, FRESH, o.st.log))))
  {
    hide Verify, FeedMetadata, FinalPreimage, Verdict, Run;
  }

  lemma ContractReview(h: Sha256, st: TxState, m: Message)
    requires ValidRing(st.node.ring) && !ContractStep(h, st, m).Refused?
    ensures m.contract.Some?
    ensures
      var o := ContractStep(h, st, m);
      var wanted, r := ParsesContract(st.review), Shown(st.review, ParsesContract(st.review), m.display);
      o.st.log == st.log + Discloses(m.contract.value) + (if wanted then Binds(m.display) else []) &&
      o.st.node.tree == st.node.tree && o.st.header == st.header && (wanted ==> ParseForDisplay(st.review, m.display).Some?) &&
      (o.Continue? ==> o.st.review == r) &&
      (o.Finalized? ==> (o.st.review.clear <==> r.clear && Verdict(Run(h, FRESH, o.st.log))))
  {
    hide FeedContract, ContractParses, FinalPreimage, Verdict, Run, Discloses, Binds;
    var log := st.log + Discloses(m.contract.value);
    assert log + [] == log;
  }

  // ------------------------------------------------------------------ what the messages decide

  /** The display of the first node that has something to show while the tree is good, among the first i. */
  ghost function NodeDecision(h: Sha256, start: TxState, ms: seq<Message>, i: nat): Option<Display>
    requires NodesSent(ms, i)
  {
    if i == 0 then None
    else if NodeDecision(h, start, ms, i - 1).Some? then NodeDecision(h, start, ms, i - 1)
    else if ms[i].display != NoScreen(false) && TreeGood(NodeSession(h, start, ms, i)) then Some(ms[i].display)
    else None
  }

  /** The display of the first contract that has something to show, among the i from position at on. */
  function ContractDecision(ms: seq<Message>, at: nat, i: nat): (d: Option<Display>)
    requires at + i <= |ms|
    ensures d.Some? ==> !d.value.NoScreen?
  {
    if i == 0 then None else FirstOf(ContractDecision(ms, at, i - 1), ms[at + i - 1].display)
  }

  function FirstOf(decided: Option<Display>, d: Display): Option<Display>
  {
    if decided.Some? then decided else if d.NoScreen? then None else Some(d)
  }

  predicate Defers(d: Option<Display>) { d.Some? && d.value.NoScreen? }

  function ScreenBy(d: Option<Display>): Option<Screen>
  {
    match d
    case Some(Populates(s)) => Some(s)
    case Some(CannotShow(s)) => Some(s)
    case _ => None
  }

  /** The screen that is left to show: the one the nodes decided on, if they form a tree; or the one a
      contract decided on, if the nodes deferred it. */
  function ScreenLeft(nodes: Option<Display>, wellFormed: bool, contracts: Option<Display>): Option<Screen>
  {
    if Defers(nodes) then (if contracts.Some? && contracts.value.Populates? then ScreenBy(contracts) else None)
    else if wellFormed && nodes.Some? && nodes.value.Populates? then ScreenBy(nodes)
    else None
  }

  /** What the nodes report to the value check, and which contracts are disclosed. */
  function NodeCalls(h: Sha256, templates: Templates, ms: seq<Message>, i: nat): seq<Event>
    requires i < |ms| && forall j :: 1 <= j <= i ==> ms[j].node.Some?
  {
    if i == 0 then [] else NodeCalls(h, templates, ms, i - 1) + Findings(h, templates, ms[i].node.value.body, ms[i])
  }

  ghost function ContractCalls(ms: seq<Message>, at: nat, i: nat): seq<Event>
    requires ContractsSent(ms, at, i)
  {
    if i == 0 then [] else ContractCalls(ms, at, i - 1) + Discloses(ms[at + i - 1].contract.value)
  }

  /** A header, the nodes it announces, the metadata, and contracts. */
  ghost predicate InOrder(ms: seq<Message>)
  {
    |ms| > 0 && ms[0].header.Some? && 0 <= ms[0].header.value.nodesCount && Nodes(ms) + 2 <= |ms| &&
    NodesSent(ms, Nodes(ms)) && ContractsSent(ms, Nodes(ms) + 2, |ms| - Nodes(ms) - 2)
  }

  function Nodes(ms: seq<Message>): nat { if |ms| > 0 && ms[0].header.Some? && ms[0].header.value.nodesCount >= 0 then ms[0].header.value.nodesCount else 0 }

  ghost function ScreenOfRun(h: Sha256, start: TxState, ms: seq<Message>): Option<Screen>
    requires InOrder(ms)
  {
    ScreenLeft(NodeDecision(h, start, ms, Nodes(ms)), WellFormed(NodeSession(h, start, ms, Nodes(ms))),
               ContractDecision(ms, Nodes(ms) + 2, |ms| - Nodes(ms) - 2))
  }

  ghost function CallsOfRun(h: Sha256, start: TxState, ms: seq<Message>): seq<Event>
    requires InOrder(ms)
  {
    NodeCalls(h, start.templates, ms, Nodes(ms)) + ContractCalls(ms, Nodes(ms) + 2, |ms| - Nodes(ms) - 2)
  }

  // ------------------------------------------------------------------ the log without its screens

  function Unbound(es: seq<Event>): seq<Event>
  {
    if |es| == 0 then [] else Unbound(es[..|es| - 1]) + if es[|es| - 1].BindEvent? then [] else [es[|es| - 1]]
  }

  predicate NoBinds(es: seq<Event>) { forall i :: 0 <= i < |es| ==> !es[i].BindEvent? }

  lemma {:induction false} UnboundConcat(a: seq<Event>, b: seq<Event>)
    ensures NoBinds(b) ==> Unbound(a + b) == Unbound(a) + b && LastScreen(a + b) == LastScreen(a)
    decreases |b|
  {
    if |b| == 0 {
      assert a + b == a;
    } else {
      var k := |b| - 1;
      assert (a + b)[..|a + b| - 1] == a + b[..k];
      assert b == b[..k] + [b[k]];
      UnboundConcat(a, b[..k]);
    }
  }

  lemma UnboundBinds(a: seq<Event>, d: Display)
    ensures Unbound(a + Binds(d)) == Unbound(a)
    ensures LastScreen(a + Binds(d)) == match d { case Populates(s) => Some(s) case CannotShow(s) => Some(s) case MissingField(s) => Some(s) case _ => LastScreen(a) }
  {
    if Binds(d) == [] {
      assert a + Binds(d) == a;
    } else {
      assert (a + Binds(d))[..|a|] == a;
      assert Unbound(a) + [] == Unbound(a);
    }
  }

  /** Two logs that say the same about holdings and contracts. */
  ghost predicate SameCalls(h: Sha256, a: seq<Event>, b: seq<Event>)
  {
    Notes(a) == Notes(b) && UsedDigests(h, Others(a)) == UsedDigests(h, Others(b)) && (Calm(h, Others(a)) <==> Calm(h, Others(b)))
  }

  lemma OneMoreCall(es: seq<Event>, e: Event)
    ensures Notes(es + [e]) == if e.ReportEvent? then Notes(es) + [e.note] else Notes(es)
    ensures Others(es + [e]) == if e.ReportEvent? then Others(es) else Others(es) + [e]
    ensures Unbound(es + [e]) == if e.BindEvent? then Unbound(es) else Unbound(es) + [e]
  {
    assert (es + [e])[..|es|] == es;
    assert Notes(es) + [] == Notes(es) && Others(es) + [] == Others(es) && Unbound(es) + [] == Unbound(es);
  }

  lemma SameCallsStep(h: Sha256, a: seq<Event>, b: seq<Event>, e: Event)
    requires SameCalls(h, a, b)
    ensures SameCalls(h, a + [e], b + [e]) && (e.BindEvent? ==> SameCalls(h, a, b + [e]))
  {
    hide Calm, UsedDigests, Notes, Others, CalmCall;
    OneMoreCall(a, e);
    OneMoreCall(b, e);
    CalmStep(h, Others(a), e);
    CalmStep(h, Others(b), e);
    UsedGrows(h, Others(a), e);
    UsedGrows(h, Others(b), e);
    if e.BindEvent? {
      BindIsCalm(h, Others(b), e);
    }
  }

  /** Where a screen is bound among the calls makes no difference. */
  lemma {:induction false} UnboundKeeps(h: Sha256, es: seq<Event>)
    ensures SameCalls(h, Unbound(es), es)
    decreases |es|
  {
    hide SameCalls;
    if |es| == 0 {
      NothingSaid(h);
    } else {
      var k := |es| - 1;
      UnboundKeeps(h, es[..k]);
      assert es == es[..k] + [es[k]];
      OneMoreCall(es[..k], es[k]);
      SameCallsStep(h, Unbound(es[..k]), es[..k], es[k]);
    }
  }

  lemma NothingSaid(h: Sha256)
    ensures SameCalls(h, [], [])
  {
  }

  lemma BindIsCalm(h: Sha256, es: seq<Event>, e: Event)
    requires e.BindEvent?
    ensures CalmCall(UsedDigests(h, es), h, e)
    ensures Calm(h, es) ==> |UsedDigests(h, es)| <= MAX_USED_CONTRACTS
    ensures UsedDigests(h, es) + {} == UsedDigests(h, es)
  {
  }

  /** The value predicate on a log, and on its calls with the last screen at the end. */
  lemma ClearsUnbound(h: Sha256, es: seq<Event>, s: Screen)
    requires LastScreen(es) == Some(s)
    ensures Clears(h, es) <==> Clears(h, Unbound(es) + [BindEvent(s)])
  {
    hide Calm, UsedDigests, Matches, FewOfOneKind, Notes, Others;
    UnboundKeeps(h, es);
    SameCallsStep(h, es, Unbound(es), BindEvent(s));
  }

  // ------------------------------------------------------------------ the review follows the decisions

  /** The flags once the nodes have decided. */
  function ReviewBy(d: Option<Display>): Review
  {
    match d
    case None => Review(false, false, false)
    case Some(NoScreen(_)) => Review(false, false, true)
    case Some(Populates(_)) => Review(true, false, false)
    case Some(_) => Review(false, true, false)
  }

  /** The flags during the contracts. */
  function ReviewIn(nodes: Option<Display>, wellFormed: bool, contracts: Option<Display>): Review
  {
    if !Defers(nodes) then Review(ReviewBy(nodes).clear && wellFormed, ReviewBy(nodes).displayFailed, false)
    else if contracts.None? then Review(false, false, true)
    else ReviewBy(contracts)
  }

  ghost predicate NodesReviewed(h: Sha256, start: TxState, ms: seq<Message>, i: nat, st: TxState)
  {
    NodesSent(ms, i) && st.templates == start.templates && st.review == ReviewBy(NodeDecision(h, start, ms, i)) &&
    LastScreen(st.log) == ScreenBy(NodeDecision(h, start, ms, i)) && Unbound(st.log) == NodeCalls(h, start.templates, ms, i)
  }

  /** What the nodes decided, whether they form a tree, and what they called. */
  datatype Basis = Basis(nodes: Option<Display>, wellFormed: bool, calls: seq<Event>)

  ghost function BasisOf(h: Sha256, start: TxState, ms: seq<Message>, n: int): Basis
  {
    if n < 0 || !NodesSent(ms, n) then Basis(None, false, [])
    else Basis(NodeDecision(h, start, ms, n), WellFormed(NodeSession(h, start, ms, n)), NodeCalls(h, start.templates, ms, n))
  }

  /** The same during the contracts. */
  ghost predicate ContractsReviewed(b: Basis, ms: seq<Message>, at: nat, i: nat, st: TxState)
  {
    ContractsSent(ms, at, i) && st.review == ReviewIn(b.nodes, b.wellFormed, ContractDecision(ms, at, i)) &&
    LastScreen(st.log) == ScreenBy(if Defers(b.nodes) then ContractDecision(ms, at, i) else b.nodes) &&
    Unbound(st.log) == b.calls + ContractCalls(ms, at, i)
  }

  ghost predicate Reviewed(h: Sha256, start: TxState, ms: seq<Message>, st: TxState)
  {
    match st.phase
    case RECEIVING_DAML_TX_PART => st == start
    case RECEIVING_DAML_NODES => 0 <= st.recvIdx && NodesReviewed(h, start, ms, st.recvIdx, st)
    case RECEIVING_METADATA => 0 <= st.header.nodesCount && NodesReviewed(h, start, ms, st.header.nodesCount, st)
    case RECEIVING_METADATA_INPUT_CONTRACTS =>
      0 <= st.header.nodesCount && 0 <= st.recvIdx &&
      ContractsReviewed(BasisOf(h, start, ms, st.header.nodesCount), ms, st.header.nodesCount + 2, st.recvIdx, st)
  }

  lemma FindingsDoNotBind(h: Sha256, templates: Templates, body: NodeBody, m: Message, c: InputContract)
    ensures NoBinds(Findings(h, templates, body, m)) && NoBinds(Discloses(c))
  {
    hide CollectCreate;
  }

  /** One display parse, when it is wanted and does not fail. */
  lemma DecisionShown(d: Display)
    requires ParseForDisplay(Review(false, false, false), d).Some?
    ensures ParseForDisplay(Review(false, false, false), d).value == ReviewBy(if d == NoScreen(false) then None else Some(d))
    ensures ScreenBy(Some(d)) == if d.Populates? || d.CannotShow? then Some(d.screen) else None
  {
  }

  lemma NodeIsReviewed(h: Sha256, start: TxState, ms: seq<Message>, i: nat, st: TxState)
    requires NodesReviewed(h, start, ms, i, st) && i + 1 < |ms| && ValidRing(st.node.ring) && NodeMessageStep(h, st, ms[i + 1]).Continue?
    requires NodesFollow(h, start, ms, i + 1, NodeMessageStep(h, st, ms[i + 1]).st.node)
    requires NodeMessageStep(h, st, ms[i + 1]).st.templates == st.templates
    ensures NodesReviewed(h, start, ms, i + 1, NodeMessageStep(h, st, ms[i + 1]).st)
  {
    hide NodeMessageStep, Findings, Unbound, LastScreen, TreeGood, Session.State, Session.Parses, NodeSession, Binds;
    var m, t := ms[i + 1], NodeMessageStep(h, st, ms[i + 1]).st;
    var fs := Findings(h, st.templates, m.node.value.body, m);
    NodeReview(h, st, m);
    NodesFollowMeaning(h, start, ms, i + 1, t.node);
    TreeGoodIff(NodeSession(h, start, ms, i + 1));
    FindingsDoNotBind(h, st.templates, m.node.value.body, m, InputContract(None, 0));
    UnboundConcat(st.log, fs);
    UnboundBinds(st.log + fs, m.display);
    assert st.log + fs + [] == st.log + fs;
    assert NodeDecision(h, start, ms, i).None? <==> ParsesNode(st.review);
    if NodeDecision(h, start, ms, i).None? && t.node.tree.err == TREE_OK {
      DecisionShown(m.display);
    }
  }

  lemma HeaderIsReviewed(h: Sha256, start: TxState, ms: seq<Message>)
    requires Starts(start) && |ms| > 0 && !HeaderStep(start, ms[0]).Refused? && HeaderStep(start, ms[0]).st.templates == start.templates
    ensures Reviewed(h, start, ms, HeaderStep(start, ms[0]).st)
  {
    hide HeaderStep, FeedHeader, TreeGood, NodeSession;
    HeaderEffects(start, ms[0]);
    var t := HeaderStep(start, ms[0]).st;
    assert NodesSent(ms, 0) && NodesReviewed(h, start, ms, 0, t);
  }

  /** What a finalization makes of the flags. */
  ghost predicate Finishes(h: Sha256, review: Review, o: Outcome)
  {
    (o.Continue? ==> o.st.review == review) && (o.Finalized? ==> (o.st.review.clear <==> review.clear && Verdict(Run(h, FRESH, o.st.log))))
  }

  /** The flags and the log when the metadata is taken. */
  lemma MetadataIsReviewed(h: Sha256, wellFormed: bool, nodes: Option<Display>, st: TxState, m: Message)
    requires ValidRing(st.node.ring) && !MetadataStep(h, st, m).Refused? && (wellFormed <==> Verify(st.node.tree).err == TREE_OK)
    requires st.review == ReviewBy(nodes) && LastScreen(st.log) == ScreenBy(nodes)
    ensures
      var o := MetadataStep(h, st, m);
      Finishes(h, ReviewIn(nodes, wellFormed, None), o) && o.st.log == st.log && LastScreen(o.st.log) == ScreenBy(if Defers(nodes) then None else nodes)
  {
    hide MetadataStep, LastScreen, Verify, Verdict, Run;
    MetadataReview(h, st, m);
  }

  /** One contract, against what the messages have decided so far. */
  lemma ContractStepReviewed(h: Sha256, st: TxState, m: Message, nodes: Option<Display>, wellFormed: bool, contracts: Option<Display>)
    requires ValidRing(st.node.ring) && !ContractStep(h, st, m).Refused? && (contracts.Some? ==> !contracts.value.NoScreen?)
    requires st.review == ReviewIn(nodes, wellFormed, contracts) && LastScreen(st.log) == ScreenBy(if Defers(nodes) then contracts else nodes)
    ensures m.contract.Some?
    ensures
      var o, after := ContractStep(h, st, m), FirstOf(contracts, m.display);
      var review := ReviewIn(nodes, wellFormed, after);
      LastScreen(o.st.log) == ScreenBy(if Defers(nodes) then after else nodes) && Unbound(o.st.log) == Unbound(st.log) + Discloses(m.contract.value) &&
      Finishes(h, review, o)
  {
    hide ContractStep, Unbound, LastScreen, Verdict, Run, Discloses, Binds;
    ContractReview(h, st, m);
    var ds := Discloses(m.contract.value);
    FindingsDoNotBind(h, st.templates, NoBody, m, m.contract.value);
    UnboundConcat(st.log, ds);
    UnboundBinds(st.log + ds, m.display);
    assert st.log + ds + [] == st.log + ds;
  }

  /** The flags and the log after one contract. */
  lemma ContractIsReviewed(h: Sha256, b: Basis, ms: seq<Message>, at: nat, i: nat, st: TxState)
    requires ContractsReviewed(b, ms, at, i, st) && ValidRing(st.node.ring) && at + i < |ms|
    requires !ContractStep(h, st, ms[at + i]).Refused?
    ensures ContractsSent(ms, at, i + 1)
    ensures
      var o, contracts := ContractStep(h, st, ms[at + i]), ContractDecision(ms, at, i + 1);
      Finishes(h, ReviewIn(b.nodes, b.wellFormed, contracts), o) && LastScreen(o.st.log) == ScreenBy(if Defers(b.nodes) then contracts else b.nodes) &&
      Unbound(o.st.log) == b.calls + ContractCalls(ms, at, i + 1)
  {
    hide ContractStep, Unbound, LastScreen, ContractCalls, ContractDecision, ReviewIn, FirstOf, ScreenBy, Defers, Finishes, Discloses;
    ContractStepReviewed(h, st, ms[at + i], b.nodes, b.wellFormed, ContractDecision(ms, at, i));
    OneMoreContract(ms, at, i);
    CallsAssoc(b.calls, ContractCalls(ms, at, i), Discloses(ms[at + i].contract.value));
  }

  lemma OneMoreContract(ms: seq<Message>, at: nat, i: nat)
    requires ContractsSent(ms, at, i) && at + i < |ms| && ms[at + i].contract.Some?
    ensures ContractsSent(ms, at, i + 1) && ContractCalls(ms, at, i + 1) == ContractCalls(ms, at, i) + Discloses(ms[at + i].contract.value)
    ensures ContractDecision(ms, at, i + 1) == FirstOf(ContractDecision(ms, at, i), ms[at + i].display)
  {
    hide Discloses;
  }

  lemma CallsAssoc(a: seq<Event>, b: seq<Event>, c: seq<Event>)
    ensures (a + b) + c == a + (b + c)
  {
  }

  // ------------------------------------------------------------------ every run

  lemma {:induction false} RunIsReviewed(h: Sha256, start: TxState, ms: seq<Message>, k: nat)
    requires Starts(start) && k <= |ms| && After(h, start, ms, k).Continue?
    ensures Reviewed(h, start, ms, After(h, start, ms, k).st)
    decreases k
  {
    hide *;
    if k == 0 {
      StartIsReviewed(h, start, ms);
    } else {
      var j := k - 1;
      EarlierContinues(h, start, ms, j);
      RunIsReviewed(h, start, ms, j);
      StepIsReviewed(h, start, ms, j);
    }
  }

  lemma StartIsReviewed(h: Sha256, start: TxState, ms: seq<Message>)
    requires Starts(start)
    ensures After(h, start, ms, 0) == Continue(start) && Reviewed(h, start, ms, start)
  {
  }

  lemma FromHeader(h: Sha256, start: TxState, ms: seq<Message>, k: nat, st: TxState)
    requires Starts(start) && k < |ms| && st.phase == RECEIVING_DAML_TX_PART && Shape(h, start, ms, k, st)
    requires !HeaderStep(st, ms[k]).Refused? && HeaderStep(st, ms[k]).st.templates == st.templates
    ensures Reviewed(h, start, ms, HeaderStep(st, ms[k]).st)
  {
    hide HeaderStep, Reviewed, Starts, NodesFollow, ContractShape;
    HeaderIsReviewed(h, start, ms);
  }

  lemma FromNode(h: Sha256, start: TxState, ms: seq<Message>, k: nat, st: TxState)
    requires k < |ms| && st.phase == RECEIVING_DAML_NODES && Shape(h, start, ms, k, st) && ValidRing(st.node.ring) && Reviewed(h, start, ms, st)
    requires NodeMessageStep(h, st, ms[k]).Continue? && NodeMessageStep(h, st, ms[k]).st.templates == st.templates
    ensures Reviewed(h, start, ms, NodeMessageStep(h, st, ms[k]).st)
  {
    hide NodeMessageStep, NodeStep, PartParses, NodesFollow, NodesReviewed, NodesSent, HeaderNode, ValidRing, IsComplete;
    NodeEffects(h, st, ms[k]);
    ShapeAfterNode(h, start, ms, k, st);
    NodeIsReviewed(h, start, ms, st.recvIdx, st);
  }

  lemma FromMetadata(h: Sha256, start: TxState, ms: seq<Message>, k: nat, st: TxState)
    requires k < |ms| && st.phase == RECEIVING_METADATA && Shape(h, start, ms, k, st) && ValidRing(st.node.ring) && Reviewed(h, start, ms, st)
    requires !MetadataStep(h, st, ms[k]).Refused?
    ensures 0 <= st.header.nodesCount && k == 1 + st.header.nodesCount
    ensures
      var b, o := BasisOf(h, start, ms, st.header.nodesCount), MetadataStep(h, st, ms[k]);
      Finishes(h, ReviewIn(b.nodes, b.wellFormed, None), o) && LastScreen(o.st.log) == ScreenBy(if Defers(b.nodes) then None else b.nodes) &&
      Unbound(o.st.log) == b.calls
  {
    hide MetadataStep, NodesFollow, NodeSession, NodeDecision, NodeCalls, WellFormed, Finishes, ReviewIn, ReviewBy, ScreenBy, Unbound,
         LastScreen, Session.Parses, Session.State, NodesSent, Verify;
    MetadataShape(h, start, ms, k, st);
    var n := st.header.nodesCount;
    NodesFollowMeaning(h, start, ms, n, st.node);
    WellFormedIff(NodeSession(h, start, ms, n));
    MetadataIsReviewed(h, WellFormed(NodeSession(h, start, ms, n)), NodeDecision(h, start, ms, n), st, ms[k]);
  }

  /** One more message that does not end the run. */
  lemma StepIsReviewed(h: Sha256, start: TxState, ms: seq<Message>, k: nat)
    requires Starts(start) && k < |ms| && After(h, start, ms, k).Continue? && After(h, start, ms, k + 1).Continue?
    requires Reviewed(h, start, ms, After(h, start, ms, k).st)
    ensures Reviewed(h, start, ms, After(h, start, ms, k + 1).st)
  {
    hide After, HeaderStep, NodeMessageStep, MetadataStep, ContractStep, Shape, Reviewed, Starts, ValidRing;
    var st := After(h, start, ms, k).st;
    StepDispatch(h, start, ms, k);
    TemplatesStay(h, st, ms[k]);
    RunHasShape(h, start, ms, k);
    match st.phase {
      case RECEIVING_DAML_TX_PART => FromHeader(h, start, ms, k, st);
      case RECEIVING_DAML_NODES => FromNode(h, start, ms, k, st);
      case RECEIVING_METADATA => MetadataGoesOn(h, start, ms, k, st);
      case RECEIVING_METADATA_INPUT_CONTRACTS => ContractGoesOn(h, start, ms, k, st);
    }
  }

  lemma MetadataGoesOn(h: Sha256, start: TxState, ms: seq<Message>, k: nat, st: TxState)
    requires k < |ms| && st.phase == RECEIVING_METADATA && Shape(h, start, ms, k, st) && ValidRing(st.node.ring) && Reviewed(h, start, ms, st)
    requires MetadataStep(h, st, ms[k]).Continue?
    ensures Reviewed(h, start, ms, MetadataStep(h, st, ms[k]).st)
  {
    hide MetadataStep, BasisOf, ReviewIn, Unbound, LastScreen, NodesReviewed, Shape, Verify, FeedMetadata, ScreenBy, Defers, IsImpossible;
    FromMetadata(h, start, ms, k, st);
    MetadataEffects(h, st, ms[k]);
    NoContractsYet(ms, st.header.nodesCount + 2);
    var b := BasisOf(h, start, ms, st.header.nodesCount);
    assert b.calls + [] == b.calls;
  }

  lemma NoContractsYet(ms: seq<Message>, at: nat)
    ensures at <= |ms| ==> ContractsSent(ms, at, 0) && ContractCalls(ms, at, 0) == [] && ContractDecision(ms, at, 0) == None
  {
  }

  lemma ContractGoesOn(h: Sha256, start: TxState, ms: seq<Message>, k: nat, st: TxState)
    requires k < |ms| && st.phase == RECEIVING_METADATA_INPUT_CONTRACTS && Shape(h, start, ms, k, st) && ValidRing(st.node.ring) && Reviewed(h, start, ms, st)
    requires ContractStep(h, st, ms[k]).Continue?
    ensures Reviewed(h, start, ms, ContractStep(h, st, ms[k]).st)
  {
    hide *;
    ContractPhaseParts(h, start, ms, k, st);
    ContractEffects(h, st, ms[k]);
    ContractIsReviewed(h, BasisOf(h, start, ms, st.header.nodesCount), ms, st.header.nodesCount + 2, st.recvIdx, st);
    ContractPhaseOf(h, start, ms, ContractStep(h, st, ms[k]));
  }

  lemma ContractPhaseParts(h: Sha256, start: TxState, ms: seq<Message>, k: nat, st: TxState)
    requires st.phase == RECEIVING_METADATA_INPUT_CONTRACTS && Shape(h, start, ms, k, st) && Reviewed(h, start, ms, st)
    ensures 0 <= st.header.nodesCount && 0 <= st.recvIdx && k == st.header.nodesCount + 2 + st.recvIdx
    ensures ContractsReviewed(BasisOf(h, start, ms, st.header.nodesCount), ms, st.header.nodesCount + 2, st.recvIdx, st)
  {
    hide ContractsReviewed, BasisOf, NodesDone, ContractsFollow;
  }

  lemma ContractPhaseOf(h: Sha256, start: TxState, ms: seq<Message>, o: Outcome)
    requires o.Continue? && o.st.phase == RECEIVING_METADATA_INPUT_CONTRACTS && 0 <= o.st.header.nodesCount && 0 < o.st.recvIdx
    requires ContractsSent(ms, o.st.header.nodesCount + 2, o.st.recvIdx)
    requires
      var b, contracts := BasisOf(h, start, ms, o.st.header.nodesCount), ContractDecision(ms, o.st.header.nodesCount + 2, o.st.recvIdx);
      Finishes(h, ReviewIn(b.nodes, b.wellFormed, contracts), o) && LastScreen(o.st.log) == ScreenBy(if Defers(b.nodes) then contracts else b.nodes) &&
      Unbound(o.st.log) == b.calls + ContractCalls(ms, o.st.header.nodesCount + 2, o.st.recvIdx)
    ensures Reviewed(h, start, ms, o.st)
  {
    hide BasisOf, ReviewIn, ScreenBy, Defers, Unbound, LastScreen, ContractDecision, ContractCalls;
  }

  // ------------------------------------------------------------------ clear signing, exactly

  /** The flags and the log of the last message, in terms of the decisions. */
  lemma FinalReview(h: Sha256, b: Basis, contracts: Option<Display>, o: Outcome)
    requires o.Finalized? && Finishes(h, ReviewIn(b.nodes, b.wellFormed, contracts), o) && (contracts.Some? ==> !contracts.value.NoScreen?)
    requires LastScreen(o.st.log) == ScreenBy(if Defers(b.nodes) then contracts else b.nodes)
    ensures
      var s := ScreenLeft(b.nodes, b.wellFormed, contracts);
      (o.st.review.clear <==> s.Some? && Clears(h, Unbound(o.st.log) + [BindEvent(s.value)])) && (o.st.review.clear ==> LastScreen(o.st.log) == s)
  {
    hide Run, Verdict, Clears, Unbound, LastScreen;
    VerdictIsSpecification(h, o.st.log);
    var s := ScreenLeft(b.nodes, b.wellFormed, contracts);
    if s.Some? {
      ClearsUnbound(h, o.st.log, s.value);
    }
  }

  /** The last message of a run, after n nodes and c contracts. */
  ghost predicate EndsWith(h: Sha256, start: TxState, ms: seq<Message>, n: nat, c: nat, o: Outcome)
  {
    n + 2 + c == |ms| && NodesSent(ms, n) && n == Nodes(ms) && Announces(ms, n) && ContractsSent(ms, n + 2, c) &&
    FinalState(h, BasisOf(h, start, ms, n), ContractDecision(ms, n + 2, c), ContractCalls(ms, n + 2, c), o)
  }

  predicate Announces(ms: seq<Message>, n: nat) { |ms| > 0 && ms[0].header.Some? && ms[0].header.value.nodesCount == n }

  ghost predicate FinalState(h: Sha256, b: Basis, contracts: Option<Display>, disclosed: seq<Event>, o: Outcome)
  {
    !o.Refused? && Finishes(h, ReviewIn(b.nodes, b.wellFormed, contracts), o) &&
    LastScreen(o.st.log) == ScreenBy(if Defers(b.nodes) then contracts else b.nodes) && Unbound(o.st.log) == b.calls + disclosed
  }

  lemma MetadataEnds(h: Sha256, start: TxState, ms: seq<Message>, k: nat, st: TxState)
    requires k + 1 == |ms| && st.phase == RECEIVING_METADATA && Shape(h, start, ms, k, st) && ValidRing(st.node.ring) && Reviewed(h, start, ms, st)
    requires !MetadataStep(h, st, ms[k]).Refused?
    ensures 0 <= st.header.nodesCount && EndsWith(h, start, ms, st.header.nodesCount, 0, MetadataStep(h, st, ms[k]))
  {
    hide MetadataStep, Shape, Reviewed, BasisOf, ReviewIn, ScreenBy, Defers, Unbound, LastScreen, ContractDecision, ContractCalls, Finishes, Verify;
    HeaderArrived(h, start, ms, k, st);
    FromMetadata(h, start, ms, k, st);
    NoContractsYet(ms, st.header.nodesCount + 2);
    var b := BasisOf(h, start, ms, st.header.nodesCount);
    assert b.calls + [] == b.calls;
  }

  lemma ContractEnds(h: Sha256, start: TxState, ms: seq<Message>, k: nat, st: TxState)
    requires k + 1 == |ms| && st.phase == RECEIVING_METADATA_INPUT_CONTRACTS && Shape(h, start, ms, k, st) && ValidRing(st.node.ring)
    requires Reviewed(h, start, ms, st) && !ContractStep(h, st, ms[k]).Refused?
    ensures 0 <= st.header.nodesCount && 0 <= st.recvIdx && EndsWith(h, start, ms, st.header.nodesCount, st.recvIdx + 1, ContractStep(h, st, ms[k]))
  {
    hide ContractStep, Shape, Reviewed, BasisOf, ReviewIn, ScreenBy, Defers, Unbound, LastScreen, ContractDecision, ContractCalls, Finishes, ContractsReviewed;
    HeaderArrived(h, start, ms, k, st);
    ContractPhaseParts(h, start, ms, k, st);
    ContractIsReviewed(h, BasisOf(h, start, ms, st.header.nodesCount), ms, st.header.nodesCount + 2, st.recvIdx, st);
  }

  lemma HeaderArrived(h: Sha256, start: TxState, ms: seq<Message>, k: nat, st: TxState)
    requires Shape(h, start, ms, k, st) && (st.phase == RECEIVING_METADATA || st.phase == RECEIVING_METADATA_INPUT_CONTRACTS)
    ensures 0 <= st.header.nodesCount && NodesSent(ms, st.header.nodesCount) && st.header == ms[0].header.value
  {
    hide HeaderNode, Session.State, Session.Parses, ContractsFollow;
  }

  lemma LastMessage(h: Sha256, start: TxState, ms: seq<Message>) returns (n: nat, c: nat)
    requires Finalizes(h, start, ms)
    ensures EndsWith(h, start, ms, n, c, After(h, start, ms, |ms|))
  {
    hide After, HeaderStep, NodeMessageStep, MetadataStep, ContractStep, Shape, Reviewed, EndsWith, Starts, ValidRing;
    var k := |ms| - 1;
    var st := After(h, start, ms, k).st;
    StepDispatch(h, start, ms, k);
    RunHasShape(h, start, ms, k);
    RunIsReviewed(h, start, ms, k);
    match st.phase {
      case RECEIVING_DAML_TX_PART => HeaderEffects(st, ms[k]);
      case RECEIVING_DAML_NODES => NodeEffects(h, st, ms[k]);
      case RECEIVING_METADATA =>
        MetadataEnds(h, start, ms, k, st);
        n, c := st.header.nodesCount, 0;
      case RECEIVING_METADATA_INPUT_CONTRACTS =>
        ContractEnds(h, start, ms, k, st);
        n, c := st.header.nodesCount, st.recvIdx + 1;
    }
  }

  /** The end of a run says which messages came, and what they leave. */
  lemma EndMeaning(h: Sha256, start: TxState, ms: seq<Message>, n: nat, c: nat, o: Outcome)
    requires EndsWith(h, start, ms, n, c, o) && o.Finalized?
    ensures InOrder(ms) && n == Nodes(ms) && c == |ms| - n - 2
    ensures
      var s := ScreenOfRun(h, start, ms);
      (o.st.review.clear <==> s.Some? && Clears(h, CallsOfRun(h, start, ms) + [BindEvent(s.value)])) && (o.st.review.clear ==> LastScreen(o.st.log) == s)
  {
    hide Clears, NodeDecision, NodeCalls, ContractDecision, ContractCalls, NodeSession, WellFormed, Finishes, ReviewIn, ScreenBy,
         Defers, Unbound, LastScreen, ScreenLeft;
    FinalReview(h, BasisOf(h, start, ms, n), ContractDecision(ms, n + 2, c), o);
  }

  /** Clear signing is left on at the finalization if and only if the messages leave a screen to show, and
      the value predicate holds of it and of everything they report. */
  lemma ClearSigningIff(h: Sha256, start: TxState, ms: seq<Message>)
    requires Finalizes(h, start, ms)
    ensures InOrder(ms)
    ensures
      var st, s := After(h, start, ms, |ms|).st, ScreenOfRun(h, start, ms);
      (st.review.clear <==> s.Some? && Clears(h, CallsOfRun(h, start, ms) + [BindEvent(s.value)])) && (st.review.clear ==> LastScreen(st.log) == s)
  {
    hide After, EndsWith, InOrder, ScreenOfRun, CallsOfRun, Clears, LastScreen;
    var n, c := LastMessage(h, start, ms);
    EndMeaning(h, start, ms, n, c, After(h, start, ms, |ms|));
  }

  /** A screen that no node defers is clear signed only over a well-formed tree, and a true value verdict. */
  lemma DirectScreenNeedsTree(h: Sha256, start: TxState, ms: seq<Message>)
    requires Finalizes(h, start, ms) && After(h, start, ms, |ms|).st.review.clear
    ensures InOrder(ms) && ScreenOfRun(h, start, ms).Some? && Clears(h, CallsOfRun(h, start, ms) + [BindEvent(ScreenOfRun(h, start, ms).value)])
    ensures Defers(NodeDecision(h, start, ms, Nodes(ms))) || After(h, start, ms, |ms|).st.node.tree.err == TREE_OK
  {
    hide After, Clears, NodeDecision, NodeSession, WellFormed, CallsOfRun, ContractDecision;
    ClearSigningIff(h, start, ms);
    TreeOfRun(h, start, ms);
  }

  /** The tree verdict of a finalized run is that of its nodes. */
  lemma TreeOfRun(h: Sha256, start: TxState, ms: seq<Message>)
    requires Finalizes(h, start, ms) && InOrder(ms)
    ensures After(h, start, ms, |ms|).st.node.tree.err == TREE_OK <==> WellFormed(NodeSession(h, start, ms, Nodes(ms)))
  {
    hide After, WellFormed, Verify, ContractsFollow, Session.State, Session.Parses;
    FinalizedRunIsComplete(h, start, ms);
    WellFormedIff(NodeSession(h, start, ms, Nodes(ms)));
  }

  ghost predicate Decides(h: Sha256, start: TxState, ms: seq<Message>, i: nat)
  {
    NodesSent(ms, i) && ms[i].display != NoScreen(false) && TreeGood(NodeSession(h, start, ms, i))
  }

  /** The nodes' decision is the first display that has something to show while the tree is good. */
  lemma {:induction false} NodeDecisionIsFirst(h: Sha256, start: TxState, ms: seq<Message>, n: nat) returns (i: nat)
    requires NodesSent(ms, n)
    ensures if NodeDecision(h, start, ms, n).None? then forall j :: 1 <= j <= n ==> !Decides(h, start, ms, j)
      else 1 <= i <= n && Decides(h, start, ms, i) && ms[i].display == NodeDecision(h, start, ms, n).value && forall j :: 1 <= j < i ==> !Decides(h, start, ms, j)
  {
    hide TreeGood, NodeSession;
    i := n;
    if n > 0 {
      var before := NodeDecisionIsFirst(h, start, ms, n - 1);
      if NodeDecision(h, start, ms, n - 1).Some? {
        i := before;
      }
    }
  }

  lemma {:induction false} ContractDecisionIsFirst(ms: seq<Message>, at: nat, c: nat) returns (i: nat)
    requires at + c <= |ms|
    ensures if ContractDecision(ms, at, c).None? then forall j :: at <= j < at + c ==> ms[j].display.NoScreen?
      else at <= i < at + c && ms[i].display == ContractDecision(ms, at, c).value && forall j :: at <= j < i ==> ms[j].display.NoScreen?
  {
    i := at + c;
    if c > 0 {
      var before := ContractDecisionIsFirst(ms, at, c - 1);
      i := if ContractDecision(ms, at, c - 1).Some? then before else at + c - 1;
    }
  }

  /** The screen a clear-signed transaction shows is one a message populated, and the one its values were
      compared with. */
  lemma ShownScreenIsChecked(h: Sha256, start: TxState, ms: seq<Message>)
    requires Finalizes(h, start, ms) && After(h, start, ms, |ms|).st.review.clear
    ensures exists j :: 0 <= j < |ms| && ms[j].display.Populates? && LastScreen(After(h, start, ms, |ms|).st.log) == Some(ms[j].display.screen)
  {
    hide After, Clears, CallsOfRun, LastScreen, ScreenOfRun, InOrder;
    ClearSigningIff(h, start, ms);
    ScreenIsPopulated(h, start, ms);
  }

  lemma ScreenIsPopulated(h: Sha256, start: TxState, ms: seq<Message>)
    requires InOrder(ms) && ScreenOfRun(h, start, ms).Some?
    ensures exists j :: 0 <= j < |ms| && ms[j].display.Populates? && ScreenOfRun(h, start, ms) == Some(ms[j].display.screen)
  {
    hide *;
    var n := Nodes(ms);
    OrderParts(ms);
    var nodes, contracts := NodeDecision(h, start, ms, n), ContractDecision(ms, n + 2, |ms| - n - 2);
    ScreenParts(h, start, ms);
    var i := NodeDecisionIsFirst(h, start, ms, n);
    var j := ContractDecisionIsFirst(ms, n + 2, |ms| - n - 2);
    var at := if Defers(nodes) then j else i;
    assert ms[at].display.Populates?;
  }

  lemma OrderParts(ms: seq<Message>)
    requires InOrder(ms)
    ensures Nodes(ms) + 2 <= |ms| && NodesSent(ms, Nodes(ms)) && ContractsSent(ms, Nodes(ms) + 2, |ms| - Nodes(ms) - 2)
  {
  }

  lemma ScreenParts(h: Sha256, start: TxState, ms: seq<Message>)
    requires InOrder(ms) && ScreenOfRun(h, start, ms).Some?
    ensures
      var nodes, contracts := NodeDecision(h, start, ms, Nodes(ms)), ContractDecision(ms, Nodes(ms) + 2, |ms| - Nodes(ms) - 2);
      var d := if Defers(nodes) then contracts else nodes;
      d.Some? && d.value == Populates(ScreenOfRun(h, start, ms).value)
  {
    hide NodeDecision, NodeSession, WellFormed, ContractDecision;
  }
}
