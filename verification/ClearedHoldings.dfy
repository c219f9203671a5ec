/** End to end: what a clear-signed transaction creates is what its screen says. */
module ClearedHoldings {
  import opened Bytes
  import opened CanonicalValue
  import opened HashWriter
  import opened CanonicalNode
  import opened NodePhase
  import opened ValuesCheck
  import opened ValuesVerdict
  import opened HoldingWalk
  import opened HoldingLookup
  import opened CanonicalMetadata
  import opened PreparedTransaction
  import opened TransactionRuns
  import opened ClearSigning

  /** The holding a create writes is accounted for: the template is listed, the walk found one holding, and
      it is among those the screen was compared with. */
  ghost predicate Accounted(h: Sha256, templates: Templates, m: Message, ns: seq<Note>)
  {
    m.node.Some? && (m.node.value.body.Create? ==>
      var c := m.node.value.body.create;
      match Classify(templates, c.templateId)
      case Unlisted => false
      case HoldsNothing => true
      case HoldsValue(cfg) => Found(h, cfg, c.argument, ns))
  }

  /** By the walk; and where labels and paths are within bounds, by the look-up of the configured paths. */
  ghost predicate Found(h: Sha256, cfg: Config, argument: Value, ns: seq<Note>)
  {
    (exists note :: note in ns && CollectCreate(h, cfg, argument) == ReportEvent(note)) &&
    (GoodConfig(cfg) && WellLabelled(1, FieldsOf(argument)) && AllFit(Looks([], 1, FieldsOf(argument))) ==>
      Resolves(cfg, argument) && HoldingAt(h, cfg, argument) in ns)
  }

  // ------------------------------------------------------------------ what a calm log contains

  lemma {:induction false} NotesContain(es: seq<Event>, e: Event)
    requires e in es
    ensures e.ReportEvent? ==> e.note in Notes(es)
    ensures !e.ReportEvent? ==> e in Others(es)
  {
    var k := |es| - 1;
    if e != es[k] {
      assert es == es[..k] + [es[k]];
      NotesContain(es[..k], e);
    }
  }

  lemma GivingUpIsNotCalm(h: Sha256, es: seq<Event>, i: nat)
    requires i < |es| && es[i] == GiveUpEvent
    ensures !Calm(h, es)
  {
    hide UsedDigests;
    assert !CalmCall(UsedDigests(h, es[..i]), h, es[i]);
  }

  lemma CalmNeverGivesUp(h: Sha256, es: seq<Event>)
    ensures Calm(h, Others(es)) ==> GiveUpEvent !in es
  {
    hide Calm, Others;
    if GiveUpEvent in es {
      NotesContain(es, GiveUpEvent);
      var i :| 0 <= i < |Others(es)| && Others(es)[i] == GiveUpEvent;
      GivingUpIsNotCalm(h, Others(es), i);
    }
  }

  lemma {:induction false} CallsContain(h: Sha256, templates: Templates, ms: seq<Message>, n: nat, i: nat, e: Event)
    requires NodesSent(ms, n) && 1 <= i <= n && e in Findings(h, templates, ms[i].node.value.body, ms[i])
    ensures e in NodeCalls(h, templates, ms, n)
  {
    hide Findings;
    if i < n {
      CallsContain(h, templates, ms, n - 1, i, e);
    }
  }

  // ------------------------------------------------------------------ the theorem

  lemma CreateIsAccounted(h: Sha256, templates: Templates, m: Message, es: seq<Event>)
    requires m.node.Some? && (forall e :: e in Findings(h, templates, m.node.value.body, m) ==> e in es) && GiveUpEvent !in es
    ensures Accounted(h, templates, m, Notes(es))
  {
    hide CollectCreate, Resolves, GoodConfig, WellLabelled, AllFit, Looks, HoldingAt, Notes;
    var body := m.node.value.body;
    if body.Create? {
      var c := body.create;
      var reports := Reports(h, templates, body, m.fits);
      assert forall e :: e in reports ==> e in UsesOf(body, m.room) + reports;
      assert Classify(templates, c.templateId).Unlisted? ==> GiveUpEvent in reports;
      match Classify(templates, c.templateId) {
        case Unlisted =>
        case HoldsNothing =>
        case HoldsValue(cfg) =>
          assert reports[0] in es;
          NotesContain(es, reports[0]);
          if GoodConfig(cfg) && WellLabelled(1, FieldsOf(c.argument)) && AllFit(Looks([], 1, FieldsOf(c.argument))) {
            HoldingIsLookup(h, cfg, c.argument);
          }
      }
    }
  }

  /** Clear signing implies that every contract the nodes create is listed, that its holding, looked up by
      the configured paths, was found, and that the screen agrees with all the holdings there are. */
  lemma ClearedHoldingsAgree(h: Sha256, start: TxState, ms: seq<Message>)
    requires Finalizes(h, start, ms) && After(h, start, ms, |ms|).st.review.clear
    ensures InOrder(ms) && ScreenOfRun(h, start, ms).Some? && Matches(Notes(CallsOfRun(h, start, ms)), ScreenOfRun(h, start, ms).value)
    ensures forall i :: 1 <= i <= Nodes(ms) ==> Accounted(h, start.templates, ms[i], Notes(CallsOfRun(h, start, ms)))
  {
    hide After, InOrder, ScreenOfRun, CallsOfRun, Accounted, Matches, Calm, Notes, Others, FewOfOneKind;
    ClearSigningIff(h, start, ms);
    var calls, s := CallsOfRun(h, start, ms), ScreenOfRun(h, start, ms).value;
    OneMoreCall(calls, BindEvent(s));
    BindIsLast(calls, s);
    CalmWithoutBind(h, Others(calls), BindEvent(s));
    CalmNeverGivesUp(h, calls);
    OrderParts(ms);
    forall i | 1 <= i <= Nodes(ms)
      ensures Accounted(h, start.templates, ms[i], Notes(calls))
    {
      FindingsAreCalls(h, start, ms, i);
      CreateIsAccounted(h, start.templates, ms[i], calls);
    }
  }

  lemma BindIsLast(es: seq<Event>, s: Screen)
    ensures LastScreen(es + [BindEvent(s)]) == Some(s)
  {
  }

  lemma CalmWithoutBind(h: Sha256, es: seq<Event>, e: Event)
    requires e.BindEvent? && Calm(h, es + [e])
    ensures Calm(h, es)
  {
    hide Calm;
    CalmStep(h, es, e);
  }

  lemma FindingsAreCalls(h: Sha256, start: TxState, ms: seq<Message>, i: nat)
    requires InOrder(ms) && 1 <= i <= Nodes(ms)
    ensures ms[i].node.Some? && forall e :: e in Findings(h, start.templates, ms[i].node.value.body, ms[i]) ==> e in CallsOfRun(h, start, ms)
  {
    hide Findings, NodeCalls, ContractCalls;
    forall e | e in Findings(h, start.templates, ms[i].node.value.body, ms[i])
      ensures e in CallsOfRun(h, start, ms)
    {
      CallsContain(h, start.templates, ms, Nodes(ms), i, e);
    }
  }

  // ------------------------------------------------------------------ the holdings, in order

  /** The node creates a contract of a template that keeps a holding. */
  predicate HoldsIn(templates: Templates, m: Message)
  {
    m.node.Some? && m.node.value.body.Create? && m.node.value.body.create.templateId.Some? &&
    templates(m.node.value.body.create.templateId.value).HoldsValue?
  }

  /** The note is the holding of that create. */
  ghost predicate IsNoteOf(h: Sha256, templates: Templates, m: Message, note: Note)
  {
    HoldsIn(templates, m) &&
    CollectCreate(h, templates(m.node.value.body.create.templateId.value).cfg, m.node.value.body.create.argument) == ReportEvent(note)
  }

  /** The notes are the holdings of the creates at these positions, and no other create keeps one. */
  ghost predicate NotedAt(h: Sha256, templates: Templates, ms: seq<Message>, n: nat, at: seq<nat>, ns: seq<Note>)
  {
    n < |ms| && |at| == |ns| && (forall j :: 0 <= j < |at| ==> 1 <= at[j] <= n && IsNoteOf(h, templates, ms[at[j]], ns[j])) &&
    (forall j, k :: 0 <= j < k < |at| ==> at[j] < at[k]) &&
    forall i :: 1 <= i <= n && HoldsIn(templates, ms[i]) ==> i in at
  }

  lemma {:induction false} NotesConcat(a: seq<Event>, b: seq<Event>)
    ensures Notes(a + b) == Notes(a) + Notes(b)
    decreases |b|
  {
    if |b| == 0 {
      assert a + b == a;
    } else {
      var k := |b| - 1;
      assert (a + b)[..|a + b| - 1] == a + b[..k];
      NotesConcat(a, b[..k]);
    }
  }

  lemma NoNotes(es: seq<Event>)
    requires forall i :: 0 <= i < |es| ==> !es[i].ReportEvent?
    ensures Notes(es) == []
    decreases |es|
  {
    if |es| > 0 {
      NoNotes(es[..|es| - 1]);
    }
  }

  /** One node adds the holding it keeps, and nothing otherwise. */
  lemma FindingsNote(h: Sha256, templates: Templates, m: Message)
    requires m.node.Some? && GiveUpEvent !in Findings(h, templates, m.node.value.body, m)
    ensures
      var ns := Notes(Findings(h, templates, m.node.value.body, m));
      if HoldsIn(templates, m) then |ns| == 1 && IsNoteOf(h, templates, m, ns[0]) else ns == []
  {
    hide CollectCreate, Notes;
    var body := m.node.value.body;
    var uses, reports := UsesOf(body, m.room), Reports(h, templates, body, m.fits);
    NotesConcat(uses, reports);
    NoNotes(uses);
    assert forall e :: e in reports ==> e in uses + reports;
    if reports != [] {
      assert reports == [reports[0]] && reports[0] in reports;
      OneNote(reports[0]);
    } else {
      NoNotes(reports);
    }
  }

  lemma OneNote(e: Event)
    ensures Notes([e]) == if e.ReportEvent? then [e.note] else []
  {
    assert [e][..0] == [];
  }

  lemma {:induction false} NodesNote(h: Sha256, templates: Templates, ms: seq<Message>, n: nat) returns (at: seq<nat>)
    requires NodesSent(ms, n) && GiveUpEvent !in NodeCalls(h, templates, ms, n)
    ensures NotedAt(h, templates, ms, n, at, Notes(NodeCalls(h, templates, ms, n)))
  {
    hide Findings, Notes, IsNoteOf, HoldsIn;
    if n == 0 {
      at := [];
      NoNotes([]);
    } else {
      var before, last := NodeCalls(h, templates, ms, n - 1), Findings(h, templates, ms[n].node.value.body, ms[n]);
      assert forall e :: e in before || e in last ==> e in before + last;
      at := NodesNote(h, templates, ms, n - 1);
      FindingsNote(h, templates, ms[n]);
      NotesConcat(before, last);
      if HoldsIn(templates, ms[n]) {
        at := at + [n];
      }
    }
  }

  lemma {:induction false} ContractsNoteNothing(ms: seq<Message>, at: nat, c: nat)
    requires ContractsSent(ms, at, c)
    ensures forall i :: 0 <= i < |ContractCalls(ms, at, c)| ==> !ContractCalls(ms, at, c)[i].ReportEvent?
  {
    if c > 0 {
      ContractsNoteNothing(ms, at, c - 1);
    }
  }

  /** Clear signing implies that the holdings the screen agrees with are exactly those of the creates that keep
      one, one for each and in their order. */
  lemma ClearedHoldingsInOrder(h: Sha256, start: TxState, ms: seq<Message>) returns (at: seq<nat>)
    requires Finalizes(h, start, ms) && After(h, start, ms, |ms|).st.review.clear
    ensures InOrder(ms) && NotedAt(h, start.templates, ms, Nodes(ms), at, Notes(CallsOfRun(h, start, ms)))
  {
    hide *;
    ClearedIsCalm(h, start, ms);
    CalmNeverGivesUp(h, CallsOfRun(h, start, ms));
    OrderParts(ms);
    CallsParts(h, start, ms);
    var nodes, contracts := NodeCalls(h, start.templates, ms, Nodes(ms)), ContractCalls(ms, Nodes(ms) + 2, |ms| - Nodes(ms) - 2);
    assert GiveUpEvent !in nodes;
    at := NodesNote(h, start.templates, ms, Nodes(ms));
    ContractsNoteNothing(ms, Nodes(ms) + 2, |ms| - Nodes(ms) - 2);
    NoNotes(contracts);
    NotesConcat(nodes, contracts);
    assert Notes(nodes) + [] == Notes(nodes);
  }

  // ------------------------------------------------------------------ disclosed contracts

  /** The node creates, exercises or fetches a contract whose hash starts with these eight bytes. */
  predicate NodeActsOn(h: Sha256, m: Message, d: Digest)
  {
    m.node.Some? &&
    match m.node.value.body
    case Create(c) => c.contractId.Some? && d == h(c.contractId.value)[..8]
    case Exercise(e, _) => e.contractId.Some? && d == h(e.contractId.value)[..8]
    case Fetch(f) => f.contractId.Some? && d == h(f.contractId.value)[..8]
    case _ => false
  }

  lemma UsesConcat(h: Sha256, a: seq<Event>, b: seq<Event>, d: Digest)
    ensures Uses(h, a + b, d) <==> Uses(h, a, d) || Uses(h, b, d)
  {
    hide ActsOn;
    var c := a + b;
    assert forall i :: 0 <= i < |a| ==> c[i] == a[i];
    assert forall i :: 0 <= i < |b| ==> c[|a| + i] == b[i];
    assert forall i :: |a| <= i < |c| ==> c[i] == b[i - |a|];
  }

  lemma FindingsUse(h: Sha256, templates: Templates, m: Message, d: Digest)
    requires m.node.Some?
    ensures Uses(h, Findings(h, templates, m.node.value.body, m), d) <==> NodeActsOn(h, m, d)
  {
    hide CollectCreate, Classify;
    var body := m.node.value.body;
    var uses, reports := UsesOf(body, m.room), Reports(h, templates, body, m.fits);
    UsesConcat(h, uses, reports, d);
    assert !Uses(h, reports, d) by { NoUseReported(h, templates, body, m.fits); }
    assert uses != [] ==> uses == [uses[0]] && (Uses(h, uses, d) <==> ActsOn(h, uses[0], d));
  }

  lemma NoUseReported(h: Sha256, templates: Templates, body: NodeBody, fits: bool)
    ensures forall i :: 0 <= i < |Reports(h, templates, body, fits)| ==> !Reports(h, templates, body, fits)[i].UseEvent?
  {
    hide Classify;
    if body.Create? && Classify(templates, body.create.templateId).HoldsValue? {
      CollectIsNoUse(h, Classify(templates, body.create.templateId).cfg, body.create.argument);
    }
  }

  lemma CollectIsNoUse(h: Sha256, cfg: Config, argument: Value)
    ensures !CollectCreate(h, cfg, argument).UseEvent?
  {
  }

  /** The contracts the nodes are recorded to act on are those of the creates, exercises and fetches. */
  lemma {:induction false} NodesActOn(h: Sha256, templates: Templates, ms: seq<Message>, n: nat, d: Digest)
    requires NodesSent(ms, n)
    ensures Uses(h, NodeCalls(h, templates, ms, n), d) <==> exists j :: 1 <= j <= n && NodeActsOn(h, ms[j], d)
  {
    hide Findings, NodeActsOn, Uses;
    if n == 0 {
      NothingUsed(h, d);
    } else {
      NodesActOn(h, templates, ms, n - 1, d);
      FindingsUse(h, templates, ms[n], d);
      UsesConcat(h, NodeCalls(h, templates, ms, n - 1), Findings(h, templates, ms[n].node.value.body, ms[n]), d);
    }
  }

  lemma {:induction false} ContractsUseNothing(h: Sha256, ms: seq<Message>, at: nat, c: nat, d: Digest)
    requires ContractsSent(ms, at, c)
    ensures !Uses(h, ContractCalls(ms, at, c), d)
  {
    hide Uses;
    if c == 0 {
      NothingUsed(h, d);
    } else {
      ContractsUseNothing(h, ms, at, c - 1, d);
      DisclosureUsesNothing(h, ms[at + c - 1].contract.value, d);
      UsesConcat(h, ContractCalls(ms, at, c - 1), Discloses(ms[at + c - 1].contract.value), d);
    }
  }

  lemma DisclosureUsesNothing(h: Sha256, c: InputContract, d: Digest)
    ensures !Uses(h, Discloses(c), d)
  {
  }

  lemma {:induction false} ContractsDisclose(ms: seq<Message>, at: nat, c: nat, i: nat)
    requires ContractsSent(ms, at, c) && at <= i < at + c && ms[i].contract.value.contract.Some?
    ensures DiscloseEvent(ms[i].contract.value.contract.value.contractId) in ContractCalls(ms, at, c)
  {
    if i < at + c - 1 {
      ContractsDisclose(ms, at, c - 1, i);
    }
  }

  lemma {:induction false} UsedStays(h: Sha256, es: seq<Event>, i: nat)
    requires i <= |es|
    ensures UsedDigests(h, es[..i]) <= UsedDigests(h, es)
  {
    if i == |es| {
      assert es[..i] == es;
    } else {
      var k := |es| - 1;
      UsedStays(h, es[..k], i);
      assert es[..k][..i] == es[..i];
    }
  }

  /** In a calm log every disclosed contract was used. */
  lemma CalmDisclosure(h: Sha256, es: seq<Event>, contractId: Str, d: Digest)
    requires d == h(contractId)[..8] && Calm(h, Others(es)) && DiscloseEvent(Some(contractId)) in es
    ensures Uses(h, es, d)
  {
    hide UsedDigests, Others, Uses;
    var e, others := DiscloseEvent(Some(contractId)), Others(es);
    NotesContain(es, e);
    var i :| 0 <= i < |others| && others[i] == e;
    assert CalmCall(UsedDigests(h, others[..i]), h, others[i]);
    UsedStays(h, others, i);
    UsedDigestsMeaning(h, es, d);
  }

  /** Clear signing implies that every disclosed contract with an id is one that some node created, exercised or
      fetched, up to the eight bytes that are compared. */
  lemma ClearedContractsWereUsed(h: Sha256, start: TxState, ms: seq<Message>, i: nat)
    requires Finalizes(h, start, ms) && After(h, start, ms, |ms|).st.review.clear && Nodes(ms) + 2 <= i < |ms|
    ensures InOrder(ms) && ms[i].contract.Some?
    ensures
      var c := ms[i].contract.value.contract;
      c.Some? && c.value.contractId.Some? ==> exists j :: 1 <= j <= Nodes(ms) && NodeActsOn(h, ms[j], h(c.value.contractId.value)[..8])
  {
    hide After, Finalizes, Calm, Others, CallsOfRun, InOrder, NodeActsOn;
    ClearedIsCalm(h, start, ms);
    ContractsArrive(ms, i);
    var c := ms[i].contract.value.contract;
    if c.Some? && c.value.contractId.Some? {
      CallsParts(h, start, ms);
      DisclosedWasUsed(h, start.templates, ms, Nodes(ms), |ms| - Nodes(ms) - 2, i, c.value.contractId.value, h(c.value.contractId.value)[..8]);
    }
  }

  lemma DisclosedWasUsed(h: Sha256, templates: Templates, ms: seq<Message>, n: nat, c: nat, i: nat, contractId: Str, d: Digest)
    requires NodesSent(ms, n) && ContractsSent(ms, n + 2, c) && n + 2 <= i < n + 2 + c && d == h(contractId)[..8]
    requires Calm(h, Others(NodeCalls(h, templates, ms, n) + ContractCalls(ms, n + 2, c)))
    requires ms[i].contract.value.contract.Some? && ms[i].contract.value.contract.value.contractId == Some(contractId)
    ensures exists j :: 1 <= j <= n && NodeActsOn(h, ms[j], d)
  {
    hide Calm, Others, NodeCalls, ContractCalls, NodeActsOn, Uses;
    ContractsDisclose(ms, n + 2, c, i);
    ContractsUseNothing(h, ms, n + 2, c, d);
    UsedBefore(h, NodeCalls(h, templates, ms, n), ContractCalls(ms, n + 2, c), contractId, d);
    NodesActOn(h, templates, ms, n, d);
  }

  lemma UsedBefore(h: Sha256, calls: seq<Event>, disclosed: seq<Event>, contractId: Str, d: Digest)
    requires d == h(contractId)[..8]
    requires Calm(h, Others(calls + disclosed)) && DiscloseEvent(Some(contractId)) in disclosed && !Uses(h, disclosed, d)
    ensures Uses(h, calls, d)
  {
    hide *;
    CalmDisclosure(h, calls + disclosed, contractId, d);
    UsesConcat(h, calls, disclosed, d);
  }

  lemma ClearedIsCalm(h: Sha256, start: TxState, ms: seq<Message>)
    requires Finalizes(h, start, ms) && After(h, start, ms, |ms|).st.review.clear
    ensures InOrder(ms) && Calm(h, Others(CallsOfRun(h, start, ms)))
  {
    hide After, InOrder, ScreenOfRun, CallsOfRun, Matches, Calm, Notes, Others, FewOfOneKind;
    ClearSigningIff(h, start, ms);
    var calls, s := CallsOfRun(h, start, ms), ScreenOfRun(h, start, ms).value;
    OneMoreCall(calls, BindEvent(s));
    CalmWithoutBind(h, Others(calls), BindEvent(s));
  }

  lemma ContractsArrive(ms: seq<Message>, i: nat)
    requires InOrder(ms) && Nodes(ms) + 2 <= i < |ms|
    ensures ms[i].contract.Some? && NodesSent(ms, Nodes(ms)) && ContractsSent(ms, Nodes(ms) + 2, |ms| - Nodes(ms) - 2)
  {
  }

  lemma CallsParts(h: Sha256, start: TxState, ms: seq<Message>)
    requires InOrder(ms)
    ensures CallsOfRun(h, start, ms) ==
      NodeCalls(h, start.templates, ms, Nodes(ms)) + ContractCalls(ms, Nodes(ms) + 2, |ms| - Nodes(ms) - 2)
  {
    hide NodeCalls, ContractCalls;
  }
}
