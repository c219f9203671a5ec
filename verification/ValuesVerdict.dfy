/** What the value verdict means over a whole run of reports, screens and contracts. */
module ValuesVerdict {
  import opened Bytes
  import opened ValuesCheck

  /** One call into the value check. GiveUpEvent is an unknown template, an unreadable holding or a node
      that could not be parsed; room is whether the contract list could be allocated. */
  datatype Event =
    | ReportEvent(note: Note)
    | BindEvent(screen: Screen)
    | GiveUpEvent
    | UseEvent(contractId: Option<Str>, room: bool)
    | DiscloseEvent(contractId: Option<Str>)

  datatype Note = Note(holding: Holding, instrument: Option<Digest>)

  function Apply(h: Sha256, v: Values, e: Event): Values
  {
    match e
    case ReportEvent(n) => Report(v, n.holding, n.instrument)
    case BindEvent(s) => v.(screen := Some(s))
    case GiveUpEvent => GiveUp(v)
    case UseEvent(c, room) => RecordUsed(h, v, c, room)
    case DiscloseEvent(c) => CheckDisclosed(h, v, c)
  }

  function Run(h: Sha256, v: Values, es: seq<Event>): Values
  {
    if |es| == 0 then v else Apply(h, Run(h, v, es[..|es| - 1]), es[|es| - 1])
  }

  // ------------------------------------------------------------------ the declarative reading

  function Notes(es: seq<Event>): (ns: seq<Note>)
    ensures |ns| <= |es|
  {
    if |es| == 0 then []
    else Notes(es[..|es| - 1]) + if es[|es| - 1].ReportEvent? then [es[|es| - 1].note] else []
  }

  /** The calls that are not reports, in order. */
  function Others(es: seq<Event>): seq<Event>
  {
    if |es| == 0 then []
    else Others(es[..|es| - 1]) + if es[|es| - 1].ReportEvent? then [] else [es[|es| - 1]]
  }

  function LastScreen(es: seq<Event>): Option<Screen>
  {
    if |es| == 0 then None
    else if es[|es| - 1].BindEvent? then Some(es[|es| - 1].screen)
    else LastScreen(es[..|es| - 1])
  }

  /** Digests of the contracts the nodes acted on: the first eight bytes of each id's hash. */
  function UsedDigests(h: Sha256, es: seq<Event>): set<Digest>
  {
    if |es| == 0 then {}
    else
      var e := es[|es| - 1];
      UsedDigests(h, es[..|es| - 1]) + if e.UseEvent? && e.contractId.Some? then {h(e.contractId.value)[..8]} else {}
  }

  /** Nothing made the check give up, other than a report: no failure was reported, the contract list could
      be allocated at its first entry and never needs a 33rd, and every disclosed contract was used before. */
  ghost predicate Calm(h: Sha256, es: seq<Event>)
  {
    |UsedDigests(h, es)| <= MAX_USED_CONTRACTS && forall i :: 0 <= i < |es| ==> CalmCall(UsedDigests(h, es[..i]), h, es[i])
  }

  /** One call, given the contracts used before it. */
  predicate CalmCall(used: set<Digest>, h: Sha256, e: Event)
  {
    match e
    case GiveUpEvent => false
    case UseEvent(Some(_), room) => used != {} || room
    case DiscloseEvent(Some(c)) => h(c)[..8] in used
    case _ => true
  }

  predicate OneInstrument(ns: seq<Note>)
  {
    forall i, j :: 0 <= i < |ns| && 0 <= j < |ns| && ns[i].instrument.Some? && ns[j].instrument.Some? ==>
      ns[i].instrument == ns[j].instrument
  }

  predicate FewOfOneKind(ns: seq<Note>) { |ns| <= MAX_HOLDINGS && OneInstrument(ns) }

  /** How many holdings an account receives. */
  function Received(ns: seq<Note>, owner: Digest): nat
  {
    if |ns| == 0 then 0
    else Received(ns[..|ns| - 1], owner) + if ns[|ns| - 1].holding.owner == owner then 1 else 0
  }

  /** What the screen must say about the holdings: nothing is written behind a screen that moves nothing;
      otherwise every holding goes to the destination or back to the sender, the destination gets one, or up
      to two when the sender pays itself, one of them with the amount shown, and issuer and instrument are
      the ones shown. */
  predicate Matches(ns: seq<Note>, s: Screen)
  {
    if s.kind == DEST_NONE then |ns| == 0
    else
      s.destination.Some? &&
      (forall i :: 0 <= i < |ns| ==> ns[i].holding.owner == s.destination.value || s.sender == Some(ns[i].holding.owner)) &&
      1 <= Received(ns, s.destination.value) <= (if s.kind == DEST_RECEIVER && s.sender == s.destination then 2 else 1) &&
      (exists i :: 0 <= i < |ns| && ns[i].holding.owner == s.destination.value && (s.amount.None? || ns[i].holding.amount == s.amount.value)) &&
      (s.admin.Some? ==> forall i :: 0 <= i < |ns| ==> ns[i].holding.admin == s.admin.value) &&
      (forall i :: 0 <= i < |ns| && ns[i].instrument.Some? ==> s.instrument == ns[i].instrument)
  }

  ghost predicate Clears(h: Sha256, es: seq<Event>)
  {
    Calm(h, Others(es)) && FewOfOneKind(Notes(es)) && LastScreen(es).Some? && Matches(Notes(es), LastScreen(es).value)
  }

  // ------------------------------------------------------------------ the store follows the events

  function HoldingsOf(ns: seq<Note>): (hs: seq<Holding>)
    ensures |hs| == |ns| && forall i :: 0 <= i < |ns| ==> hs[i] == ns[i].holding
  {
    seq(|ns|, i requires 0 <= i < |ns| => ns[i].holding)
  }

  function FirstInstrument(ns: seq<Note>): Option<Digest>
  {
    if |ns| == 0 then None
    else if FirstInstrument(ns[..|ns| - 1]).Some? then FirstInstrument(ns[..|ns| - 1])
    else ns[|ns| - 1].instrument
  }

  lemma {:induction false} FirstInstrumentMeaning(ns: seq<Note>)
    ensures FirstInstrument(ns).None? <==> forall i :: 0 <= i < |ns| ==> ns[i].instrument.None?
    ensures OneInstrument(ns) ==> forall i :: 0 <= i < |ns| && ns[i].instrument.Some? ==> ns[i].instrument == FirstInstrument(ns)
    ensures FirstInstrument(ns).Some? ==> exists i :: 0 <= i < |ns| && ns[i].instrument == FirstInstrument(ns)
  {
    if |ns| > 0 {
      var k := |ns| - 1;
      FirstInstrumentMeaning(ns[..k]);
      assert forall i :: 0 <= i < k ==> ns[..k][i] == ns[i];
      if FirstInstrument(ns[..k]).Some? {
        var i :| 0 <= i < k && ns[..k][i].instrument == FirstInstrument(ns[..k]);
        assert ns[i].instrument == FirstInstrument(ns);
      }
    }
  }

  /** A list without repetitions that holds a set. */
  ghost predicate Lists(list: seq<Digest>, s: set<Digest>)
  {
    |list| == |s| && forall d :: d in list <==> d in s
  }

  ghost predicate Tracks(h: Sha256, v: Values, es: seq<Event>)
  {
    v.screen == LastScreen(es) &&
    (v.ok <==> Calm(h, Others(es)) && FewOfOneKind(Notes(es))) &&
    (v.ok ==>
      v.holdings == HoldingsOf(Notes(es)) && v.instrument == FirstInstrument(Notes(es)) && TracksUsed(h, v.used, Others(es)))
  }

  ghost predicate TracksUsed(h: Sha256, used: Option<seq<Digest>>, es: seq<Event>)
  {
    if used.None? then UsedDigests(h, es) == {} else UsedDigests(h, es) != {} && Lists(used.value, UsedDigests(h, es))
  }

  lemma CalmStep(h: Sha256, es: seq<Event>, e: Event)
    ensures Calm(h, es + [e]) <==>
      Calm(h, es) && |UsedDigests(h, es + [e])| <= MAX_USED_CONTRACTS && CalmCall(UsedDigests(h, es), h, e)
  {
    hide UsedDigests, CalmCall;
    var fs := es + [e];
    UsedGrows(h, es, e);
    assert fs[..|es|] == es && fs[|es|] == e;
    assert forall i :: 0 <= i < |es| ==> fs[i] == es[i] && fs[..i] == es[..i];
    if Calm(h, fs) {
      forall i | 0 <= i < |es|
        ensures CalmCall(UsedDigests(h, es[..i]), h, es[i])
      {
        assert CalmCall(UsedDigests(h, fs[..i]), h, fs[i]);
      }
    }
  }

  lemma UsedGrows(h: Sha256, es: seq<Event>, e: Event)
    ensures UsedDigests(h, es + [e]) == UsedDigests(h, es) + if e.UseEvent? && e.contractId.Some? then {h(e.contractId.value)[..8]} else {}
    ensures |UsedDigests(h, es)| <= |UsedDigests(h, es + [e])|
  {
    assert (es + [e])[..|es|] == es;
    SubsetSize(UsedDigests(h, es), UsedDigests(h, es + [e]));
  }

  lemma SubsetSize(a: set<Digest>, b: set<Digest>)
    requires a <= b
    ensures |a| <= |b|
  {
    assert |b - a| == |b| - |a|;
  }

  lemma ListsMore(list: seq<Digest>, s: set<Digest>, d: Digest)
    requires Lists(list, s)
    ensures d in s ==> s + {d} == s
    ensures d !in s ==> Lists(list + [d], s + {d})
    ensures Lists([], {})
  {
    assert forall x :: x in list + [d] <==> x in list || x == d;
  }

  /** One call that is not a report. */
  lemma OtherStep(h: Sha256, v: Values, es: seq<Event>, e: Event)
    requires v.ok && !e.ReportEvent? && Calm(h, es) && TracksUsed(h, v.used, es)
    ensures Apply(h, v, e).ok <==> Calm(h, es + [e])
    ensures Apply(h, v, e).ok ==> TracksUsed(h, Apply(h, v, e).used, es + [e])
  {
    hide Calm, UsedDigests, Lists;
    CalmStep(h, es, e);
    UsedGrows(h, es, e);
    CalmIsBounded(h, es);
    match e {
      case UseEvent(Some(c), room) =>
        hide RecordUsed;
        UseStep(h, v, UsedDigests(h, es), c, room);
      case DiscloseEvent(Some(c)) =>
        if v.used.Some? {
          ListsMember(v.used.value, UsedDigests(h, es), ContractDigest(h, c));
        }
      case _ =>
    }
  }

  /** A contract enters the list: the store gives up exactly when the set outgrows the list. */
  lemma UseStep(h: Sha256, v: Values, s: set<Digest>, contractId: Str, room: bool)
    requires v.ok && |s| <= MAX_USED_CONTRACTS
    requires if v.used.None? then s == {} else s != {} && Lists(v.used.value, s)
    ensures
      var w, t := RecordUsed(h, v, Some(contractId), room), s + {h(contractId)[..8]};
      (w.ok <==> |t| <= MAX_USED_CONTRACTS && (s != {} || room)) &&
      (w.ok ==> w.used.Some? && Lists(w.used.value, t))
  {
    hide Lists;
    var d := ContractDigest(h, contractId);
    var list := if v.used.None? then [] else v.used.value;
    NothingListed();
    ListsMore(list, s, d);
    ListsMember(list, s, d);
  }

  lemma NothingListed()
    ensures Lists([], {})
  {
  }

  lemma ListsMember(list: seq<Digest>, s: set<Digest>, d: Digest)
    requires Lists(list, s)
    ensures d in list <==> d in s
    ensures |list| == |s| && (d !in s ==> |s + {d}| == |s| + 1)
  {
  }

  lemma CalmIsBounded(h: Sha256, es: seq<Event>)
    requires Calm(h, es)
    ensures |UsedDigests(h, es)| <= MAX_USED_CONTRACTS
  {
    hide UsedDigests;
  }

  lemma OneInstrumentStep(ns: seq<Note>, n: Note)
    ensures OneInstrument(ns + [n]) <==>
      OneInstrument(ns) && (n.instrument.Some? && FirstInstrument(ns).Some? ==> n.instrument == FirstInstrument(ns))
  {
    hide FirstInstrument;
    var ms := ns + [n];
    FirstInstrumentMeaning(ns);
    assert ms[|ns|] == n && forall i :: 0 <= i < |ns| ==> ms[i] == ns[i];
    if OneInstrument(ms) {
      forall i, j | 0 <= i < |ns| && 0 <= j < |ns| && ns[i].instrument.Some? && ns[j].instrument.Some?
        ensures ns[i].instrument == ns[j].instrument
      {
        assert ms[i].instrument == ms[j].instrument;
      }
      if n.instrument.Some? && FirstInstrument(ns).Some? {
        var i :| 0 <= i < |ns| && ns[i].instrument == FirstInstrument(ns);
        assert ms[i].instrument == ms[|ns|].instrument;
      }
    }
  }

  lemma NotesStep(ns: seq<Note>, n: Note)
    ensures FewOfOneKind(ns + [n]) <==>
      FewOfOneKind(ns) && |ns| < MAX_HOLDINGS &&
      (n.instrument.Some? && FirstInstrument(ns).Some? ==> n.instrument == FirstInstrument(ns))
    ensures HoldingsOf(ns + [n]) == HoldingsOf(ns) + [n.holding]
    ensures FirstInstrument(ns + [n]) == if FirstInstrument(ns).Some? then FirstInstrument(ns) else n.instrument
  {
    hide OneInstrument;
    OneInstrumentStep(ns, n);
    assert (ns + [n])[..|ns|] == ns;
  }

  lemma {:induction false} RunTracks(h: Sha256, es: seq<Event>)
    ensures Tracks(h, Run(h, FRESH, es), es)
  {
    hide Calm, FewOfOneKind, FirstInstrument, HoldingsOf, UsedDigests, RecordUsed, CheckDisclosed;
    if |es| == 0 {
      NothingTracked(h);
    } else {
      var before, e := es[..|es| - 1], es[|es| - 1];
      RunTracks(h, before);
      var v := Run(h, FRESH, before);
      if !v.ok {
        StaysLost(h, v, e);
        LostStep(h, before, e);
      } else if e.ReportEvent? {
        NotesStep(Notes(before), e.note);
        assert Others(es) == Others(before);
        NotesBounded(Notes(before));
      } else {
        OtherStep(h, v, Others(before), e);
        OtherKeeps(h, v, e);
        assert Notes(es) == Notes(before);
      }
    }
  }

  lemma NotesBounded(ns: seq<Note>)
    requires FewOfOneKind(ns)
    ensures |HoldingsOf(ns)| == |ns| <= MAX_HOLDINGS
  {
  }

  lemma OtherKeeps(h: Sha256, v: Values, e: Event)
    requires !e.ReportEvent?
    ensures Apply(h, v, e).holdings == v.holdings && Apply(h, v, e).instrument == v.instrument
    ensures Apply(h, v, e).screen == if e.BindEvent? then Some(e.screen) else v.screen
  {
  }

  lemma NothingTracked(h: Sha256)
    ensures Tracks(h, FRESH, [])
  {
  }

  /** A store that gave up stays so, whatever is called. */
  lemma StaysLost(h: Sha256, v: Values, e: Event)
    requires !v.ok
    ensures !Apply(h, v, e).ok
    ensures Apply(h, v, e).screen == if e.BindEvent? then Some(e.screen) else v.screen
  {
  }

  lemma LostStep(h: Sha256, before: seq<Event>, e: Event)
    requires !(Calm(h, Others(before)) && FewOfOneKind(Notes(before)))
    ensures (before + [e])[..|before|] == before
    ensures !(Calm(h, Others(before + [e])) && FewOfOneKind(Notes(before + [e])))
  {
    hide Calm, FewOfOneKind, OneInstrument, HoldingsOf, FirstInstrument, UsedDigests, CalmCall;
    assert (before + [e])[..|before|] == before;
    if e.ReportEvent? {
      NotesStep(Notes(before), e.note);
      assert Others(before) + [] == Others(before);
    } else {
      CalmStep(h, Others(before), e);
      assert Notes(before) + [] == Notes(before);
    }
  }

  // ------------------------------------------------------------------ the used contracts

  /** Call i acts on a contract whose hash starts with these eight bytes. */
  predicate ActsOn(h: Sha256, e: Event, d: Digest) { e.UseEvent? && e.contractId.Some? && d == h(e.contractId.value)[..8] }

  ghost predicate Uses(h: Sha256, es: seq<Event>, d: Digest) { exists i :: 0 <= i < |es| && ActsOn(h, es[i], d) }

  lemma UsesStep(h: Sha256, es: seq<Event>, e: Event, d: Digest)
    ensures Uses(h, es + [e], d) <==> Uses(h, es, d) || ActsOn(h, e, d)
  {
    hide ActsOn;
    var fs := es + [e];
    assert fs[|es|] == e && forall i :: 0 <= i < |es| ==> fs[i] == es[i];
    if Uses(h, es, d) {
      var i :| 0 <= i < |es| && ActsOn(h, es[i], d);
      assert ActsOn(h, fs[i], d);
    }
  }

  lemma {:induction false} UsedDigestsMeaning(h: Sha256, es: seq<Event>, d: Digest)
    ensures d in UsedDigests(h, Others(es)) <==> Uses(h, es, d)
  {
    hide Uses;
    if |es| == 0 {
      assert !Uses(h, [], d) by { NothingUsed(h, d); }
    } else {
      var k := |es| - 1;
      UsedDigestsMeaning(h, es[..k], d);
      assert es == es[..k] + [es[k]];
      UsesStep(h, es[..k], es[k], d);
      if es[k].ReportEvent? {
        assert Others(es) == Others(es[..k]);
      } else {
        UsedGrows(h, Others(es[..k]), es[k]);
      }
    }
  }

  lemma NothingUsed(h: Sha256, d: Digest)
    ensures !Uses(h, [], d)
  {
  }

  /** While the check has not given up, the list holds the first eight bytes of the hash of exactly the
      contracts the nodes acted on, each once. */
  lemma UsedListIs(h: Sha256, es: seq<Event>, d: Digest)
    requires Run(h, FRESH, es).ok
    ensures
      var used := Run(h, FRESH, es).used;
      (used.Some? && d in used.value <==> exists i :: 0 <= i < |es| && ActsOn(h, es[i], d)) &&
      (used.Some? ==> 0 < |used.value| <= 32 && forall i, j :: 0 <= i < j < |used.value| ==> used.value[i] != used.value[j])
  {
    hide Calm, FewOfOneKind, FirstInstrument, HoldingsOf, UsedDigests, Run, Others, Notes, Lists;
    RunTracks(h, es);
    UsedDigestsMeaning(h, es, d);
    CalmIsBounded(h, Others(es));
    var used := Run(h, FRESH, es).used;
    if used.Some? {
      ListsMember(used.value, UsedDigests(h, Others(es)), d);
      ListsOnce(used.value, UsedDigests(h, Others(es)));
    }
  }

  /** So a disclosed contract passes if and only if the nodes acted on a contract with its eight bytes. */
  lemma DisclosedPassesIff(h: Sha256, es: seq<Event>, contractId: Str)
    requires Run(h, FRESH, es).ok
    ensures Run(h, FRESH, es + [DiscloseEvent(Some(contractId))]).ok <==> exists i :: 0 <= i < |es| && ActsOn(h, es[i], h(contractId)[..8])
  {
    hide Run, ActsOn;
    UsedListIs(h, es, h(contractId)[..8]);
    OneMoreApplied(h, es, DiscloseEvent(Some(contractId)));
  }

  lemma OneMoreApplied(h: Sha256, es: seq<Event>, e: Event)
    ensures Run(h, FRESH, es + [e]) == Apply(h, Run(h, FRESH, es), e)
  {
    assert (es + [e])[..|es|] == es;
  }

  /** A list as long as the set of its elements has no repetitions. */
  lemma {:induction false} ListsOnce(list: seq<Digest>, s: set<Digest>)
    requires Lists(list, s)
    ensures forall i, j :: 0 <= i < j < |list| ==> list[i] != list[j]
  {
    if i, j :| 0 <= i < j < |list| && list[i] == list[j] {
      var rest := list[..j] + list[j + 1..];
      assert forall d :: d in list <==> d in rest by {
        assert list == list[..j] + [list[j]] + list[j + 1..];
        assert list[i] == rest[i];
      }
      ElementsBound(rest, s);
    }
  }

  lemma {:induction false} ElementsBound(list: seq<Digest>, s: set<Digest>)
    requires forall d :: d in s ==> d in list
    ensures |s| <= |list|
  {
    if |list| == 0 {
      assert s == {};
    } else {
      var k := |list| - 1;
      assert list == list[..k] + [list[k]];
      ElementsBound(list[..k], s - {list[k]});
    }
  }

  // ------------------------------------------------------------------ the theorems

  lemma {:induction false} ReceivedIsOwned(ns: seq<Note>, owner: Digest)
    ensures Received(ns, owner) == Owned(HoldingsOf(ns), owner)
  {
    if |ns| > 0 {
      var k := |ns| - 1;
      ReceivedIsOwned(ns[..k], owner);
      assert HoldingsOf(ns)[..k] == HoldingsOf(ns[..k]);
    }
  }

  lemma AgreesIsMatches(ns: seq<Note>, s: Screen)
    requires OneInstrument(ns)
    ensures Agrees(HoldingsOf(ns), FirstInstrument(ns), s) <==> Matches(ns, s)
  {
    hide Received, Owned;
    var hs := HoldingsOf(ns);
    if s.destination.Some? {
      ReceivedIsOwned(ns, s.destination.value);
      if i :| 0 <= i < |ns| && ns[i].holding.owner == s.destination.value && (s.amount.None? || ns[i].holding.amount == s.amount.value) {
        assert hs[i].owner == s.destination.value && CarriesAmount(s, hs[i]);
      }
    }
    FirstInstrumentMeaning(ns);
  }

  /** The verdict after any calls since a reset is the declarative predicate on what was reported. */
  lemma VerdictIsSpecification(h: Sha256, es: seq<Event>)
    ensures Verdict(Run(h, FRESH, es)) <==> Clears(h, es)
  {
    hide Calm, FirstInstrument, HoldingsOf, Agrees, Matches, Run, LastScreen, Notes, Others, TracksUsed;
    RunTracks(h, es);
    if FewOfOneKind(Notes(es)) && LastScreen(es).Some? {
      AgreesIsMatches(Notes(es), LastScreen(es).value);
    }
  }

  lemma {:induction false} ReceivedReorders(ns: seq<Note>, ms: seq<Note>, owner: Digest)
    requires multiset(ns) == multiset(ms)
    ensures Received(ns, owner) == Received(ms, owner)
  {
    hide Received;
    if |ns| == 0 {
      assert |multiset(ms)| == 0;
    } else {
      var k := |ns| - 1;
      var j := Somewhere(ns, ms, k);
      Without(ns, k);
      Without(ms, j);
      assert ns[..k] + ns[k + 1..] == ns[..k];
      ReceivedReorders(ns[..k], ms[..j] + ms[j + 1..], owner);
      ReceivedWithout(ns, k, owner);
      ReceivedWithout(ms, j, owner);
    }
  }

  lemma Without(ns: seq<Note>, j: nat)
    requires j < |ns|
    ensures multiset(ns[..j] + ns[j + 1..]) == multiset(ns) - multiset{ns[j]}
  {
    assert ns == ns[..j] + [ns[j]] + ns[j + 1..];
  }

  lemma ReceivedWithout(ns: seq<Note>, j: nat, owner: Digest)
    requires j < |ns|
    ensures Received(ns, owner) == Received(ns[..j] + ns[j + 1..], owner) + if ns[j].holding.owner == owner then 1 else 0
  {
    assert ns == ns[..j] + [ns[j]] + ns[j + 1..];
    ReceivedConcat(ns[..j], ns[j + 1..], owner);
    ReceivedConcat(ns[..j] + [ns[j]], ns[j + 1..], owner);
    ReceivedConcat(ns[..j], [ns[j]], owner);
    assert [ns[j]][..0] == [];
  }

  lemma {:induction false} ReceivedConcat(a: seq<Note>, b: seq<Note>, owner: Digest)
    ensures Received(a + b, owner) == Received(a, owner) + Received(b, owner)
  {
    if |b| == 0 {
      assert a + b == a;
    } else {
      assert (a + b)[..|a + b| - 1] == a + b[..|b| - 1];
      ReceivedConcat(a, b[..|b| - 1], owner);
    }
  }

  /** Every note of one list is a note of the other. */
  lemma Somewhere(ns: seq<Note>, ms: seq<Note>, i: nat) returns (j: nat)
    requires multiset(ns) == multiset(ms) && i < |ns|
    ensures j < |ms| && ms[j] == ns[i]
  {
    assert ns[i] in multiset(ms);
    j :| 0 <= j < |ms| && ms[j] == ns[i];
  }

  lemma MatchesOneWay(ns: seq<Note>, ms: seq<Note>, s: Screen)
    requires multiset(ns) == multiset(ms) && Matches(ns, s) && FewOfOneKind(ns)
    ensures Matches(ms, s) && FewOfOneKind(ms)
  {
    hide Received;
    assert |ns| == |multiset(ns)| == |ms|;
    forall i | 0 <= i < |ms|
      ensures exists j :: 0 <= j < |ns| && ns[j] == ms[i]
    {
      var j := Somewhere(ms, ns, i);
    }
    if s.destination.Some? && s.kind != DEST_NONE {
      ReceivedReorders(ns, ms, s.destination.value);
      var i :| 0 <= i < |ns| && ns[i].holding.owner == s.destination.value && (s.amount.None? || ns[i].holding.amount == s.amount.value);
      var j := Somewhere(ns, ms, i);
      assert ms[j].holding.owner == s.destination.value && (s.amount.None? || ms[j].holding.amount == s.amount.value);
    }
  }

  lemma {:induction false} LastScreenOfOthers(es: seq<Event>)
    ensures LastScreen(Others(es)) == LastScreen(es)
  {
    if |es| > 0 {
      var k := |es| - 1;
      LastScreenOfOthers(es[..k]);
      if es[k].ReportEvent? {
        assert Others(es) == Others(es[..k]);
      } else {
        assert Others(es)[..|Others(es)| - 1] == Others(es[..k]);
      }
    }
  }

  /** The order in which holdings are reported does not matter. */
  lemma HoldingsReorder(h: Sha256, es: seq<Event>, fs: seq<Event>)
    requires Others(es) == Others(fs) && multiset(Notes(es)) == multiset(Notes(fs))
    ensures Verdict(Run(h, FRESH, es)) == Verdict(Run(h, FRESH, fs))
  {
    hide Calm, FewOfOneKind, Matches, Run, Notes, Others, LastScreen;
    VerdictIsSpecification(h, es);
    VerdictIsSpecification(h, fs);
    LastScreenOfOthers(es);
    LastScreenOfOthers(fs);
    if Clears(h, es) {
      MatchesOneWay(Notes(es), Notes(fs), LastScreen(es).value);
    }
    if Clears(h, fs) {
      MatchesOneWay(Notes(fs), Notes(es), LastScreen(es).value);
    }
  }

  /** Once the check gave up, or disagreed with a bound screen, it never clears again. */
  lemma {:induction false} FailureIsPermanent(h: Sha256, v: Values, es: seq<Event>)
    requires !v.ok || (v.screen.Some? && !Verdict(v))
    ensures !Verdict(Run(h, AfterVerdict(v), es))
  {
    hide Agrees, RecordUsed, CheckDisclosed, Report;
    if |es| > 0 {
      FailureIsPermanent(h, v, es[..|es| - 1]);
      LostRun(h, AfterVerdict(v), es[..|es| - 1]);
      StaysLost(h, Run(h, AfterVerdict(v), es[..|es| - 1]), es[|es| - 1]);
    }
  }

  lemma {:induction false} LostRun(h: Sha256, v: Values, es: seq<Event>)
    requires !v.ok
    ensures !Run(h, v, es).ok
  {
    hide Apply;
    if |es| > 0 {
      LostRun(h, v, es[..|es| - 1]);
      StaysLost(h, Run(h, v, es[..|es| - 1]), es[|es| - 1]);
    }
  }
}
