/** What an accepted node phase proves: the claims form one rooted tree, and the hash that enters the
    transaction is the Merkle hash of that tree. */
module NodeTree {
  import opened Bytes
  import opened HashWriter
  import opened ValueStream
  import opened CanonicalNode
  import opened NodeTreeCheck
  import opened NodeHashStore
  import opened NodePhase
  import opened TreeVerdict

  // ------------------------------------------------------------------ the tree check's view

  function PartCalls(part: NodePart): seq<Call>
  {
    (if HasChildren(part.body) then [ClaimCall(NodeNumber(part), ChildIds(ChildrenOf(part.body)))] else []) +
    [MarkCall(NodeNumber(part))]
  }

  function CallsUpTo(s: Session, i: nat): seq<Call>
    requires i <= |s.parts|
  {
    if i == 0 then [] else CallsUpTo(s, i - 1) + PartCalls(s.parts[i - 1])
  }

  function EventsUpTo(s: Session, i: nat): seq<Event>
    requires i <= |s.parts|
  {
    if i == 0 then [] else EventsUpTo(s, i - 1) + Claims(s.Id(i - 1), s.Kids(i - 1)) + [Mark(s.Id(i - 1))]
  }

  /** The effect of one part on each component of the state. */
  lemma StepEffects(s: Session, i: nat)
    requires s.Parses() && i < |s.parts|
    ensures s.State(i + 1).tree == MarkSeen(ClaimPart(s.State(i).tree, s.parts[i]), s.Id(i))
    ensures s.State(i + 1).ring == if s.IsRoot(i) then s.State(i).ring else SetHash(s.State(i).ring, s.Id(i), s.HashAt(i))
    ensures s.State(i + 1).err == s.FeedAt(i).err
    ensures s.State(i + 1).hasher == if s.IsRoot(i) then s.State(i).hasher + s.HashAt(i) else s.State(i).hasher
  {
    hide NodeFeed, MarkSeen, ClaimPart, SetHash, NodeNumber, IsRootPart, PartParses, Begins;
    assert s.State(i + 1) == NodeStep(s.h, s.header, s.State(i), s.parts[i]);
  }

  lemma {:induction false} CallsDescribeTree(s: Session, i: nat)
    requires s.Parses() && i <= |s.parts|
    ensures s.State(i).tree == Run(s.start.tree, CallsUpTo(s, i))
    decreases i
  {
    hide *;
    if i == 0 {
      StateZero(s);
      CallsZero(s);
    } else {
      CallsDescribeTree(s, i - 1);
      StepEffects(s, i - 1);
      CallsStep(s, i - 1);
    }
  }

  lemma CallsZero(s: Session)
    ensures CallsUpTo(s, 0) == [] && EventsUpTo(s, 0) == []
    ensures Run(s.start.tree, []) == s.start.tree && Flatten([]) == [] && Marks([]) == 0
  {
  }

  lemma StateZero(s: Session)
    requires s.Parses()
    ensures s.State(0) == s.start && ValidRing(s.start.ring)
  {
  }

  /** One more part adds its claims, then its mark. */
  lemma CallsStep(s: Session, i: nat)
    requires i < |s.parts|
    ensures
      var c, before, after, part := s.start.tree, CallsUpTo(s, i), CallsUpTo(s, i + 1), s.parts[i];
      Run(c, after) == MarkSeen(ClaimPart(Run(c, before), part), s.Id(i)) &&
      Flatten(after) == Flatten(before) + Claims(s.Id(i), s.Kids(i)) + [Mark(s.Id(i))] &&
      Marks(after) == Marks(before) + 1
  {
    hide Run, Flatten, Marks, NodeNumber, MarkSeen, Claim;
    var c, before, part := s.start.tree, CallsUpTo(s, i), s.parts[i];
    var mark := MarkCall(NodeNumber(part));
    if HasChildren(part.body) {
      var claim := ClaimCall(NodeNumber(part), ChildIds(ChildrenOf(part.body)));
      assert CallsUpTo(s, i + 1) == (before + [claim]) + [mark];
      CallsAppend(c, before, claim);
      CallsAppend(c, before + [claim], mark);
    } else {
      assert CallsUpTo(s, i + 1) == before + [mark] by {
        assert CallsUpTo(s, i + 1) == before + ([] + [mark]);
      }
      CallsAppend(c, before, mark);
      assert s.Kids(i) == [];
      assert Flatten(before) + Claims(s.Id(i), []) == Flatten(before);
    }
  }

  lemma {:induction false} CallsDescribeEvents(s: Session, i: nat)
    requires i <= |s.parts|
    ensures Flatten(CallsUpTo(s, i)) == EventsUpTo(s, i)
    ensures Marks(CallsUpTo(s, i)) == i
  {
    hide *;
    EventsStep(s, i);
    if i == 0 {
      CallsZero(s);
    } else {
      CallsDescribeEvents(s, i - 1);
      CallsStep(s, i - 1);
    }
  }

  lemma CallsAppend(c: Check, calls: seq<Call>, call: Call)
    ensures Run(c, calls + [call]) == Apply(Run(c, calls), call)
    ensures Flatten(calls + [call]) == Flatten(calls) + EventsOf(call)
    ensures Marks(calls + [call]) == Marks(calls) + if call.MarkCall? then 1 else 0
  {
    assert (calls + [call])[..|calls|] == calls;
  }

  // ------------------------------------------------------------------ offence-free events, part by part

  ghost predicate Arrives(s: Session, i: nat, id: int)
    requires i <= |s.parts|
  {
    exists j :: 0 <= j < i && s.Id(j) == id
  }

  ghost predicate HasParent(s: Session, i: nat, id: int)
    requires i <= |s.parts|
  {
    exists j, k :: 0 <= j < i && 0 <= k < |s.Kids(j)| && s.Kids(j)[k] == id
  }

  /** The first i parts carry distinct ids in range and claim distinct children, none of them the root. */
  ghost predicate Orderly(s: Session, i: nat, root: int, n: int)
    requires i <= |s.parts|
  {
    (forall j :: 0 <= j < i ==> 0 <= s.Id(j) < n) &&
    (forall j, l :: 0 <= j < l < i ==> s.Id(j) != s.Id(l)) &&
    (forall j, k :: 0 <= j < i && 0 <= k < |s.Kids(j)| ==> 0 <= s.Kids(j)[k] < n && s.Kids(j)[k] != root) &&
    (forall j, k, l, m :: (0 <= j < i && 0 <= k < |s.Kids(j)| && 0 <= l < i && 0 <= m < |s.Kids(l)| &&
       s.Kids(j)[k] == s.Kids(l)[m]) ==> j == l && k == m)
  }

  lemma OffenceInPrefix(es: seq<Event>, fs: seq<Event>, i: nat, root: int, n: nat)
    requires i < |es|
    ensures Offence(es + fs, i, root, n) == Offence(es, i, root, n)
  {
    assert (es + fs)[..i] == es[..i];
  }

  lemma NoOffencePrefix(es: seq<Event>, fs: seq<Event>, root: int, n: nat)
    requires NoOffence(es + fs, root, n)
    ensures NoOffence(es, root, n)
  {
    forall i | 0 <= i < |es|
      ensures Offence(es, i, root, n) == TREE_OK
    {
      assert Offence(es + fs, i, root, n) == TREE_OK;
      OffenceInPrefix(es, fs, i, root, n);
    }
  }

  lemma SeenConcat(es: seq<Event>, fs: seq<Event>, id: int)
    ensures Seen(es + fs, id) <==> Seen(es, id) || Seen(fs, id)
    ensures ClaimedBy(es + fs, id) <==> ClaimedBy(es, id) || ClaimedBy(fs, id)
  {
    var gs := es + fs;
    assert forall j :: 0 <= j < |es| ==> gs[j] == es[j];
    assert forall j :: 0 <= j < |fs| ==> gs[|es| + j] == fs[j];
    assert forall j :: |es| <= j < |gs| ==> gs[j] == fs[j - |es|];
  }

  lemma ClaimsMeaning(p: int, kids: seq<int>, id: int)
    ensures !Seen(Claims(p, kids) , id)
    ensures ClaimedBy(Claims(p, kids), id) <==> exists k :: 0 <= k < |kids| && kids[k] == id
  {
    var claims := Claims(p, kids);
    assert forall k :: 0 <= k < |kids| ==> claims[k] == ClaimEvent(p, kids[k]);
  }

  /** What the events of the first i parts have marked and claimed. */
  lemma {:induction false} EventsMeaning(s: Session, i: nat, id: int)
    requires i <= |s.parts|
    ensures Seen(EventsUpTo(s, i), id) <==> Arrives(s, i, id)
    ensures ClaimedBy(EventsUpTo(s, i), id) <==> HasParent(s, i, id)
  {
    hide Session.Id, Session.Kids, Seen, ClaimedBy, Claims;
    EventsStep(s, i);
    if i == 0 {
      MarkMeaning(0, id);
    } else {
      hide EventsUpTo;
      EventsMeaning(s, i - 1, id);
      PartEventsMeaning(EventsUpTo(s, i - 1), s.Id(i - 1), s.Kids(i - 1), id);
      hide Arrives, HasParent;
      PartMeaning(s, i - 1, id);
    }
  }

  /** The events of one part: its claims, then its mark. */
  lemma PartEventsMeaning(es: seq<Event>, m: int, kids: seq<int>, id: int)
    ensures Seen(es + Claims(m, kids) + [Mark(m)], id) <==> Seen(es, id) || m == id
    ensures ClaimedBy(es + Claims(m, kids) + [Mark(m)], id) <==> ClaimedBy(es, id) || exists k :: 0 <= k < |kids| && kids[k] == id
  {
    hide Seen, ClaimedBy, Claims;
    SeenConcat(es, Claims(m, kids), id);
    SeenConcat(es + Claims(m, kids), [Mark(m)], id);
    ClaimsMeaning(m, kids, id);
    MarkMeaning(m, id);
  }

  lemma EventsStep(s: Session, i: nat)
    requires i <= |s.parts|
    ensures EventsUpTo(s, i) ==
      if i == 0 then [] else EventsUpTo(s, i - 1) + Claims(s.Id(i - 1), s.Kids(i - 1)) + [Mark(s.Id(i - 1))]
    ensures i > 0 ==> EventsUpTo(s, i) == EventsUpTo(s, i - 1) + (Claims(s.Id(i - 1), s.Kids(i - 1)) + [Mark(s.Id(i - 1))])
  {
  }

  lemma PartMeaning(s: Session, p: nat, id: int)
    requires p < |s.parts|
    ensures Arrives(s, p + 1, id) <==> Arrives(s, p, id) || s.Id(p) == id
    ensures HasParent(s, p + 1, id) <==> HasParent(s, p, id) || exists k :: 0 <= k < |s.Kids(p)| && s.Kids(p)[k] == id
  {
    hide Session.Id, Session.Kids;
    if k :| 0 <= k < |s.Kids(p)| && s.Kids(p)[k] == id {
      assert HasParent(s, p + 1, id);
    }
    if HasParent(s, p, id) {
      var j, k :| 0 <= j < p && 0 <= k < |s.Kids(j)| && s.Kids(j)[k] == id;
      assert HasParent(s, p + 1, id);
    }
    if HasParent(s, p + 1, id) {
      var j, k :| 0 <= j < p + 1 && 0 <= k < |s.Kids(j)| && s.Kids(j)[k] == id;
      assert j < p ==> HasParent(s, p, id);
    }
  }

  lemma MarkMeaning(m: int, id: int)
    ensures Seen([Mark(m)], id) <==> m == id
    ensures !ClaimedBy([Mark(m)], id) && !ClaimedBy([], id) && !Seen([], id)
  {
    assert [Mark(m)][0] == Mark(m);
  }

  /** The claims of part i, given that its events do not offend. */
  lemma ClaimsAreNew(s: Session, i: nat, root: int, n: nat, k: nat)
    requires i < |s.parts| && k < |s.Kids(i)| && NoOffence(EventsUpTo(s, i + 1), root, n)
    ensures 0 <= s.Kids(i)[k] < n && s.Kids(i)[k] != root && s.Kids(i)[k] != s.Id(i)
    ensures !HasParent(s, i, s.Kids(i)[k])
    ensures forall m :: 0 <= m < k ==> s.Kids(i)[m] != s.Kids(i)[k]
  {
    var es, claims := EventsUpTo(s, i), Claims(s.Id(i), s.Kids(i));
    var all := EventsUpTo(s, i + 1);
    var at, c := |es| + k, s.Kids(i)[k];
    assert all[at] == ClaimEvent(s.Id(i), c);
    assert Offence(all, at, root, n) == TREE_OK;
    assert all[..at] == es + claims[..k];
    SeenConcat(es, claims[..k], c);
    EventsMeaning(s, i, c);
    forall m | 0 <= m < k
      ensures s.Kids(i)[m] != c
    {
      assert claims[..k][m].child == s.Kids(i)[m];
    }
  }

  lemma MarkIsNew(s: Session, i: nat, root: int, n: nat)
    requires i < |s.parts| && NoOffence(EventsUpTo(s, i + 1), root, n)
    ensures 0 <= s.Id(i) < n && !Arrives(s, i, s.Id(i))
  {
    var es, claims := EventsUpTo(s, i), Claims(s.Id(i), s.Kids(i));
    var all := EventsUpTo(s, i + 1);
    var at := |es| + |claims|;
    assert all[at] == Mark(s.Id(i));
    assert Offence(all, at, root, n) == TREE_OK;
    assert all[..at] == es + claims;
    SeenConcat(es, claims, s.Id(i));
    EventsMeaning(s, i, s.Id(i));
  }

  /** One more part keeps the order when its id and its claims are new. */
  lemma OrderlyStep(s: Session, p: nat, root: int, n: int)
    requires p < |s.parts| && Orderly(s, p, root, n)
    requires 0 <= s.Id(p) < n && !Arrives(s, p, s.Id(p))
    requires forall k :: 0 <= k < |s.Kids(p)| ==> 0 <= s.Kids(p)[k] < n && s.Kids(p)[k] != root && !HasParent(s, p, s.Kids(p)[k])
    requires forall k, m :: 0 <= m < k < |s.Kids(p)| ==> s.Kids(p)[m] != s.Kids(p)[k]
    ensures Orderly(s, p + 1, root, n)
  {
    hide Session.Kids, Session.Id;
  }

  lemma OrderlyZero(s: Session, root: int, n: int)
    ensures Orderly(s, 0, root, n)
  {
  }

  lemma {:induction false} NoOffenceIsOrderly(s: Session, i: nat, root: int, n: nat)
    requires i <= |s.parts| && NoOffence(EventsUpTo(s, i), root, n)
    ensures Orderly(s, i, root, n)
  {
    hide *;
    if i == 0 {
      OrderlyZero(s, root, n);
    } else {
      var p := i - 1;
      EventsStep(s, i);
      NoOffencePrefix(EventsUpTo(s, p), Claims(s.Id(p), s.Kids(p)) + [Mark(s.Id(p))], root, n);
      NoOffenceIsOrderly(s, p, root, n);
      MarkIsNew(s, p, root, n);
      var kids := s.Kids(p);
      forall k | 0 <= k < |kids|
        ensures 0 <= kids[k] < n && kids[k] != root && !HasParent(s, p, kids[k])
        ensures forall m :: 0 <= m < k ==> kids[m] != kids[k]
      {
        ClaimsAreNew(s, p, root, n, k);
      }
      OrderlyStep(s, p, root, n);
    }
  }

  /** The facts the tree check alone gives about an accepted session. */
  lemma AcceptedIsOrderly(s: Session)
    requires s.Accepted()
    ensures 0 <= s.RootId() < |s.parts| <= MAX_TX_NODES && Orderly(s, |s.parts|, s.RootId(), |s.parts|)
    ensures s.start.tree == Init(s.header.roots, s.header.nodesCount, true) && s.start.tree.err == TREE_OK
    ensures forall id :: 0 <= id < |s.parts| ==> Arrives(s, |s.parts|, id) && (id == s.RootId() || HasParent(s, |s.parts|, id))
  {
    hide Session.State, Init;
    var n, c := |s.parts|, s.start.tree;
    var calls := CallsUpTo(s, n);
    CallsDescribeTree(s, n);
    CallsDescribeEvents(s, n);
    if c.err != TREE_OK {
      InitErrorIsVerdict(c, calls);
    }
    InitNeedsRoom(s.header.roots, s.header.nodesCount);
    StartedState(c, s.header.roots, n);
    TreeOkIff(c, s.header.roots, n, calls);
    AllSeen(calls, c.rootId, n);
    NoOffenceIsOrderly(s, n, c.rootId, n);
    forall id | 0 <= id < n
      ensures Arrives(s, n, id) && (id == c.rootId || HasParent(s, n, id))
    {
      EventsMeaning(s, n, id);
    }
  }

  lemma InitNeedsRoom(roots: seq<seq<Byte>>, n: int)
    ensures Init(roots, n, false).err != TREE_OK
  {
  }

  // ------------------------------------------------------------------ the ring's view

  /** The stores made by the first i parts: the root is not stored. */
  function History(s: Session, i: nat): seq<Slot>
    requires s.Parses() && i <= |s.parts|
  {
    if i == 0 then []
    else if s.IsRoot(i - 1) then History(s, i - 1)
    else History(s, i - 1) + [Slot(s.Id(i - 1), s.HashAt(i - 1))]
  }

  lemma {:induction false} RingIsHistory(s: Session, i: nat)
    requires s.Parses() && i <= |s.parts|
    ensures s.State(i).ring == SetAll(s.start.ring, History(s, i))
  {
    hide *;
    HistoryStep(s, i);
    StateZero(s);
    if i > 0 {
      RingIsHistory(s, i - 1);
      StepEffects(s, i - 1);
      SetAllAppend(s.start.ring, History(s, i - 1), Slot(s.Id(i - 1), s.HashAt(i - 1)));
    }
  }

  lemma HistoryStep(s: Session, i: nat)
    requires s.Parses() && i <= |s.parts|
    ensures i == 0 ==> History(s, i) == [] && SetAll(s.start.ring, []) == s.start.ring
    ensures i > 0 && s.IsRoot(i - 1) ==> History(s, i) == History(s, i - 1)
    ensures i > 0 && !s.IsRoot(i - 1) ==> History(s, i) == History(s, i - 1) + [Slot(s.Id(i - 1), s.HashAt(i - 1))]
  {
    hide Session.HashAt, Session.IsRoot, Session.Id;
  }

  lemma SetAllAppend(r: Ring, history: seq<Slot>, slot: Slot)
    requires ValidRing(r)
    ensures SetAll(r, history + [slot]) == SetHash(SetAll(r, history), slot.id, slot.hash)
  {
    assert (history + [slot])[..|history|] == history;
  }

  /** Every store is the hash of an earlier part that is not the root, under its own id. */
  lemma {:induction false} HistoryOrigin(s: Session, i: nat, k: nat) returns (j: nat)
    requires s.Parses() && i <= |s.parts| && k < |History(s, i)|
    ensures k <= j < i && !s.IsRoot(j) && History(s, i)[k] == Slot(s.Id(j), s.HashAt(j))
    ensures History(s, j) == History(s, i)[..k]
  {
    hide Session.HashAt, Session.Parses, Session.IsRoot, Session.Id;
    var before := History(s, i - 1);
    if k < |before| {
      j := HistoryOrigin(s, i - 1, k);
      assert History(s, i)[..k] == before[..k];
    } else {
      j := i - 1;
      assert History(s, i)[..k] == before;
      HistorySize(s, j);
    }
  }

  lemma {:induction false} HistorySize(s: Session, i: nat)
    requires s.Parses() && i <= |s.parts|
    ensures |History(s, i)| <= i
  {
    hide Session.HashAt, Session.Parses, Session.IsRoot, Session.Id;
    if i > 0 {
      HistorySize(s, i - 1);
    }
  }

  lemma {:induction false} HistoryIsDistinct(s: Session, i: nat, root: int, n: int)
    requires s.Parses() && i <= |s.parts| && Orderly(s, i, root, n)
    ensures DistinctIds(History(s, i))
  {
    hide Session.HashAt, Session.Parses, Session.IsRoot, Session.Id, Orderly;
    if i > 0 {
      assert Orderly(s, i - 1, root, n) by { OrderlyPrefix(s, i - 1, i, root, n); }
      HistoryIsDistinct(s, i - 1, root, n);
      var before := History(s, i - 1);
      OrderlyIds(s, i, root, n);
      forall k | 0 <= k < |before|
        ensures before[k].id != s.Id(i - 1)
      {
        var j := HistoryOrigin(s, i - 1, k);
      }
    }
  }

  lemma OrderlyIds(s: Session, i: nat, root: int, n: int)
    requires i <= |s.parts| && Orderly(s, i, root, n)
    ensures forall j :: 0 <= j < i ==> 0 <= s.Id(j) < n
    ensures forall j, l :: 0 <= j < l < i ==> s.Id(j) != s.Id(l)
  {
  }

  lemma OrderlyPrefix(s: Session, i: nat, j: nat, root: int, n: int)
    requires i <= j <= |s.parts| && Orderly(s, j, root, n)
    ensures Orderly(s, i, root, n)
  {
  }

  // ------------------------------------------------------------------ the verdict over the parts

  /** The header starts the check, and no event of the parts offends. */
  ghost predicate TreeGood(s: Session)
  {
    s.start.tree.err == TREE_OK && 0 <= s.header.nodesCount && NoOffence(EventsUpTo(s, |s.parts|), s.RootId(), s.header.nodesCount)
  }

  /** Besides, the nodes that arrived are the ones that were claimed. */
  ghost predicate WellFormed(s: Session)
  {
    TreeGood(s) && Matched(EventsUpTo(s, |s.parts|), s.RootId(), s.header.nodesCount)
  }

  lemma StartedSession(s: Session)
    requires s.Parses() && s.start.tree.err == TREE_OK
    ensures 0 <= s.header.nodesCount && Started(s.start.tree, s.header.roots, s.header.nodesCount)
    ensures s.start.tree == Check(Flags([], s.RootId(), s.header.nodesCount), s.RootId(), TREE_OK)
  {
    hide NoOffence, Flags, Session.State;
    InitNeedsRoom(s.header.roots, s.header.nodesCount);
    StartedState(s.start.tree, s.header.roots, s.header.nodesCount);
  }

  /** The cached tree error, while the parts come in. */
  lemma TreeGoodIff(s: Session)
    requires s.Parses()
    ensures s.State(|s.parts|).tree.err == TREE_OK <==> TreeGood(s)
  {
    hide Session.State, Session.Parses, Run, Steps, NoOffence, Flags, Flatten, CallsUpTo, EventsUpTo, PartCalls;
    var c, n, calls, es := s.start.tree, |s.parts|, CallsUpTo(s, |s.parts|), EventsUpTo(s, |s.parts|);
    CallsDescribeTree(s, n);
    CallsDescribeEvents(s, n);
    RunIsSteps(c, calls);
    if c.err != TREE_OK {
      ErrorStays(c, es);
    } else {
      StartedSession(s);
      if NoOffence(es, s.RootId(), s.header.nodesCount) {
        CleanState(c, es, s.RootId(), s.header.nodesCount);
      } else {
        var i := EarliestOffence(es, s.RootId(), s.header.nodesCount);
        FirstOffenceWins(c, es, i, s.header.nodesCount);
      }
    }
  }

  /** The verdict, once all parts are in. */
  lemma WellFormedIff(s: Session)
    requires s.Parses()
    ensures Verify(s.State(|s.parts|).tree).err == TREE_OK <==> WellFormed(s)
  {
    hide Session.State, Session.Parses, Run, Verify, NoOffence, Matched, Flatten, CallsUpTo, EventsUpTo, PartCalls, Flags;
    var c, n, calls := s.start.tree, |s.parts|, CallsUpTo(s, |s.parts|);
    CallsDescribeTree(s, n);
    CallsDescribeEvents(s, n);
    if c.err != TREE_OK {
      InitErrorIsVerdict(c, calls);
    } else {
      StartedSession(s);
      TreeOkIff(c, s.header.roots, s.header.nodesCount, calls);
    }
  }
}
