/** When nodes sent from the highest id down are accepted: every child within 32 ids of its parent. */
module ReverseOrder {
  import opened Bytes
  import opened HashWriter
  import opened ValueStream
  import opened CanonicalNode
  import opened NodeTreeCheck
  import opened NodeHashStore
  import opened NodePhase
  import opened TreeVerdict
  import opened NodeTree
  import opened NodeMerkle

  // ------------------------------------------------------------------ the sessions considered

  /** n nodes under one root, the node ids counting down to the root, every node's own fields sound. */
  ghost predicate SentInReverse(s: Session)
  {
    s.Parses() && s.start.tree == Init(s.header.roots, s.header.nodesCount, true) && s.start.tree.err == TREE_OK &&
    s.RootId() == 0 && |s.parts| == s.header.nodesCount &&
    (forall i :: 0 <= i < |s.parts| ==> s.Id(i) == |s.parts| - 1 - i && ShellIsSound(s, i)) &&
    forall i :: 0 <= i < |s.parts| ==> (s.IsRoot(i) <==> s.Id(i) == 0)
  }

  /** Nothing but the children can make the hash of part i fail. */
  predicate ShellIsSound(s: Session, i: nat)
    requires i < |s.parts|
  {
    SoundNode(s.parts[i].body)
  }

  /** The claims form a tree in which a child's id is above its parent's: every id but the root's is
      claimed once, by a node with a smaller id. */
  ghost predicate ClaimsAscend(s: Session)
  {
    (forall i, k :: 0 <= i < |s.parts| && 0 <= k < |s.Kids(i)| ==> s.Id(i) < s.Kids(i)[k] < |s.parts|) &&
    (forall i, k, j, l :: (0 <= i < |s.parts| && 0 <= k < |s.Kids(i)| && 0 <= j < |s.parts| && 0 <= l < |s.Kids(j)| &&
      s.Kids(i)[k] == s.Kids(j)[l]) ==> i == j && k == l) &&
    forall id :: 0 < id < |s.parts| ==> HasParent(s, |s.parts|, id)
  }

  /** No edge spans more than 32 ids. */
  ghost predicate ShortEdges(s: Session)
  {
    forall i, k :: 0 <= i < |s.parts| && 0 <= k < |s.Kids(i)| ==> s.Kids(i)[k] - s.Id(i) <= 32
  }

  // ------------------------------------------------------------------ the tree check is satisfied

  lemma ReverseIsOrderly(s: Session)
    requires SentInReverse(s) && ClaimsAscend(s)
    ensures Orderly(s, |s.parts|, 0, |s.parts|)
  {
    hide Session.Parses, Session.Kids, Session.Id, Session.IsRoot, ShellIsSound, Init;
  }

  lemma NoOffenceAppend(es: seq<Event>, e: Event, root: int, n: nat)
    requires NoOffence(es, root, n) && Offence(es + [e], |es|, root, n) == TREE_OK
    ensures NoOffence(es + [e], root, n)
  {
    forall i | 0 <= i < |es|
      ensures Offence(es + [e], i, root, n) == TREE_OK
    {
      OffenceInPrefix(es, [e], i, root, n);
    }
  }

  /** New claims, one after another. */
  lemma {:induction false} NewClaims(es: seq<Event>, p: int, kids: seq<int>, root: int, n: nat)
    requires NoOffence(es, root, n)
    requires forall k :: 0 <= k < |kids| ==> 0 <= kids[k] < n && kids[k] != root && kids[k] != p && !ClaimedBy(es, kids[k])
    requires forall k, m :: 0 <= m < k < |kids| ==> kids[m] != kids[k]
    ensures NoOffence(es + Claims(p, kids), root, n)
    decreases |kids|
  {
    if |kids| == 0 {
      assert es + Claims(p, kids) == es;
    } else {
      var m := |kids| - 1;
      NewClaims(es, p, kids[..m], root, n);
      var before, e := es + Claims(p, kids[..m]), ClaimEvent(p, kids[m]);
      assert es + Claims(p, kids) == before + [e];
      assert (before + [e])[..|before|] == before;
      SeenConcat(es, Claims(p, kids[..m]), kids[m]);
      ClaimsMeaning(p, kids[..m], kids[m]);
      NoOffenceAppend(before, e, root, n);
    }
  }

  lemma NewMark(es: seq<Event>, id: int, root: int, n: nat)
    requires NoOffence(es, root, n) && 0 <= id < n && !Seen(es, id)
    ensures NoOffence(es + [Mark(id)], root, n)
  {
    assert (es + [Mark(id)])[..|es|] == es;
    NoOffenceAppend(es, Mark(id), root, n);
  }

  lemma OrderlyPart(s: Session, i: nat, root: int, n: int)
    requires i < |s.parts| && Orderly(s, i + 1, root, n)
    ensures Orderly(s, i, root, n) && 0 <= s.Id(i) < n && !Arrives(s, i, s.Id(i))
    ensures forall k :: 0 <= k < |s.Kids(i)| ==> 0 <= s.Kids(i)[k] < n && s.Kids(i)[k] != root && !HasParent(s, i, s.Kids(i)[k])
    ensures forall k, m :: 0 <= m < k < |s.Kids(i)| ==> s.Kids(i)[m] != s.Kids(i)[k]
  {
    hide Session.Kids, Session.Id;
  }

  /** Orderly parts that do not claim themselves do not offend. */
  lemma {:induction false} OrderlyDoesNotOffend(s: Session, i: nat, root: int, n: nat)
    requires i <= |s.parts| && Orderly(s, i, root, n)
    requires forall j, k :: 0 <= j < i && 0 <= k < |s.Kids(j)| ==> s.Kids(j)[k] != s.Id(j)
    ensures NoOffence(EventsUpTo(s, i), root, n)
  {
    hide Session.Kids, Session.Id, EventsUpTo, Orderly, NoOffence, Claims, Seen, ClaimedBy;
    EventsStep(s, i);
    if i == 0 {
      assert NoOffence([], root, n) by { NothingOffends(root, n); }
    } else {
      var p := i - 1;
      var es, kids := EventsUpTo(s, p), s.Kids(p);
      OrderlyPart(s, p, root, n);
      OrderlyDoesNotOffend(s, p, root, n);
      forall k | 0 <= k < |kids|
        ensures !ClaimedBy(es, kids[k])
      {
        EventsMeaning(s, p, kids[k]);
      }
      NewClaims(es, s.Id(p), kids, root, n);
      EventsMeaning(s, p, s.Id(p));
      SeenConcat(es, Claims(s.Id(p), kids), s.Id(p));
      ClaimsMeaning(s.Id(p), kids, s.Id(p));
      NewMark(es + Claims(s.Id(p), kids), s.Id(p), root, n);
    }
  }

  lemma NothingOffends(root: int, n: nat)
    ensures NoOffence([], root, n)
  {
  }

  /** Whatever the length of the edges, the tree check accepts the tree. */
  lemma ReverseTreeIsOk(s: Session)
    requires SentInReverse(s) && ClaimsAscend(s)
    ensures Verify(s.State(|s.parts|).tree).err == TREE_OK
  {
    hide Session.Parses, Session.State, Session.Kids, Session.Id, Session.IsRoot, ShellIsSound, Orderly, NoOffence, Claims, Seen, ClaimedBy,
         Verify, Init, EventsUpTo, CallsUpTo, Run, Flatten, HasParent, Arrives;
    var n, c := |s.parts|, s.start.tree;
    var calls := CallsUpTo(s, n);
    ReverseIsOrderly(s);
    OrderlyDoesNotOffend(s, n, 0, n);
    CallsDescribeTree(s, n);
    CallsDescribeEvents(s, n);
    AllSeen(calls, 0, n);
    forall id | 0 <= id < n
      ensures Seen(EventsUpTo(s, n), id) && Claimed(EventsUpTo(s, n), 0, id)
    {
      EventsMeaning(s, n, id);
    }
    TreeOkIff(c, s.header.roots, n, calls);
  }

  // ------------------------------------------------------------------ which children are still in the ring

  lemma ReverseBasics(s: Session, i: nat)
    requires SentInReverse(s) && i < |s.parts|
    ensures s.Parses() && s.Id(i) == |s.parts| - 1 - i && ShellIsSound(s, i) && (s.IsRoot(i) <==> i == |s.parts| - 1)
    ensures Emptied(s.start.ring) && s.start.err == HASH_OK
  {
    hide Session.Kids, Session.Id, Session.IsRoot, ShellIsSound, Init, PartParses;
  }

  lemma {:induction false} ReverseHistory(s: Session, i: nat)
    requires SentInReverse(s) && i < |s.parts|
    ensures s.Parses() && |History(s, i)| == i
    ensures forall m :: 0 <= m < i ==> History(s, i)[m].id == |s.parts| - 1 - m
  {
    hide *;
    ReverseBasics(s, i);
    HistoryStep(s, i);
    if i > 0 {
      ReverseBasics(s, i - 1);
      ReverseHistory(s, i - 1);
    }
  }

  /** A child that has arrived is found exactly when its id is at most 32 above the node's. */
  lemma ReverseLookup(s: Session, i: nat, c: nat)
    requires SentInReverse(s) && i < |s.parts| && s.Id(i) < c < |s.parts|
    ensures s.Parses() && (GetHash(s.State(i).ring, c).Some? <==> c - s.Id(i) <= 32)
  {
    hide SentInReverse, Session.Parses, Session.State, Session.Id, Session.IsRoot, History, SetAll, GetHash, Emptied;
    ReverseBasics(s, i);
    ReverseHistory(s, i);
    RingIsHistory(s, i);
    var history, m := History(s, i), |s.parts| - 1 - c;
    RingIsRecentMap(s.start.ring, history, c);
    assert history[m].id == c;
  }

  // ------------------------------------------------------------------ no hash error

  function Window(lo: int, m: nat): (w: set<int>)
    ensures |w| == m && forall x :: x in w <==> lo <= x < lo + m
  {
    if m == 0 then {} else Window(lo, m - 1) + {lo + m - 1}
  }

  lemma {:induction false} DistinctSize(xs: seq<int>)
    requires forall k, m :: 0 <= m < k < |xs| ==> xs[m] != xs[k]
    ensures |set x | x in xs| == |xs|
  {
    if |xs| == 0 {
      assert (set x | x in xs) == {};
    } else {
      var k := |xs| - 1;
      DistinctSize(xs[..k]);
      assert (set x | x in xs) == (set x | x in xs[..k]) + {xs[k]};
    }
  }

  /** Distinct ids in a window of 32 are at most 32. */
  lemma FewInWindow(xs: seq<int>, lo: int)
    requires forall k, m :: 0 <= m < k < |xs| ==> xs[m] != xs[k]
    requires forall k :: 0 <= k < |xs| ==> lo <= xs[k] < lo + 32
    ensures |xs| <= 32
  {
    DistinctSize(xs);
    var elems, w := (set x | x in xs), Window(lo, 32);
    assert elems <= w;
    assert |w - elems| == |w| - |elems|;
  }

  lemma ShortEdgesOf(s: Session, i: nat)
    requires SentInReverse(s) && ClaimsAscend(s) && ShortEdges(s) && i < |s.parts|
    ensures forall k :: 0 <= k < |s.Kids(i)| ==> s.Id(i) < s.Kids(i)[k] < |s.parts| && s.Kids(i)[k] <= s.Id(i) + 32 && s.Id(i) >= 0
    ensures forall k, m :: 0 <= m < k < |s.Kids(i)| ==> s.Kids(i)[m] != s.Kids(i)[k]
  {
    hide Session.Parses, Session.Kids, Session.Id, Session.IsRoot, ShellIsSound, Init;
  }

  /** With short edges, a part that meets no error adds none. */
  lemma ShortStep(s: Session, i: nat)
    requires SentInReverse(s) && ClaimsAscend(s) && ShortEdges(s) && i < |s.parts|
    requires s.Parses() && s.State(i).err == HASH_OK
    ensures s.State(i + 1).err == HASH_OK
  {
    hide *;
    StepEffects(s, i);
    ReverseBasics(s, i);
    ShortEdgesOf(s, i);
    KidCount(s, i);
    FewInWindow(s.Kids(i), s.Id(i) + 1);
    forall k | 0 <= k < |s.Kids(i)|
      ensures GetHash(s.State(i).ring, AToInt(ChildrenOf(s.parts[i].body)[k])).Some?
    {
      KidNumber(s, i, k);
      ReverseLookup(s, i, s.Kids(i)[k]);
    }
    SoundFeed(s, i);
  }

  /** A part of a sound node whose children are few and found. */
  lemma SoundFeed(s: Session, i: nat)
    requires s.Parses() && i < |s.parts| && s.State(i).err == HASH_OK && ShellIsSound(s, i)
    requires |ChildrenOf(s.parts[i].body)| <= 32
    requires forall k :: 0 <= k < |ChildrenOf(s.parts[i].body)| ==> GetHash(s.State(i).ring, AToInt(ChildrenOf(s.parts[i].body)[k])).Some?
    ensures s.FeedAt(i).err == HASH_OK
  {
    hide Session.State, GetHash, AToInt, SoundNode, NodeFeed, Begins, PartParses, ChildrenOf;
    assert PartParses(s.header, s.parts[i]);
    PartHashesIff(s.header, s.State(i).ring, s.State(i).err, s.parts[i]);
  }

  lemma {:induction false} ShortEdgesSuffice(s: Session, i: nat)
    requires SentInReverse(s) && ClaimsAscend(s) && ShortEdges(s) && i <= |s.parts|
    ensures s.Parses() && s.State(i).err == HASH_OK
  {
    hide *;
    if i == 0 {
      ReverseStart(s);
      StateZero(s);
    } else {
      ShortEdgesSuffice(s, i - 1);
      ShortStep(s, i - 1);
    }
  }

  lemma ReverseStart(s: Session)
    requires SentInReverse(s)
    ensures s.Parses() && s.start.err == HASH_OK && |s.parts| == s.header.nodesCount
  {
    hide Session.Kids, Session.Id, Session.IsRoot, ShellIsSound, Init, PartParses;
  }

  lemma AscendingKid(s: Session, i: nat, k: nat)
    requires ClaimsAscend(s) && i < |s.parts| && k < |s.Kids(i)|
    ensures s.Id(i) < s.Kids(i)[k] < |s.parts|
  {
    hide Session.Kids, Session.Id;
  }

  lemma ShortEdgesAreNeeded(s: Session)
    requires SentInReverse(s) && ClaimsAscend(s) && s.Parses() && s.State(|s.parts|).err == HASH_OK
    ensures ShortEdges(s)
  {
    hide SentInReverse, ClaimsAscend, Session.Parses, Session.State, Session.Id, Session.IsRoot, Session.Kids, Session.FeedAt, GetHash, AToInt;
    forall i, k | 0 <= i < |s.parts| && 0 <= k < |s.Kids(i)|
      ensures s.Kids(i)[k] - s.Id(i) <= 32
    {
      ErrorsStayClear(s, i);
      var hs := FeedAtLoads(s, i);
      AscendingKid(s, i, k);
      ReverseBasics(s, i);
      KidNumber(s, i, k);
      ReverseLookup(s, i, s.Kids(i)[k]);
    }
  }

  /** The exact bound: nodes sent from the highest id down are accepted if and only if every child's id is
      at most 32 above its parent's. */
  lemma ReverseOrderIsAcceptedIff(s: Session)
    requires SentInReverse(s) && ClaimsAscend(s)
    ensures s.Accepted() <==> ShortEdges(s)
    ensures ShortEdges(s) ==> RootSpelled(s)
  {
    hide SentInReverse, ClaimsAscend, ShortEdges, Session.Parses, Session.State, Session.Id, Session.IsRoot, Session.Kids, Verify;
    ReverseTreeIsOk(s);
    ReverseStart(s);
    if ShortEdges(s) {
      ShortEdgesSuffice(s, |s.parts|);
      ReverseRoot(s);
    }
    if s.Accepted() {
      ShortEdgesAreNeeded(s);
    }
  }

  lemma ReverseRoot(s: Session)
    requires SentInReverse(s)
    ensures RootSpelled(s)
  {
    hide Session.Kids, Session.Id, Session.IsRoot, ShellIsSound, PartParses;
    assert |s.parts| > 0;
    assert s.IsRoot(|s.parts| - 1);
  }
}
