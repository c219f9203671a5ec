/** The headline: an accepted node phase unfolds into one rooted tree over all announced ids, and what
    enters the transaction hash is the Merkle hash of that tree. */
module NodeMerkle {
  import opened Bytes
  import opened HashWriter
  import opened ValueStream
  import opened CanonicalNode
  import opened NodeTreeCheck
  import opened NodeHashStore
  import opened NodePhase
  import opened TreeVerdict
  import opened NodeTree

  // ------------------------------------------------------------------ errors latch over the run

  /** A part is hashed without an error exactly when there was none before, its fields are sound, and each of
      at most 32 children has a hash in the ring. */
  lemma PartHashesIff(hdr: Header, ring: Ring, err: HashError, part: NodePart)
    requires PartParses(hdr, part)
    ensures NodeFeed(hdr, ring, err, part).err == HASH_OK <==>
      err == HASH_OK && SoundNode(part.body) && |ChildrenOf(part.body)| <= 32 &&
      forall k :: 0 <= k < |ChildrenOf(part.body)| ==> GetHash(ring, AToInt(ChildrenOf(part.body)[k])).Some?
  {
    hide IsComplete, StreamShell, SoundNode, SeedEntry, GetHash, AToInt, U32, FeedNodeIds;
    ShellLatches(part.body, SeedOf(hdr, part), Blank(err));
    var feed := StreamShell(part.body, SeedOf(hdr, part), Blank(err)).feed;
    NodeIdsLatch(ring, ChildrenOf(part.body), Put(feed, U32(|ChildrenOf(part.body)|)));
  }

  lemma {:induction false} NodeIdsLatch(ring: Ring, ids: seq<Str>, f: Feed)
    ensures FeedNodeIds(ring, ids, f).err == HASH_OK <==>
      f.err == HASH_OK && forall k :: 0 <= k < |ids| ==> GetHash(ring, AToInt(ids[k])).Some?
  {
    hide GetHash, AToInt;
    if |ids| > 0 && GetHash(ring, AToInt(ids[0])).Some? {
      NodeIdsLatch(ring, ids[1..], Put(f, GetHash(ring, AToInt(ids[0])).value));
      assert forall k :: 0 < k < |ids| ==> ids[k] == ids[1..][k - 1];
    }
  }

  /** The children were all found, and their hashes are what was written. */
  ghost predicate Loaded(ring: Ring, ids: seq<Str>, hs: seq<seq<Byte>>)
  {
    |hs| == |ids| && forall k :: 0 <= k < |ids| ==> GetHash(ring, AToInt(ids[k])) == Some(hs[k])
  }

  lemma {:induction false} FeedNodeIdsLoads(ring: Ring, ids: seq<Str>, f: Feed) returns (hs: seq<seq<Byte>>)
    requires FeedNodeIds(ring, ids, f).err == HASH_OK
    ensures f.err == HASH_OK && Loaded(ring, ids, hs)
    ensures FeedNodeIds(ring, ids, f).out == f.out + ConcatHashes(hs)
  {
    if |ids| == 0 {
      hs := [];
    } else {
      var first := GetHash(ring, AToInt(ids[0])).value;
      var rest := FeedNodeIdsLoads(ring, ids[1..], Put(f, first));
      hs := [first] + rest;
      assert hs[1..] == rest;
      Assoc(f.out, first, ConcatHashes(rest));
    }
  }

  lemma FeedChildrenLoads(ring: Ring, body: NodeBody, f: Feed) returns (hs: seq<seq<Byte>>)
    requires FeedChildren(ring, body, f).err == HASH_OK
    ensures f.err == HASH_OK && Loaded(ring, ChildrenOf(body), hs) && |hs| <= MAX_NODE_CHILDREN
    ensures FeedChildren(ring, body, f).out == f.out + ChildBytes(body, hs)
  {
    hide U32, GetHash;
    if HasChildren(body) {
      var kids := ChildrenOf(body);
      hs := FeedNodeIdsLoads(ring, kids, Put(f, U32(|kids|)));
      Assoc(f.out, U32(|kids|), ConcatHashes(hs));
    } else {
      hs := [];
      assert f.out + [] == f.out;
    }
  }

  /** A part hashed without error: the state had none, and the bytes are those of the node with its
      children's stored hashes. */
  lemma FeedAtLoads(s: Session, i: nat) returns (hs: seq<seq<Byte>>)
    requires s.Parses() && i < |s.parts| && s.FeedAt(i).err == HASH_OK
    ensures s.State(i).err == HASH_OK && Loaded(s.State(i).ring, ChildrenOf(s.parts[i].body), hs)
    ensures s.FeedAt(i).out == NodeStream(s.parts[i].body, SeedOf(s.header, s.parts[i]), hs)
  {
    hide StreamShell, FeedChildren, Session.State, ChildBytes, Loaded;
    var part, st := s.parts[i], s.State(i);
    var shell := StreamShell(part.body, SeedOf(s.header, part), Blank(st.err)).feed;
    hs := FeedChildrenLoads(st.ring, part.body, shell);
    if st.err != HASH_OK {
      ShellLatches(part.body, SeedOf(s.header, part), Blank(st.err));
    }
  }

  lemma {:induction false} ErrorsStayClear(s: Session, i: nat)
    requires s.Parses() && i <= |s.parts| && s.State(|s.parts|).err == HASH_OK
    ensures s.State(i).err == HASH_OK
    ensures i < |s.parts| ==> s.FeedAt(i).err == HASH_OK
    decreases |s.parts| - i
  {
    hide *;
    if i < |s.parts| {
      ErrorsStayClear(s, i + 1);
      StepEffects(s, i);
      var hs := FeedAtLoads(s, i);
    }
  }

  // ------------------------------------------------------------------ children arrive first

  /** A child's looked-up hash is the hash of an earlier part that is not the root. */
  lemma KidArrival(s: Session, i: nat, k: nat, hash: seq<Byte>) returns (j: nat)
    requires s.Accepted() && i < |s.parts| && k < |s.Kids(i)|
    requires GetHash(s.State(i).ring, s.Kids(i)[k]) == Some(hash) && s.Kids(i)[k] >= 0
    ensures j < i && s.Id(j) == s.Kids(i)[k] && !s.IsRoot(j) && hash == s.HashAt(j)
  {
    hide *;
    var n, id := |s.parts|, s.Kids(i)[k];
    AcceptedBegins(s);
    AcceptedIsOrderly(s);
    OrderlyPrefix(s, i, n, s.RootId(), n);
    HistoryIsDistinct(s, i, s.RootId(), n);
    RingIsHistory(s, i);
    var m := RecentOrigin(s.start.ring, History(s, i), id);
    j := HistoryOrigin(s, i, m);
  }

  lemma AcceptedBegins(s: Session)
    requires s.Accepted()
    ensures s.Parses() && Emptied(s.start.ring) && |s.parts| == s.header.nodesCount
    ensures s.State(|s.parts|).err == HASH_OK && Verify(s.State(|s.parts|).tree).err == TREE_OK
  {
  }

  lemma RecentOrigin(r: Ring, history: seq<Slot>, id: nat) returns (m: nat)
    requires Emptied(r) && DistinctIds(history) && GetHash(SetAll(r, history), id).Some?
    ensures m < |history| && history[m].id == id && GetHash(SetAll(r, history), id) == Some(history[m].hash)
  {
    hide SetAll, GetHash;
    RingIsRecentMap(r, history, id);
    m :| 0 <= m < |history| && |history| <= m + 32 && history[m].id == id;
  }

  /** Every child of part i arrived before part i. */
  ghost predicate ChildrenFirst(s: Session)
  {
    forall i, k :: 0 <= i < |s.parts| && 0 <= k < |s.Kids(i)| ==> Arrives(s, i, s.Kids(i)[k])
  }

  lemma KidNumber(s: Session, i: nat, k: nat)
    requires i < |s.parts| && k < |s.Kids(i)|
    ensures |s.Kids(i)| == |ChildrenOf(s.parts[i].body)|
    ensures s.Kids(i)[k] >= 0 ==> AToInt(ChildrenOf(s.parts[i].body)[k]) == s.Kids(i)[k]
  {
  }

  lemma KidInRange(s: Session, i: nat, k: nat)
    requires s.Accepted() && i < |s.parts| && k < |s.Kids(i)|
    ensures 0 <= s.Kids(i)[k] < |s.parts| && s.Kids(i)[k] != s.RootId()
  {
    hide Session.Accepted, Session.Kids, Session.Id, Session.RootId;
    AcceptedIsOrderly(s);
  }

  lemma AcceptedChildrenFirst(s: Session)
    requires s.Accepted()
    ensures ChildrenFirst(s)
  {
    hide Session.Accepted, Session.Parses, Session.State, Session.FeedAt, GetHash, Session.Kids, Session.Id, AToInt;
    AcceptedBegins(s);
    forall i, k | 0 <= i < |s.parts| && 0 <= k < |s.Kids(i)|
      ensures Arrives(s, i, s.Kids(i)[k])
    {
      ErrorsStayClear(s, i);
      var hs := FeedAtLoads(s, i);
      KidInRange(s, i, k);
      KidNumber(s, i, k);
      var j := KidArrival(s, i, k, hs[k]);
    }
  }

  // ------------------------------------------------------------------ the tree

  datatype Tree = Tree(id: int, body: NodeBody, seed: Option<seq<Byte>>, kids: seq<Tree>)

  predicate HashableTree(t: Tree)
  {
    IsComplete(t.body) && (t.body.Exercise? ==> t.seed.Some?) && forall k :: 0 <= k < |t.kids| ==> HashableTree(t.kids[k])
  }

  /** The Merkle hash: a node is hashed with the hashes of its children, in order. */
  function TreeHash(h: Sha256, t: Tree): seq<Byte>
    requires HashableTree(t)
    decreases t, 0
  {
    h(NodeStream(t.body, t.seed, TreeHashes(h, t.kids)))
  }

  function TreeHashes(h: Sha256, ts: seq<Tree>): (hs: seq<seq<Byte>>)
    requires forall k :: 0 <= k < |ts| ==> HashableTree(ts[k])
    ensures |hs| == |ts|
    ensures forall k :: 0 <= k < |ts| ==> hs[k] == TreeHash(h, ts[k])
  {
    if |ts| == 0 then [] else [TreeHash(h, ts[0])] + TreeHashes(h, ts[1..])
  }

  function NodesOf(t: Tree): multiset<int> { multiset{t.id} + NodesOfAll(t.kids) }

  function NodesOfAll(ts: seq<Tree>): multiset<int>
  {
    if |ts| == 0 then multiset{} else NodesOf(ts[0]) + NodesOfAll(ts[1..])
  }

  /** t is the node with its id, and under it the nodes it claims, in order. */
  ghost predicate Unfolds(s: Session, t: Tree)
    decreases t, 1
  {
    exists j :: 0 <= j < |s.parts| && UnfoldsAt(s, t, j)
  }

  ghost predicate UnfoldsAt(s: Session, t: Tree, j: nat)
    requires j < |s.parts|
    decreases t, 0
  {
    t.id == s.Id(j) && t.body == Shell(s.parts[j].body) && t.seed == SeedOf(s.header, s.parts[j]) &&
    |t.kids| == |s.Kids(j)| &&
    forall k :: 0 <= k < |t.kids| ==> t.kids[k].id == s.Kids(j)[k] && Unfolds(s, t.kids[k])
  }

  /** The part that carries an id. */
  ghost function ArrivalOf(s: Session, i: nat, id: int): (j: nat)
    requires i <= |s.parts| && Arrives(s, i, id)
    ensures j < i && s.Id(j) == id
  {
    if s.Id(i - 1) == id then i - 1 else ArrivalOf(s, i - 1, id)
  }

  ghost function BuildTree(s: Session, i: nat): (t: Tree)
    requires ChildrenFirst(s) && i < |s.parts|
    ensures t.id == s.Id(i) && t.body == Shell(s.parts[i].body) && t.seed == SeedOf(s.header, s.parts[i])
    ensures |t.kids| == |s.Kids(i)|
    ensures forall k :: 0 <= k < |t.kids| ==> t.kids[k] == BuildTree(s, ArrivalOf(s, i, s.Kids(i)[k]))
    decreases i
  {
    Tree(s.Id(i), Shell(s.parts[i].body), SeedOf(s.header, s.parts[i]),
         seq(|s.Kids(i)|, k requires 0 <= k < |s.Kids(i)| => BuildTree(s, ArrivalOf(s, i, s.Kids(i)[k]))))
  }

  // ------------------------------------------------------------------ the tree theorem

  /** Where a child is claimed: the only claim of that id. */
  ghost predicate ClaimedAt(s: Session, p: nat, k: nat, id: int)
  {
    p < |s.parts| && k < |s.Kids(p)| && s.Kids(p)[k] == id
  }

  /** What Orderly and ChildrenFirst say, without the rest of acceptance. */
  ghost predicate Shaped(s: Session)
  {
    |s.parts| > 0 && ChildrenFirst(s) && Orderly(s, |s.parts|, s.RootId(), |s.parts|)
  }

  lemma ShapedIsNonEmpty(s: Session)
    requires Shaped(s)
    ensures |s.parts| > 0 && ChildrenFirst(s)
  {
  }

  lemma SameClaim(s: Session, p: nat, k: nat, q: nat, l: nat, id: int)
    requires Shaped(s) && ClaimedAt(s, p, k, id) && ClaimedAt(s, q, l, id)
    ensures p == q && k == l
  {
    hide Session.Kids, Session.Id;
  }

  lemma ArrivalIsUnique(s: Session, i: nat, j: nat)
    requires Shaped(s) && i <= |s.parts| && j < |s.parts|
    ensures Arrives(s, i, s.Id(j)) <==> j < i
  {
    hide Session.Kids, Session.Id;
  }

  /** A node counts nothing that has not arrived with it. */
  lemma {:induction false} NotYetCounted(s: Session, i: nat, id: int)
    requires Shaped(s) && i < |s.parts| && !Arrives(s, i + 1, id)
    ensures ChildrenFirst(s) && NodesOf(BuildTree(s, i))[id] == 0
    decreases i, 1
  {
    hide Session.Kids, Session.Id, Shaped;
    ShapedIsNonEmpty(s);
    KidsNotYetCounted(s, i, 0, id);
    assert BuildTree(s, i).kids[0..] == BuildTree(s, i).kids;
  }

  lemma {:induction false} KidsNotYetCounted(s: Session, i: nat, m: nat, id: int)
    requires Shaped(s) && i < |s.parts| && m <= |s.Kids(i)| && !Arrives(s, i, id)
    ensures ChildrenFirst(s) && NodesOfAll(BuildTree(s, i).kids[m..])[id] == 0
    decreases i, 0, |s.Kids(i)| - m
  {
    hide Session.Kids, Session.Id, Shaped, NodesOf;
    ShapedIsNonEmpty(s);
    if m < |s.Kids(i)| {
      var kids, j := BuildTree(s, i).kids, ArrivalOf(s, i, s.Kids(i)[m]);
      assert kids[m..][0] == BuildTree(s, j) && kids[m..][1..] == kids[m + 1..];
      NotYetCounted(s, j, id);
      KidsNotYetCounted(s, i, m + 1, id);
    }
  }

  lemma CountedOnce(s: Session, i: nat)
    requires Shaped(s) && i < |s.parts|
    ensures ChildrenFirst(s) && NodesOf(BuildTree(s, i))[s.Id(i)] == 1
  {
    hide Session.Kids, Session.Id, Shaped;
    ShapedIsNonEmpty(s);
    ArrivalIsUnique(s, i, i);
    KidsNotYetCounted(s, i, 0, s.Id(i));
    assert BuildTree(s, i).kids[0..] == BuildTree(s, i).kids;
  }

  /** A claimed node occurs below a part as often as the part that claims it. */
  lemma {:induction false} CountedWithParent(s: Session, i: nat, p: nat, k: nat, id: int)
    requires Shaped(s) && i < |s.parts| && ClaimedAt(s, p, k, id) && s.Id(i) != id
    ensures NodesOf(BuildTree(s, i))[id] == NodesOf(BuildTree(s, i))[s.Id(p)]
    decreases i, 1
  {
    hide Session.Kids, Session.Id, Shaped;
    ShapedIsNonEmpty(s);
    var t := BuildTree(s, i);
    assert t.kids[0..] == t.kids;
    KidsCountedWithParent(s, i, 0, p, k, id);
    if p == i {
      ArrivalIsUnique(s, i, i);
      KidsNotYetCounted(s, i, 0, s.Id(i));
    } else {
      ArrivalIsUnique(s, i, p);
      IdsDiffer(s, i, p);
    }
  }

  lemma IdsDiffer(s: Session, i: nat, p: nat)
    requires Shaped(s) && i < |s.parts| && p < |s.parts| && i != p
    ensures s.Id(i) != s.Id(p)
  {
    hide Session.Kids, Session.Id;
  }

  lemma {:induction false} KidsCountedWithParent(s: Session, i: nat, m: nat, p: nat, k: nat, id: int)
    requires Shaped(s) && i < |s.parts| && m <= |s.Kids(i)| && ClaimedAt(s, p, k, id)
    ensures NodesOfAll(BuildTree(s, i).kids[m..])[id] ==
      NodesOfAll(BuildTree(s, i).kids[m..])[s.Id(p)] + if p == i && m <= k then 1 else 0
    decreases i, 0, |s.Kids(i)| - m
  {
    hide Session.Kids, Session.Id, Shaped, NodesOf;
    ShapedIsNonEmpty(s);
    if m < |s.Kids(i)| {
      var kids, j := BuildTree(s, i).kids, ArrivalOf(s, i, s.Kids(i)[m]);
      assert kids[m..][0] == BuildTree(s, j) && kids[m..][1..] == kids[m + 1..];
      KidsCountedWithParent(s, i, m + 1, p, k, id);
      if s.Id(j) == id {
        SameClaim(s, p, k, i, m, id);
        CountedOnce(s, j);
        ArrivalIsUnique(s, j + 1, i);
        NotYetCounted(s, j, s.Id(i));
      } else {
        CountedWithParent(s, j, p, k, id);
      }
    }
  }

  lemma AcceptedIsShaped(s: Session)
    requires s.Accepted()
    ensures Shaped(s) && 0 <= s.RootId() < |s.parts|
    ensures forall id :: 0 <= id < |s.parts| ==> Arrives(s, |s.parts|, id) && (id == s.RootId() || HasParent(s, |s.parts|, id))
  {
    hide Session.Accepted, ChildrenFirst, Orderly, Arrives, HasParent;
    AcceptedIsOrderly(s);
    AcceptedChildrenFirst(s);
  }

  /** A part that is not the root is claimed by a later part. */
  lemma ParentIsLater(s: Session, j: nat) returns (p: nat, k: nat)
    requires s.Accepted() && j < |s.parts| && s.Id(j) != s.RootId()
    ensures ClaimedAt(s, p, k, s.Id(j)) && j < p
  {
    hide Session.Accepted, Session.Kids, Session.Id, Session.RootId, Shaped;
    AcceptedIsShaped(s);
    ShapedIsNonEmpty(s);
    PartIdInRange(s, j);
    assert HasParent(s, |s.parts|, s.Id(j)) by {
      assert Arrives(s, |s.parts|, s.Id(j));
    }
    p, k :| 0 <= p < |s.parts| && 0 <= k < |s.Kids(p)| && s.Kids(p)[k] == s.Id(j);
    assert Arrives(s, p, s.Kids(p)[k]);
    ArrivalIsUnique(s, p, j);
  }

  lemma PartIdInRange(s: Session, j: nat)
    requires Shaped(s) && j < |s.parts|
    ensures 0 <= s.Id(j) < |s.parts|
  {
    hide Session.Kids, Session.Id;
  }

  lemma RootIsLast(s: Session)
    requires s.Accepted()
    ensures |s.parts| > 0 && s.Id(|s.parts| - 1) == s.RootId()
  {
    hide *;
    AcceptedIsShaped(s);
    ShapedIsNonEmpty(s);
    if s.Id(|s.parts| - 1) != s.RootId() {
      var p, k := ParentIsLater(s, |s.parts| - 1);
      ClaimedInRange(s, p, k, s.Id(|s.parts| - 1));
    }
  }

  lemma ClaimedInRange(s: Session, p: nat, k: nat, id: int)
    requires ClaimedAt(s, p, k, id)
    ensures p < |s.parts|
  {
  }

  /** Every part is in the root's tree once. */
  lemma {:induction false} EveryPartOnce(s: Session, j: nat)
    requires s.Accepted() && Shaped(s) && j < |s.parts|
    ensures NodesOf(BuildTree(s, |s.parts| - 1))[s.Id(j)] == 1
    decreases |s.parts| - j
  {
    hide Session.Accepted, Session.Kids, Session.Id, Session.RootId, Orderly, NodesOf;
    var last := |s.parts| - 1;
    if j == last {
      CountedOnce(s, last);
    } else {
      RootIsLast(s);
      IdsDiffer(s, last, j);
      var p, k := ParentIsLater(s, j);
      EveryPartOnce(s, p);
      CountedWithParent(s, last, p, k, s.Id(j));
    }
  }

  lemma {:induction false} BuildUnfolds(s: Session, i: nat)
    requires ChildrenFirst(s) && i < |s.parts|
    ensures UnfoldsAt(s, BuildTree(s, i), i)
    decreases i
  {
    hide Session.Kids, Session.Id;
    var t := BuildTree(s, i);
    forall k | 0 <= k < |t.kids|
      ensures t.kids[k].id == s.Kids(i)[k] && Unfolds(s, t.kids[k])
    {
      var j := ArrivalOf(s, i, s.Kids(i)[k]);
      BuildUnfolds(s, j);
      assert UnfoldsAt(s, t.kids[k], j);
    }
  }

  /** Every create and exercise of the tree carries the seed the header lists for its id. */
  ghost predicate SeedsSay(seeds: seq<NodeSeed>, t: Tree)
  {
    (if t.body.Create? || t.body.Exercise? then SeedSays(seeds, t.id, t.seed) && (t.seed.Some? ==> |t.seed.value| == 32) else t.seed.None?) &&
    forall k :: 0 <= k < |t.kids| ==> SeedsSay(seeds, t.kids[k])
  }

  lemma PartSeed(s: Session, i: nat)
    requires s.Parses() && i < |s.parts|
    ensures
      var body, seed := s.parts[i].body, SeedOf(s.header, s.parts[i]);
      if body.Create? || body.Exercise? then SeedSays(s.header.seeds, s.Id(i), seed) && (seed.Some? ==> |seed.value| == 32) else seed.None?
  {
    hide IsComplete, Begins, AToInt;
    SeedEntryIsFirst(s.header.seeds, s.Id(i));
  }

  lemma {:induction false} BuildSeeds(s: Session, i: nat)
    requires s.Parses() && ChildrenFirst(s) && i < |s.parts|
    ensures SeedsSay(s.header.seeds, BuildTree(s, i))
    decreases i
  {
    hide Session.Parses, Session.Kids, Session.Id, SeedSays;
    PartSeed(s, i);
    forall k | 0 <= k < |BuildTree(s, i).kids|
      ensures SeedsSay(s.header.seeds, BuildTree(s, i).kids[k])
    {
      BuildSeeds(s, ArrivalOf(s, i, s.Kids(i)[k]));
    }
  }

  /** The tree under the last part contains every announced id once, and no other id. */
  lemma EveryIdOnce(s: Session, id: int)
    requires s.Accepted() && Shaped(s)
    ensures |s.parts| > 0 && ChildrenFirst(s)
    ensures NodesOf(BuildTree(s, |s.parts| - 1))[id] == if 0 <= id < |s.parts| then 1 else 0
  {
    hide Session.Accepted, Session.Kids, Session.Id, Session.RootId, Orderly, NodesOf;
    AcceptedIsShaped(s);
    var n := |s.parts|;
    if 0 <= id < n {
      EveryPartOnce(s, ArrivalOf(s, n, id));
    } else {
      forall j | 0 <= j < n
        ensures s.Id(j) != id
      {
        PartIdInRange(s, j);
      }
      NotYetCounted(s, n - 1, id);
    }
  }

  lemma IdsCounted(n: nat, id: int)
    ensures multiset(Ids(n))[id] == if 0 <= id < n then 1 else 0
  {
    assert id in Ids(n) <==> 0 <= id < n;
  }

  lemma TreeHoldsIds(s: Session)
    requires s.Accepted() && Shaped(s)
    ensures |s.parts| > 0 && ChildrenFirst(s)
    ensures NodesOf(BuildTree(s, |s.parts| - 1)) == multiset(Ids(|s.parts|))
  {
    hide *;
    ShapedIsNonEmpty(s);
    forall id
      ensures NodesOf(BuildTree(s, |s.parts| - 1))[id] == multiset(Ids(|s.parts|))[id]
    {
      EveryIdOnce(s, id);
      IdsCounted(|s.parts|, id);
    }
  }

  lemma TreeUnfolds(s: Session, i: nat)
    requires ChildrenFirst(s) && i < |s.parts|
    ensures Unfolds(s, BuildTree(s, i)) && BuildTree(s, i).id == s.Id(i)
  {
    hide UnfoldsAt, Session.Kids, Session.Id, ChildrenFirst;
    BuildUnfolds(s, i);
  }

  /** The claims of an accepted phase unfold into one tree: rooted at the header's root, over all the
      announced ids, each exactly once, with the seeds the header lists; and the root arrives last. */
  lemma TreeTheorem(s: Session) returns (t: Tree)
    requires s.Accepted()
    ensures |s.parts| > 0 && s.Id(|s.parts| - 1) == s.RootId() == t.id
    ensures Unfolds(s, t)
    ensures NodesOf(t) == multiset(Ids(|s.parts|))
    ensures ChildrenFirst(s) && t == BuildTree(s, |s.parts| - 1)
    ensures SeedsSay(s.header.seeds, t)
  {
    hide *;
    RootIsLast(s);
    AcceptedIsShaped(s);
    ShapedIsNonEmpty(s);
    AcceptedBegins(s);
    t := BuildTree(s, |s.parts| - 1);
    TreeUnfolds(s, |s.parts| - 1);
    TreeHoldsIds(s);
    BuildSeeds(s, |s.parts| - 1);
  }

  /** There is only one such tree: ids are carried by one part each. */
  lemma {:induction false} UnfoldingIsUnique(s: Session, t: Tree, u: Tree)
    requires Shaped(s) && Unfolds(s, t) && Unfolds(s, u) && t.id == u.id
    ensures t == u
  {
    hide Session.Kids, Session.Id, Orderly;
    var i :| 0 <= i < |s.parts| && UnfoldsAt(s, t, i);
    var j :| 0 <= j < |s.parts| && UnfoldsAt(s, u, j);
    if i != j {
      IdsDiffer(s, i, j);
    }
    forall k | 0 <= k < |t.kids|
      ensures t.kids[k] == u.kids[k]
    {
      UnfoldingIsUnique(s, t.kids[k], u.kids[k]);
    }
  }

  // ------------------------------------------------------------------ the Merkle hash

  /** The bytes of a node do not mention the ids of its children. */
  lemma NodeStreamOfShell(b: NodeBody, seed: Option<seq<Byte>>, hs: seq<seq<Byte>>)
    requires IsComplete(b) && (b.Exercise? ==> seed.Some?)
    ensures IsComplete(Shell(b)) && (Shell(b).Exercise? ==> seed.Some?)
    ensures NodeStream(b, seed, hs) == NodeStream(Shell(b), seed, hs)
  {
    hide StreamCreate, StreamExercise, StreamFetch, U32, ConcatHashes, CompleteIdentifier;
  }

  lemma PartIsHashable(s: Session, i: nat)
    requires s.Parses() && i < |s.parts|
    ensures var b, seed := s.parts[i].body, SeedOf(s.header, s.parts[i]); IsComplete(b) && (b.Exercise? ==> seed.Some?)
  {
    hide IsComplete, SeedEntry;
    assert PartParses(s.header, s.parts[i]);
  }

  lemma {:induction false} BuildIsHashable(s: Session, i: nat)
    requires s.Parses() && ChildrenFirst(s) && i < |s.parts|
    ensures HashableTree(BuildTree(s, i))
    decreases i
  {
    hide Session.Parses, Session.Kids, Session.Id, IsComplete, Shell;
    PartIsHashable(s, i);
    NodeStreamOfShell(s.parts[i].body, SeedOf(s.header, s.parts[i]), []);
    var t := BuildTree(s, i);
    forall k | 0 <= k < |t.kids|
      ensures HashableTree(t.kids[k])
    {
      BuildIsHashable(s, ArrivalOf(s, i, s.Kids(i)[k]));
    }
  }

  /** By arrival order: the hash of a part is the Merkle hash of the tree under it, although its
      children's hashes came out of the ring. */
  lemma {:induction false} HashIsTreeHash(s: Session, i: nat)
    requires s.Accepted() && ChildrenFirst(s) && i < |s.parts|
    requires HashableTree(BuildTree(s, i))
    ensures s.HashAt(i) == TreeHash(s.h, BuildTree(s, i))
    decreases i
  {
    hide Session.Accepted, Session.Parses, Session.State, Session.FeedAt, GetHash, Session.Kids, Session.Id, AToInt, NodeStream, Shell,
         IsComplete, SeedOf, HasChildren;
    AcceptedBegins(s);
    AcceptedIsShaped(s);
    ErrorsStayClear(s, i);
    var hs := FeedAtLoads(s, i);
    var t := BuildTree(s, i);
    PartIsHashable(s, i);
    NodeStreamOfShell(s.parts[i].body, SeedOf(s.header, s.parts[i]), hs);
    var us := TreeHashes(s.h, t.kids);
    forall k | 0 <= k < |t.kids|
      ensures |hs| == |t.kids| && hs[k] == us[k]
    {
      KidInRange(s, i, k);
      KidNumber(s, i, k);
      var j := KidArrival(s, i, k, hs[k]);
      var a := ArrivalOf(s, i, s.Kids(i)[k]);
      if a != j {
        IdsDiffer(s, a, j);
      }
      HashIsTreeHash(s, j);
    }
    KidCount(s, i);
    assert hs == us;
  }

  lemma KidCount(s: Session, i: nat)
    requires i < |s.parts|
    ensures |s.Kids(i)| == |ChildrenOf(s.parts[i].body)|
  {
  }

  /** The root is spelled as in the header by some part. */
  ghost predicate RootSpelled(s: Session) { exists i :: 0 <= i < |s.parts| && s.IsRoot(i) }

  lemma RootSpellingIsRoot(s: Session, i: nat)
    requires s.Accepted() && i < |s.parts| && s.IsRoot(i)
    ensures i == |s.parts| - 1
  {
    hide Session.Accepted, AToInt, AllDigits, Orderly;
    AcceptedIsOrderly(s);
    AcceptedIsShaped(s);
    RootIsLast(s);
    assert s.parts[i].id.value == s.header.roots[0];
    if i != |s.parts| - 1 {
      IdsDiffer(s, i, |s.parts| - 1);
    }
  }

  lemma SpelledLast(s: Session)
    requires s.Accepted() && |s.parts| > 0
    ensures RootSpelled(s) <==> s.IsRoot(|s.parts| - 1)
  {
    hide Session.Accepted, Session.IsRoot;
    if i :| 0 <= i < |s.parts| && s.IsRoot(i) {
      RootSpellingIsRoot(s, i);
    }
  }

  lemma {:induction false} HasherCollectsRoots(s: Session, i: nat)
    requires s.Accepted() && i <= |s.parts|
    ensures s.Parses()
    ensures s.State(i).hasher ==
      s.start.hasher + if i == |s.parts| && i > 0 && s.IsRoot(i - 1) then s.HashAt(i - 1) else []
    decreases i
  {
    hide Session.Accepted, Session.Parses, Session.State, Session.HashAt, Session.IsRoot;
    AcceptedBegins(s);
    if i == 0 {
      StateZero(s);
      assert s.start.hasher + [] == s.start.hasher;
    } else {
      HasherCollectsRoots(s, i - 1);
      StepEffects(s, i - 1);
      if s.IsRoot(i - 1) {
        RootSpellingIsRoot(s, i - 1);
      }
      assert s.start.hasher + [] == s.start.hasher;
    }
  }

  /** Merkle soundness. What the node phase adds to the transaction hash is the Merkle hash of the tree
      under the root, if the root arrived under its header spelling, and nothing otherwise; the seeds in it
      are those the header lists. */
  lemma MerkleSoundness(s: Session, t: Tree)
    requires s.Accepted() && Unfolds(s, t) && t.id == s.RootId()
    ensures s.Parses() && HashableTree(t)
    ensures s.State(|s.parts|).hasher == s.start.hasher + if RootSpelled(s) then TreeHash(s.h, t) else []
    ensures SeedsSay(s.header.seeds, t)
  {
    hide Session.Accepted, Session.Parses, Session.State, Session.HashAt, Session.IsRoot, Session.Id, Session.Kids, Session.RootId, SeedsSay,
         Shaped, HashableTree, TreeHash, Unfolds, RootSpelled, ChildrenFirst, NodesOf;
    AcceptedBegins(s);
    AcceptedIsShaped(s);
    ShapedIsNonEmpty(s);
    var u := TreeTheorem(s);
    UnfoldingIsUnique(s, t, u);
    var n := |s.parts|;
    BuildIsHashable(s, n - 1);
    HasherCollectsRoots(s, n);
    HashIsTreeHash(s, n - 1);
    SpelledLast(s);
  }
}
