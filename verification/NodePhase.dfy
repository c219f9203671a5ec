/** The arrival of node parts (proto_deserialize_node): claim the children, hash the node with its
    children's hashes from the ring, mark it seen, and keep its hash. */
module NodePhase {
  import opened Bytes
  import opened CanonicalValue
  import opened HashWriter
  import opened ValueStream
  import opened CanonicalNode
  import opened NodeTreeCheck
  import opened NodeHashStore

  datatype NodeSeed = NodeSeed(nodeId: int, seed: Option<seq<Byte>>)

  datatype Header = Header(version: Option<Str>, roots: seq<Str>, nodesCount: int, seeds: seq<NodeSeed>)

  /** A node part in parsed field order: the id, when present, before the node. */
  datatype NodePart = NodePart(id: Option<Str>, body: NodeBody)

  datatype NodeState = NodeState(tree: Check, ring: Ring, err: HashError, hasher: seq<Byte>)

  // ------------------------------------------------------------------ one part

  /** ctx.node_id: -1 without an id. */
  function NodeNumber(part: NodePart): int { if part.id.None? then -1 else AToInt(part.id.value) }

  /** The root is recognised by its spelling in the header. */
  predicate IsRootPart(hdr: Header, part: NodePart) { part.id.Some? && part.id.value in hdr.roots }

  /** The first seed entry for a node; a part without an id has none. */
  function SeedEntry(seeds: seq<NodeSeed>, id: int): Option<NodeSeed>
  {
    if |seeds| == 0 || id < 0 then None
    else if seeds[0].nodeId == id then Some(seeds[0])
    else SeedEntry(seeds[1..], id)
  }

  /** Entry i is the first one for the node. */
  predicate NamesFirst(seeds: seq<NodeSeed>, id: int, i: nat)
  {
    i < |seeds| && seeds[i].nodeId == id && forall j :: 0 <= j < i ==> seeds[j].nodeId != id
  }

  /** The seed of a node, read off the list: that of the first entry with its id, and none exactly when there
      is no such entry or the part carries no id. */
  ghost predicate SeedSays(seeds: seq<NodeSeed>, id: int, seed: Option<seq<Byte>>)
  {
    (seed.None? <==> id < 0 || forall i :: 0 <= i < |seeds| ==> seeds[i].nodeId != id) &&
    (seed.Some? ==> exists i :: 0 <= i < |seeds| && NamesFirst(seeds, id, i) && seeds[i].seed == seed) &&
    forall i :: 0 <= i < |seeds| && 0 <= id && NamesFirst(seeds, id, i) ==> seed == seeds[i].seed
  }

  lemma {:induction false} SeedEntryIsFirst(seeds: seq<NodeSeed>, id: int)
    ensures SeedEntry(seeds, id).None? <==> id < 0 || forall i :: 0 <= i < |seeds| ==> seeds[i].nodeId != id
    ensures SeedEntry(seeds, id).Some? ==> exists i :: 0 <= i < |seeds| && NamesFirst(seeds, id, i) && SeedEntry(seeds, id) == Some(seeds[i])
    ensures forall i :: 0 <= i < |seeds| && 0 <= id && NamesFirst(seeds, id, i) ==> SeedEntry(seeds, id) == Some(seeds[i])
  {
    if |seeds| > 0 && 0 <= id {
      var rest := seeds[1..];
      assert forall i :: 0 < i < |seeds| ==> seeds[i] == rest[i - 1];
      if seeds[0].nodeId == id {
        assert NamesFirst(seeds, id, 0);
      } else {
        SeedEntryIsFirst(rest, id);
        if SeedEntry(rest, id).Some? {
          var i :| 0 <= i < |rest| && NamesFirst(rest, id, i) && SeedEntry(rest, id) == Some(rest[i]);
          assert NamesFirst(seeds, id, i + 1);
        }
        forall i | 0 <= i < |seeds| && NamesFirst(seeds, id, i)
          ensures SeedEntry(seeds, id) == Some(seeds[i])
        {
          assert NamesFirst(rest, id, i - 1);
        }
      }
    }
  }

  predicate UsableSeed(s: NodeSeed) { s.seed.Some? && IsHash(s.seed.value) }

  function SeedOf(hdr: Header, part: NodePart): Option<seq<Byte>>
  {
    if !part.body.Create? && !part.body.Exercise? then None
    else match SeedEntry(hdr.seeds, NodeNumber(part)) case None => None case Some(s) => s.seed
  }

  /** When proto_deserialize_node returns PARSING_OK, stack and heap permitting. */
  predicate PartParses(hdr: Header, part: NodePart)
  {
    (part.id.Some? ==> |part.id.value| < 4) && IsComplete(part.body) &&
    (part.body.Create? || part.body.Exercise? ==>
       var s := SeedEntry(hdr.seeds, NodeNumber(part));
       (s.Some? ==> UsableSeed(s.value)) && (part.body.Exercise? ==> s.Some?))
  }

  ghost predicate Present(ss: seq<Option<Str>>) { forall i :: 0 <= i < |ss| ==> ss[i].Some? }

  ghost predicate Named(id: Option<Identifier>) { id.Some? && id.value.packageId.Some? && id.value.moduleName.Some? && id.value.entityName.Some? }

  /** Everything the node's message requires is there. */
  ghost predicate FieldsPresent(b: NodeBody)
  {
    match b
    case Create(c) =>
      c.lfVersion.Some? && c.contractId.Some? && c.packageName.Some? && Named(c.templateId) && Present(c.signatories) && Present(c.stakeholders)
    case Exercise(e, _) =>
      e.lfVersion.Some? && e.contractId.Some? && e.packageName.Some? && e.choiceId.Some? && Named(e.templateId) && Present(e.signatories) &&
      Present(e.stakeholders) && Present(e.actingParties) && Present(e.choiceObservers) && (e.interfaceId.None? || Named(e.interfaceId))
    case Fetch(f) =>
      f.lfVersion.Some? && f.contractId.Some? && f.packageName.Some? && Named(f.templateId) && Present(f.signatories) &&
      Present(f.stakeholders) && Present(f.actingParties) && (f.interfaceId.None? || Named(f.interfaceId))
    case _ => true
  }

  /** A part parses exactly when its id has at most three bytes, its fields are there, the first seed entry for
      a create or an exercise, if there is one, is a hash, and for an exercise there is one. */
  lemma ParsesIff(hdr: Header, part: NodePart)
    ensures
      var b, id := part.body, if part.id.None? then -1 else AToInt(part.id.value);
      PartParses(hdr, part) <==>
        ((part.id.Some? ==> |part.id.value| <= 3) && FieldsPresent(b) &&
         (b.Create? || b.Exercise? ==>
            forall i :: 0 <= i < |hdr.seeds| && 0 <= id && NamesFirst(hdr.seeds, id, i) ==> hdr.seeds[i].seed.Some? && |hdr.seeds[i].seed.value| == 32) &&
         (b.Exercise? ==> 0 <= id && exists i :: 0 <= i < |hdr.seeds| && hdr.seeds[i].nodeId == id))
  {
    hide SeedEntry, AToInt, NamesFirst;
    SeedEntryIsFirst(hdr.seeds, NodeNumber(part));
  }

  /** encode_repeated_node_ids stops at the first child without a stored hash. */
  function FeedNodeIds(ring: Ring, ids: seq<Str>, f: Feed): Feed
  {
    if |ids| == 0 then f
    else match GetHash(ring, AToInt(ids[0]))
      case None => Fail(f, HASH_ERROR_FAILED_TO_LOAD_NODE_HASH)
      case Some(hash) => FeedNodeIds(ring, ids[1..], Put(f, hash))
  }

  function FeedChildren(ring: Ring, body: NodeBody, f: Feed): Feed
  {
    if !HasChildren(body) then f
    else if |ChildrenOf(body)| > MAX_NODE_CHILDREN then Fail(f, HASH_ERROR_MAX_NODE_CHILDREN_EXCEEDED)
    else FeedNodeIds(ring, ChildrenOf(body), Put(f, U32(|ChildrenOf(body)|)))
  }

  function NodeFeed(hdr: Header, ring: Ring, err: HashError, part: NodePart): Feed
    requires PartParses(hdr, part)
  {
    FeedChildren(ring, part.body, StreamShell(part.body, SeedOf(hdr, part), Blank(err)).feed)
  }

  function ClaimPart(tree: Check, part: NodePart): Check
  {
    if HasChildren(part.body) then Claim(tree, NodeNumber(part), ChildIds(ChildrenOf(part.body))) else tree
  }

  function NodeStep(h: Sha256, hdr: Header, st: NodeState, part: NodePart): NodeState
    requires ValidRing(st.ring) && PartParses(hdr, part)
  {
    var feed := NodeFeed(hdr, st.ring, st.err, part);
    var tree := MarkSeen(ClaimPart(st.tree, part), NodeNumber(part));
    if IsRootPart(hdr, part) then NodeState(tree, st.ring, feed.err, st.hasher + h(feed.out))
    else NodeState(tree, SetHash(st.ring, NodeNumber(part), h(feed.out)), feed.err, st.hasher)
  }

  // ------------------------------------------------------------------ a run of parts

  /** The header's hash prefix, the ring emptied, the tree check initialised. */
  predicate Begins(hdr: Header, st: NodeState)
  {
    Emptied(st.ring) && st.err == HASH_OK &&
    (st.tree == Init(hdr.roots, hdr.nodesCount, true) || st.tree == Init(hdr.roots, hdr.nodesCount, false))
  }

  datatype Session = Session(h: Sha256, header: Header, start: NodeState, parts: seq<NodePart>) {

    predicate Parses()
    {
      Begins(header, start) && forall i :: 0 <= i < |parts| ==> PartParses(header, parts[i])
    }

    /** The state after the first i parts. */
    function State(i: nat): (st: NodeState)
      requires Parses() && i <= |parts|
      ensures ValidRing(st.ring)
    {
      if i == 0 then start else NodeStep(h, header, State(i - 1), parts[i - 1])
    }

    /** Every announced node arrived, no hash error, and the tree check is satisfied. */
    predicate Accepted()
    {
      Parses() && |parts| == header.nodesCount &&
      State(|parts|).err == HASH_OK && Verify(State(|parts|).tree).err == TREE_OK
    }

    function Id(i: nat): int
      requires i < |parts|
    {
      NodeNumber(parts[i])
    }

    function Kids(i: nat): seq<int>
      requires i < |parts|
    {
      ChildIds(ChildrenOf(parts[i].body))
    }

    predicate IsRoot(i: nat)
      requires i < |parts|
    {
      IsRootPart(header, parts[i])
    }

    /** What is hashed for part i, and its hash. */
    function FeedAt(i: nat): Feed
      requires Parses() && i < |parts|
    {
      NodeFeed(header, State(i).ring, State(i).err, parts[i])
    }

    function HashAt(i: nat): seq<Byte>
      requires Parses() && i < |parts|
    {
      h(FeedAt(i).out)
    }

    function RootId(): int { start.tree.rootId }
  }
}
