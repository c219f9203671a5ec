/** proto_deserialize_node and proto_deserialize_input_contract over the module state: the parser
    context, the tree check, the hash store and the transaction hasher. */
module NodeParser {
  import opened Bytes
  import opened CanonicalValue
  import opened HashWriter
  import opened ValueStream
  import opened ValueParser
  import opened CanonicalNode
  import opened NodeTreeCheck
  import opened NodeHashStore
  import opened NodePhase
  import opened NodeEncoder
  import opened CanonicalMetadata

  class NodeReader {
    const h: Sha256
    const errs: HashErrorInfo
    const nodeHw: Writer
    const hasher: Writer
    const values: Parser
    const tree: TreeCheck
    const store: Store
    var nodeId: int
    var isRootNode: bool
    var treeChildrenClaimed: bool

    ghost predicate Valid()
      reads this, tree, store
    {
      nodeHw.errs == errs && hasher.errs == errs && nodeHw != hasher && values.nodeHw == nodeHw &&
      tree.Valid() && store.Valid() && tree.Repr() !! {store, store.slots}
    }

    constructor (h: Sha256)
      ensures Valid() && fresh(errs) && fresh(nodeHw) && fresh(hasher) && fresh(values) && fresh(tree) && fresh(tree.Repr())
      ensures fresh(store) && fresh(store.slots) && this.h == h && hasher.stream == [] && errs.code == HASH_OK
    {
      var e := new HashErrorInfo();
      var n := new Writer(e);
      var t := new Writer(e);
      var p := new Parser(n);
      var c := new TreeCheck();
      var s := new Store();
      this.h, errs, nodeHw, hasher, values, tree, store := h, e, n, t, p, c, s;
      nodeId, isRootNode, treeChildrenClaimed := -1, false, false;
    }

    ghost function State(): NodeState
      requires Valid()
      reads this, tree, tree.nodes, store, store.slots, errs, hasher
    {
      NodeState(tree.Model(), store.Model(), errs.code, hasher.stream)
    }

    // ---------------------------------------------------------------- the parts of a node

    /** decode_node_id_field: the root by its spelling, the id as a number. */
    method DecodeNodeIdField(hdr: Header, id: Str) returns (ok: bool)
      modifies `nodeId, `isRootNode
      ensures ok <==> |id| < 4
      ensures ok ==> nodeId == AToInt(id) && (isRootNode <==> old(isRootNode) || id in hdr.roots)
    {
      if |id| >= 4 {
        return false;
      }
      for i := 0 to |hdr.roots|
        invariant isRootNode == old(isRootNode) && forall j :: 0 <= j < i ==> hdr.roots[j] != id
      {
        if hdr.roots[i] == id {
          isRootNode := true;
          break;
        }
      }
      nodeId := AToInt(id);
      return true;
    }

    /** The seed search shared by creates and exercises. */
    method FindSeed(hdr: Header) returns (ok: bool, seed: Option<seq<Byte>>)
      ensures ok <==> (SeedEntry(hdr.seeds, nodeId).Some? ==> UsableSeed(SeedEntry(hdr.seeds, nodeId).value))
      ensures ok ==> seed == match SeedEntry(hdr.seeds, nodeId) { case None => None case Some(s) => s.seed }
      ensures ok <==> forall i :: 0 <= i < |hdr.seeds| && 0 <= nodeId && NamesFirst(hdr.seeds, nodeId, i) ==>
                        hdr.seeds[i].seed.Some? && |hdr.seeds[i].seed.value| == 32
      ensures ok ==> SeedSays(hdr.seeds, nodeId, seed)
    {
      SeedEntryIsFirst(hdr.seeds, nodeId);
      if nodeId < 0 {
        return true, None;
      }
      assert hdr.seeds[0..] == hdr.seeds;
      for i := 0 to |hdr.seeds|
        invariant SeedEntry(hdr.seeds[i..], nodeId) == SeedEntry(hdr.seeds, nodeId)
      {
        assert hdr.seeds[i..][0] == hdr.seeds[i] && hdr.seeds[i..][1..] == hdr.seeds[i + 1..];
        if hdr.seeds[i].nodeId == nodeId {
          if hdr.seeds[i].seed.None? || |hdr.seeds[i].seed.value| != SHA256_HASH_LEN {
            return false, None;
          }
          return true, hdr.seeds[i].seed;
        }
      }
      return true, None;
    }

    /** One node claims its children once, whatever the number of passes over it. */
    method ClaimOnce(children: seq<Str>)
      requires Valid()
      modifies `treeChildrenClaimed, tree.Repr()
      ensures Valid() && treeChildrenClaimed && tree.Repr() == old(tree.Repr())
      ensures tree.Model() == if old(treeChildrenClaimed) then old(tree.Model()) else Claim(old(tree.Model()), nodeId, ChildIds(children))
      ensures store.Model() == old(store.Model())
    {
      if !treeChildrenClaimed {
        tree.ClaimChildren(nodeId, children);
        treeChildrenClaimed := true;
      }
    }

    /** Create: the plain fields, the argument through its callback, the parties. */
    method DecodeCreate(hdr: Header, c: CreateFields) returns (ok: bool)
      requires Valid() && hasher.errs == errs
      modifies values, nodeHw, errs
      ensures ok ==> BodyParses(hdr, nodeId, Create(c))
      ensures values.stackFull == (old(values.stackFull) || (!ok && BodyParses(hdr, nodeId, Create(c))))
      ensures ok ==> values.State() == StreamCreate(c, SeedAt(hdr, nodeId), old(values.State()))
    {
      hide FeedHead, FeedIds, FeedParties, StreamCounted, EncOptHash, Encode, Readable, SimpleKeys, SeedEntry, UsableSeed;
      ok := false;
      if !IsComplete(Create(c)) {
        return;
      }
      var good, seed := FindSeed(hdr);
      if !good {
        return;
      }
      EncodeCreateStart(nodeHw, c, seed);
      ok := values.DecodeValueField(c.argument);
      if ok {
        EncodeParties(nodeHw, c.signatories, c.stakeholders);
      }
    }

    /** The three hashing passes over an exercise: up to the chosen value, up to the result, the rest. */
    method HashExercise(e: ExerciseFields, children: seq<Str>, seed: seq<Byte>) returns (ok: bool)
      requires values.nodeHw == nodeHw && nodeHw.errs == errs && store.Valid() && e.templateId.Some?
      modifies values, nodeHw, errs
      ensures values.stackFull == (old(values.stackFull) || !ok)
      ensures ok ==> nodeHw.State() == FeedChildren(store.Model(), Exercise(e, children), StreamExercise(e, seed, old(values.State())).feed)
    {
      hide FeedHead, FeedIds, FeedActors, StreamCounted, FeedChildren, Encode, FeedRepeated, Readable, SimpleKeys;
      EncodeExerciseStart(nodeHw, e, seed);
      ok := values.DecodeValueField(e.chosenValue);
      if !ok {
        return;
      }
      nodeHw.PutBytes([if e.consuming then 1 else 0]);
      nodeHw.PutBytes([0x01]);
      ok := values.DecodeValueField(e.exerciseResult);
      if ok {
        nodeHw.EncodeRepeated(e.choiceObservers);
        EncodeChildren(nodeHw, store, Exercise(e, children));
      }
    }

    /** Exercise: the children are claimed and the seed must be there before anything is hashed. */
    method DecodeExercise(hdr: Header, e: ExerciseFields, children: seq<Str>) returns (ok: bool)
      requires Valid()
      modifies values, nodeHw, errs, `treeChildrenClaimed, tree.Repr()
      ensures Valid() && tree.Repr() == old(tree.Repr()) && store.Model() == old(store.Model()) && hasher.stream == old(hasher.stream)
      ensures ok ==> BodyParses(hdr, nodeId, Exercise(e, children))
      ensures values.stackFull == (old(values.stackFull) || (!ok && BodyParses(hdr, nodeId, Exercise(e, children))))
      ensures ok ==> (var walk := StreamExercise(e, SeedAt(hdr, nodeId).value, old(values.State()));
                      nodeHw.State() == FeedChildren(store.Model(), Exercise(e, children), walk.feed))
      ensures ok ==> tree.Model() == if old(treeChildrenClaimed) then old(tree.Model()) else Claim(old(tree.Model()), nodeId, ChildIds(children))
    {
      hide StreamExercise, FeedChildren, Claim, SeedEntry;
      ok := false;
      if !IsComplete(Exercise(e, children)) {
        return;
      }
      ClaimOnce(children);
      var good, seed := FindSeed(hdr);
      if good && seed.Some? {
        ok := HashExercise(e, children, seed.value);
      }
    }

    method DecodeFetch(f: FetchFields) returns (ok: bool)
      requires Valid()
      modifies nodeHw, errs
      ensures ok <==> IsComplete(Fetch(f))
      ensures ok ==> values.State() == StreamFetch(f, old(values.State()))
    {
      hide FeedHead, FeedIds, FeedParties, FeedOptIdentifier, FeedRepeated;
      if !IsComplete(Fetch(f)) {
        return false;
      }
      EncodeFetch(nodeHw, f);
      return true;
    }

    method DecodeRollback(children: seq<Str>)
      requires Valid()
      modifies nodeHw, errs, `treeChildrenClaimed, tree.Repr()
      ensures Valid() && tree.Repr() == old(tree.Repr()) && store.Model() == old(store.Model()) && hasher.stream == old(hasher.stream)
      ensures nodeHw.State() ==
        FeedChildren(store.Model(), Rollback(children), Put(Put(old(nodeHw.State()), [0x01]), [0x03]))
      ensures tree.Model() == if old(treeChildrenClaimed) then old(tree.Model()) else Claim(old(tree.Model()), nodeId, ChildIds(children))
    {
      hide FeedChildren, Claim;
      ClaimOnce(children);
      nodeHw.PutBytes([0x01]);
      nodeHw.PutBytes([0x03]);
      EncodeChildren(nodeHw, store, Rollback(children));
    }

    // ---------------------------------------------------------------- the entry points

    method StartPart()
      requires Valid()
      modifies this, values, nodeHw
      ensures Valid() && nodeId == -1 && !isRootNode && !treeChildrenClaimed && State() == old(State())
      ensures values.stackFull == old(values.stackFull)
      ensures values.State() == Blank(errs.code)
    {
      nodeId, isRootNode, treeChildrenClaimed := -1, false, false;
      values.valueElemCount := VALUE_ELEM_COUNT_NONE;
      nodeHw.Init();
    }

    method DecodeBody(hdr: Header, body: NodeBody) returns (ok: bool)
      requires Valid() && !treeChildrenClaimed
      modifies values, nodeHw, errs, `treeChildrenClaimed, tree.Repr()
      ensures Valid() && tree.Repr() == old(tree.Repr()) && store.Model() == old(store.Model()) && hasher.stream == old(hasher.stream)
      ensures ok ==> BodyParses(hdr, nodeId, body)
      ensures values.stackFull == (old(values.stackFull) || (!ok && BodyParses(hdr, nodeId, body)))
      ensures ok ==> nodeHw.State() == FeedChildren(store.Model(), body, StreamShell(body, SeedFor(hdr, nodeId, body), old(values.State())).feed)
      ensures ok ==> tree.Model() == if HasChildren(body) then Claim(old(tree.Model()), nodeId, ChildIds(ChildrenOf(body))) else old(tree.Model())
    {
      hide StreamCreate, StreamExercise, StreamFetch, UsableSeed, Claim, SeedEntry, FeedNodeIds;
      match body {
        case Create(c) => ok := DecodeCreate(hdr, c);
        case Exercise(e, children) => ok := DecodeExercise(hdr, e, children);
        case Fetch(f) => ok := DecodeFetch(f);
        case Rollback(children) =>
          DecodeRollback(children);
          ok := true;
        case NoBody => ok := true;
      }
    }

    /** The id, if any, and the node behind it. */
    method DecodePart(hdr: Header, part: NodePart) returns (ok: bool)
      requires Valid()
      modifies this, values, nodeHw, errs, tree.Repr()
      ensures Valid() && tree.Repr() == old(tree.Repr()) && store.Model() == old(store.Model()) && hasher.stream == old(hasher.stream)
      ensures values.stackFull == (old(values.stackFull) || (!ok && PartParses(hdr, part)))
      ensures ok ==> PartParses(hdr, part) && nodeId == NodeNumber(part) && (isRootNode <==> IsRootPart(hdr, part))
      ensures ok ==> nodeHw.State() == NodeFeed(hdr, store.Model(), old(errs.code), part)
      ensures ok ==> tree.Model() == ClaimPart(old(tree.Model()), part)
    {
      hide StreamShell, FeedChildren, BodyParses, Claim, AToInt, IsComplete, SeedEntry, Blank, PartParses, SeedOf, SeedFor;
      PartParsesIff(hdr, part);
      StartPart();
      if part.id.Some? {
        ok := DecodeNodeIdField(hdr, part.id.value);
        if !ok {
          return;
        }
      }
      ok := DecodeBody(hdr, part.body);
    }

    /** One node part: the new module state is the one step of the specification. A part is refused when
        it is malformed or when its values are nested too deeply for the stack. */
    method ProtoDeserializeNode(hdr: Header, part: NodePart) returns (ok: bool)
      requires Valid()
      modifies this, values, nodeHw, hasher, errs, store, store.slots, tree.Repr()
      ensures Valid() && tree.Repr() == old(tree.Repr())
      ensures values.stackFull == (old(values.stackFull) || (!ok && PartParses(hdr, part)))
      ensures ok ==> PartParses(hdr, part) && State() == NodeStep(h, hdr, old(State()), part)
    {
      hide NodeFeed, ClaimPart, SetHash, MarkSeen, PartParses, IsRootPart, NodeNumber;
      ok := DecodePart(hdr, part);
      if ok {
        var nodeHash := h(nodeHw.stream);
        tree.MarkNodeSeen(nodeId);
        if isRootNode {
          hasher.PutBytes(nodeHash);
        } else {
          store.SetNodeHash(nodeId, nodeHash);
        }
      }
    }

    method DecodeContract(hdr: Header, c: InputContract) returns (ok: bool)
      requires Valid()
      modifies this, values, nodeHw, errs
      ensures Valid() && tree.Model() == old(tree.Model()) && store.Model() == old(store.Model()) && hasher.stream == old(hasher.stream)
      ensures values.stackFull == (old(values.stackFull) || (!ok && ContractParses(c)))
      ensures ok ==> ContractParses(c) && nodeHw.State() == ContractFeed(c, old(errs.code))
    {
      hide StreamCreate, UsableSeed;
      StartPart();
      ok := true;
      if c.contract.Some? {
        ok := DecodeCreate(hdr, c.contract.value);
      }
    }

    /** One disclosed contract: its creation time and the hash of its create enter the metadata hash. */
    method ProtoDeserializeInputContract(hdr: Header, c: InputContract) returns (ok: bool)
      requires Valid()
      modifies this, values, nodeHw, hasher, errs
      ensures Valid() && tree.Model() == old(tree.Model()) && store.Model() == old(store.Model())
      ensures values.stackFull == (old(values.stackFull) || (!ok && ContractParses(c)))
      ensures ok ==> ContractParses(c) && hasher.State() == FeedContract(h, old(hasher.State()), c)
    {
      hide ContractFeed, ContractParses, U64;
      ok := DecodeContract(hdr, c);
      if ok {
        var nodeHash := h(nodeHw.stream);
        hasher.PutU64Be(c.createdAt);
        hasher.PutBytes(nodeHash);
      }
    }
  }

  // ------------------------------------------------------------------ specification of one part's body

  /** The seed found for a node id. */
  function SeedAt(hdr: Header, id: int): Option<seq<Byte>>
  {
    match SeedEntry(hdr.seeds, id) case None => None case Some(s) => s.seed
  }

  function SeedFor(hdr: Header, id: int, body: NodeBody): Option<seq<Byte>>
  {
    if body.Create? || body.Exercise? then SeedAt(hdr, id) else None
  }

  predicate BodyParses(hdr: Header, id: int, body: NodeBody)
  {
    IsComplete(body) &&
    (body.Create? || body.Exercise? ==>
       var s := SeedEntry(hdr.seeds, id);
       (s.Some? ==> UsableSeed(s.value)) && (body.Exercise? ==> s.Some?))
  }

  lemma PartParsesIff(hdr: Header, part: NodePart)
    ensures PartParses(hdr, part) <==> (part.id.Some? ==> |part.id.value| < 4) && BodyParses(hdr, NodeNumber(part), part.body)
    ensures SeedOf(hdr, part) == SeedFor(hdr, NodeNumber(part), part.body)
    ensures BodyParses(hdr, NodeNumber(part), part.body) ==>
      IsComplete(part.body) && (part.body.Exercise? ==> SeedOf(hdr, part).Some?)
  {
    hide SeedEntry, IsComplete, AToInt;
  }
}
