/** Transaction nodes: what the node encoders of canonical_hash.c write, and why two nodes with the same
    bytes are the same node. */
module CanonicalNode {
  import opened Bytes
  import opened CanonicalValue
  import opened HashWriter
  import opened ValueStream

  datatype CreateFields = CreateFields(
    lfVersion: Option<Str>, contractId: Option<Str>, packageName: Option<Str>, templateId: Option<Identifier>,
    argument: Value, signatories: seq<Option<Str>>, stakeholders: seq<Option<Str>>)

  datatype ExerciseFields = ExerciseFields(
    lfVersion: Option<Str>, contractId: Option<Str>, packageName: Option<Str>, templateId: Option<Identifier>,
    signatories: seq<Option<Str>>, stakeholders: seq<Option<Str>>, actingParties: seq<Option<Str>>, interfaceId: Option<Identifier>,
    choiceId: Option<Str>, chosenValue: Value, consuming: bool, exerciseResult: Value, choiceObservers: seq<Option<Str>>)

  datatype FetchFields = FetchFields(
    lfVersion: Option<Str>, contractId: Option<Str>, packageName: Option<Str>, templateId: Option<Identifier>,
    signatories: seq<Option<Str>>, stakeholders: seq<Option<Str>>, interfaceId: Option<Identifier>, actingParties: seq<Option<Str>>)

  /** NoBody is a node part that carries no known node: nothing is hashed for it. */
  datatype NodeBody =
    | Create(create: CreateFields)
    | Exercise(exercise: ExerciseFields, children: seq<Str>)
    | Fetch(fetch: FetchFields)
    | Rollback(children: seq<Str>)
    | NoBody

  function ChildrenOf(b: NodeBody): seq<Str>
  {
    match b
    case Exercise(_, kids) => kids
    case Rollback(kids) => kids
    case _ => []
  }

  predicate HasChildren(b: NodeBody) { b.Exercise? || b.Rollback? }

  /** The node without the ids of its children, which enter the hash only as the children's hashes. */
  function Shell(b: NodeBody): NodeBody
  {
    match b
    case Exercise(e, _) => Exercise(e, [])
    case Rollback(_) => Rollback([])
    case _ => b
  }

  // ------------------------------------------------------------------ presence checks

  predicate PresentIdentifier(id: Option<Identifier>) { id.Some? && CompleteIdentifier(id.value) }

  predicate PartiesPresent(signatories: seq<Option<Str>>, stakeholders: seq<Option<Str>>)
  {
    AllPresent(signatories) && AllPresent(stakeholders)
  }

  /** create_is_complete, exercise_is_complete with its optional interface, fetch_is_complete. */
  predicate IsComplete(b: NodeBody)
  {
    match b
    case Create(c) =>
      c.lfVersion.Some? && c.contractId.Some? && c.packageName.Some? && PresentIdentifier(c.templateId) &&
      PartiesPresent(c.signatories, c.stakeholders)
    case Exercise(e, _) =>
      e.lfVersion.Some? && e.contractId.Some? && e.packageName.Some? && e.choiceId.Some? &&
      PresentIdentifier(e.templateId) && PartiesPresent(e.signatories, e.stakeholders) && AllPresent(e.actingParties) &&
      AllPresent(e.choiceObservers) && (e.interfaceId.Some? ==> CompleteIdentifier(e.interfaceId.value))
    case Fetch(f) =>
      f.lfVersion.Some? && f.contractId.Some? && f.packageName.Some? &&
      PresentIdentifier(f.templateId) && PartiesPresent(f.signatories, f.stakeholders) && AllPresent(f.actingParties) &&
      (f.interfaceId.Some? ==> CompleteIdentifier(f.interfaceId.value))
    case _ => true
  }

  // ------------------------------------------------------------------ canonical bytes

  function EncOptHash(seed: Option<seq<Byte>>): seq<Byte> { if seed.None? then [0] else [1] + seed.value }

  function NodeHead(lf: Option<Str>, tag: Byte): seq<Byte> { [0x01] + EncString(lf) + [tag] }

  function IdBytes(cid: Option<Str>, pkg: Option<Str>, tid: Identifier): seq<Byte>
  {
    EncHex(cid) + EncString(pkg) + EncIdentifier(tid)
  }

  function PartyBytes(signatories: seq<Option<Str>>, stakeholders: seq<Option<Str>>): seq<Byte>
  {
    EncRepeated(signatories) + EncRepeated(stakeholders)
  }

  function CreateBytes(c: CreateFields, seed: Option<seq<Byte>>): seq<Byte>
    requires c.templateId.Some?
  {
    NodeHead(c.lfVersion, 0x00) + EncOptHash(seed) + IdBytes(c.contractId, c.packageName, c.templateId.value) +
    Encode(c.argument) + PartyBytes(c.signatories, c.stakeholders)
  }

  function ActorBytes(e: ExerciseFields): seq<Byte>
  {
    PartyBytes(e.signatories, e.stakeholders) + EncRepeated(e.actingParties) + EncOptIdentifier(e.interfaceId) +
    EncString(e.choiceId)
  }

  function ResultBytes(e: ExerciseFields): seq<Byte>
  {
    Encode(e.chosenValue) + [if e.consuming then 1 else 0] + [0x01] + Encode(e.exerciseResult) + EncRepeated(e.choiceObservers)
  }

  function ExerciseBytes(e: ExerciseFields, seed: seq<Byte>): seq<Byte>
    requires e.templateId.Some?
  {
    NodeHead(e.lfVersion, 0x01) + seed + IdBytes(e.contractId, e.packageName, e.templateId.value) +
    ActorBytes(e) + ResultBytes(e)
  }

  function FetchBytes(f: FetchFields): seq<Byte>
    requires f.templateId.Some?
  {
    NodeHead(f.lfVersion, 0x02) + IdBytes(f.contractId, f.packageName, f.templateId.value) +
    PartyBytes(f.signatories, f.stakeholders) + EncOptIdentifier(f.interfaceId) + EncRepeated(f.actingParties)
  }

  function ConcatHashes(hs: seq<seq<Byte>>): seq<Byte>
  {
    if |hs| == 0 then [] else hs[0] + ConcatHashes(hs[1..])
  }

  function ChildBytes(b: NodeBody, hs: seq<seq<Byte>>): seq<Byte>
  {
    if HasChildren(b) then U32(|hs|) + ConcatHashes(hs) else []
  }

  /** Everything before the children. An exercise is hashed with a seed or not at all. */
  function ShellBytes(b: NodeBody, seed: Option<seq<Byte>>): seq<Byte>
    requires IsComplete(b) && (b.Exercise? ==> seed.Some?)
  {
    match b
    case Create(c) => CreateBytes(c, seed)
    case Exercise(e, _) => ExerciseBytes(e, seed.value)
    case Fetch(f) => FetchBytes(f)
    case Rollback(_) => [0x01, 0x03]
    case NoBody => []
  }

  // ------------------------------------------------------------------ what the encoders write

  function FeedIds(f: Feed, cid: Option<Str>, pkg: Option<Str>, tid: Identifier): Feed
  {
    FeedIdentifier(FeedString(FeedHex(f, cid), pkg), tid)
  }

  function FeedParties(f: Feed, signatories: seq<Option<Str>>, stakeholders: seq<Option<Str>>): Feed
  {
    FeedRepeated(FeedRepeated(f, signatories), stakeholders)
  }

  function FeedOptIdentifier(f: Feed, id: Option<Identifier>): Feed
  {
    if id.None? then Put(f, [0]) else FeedIdentifier(Put(f, [1]), id.value)
  }

  function FeedHead(f: Feed, lf: Option<Str>, tag: Byte): Feed
  {
    Put(FeedString(Put(f, [0x01]), lf), [tag])
  }

  /** encode_create_start, the argument callback, encode_create_end. */
  function StreamCreate(c: CreateFields, seed: Option<seq<Byte>>, w: Walk): Walk
    requires c.templateId.Some?
  {
    var start := FeedIds(Put(FeedHead(w.feed, c.lfVersion, 0x00), EncOptHash(seed)), c.contractId, c.packageName, c.templateId.value);
    var w1 := StreamCounted(c.argument, w.(feed := start));
    w1.(feed := FeedParties(w1.feed, c.signatories, c.stakeholders))
  }

  function FeedActors(f: Feed, e: ExerciseFields): Feed
  {
    FeedString(FeedOptIdentifier(FeedRepeated(FeedParties(f, e.signatories, e.stakeholders), e.actingParties), e.interfaceId), e.choiceId)
  }

  /** Three passes over the exercise: the plain fields, the chosen value, the result. */
  function StreamExercise(e: ExerciseFields, seed: seq<Byte>, w: Walk): Walk
    requires e.templateId.Some?
  {
    var start := FeedActors(FeedIds(Put(FeedHead(w.feed, e.lfVersion, 0x01), seed), e.contractId, e.packageName, e.templateId.value), e);
    var w1 := StreamCounted(e.chosenValue, w.(feed := start));
    var w2 := StreamCounted(e.exerciseResult, Write(Write(w1, [if e.consuming then 1 else 0]), [0x01]));
    w2.(feed := FeedRepeated(w2.feed, e.choiceObservers))
  }

  function StreamFetch(f: FetchFields, w: Walk): Walk
    requires f.templateId.Some?
  {
    var start := FeedParties(FeedIds(FeedHead(w.feed, f.lfVersion, 0x02), f.contractId, f.packageName, f.templateId.value),
                             f.signatories, f.stakeholders);
    w.(feed := FeedRepeated(FeedOptIdentifier(start, f.interfaceId), f.actingParties))
  }

  function StreamShell(b: NodeBody, seed: Option<seq<Byte>>, w: Walk): Walk
    requires IsComplete(b) && (b.Exercise? ==> seed.Some?)
  {
    match b
    case Create(c) => StreamCreate(c, seed, w)
    case Exercise(e, _) => StreamExercise(e, seed.value, w)
    case Fetch(f) => StreamFetch(f, w)
    case Rollback(_) => Write(Write(w, [0x01]), [0x03])
    case NoBody => w
  }

  /** hw_init and value_elem_count = NONE at the start of every node part. */
  function Blank(err: HashError): Walk { Walk(VALUE_ELEM_COUNT_NONE, Feed([], err)) }

  /** The bytes hashed for a node with these child hashes. */
  function NodeStream(b: NodeBody, seed: Option<seq<Byte>>, hs: seq<seq<Byte>>): seq<Byte>
    requires IsComplete(b) && (b.Exercise? ==> seed.Some?)
  {
    StreamShell(b, seed, Blank(HASH_OK)).feed.out + ChildBytes(b, hs)
  }

  // ------------------------------------------------------------------ streamed bytes are canonical

  /** The values of the node lie in the streaming encoder's domain. */
  predicate ReadableNode(b: NodeBody)
  {
    match b
    case Create(c) => SimpleKeys(c.argument) && Readable(c.argument)
    case Exercise(e, _) =>
      SimpleKeys(e.chosenValue) && Readable(e.chosenValue) && SimpleKeys(e.exerciseResult) && Readable(e.exerciseResult)
    case _ => true
  }

  lemma FeedIdsWrites(f: Feed, cid: Option<Str>, pkg: Option<Str>, tid: Identifier)
    requires cid.Some? && pkg.Some?
    ensures FeedIds(f, cid, pkg, tid).out == f.out + IdBytes(cid, pkg, tid)
  {
    hide EncBytes, HexBytes, EncIdentifier, FeedIdentifier;
    FeedIdentifierWrites(FeedString(FeedHex(f, cid), pkg), tid);
    assert f.out + [] == f.out;
    var a, b, c := EncHex(cid), EncString(pkg), EncIdentifier(tid);
    assert f.out + a + b + c == f.out + (a + b + c) by { ConcatAssoc(); }
  }

  lemma FeedOptIdentifierWrites(f: Feed, id: Option<Identifier>)
    ensures FeedOptIdentifier(f, id).out == f.out + EncOptIdentifier(id)
  {
    hide EncIdentifier, FeedIdentifier;
    if id.Some? {
      FeedIdentifierWrites(Put(f, [1]), id.value);
      Assoc(f.out, [1], EncIdentifier(id.value));
    }
  }

  lemma FeedHeadWrites(f: Feed, lf: Option<Str>, tag: Byte)
    requires lf.Some?
    ensures FeedHead(f, lf, tag).out == f.out + NodeHead(lf, tag)
  {
    hide EncBytes;
    var a := EncString(lf);
    assert f.out + [0x01] + a + [tag] == f.out + ([0x01] + a + [tag]) by { ConcatAssoc(); }
  }

  lemma FeedPartiesWrites(f: Feed, signatories: seq<Option<Str>>, stakeholders: seq<Option<Str>>)
    ensures FeedParties(f, signatories, stakeholders).out == f.out + PartyBytes(signatories, stakeholders)
    ensures PartiesPresent(signatories, stakeholders) || f.err != HASH_OK ==> FeedParties(f, signatories, stakeholders).err == f.err
  {
    hide FeedRepeated, EncRepeated, AllPresent;
    FeedRepeatedWrites(f, signatories);
    FeedRepeatedWrites(FeedRepeated(f, signatories), stakeholders);
    Assoc(f.out, EncRepeated(signatories), EncRepeated(stakeholders));
  }

  lemma FeedActorsWrites(f: Feed, e: ExerciseFields)
    requires e.choiceId.Some?
    ensures FeedActors(f, e).out == f.out + ActorBytes(e)
  {
    hide FeedRepeated, EncRepeated, EncBytes, FeedParties, PartyBytes, FeedOptIdentifier, EncOptIdentifier;
    var p := FeedParties(f, e.signatories, e.stakeholders);
    FeedPartiesWrites(f, e.signatories, e.stakeholders);
    FeedRepeatedWrites(p, e.actingParties);
    FeedOptIdentifierWrites(FeedRepeated(p, e.actingParties), e.interfaceId);
    var a, c := PartyBytes(e.signatories, e.stakeholders), EncRepeated(e.actingParties);
    var d, g := EncOptIdentifier(e.interfaceId), EncString(e.choiceId);
    assert f.out + a + c + d + g == f.out + (a + c + d + g) by { ConcatAssoc(); }
  }

  /** On readable values the stream of a complete node is its canonical encoding. */
  lemma ShellIsCanonical(b: NodeBody, seed: Option<seq<Byte>>, err: HashError)
    requires IsComplete(b) && ReadableNode(b) && (b.Exercise? ==> seed.Some?)
    ensures StreamShell(b, seed, Blank(err)).feed.out == ShellBytes(b, seed)
  {
    hide FeedHead, NodeHead, FeedIds, IdBytes, FeedOptIdentifier, EncOptIdentifier, EncOptHash, EncRepeated, Encode,
         StreamCounted, Readable, SimpleKeys, CompleteIdentifier, FeedRepeated, FeedParties, PartyBytes, AllPresent;
    var w := Blank(err);
    match b {
      case Create(c) => CreateIsCanonical(c, seed, w);
      case Exercise(e, _) => ExerciseIsCanonical(e, seed.value, w);
      case Fetch(f) =>
        FeedHeadWrites(w.feed, f.lfVersion, 0x02);
        var f1 := FeedHead(w.feed, f.lfVersion, 0x02);
        assert f1.out == NodeHead(f.lfVersion, 0x02);
        FeedIdsWrites(f1, f.contractId, f.packageName, f.templateId.value);
        var f2 := FeedIds(f1, f.contractId, f.packageName, f.templateId.value);
        var f3 := FeedParties(f2, f.signatories, f.stakeholders);
        FeedPartiesWrites(f2, f.signatories, f.stakeholders);
        FeedOptIdentifierWrites(f3, f.interfaceId);
        FeedRepeatedWrites(FeedOptIdentifier(f3, f.interfaceId), f.actingParties);
      case _ =>
    }
  }

  lemma CreateIsCanonical(c: CreateFields, seed: Option<seq<Byte>>, w: Walk)
    requires IsComplete(Create(c)) && ReadableNode(Create(c)) && w.feed.out == []
    ensures StreamCreate(c, seed, w).feed.out == CreateBytes(c, seed)
  {
    hide FeedHead, NodeHead, FeedIds, IdBytes, EncOptHash, EncRepeated, Encode, StreamCounted, Readable, SimpleKeys,
         CompleteIdentifier, FeedParties, PartyBytes, AllPresent;
    FeedHeadWrites(w.feed, c.lfVersion, 0x00);
    var f1 := Put(FeedHead(w.feed, c.lfVersion, 0x00), EncOptHash(seed));
    assert [] + NodeHead(c.lfVersion, 0x00) == NodeHead(c.lfVersion, 0x00);
    FeedIdsWrites(f1, c.contractId, c.packageName, c.templateId.value);
    var w1 := w.(feed := FeedIds(f1, c.contractId, c.packageName, c.templateId.value));
    CountedRefines(c.argument, w1);
    FeedPartiesWrites(StreamCounted(c.argument, w1).feed, c.signatories, c.stakeholders);
  }

  /** The passes over the chosen value and the result. */
  lemma ResultIsCanonical(e: ExerciseFields, w: Walk)
    requires ReadableNode(Exercise(e, []))
    ensures
      var w1 := StreamCounted(e.chosenValue, w);
      var w2 := StreamCounted(e.exerciseResult, Write(Write(w1, [if e.consuming then 1 else 0]), [0x01]));
      FeedRepeated(w2.feed, e.choiceObservers).out == w.feed.out + ResultBytes(e)
  {
    hide FeedRepeated, EncRepeated, Encode, StreamCounted, Readable, SimpleKeys;
    CountedRefines(e.chosenValue, w);
    var w1 := Write(Write(StreamCounted(e.chosenValue, w), [if e.consuming then 1 else 0]), [0x01]);
    CountedRefines(e.exerciseResult, w1);
    FeedRepeatedWrites(StreamCounted(e.exerciseResult, w1).feed, e.choiceObservers);
    var s, v, k, r, o := w.feed.out, Encode(e.chosenValue), [if e.consuming then 1 else 0], Encode(e.exerciseResult), EncRepeated(e.choiceObservers);
    assert s + v + k + [0x01] + r + o == s + (v + k + [0x01] + r + o) by { ConcatAssoc(); }
  }

  lemma ExerciseIsCanonical(e: ExerciseFields, seed: seq<Byte>, w: Walk)
    requires IsComplete(Exercise(e, [])) && ReadableNode(Exercise(e, [])) && w.feed.out == []
    ensures StreamExercise(e, seed, w).feed.out == ExerciseBytes(e, seed)
  {
    hide FeedHead, NodeHead, FeedIds, IdBytes, FeedActors, ActorBytes, ResultBytes, FeedRepeated, EncRepeated, Encode, StreamCounted, ReadableNode,
         CompleteIdentifier, Write, PartiesPresent, AllPresent;
    FeedHeadWrites(w.feed, e.lfVersion, 0x01);
    var f1 := Put(FeedHead(w.feed, e.lfVersion, 0x01), seed);
    assert [] + NodeHead(e.lfVersion, 0x01) == NodeHead(e.lfVersion, 0x01);
    FeedIdsWrites(f1, e.contractId, e.packageName, e.templateId.value);
    var f2 := FeedIds(f1, e.contractId, e.packageName, e.templateId.value);
    FeedActorsWrites(f2, e);
    ResultIsCanonical(e, w.(feed := FeedActors(f2, e)));
  }

  // ------------------------------------------------------------------ when hashing a node fails

  /** What only the encoder refuses in a complete node: a contract id that is not hex pairs, and a value with
      such an id, an incomplete type or an absent constructor in it. */
  predicate SoundNode(b: NodeBody)
  {
    match b
    case Create(c) => (c.contractId.Some? ==> |c.contractId.value| % 2 == 0) && Sound(c.argument)
    case Exercise(e, _) => (e.contractId.Some? ==> |e.contractId.value| % 2 == 0) && Sound(e.chosenValue) && Sound(e.exerciseResult)
    case Fetch(f) => f.contractId.Some? ==> |f.contractId.value| % 2 == 0
    case _ => true
  }

  lemma FeedIdsLatch(f: Feed, cid: Option<Str>, pkg: Option<Str>, tid: Identifier)
    requires cid.Some? && pkg.Some? && CompleteIdentifier(tid)
    ensures FeedIds(f, cid, pkg, tid).err == HASH_OK <==> f.err == HASH_OK && |cid.value| % 2 == 0
  {
    hide EncHex, EncBytes, FeedIdentifier;
    FeedIdentifierWrites(FeedString(FeedHex(f, cid), pkg), tid);
  }

  lemma FeedOptIdentifierLatches(f: Feed, id: Option<Identifier>)
    ensures FeedOptIdentifier(f, id).err == HASH_OK <==> f.err == HASH_OK && (id.Some? ==> CompleteIdentifier(id.value))
  {
    hide FeedIdentifier, CompleteIdentifier;
    if id.Some? {
      FeedIdentifierWrites(Put(f, [1]), id.value);
    }
  }

  lemma FeedPartiesLatch(f: Feed, signatories: seq<Option<Str>>, stakeholders: seq<Option<Str>>)
    requires PartiesPresent(signatories, stakeholders)
    ensures FeedParties(f, signatories, stakeholders).err == HASH_OK <==> f.err == HASH_OK
  {
    hide FeedRepeated, AllPresent;
    FeedRepeatedWrites(f, signatories);
    FeedRepeatedWrites(FeedRepeated(f, signatories), stakeholders);
  }

  lemma FeedActorsLatch(f: Feed, e: ExerciseFields)
    requires IsComplete(Exercise(e, []))
    ensures FeedActors(f, e).err == HASH_OK <==> f.err == HASH_OK
  {
    hide FeedRepeated, FeedParties, AllPresent, FeedOptIdentifier, CompleteIdentifier, EncBytes;
    var p := FeedParties(f, e.signatories, e.stakeholders);
    FeedPartiesLatch(f, e.signatories, e.stakeholders);
    FeedRepeatedWrites(p, e.actingParties);
    FeedOptIdentifierLatches(FeedRepeated(p, e.actingParties), e.interfaceId);
  }

  /** Hashing a complete node latches an error exactly when the node is not sound; an error from before stays. */
  lemma ShellLatches(b: NodeBody, seed: Option<seq<Byte>>, w: Walk)
    requires IsComplete(b) && (b.Exercise? ==> seed.Some?)
    ensures StreamShell(b, seed, w).feed.err == HASH_OK <==> w.feed.err == HASH_OK && SoundNode(b)
  {
    hide StreamCounted, FeedRepeated, FeedIds, FeedParties, FeedOptIdentifier, FeedActors, Sound, CompleteIdentifier, AllPresent, EncBytes;
    match b {
      case Create(c) =>
        var head := Put(FeedHead(w.feed, c.lfVersion, 0x00), EncOptHash(seed));
        FeedIdsLatch(head, c.contractId, c.packageName, c.templateId.value);
        var w1 := w.(feed := FeedIds(head, c.contractId, c.packageName, c.templateId.value));
        CountedLatches(c.argument, w1);
        FeedPartiesLatch(StreamCounted(c.argument, w1).feed, c.signatories, c.stakeholders);
      case Exercise(e, _) =>
        var head := Put(FeedHead(w.feed, e.lfVersion, 0x01), seed.value);
        FeedIdsLatch(head, e.contractId, e.packageName, e.templateId.value);
        var ids := FeedIds(head, e.contractId, e.packageName, e.templateId.value);
        FeedActorsLatch(ids, e);
        var w1 := w.(feed := FeedActors(ids, e));
        CountedLatches(e.chosenValue, w1);
        var w2 := Write(Write(StreamCounted(e.chosenValue, w1), [if e.consuming then 1 else 0]), [0x01]);
        CountedLatches(e.exerciseResult, w2);
        FeedRepeatedWrites(StreamCounted(e.exerciseResult, w2).feed, e.choiceObservers);
      case Fetch(f) =>
        var head := FeedHead(w.feed, f.lfVersion, 0x02);
        FeedIdsLatch(head, f.contractId, f.packageName, f.templateId.value);
        var parties := FeedParties(FeedIds(head, f.contractId, f.packageName, f.templateId.value), f.signatories, f.stakeholders);
        FeedPartiesLatch(FeedIds(head, f.contractId, f.packageName, f.templateId.value), f.signatories, f.stakeholders);
        FeedOptIdentifierLatches(parties, f.interfaceId);
        FeedRepeatedWrites(FeedOptIdentifier(parties, f.interfaceId), f.actingParties);
      case _ =>
    }
  }
}
