/** Preimage binding: nodes with the same bytes are the same, kind and hashed fields alike. */
module NodeBinding {
  import opened Bytes
  import opened CanonicalValue
  import opened HashWriter
  import opened CanonicalNode

  // ------------------------------------------------------------------ peeling one field

  lemma PeelString(a: Option<Str>, r: seq<Byte>, b: Option<Str>, s: seq<Byte>)
    requires GoodString(a) && GoodString(b)
    requires EncString(a) + r == EncString(b) + s
    ensures a == b && r == s
  {
    TakeBytesInverse(a.value, r);
    TakeBytesInverse(b.value, s);
  }

  predicate GoodHexField(s: Option<Str>) { s.Some? && GoodHex(s.value) }

  lemma PeelHex(a: Option<Str>, r: seq<Byte>, b: Option<Str>, s: seq<Byte>)
    requires GoodHexField(a) && GoodHexField(b)
    requires EncHex(a) + r == EncHex(b) + s
    ensures a == b && r == s
  {
    TakeBytesInverse(HexBytes(a.value), r);
    TakeBytesInverse(HexBytes(b.value), s);
    HexInverse(a.value);
    HexInverse(b.value);
  }

  lemma PeelIdentifier(a: Identifier, r: seq<Byte>, b: Identifier, s: seq<Byte>)
    requires GoodIdentifier(a) && GoodIdentifier(b)
    requires EncIdentifier(a) + r == EncIdentifier(b) + s
    ensures a == b && r == s
  {
    hide EncIdentifier, TakeIdentifier;
    TakeIdentifierInverse(a, r);
    TakeIdentifierInverse(b, s);
  }

  predicate GoodOptIdentifier(id: Option<Identifier>) { id.Some? ==> GoodIdentifier(id.value) }

  lemma PeelOptIdentifier(a: Option<Identifier>, r: seq<Byte>, b: Option<Identifier>, s: seq<Byte>)
    requires GoodOptIdentifier(a) && GoodOptIdentifier(b)
    requires EncOptIdentifier(a) + r == EncOptIdentifier(b) + s
    ensures a == b && r == s
  {
    hide EncOptIdentifier, TakeOptIdentifier, GoodIdentifier;
    TakeOptIdentifierInverse(a, r);
    TakeOptIdentifierInverse(b, s);
  }

  /** Two concatenations that agree and start with pieces of one length split alike. */
  lemma PeelFixed(a: seq<Byte>, r: seq<Byte>, b: seq<Byte>, s: seq<Byte>)
    requires |a| == |b| && a + r == b + s
    ensures a == b && r == s
  {
    assert a == (a + r)[..|a|] && b == (b + s)[..|b|];
    assert r == (a + r)[|a|..] && s == (b + s)[|b|..];
  }

  lemma PeelOptHash(a: Option<seq<Byte>>, r: seq<Byte>, b: Option<seq<Byte>>, s: seq<Byte>)
    requires (a.Some? ==> IsHash(a.value)) && (b.Some? ==> IsHash(b.value))
    requires EncOptHash(a) + r == EncOptHash(b) + s
    ensures a == b && r == s
  {
    assert (EncOptHash(a) + r)[0] == EncOptHash(a)[0] && (EncOptHash(b) + s)[0] == EncOptHash(b)[0];
    PeelFixed(EncOptHash(a), r, EncOptHash(b), s);
    if a.Some? {
      assert EncOptHash(a)[1..] == a.value && EncOptHash(b)[1..] == b.value;
    }
  }

  lemma PeelCount(m: nat, r: seq<Byte>, n: nat, s: seq<Byte>)
    requires m < 0x1_0000_0000 && n < 0x1_0000_0000
    requires U32(m) + r == U32(n) + s
    ensures m == n && r == s
  {
    hide U32;
    PeelFixed(U32(m), r, U32(n), s);
    WordInverse(m);
    WordInverse(n);
  }

  predicate GoodStrings(ss: seq<Option<Str>>) { FitsInt32(ss) && forall i :: 0 <= i < |ss| ==> GoodString(ss[i]) }

  lemma {:induction false} PeelStrings(a: seq<Option<Str>>, r: seq<Byte>, b: seq<Option<Str>>, s: seq<Byte>)
    requires |a| == |b| && GoodStrings(a) && GoodStrings(b)
    requires EncStrings(a) + r == EncStrings(b) + s
    ensures a == b && r == s
  {
    hide EncString;
    if |a| == 0 {
      assert [] + r == r && [] + s == s;
    } else {
      Assoc(EncString(a[0]), EncStrings(a[1..]), r);
      Assoc(EncString(b[0]), EncStrings(b[1..]), s);
      PeelString(a[0], EncStrings(a[1..]) + r, b[0], EncStrings(b[1..]) + s);
      PeelStrings(a[1..], r, b[1..], s);
      assert a == [a[0]] + a[1..] && b == [b[0]] + b[1..];
    }
  }

  lemma PeelRepeated(a: seq<Option<Str>>, r: seq<Byte>, b: seq<Option<Str>>, s: seq<Byte>)
    requires GoodStrings(a) && GoodStrings(b)
    requires EncRepeated(a) + r == EncRepeated(b) + s
    ensures a == b && r == s
  {
    hide EncStrings, U32;
    Assoc(U32(|a|), EncStrings(a), r);
    Assoc(U32(|b|), EncStrings(b), s);
    PeelCount(|a|, EncStrings(a) + r, |b|, EncStrings(b) + s);
    PeelStrings(a, r, b, s);
  }

  predicate GoodHashes(hs: seq<seq<Byte>>) { FitsInt32(hs) && forall i :: 0 <= i < |hs| ==> IsHash(hs[i]) }

  lemma {:induction false} PeelHashes(a: seq<seq<Byte>>, b: seq<seq<Byte>>)
    requires |a| == |b| && GoodHashes(a) && GoodHashes(b)
    requires ConcatHashes(a) == ConcatHashes(b)
    ensures a == b
  {
    if |a| > 0 {
      PeelFixed(a[0], ConcatHashes(a[1..]), b[0], ConcatHashes(b[1..]));
      PeelHashes(a[1..], b[1..]);
      assert a == [a[0]] + a[1..] && b == [b[0]] + b[1..];
    }
  }

  // ------------------------------------------------------------------ peeling groups of fields

  predicate GoodIds(cid: Option<Str>, pkg: Option<Str>, tid: Option<Identifier>)
  {
    GoodHexField(cid) && GoodString(pkg) && tid.Some? && GoodIdentifier(tid.value)
  }

  lemma PeelIds(c1: Option<Str>, p1: Option<Str>, t1: Identifier, r: seq<Byte>, c2: Option<Str>, p2: Option<Str>, t2: Identifier, s: seq<Byte>)
    requires GoodIds(c1, p1, Some(t1)) && GoodIds(c2, p2, Some(t2))
    requires IdBytes(c1, p1, t1) + r == IdBytes(c2, p2, t2) + s
    ensures c1 == c2 && p1 == p2 && t1 == t2 && r == s
  {
    hide EncHex, EncString, EncIdentifier, GoodHexField, GoodString, GoodIdentifier;
    ConcatAssoc();
    PeelHex(c1, EncString(p1) + (EncIdentifier(t1) + r), c2, EncString(p2) + (EncIdentifier(t2) + s));
    PeelString(p1, EncIdentifier(t1) + r, p2, EncIdentifier(t2) + s);
    PeelIdentifier(t1, r, t2, s);
  }

  lemma PeelParties(a1: seq<Option<Str>>, b1: seq<Option<Str>>, r: seq<Byte>, a2: seq<Option<Str>>, b2: seq<Option<Str>>, s: seq<Byte>)
    requires GoodStrings(a1) && GoodStrings(b1) && GoodStrings(a2) && GoodStrings(b2)
    requires PartyBytes(a1, b1) + r == PartyBytes(a2, b2) + s
    ensures a1 == a2 && b1 == b2 && r == s
  {
    hide EncRepeated, GoodStrings;
    ConcatAssoc();
    PeelRepeated(a1, EncRepeated(b1) + r, a2, EncRepeated(b2) + s);
    PeelRepeated(b1, r, b2, s);
  }

  /** lf_version shorter than 2^24 bytes: its length starts with a zero byte. */
  predicate GoodVersion(lf: Option<Str>) { lf.Some? && |lf.value| < 0x100_0000 }

  lemma PeelHead(lf1: Option<Str>, t1: Byte, r: seq<Byte>, lf2: Option<Str>, t2: Byte, s: seq<Byte>)
    requires GoodVersion(lf1) && GoodVersion(lf2)
    requires NodeHead(lf1, t1) + r == NodeHead(lf2, t2) + s
    ensures lf1 == lf2 && t1 == t2 && r == s
  {
    hide EncString;
    ConcatAssoc();
    PeelFixed([0x01], EncString(lf1) + ([t1] + r), [0x01], EncString(lf2) + ([t2] + s));
    PeelString(lf1, [t1] + r, lf2, [t2] + s);
    PeelFixed([t1], r, [t2], s);
  }

  /** The second byte of a node with a version is zero; a rollback's is three. */
  lemma HeadIsNotRollback(lf: Option<Str>, t: Byte, r: seq<Byte>)
    requires GoodVersion(lf)
    ensures |NodeHead(lf, t) + r| >= 2 && (NodeHead(lf, t) + r)[1] == 0
  {
    var n := |lf.value|;
    assert BigEndian(n / 256 / 256 / 256, 1) == BigEndian(0, 0) + [0] == [0];
    assert BigEndian(n / 256 / 256, 2) == BigEndian(n / 256 / 256 / 256, 1) + [n / 256 / 256 % 256];
    assert BigEndian(n / 256, 3)[0] == 0;
    assert U32(n)[0] == 0;
  }

  // ------------------------------------------------------------------ nodes

  /** The stated domain: fields present and within their widths, values canonical. */
  predicate Hashable(b: NodeBody)
  {
    IsComplete(b) &&
    match b
    case Create(c) =>
      GoodVersion(c.lfVersion) && GoodIds(c.contractId, c.packageName, c.templateId) && Canonical(c.argument) &&
      GoodStrings(c.signatories) && GoodStrings(c.stakeholders)
    case Exercise(e, _) =>
      GoodVersion(e.lfVersion) && GoodIds(e.contractId, e.packageName, e.templateId) && GoodActors(e) && GoodResult(e)
    case Fetch(f) =>
      GoodVersion(f.lfVersion) && GoodIds(f.contractId, f.packageName, f.templateId) &&
      GoodStrings(f.signatories) && GoodStrings(f.stakeholders) && GoodOptIdentifier(f.interfaceId) && GoodStrings(f.actingParties)
    case _ => true
  }

  predicate GoodActors(e: ExerciseFields)
  {
    GoodStrings(e.signatories) && GoodStrings(e.stakeholders) && GoodStrings(e.actingParties) &&
    GoodOptIdentifier(e.interfaceId) && GoodString(e.choiceId)
  }

  predicate GoodResult(e: ExerciseFields)
  {
    Canonical(e.chosenValue) && Canonical(e.exerciseResult) && GoodStrings(e.choiceObservers)
  }

  predicate GoodSeed(b: NodeBody, seed: Option<seq<Byte>>)
  {
    (seed.Some? ==> IsHash(seed.value)) && (b.Exercise? ==> seed.Some?)
  }

  /** The seed as it is hashed: fetches and rollbacks do not hash one. */
  function HashedSeed(b: NodeBody, seed: Option<seq<Byte>>): Option<seq<Byte>>
  {
    if b.Create? || b.Exercise? then seed else None
  }

  function FullBytes(b: NodeBody, seed: Option<seq<Byte>>, hs: seq<seq<Byte>>): seq<Byte>
    requires IsComplete(b) && (b.Exercise? ==> seed.Some?)
  {
    ShellBytes(b, seed) + ChildBytes(b, hs)
  }

  // ------------------------------------------------------------------ the layout, field by field

  /** What is hashed for a create. */
  lemma CreateLayout(c: CreateFields, seed: Option<seq<Byte>>, hs: seq<seq<Byte>>)
    requires IsComplete(Create(c)) && ReadableNode(Create(c))
    ensures
      var id := c.templateId.value;
      NodeStream(Create(c), seed, hs) ==
        [0x01] + (EncString(c.lfVersion) + ([0x00] + ((if seed.None? then [0x00] else [0x01] + seed.value) +
          (EncHex(c.contractId) + (EncString(c.packageName) + (EncString(id.packageId) + (EncDotted(id.moduleName) + (EncDotted(id.entityName) +
            (Encode(c.argument) + (EncRepeated(c.signatories) + EncRepeated(c.stakeholders)))))))))))
  {
    hide StreamShell, IsComplete, ReadableNode, CreateBytes;
    ShellIsCanonical(Create(c), seed, HASH_OK);
    TemplateIsPresent(Create(c));
    assert CreateBytes(c, seed) + [] == CreateBytes(c, seed);
    CreateSplit(c, seed);
  }

  lemma CreateSplit(c: CreateFields, seed: Option<seq<Byte>>)
    requires c.templateId.Some?
    ensures
      var id := c.templateId.value;
      CreateBytes(c, seed) ==
        [0x01] + (EncString(c.lfVersion) + ([0x00] + ((if seed.None? then [0x00] else [0x01] + seed.value) +
          (EncHex(c.contractId) + (EncString(c.packageName) + (EncString(id.packageId) + (EncDotted(id.moduleName) + (EncDotted(id.entityName) +
            (Encode(c.argument) + (EncRepeated(c.signatories) + EncRepeated(c.stakeholders)))))))))))
  {
    hide EncString, EncHex, EncDotted, Encode, EncRepeated;
    ConcatAssoc();
  }

  lemma TemplateIsPresent(b: NodeBody)
    requires IsComplete(b)
    ensures (b.Create? ==> b.create.templateId.Some?) && (b.Exercise? ==> b.exercise.templateId.Some?) && (b.Fetch? ==> b.fetch.templateId.Some?)
  {
  }

  /** What is hashed for an exercise: its fields, the chosen value, the result, and the hashes of its children. */
  lemma ExerciseLayout(e: ExerciseFields, children: seq<Str>, seed: seq<Byte>, hs: seq<seq<Byte>>)
    requires IsComplete(Exercise(e, children)) && ReadableNode(Exercise(e, children))
    ensures
      var id := e.templateId.value;
      NodeStream(Exercise(e, children), Some(seed), hs) ==
        [0x01] + (EncString(e.lfVersion) + ([0x01] + (seed +
          (EncHex(e.contractId) + (EncString(e.packageName) + (EncString(id.packageId) + (EncDotted(id.moduleName) + (EncDotted(id.entityName) +
            (EncRepeated(e.signatories) + (EncRepeated(e.stakeholders) + (EncRepeated(e.actingParties) + (EncOptIdentifier(e.interfaceId) +
              (EncString(e.choiceId) + (Encode(e.chosenValue) + ([if e.consuming then 0x01 else 0x00] + ([0x01] + (Encode(e.exerciseResult) +
                (EncRepeated(e.choiceObservers) + (U32(|hs|) + ConcatHashes(hs))))))))))))))))))))
  {
    hide StreamShell, IsComplete, ReadableNode, ExerciseBytes, EncString, EncHex, EncDotted, Encode, EncRepeated, EncOptIdentifier, U32;
    ShellIsCanonical(Exercise(e, children), Some(seed), HASH_OK);
    TemplateIsPresent(Exercise(e, children));
    ExerciseSplit(e, seed, U32(|hs|) + ConcatHashes(hs));
  }

  lemma ExerciseSplit(e: ExerciseFields, seed: seq<Byte>, rest: seq<Byte>)
    requires e.templateId.Some?
    ensures
      var id := e.templateId.value;
      ExerciseBytes(e, seed) + rest ==
        [0x01] + (EncString(e.lfVersion) + ([0x01] + (seed +
          (EncHex(e.contractId) + (EncString(e.packageName) + (EncString(id.packageId) + (EncDotted(id.moduleName) + (EncDotted(id.entityName) +
            (EncRepeated(e.signatories) + (EncRepeated(e.stakeholders) + (EncRepeated(e.actingParties) + (EncOptIdentifier(e.interfaceId) +
              (EncString(e.choiceId) + (Encode(e.chosenValue) + ([if e.consuming then 0x01 else 0x00] + ([0x01] + (Encode(e.exerciseResult) +
                (EncRepeated(e.choiceObservers) + rest))))))))))))))))))
  {
    hide NodeHead, IdBytes, ActorBytes, ResultBytes, EncString, EncHex, EncDotted, Encode, EncRepeated, EncOptIdentifier;
    var x := ResultBytes(e) + rest;
    var y := ActorBytes(e) + x;
    var z := IdBytes(e.contractId, e.packageName, e.templateId.value) + y;
    ResultSplit(e, rest);
    ActorsSplit(e, x);
    IdsSplit(e.contractId, e.packageName, e.templateId.value, y);
    HeadSplit(e.lfVersion, 0x01, seed + z);
    assert ExerciseBytes(e, seed) + rest == NodeHead(e.lfVersion, 0x01) + (seed + z) by { ConcatAssoc(); }
  }

  lemma HeadSplit(lf: Option<Str>, tag: Byte, r: seq<Byte>)
    ensures NodeHead(lf, tag) + r == [0x01] + (EncString(lf) + ([tag] + r))
  {
    hide EncString;
    ConcatAssoc();
  }

  lemma IdsSplit(cid: Option<Str>, pkg: Option<Str>, id: Identifier, r: seq<Byte>)
    ensures IdBytes(cid, pkg, id) + r ==
      EncHex(cid) + (EncString(pkg) + (EncString(id.packageId) + (EncDotted(id.moduleName) + (EncDotted(id.entityName) + r))))
  {
    hide EncString, EncHex, EncDotted;
    ConcatAssoc();
  }

  lemma ActorsSplit(e: ExerciseFields, r: seq<Byte>)
    ensures ActorBytes(e) + r ==
      EncRepeated(e.signatories) + (EncRepeated(e.stakeholders) + (EncRepeated(e.actingParties) + (EncOptIdentifier(e.interfaceId) + (EncString(e.choiceId) + r))))
  {
    hide EncString, EncRepeated, EncOptIdentifier;
    ConcatAssoc();
  }

  /** What is hashed for a fetch, which has no seed. */
  lemma FetchLayout(f: FetchFields, seed: Option<seq<Byte>>, hs: seq<seq<Byte>>)
    requires IsComplete(Fetch(f))
    ensures
      var id := f.templateId.value;
      NodeStream(Fetch(f), seed, hs) ==
        [0x01] + (EncString(f.lfVersion) + ([0x02] +
          (EncHex(f.contractId) + (EncString(f.packageName) + (EncString(id.packageId) + (EncDotted(id.moduleName) + (EncDotted(id.entityName) +
            (EncRepeated(f.signatories) + (EncRepeated(f.stakeholders) + (EncOptIdentifier(f.interfaceId) + EncRepeated(f.actingParties)))))))))))
  {
    hide StreamShell, IsComplete, FetchBytes, EncString, EncHex, EncDotted, Encode, EncRepeated, EncOptIdentifier;
    ShellIsCanonical(Fetch(f), seed, HASH_OK);
    TemplateIsPresent(Fetch(f));
    assert FetchBytes(f) + [] == FetchBytes(f);
    FetchSplit(f);
  }

  lemma FetchSplit(f: FetchFields)
    requires f.templateId.Some?
    ensures
      var id := f.templateId.value;
      FetchBytes(f) ==
        [0x01] + (EncString(f.lfVersion) + ([0x02] +
          (EncHex(f.contractId) + (EncString(f.packageName) + (EncString(id.packageId) + (EncDotted(id.moduleName) + (EncDotted(id.entityName) +
            (EncRepeated(f.signatories) + (EncRepeated(f.stakeholders) + (EncOptIdentifier(f.interfaceId) + EncRepeated(f.actingParties)))))))))))
  {
    hide EncString, EncHex, EncDotted, Encode, EncRepeated, EncOptIdentifier;
    ConcatAssoc();
  }

  /** What is hashed for a rollback: the version, the tag, and the hashes of its children. */
  lemma RollbackLayout(children: seq<Str>, seed: Option<seq<Byte>>, hs: seq<seq<Byte>>)
    ensures NodeStream(Rollback(children), seed, hs) == [0x01, 0x03] + (U32(|hs|) + ConcatHashes(hs))
  {
    hide StreamShell, U32;
    ShellIsCanonical(Rollback(children), seed, HASH_OK);
  }


  lemma CreateBinds(c1: CreateFields, s1: Option<seq<Byte>>, c2: CreateFields, s2: Option<seq<Byte>>)
    requires Hashable(Create(c1)) && Hashable(Create(c2)) && GoodSeed(Create(c1), s1) && GoodSeed(Create(c2), s2)
    requires CreateBytes(c1, s1) == CreateBytes(c2, s2)
    ensures c1 == c2 && s1 == s2
  {
    hide NodeHead, EncOptHash, IdBytes, Encode, PartyBytes, GoodStrings, Canonical, GoodHexField, GoodString, GoodIdentifier, GoodVersion;
    var t1, t2 := PartyBytes(c1.signatories, c1.stakeholders), PartyBytes(c2.signatories, c2.stakeholders);
    var v1, v2 := Encode(c1.argument) + t1, Encode(c2.argument) + t2;
    var i1, i2 := IdBytes(c1.contractId, c1.packageName, c1.templateId.value) + v1, IdBytes(c2.contractId, c2.packageName, c2.templateId.value) + v2;
    assert CreateBytes(c1, s1) == NodeHead(c1.lfVersion, 0) + (EncOptHash(s1) + i1) by { ConcatAssoc(); }
    assert CreateBytes(c2, s2) == NodeHead(c2.lfVersion, 0) + (EncOptHash(s2) + i2) by { ConcatAssoc(); }
    PeelHead(c1.lfVersion, 0, EncOptHash(s1) + i1, c2.lfVersion, 0, EncOptHash(s2) + i2);
    PeelOptHash(s1, i1, s2, i2);
    PeelIds(c1.contractId, c1.packageName, c1.templateId.value, v1, c2.contractId, c2.packageName, c2.templateId.value, v2);
    EncodeIsPrefixFree(c1.argument, c2.argument, t1, t2);
    assert t1 + [] == t1 && t2 + [] == t2;
    PeelParties(c1.signatories, c1.stakeholders, [], c2.signatories, c2.stakeholders, []);
  }

  lemma FetchBinds(f1: FetchFields, f2: FetchFields)
    requires Hashable(Fetch(f1)) && Hashable(Fetch(f2))
    requires FetchBytes(f1) == FetchBytes(f2)
    ensures f1 == f2
  {
    hide NodeHead, IdBytes, EncOptIdentifier, PartyBytes, EncRepeated, GoodStrings, GoodHexField, GoodString, GoodIdentifier, GoodVersion;
    var a1, a2 := EncRepeated(f1.actingParties), EncRepeated(f2.actingParties);
    var o1, o2 := EncOptIdentifier(f1.interfaceId) + a1, EncOptIdentifier(f2.interfaceId) + a2;
    var t1, t2 := PartyBytes(f1.signatories, f1.stakeholders) + o1, PartyBytes(f2.signatories, f2.stakeholders) + o2;
    var i1, i2 := IdBytes(f1.contractId, f1.packageName, f1.templateId.value) + t1, IdBytes(f2.contractId, f2.packageName, f2.templateId.value) + t2;
    assert FetchBytes(f1) == NodeHead(f1.lfVersion, 2) + i1 by { ConcatAssoc(); }
    assert FetchBytes(f2) == NodeHead(f2.lfVersion, 2) + i2 by { ConcatAssoc(); }
    PeelHead(f1.lfVersion, 2, i1, f2.lfVersion, 2, i2);
    PeelIds(f1.contractId, f1.packageName, f1.templateId.value, t1, f2.contractId, f2.packageName, f2.templateId.value, t2);
    PeelParties(f1.signatories, f1.stakeholders, o1, f2.signatories, f2.stakeholders, o2);
    PeelOptIdentifier(f1.interfaceId, a1, f2.interfaceId, a2);
    assert a1 + [] == a1 && a2 + [] == a2;
    PeelRepeated(f1.actingParties, [], f2.actingParties, []);
  }

  lemma PeelActors(e1: ExerciseFields, r: seq<Byte>, e2: ExerciseFields, s: seq<Byte>)
    requires GoodActors(e1) && GoodActors(e2)
    requires ActorBytes(e1) + r == ActorBytes(e2) + s
    ensures e1.signatories == e2.signatories && e1.stakeholders == e2.stakeholders && e1.actingParties == e2.actingParties
    ensures e1.interfaceId == e2.interfaceId && e1.choiceId == e2.choiceId && r == s
  {
    hide EncOptIdentifier, PartyBytes, EncRepeated, EncString, GoodStrings, GoodString, GoodIdentifier;
    var c1, c2 := EncString(e1.choiceId) + r, EncString(e2.choiceId) + s;
    var o1, o2 := EncOptIdentifier(e1.interfaceId) + c1, EncOptIdentifier(e2.interfaceId) + c2;
    var a1, a2 := EncRepeated(e1.actingParties) + o1, EncRepeated(e2.actingParties) + o2;
    assert ActorBytes(e1) + r == PartyBytes(e1.signatories, e1.stakeholders) + a1 by { ConcatAssoc(); }
    assert ActorBytes(e2) + s == PartyBytes(e2.signatories, e2.stakeholders) + a2 by { ConcatAssoc(); }
    PeelParties(e1.signatories, e1.stakeholders, a1, e2.signatories, e2.stakeholders, a2);
    PeelRepeated(e1.actingParties, o1, e2.actingParties, o2);
    PeelOptIdentifier(e1.interfaceId, c1, e2.interfaceId, c2);
    PeelString(e1.choiceId, r, e2.choiceId, s);
  }

  function Flag(consuming: bool): seq<Byte> { [if consuming then 1 else 0] }

  lemma ResultSplit(e: ExerciseFields, r: seq<Byte>)
    ensures ResultBytes(e) + r ==
      Encode(e.chosenValue) + (Flag(e.consuming) + ([0x01] + (Encode(e.exerciseResult) + (EncRepeated(e.choiceObservers) + r))))
  {
    hide Encode, EncRepeated;
    ConcatAssoc();
  }

  lemma PeelResult(e1: ExerciseFields, r: seq<Byte>, e2: ExerciseFields, s: seq<Byte>)
    requires GoodResult(e1) && GoodResult(e2)
    requires ResultBytes(e1) + r == ResultBytes(e2) + s
    ensures e1.chosenValue == e2.chosenValue && e1.consuming == e2.consuming && e1.exerciseResult == e2.exerciseResult
    ensures e1.choiceObservers == e2.choiceObservers && r == s
  {
    hide Encode, EncRepeated, GoodStrings, Canonical, ResultBytes, Flag;
    var x1, x2 := Encode(e1.exerciseResult) + (EncRepeated(e1.choiceObservers) + r), Encode(e2.exerciseResult) + (EncRepeated(e2.choiceObservers) + s);
    ResultSplit(e1, r);
    ResultSplit(e2, s);
    EncodeIsPrefixFree(e1.chosenValue, e2.chosenValue, Flag(e1.consuming) + ([0x01] + x1), Flag(e2.consuming) + ([0x01] + x2));
    PeelFlag(e1.consuming, [0x01] + x1, e2.consuming, [0x01] + x2);
    PeelFixed([0x01], x1, [0x01], x2);
    EncodeIsPrefixFree(e1.exerciseResult, e2.exerciseResult, EncRepeated(e1.choiceObservers) + r, EncRepeated(e2.choiceObservers) + s);
    PeelRepeated(e1.choiceObservers, r, e2.choiceObservers, s);
  }

  lemma PeelFlag(a: bool, r: seq<Byte>, b: bool, s: seq<Byte>)
    requires Flag(a) + r == Flag(b) + s
    ensures a == b && r == s
  {
    PeelFixed(Flag(a), r, Flag(b), s);
    assert Flag(a)[0] == Flag(b)[0];
  }

  lemma ExerciseBinds(e1: ExerciseFields, s1: seq<Byte>, r: seq<Byte>, e2: ExerciseFields, s2: seq<Byte>, s: seq<Byte>)
    requires Hashable(Exercise(e1, [])) && Hashable(Exercise(e2, [])) && IsHash(s1) && IsHash(s2)
    requires ExerciseBytes(e1, s1) + r == ExerciseBytes(e2, s2) + s
    ensures e1 == e2 && s1 == s2 && r == s
  {
    hide NodeHead, IdBytes, ActorBytes, ResultBytes, GoodHexField, GoodString, GoodIdentifier, GoodVersion, GoodActors, GoodResult;
    var y1, y2 := ResultBytes(e1) + r, ResultBytes(e2) + s;
    var a1, a2 := ActorBytes(e1) + y1, ActorBytes(e2) + y2;
    var i1, i2 := IdBytes(e1.contractId, e1.packageName, e1.templateId.value) + a1, IdBytes(e2.contractId, e2.packageName, e2.templateId.value) + a2;
    assert ExerciseBytes(e1, s1) + r == NodeHead(e1.lfVersion, 1) + (s1 + i1) by { ConcatAssoc(); }
    assert ExerciseBytes(e2, s2) + s == NodeHead(e2.lfVersion, 1) + (s2 + i2) by { ConcatAssoc(); }
    PeelHead(e1.lfVersion, 1, s1 + i1, e2.lfVersion, 1, s2 + i2);
    PeelFixed(s1, i1, s2, i2);
    PeelIds(e1.contractId, e1.packageName, e1.templateId.value, a1, e2.contractId, e2.packageName, e2.templateId.value, a2);
    PeelActors(e1, y1, e2, y2);
    PeelResult(e1, r, e2, s);
  }

  lemma ChildrenBind(h1: seq<seq<Byte>>, h2: seq<seq<Byte>>)
    requires GoodHashes(h1) && GoodHashes(h2)
    requires U32(|h1|) + ConcatHashes(h1) == U32(|h2|) + ConcatHashes(h2)
    ensures h1 == h2
  {
    hide U32, ConcatHashes;
    PeelCount(|h1|, ConcatHashes(h1), |h2|, ConcatHashes(h2));
    PeelHashes(h1, h2);
  }

  /** Which kind of node a byte string is: empty, a rollback, or the tag after the version. */
  lemma SameKind(b1: NodeBody, s1: Option<seq<Byte>>, h1: seq<seq<Byte>>, b2: NodeBody, s2: Option<seq<Byte>>, h2: seq<seq<Byte>>)
    requires Hashable(b1) && Hashable(b2) && GoodSeed(b1, s1) && GoodSeed(b2, s2)
    requires FullBytes(b1, s1, h1) == FullBytes(b2, s2, h2)
    ensures b1.Create? == b2.Create? && b1.Exercise? == b2.Exercise? && b1.Fetch? == b2.Fetch? && b1.Rollback? == b2.Rollback?
  {
    hide FullBytes, Canonical, GoodStrings, GoodIds, GoodActors, GoodResult, GoodOptIdentifier, GoodVersion;
    if b1.Create? || b1.Exercise? || b1.Fetch? {
      var lf1, t1, r1 := HeadOf(b1, s1, h1);
      HeadIsNotRollback(lf1, t1, r1);
      if b2.Create? || b2.Exercise? || b2.Fetch? {
        var lf2, t2, r2 := HeadOf(b2, s2, h2);
        PeelHead(lf1, t1, r1, lf2, t2, r2);
      } else {
        HeadlessBytes(b2, s2, h2);
      }
    } else {
      HeadlessBytes(b1, s1, h1);
      if b2.Create? || b2.Exercise? || b2.Fetch? {
        var lf2, t2, r2 := HeadOf(b2, s2, h2);
        HeadIsNotRollback(lf2, t2, r2);
      } else {
        HeadlessBytes(b2, s2, h2);
      }
    }
  }

  lemma HeadlessBytes(b: NodeBody, seed: Option<seq<Byte>>, hs: seq<seq<Byte>>)
    requires b.Rollback? || b.NoBody?
    ensures b.NoBody? ==> FullBytes(b, seed, hs) == []
    ensures b.Rollback? ==> |FullBytes(b, seed, hs)| >= 2 && FullBytes(b, seed, hs)[1] == 3
  {
  }

  lemma HeadOf(b: NodeBody, seed: Option<seq<Byte>>, hs: seq<seq<Byte>>) returns (lf: Option<Str>, tag: Byte, rest: seq<Byte>)
    requires Hashable(b) && GoodSeed(b, seed) && (b.Create? || b.Exercise? || b.Fetch?)
    ensures GoodVersion(lf) && tag == (if b.Create? then 0 else if b.Exercise? then 1 else 2)
    ensures FullBytes(b, seed, hs) == NodeHead(lf, tag) + rest
  {
    hide ChildBytes, Canonical, GoodStrings, GoodIds, GoodActors, GoodResult, GoodOptIdentifier, NodeHead, EncOptHash, IdBytes,
         Encode, PartyBytes, ActorBytes, ResultBytes, EncOptIdentifier, EncRepeated;
    match b {
      case Create(c) =>
        lf, tag := c.lfVersion, 0;
        rest := EncOptHash(seed) + (IdBytes(c.contractId, c.packageName, c.templateId.value) +
                  (Encode(c.argument) + (PartyBytes(c.signatories, c.stakeholders) + ChildBytes(b, hs))));
      case Exercise(e, _) =>
        lf, tag := e.lfVersion, 1;
        rest := seed.value + (IdBytes(e.contractId, e.packageName, e.templateId.value) +
                  (ActorBytes(e) + (ResultBytes(e) + ChildBytes(b, hs))));
      case Fetch(f) =>
        lf, tag := f.lfVersion, 2;
        rest := IdBytes(f.contractId, f.packageName, f.templateId.value) +
                  (PartyBytes(f.signatories, f.stakeholders) +
                    (EncOptIdentifier(f.interfaceId) + (EncRepeated(f.actingParties) + ChildBytes(b, hs))));
    }
    ConcatAssoc();
  }

  /** Same bytes, same node: kind, hashed fields, seed and child hashes. */
  lemma NodeBytesBind(b1: NodeBody, s1: Option<seq<Byte>>, h1: seq<seq<Byte>>, b2: NodeBody, s2: Option<seq<Byte>>, h2: seq<seq<Byte>>)
    requires Hashable(b1) && Hashable(b2) && GoodSeed(b1, s1) && GoodSeed(b2, s2)
    requires GoodHashes(h1) && GoodHashes(h2)
    requires FullBytes(b1, s1, h1) == FullBytes(b2, s2, h2)
    ensures Shell(b1) == Shell(b2) && HashedSeed(b1, s1) == HashedSeed(b2, s2)
    ensures HasChildren(b1) ==> h1 == h2
  {
    hide CreateBytes, ExerciseBytes, FetchBytes, Canonical, GoodStrings, GoodIds, GoodActors, GoodResult, GoodOptIdentifier, GoodVersion,
         ConcatHashes, U32, GoodHashes;
    SameKind(b1, s1, h1, b2, s2, h2);
    match b1 {
      case Create(c) =>
        assert ShellBytes(b1, s1) + [] == ShellBytes(b1, s1) && ShellBytes(b2, s2) + [] == ShellBytes(b2, s2);
        CreateBinds(c, s1, b2.create, s2);
      case Fetch(f) =>
        assert ShellBytes(b1, s1) + [] == ShellBytes(b1, s1) && ShellBytes(b2, s2) + [] == ShellBytes(b2, s2);
        FetchBinds(f, b2.fetch);
      case Exercise(e, _) =>
        ExerciseBinds(e, s1.value, ChildBytes(b1, h1), b2.exercise, s2.value, ChildBytes(b2, h2));
        ChildrenBind(h1, h2);
      case Rollback(_) =>
        PeelFixed([0x01, 0x03], ChildBytes(b1, h1), [0x01, 0x03], ChildBytes(b2, h2));
        ChildrenBind(h1, h2);
      case NoBody =>
    }
  }
}
