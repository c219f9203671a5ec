/** Every onboarding session up to its last message: what clear signing implies, and what is signed. */
module OnboardingRuns {
  import opened Bytes
  import opened MultiHash
  import opened Onboarding

  // ------------------------------------------------------------------ runs

  function After(h: Sha256, dev: Device, ms: seq<Message>): Outcome
  {
    if |ms| == 0 then Continue(START)
    else match After(h, dev, ms[..|ms| - 1])
      case Continue(st) => Step(h, dev, st, ms[|ms| - 1])
      case done => done
  }

  /** The session ends with the last of these messages. */
  predicate Ends(h: Sha256, dev: Device, ms: seq<Message>)
  {
    |ms| > 0 && After(h, dev, ms[..|ms| - 1]).Continue? && After(h, dev, ms).Finished?
  }

  datatype Kind = NAMESPACE_DELEGATION | PARTY_TO_KEY | PARTY_TO_PARTICIPANT | NO_KIND

  function KindOf(m: Message): Kind
  {
    if m.parsed.None? || m.parsed.value.mapping.None? then NO_KIND
    else match m.parsed.value.mapping.value
      case NamespaceDelegation(_) => NAMESPACE_DELEGATION
      case PartyToKeyMapping(_, _, _) => PARTY_TO_KEY
      case PartyToParticipant(_, _, _, _) => PARTY_TO_PARTICIPANT
      case UnknownMapping => NO_KIND
  }

  function Count(ms: seq<Message>, kind: Kind): (n: nat)
    ensures n <= |ms|
  {
    if |ms| == 0 then 0 else Count(ms[..|ms| - 1], kind) + if KindOf(ms[|ms| - 1]) == kind then 1 else 0
  }

  function Hashes(h: Sha256, ms: seq<Message>): (hs: seq<Hash>)
    ensures |hs| == |ms|
  {
    if |ms| == 0 then [] else Hashes(h, ms[..|ms| - 1]) + [TopologyHash(h, ms[|ms| - 1])]
  }

  // ------------------------------------------------------------------ participants

  /** Pairs of two distinct, non-empty ids. */
  predicate GoodConfigs(configs: seq<seq<Validator>>)
  {
    forall c :: 0 <= c < |configs| ==> |configs[c]| == 2 && |configs[c][0].id| > 0 && |configs[c][1].id| > 0 && configs[c][0].id != configs[c][1].id
  }

  /** The two participants are a configured pair, in either order. */
  predicate IsPair(config: seq<Validator>, a: Option<Str>, b: Option<Str>)
  {
    |config| == 2 &&
    ((a == Some(config[0].id) && b == Some(config[1].id)) || (a == Some(config[1].id) && b == Some(config[0].id)))
  }

  /** The name configured for an id. */
  predicate IsNameOf(config: seq<Validator>, uid: Option<Str>, name: Str)
  {
    exists k :: 0 <= k < |config| && uid == Some(config[k].id) && name == config[k].name
  }

  lemma ConfigMatches(config: seq<Validator>, a: Option<Str>, b: Option<Str>)
    requires |config| == 2 && |config[0].id| > 0 && |config[1].id| > 0 && config[0].id != config[1].id
    ensures MatchConfig(config, a, b).Names? <==> IsPair(config, a, b)
    ensures IsPair(config, a, b) ==> IsNameOf(config, a, MatchConfig(config, a, b).first) && IsNameOf(config, b, MatchConfig(config, a, b).second)
    ensures a != b && !MissingUid(a) && !MissingUid(b) ==> !MatchConfig(config, a, b).Fails?
  {
    var i, j := Find(config, a), Find(config, b);
  }

  /** Two participants are accepted exactly when they are a permutation of one configured validator pair,
      and are shown under the names configured for them. */
  lemma {:induction false} ParticipantsMatchIff(configs: seq<seq<Validator>>, a: Option<Str>, b: Option<Str>)
    requires GoodConfigs(configs)
    ensures MatchAny(configs, a, b).Names? <==> exists c :: 0 <= c < |configs| && IsPair(configs[c], a, b)
    ensures MatchAny(configs, a, b).Names? ==>
      exists c :: 0 <= c < |configs| && IsPair(configs[c], a, b) && IsNameOf(configs[c], a, MatchAny(configs, a, b).first) &&
                  IsNameOf(configs[c], b, MatchAny(configs, a, b).second)
  {
    hide IsPair, MatchConfig, IsNameOf;
    if |configs| > 0 {
      ConfigMatches(configs[0], a, b);
      assert forall c :: 0 < c < |configs| ==> configs[c] == configs[1..][c - 1];
      assert forall c :: 0 <= c < |configs| - 1 ==> configs[1..][c] == configs[c + 1];
      ParticipantsMatchIff(configs[1..], a, b);
      if c :| 0 <= c < |configs| && IsPair(configs[c], a, b) {
        PairIsProper(configs[c], a, b);
      }
    }
  }

  lemma PairIsProper(config: seq<Validator>, a: Option<Str>, b: Option<Str>)
    requires IsPair(config, a, b) && |config[0].id| > 0 && |config[1].id| > 0 && config[0].id != config[1].id
    ensures a != b && !MissingUid(a) && !MissingUid(b)
  {
  }

  // ------------------------------------------------------------------ what an accepted message says

  /** The checks of one mapping, declaratively. */
  ghost predicate Sound(dev: Device, m: Message)
  {
    m.parsed.Some? && (m.parsed.value.mapping.Some? ==> m.parsed.value.addReplace && SoundMapping(dev, m.parsed.value.mapping.value))
  }

  ghost predicate SoundMapping(dev: Device, m: Mapping)
  {
    match m
    case NamespaceDelegation(key) => key.Some? && IsDeviceKey(dev, key.value)
    case PartyToKeyMapping(party, threshold, keys) =>
      party.Some? && party == dev.partyId && threshold == 1 == |keys| && IsDeviceKey(dev, keys[0])
    case PartyToParticipant(party, threshold, participants, hasKeys) =>
      party.Some? && party == dev.partyId && threshold == 2 == |participants| && !hasKeys &&
      exists c :: 0 <= c < |dev.configs| && IsPair(dev.configs[c], participants[0], participants[1])
    case UnknownMapping => false
  }

  /** The device's public key, raw or behind the DER prefix. */
  predicate IsDeviceKey(dev: Device, key: Key)
  {
    (key.format == RAW && key.bytes == dev.publicKey) ||
    (key.format == DER_X509 && key.bytes == [0x30, 0x2A, 0x30, 0x05, 0x06, 0x03, 0x2B, 0x65, 0x70, 0x03, 0x21, 0x00] + dev.publicKey)
  }

  lemma KeyErrorMeaning(dev: Device, key: Key)
    requires |dev.publicKey| == 32
    ensures KeyError(dev, key).None? <==> IsDeviceKey(dev, key)
  {
    if key.format == DER_X509 && |key.bytes| == 44 {
      assert key.bytes == key.bytes[..12] + key.bytes[12..];
    }
    if key.format == DER_X509 && IsDeviceKey(dev, key) {
      assert key.bytes[..12] == ED25519_DER_PREFIX && key.bytes[12..] == dev.publicKey;
    }
  }

  /** The device: a 32-byte key and proper validator pairs. */
  predicate GoodDevice(dev: Device) { |dev.publicKey| == 32 && GoodConfigs(dev.configs) }

  /** What one taken message does to the flags and the pairs. */
  lemma MappingTaken(dev: Device, st: State, m: Mapping)
    requires GoodDevice(dev) && ProcessMapping(dev, st, m).Continue?
    ensures SoundMapping(dev, m) && !m.UnknownMapping?
    ensures
      var t := ProcessMapping(dev, st, m).st;
      t.hashes == st.hashes && t.clear == st.clear && t.mHash == st.mHash &&
      (m.NamespaceDelegation? ==> !st.namespaceDelegation && t == st.(namespaceDelegation := true)) &&
      (m.PartyToKeyMapping? ==> !st.partyToKey && t == st.(partyToKey := true)) &&
      (m.PartyToParticipant? ==> (
         !st.partyToParticipant && t.partyToParticipant && t == st.(partyToParticipant := true, pairs := t.pairs) &&
         exists c, first, second :: 0 <= c < |dev.configs| && IsPair(dev.configs[c], m.participants[0], m.participants[1]) &&
           IsNameOf(dev.configs[c], m.participants[0], first) && IsNameOf(dev.configs[c], m.participants[1], second) &&
           t.pairs == st.pairs + Shown(m.party.value, first, second)))
  {
    hide KeyError, MatchAny, IsPair, IsNameOf, Shown, IsDeviceKey;
    match m {
      case NamespaceDelegation(key) => KeyErrorMeaning(dev, key.value);
      case PartyToKeyMapping(_, _, keys) => KeyErrorMeaning(dev, keys[0]);
      case PartyToParticipant(_, _, participants, _) => ParticipantsMatchIff(dev.configs, participants[0], participants[1]);
      case UnknownMapping =>
    }
  }

  /** The session already took a mapping of this kind. */
  predicate Repeats(st: State, m: Mapping)
  {
    (m.NamespaceDelegation? && st.namespaceDelegation) || (m.PartyToKeyMapping? && st.partyToKey) || (m.PartyToParticipant? && st.partyToParticipant)
  }

  /** A mapping is taken exactly when its checks pass and it is the first of its kind. */
  lemma MappingTakenIff(dev: Device, st: State, m: Mapping)
    requires GoodDevice(dev)
    ensures ProcessMapping(dev, st, m).Continue? <==> SoundMapping(dev, m) && !Repeats(st, m)
  {
    hide KeyError, MatchAny, IsPair, IsNameOf, Shown, IsDeviceKey;
    match m {
      case NamespaceDelegation(key) => if key.Some? { KeyErrorMeaning(dev, key.value); }
      case PartyToKeyMapping(_, _, keys) => if |keys| > 0 { KeyErrorMeaning(dev, keys[0]); }
      case PartyToParticipant(_, _, participants, _) =>
        if |participants| == 2 {
          ParticipantsMatchIff(dev.configs, participants[0], participants[1]);
          AnyIsDecided(dev.configs, participants[0], participants[1]);
        }
      case UnknownMapping =>
    }
  }

  lemma {:induction false} AnyIsDecided(configs: seq<seq<Validator>>, a: Option<Str>, b: Option<Str>)
    ensures !MatchAny(configs, a, b).NoMatch?
  {
    hide MatchConfig;
    if |configs| > 0 {
      AnyIsDecided(configs[1..], a, b);
    }
  }

  // ------------------------------------------------------------------ what a refusal says

  /** What each status says about a mapping. */
  ghost predicate IsTrueOf(dev: Device, st: State, m: Mapping, sw: Status)
  {
    match sw
    case SW_TOPOLOGY_MULTIPLE_NAMESPACE_DELEGATIONS => m.NamespaceDelegation? && st.namespaceDelegation
    case SW_TOPOLOGY_MISSING_TARGET_KEY => m.NamespaceDelegation? && m.targetKey.None?
    case SW_TOPOLOGY_MISSING_PARTY_KEY => exists key :: IsKeyOf(m, key) && key.bytes == []
    case SW_TOPOLOGY_PARTY_KEY_WRONG_FORMAT => exists key :: IsKeyOf(m, key) && !IsShaped(key)
    case SW_TOPOLOGY_PARTY_KEY_MISMATCH => exists key :: IsKeyOf(m, key) && IsShaped(key) && !IsDeviceKey(dev, key)
    case SW_TOPOLOGY_MULTIPLE_PARTY_TO_KEY_MAPPINGS => m.PartyToKeyMapping? && st.partyToKey
    case SW_TOPOLOGY_PARTY_ID_MISMATCH =>
      (m.PartyToKeyMapping? && (m.keyParty.None? || m.keyParty != dev.partyId)) || (m.PartyToParticipant? && m.party.Some? && m.party != dev.partyId)
    case SW_TOPOLOGY_UNEXPECTED_PARTY_TO_KEY_THRESHOLD_VALUE => m.PartyToKeyMapping? && m.keyThreshold != |m.signingKeys|
    case SW_TOPOLOGY_UNEXPECTED_PARTY_TO_KEY_SIGNING_KEYS_COUNT => m.PartyToKeyMapping? && |m.signingKeys| != 1
    case SW_TOPOLOGY_MULTIPLE_PARTY_TO_PARTICIPANTS => m.PartyToParticipant? && st.partyToParticipant
    case SW_TOPOLOGY_MISSING_PARTY => m.PartyToParticipant? && m.party.None?
    case SW_TOPOLOGY_UNEXPECTED_NUMBER_OF_PARTICIPANTS => m.PartyToParticipant? && |m.participants| != 2
    case SW_TOPOLOGY_UNEXPECTED_THRESHOLD_VALUE => m.PartyToParticipant? && m.threshold != |m.participants|
    case SW_TOPOLOGY_UNEXPECTED_PARTY_SIGNING_KEYS => m.PartyToParticipant? && m.hasPartySigningKeys
    case SW_TOPOLOGY_MISSING_PARTICIPANT_DATA => m.PartyToParticipant? && exists i :: 0 <= i < |m.participants| && IsBlank(m.participants[i])
    case SW_TOPOLOGY_UNEXPECTED_DUPLICATE_PARTICIPANT =>
      m.PartyToParticipant? && |m.participants| == 2 && m.participants[0].Some? && m.participants[0] == m.participants[1]
    case SW_TOPOLOGY_UNEXPECTED_PARTICIPANT_ID =>
      m.PartyToParticipant? && |m.participants| == 2 &&
      forall c :: 0 <= c < |dev.configs| ==> !IsPair(dev.configs[c], m.participants[0], m.participants[1])
    case SW_TOPOLOGY_UNKNOWN_MAPPING_TYPE => m.UnknownMapping?
    case _ => false
  }

  predicate IsBlank(uid: Option<Str>) { uid.None? || uid.value == [] }

  /** The key a mapping is checked by. */
  predicate IsKeyOf(m: Mapping, key: Key)
  {
    (m.NamespaceDelegation? && m.targetKey == Some(key)) || (m.PartyToKeyMapping? && |m.signingKeys| == 1 && m.signingKeys[0] == key)
  }

  /** An Ed25519 key: 32 bytes, or 44 that start with the DER prefix. */
  predicate IsShaped(key: Key)
  {
    (key.format == RAW && |key.bytes| == 32) ||
    (key.format == DER_X509 && |key.bytes| == 44 && key.bytes[..12] == [0x30, 0x2A, 0x30, 0x05, 0x06, 0x03, 0x2B, 0x65, 0x70, 0x03, 0x21, 0x00])
  }

  lemma KeyErrorIsTrue(dev: Device, key: Key)
    requires |dev.publicKey| == 32 && KeyError(dev, key).Some?
    ensures match KeyError(dev, key).value {
      case SW_TOPOLOGY_MISSING_PARTY_KEY => key.bytes == []
      case SW_TOPOLOGY_PARTY_KEY_WRONG_FORMAT => !IsShaped(key)
      case SW_TOPOLOGY_PARTY_KEY_MISMATCH => IsShaped(key) && !IsDeviceKey(dev, key)
      case _ => false
    }
  {
    KeyErrorMeaning(dev, key);
  }

  lemma {:induction false} MatchIsTrue(configs: seq<seq<Validator>>, a: Option<Str>, b: Option<Str>)
    requires GoodConfigs(configs) && MatchAny(configs, a, b).Fails?
    ensures match MatchAny(configs, a, b).sw {
      case SW_TOPOLOGY_MISSING_PARTICIPANT_DATA => IsBlank(a) || IsBlank(b)
      case SW_TOPOLOGY_UNEXPECTED_DUPLICATE_PARTICIPANT => a.Some? && a == b
      case SW_TOPOLOGY_UNEXPECTED_PARTICIPANT_ID => forall c :: 0 <= c < |configs| ==> !IsPair(configs[c], a, b)
      case _ => false
    }
  {
    hide IsPair;
    ParticipantsMatchIff(configs, a, b);
    if |configs| > 0 {
      ConfigIsTrue(configs[0], a, b);
      if MatchConfig(configs[0], a, b).NoMatch? {
        MatchIsTrue(configs[1..], a, b);
      }
    }
  }

  lemma ConfigIsTrue(config: seq<Validator>, a: Option<Str>, b: Option<Str>)
    ensures var o := MatchConfig(config, a, b);
      o.Fails? ==> if o.sw == SW_TOPOLOGY_MISSING_PARTICIPANT_DATA then IsBlank(a) || IsBlank(b)
                   else o.sw == SW_TOPOLOGY_UNEXPECTED_DUPLICATE_PARTICIPANT && a.Some? && a == b
  {
    var i, j := Find(config, a), Find(config, b);
  }

  /** Whatever a mapping is refused for is true of it. */
  lemma RefusalIsTrue(dev: Device, st: State, m: Mapping)
    requires GoodDevice(dev) && ProcessMapping(dev, st, m).Refused?
    ensures IsTrueOf(dev, st, m, ProcessMapping(dev, st, m).sw)
  {
    hide KeyError, MatchAny, IsPair, Shown, IsDeviceKey, IsShaped;
    match m {
      case NamespaceDelegation(key) =>
        if key.Some? && KeyError(dev, key.value).Some? {
          KeyErrorIsTrue(dev, key.value);
          assert IsKeyOf(m, key.value);
        }
      case PartyToKeyMapping(_, _, keys) =>
        if |keys| == 1 && KeyError(dev, keys[0]).Some? {
          KeyErrorIsTrue(dev, keys[0]);
          assert IsKeyOf(m, keys[0]);
        }
      case PartyToParticipant(_, _, participants, _) =>
        if |participants| == 2 {
          AnyIsDecided(dev.configs, participants[0], participants[1]);
          if MatchAny(dev.configs, participants[0], participants[1]).Fails? {
            MatchIsTrue(dev.configs, participants[0], participants[1]);
          }
        }
      case UnknownMapping =>
    }
  }

  // ------------------------------------------------------------------ the invariant of a session

  /** The pairs shown for one participant message. */
  ghost predicate ShowsPair(dev: Device, m: Message, pairs: seq<Pair>)
  {
    KindOf(m) == PARTY_TO_PARTICIPANT && |m.parsed.value.mapping.value.participants| == 2 && m.parsed.value.mapping.value.party.Some? &&
    exists c, first, second :: 0 <= c < |dev.configs| && ShowsConfig(dev.configs[c], m.parsed.value.mapping.value, first, second, pairs)
  }

  ghost predicate ShowsConfig(config: seq<Validator>, m: Mapping, first: Str, second: Str, pairs: seq<Pair>)
    requires m.PartyToParticipant? && |m.participants| == 2 && m.party.Some?
  {
    IsPair(config, m.participants[0], m.participants[1]) && IsNameOf(config, m.participants[0], first) && IsNameOf(config, m.participants[1], second) &&
    |pairs| == 4 && pairs[0] == Pair(PARTY_FIELD, m.party.value) && pairs[1] == Pair(PARTICIPANT_1_FIELD, first) &&
    pairs[2] == Pair(PARTICIPANT_2_FIELD, second) && pairs[3] == Pair(THRESHOLD_FIELD, [50, 32, 111, 117, 116, 32, 111, 102, 32, 50])
  }

  ghost predicate Follows(h: Sha256, dev: Device, ms: seq<Message>, st: State)
  {
    st.hashes == Hashes(h, ms) && |ms| <= MAX_HASHES && !st.clear &&
    Count(ms, NAMESPACE_DELEGATION) == (if st.namespaceDelegation then 1 else 0) &&
    Count(ms, PARTY_TO_KEY) == (if st.partyToKey then 1 else 0) &&
    Count(ms, PARTY_TO_PARTICIPANT) == (if st.partyToParticipant then 1 else 0) &&
    (forall i :: 0 <= i < |ms| ==> Sound(dev, ms[i])) &&
    (if st.partyToParticipant then exists i :: 0 <= i < |ms| && ShowsPair(dev, ms[i], st.pairs) else st.pairs == [])
  }

  lemma CountStep(ms: seq<Message>, m: Message, kind: Kind)
    ensures Count(ms + [m], kind) == Count(ms, kind) + if KindOf(m) == kind then 1 else 0
  {
    assert (ms + [m])[..|ms|] == ms;
  }

  lemma HashesStep(h: Sha256, ms: seq<Message>, m: Message)
    ensures Hashes(h, ms + [m]) == Hashes(h, ms) + [TopologyHash(h, m)]
  {
    assert (ms + [m])[..|ms|] == ms;
  }

  /** The state after a message, before it may be the last. */
  function Taken(h: Sha256, dev: Device, st: State, m: Message): Outcome
    requires m.parsed.Some?
  {
    ProcessTopology(dev, st.(hashes := st.hashes + [TopologyHash(h, m)]), m.parsed.value)
  }

  lemma TakenShows(h: Sha256, dev: Device, st: State, m: Message)
    requires GoodDevice(dev) && m.parsed.Some? && Taken(h, dev, st, m).Continue?
    ensures
      var t := Taken(h, dev, st, m).st;
      Sound(dev, m) && t.hashes == st.hashes + [TopologyHash(h, m)] && t.clear == st.clear &&
      (KindOf(m) == NAMESPACE_DELEGATION ==> !st.namespaceDelegation) && (KindOf(m) == PARTY_TO_KEY ==> !st.partyToKey) &&
      (KindOf(m) == PARTY_TO_PARTICIPANT ==> !st.partyToParticipant) &&
      t.namespaceDelegation == (st.namespaceDelegation || KindOf(m) == NAMESPACE_DELEGATION) &&
      t.partyToKey == (st.partyToKey || KindOf(m) == PARTY_TO_KEY) &&
      t.partyToParticipant == (st.partyToParticipant || KindOf(m) == PARTY_TO_PARTICIPANT) &&
      (KindOf(m) != PARTY_TO_PARTICIPANT ==> t.pairs == st.pairs) &&
      (KindOf(m) == PARTY_TO_PARTICIPANT && st.pairs == [] ==> ShowsPair(dev, m, t.pairs))
  {
    hide SoundMapping, ProcessMapping, IsPair, IsNameOf, Shown, GoodDevice, TopologyHash;
    var st1 := st.(hashes := st.hashes + [TopologyHash(h, m)]);
    if m.parsed.value.mapping.Some? {
      var mapping := m.parsed.value.mapping.value;
      MappingTaken(dev, st1, mapping);
      if mapping.PartyToParticipant? && st.pairs == [] {
        var t := ProcessMapping(dev, st1, mapping).st;
        SoundParties(dev, mapping);
        var c, first, second :| 0 <= c < |dev.configs| && IsPair(dev.configs[c], mapping.participants[0], mapping.participants[1]) &&
          IsNameOf(dev.configs[c], mapping.participants[0], first) && IsNameOf(dev.configs[c], mapping.participants[1], second) &&
          t.pairs == st1.pairs + Shown(mapping.party.value, first, second);
        assert [] + Shown(mapping.party.value, first, second) == Shown(mapping.party.value, first, second);
        ShownPairs(mapping.party.value, first, second);
        assert ShowsConfig(dev.configs[c], mapping, first, second, t.pairs);
      }
    }
  }

  lemma ShownPairs(party: Str, first: Str, second: Str)
    ensures
      var pairs := Shown(party, first, second);
      |pairs| == 4 && pairs[0] == Pair(PARTY_FIELD, party) && pairs[1] == Pair(PARTICIPANT_1_FIELD, first) &&
      pairs[2] == Pair(PARTICIPANT_2_FIELD, second) && pairs[3] == Pair(THRESHOLD_FIELD, [50, 32, 111, 117, 116, 32, 111, 102, 32, 50])
  {
  }

  lemma SoundParties(dev: Device, m: Mapping)
    requires SoundMapping(dev, m) && m.PartyToParticipant?
    ensures |m.participants| == 2 && m.party.Some?
  {
  }

  lemma FollowsStep(h: Sha256, dev: Device, ms: seq<Message>, st: State, m: Message)
    requires GoodDevice(dev) && Follows(h, dev, ms, st) && |st.hashes| < MAX_HASHES && m.parsed.Some? && Taken(h, dev, st, m).Continue?
    ensures Follows(h, dev, ms + [m], Taken(h, dev, st, m).st)
  {
    hide GoodDevice, Taken, Count, Hashes, Sound, ShowsPair, KindOf, TopologyHash;
    TakenShows(h, dev, st, m);
    CountStep(ms, m, NAMESPACE_DELEGATION);
    CountStep(ms, m, PARTY_TO_KEY);
    CountStep(ms, m, PARTY_TO_PARTICIPANT);
    HashesStep(h, ms, m);
    var longer, t := ms + [m], Taken(h, dev, st, m).st;
    assert longer[|ms|] == m && forall i :: 0 <= i < |ms| ==> longer[i] == ms[i];
    if st.partyToParticipant {
      var i :| 0 <= i < |ms| && ShowsPair(dev, ms[i], st.pairs);
      assert ShowsPair(dev, longer[i], t.pairs);
    }
  }

  lemma {:induction false} SessionFollows(h: Sha256, dev: Device, ms: seq<Message>)
    requires GoodDevice(dev) && After(h, dev, ms).Continue?
    ensures Follows(h, dev, ms, After(h, dev, ms).st)
    decreases |ms|
  {
    hide GoodDevice, Follows, ProcessTopology, Finish, TopologyHash;
    if |ms| == 0 {
      NothingFollows(h, dev);
    } else {
      var before, m := ms[..|ms| - 1], ms[|ms| - 1];
      SessionFollows(h, dev, before);
      FollowsBounded(h, dev, before, After(h, dev, before).st);
      FinishNeverContinues(h, Taken(h, dev, After(h, dev, before).st, m), m.challengeSigned);
      FollowsStep(h, dev, before, After(h, dev, before).st, m);
      assert ms == before + [m];
    }
  }

  lemma FinishNeverContinues(h: Sha256, o: Outcome, challengeSigned: bool)
    ensures o.Continue? ==> !Finish(h, o.st, challengeSigned).Continue?
  {
    hide MultiHashOf;
  }

  lemma FollowsBounded(h: Sha256, dev: Device, ms: seq<Message>, st: State)
    requires Follows(h, dev, ms, st)
    ensures |st.hashes| == |ms| <= 3
  {
  }

  lemma NothingFollows(h: Sha256, dev: Device)
    ensures After(h, dev, []) == Continue(START) && Follows(h, dev, [], START)
  {
  }

  // ------------------------------------------------------------------ the theorems

  lemma {:induction false} KindsAreFew(ms: seq<Message>)
    ensures Count(ms, NAMESPACE_DELEGATION) + Count(ms, PARTY_TO_KEY) + Count(ms, PARTY_TO_PARTICIPANT) <= |ms|
  {
    hide KindOf;
    if |ms| > 0 {
      KindsAreFew(ms[..|ms| - 1]);
    }
  }

  /** Every message is sound, no kind of mapping comes twice, and there are at most three. */
  ghost predicate Acceptable(dev: Device, ms: seq<Message>)
  {
    |ms| <= 3 && (forall i :: 0 <= i < |ms| ==> Sound(dev, ms[i])) &&
    Count(ms, NAMESPACE_DELEGATION) <= 1 && Count(ms, PARTY_TO_KEY) <= 1 && Count(ms, PARTY_TO_PARTICIPANT) <= 1
  }

  lemma AcceptableStep(dev: Device, ms: seq<Message>, m: Message)
    ensures Acceptable(dev, ms + [m]) <==>
      Acceptable(dev, ms) && |ms| < 3 && Sound(dev, m) && (KindOf(m) != NO_KIND ==> Count(ms, KindOf(m)) == 0)
  {
    hide Count, Sound, KindOf;
    CountStep(ms, m, NAMESPACE_DELEGATION);
    CountStep(ms, m, PARTY_TO_KEY);
    CountStep(ms, m, PARTY_TO_PARTICIPANT);
    var longer := ms + [m];
    assert longer[|ms|] == m && forall i :: 0 <= i < |ms| ==> longer[i] == ms[i];
  }

  /** One message is taken, before it may end the session, exactly when it is sound and not of a kind that came
      before. */
  lemma TakenIff(h: Sha256, dev: Device, ms: seq<Message>, st: State, m: Message)
    requires GoodDevice(dev) && Follows(h, dev, ms, st)
    ensures m.parsed.Some? && Taken(h, dev, st, m).Continue? <==> Sound(dev, m) && (KindOf(m) != NO_KIND ==> Count(ms, KindOf(m)) == 0)
  {
    hide SoundMapping, ProcessMapping, GoodDevice, TopologyHash, Count, ShowsPair, Hashes;
    if m.parsed.Some? && m.parsed.value.mapping.Some? {
      MappingTakenIff(dev, st.(hashes := st.hashes + [TopologyHash(h, m)]), m.parsed.value.mapping.value);
      KnownWhenSound(dev, m.parsed.value.mapping.value);
    }
  }

  lemma KnownWhenSound(dev: Device, m: Mapping)
    ensures SoundMapping(dev, m) ==> !m.UnknownMapping?
  {
  }

  lemma StepContinuesIff(h: Sha256, dev: Device, ms: seq<Message>, st: State, m: Message)
    requires GoodDevice(dev) && Follows(h, dev, ms, st)
    ensures Step(h, dev, st, m).Continue? <==> |ms| < 3 && Sound(dev, m) && (KindOf(m) != NO_KIND ==> Count(ms, KindOf(m)) == 0) && !m.last
  {
    hide GoodDevice, Follows, Finish, TopologyHash, ProcessTopology, Sound, KindOf, Count;
    FollowsBounded(h, dev, ms, st);
    TakenIff(h, dev, ms, st, m);
    if m.parsed.Some? {
      FinishNeverContinues(h, Taken(h, dev, st, m), m.challengeSigned);
    }
  }

  /** A session goes on exactly as long as its messages are acceptable and none of them is the last. */
  lemma {:induction false} ContinuesIff(h: Sha256, dev: Device, ms: seq<Message>)
    requires GoodDevice(dev)
    ensures After(h, dev, ms).Continue? <==> Acceptable(dev, ms) && forall i :: 0 <= i < |ms| ==> !ms[i].last
    decreases |ms|
  {
    hide GoodDevice, Follows, Acceptable, Step, Sound, KindOf, Count;
    if |ms| == 0 {
      NothingIsAcceptable(h, dev);
    } else {
      var before, m := ms[..|ms| - 1], ms[|ms| - 1];
      ContinuesIff(h, dev, before);
      assert ms == before + [m];
      AcceptableStep(dev, before, m);
      if After(h, dev, before).Continue? {
        SessionFollows(h, dev, before);
        StepContinuesIff(h, dev, before, After(h, dev, before).st, m);
      }
    }
  }

  lemma NothingIsAcceptable(h: Sha256, dev: Device)
    ensures Acceptable(dev, []) && After(h, dev, []).Continue?
  {
  }

  /** The session's state when its last message has been taken. */
  lemma EndFollows(h: Sha256, dev: Device, ms: seq<Message>) returns (st: State)
    requires GoodDevice(dev) && Ends(h, dev, ms)
    ensures Follows(h, dev, ms, st) && ms[|ms| - 1].challengeSigned && After(h, dev, ms) == Finish(h, st, true)
  {
    hide GoodDevice, Follows, ProcessTopology, Finish, TopologyHash;
    var before, m := ms[..|ms| - 1], ms[|ms| - 1];
    SessionFollows(h, dev, before);
    FollowsBounded(h, dev, before, After(h, dev, before).st);
    TakenNeverFinishes(h, dev, After(h, dev, before).st, m);
    FollowsStep(h, dev, before, After(h, dev, before).st, m);
    st := Taken(h, dev, After(h, dev, before).st, m).st;
    UnsignedIsRefused(h, st);
    assert ms == before + [m];
  }

  lemma TakenNeverFinishes(h: Sha256, dev: Device, st: State, m: Message)
    ensures m.parsed.Some? ==> !Taken(h, dev, st, m).Finished?
  {
    hide TopologyHash, MatchAny, KeyError;
  }

  lemma UnsignedIsRefused(h: Sha256, st: State)
    ensures Finish(h, st, false).Refused?
  {
  }

  lemma MandatoryFields(dev: Device, m: Message, pairs: seq<Pair>)
    requires ShowsPair(dev, m, pairs)
    ensures |pairs| == 4 && HasItem(pairs, PARTY_FIELD) && HasItem(pairs, PARTICIPANT_1_FIELD)
  {
    hide IsPair, IsNameOf;
    assert pairs[0].item == PARTY_FIELD && pairs[1].item == PARTICIPANT_1_FIELD;
  }

  /** A session that ends signs the multi-hash of its messages. It clear signs if and only if each kind of
      mapping came; then there were exactly three messages, one of each kind, every check of each mapping
      passed, and the four pairs shown name the device's party and one configured validator pair. */
  lemma OnboardingClearsIff(h: Sha256, dev: Device, ms: seq<Message>)
    requires GoodDevice(dev) && Ends(h, dev, ms)
    ensures After(h, dev, ms).st.mHash == MultiHashOf(h, Hashes(h, ms))
    ensures forall i :: 0 <= i < |ms| ==> Sound(dev, ms[i])
    ensures
      var st := After(h, dev, ms).st;
      st.clear <==> Count(ms, NAMESPACE_DELEGATION) > 0 && Count(ms, PARTY_TO_KEY) > 0 && Count(ms, PARTY_TO_PARTICIPANT) > 0
    ensures
      var st := After(h, dev, ms).st;
      st.clear ==> (
        |ms| == 3 && Count(ms, NAMESPACE_DELEGATION) == Count(ms, PARTY_TO_KEY) == Count(ms, PARTY_TO_PARTICIPANT) == 1 &&
        |st.pairs| == 4 && exists i :: 0 <= i < |ms| && ShowsPair(dev, ms[i], st.pairs))
  {
    hide GoodDevice, After, Sound, ShowsPair, MultiHashOf, Count, Hashes, HasItem;
    var st := EndFollows(h, dev, ms);
    KindsAreFew(ms);
    if st.partyToParticipant {
      var i :| 0 <= i < |ms| && ShowsPair(dev, ms[i], st.pairs);
      MandatoryFields(dev, ms[i], st.pairs);
    }
  }

  /** The hash of each message: 0x12, 0x20, and SHA-256 of purpose 11 and the message's bytes. */
  function MessageHashes(h: Sha256, ms: seq<Message>): (hs: seq<seq<Byte>>)
    ensures |hs| == |ms| && forall i :: 0 <= i < |ms| ==> hs[i] == [0x12, 0x20] + h([0, 0, 0, 11] + ms[i].raw)
  {
    seq(|ms|, i requires 0 <= i < |ms| => [0x12, 0x20] + h([0, 0, 0, 11] + ms[i].raw))
  }

  lemma {:induction false} HashesAreOfMessages(h: Sha256, ms: seq<Message>)
    ensures Hashes(h, ms) == MessageHashes(h, ms)
  {
    if |ms| > 0 {
      HashesAreOfMessages(h, ms[..|ms| - 1]);
    }
  }

  /** 0x12, 0x20, and SHA-256 of purpose 55, the number of hashes, and a record of 38 bytes for each of them, in
      ascending byte order. */
  ghost predicate HashesRecords(h: Sha256, mHash: seq<Byte>, p: seq<Byte>, hs: seq<seq<Byte>>)
  {
    |mHash| == 34 && mHash[..2] == [0x12, 0x20] && mHash[2..] == h(p) && |hs| < 256 &&
    |p| == 8 + 38 * |hs| && p[..4] == [0, 0, 0, 55] && p[4..8] == [0, 0, 0, |hs|] &&
    (forall i :: 0 <= i < |hs| ==> p[8 + 38 * i..12 + 38 * i] == [0, 0, 0, 34] && p[12 + 38 * i..46 + 38 * i] == hs[i]) &&
    (forall i, j :: 0 <= i < j < |hs| ==> hs[i] == hs[j] || Precedes(hs[i], hs[j]))
  }

  /** What a finished session signs, byte by byte: the records of the messages' hashes. */
  lemma SignedRecords(h: Sha256, dev: Device, ms: seq<Message>) returns (p: seq<Byte>, hs: seq<seq<Byte>>)
    requires GoodDevice(dev) && Ends(h, dev, ms)
    ensures HashesRecords(h, After(h, dev, ms).st.mHash, p, hs) && multiset(hs) == multiset(MessageHashes(h, ms)) && |ms| <= 3
  {
    hide *;
    EndsFinished(h, dev, ms);
    OnboardingClearsIff(h, dev, ms);
    var st := EndFollows(h, dev, ms);
    FollowsBounded(h, dev, ms, st);
    HashesAreOfMessages(h, ms);
    p, hs := RecordsOf(h, Hashes(h, ms));
  }

  /** The multi-hash of some hashes, by position. */
  lemma RecordsOf(h: Sha256, xs: seq<Hash>) returns (p: seq<Byte>, hs: seq<Hash>)
    requires |xs| < 256
    ensures HashesRecords(h, MultiHashOf(h, xs), p, hs) && multiset(hs) == multiset(xs)
  {
    hide Compare, InOrder, Concat, AllPieces, Precedes, Sorted;
    hs := InOrder(xs);
    InOrderSorts(xs);
    assert |hs| == |multiset(hs)| == |xs|;
    var q := Concat(AllPieces(|xs|, hs));
    p := [0, 0, 0, 55] + q;
    assert q == Preimage(xs);
    PiecesSize(|xs|, hs);
    CountFirst(|xs|, hs);
    SmallWord(|xs|);
    assert p[4..8] == q[..4];
    forall i | 0 <= i < |xs|
      ensures p[8 + 38 * i..12 + 38 * i] == [0, 0, 0, 34] && p[12 + 38 * i..46 + 38 * i] == hs[i]
    {
      RecordBehind(p, q, hs, i);
    }
    SortedPrecedes(hs);
  }

  lemma RecordBehind(p: seq<Byte>, q: seq<Byte>, hs: seq<Hash>, i: nat)
    requires i < |hs| < 256 && q == Concat(AllPieces(|hs|, hs)) && p == [0, 0, 0, 55] + q
    ensures |p| == 8 + 38 * |hs| && p[8 + 38 * i..12 + 38 * i] == [0, 0, 0, 34] && p[12 + 38 * i..46 + 38 * i] == hs[i]
  {
    hide Concat, AllPieces;
    RecordAt(|hs|, hs, i);
    assert p[8 + 38 * i..12 + 38 * i] == q[4 + 38 * i..8 + 38 * i];
    assert p[12 + 38 * i..46 + 38 * i] == q[8 + 38 * i..42 + 38 * i];
  }

  lemma SortedPrecedes(hs: seq<Hash>)
    requires Sorted(hs)
    ensures forall i, j :: 0 <= i < j < |hs| ==> hs[i] == hs[j] || Precedes(hs[i], hs[j])
  {
    hide Compare, Precedes;
    forall i, j | 0 <= i < j < |hs|
      ensures hs[i] == hs[j] || Precedes(hs[i], hs[j])
    {
      CompareIsLexicographic(hs[i], hs[j]);
      CompareIsAntisymmetric(hs[i], hs[j]);
    }
  }

  lemma FinishIff(h: Sha256, st: State, challengeSigned: bool)
    ensures Finish(h, st, challengeSigned).Finished? <==>
      challengeSigned &&
      (st.namespaceDelegation && st.partyToKey && st.partyToParticipant ==> HasItem(st.pairs, PARTY_FIELD) && HasItem(st.pairs, PARTICIPANT_1_FIELD))
  {
    hide MultiHashOf, HasItem;
  }

  lemma PairsAreShown(h: Sha256, dev: Device, ms: seq<Message>, st: State)
    requires Follows(h, dev, ms, st) && st.partyToParticipant
    ensures HasItem(st.pairs, PARTY_FIELD) && HasItem(st.pairs, PARTICIPANT_1_FIELD)
  {
    hide ShowsPair, HasItem, Count, Hashes, Sound;
    var i :| 0 <= i < |ms| && ShowsPair(dev, ms[i], st.pairs);
    MandatoryFields(dev, ms[i], st.pairs);
  }

  lemma StepFinishesIff(h: Sha256, dev: Device, ms: seq<Message>, st: State, m: Message)
    requires GoodDevice(dev) && Follows(h, dev, ms, st)
    ensures Step(h, dev, st, m).Finished? <==>
      |ms| < 3 && Sound(dev, m) && (KindOf(m) != NO_KIND ==> Count(ms, KindOf(m)) == 0) && m.last && m.challengeSigned
  {
    hide GoodDevice, Follows, Finish, TopologyHash, ProcessTopology, Sound, KindOf, Count, HasItem;
    FollowsBounded(h, dev, ms, st);
    TakenIff(h, dev, ms, st, m);
    TakenNeverFinishes(h, dev, st, m);
    if |ms| < 3 && m.parsed.Some? && Taken(h, dev, st, m).Continue? {
      var t := Taken(h, dev, st, m).st;
      FollowsStep(h, dev, ms, st, m);
      FinishIff(h, t, m.challengeSigned);
      if t.partyToParticipant {
        PairsAreShown(h, dev, ms + [m], t);
      }
    }
  }

  /** A session is completed by exactly these messages: at most three, all sound, no kind twice, only the last of
      them sent as the last, and its challenge signed. */
  lemma EndsIff(h: Sha256, dev: Device, ms: seq<Message>)
    requires GoodDevice(dev) && |ms| > 0
    ensures Ends(h, dev, ms) <==>
      Acceptable(dev, ms) && (forall i :: 0 <= i < |ms| - 1 ==> !ms[i].last) && ms[|ms| - 1].last && ms[|ms| - 1].challengeSigned
  {
    hide GoodDevice, Follows, Acceptable, Step, Sound, KindOf, Count;
    var before, m := ms[..|ms| - 1], ms[|ms| - 1];
    ContinuesIff(h, dev, before);
    assert ms == before + [m];
    AcceptableStep(dev, before, m);
    if After(h, dev, before).Continue? {
      SessionFollows(h, dev, before);
      StepFinishesIff(h, dev, before, After(h, dev, before).st, m);
    }
  }

  function Raws(ms: seq<Message>): seq<seq<Byte>>
  {
    if |ms| == 0 then [] else Raws(ms[..|ms| - 1]) + [ms[|ms| - 1].raw]
  }

  /** The messages' bytes determine their hashes, one by one. */
  function HashAll(h: Sha256, raws: seq<seq<Byte>>): (hs: seq<Hash>)
    ensures |hs| == |raws| && forall i :: 0 <= i < |hs| ==> hs[i] == CantonHash(h, PURPOSE_TOPOLOGY_TRANSACTION_SIGNATURE, raws[i])
  {
    seq(|raws|, i requires 0 <= i < |raws| => CantonHash(h, PURPOSE_TOPOLOGY_TRANSACTION_SIGNATURE, raws[i]))
  }

  lemma {:induction false} HashesAreOfRaws(h: Sha256, ms: seq<Message>)
    ensures Hashes(h, ms) == HashAll(h, Raws(ms))
  {
    hide CantonHash;
    if |ms| > 0 {
      HashesAreOfRaws(h, ms[..|ms| - 1]);
    }
  }

  lemma HashAllConcat(h: Sha256, a: seq<seq<Byte>>, b: seq<seq<Byte>>)
    ensures HashAll(h, a + b) == HashAll(h, a) + HashAll(h, b)
  {
    hide CantonHash;
  }

  /** Taking one element out of a list. */
  lemma TakeOut(ys: seq<seq<Byte>>, j: nat)
    requires j < |ys|
    ensures ys == ys[..j] + ([ys[j]] + ys[j + 1..])
    ensures multiset(ys) == multiset(ys[..j] + ys[j + 1..]) + multiset{ys[j]}
  {
    assert ys == ys[..j] + ([ys[j]] + ys[j + 1..]);
  }

  lemma HashOut(h: Sha256, ys: seq<seq<Byte>>, j: nat)
    requires j < |ys|
    ensures multiset(HashAll(h, ys)) ==
      multiset(HashAll(h, ys[..j] + ys[j + 1..])) + multiset{CantonHash(h, PURPOSE_TOPOLOGY_TRANSACTION_SIGNATURE, ys[j])}
  {
    hide CantonHash, HashAll;
    TakeOut(ys, j);
    OneHash(h, ys[j]);
    HashAllConcat(h, ys[..j], [ys[j]] + ys[j + 1..]);
    HashAllConcat(h, [ys[j]], ys[j + 1..]);
    HashAllConcat(h, ys[..j], ys[j + 1..]);
  }

  lemma OneHash(h: Sha256, raw: seq<Byte>)
    ensures HashAll(h, [raw]) == [CantonHash(h, PURPOSE_TOPOLOGY_TRANSACTION_SIGNATURE, raw)]
  {
    hide CantonHash;
  }

  lemma CancelOne(a: multiset<seq<Byte>>, b: multiset<seq<Byte>>, e: seq<Byte>)
    requires a + multiset{e} == b + multiset{e}
    ensures a == b
  {
    assert a == (a + multiset{e}) - multiset{e} && b == (b + multiset{e}) - multiset{e};
  }

  lemma Occurs(xs: seq<seq<Byte>>, ys: seq<seq<Byte>>) returns (j: nat)
    requires multiset(xs) == multiset(ys) && |xs| > 0
    ensures j < |ys| && ys[j] == xs[0]
  {
    assert xs[0] in multiset(ys);
    j :| 0 <= j < |ys| && ys[j] == xs[0];
  }

  lemma SizeOf(xs: seq<seq<Byte>>, ys: seq<seq<Byte>>)
    requires multiset(xs) == multiset(ys)
    ensures |xs| == |ys|
  {
    assert |multiset(xs)| == |xs| && |multiset(ys)| == |ys|;
  }

  lemma {:induction false} HashAllReorders(h: Sha256, xs: seq<seq<Byte>>, ys: seq<seq<Byte>>)
    requires multiset(xs) == multiset(ys)
    ensures multiset(HashAll(h, xs)) == multiset(HashAll(h, ys))
    decreases |xs|
  {
    hide *;
    SizeOf(xs, ys);
    if |xs| > 0 {
      var j := Occurs(xs, ys);
      var xrest, yrest := xs[..0] + xs[1..], ys[..j] + ys[j + 1..];
      TakeOut(xs, 0);
      TakeOut(ys, j);
      CancelOne(multiset(xrest), multiset(yrest), xs[0]);
      HashAllReorders(h, xrest, yrest);
      HashOut(h, xs, 0);
      HashOut(h, ys, j);
    }
  }

  /** Two sessions with the same messages in any order sign the same multi-hash. */
  lemma OrderDoesNotMatter(h: Sha256, dev: Device, ms: seq<Message>, ns: seq<Message>)
    requires GoodDevice(dev) && Ends(h, dev, ms) && Ends(h, dev, ns) && multiset(Raws(ms)) == multiset(Raws(ns))
    ensures After(h, dev, ms).st.mHash == After(h, dev, ns).st.mHash
  {
    hide *;
    EndsFinished(h, dev, ms);
    EndsFinished(h, dev, ns);
    OnboardingClearsIff(h, dev, ms);
    OnboardingClearsIff(h, dev, ns);
    HashesAreOfRaws(h, ms);
    HashesAreOfRaws(h, ns);
    HashAllReorders(h, Raws(ms), Raws(ns));
    MultiHashIsOrderFree(h, Hashes(h, ms), Hashes(h, ns));
  }

  lemma EndsFinished(h: Sha256, dev: Device, ms: seq<Message>)
    requires Ends(h, dev, ms)
    ensures After(h, dev, ms).Finished?
  {
    hide Step;
  }
}
