/** The onboarding session (untyped_versioned_msg.c): up to three topology messages, one of each kind. */
module Onboarding {
  import opened Bytes
  import opened MultiHash

  const MAX_HASHES: nat := 3
  const EXPECTED_PARTICIPANTS_NB: nat := 2
  const ED25519_RAW_KEY_LEN: nat := 32
  const ED25519_DER_KEY_LEN: nat := 44
  const ED25519_DER_PREFIX: seq<Byte> := [0x30, 0x2A, 0x30, 0x05, 0x06, 0x03, 0x2B, 0x65, 0x70, 0x03, 0x21, 0x00]

  datatype Status =
    | SW_TX_PARSING_FAIL
    | SW_CHALLENGE_SIGNATURE_FAIL
    | SW_TOPOLOGY_TOO_MANY_MESSAGES
    | SW_TOPOLOGY_UNSUPPORTED_OPERATION
    | SW_TOPOLOGY_UNKNOWN_MAPPING_TYPE
    | SW_TOPOLOGY_MANDATORY_FIELD_MISSING
    | SW_TOPOLOGY_MISSING_PARTY_KEY
    | SW_TOPOLOGY_PARTY_KEY_WRONG_FORMAT
    | SW_TOPOLOGY_PARTY_KEY_MISMATCH
    | SW_TOPOLOGY_MULTIPLE_NAMESPACE_DELEGATIONS
    | SW_TOPOLOGY_MISSING_TARGET_KEY
    | SW_TOPOLOGY_MULTIPLE_PARTY_TO_KEY_MAPPINGS
    | SW_TOPOLOGY_PARTY_ID_MISMATCH
    | SW_TOPOLOGY_UNEXPECTED_PARTY_TO_KEY_THRESHOLD_VALUE
    | SW_TOPOLOGY_UNEXPECTED_PARTY_TO_KEY_SIGNING_KEYS_COUNT
    | SW_TOPOLOGY_MULTIPLE_PARTY_TO_PARTICIPANTS
    | SW_TOPOLOGY_MISSING_PARTY
    | SW_TOPOLOGY_UNEXPECTED_NUMBER_OF_PARTICIPANTS
    | SW_TOPOLOGY_UNEXPECTED_THRESHOLD_VALUE
    | SW_TOPOLOGY_UNEXPECTED_PARTY_SIGNING_KEYS
    | SW_TOPOLOGY_MISSING_PARTICIPANT_DATA
    | SW_TOPOLOGY_UNEXPECTED_DUPLICATE_PARTICIPANT
    | SW_TOPOLOGY_UNEXPECTED_PARTICIPANT_ID

  datatype KeyFormat = RAW | DER_X509 | OTHER_FORMAT
  datatype Key = Key(bytes: seq<Byte>, format: KeyFormat)

  datatype Mapping =
    | NamespaceDelegation(targetKey: Option<Key>)
    | PartyToKeyMapping(keyParty: Option<Str>, keyThreshold: nat, signingKeys: seq<Key>)
    | PartyToParticipant(party: Option<Str>, threshold: nat, participants: seq<Option<Str>>, hasPartySigningKeys: bool)
    | UnknownMapping

  datatype Topology = Topology(mapping: Option<Mapping>, addReplace: bool)

  /** A complete message: its bytes, what they parse to, whether it is the last, and whether the challenge,
      if there is one, could be signed. */
  datatype Message = Message(raw: seq<Byte>, parsed: Option<Topology>, last: bool, challengeSigned: bool)

  datatype Validator = Validator(id: Str, name: Str)

  /** The derived public key, the party id derived from it, and the configured validator pairs. */
  datatype Device = Device(publicKey: seq<Byte>, partyId: Option<Str>, configs: seq<seq<Validator>>)

  datatype DisplayItem = PARTY_FIELD | PARTICIPANT_1_FIELD | PARTICIPANT_2_FIELD | THRESHOLD_FIELD
  datatype Pair = Pair(item: DisplayItem, value: Str)

  datatype State = State(hashes: seq<Hash>, namespaceDelegation: bool, partyToKey: bool, partyToParticipant: bool, pairs: seq<Pair>, clear: bool,
                         mHash: seq<Byte>)

  datatype Outcome = Continue(st: State) | Finished(st: State) | Refused(sw: Status)

  const START: State := State([], false, false, false, [], false, [])

  /** "2 out of 2". */
  const THRESHOLD_TEXT: Str := [50, 32, 111, 117, 116, 32, 111, 102, 32, 50]

  // ------------------------------------------------------------------ keys and participants

  /** check_party_key_value; None when the key is the device's. */
  function KeyError(dev: Device, key: Key): Option<Status>
  {
    if |key.bytes| == 0 then Some(SW_TOPOLOGY_MISSING_PARTY_KEY)
    else match key.format
      case RAW =>
        if |key.bytes| != ED25519_RAW_KEY_LEN then Some(SW_TOPOLOGY_PARTY_KEY_WRONG_FORMAT)
        else if key.bytes != dev.publicKey then Some(SW_TOPOLOGY_PARTY_KEY_MISMATCH)
        else None
      case DER_X509 =>
        if |key.bytes| != ED25519_DER_KEY_LEN then Some(SW_TOPOLOGY_PARTY_KEY_WRONG_FORMAT)
        else if key.bytes[..12] != ED25519_DER_PREFIX then Some(SW_TOPOLOGY_PARTY_KEY_WRONG_FORMAT)
        else if key.bytes[12..] != dev.publicKey then Some(SW_TOPOLOGY_PARTY_KEY_MISMATCH)
        else None
      case OTHER_FORMAT => Some(SW_TOPOLOGY_PARTY_KEY_WRONG_FORMAT)
  }

  predicate IsDeviceParty(dev: Device, party: Option<Str>) { party.Some? && party == dev.partyId }

  predicate MissingUid(uid: Option<Str>) { uid.None? || |uid.value| == 0 }

  /** The first validator of a pair with this id. */
  function Find(config: seq<Validator>, uid: Option<Str>): (k: Option<nat>)
    ensures k.Some? ==> k.value < |config| && uid == Some(config[k.value].id)
    ensures k.None? ==> forall i :: 0 <= i < |config| ==> uid != Some(config[i].id)
  {
    if |config| == 0 then None
    else if uid == Some(config[0].id) then Some(0)
    else match Find(config[1..], uid) case None => None case Some(i) => Some(i + 1)
  }

  datatype Match = Names(first: Str, second: Str) | NoMatch | Fails(sw: Status)

  /** One configured pair against the two participants. */
  function MatchConfig(config: seq<Validator>, a: Option<Str>, b: Option<Str>): Match
  {
    if |config| != 2 then NoMatch
    else if MissingUid(a) || MissingUid(b) then Fails(SW_TOPOLOGY_MISSING_PARTICIPANT_DATA)
    else
      var i, j := Find(config, a), Find(config, b);
      if i.Some? && i == j then Fails(SW_TOPOLOGY_UNEXPECTED_DUPLICATE_PARTICIPANT)
      else if i.Some? && j.Some? then Names(config[i.value].name, config[j.value].name)
      else NoMatch
  }

  function MatchAny(configs: seq<seq<Validator>>, a: Option<Str>, b: Option<Str>): Match
  {
    if |configs| == 0 then Fails(SW_TOPOLOGY_UNEXPECTED_PARTICIPANT_ID)
    else
      var m := MatchConfig(configs[0], a, b);
      if m.NoMatch? then MatchAny(configs[1..], a, b) else m
  }

  // ------------------------------------------------------------------ one message

  /** The four display pairs of an accepted participant mapping. */
  function Shown(party: Str, first: Str, second: Str): seq<Pair>
  {
    [Pair(PARTY_FIELD, party)] + [Pair(PARTICIPANT_1_FIELD, first)] + [Pair(PARTICIPANT_2_FIELD, second)] + [Pair(THRESHOLD_FIELD, THRESHOLD_TEXT)]
  }

  function TakeParticipants(st: State, party: Str, m: Match): Outcome
  {
    match m
    case Names(first, second) => Continue(st.(partyToParticipant := true, pairs := st.pairs + Shown(party, first, second)))
    case NoMatch => Refused(SW_TOPOLOGY_UNEXPECTED_PARTICIPANT_ID)
    case Fails(sw) => Refused(sw)
  }

  function ProcessMapping(dev: Device, st: State, m: Mapping): Outcome
  {
    match m
    case NamespaceDelegation(key) =>
      if st.namespaceDelegation then Refused(SW_TOPOLOGY_MULTIPLE_NAMESPACE_DELEGATIONS)
      else if key.None? then Refused(SW_TOPOLOGY_MISSING_TARGET_KEY)
      else if KeyError(dev, key.value).Some? then Refused(KeyError(dev, key.value).value)
      else Continue(st.(namespaceDelegation := true))
    case PartyToKeyMapping(party, threshold, keys) =>
      if st.partyToKey then Refused(SW_TOPOLOGY_MULTIPLE_PARTY_TO_KEY_MAPPINGS)
      else if !IsDeviceParty(dev, party) then Refused(SW_TOPOLOGY_PARTY_ID_MISMATCH)
      else if threshold != |keys| then Refused(SW_TOPOLOGY_UNEXPECTED_PARTY_TO_KEY_THRESHOLD_VALUE)
      else if |keys| != 1 then Refused(SW_TOPOLOGY_UNEXPECTED_PARTY_TO_KEY_SIGNING_KEYS_COUNT)
      else if KeyError(dev, keys[0]).Some? then Refused(KeyError(dev, keys[0]).value)
      else Continue(st.(partyToKey := true))
    case PartyToParticipant(party, threshold, participants, hasKeys) =>
      if st.partyToParticipant then Refused(SW_TOPOLOGY_MULTIPLE_PARTY_TO_PARTICIPANTS)
      else if party.None? then Refused(SW_TOPOLOGY_MISSING_PARTY)
      else if !IsDeviceParty(dev, party) then Refused(SW_TOPOLOGY_PARTY_ID_MISMATCH)
      else if |participants| != EXPECTED_PARTICIPANTS_NB then Refused(SW_TOPOLOGY_UNEXPECTED_NUMBER_OF_PARTICIPANTS)
      else if threshold != |participants| then Refused(SW_TOPOLOGY_UNEXPECTED_THRESHOLD_VALUE)
      else if hasKeys then Refused(SW_TOPOLOGY_UNEXPECTED_PARTY_SIGNING_KEYS)
      else TakeParticipants(st, party.value, MatchAny(dev.configs, participants[0], participants[1]))
    case UnknownMapping => Refused(SW_TOPOLOGY_UNKNOWN_MAPPING_TYPE)
  }

  function ProcessTopology(dev: Device, st: State, t: Topology): Outcome
  {
    if t.mapping.None? then Continue(st)
    else if !t.addReplace then Refused(SW_TOPOLOGY_UNSUPPORTED_OPERATION)
    else ProcessMapping(dev, st, t.mapping.value)
  }

  predicate HasItem(pairs: seq<Pair>, item: DisplayItem) { exists i :: 0 <= i < |pairs| && pairs[i].item == item }

  /** The last message: the multi-hash, the challenge, and whether to clear sign. */
  function Finish(h: Sha256, st: State, challengeSigned: bool): Outcome
  {
    var hashed := st.(mHash := MultiHashOf(h, st.hashes));
    if !challengeSigned then Refused(SW_CHALLENGE_SIGNATURE_FAIL)
    else if st.namespaceDelegation && st.partyToKey && st.partyToParticipant then
      if !HasItem(st.pairs, PARTY_FIELD) || !HasItem(st.pairs, PARTICIPANT_1_FIELD) then Refused(SW_TOPOLOGY_MANDATORY_FIELD_MISSING)
      else Finished(hashed.(clear := true))
    else Finished(hashed)
  }

  function TopologyHash(h: Sha256, m: Message): Hash { CantonHash(h, PURPOSE_TOPOLOGY_TRANSACTION_SIGNATURE, m.raw) }

  /** process_untyped_versioned_msg_tx. */
  function Step(h: Sha256, dev: Device, st: State, m: Message): Outcome
  {
    if |st.hashes| >= MAX_HASHES then Refused(SW_TOPOLOGY_TOO_MANY_MESSAGES)
    else if m.parsed.None? then Refused(SW_TX_PARSING_FAIL)
    else
      var o := ProcessTopology(dev, st.(hashes := st.hashes + [TopologyHash(h, m)]), m.parsed.value);
      if o.Continue? && m.last then Finish(h, o.st, m.challengeSigned) else o
  }

  // ------------------------------------------------------------------ the module's state

  class Session {
    const h: Sha256
    const dev: Device
    var txHashes: array<Hash>
    var hashCount: nat
    var hasParsedNamespaceDelegation: bool
    var hasParsedPartyToKeyMapping: bool
    var hasParsedPartyToParticipant: bool
    var pairs: seq<Pair>
    var clear: bool
    var mHash: seq<Byte>

    ghost predicate Valid()
      reads this
    {
      txHashes.Length == 3 && hashCount <= 3 && |pairs| == if hasParsedPartyToParticipant then 4 else 0
    }

    ghost function Model(): State
      requires Valid()
      reads this, txHashes
    {
      State(txHashes[..hashCount], hasParsedNamespaceDelegation, hasParsedPartyToKeyMapping, hasParsedPartyToParticipant, pairs, clear, mHash)
    }

    constructor (h: Sha256, dev: Device)
      ensures Valid() && fresh(txHashes) && Model() == START && this.h == h && this.dev == dev
    {
      this.h, this.dev := h, dev;
      txHashes := new Hash[3](_ => seq(34, _ => 0));
      hashCount := 0;
      hasParsedNamespaceDelegation, hasParsedPartyToKeyMapping, hasParsedPartyToParticipant := false, false, false;
      pairs, clear, mHash := [], false, [];
    }

    /** add_hash. */
    method AddHash(hash: Hash) returns (ok: bool)
      requires Valid()
      modifies `hashCount, txHashes
      ensures Valid() && ok == (old(hashCount) < MAX_HASHES)
      ensures Model() == if ok then old(Model()).(hashes := old(Model()).hashes + [hash]) else old(Model())
    {
      if hashCount >= MAX_HASHES {
        return false;
      }
      txHashes[hashCount] := hash;
      hashCount := hashCount + 1;
      return true;
    }

    /** The two inner loops of process_party_to_participant over one configured pair. */
    static method MatchPair(config: seq<Validator>, uids: seq<Option<Str>>) returns (r: Match)
      requires |uids| == 2
      ensures r == MatchConfig(config, uids[0], uids[1])
    {
      if |config| != 2 {
        return NoMatch;
      }
      var foundValid := 0;
      var matchedValid := [false, false];
      var names: seq<Option<Str>> := [None, None];
      for j := 0 to 2
        invariant |matchedValid| == 2 && |names| == 2
        invariant forall i :: 0 <= i < j ==> !MissingUid(uids[i])
        invariant j == 0 ==> foundValid == 0 && matchedValid == [false, false]
        invariant j > 0 ==> (var i := Find(config, uids[0]);
                             matchedValid == [i == Some(0) || (j > 1 && Find(config, uids[1]) == Some(0)),
                                              i == Some(1) || (j > 1 && Find(config, uids[1]) == Some(1))] &&
                             (i.Some? ==> names[0] == Some(config[i.value].name)))
        invariant j == 1 ==> foundValid == if Find(config, uids[0]).Some? then 1 else 0
        invariant j == 2 ==> foundValid == (if Find(config, uids[0]).Some? then 1 else 0) + (if Find(config, uids[1]).Some? then 1 else 0)
        invariant j == 2 ==> Find(config, uids[0]) != Find(config, uids[1]) || Find(config, uids[0]).None?
        invariant j == 2 && Find(config, uids[1]).Some? ==> names[1] == Some(config[Find(config, uids[1]).value].name)
      {
        if MissingUid(uids[j]) {
          return Fails(SW_TOPOLOGY_MISSING_PARTICIPANT_DATA);
        }
        var k := FindLoop(config, uids[j]);
        if k.Some? {
          if matchedValid[k.value] {
            return Fails(SW_TOPOLOGY_UNEXPECTED_DUPLICATE_PARTICIPANT);
          }
          matchedValid := matchedValid[k.value := true];
          foundValid := foundValid + 1;
          names := names[j := Some(config[k.value].name)];
        }
      }
      if foundValid == 2 {
        return Names(names[0].value, names[1].value);
      }
      return NoMatch;
    }

    static method FindLoop(config: seq<Validator>, uid: Option<Str>) returns (k: Option<nat>)
      ensures k == Find(config, uid)
    {
      assert config[0..] == config;
      for i := 0 to |config|
        invariant Find(config, uid) == match Find(config[i..], uid) { case None => None case Some(n) => Some(n + i) }
      {
        assert config[i..][0] == config[i] && config[i..][1..] == config[i + 1..];
        if uid == Some(config[i].id) {
          return Some(i);
        }
      }
      return None;
    }

    /** The loop over the configured pairs. */
    method MatchParticipants(uids: seq<Option<Str>>) returns (r: Match)
      requires |uids| == 2
      ensures r == MatchAny(dev.configs, uids[0], uids[1])
    {
      hide MatchConfig;
      assert dev.configs[0..] == dev.configs;
      for i := 0 to |dev.configs|
        invariant MatchAny(dev.configs, uids[0], uids[1]) == MatchAny(dev.configs[i..], uids[0], uids[1])
      {
        assert dev.configs[i..][0] == dev.configs[i] && dev.configs[i..][1..] == dev.configs[i + 1..];
        r := MatchPair(dev.configs[i], uids);
        if r != NoMatch {
          return;
        }
      }
      return Fails(SW_TOPOLOGY_UNEXPECTED_PARTICIPANT_ID);
    }

    // ---------------------------------------------------------------- mappings

    /** set_field_value: there is room for four pairs. */
    method SetFieldValue(item: DisplayItem, value: Str)
      requires |pairs| < 4
      modifies `pairs
      ensures pairs == old(pairs) + [Pair(item, value)]
    {
      pairs := pairs + [Pair(item, value)];
    }

    method ProcessNamespaceDelegation(key: Option<Key>) returns (err: Option<Status>)
      requires Valid()
      modifies `hasParsedNamespaceDelegation
      ensures Valid() && Replies(err, ProcessMapping(dev, old(Model()), NamespaceDelegation(key)), Model())
    {
      hide KeyError;
      if hasParsedNamespaceDelegation {
        return Some(SW_TOPOLOGY_MULTIPLE_NAMESPACE_DELEGATIONS);
      }
      err := if key.Some? then KeyError(dev, key.value) else Some(SW_TOPOLOGY_MISSING_TARGET_KEY);
      hasParsedNamespaceDelegation := true;
    }

    method ProcessPartyToKeyMapping(party: Option<Str>, threshold: nat, keys: seq<Key>) returns (err: Option<Status>)
      requires Valid()
      modifies `hasParsedPartyToKeyMapping
      ensures Valid() && Replies(err, ProcessMapping(dev, old(Model()), PartyToKeyMapping(party, threshold, keys)), Model())
    {
      hide KeyError, IsDeviceParty;
      if hasParsedPartyToKeyMapping {
        return Some(SW_TOPOLOGY_MULTIPLE_PARTY_TO_KEY_MAPPINGS);
      }
      if !IsDeviceParty(dev, party) {
        return Some(SW_TOPOLOGY_PARTY_ID_MISMATCH);
      }
      if threshold != |keys| {
        return Some(SW_TOPOLOGY_UNEXPECTED_PARTY_TO_KEY_THRESHOLD_VALUE);
      }
      if |keys| != 1 {
        return Some(SW_TOPOLOGY_UNEXPECTED_PARTY_TO_KEY_SIGNING_KEYS_COUNT);
      }
      err := KeyError(dev, keys[0]);
      if err == None {
        hasParsedPartyToKeyMapping := true;
      }
    }

    method ProcessPartyToParticipant(party: Option<Str>, threshold: nat, participants: seq<Option<Str>>, hasKeys: bool) returns (err: Option<Status>)
      requires Valid()
      modifies `hasParsedPartyToParticipant, `pairs
      ensures Valid() && Replies(err, ProcessMapping(dev, old(Model()), PartyToParticipant(party, threshold, participants, hasKeys)), Model())
    {
      hide IsDeviceParty, MatchAny;
      if hasParsedPartyToParticipant {
        return Some(SW_TOPOLOGY_MULTIPLE_PARTY_TO_PARTICIPANTS);
      }
      if party == None {
        return Some(SW_TOPOLOGY_MISSING_PARTY);
      }
      if !IsDeviceParty(dev, party) {
        return Some(SW_TOPOLOGY_PARTY_ID_MISMATCH);
      }
      if |participants| != EXPECTED_PARTICIPANTS_NB {
        return Some(SW_TOPOLOGY_UNEXPECTED_NUMBER_OF_PARTICIPANTS);
      }
      if threshold != |participants| {
        return Some(SW_TOPOLOGY_UNEXPECTED_THRESHOLD_VALUE);
      }
      if hasKeys {
        return Some(SW_TOPOLOGY_UNEXPECTED_PARTY_SIGNING_KEYS);
      }
      SetFieldValue(PARTY_FIELD, party.value);
      var m := MatchParticipants(participants);
      match m {
        case Fails(sw) =>
          pairs := [];
          return Some(sw);
        case NoMatch =>
          pairs := [];
          return Some(SW_TOPOLOGY_UNEXPECTED_PARTICIPANT_ID);
        case Names(first, second) =>
          SetFieldValue(PARTICIPANT_1_FIELD, first);
          SetFieldValue(PARTICIPANT_2_FIELD, second);
          SetFieldValue(THRESHOLD_FIELD, THRESHOLD_TEXT);
          hasParsedPartyToParticipant := true;
          assert pairs == [] + Shown(party.value, first, second);
          return None;
      }
    }

    method ParseTopology(t: Topology) returns (err: Option<Status>)
      requires Valid()
      modifies `hasParsedNamespaceDelegation, `hasParsedPartyToKeyMapping, `hasParsedPartyToParticipant, `pairs
      ensures Valid() && Replies(err, ProcessTopology(dev, old(Model()), t), Model())
    {
      hide ProcessMapping;
      if t.mapping == None {
        return None;
      }
      if !t.addReplace {
        return Some(SW_TOPOLOGY_UNSUPPORTED_OPERATION);
      }
      match t.mapping.value {
        case NamespaceDelegation(key) => err := ProcessNamespaceDelegation(key);
        case PartyToKeyMapping(party, threshold, keys) => err := ProcessPartyToKeyMapping(party, threshold, keys);
        case PartyToParticipant(party, threshold, participants, hasKeys) =>
          err := ProcessPartyToParticipant(party, threshold, participants, hasKeys);
        case UnknownMapping =>
          UnknownIsRefused(dev, Model());
          err := Some(SW_TOPOLOGY_UNKNOWN_MAPPING_TYPE);
      }
    }

    /** The mandatory fields were shown. */
    method MandatoryFound() returns (b: bool)
      ensures b == (HasItem(pairs, PARTY_FIELD) && HasItem(pairs, PARTICIPANT_1_FIELD))
    {
      var party, participant := false, false;
      for i := 0 to |pairs|
        invariant party == HasItem(pairs[..i], PARTY_FIELD) && participant == HasItem(pairs[..i], PARTICIPANT_1_FIELD)
      {
        assert pairs[..i + 1] == pairs[..i] + [pairs[i]];
        party := party || pairs[i].item == PARTY_FIELD;
        participant := participant || pairs[i].item == PARTICIPANT_1_FIELD;
      }
      assert pairs[..|pairs|] == pairs;
      return party && participant;
    }

    /** The last message. */
    method FinishSession(challengeSigned: bool) returns (err: Option<Status>)
      requires Valid()
      modifies `clear, `mHash, txHashes
      ensures
        var o := Finish(h, old(Model()), challengeSigned);
        if err.Some? then o == Refused(err.value) else o.Finished? && clear == o.st.clear && mHash == o.st.mHash && pairs == o.st.pairs
    {
      hide MultiHashOf, HasItem;
      mHash := ComputeMultiHash(h, txHashes, hashCount);
      if !challengeSigned {
        return Some(SW_CHALLENGE_SIGNATURE_FAIL);
      }
      if hasParsedNamespaceDelegation && hasParsedPartyToKeyMapping && hasParsedPartyToParticipant {
        var found := MandatoryFound();
        if !found {
          return Some(SW_TOPOLOGY_MANDATORY_FIELD_MISSING);
        }
        clear := true;
      }
      return None;
    }

    /** process_untyped_versioned_msg_tx. */
    method ProcessMessage(m: Message) returns (err: Option<Status>)
      requires Valid()
      modifies this, txHashes
      ensures
        var o := Step(h, dev, old(Model()), m);
        if err.Some? then o == Refused(err.value)
        else if m.last then o.Finished? && clear == o.st.clear && mHash == o.st.mHash && pairs == o.st.pairs
        else Valid() && o == Continue(Model())
    {
      hide ProcessTopology, Finish, TopologyHash;
      var ok := AddHash(TopologyHash(h, m));
      if !ok {
        return Some(SW_TOPOLOGY_TOO_MANY_MESSAGES);
      }
      if m.parsed == None {
        return Some(SW_TX_PARSING_FAIL);
      }
      err := ParseTopology(m.parsed.value);
      if err == None && m.last {
        err := FinishSession(m.challengeSigned);
      }
    }
  }

  lemma UnknownIsRefused(dev: Device, st: State)
    ensures ProcessMapping(dev, st, UnknownMapping) == Refused(SW_TOPOLOGY_UNKNOWN_MAPPING_TYPE)
  {
  }

  /** An error code stands for a refusal, none for the next state. */
  predicate ReplyIs(err: Option<Status>, o: Outcome) { if err.Some? then o == Refused(err.value) else o.Continue? }

  predicate Replies(err: Option<Status>, o: Outcome, st: State) { ReplyIs(err, o) && (err.None? ==> o.st == st) }
}
