# Canton signing pipeline: a Dafny model

The Ledger app for Canton receives a transaction in parts, hashes every part as it goes by, and decides
whether the screen it prepared may be trusted. This project models that pipeline and proves what it keeps:

- **Values and nodes** (`Bytes`, `CanonicalValue`, `HashWriter`, `ValueStream`, `ValueParser`,
  `CanonicalNode`, `NodeBinding`, `NodeEncoder`): a streaming encoder with one shared element counter, the
  recursive encoding it should produce, the exact condition under which the two agree, and a decoder that
  inverts the encoding.
- **The node tree** (`NodeTreeCheck`, `TreeVerdict`, `NodeHashStore`, `NodePhase`, `NodeTree`, `NodeMerkle`,
  `RootSpelling`, `ReverseOrder`, `SplitTx`, `NodeParser`): nodes arrive in any order, claim children, look
  their hashes up in a ring of 32 slots and are hashed. Neither the tree check nor the ring alone proves a
  tree; with the arrival count they force one rooted tree and its Merkle hash.
- **The signed hash** (`CanonicalMetadata`, `TreeBinding`, `SignedHash`, `SignedTransaction`): what the hash
  to sign binds, assuming SHA-256 does not collide on the strings that were hashed.
- **The phase machine** (`PreparedTransaction`, `TransactionRuns`, `Refusals`, `ClearSigning`, `ClearedHoldings`,
  `DeferredScreen`, `TransactionProcessor`): which messages a finalized run took, exactly when and with which
  status a message is refused, and exactly when clear signing is left on, as conditions on the messages.
- **The value check** (`HoldingWalk`, `HoldingLookup`, `ValuesCheck`, `ValuesVerdict`): the walk that finds a
  holding in a created contract, and the verdict that compares the holdings with the screen.
- **Display paths** (`DisplayPath`, `CStrings`), **onboarding** (`ByteWriter`, `MultiHash`, `Onboarding`,
  `OnboardingRuns`) and **chunk reassembly** (`SignTx`, and `FinalChunk` with the phase machine behind it).

Modules that keep static state in C are classes here: their fields are that state, and every method is tied
to a function on values. The theorems are about these functions and about whole runs of them.

SHA-256 is any function to 32 bytes (`Bytes.Sha256`). Where a hash is said to bind, the hypothesis
`TreeBinding.NoCollision` covers only the finite set of strings hashed on the way. Protobuf messages are
datatypes in parsed field order; an absent field is `None`, `NoValue` or an empty sequence.

Verify everything with `dafny verify dfyconfig.toml`.

## Where the code and its description differ

- The root is recognised by its spelling in the header and tracked by its number. A run whose root node calls
  itself `00` under a header root `0` passes both checks, and nothing of the node tree enters the signed hash
  (`RootSpelling.MisspelledRootIsAccepted`). `NodeMerkle.MerkleSoundness` states the exact condition.
- `decode_gen_map_entry` counts the entry's value only, so a compound map key is written with the wrong count
  (`ValueStream.CompoundKeyDiverges`). A label, key or constructor longer than 63 bytes is read through a
  64-byte buffer in several calls and written in pieces (`ValueStream.LongNameDiverges`).
  `ValueStream.StreamIsCanonicalIff` is the exact condition.
- The comment at `src/transaction/pb_holding_parser.c:153-158` says that a path too long for the buffer makes
  the holding unreadable. It stops the matching instead: if the look-ups before it resolved, the holding is
  reported (`HoldingLookup.OverflowIsUnreadableIff`; `HoldingLookup.HoldingIsWhatWasLookedUp` is the exact
  condition).
- `doc/TRANSACTION.md:77-81` says that an unexpected node tree falls back to blind signing. A screen deferred to
  a disclosed contract is bound after the tree verdict and is not held to it
  (`DeferredScreen.DeferredScreenSkipsTree`; `ClearSigning.ClearSigningIff` is the exact condition).
- A review at the final chunk need not belong to a finalized transaction: the header and node phases do not
  look at the flag (`FinalChunk.UnfinishedReview`; `FinalChunk.ReviewIsOfFinalizedIff` is the exact condition).
- `push_path` escapes dots but not backslashes, so two field paths can be written alike
  (`DisplayPath.BackslashCollides`; `DisplayPath.PathRoundTrip` is the exact condition).
- A chunk of another signing type is answered with `SW_BAD_STATE` and leaves the session as it was; every other
  refusal ends it (`SignTx.RefusalStopsConfirming`).

## Model

| member | source | states |
|---|---|---|
| Bytes.WordInverse | src/transaction/canonical_hash.c:148-166 | A 32- or 64-bit word read back big-endian is the value modulo its width; a negative integer goes through its unsigned cast. |
| Bytes.TakeBytesInverse | src/transaction/canonical_hash.c:188-191 | A length-prefixed byte string is read back whole, and what follows it is untouched. |
| Bytes.HexInverse | src/transaction/canonical_hash.c:220-243 | A lower-case hex string of even length is recovered from the bytes hashed for it. |
| Bytes.HexPair | src/transaction/canonical_hash.c:220-243 | A pair of hex digits of either case is read as the number it spells. |
| Bytes.HexPairs | src/transaction/canonical_hash.c:226-243 | The bytes of a hex string are its pairs, in order. |
| Bytes.JoinSplit | src/transaction/canonical_hash.c:272-290 | Joining the parts a dotted name is split into gives the name back. |
| Bytes.TakePartsInverse | src/transaction/canonical_hash.c:272-290 | The parts of a dotted name are read back one by one from their length-prefixed encoding. |
| CanonicalValue.DecodeEncode | src/transaction/pb_hashing_parser.c:278-330 | Decode(Encode(v) + rest) is (v, rest) for every value tree in the domain: nested counts, dotted identifiers and hex ids included. |
| CanonicalValue.EncodeIsPrefixFree | src/transaction/pb_hashing_parser.c:684-762 | Two values whose encodings begin alike, whatever follows, are the same value followed by the same bytes. |
| HashWriter.HashErrorInfo.Set | src/transaction/canonical_hash.c:55-68 | The first hash error is the one kept. |
| HashWriter.HashErrorInfo.Clear | src/transaction/canonical_hash.c:43-46 | Clearing forgets the error. |
| HashWriter.Writer.Init | src/transaction/canonical_hash.c:129-131 | A new hash stream is empty; the error state is not touched. |
| HashWriter.Writer.PutBytes | src/transaction/canonical_hash.c:133-137 | Exactly these bytes are appended. |
| Bytes.WordBytes | src/transaction/canonical_hash.c:148-154 | The four shifts and masks of a word are its big-endian bytes, negative values through their unsigned cast. |
| Bytes.DoubleWordBytes | src/transaction/canonical_hash.c:156-166 | The eight shifts and masks of a double word are its big-endian bytes. |
| HashWriter.Writer.PutU32Be | src/transaction/canonical_hash.c:148-154 | The four shifts and masks append the unsigned 32-bit big-endian word, negative values included. |
| HashWriter.Writer.PutU64Be | src/transaction/canonical_hash.c:156-166 | The eight shifts and masks append the unsigned 64-bit big-endian word. |
| HashWriter.Writer.EncodeBytes | src/transaction/canonical_hash.c:188-191 | A length and the bytes are appended. |
| HashWriter.Writer.EncodeString | src/transaction/canonical_hash.c:205-210 | A present string is appended behind its length; an absent one writes nothing and latches MISSING_FIELD. |
| HashWriter.Writer.EncodeHexString | src/transaction/canonical_hash.c:226-243 | Hex digits are appended as bytes behind half their length; an odd length latches INVALID_HASH_STRING and an absent string MISSING_FIELD, and neither writes anything. |
| HashWriter.Writer.CountParts | src/transaction/canonical_hash.c:277-280 | The dot-counting loop counts the parts of a dotted name. |
| HashWriter.Writer.EncodeParts | src/transaction/canonical_hash.c:281-289 | The scan for dots writes each part behind its own length, in order. |
| HashWriter.Writer.SplitDotAndEncode | src/transaction/canonical_hash.c:272-290 | The number of parts and then the parts; an absent name latches MISSING_FIELD and writes nothing. |
| HashWriter.Writer.EncodeIdentifier | src/transaction/canonical_hash.c:292-296 | Package id, module and entity are written in that order, each with its own error. |
| HashWriter.Writer.EncodeRepeated | src/transaction/canonical_hash.c:253-261 | A count and each string behind its length; an absent element writes nothing and latches MISSING_FIELD. |
| HashWriter.FeedRepeatedWrites | src/transaction/canonical_hash.c:253-266 | A repeated field appends its canonical encoding, and latches no error exactly when every element is present. |
| HashWriter.FeedIdentifierWrites | src/transaction/canonical_hash.c:292-296 | An identifier appends its canonical encoding, and latches no error exactly when all three parts are present. |
| ValueStream.StreamIsCanonicalIff | src/transaction/pb_hashing_parser.c:192-272 | Every stale counter and every value tree, except those that leave something out first and carry a name longer than one buffer: decode_value_field appends the canonical encoding if and only if the value is kept, that is, wherever the counter is spent it holds what the value there says, records name their id, and labels, keys and constructors fit the 64-byte buffer. |
| ValueStream.ValueStreams | src/transaction/pb_hashing_parser.c:442-762 | The mutual induction behind it, for every value tree and counter: a kept value appends its canonical bytes, a broken one a byte that differs whatever follows, and with names of one buffer no value appends more than its canonical bytes, a shifted one less; the counter ends where predicted. |
| ValueStream.SimpleStreamIsCanonicalIff | src/transaction/pb_hashing_parser.c:764-800 | When map keys are scalars or enums, only readability matters: records with an id, and short labels, keys and constructors. This covers all values whose names fit one buffer, and all values that leave nothing out, however long their names are. |
| ValueStream.CountedRefines | src/transaction/pb_hashing_parser.c:764-800 | In the stated domain a decode appends exactly Encode(v), whatever value_elem_count held before. |
| ValueStream.CompoundKeyDiverges | src/transaction/pb_hashing_parser.c:567-611 | A map whose first entry has a list, map or record key and a scalar value is never hashed canonically; a record key that does not start with a label needs names of one buffer. |
| ValueStream.LongNameDiverges | src/transaction/pb_hashing_parser.c:332-403 | A name that one buffer does not read whole, because it is too long or holds a NUL, differs from its canonical bytes already in its length, whatever is written after it. |
| ValueStream.BrokenStreamNeverAgrees | src/transaction/pb_hashing_parser.c:192-272 | A broken value cannot be mended: no continuations make its stream and its canonical encoding equal. |
| ValueStream.ValueLatches | src/transaction/pb_hashing_parser.c:684-762 | The error latch stays clear exactly when every identifier in the value is complete, every enum constructor present and every contract id of even length. |
| ValueParser.Parser.CountValue | src/transaction/pb_hashing_parser.c:192-272 | After the pre-pass the shared counter holds the number of elements, fields or presence of the value, or its old content for a scalar. |
| ValueParser.Parser.CountElements | src/transaction/pb_hashing_parser.c:40-139 | One bump per element callback: the counter equals the number of elements. |
| ValueParser.Parser.DecodePrimitiveVariants | src/transaction/pb_hashing_parser.c:278-330 | A scalar member writes its tag and payload; any other member writes nothing here. |
| ValueParser.Parser.DecodeLabel | src/transaction/pb_hashing_parser.c:332-356 | The label callback runs until the field is used up and writes each piece of at most 63 bytes behind its own presence byte and length, cut at its NUL. |
| ValueParser.Parser.DecodeName | src/transaction/pb_hashing_parser.c:358-403 | Constructors and map keys are written in the same pieces, without presence bytes. |
| ValueParser.Parser.DecodeIdentifier | src/transaction/pb_hashing_parser.c:642-665 | A present identifier writes its parts; an absent one runs no callback. |
| ValueParser.Parser.DecodeRecordId | src/transaction/pb_hashing_parser.c:667-682 | The record id is followed by the pending count, which is spent; without an id neither is written. |
| ValueParser.Parser.DecodeEnum | src/transaction/pb_hashing_parser.c:613-640 | An enum writes its optional id and its constructor, an absent constructor latching MISSING_FIELD. |
| ValueParser.Parser.DecodeValueVariant | src/transaction/pb_hashing_parser.c:684-762 | The container members write their tag, spend the counter, and recurse in parsed field order; failure happens only for lack of stack. |
| ValueParser.Parser.DecodeNested | src/transaction/pb_hashing_parser.c:474-531 | List elements and nested values are counted, rewound and decoded. |
| ValueParser.Parser.DecodeValueField | src/transaction/pb_hashing_parser.c:764-800 | The entry from a node: the stream of the value is appended, which is exactly Encode(v) in the stated domain. |
| ValueParser.Parser.DecodeListElems | src/transaction/pb_hashing_parser.c:474-501 | The elements are written in order, each with its own count. |
| ValueParser.Parser.DecodeTextMapEntries | src/transaction/pb_hashing_parser.c:533-565 | The entries are written in order. |
| ValueParser.Parser.DecodeTextMapEntry | src/transaction/pb_hashing_parser.c:533-565 | The entry's value is counted before its key is written. |
| ValueParser.Parser.DecodeGenMapEntries | src/transaction/pb_hashing_parser.c:567-611 | The entries are written in order. |
| ValueParser.Parser.DecodeGenMapEntry | src/transaction/pb_hashing_parser.c:567-611 | Only the entry's value is counted; then the key and the value are decoded with whatever the counter holds. |
| ValueParser.Parser.DecodeRecordFields | src/transaction/pb_hashing_parser.c:442-472 | The fields are written in order. |
| ValueParser.Parser.DecodeRecordField | src/transaction/pb_hashing_parser.c:442-472 | The field's value is counted before its label is written. |
| CanonicalNode.ShellIsCanonical | src/transaction/canonical_hash.c:311-402 | On readable values, the passes over a complete create, exercise, fetch or rollback write its canonical byte string. |
| NodeBinding.NodeBytesBind | src/transaction/canonical_hash.c:311-415 | Two nodes with one byte string are of the same kind, with the same hashed fields, seed and child hashes. |
| NodeBinding.SameKind | src/transaction/canonical_hash.c:311-415 | The byte string alone tells creates, exercises, fetches, rollbacks and unknown nodes apart. |
| NodeBinding.ExerciseBinds | src/transaction/canonical_hash.c:333-382 | Exercise bytes are prefix-free: fields and seed are determined, and so is what follows. |
| NodeEncoder.EncodeOptIdentifier | src/transaction/canonical_hash.c:247-250 | A presence byte, then the identifier when there is one. |
| NodeEncoder.EncodeCreateStart | src/transaction/canonical_hash.c:311-323 | Version head, optional seed, contract id, package name and template, with the errors of absent fields latched in that order. |
| NodeEncoder.EncodeParties | src/transaction/canonical_hash.c:325-331 | Signatories, then stakeholders, each as a counted list. |
| NodeEncoder.EncodeExerciseStart | src/transaction/canonical_hash.c:333-358 | Version head, seed, ids, parties, interface and choice, with their errors latched in order. |
| NodeEncoder.EncodeFetch | src/transaction/canonical_hash.c:384-402 | Version head, ids, parties, interface and acting parties. |
| NodeEncoder.EncodeRepeatedNodeIds | src/transaction/canonical_hash.c:298-309 | A count and the stored hash of each child, up to the first that is not in the store, which latches FAILED_TO_LOAD_NODE_HASH. |
| NodeEncoder.EncodeChildren | src/transaction/canonical_hash.c:367-382 | More than 32 children latch MAX_NODE_CHILDREN_EXCEEDED and write nothing. |
| NodeEncoder.HashTransaction | src/transaction/canonical_hash.c:444-458 | A new transaction hash starts with no error and an empty store, and absorbs purpose, version and root count. |
| NodeEncoder.EncodeSubmitter | src/transaction/canonical_hash.c:422-428 | Acting parties, command id and transaction uuid. |
| NodeEncoder.EncodeTimes | src/transaction/canonical_hash.c:431-440 | Optional ledger times behind presence bytes, then the preparation time. |
| NodeEncoder.HashMetadata | src/transaction/canonical_hash.c:469-476 | The metadata starts a new stream and keeps the error state of the transaction so far. |
| NodeTreeCheck.TreeCheck.SetTreeError | src/transaction/node_tree_check.c:32-37 | Only the first tree error is kept. |
| NodeTreeCheck.TreeCheck.Reset | src/transaction/node_tree_check.c:62-68 | The check is back at its initial state and holds no array. |
| NodeTreeCheck.TreeCheck.InitCheck | src/transaction/node_tree_check.c:70-104 | One root in range and at most 256 nodes, or the matching error; the root starts out claimed and nothing is seen. |
| NodeTreeCheck.TreeCheck.MarkNodeSeen | src/transaction/node_tree_check.c:108-120 | An id in range that has not been seen becomes seen; anything else latches its error and changes no flag. |
| NodeTreeCheck.TreeCheck.ClaimChildren | src/transaction/node_tree_check.c:122-149 | Children are claimed in order up to the first bad one, whose error is latched. |
| NodeTreeCheck.TreeCheck.VerifyComplete | src/transaction/node_tree_check.c:151-180 | The verdict is the latched error or that of the first id whose seen and claimed flags differ, and the array is given back. |
| TreeVerdict.VerdictIsFirstOffence | src/transaction/node_tree_check.c:108-180 | For every sequence of mark and claim calls: if some event offends, the verdict is the offence of the earliest one. |
| TreeVerdict.VerdictIsFirstMismatch | src/transaction/node_tree_check.c:151-180 | If no event offends, the verdict is read off the first id that arrived unclaimed or was claimed and did not arrive. |
| TreeVerdict.TreeOkIff | src/transaction/node_tree_check.c:70-180 | TREE_OK if and only if ids are in range, marks distinct, claims distinct, in range, never the root nor the claimer, and the arrived ids are the claimed ones. |
| TreeVerdict.InitErrorIsVerdict | src/transaction/node_tree_check.c:70-104 | An error of the initialisation is the verdict of every run. |
| TreeVerdict.MissingChildIsDead | src/transaction/node_tree_check.c:151-180 | With exactly nodes_count marks, whatever the claims, TREE_ERR_MISSING_CHILD is never returned. |
| TreeVerdict.TreeCheckAloneAllowsCycles | src/transaction/node_tree_check.c:122-180 | The check alone accepts two nodes that claim each other beside the root. |
| NodeHashStore.RingIsRecentMap | src/transaction/canonical_hash.c:85-123 | From empty slots and any cursor, after any stores under distinct ids, a look-up succeeds exactly for the last 32 ids stored and yields the hash stored for it. |
| NodeHashStore.Store.InitStore | src/transaction/canonical_hash.c:88-93 | Every slot is emptied and the cursor stays where it was. |
| NodeHashStore.Store.SetNodeHash | src/transaction/canonical_hash.c:95-103 | The slot under the cursor is overwritten and the cursor moves on, around the ring. |
| NodeHashStore.Store.GetNodeHash | src/transaction/canonical_hash.c:105-123 | The hash in the first slot that carries the id, or none. |
| NodeTree.CallsDescribeTree | src/transaction/pb_hashing_parser.c:1187-1234 | The tree check after any number of parts is that of their claim and mark calls in order. |
| NodeTree.AcceptedIsOrderly | src/transaction/node_tree_check.c:108-180 | What the tree check alone says about an accepted run: distinct ids in range, every id arrives, every id but the root has exactly one claim. |
| NodeTree.RingIsHistory | src/transaction/canonical_hash.c:95-103 | The ring after any number of parts holds the hashes of the parts so far, without the root. |
| NodeMerkle.AcceptedChildrenFirst | src/transaction/canonical_hash.c:298-309 | In an accepted run every child arrived before the part that claims it, because its hash was found. |
| NodeMerkle.TreeTheorem | src/transaction/node_tree_check.c:108-180 | The claims of an accepted run unfold into one tree under the header's root that contains every announced id exactly once, each create and exercise with the seed of the first header entry for its id; and the root arrives last. |
| NodeMerkle.PartHashesIff | src/transaction/canonical_hash.c:298-309 | A part is hashed without an error if and only if there was none before, its contract id and values are sound, and it has at most 32 children, each with a hash in the ring. |
| NodeMerkle.UnfoldingIsUnique | src/transaction/node_tree_check.c:122-149 | There is only one such tree. |
| NodeMerkle.RootIsLast | src/transaction/pb_hashing_parser.c:1220-1228 | The root of an accepted run is the last part. |
| NodeMerkle.HashIsTreeHash | src/transaction/canonical_hash.c:298-309 | The hash computed for a part is the recursive hash of the tree under it, although its children's hashes came out of 32 slots. |
| NodeMerkle.MerkleSoundness | src/transaction/pb_hashing_parser.c:1187-1234 | What an accepted run adds to the transaction hash is exactly the recursive hash of the tree under the root if some part spells the root as the header does, and nothing otherwise. |
| RootSpelling.MisspelledRootIsAccepted | src/transaction/pb_hashing_parser.c:429 | A run in which the root calls itself 00 is accepted and adds nothing to the transaction hash. |
| ReverseOrder.ReverseTreeIsOk | src/transaction/node_tree_check.c:122-180 | Parts sent from the highest id down, children above parents, always satisfy the tree check. |
| ReverseOrder.ReverseLookup | src/transaction/canonical_hash.c:105-123 | Sent in that order, a child is still in the ring exactly when its id is at most 32 above its parent's. |
| ReverseOrder.ReverseOrderIsAcceptedIff | src/transaction/canonical_hash.c:85-123 | Such a run is accepted if and only if every edge spans at most 32 ids, and then its root is hashed. |
| SplitTx.Split | scripts/split_tx_util.py:79-86 | The placement loop with Python's negative indices: an id outside 0 to 2n - 1 is an IndexError, position j holds the last node numbered n - 1 - j or 2n - 1 - j, and nothing exactly when there is none. |
| SplitTx.SplitSendsInReverse | scripts/split_tx_util.py:79-86 | Nodes numbered 0 to n-1 in any order are all sent, from the highest id down. |
| SplitTx.SplitIsAcceptedIff | scripts/split_tx_util.py:68-88 | What the splitter sends for ascending trees is accepted by the device if and only if every edge spans at most 32 ids. |
| NodeParser.NodeReader.DecodeNodeIdField | src/transaction/pb_hashing_parser.c:406-440 | An id of four bytes or more is refused; otherwise the number is parsed and the root recognised by its spelling. |
| NodeParser.NodeReader.FindSeed | src/transaction/pb_hashing_parser.c:926-947 | The seed of the first entry whose node id is the node's, none exactly when no entry names it or the part carries no id; refused exactly when that entry's seed is not 32 bytes. |
| NodePhase.SeedEntryIsFirst | src/transaction/pb_hashing_parser.c:1010-1027 | For every list and id: the entry found is the first that names the id, and none is found exactly when no entry does. |
| NodePhase.ParsesIff | src/transaction/pb_hashing_parser.c:836-890 | A part parses if and only if its id has at most three bytes, every required field, party and name is there, the first seed entry of a create or exercise is a 32-byte hash if there is one, and an exercise has one. |
| NodeParser.NodeReader.ClaimOnce | src/transaction/pb_hashing_parser.c:1004-1008 | One node claims its children once, however often its parts are decoded. |
| NodeParser.NodeReader.DecodeCreate | src/transaction/pb_hashing_parser.c:892-973 | A complete create is streamed; the only other failure is lack of stack. |
| NodeParser.NodeReader.HashExercise | src/transaction/pb_hashing_parser.c:1035-1071 | Three passes over an exercise append its fields, chosen value, result and child hashes. |
| NodeParser.NodeReader.DecodeExercise | src/transaction/pb_hashing_parser.c:975-1072 | An exercise needs its seed, claims its children, and is streamed with their hashes. |
| NodeParser.NodeReader.DecodeFetch | src/transaction/pb_hashing_parser.c:1074-1101 | A fetch is refused exactly when a mandatory field is absent. |
| NodeParser.NodeReader.DecodeRollback | src/transaction/pb_hashing_parser.c:1103-1134 | A rollback claims its children and writes their hashes. |
| NodeParser.NodeReader.ProtoDeserializeNode | src/transaction/pb_hashing_parser.c:1187-1234 | A part that parses takes the node state, tree check, ring, error and hasher together, exactly one step; a part is refused only when malformed or too deep. |
| NodeParser.NodeReader.ProtoDeserializeInputContract | src/transaction/pb_hashing_parser.c:1236-1274 | A disclosed contract adds its creation time and the hash of its create to the metadata hash and leaves the tree check and the ring alone. |
| NodeParser.PartParsesIff | src/transaction/pb_hashing_parser.c:836-890 | A part parses exactly when its id is short enough, its fields are present and its seed entry is usable. |
| TreeBinding.TreeBinds | src/transaction/pb_hashing_parser.c:1187-1234 | Two trees with one root hash have the same content at every node, unless SHA-256 collides on what was hashed for them. |
| CanonicalMetadata.HeaderWrites | src/transaction/canonical_hash.c:444-458 | The header is hashed canonically, with an error exactly when the version is absent. |
| CanonicalMetadata.MetadataWrites | src/transaction/canonical_hash.c:418-442 | The metadata is hashed canonically when its strings, acting parties included, are present, and latches an error exactly when one is not. |
| CanonicalMetadata.ContractsWrite | src/transaction/pb_hashing_parser.c:1236-1274 | The disclosed contracts append a creation time and a contract hash each, in order. |
| SignedHash.MetadataBinds | src/transaction/canonical_hash.c:418-442 | Metadata bytes are prefix-free: every field is determined, and so is what follows. |
| SignedHash.EntriesBind | src/transaction/pb_hashing_parser.c:1236-1274 | The bytes of the disclosed contracts determine the contracts and their number. |
| SignedHash.FinalHashBinds | src/transaction/canonical_hash.c:486-498 | Equal final hashes mean the same version, root count, node tree content, metadata and disclosed contracts. |
| SignedHash.EntryAt | src/transaction/pb_hashing_parser.c:1236-1274 | Bytes 40 * i to 40 * i + 39 of the disclosed contracts are the creation time of contract i and the hash of its create, hashed without a seed. |
| CanonicalMetadata.FinalLayout | src/transaction/canonical_hash.c:486-498 | The final preimage by position: 69 bytes, the fixed five, the transaction hash, the metadata hash. |
| SignedTransaction.SignedBytes | src/transaction/prepared_transaction.c:238-275 | Every finalized run signs SHA-256 of 69 bytes: 00 00 00 30 02, then the hash of all that the header and the nodes fed, then the hash of all that the metadata and the contracts fed. |
| SignedTransaction.SignedLayout | src/transaction/canonical_hash.c:418-498 | After an accepted tree the signed hash is spelled out field by field: purpose, version, root count and tree hash in the first stage, every metadata field and the contract entries in the second. |
| SignedTransaction.SignedHashIsTransactionHash | src/transaction/prepared_transaction.c:238-275 | What a finalized run with an accepted tree signs is the hash of the transaction its messages carry. |
| SignedTransaction.SignaturesBind | src/transaction/prepared_transaction.c:238-275 | Two such runs that leave one hash to sign carried the same transaction. |
| TransactionRuns.FinalizedRunIsComplete | src/transaction/prepared_transaction.c:75-275 | Every run up to its first finalization took one header, the announced nodes, one metadata message and the announced contracts, in that order, and leaves the hash of the two stages. |
| TransactionRuns.RunHasShape | src/transaction/prepared_transaction.c:75-236 | The invariant of every run: in each phase, which messages were taken and what the hashers hold. |
| ClearSigning.ClearSigningIff | src/transaction/prepared_transaction.c:238-275 | Clear signing is left on if and only if the messages leave a screen and the value predicate holds of it and of everything they report. The screen is that of the first node display that has something to show while no event offends the tree, if the nodes form a tree; or, when that node defers, that of the first contract display that has something to show. |
| ClearSigning.RunIsReviewed | src/transaction/prepared_transaction.c:75-236 | The invariant of every run: the review flags, the bound screen and the reported calls are what the messages so far decide. |
| ClearSigning.NodeDecisionIsFirst | src/transaction/pb_node_display_parser.c:1229-1244 | The nodes decide by the first display that has something to show while the tree is good. |
| ClearSigning.ContractDecisionIsFirst | src/transaction/pb_node_display_parser.c:1246-1260 | The contracts decide by the first display that has something to show. |
| ClearSigning.ClearsUnbound | src/transaction/node_values_check.c:194-272 | Where among the calls a screen was bound makes no difference to the value predicate. |
| ClearSigning.DirectScreenNeedsTree | src/transaction/prepared_transaction.c:54-73 | A clear-signed transaction has a true value verdict, and a tree verdict of TREE_OK unless its nodes deferred the screen. |
| ClearSigning.ShownScreenIsChecked | src/transaction/pb_node_display_parser.c:1040-1125 | The screen a clear-signed transaction shows is one a message populated, and the one its values were compared with. |
| NodeTree.TreeGoodIff | src/transaction/node_tree_check.c:182-184 | The cached tree error is TREE_OK while nodes come in if and only if the header started the check and no event so far offends. |
| NodeTree.WellFormedIff | src/transaction/node_tree_check.c:151-180 | The verdict over all parts is TREE_OK if and only if no event offends and the arrived nodes are the claimed ones. |
| ClearedHoldings.ClearedHoldingsAgree | src/transaction/pb_holding_parser.c:325-431 | Clear signing implies that every created contract is listed or holds nothing, that the look-up of its configured paths found one holding, and that the screen agrees with all the holdings found. |
| DeferredScreen.DeferredScreenSkipsTree | src/transaction/pb_node_display_parser.c:1246-1260 | A transaction with an orphan node, whose screen accepts a transfer and whose root creates the holding, is clear signed when the screen was deferred to a disclosed contract. |
| FinalChunk.LastMessageFinalizesIff | src/transaction/prepared_transaction.c:75-275 | A message sent as the last and not refused finalizes the transaction exactly when the header, the announced nodes, the metadata and the announced contracts were taken. |
| FinalChunk.ReviewIsOfFinalizedIff | src/handler/sign_tx.c:87-112 | For every way of cutting a session into chunks: the first review comes with a message sent as the last, and its transaction is finalized exactly when every announced message was taken. |
| FinalChunk.UnfinishedReview | src/handler/sign_tx.c:87-112 | A node sent as the last that populates a screen is shown as clear signing, without a tree verdict, a value verdict or a new hash. |
| TransactionProcessor.Processor.ReceiveHeader | src/transaction/prepared_transaction.c:79-111 | The header starts the tree check, the hash and the node phase, or is refused. |
| TransactionProcessor.Processor.ReceiveNode | src/transaction/prepared_transaction.c:113-153 | A node is hashed, its values collected, its screen parsed while the tree is good, and the phase moves on after the last. |
| TransactionProcessor.Processor.ApplyNodeTreeVerdict | src/transaction/prepared_transaction.c:54-73 | An impossible tree is refused, an unexpected one only loses clear signing. |
| TransactionProcessor.Processor.ReceiveMetadata | src/transaction/prepared_transaction.c:154-199 | The tree verdict is read once, the node hash finished, the metadata hashed, and without contracts the transaction finalized. |
| TransactionProcessor.Processor.ReceiveContract | src/transaction/prepared_transaction.c:200-229 | A disclosed contract is hashed, checked against the used ones, shown if a screen waits for it, and the last one finalizes. |
| TransactionProcessor.Processor.Finish | src/transaction/prepared_transaction.c:238-275 | Finalization needs the last message, asks the value verdict only while a clear screen is at stake, and leaves the final hash. |
| TransactionProcessor.Processor.Abort | src/transaction/prepared_transaction.c:46-50 | A refusal resets both checks. |
| TransactionProcessor.Processor.ShowMessage | src/transaction/pb_node_display_parser.c:1040-1216 | What a display parse does to the flags and which screen reaches the value check. |
| TransactionProcessor.Processor.RecordUses | src/transaction/pb_hashing_parser.c:892-1101 | The contract of a create, exercise or fetch is recorded, a rollback records none. |
| TransactionProcessor.Processor.ProcessPreparedTxPart | src/transaction/prepared_transaction.c:75-236 | One message does to all module state exactly one step of the phase machine; only a full stack can refuse what the machine takes. |
| ValuesCheck.ValuesStore.GiveUpNow | src/transaction/node_values_check.c:56-63 | Giving up switches ok off and keeps everything else. |
| ValuesCheck.ValuesStore.ReleaseUsedContracts | src/transaction/node_values_check.c:71-77 | The used-contract list is given back. |
| ValuesCheck.ValuesStore.Reset | src/transaction/node_values_check.c:79-83 | A fresh store: nothing reported, nothing bound, ok. |
| ValuesCheck.ValuesStore.RecordUsedContract | src/transaction/node_values_check.c:94-118 | A new contract digest is added once; a 33rd one, or a failed first allocation, gives up. |
| ValuesCheck.ValuesStore.CheckDisclosedContract | src/transaction/node_values_check.c:122-136 | A disclosed contract that no node used gives up. |
| ValuesCheck.ValuesStore.ReportHolding | src/transaction/node_values_check.c:146-176 | A holding is added up to four; a fifth, or a second instrument, gives up. |
| ValuesCheck.ValuesStore.FindShown | src/transaction/node_values_check.c:194-244 | For each kind the value found is that of the last field with a value shown as that kind, and none exactly when there is no such field; the destination is the receiver or the sender as the configuration says, the amount only when it is comparable. |
| ValuesCheck.ValuesStore.BindFromDisplay | src/transaction/node_values_check.c:194-272 | Afterwards the destination is the digest of the last receiver shown, of the last sender shown, or none, as the configuration says, and sender, amount, issuer and instrument are the digests of the last field of their kind; nothing of an earlier screen is left. |
| ValuesCheck.ScreenMeaning | src/transaction/node_values_check.c:194-272 | For every list of fields: what a screen binds, stated by positions in the list. |
| ValuesCheck.ValuesStore.IsTransferToSelf | src/transaction/node_values_check.c:288-291 | True for a receiver screen whose sender and destination are one account. |
| ValuesCheck.ValuesStore.ScanHoldings | src/transaction/node_values_check.c:293-341 | One pass tells whether all owners are known, how many holdings the destination has, and whether one carries the amount. |
| ValuesCheck.ValuesStore.DestinationHoldsValue | src/transaction/node_values_check.c:293-341 | The verdict on owners, counts and amount, giving up when it fails. |
| ValuesCheck.ValuesStore.HoldingsMatchDisplayedInstrument | src/transaction/node_values_check.c:346-354 | Every holding has the displayed issuer, or the check gives up. |
| ValuesCheck.ValuesStore.HoldingsMatchDisplayedId | src/transaction/node_values_check.c:361-372 | A reported instrument is the displayed one, or the check gives up. |
| ValuesCheck.ValuesStore.CanClearSign | src/transaction/node_values_check.c:374-415 | The returned verdict, and that a disagreement is remembered as a failure. |
| ValuesVerdict.VerdictIsSpecification | src/transaction/node_values_check.c:374-415 | Over every run of calls since a reset, the verdict is true if and only if a declarative predicate holds of the holdings reported, the contracts used and disclosed, and the last screen. |
| ValuesVerdict.HoldingsReorder | src/transaction/node_values_check.c:146-176 | The order in which holdings are reported never changes the verdict. |
| ValuesVerdict.FailureIsPermanent | src/transaction/node_values_check.c:56-63 | After a failure or a disagreement no later call makes the verdict true. |
| HoldingWalk.Walker.PathPush | src/transaction/pb_holding_parser.c:150-164 | A label that fits extends the path after a dot; one that does not leaves the path and stops the matching. |
| CStrings.CutAt | src/transaction/pb_holding_parser.c:282 | Writing a terminator leaves the string cut at that length. |
| CStrings.StrLen | src/transaction/pb_holding_parser.c:150-151 | The length of the string in the buffer. |
| TransactionProcessor.Processor.CollectFromNode | src/transaction/pb_holding_parser.c:413-431 | A node that creates a listed holding template is walked; an unlisted template, or a walk that does not fit on the stack, gives up. |
| HoldingWalk.Walker.DecodeLabel | src/transaction/pb_holding_parser.c:227-256 | Over-long and NUL-bearing labels mark the holding unreadable; others are pushed. |
| HoldingWalk.Walker.FindHoldingField | src/transaction/pb_holding_parser.c:179-219 | A party or number under a configured path, or a text under the instrument path, is digested; a second match makes the holding unreadable. |
| HoldingWalk.Walker.DecodeRecordField | src/transaction/pb_holding_parser.c:258-285 | The field is looked up under its own path, and afterwards the path buffer is what it was before. |
| HoldingWalk.Walker.DecodeValue | src/transaction/pb_holding_parser.c:289-308 | Only records are descended, six deep, and the path and depth are restored. |
| HoldingWalk.Walker.CollectHolding | src/transaction/pb_holding_parser.c:325-388 | The second pass over a create reports the holding of the walk, or that it is unreadable. |
| HoldingLookup.WalkIsLooks | src/transaction/pb_holding_parser.c:258-308 | On well-labelled arguments of any size the recursive walk is a flat list of look-ups under full paths, up to the first path that does not fit the buffer. |
| HoldingLookup.HoldingIsWhatWasLookedUp | src/transaction/pb_holding_parser.c:150-158 | For every argument whose labels are present, short and free of NULs, with or without dots in them, whatever overflows and wherever: a holding is reported if and only if each configured path has exactly one match among the look-ups before the first overflow, and it carries those matches' digests. |
| HoldingLookup.BadLabelGivesUp | src/transaction/pb_holding_parser.c:227-280 | A visited field with a label that is over-long or holds a NUL makes the holding unreadable, whatever else was found or overflowed; so does one without a label, as long as every path fits the buffer. |
| HoldingLookup.LooksAre | src/transaction/pb_holding_parser.c:150-219 | The values looked up under a dotted path are exactly those its labels lead to, in order. |
| HoldingLookup.HoldingIsLookup | src/transaction/pb_holding_parser.c:357-388 | A holding is reported if and only if each configured path leads to exactly one leaf of its kind, and it carries those leaves' digests. |
| HoldingLookup.OverflowIsUnreadableIff | src/transaction/pb_holding_parser.c:150-158 | Fields that fit, then fields whose first look-up does not, at any depth: the holding is unreadable if and only if the first ones do not resolve, and otherwise it is theirs. |
| DisplayPath.PathRoundTrip | src/transaction/pb_node_display_parser.c:668-699 | Splitting a written path at unescaped dots and unescaping gives its segments back if and only if none but the last ends in a backslash. |
| DisplayPath.BackslashCollides | src/transaction/pb_node_display_parser.c:668-699 | Two different segment lists that are written alike. |
| DisplayPath.PushesRender | src/transaction/pb_node_display_parser.c:668-699 | Nested pushes write exactly the escaped path while it fits the 128-byte buffer. |
| DisplayPath.PushedPathReadsBack | src/transaction/pb_node_display_parser.c:668-699 | For segments without backslashes, what the buffer holds reads back as the labels and keys pushed. |
| DisplayPath.FieldPath.CountEscaped | src/transaction/pb_node_display_parser.c:675-682 | The counting loop counts exactly the bytes the writing loop writes. |
| DisplayPath.FieldPath.WriteEscaped | src/transaction/pb_node_display_parser.c:693-698 | Each dot is written behind a backslash, then the terminator, and nothing before is touched. |
| DisplayPath.FieldPath.PushPath | src/transaction/pb_node_display_parser.c:668-699 | A segment that fits extends the path; one that does not leaves it and marks the node unreadable. |
| DisplayPath.FieldPath.ReadPathSegment | src/transaction/pb_node_display_parser.c:712-737 | Empty, over-long and NUL-bearing segments mark the node unreadable and push nothing. |
| DisplayPath.FieldPath.PushAndCut | src/transaction/pb_node_display_parser.c:808-833 | A push and the cut after it leave the path as it was. |
| DisplayPath.TrimKeepsAmount | src/transaction/pb_node_display_parser.c:76-107 | Trimming does not change the number an amount denotes, and leaves no trailing zero after the dot and no dot at the end. |
| DisplayPath.FormatAmount | src/transaction/pb_node_display_parser.c:76-107 | The trimming in place, terminator included. |
| ByteWriter.Writer.Put | src/bytewriter.c:28-38 | Bytes that fit are appended; bytes that do not set the flag, after which nothing is written. |
| ByteWriter.Writer.PutU32Be | src/bytewriter.c:45-51 | The same for the four shifted bytes of a big-endian word. |
| ByteWriter.Writer.Size | src/bytewriter.c:22-26 | The number of bytes written. |
| ByteWriter.AllOrOverflow | src/bytewriter.c:28-38 | For every list of pieces: the flag is set exactly when they exceed the capacity together, and otherwise the buffer holds them all in order. |
| MultiHash.HexOrderIsByteOrder | src/transaction/untyped_versioned_msg.c:180-190 | Comparing hex spellings is comparing bytes. |
| MultiHash.SortedIsUnique | src/transaction/untyped_versioned_msg.c:180-190 | A collection of hashes has one sorted arrangement. |
| MultiHash.SortHashes | src/transaction/untyped_versioned_msg.c:256-257 | The stored hashes end up in order, in place. |
| MultiHash.BufferIsFilled | src/transaction/untyped_versioned_msg.c:248-271 | The writer fills the buffer of 4 + 38 * n bytes exactly and never overflows. |
| MultiHash.MultiHashIsOrderFree | src/transaction/untyped_versioned_msg.c:248-271 | Any permutation of the topology hashes gives the same multi-hash. |
| MultiHash.ComputeMultiHash | src/transaction/untyped_versioned_msg.c:248-271 | The method returns the multi-hash of the stored hashes, using the whole buffer. |
| Onboarding.Session.AddHash | src/transaction/untyped_versioned_msg.c:166-178 | A hash is stored up to three; a fourth is refused. |
| Onboarding.Session.MatchPair | src/transaction/untyped_versioned_msg.c:595-619 | The nested matching loops: both participants found at different positions of a configured pair, an absent one, a duplicate, or no match. |
| Onboarding.Session.MatchParticipants | src/transaction/untyped_versioned_msg.c:588-629 | The first configured pair that matches or fails decides. |
| Onboarding.Session.ProcessNamespaceDelegation | src/transaction/untyped_versioned_msg.c:464-488 | One delegation per session, whose key is the device's. |
| Onboarding.Session.ProcessPartyToKeyMapping | src/transaction/untyped_versioned_msg.c:491-532 | One key mapping per session, for the device's party, with one key that is the device's. |
| Onboarding.Session.ProcessPartyToParticipant | src/transaction/untyped_versioned_msg.c:535-660 | One participant mapping per session, for the device's party, with two known participants and a threshold of two; four pairs are shown. |
| Onboarding.Session.ParseTopology | src/transaction/untyped_versioned_msg.c:662-712 | Only add-or-replace operations are taken; unknown mappings are refused. |
| Onboarding.Session.ProcessMessage | src/transaction/untyped_versioned_msg.c:321-368 | One message does exactly one step of the session, and the last one finishes it. |
| OnboardingRuns.ParticipantsMatchIff | src/transaction/untyped_versioned_msg.c:535-660 | Two participants are accepted if and only if they are a permutation of one configured validator pair, and are shown under the names configured for them. |
| OnboardingRuns.KeyErrorMeaning | src/transaction/untyped_versioned_msg.c:403-441 | A key passes exactly when it is the device's public key, raw or behind the DER prefix. |
| OnboardingRuns.OnboardingClearsIff | src/transaction/untyped_versioned_msg.c:321-368 | A finished session clear signs if and only if each mapping kind came; then it had exactly three messages, one of each kind, all checks passed, and four pairs are shown. |
| MultiHash.CompareIsLexicographic | src/transaction/untyped_versioned_msg.c:180-190 | For hashes of one length the comparison is by the first byte in which they differ. |
| MultiHash.RecordAt | src/transaction/untyped_versioned_msg.c:248-271 | Record i of the buffer is the length 34 and hash i, behind a four-byte count. |
| OnboardingRuns.SignedRecords | src/transaction/untyped_versioned_msg.c:248-271 | A finished session signs 12 20 and SHA-256 of 00 00 00 37, the number of messages, and for each message a record of 00 00 00 22 and 34 bytes; these are, in ascending byte order, 12 20 and SHA-256 of 00 00 00 0B and the bytes of one message each. |
| OnboardingRuns.ContinuesIff | src/transaction/untyped_versioned_msg.c:321-337 | A session goes on if and only if it has at most three messages, each one sound, no kind of mapping twice, and none sent as the last. |
| OnboardingRuns.EndsIff | src/transaction/untyped_versioned_msg.c:321-368 | A session is completed if and only if its messages are such and only the last one is sent as the last, with its challenge signed. |
| OnboardingRuns.MappingTakenIff | src/transaction/untyped_versioned_msg.c:464-660 | A mapping is taken if and only if its checks pass and it is the first of its kind in the session. |
| OnboardingRuns.RefusalIsTrue | src/transaction/untyped_versioned_msg.c:403-660 | Whatever status a mapping is refused with is true of it: the key, party, threshold, count or participant it names is indeed wrong. |
| OnboardingRuns.OrderDoesNotMatter | src/transaction/untyped_versioned_msg.c:248-271 | Two sessions with the same messages in any order sign the same multi-hash. |
| SignTx.Handler.Append | src/handler/sign_tx.c:162-173 | A chunk is appended behind what is buffered. |
| SignTx.Handler.ProcessTxChunk | src/handler/sign_tx.c:120-195 | First chunks start a session, later ones need one and must fit, and the flags decide whether a message or the transaction is complete. |
| SignTx.Handler.Refuse | src/handler/sign_tx.c:53-57 | A refusal forgets the session. |
| SignTx.Handler.HandlerSignTx | src/handler/sign_tx.c:59-118 | One command: the reply, the message handed to processing, and the new session state. |
| SignTx.BufferIsBounded | src/handler/sign_tx.c:120-195 | Over every run the buffer never holds more than its capacity, and no longer message is processed. |
| SignTx.RefusalStopsConfirming | src/handler/sign_tx.c:59-118 | Every refusal ends the session, except that of a chunk of another signing type, which changes nothing. |
| SignTx.RefusedUntilFirst | src/handler/sign_tx.c:53-118 | After a refusal every chunk is refused and nothing processed until a new first chunk. |
| SignTx.MessageIsContiguous | src/handler/sign_tx.c:120-195 | Every run of chunks, well-formed or not: each processed message is what its session gathered since the last boundary, followed by the chunk that ends it. |
| SignTx.SinceIsContiguous | src/handler/sign_tx.c:162-181 | What is gathered are exactly the payloads of the session's own chunks behind the last first chunk or message end. |
| SignTx.MessageIsReassembled | src/handler/sign_tx.c:120-195 | A message is handed to processing as the concatenation of its chunks, however it was cut. |
| SignTx.LongMessageIsRefused | src/handler/sign_tx.c:162-164 | A message that does not fit is refused at the chunk that exceeds the buffer, and never processed. |
| SignTx.TransactionIsReassembled | src/handler/sign_tx.c:59-195 | All messages of a transaction are processed whole and in order. |
| SignTx.ChunkingDoesNotMatter | src/handler/sign_tx.c:59-195 | Two ways of cutting the same messages are processed alike. |
| MultiHash.InOrderSorts | src/transaction/untyped_versioned_msg.c:256-257 | The order the hashes are put in is sorted and keeps every hash. |
| NodeEncoder.EncodeHead | src/transaction/canonical_hash.c:316-318 | Encoding version, lf_version and node tag. |
| NodeEncoder.EncodeIds | src/transaction/canonical_hash.c:320-322 | Contract id, package name and template, each with its own error. |
| Onboarding.Session.SetFieldValue | src/transaction/untyped_versioned_msg.c:371-401 | The pair is added behind those shown so far. |
| Onboarding.Session.FindLoop | src/transaction/untyped_versioned_msg.c:602-617 | The first validator of the pair with the participant's id. |
| Onboarding.Session.MandatoryFound | src/transaction/untyped_versioned_msg.c:350-359 | Whether the mandatory fields were shown. |
| Onboarding.Session.FinishSession | src/transaction/untyped_versioned_msg.c:339-366 | The last message leaves the multi-hash, needs the challenge signed, and turns clear signing on only when all three mappings came. |
| ValuesCheck.ValuesStore.IsUsed | src/transaction/node_values_check.c:94-136 | The linear search finds exactly the digests in the list. |
| HoldingWalk.Walker.PathIs | src/transaction/pb_holding_parser.c:166-168 | The buffer spells exactly the configured path. |
| HoldingWalk.Walker.Close | src/transaction/pb_holding_parser.c:371-384 | A holding needs owner, amount, issuer and, when configured, the instrument, and nothing unreadable. |
| ValueStream.SimpleKeysIff | src/transaction/pb_hashing_parser.c:192-272 | With scalar or enum map keys the counter always is the value's own. |
| ValuesVerdict.UsedListIs | src/transaction/node_values_check.c:85-118 | While the check has not given up, the used list holds, each once, the first eight bytes of the hash of exactly the contracts that calls recorded. |
| ValuesVerdict.DisclosedPassesIff | src/transaction/node_values_check.c:122-136 | A disclosed contract passes if and only if a recorded contract has its eight bytes. |
| ClearedHoldings.NodesActOn | src/transaction/prepared_transaction.c:134-136 | Over any number of nodes, the contracts recorded are exactly those that some node creates, exercises or fetches. |
| ClearedHoldings.ClearedContractsWereUsed | src/transaction/node_values_check.c:120-136 | Clear signing implies that every disclosed contract with an id is one that some node created, exercised or fetched, up to the eight bytes that are compared. |
| ClearedHoldings.ClearedHoldingsInOrder | src/transaction/node_values_check.c:142-179 | Clear signing implies that the holdings compared with the screen are exactly those of the creates that keep one, one for each and in their order. |
| TreeVerdict.StartsIff | src/transaction/node_tree_check.c:70-104 | The check starts if and only if there are 0 to 256 nodes, one root whose id is in range, and memory; the root is then the one the header spells. |
| TreeVerdict.ImpossibleIff | src/transaction/node_tree_check.c:186-198 | The verdict is impossible if and only if the count, the roots and the memory are as they should be, and the root is out of range or some event offends. |
| NodeTreeCheck.IdsAreDecimal | src/transaction/node_tree_check.c:42-56 | One to three digits are read as the decimal number they spell; anything else is -1 for the tree check, and 0 for the parser when it is not a string of digits. |
| Refusals.MetadataRefusedIff | src/transaction/prepared_transaction.c:54-73 | In any run the metadata message is refused with SW_TX_INVALID_NODE_TREE if and only if there are 0 to 256 nodes, one root, the array was allocated, and the root id is out of range or some event offends; several roots, too many nodes, no memory, an orphan and a missing child never refuse it. The other statuses are decided by its presence, its strings, and whether it had to be the last. |
| Refusals.NodeRefusedIff | src/transaction/prepared_transaction.c:112-153 | In any run a node is refused with SW_TX_HASH_FAIL if and only if it parses and a field is unsound or a child has no hash in the ring, and with SW_TX_PARSING_FAIL if and only if it does not parse, or it is hashed, its turn to be shown has come and its display cannot be read. |
| Refusals.ContractRefusedIff | src/transaction/prepared_transaction.c:199-229 | In any run a disclosed contract is refused with SW_TX_HASH_FAIL if and only if it parses and a field is unsound, with SW_TX_PARSING_FAIL if and only if it does not parse or the screen deferred to it cannot be read, and with SW_BAD_STATE if and only if it completes the transaction without being sent as the last. |
| Refusals.HeaderRefusedIff | src/transaction/prepared_transaction.c:79-109 | The header is refused if and only if it cannot be read or its version is absent. |
| CanonicalNode.ShellLatches | src/transaction/canonical_hash.c:311-402 | Hashing a complete node latches an error if and only if its contract id is not hex pairs or a value in it is unsound; an error from before stays. |
| NodeBinding.CreateLayout | src/transaction/canonical_hash.c:311-331 | What is hashed for a create on readable values, byte for byte in field order. |
| NodeBinding.ExerciseLayout | src/transaction/canonical_hash.c:333-382 | What is hashed for an exercise on readable values, byte for byte in field order, up to the hashes of its children. |
| NodeBinding.FetchLayout | src/transaction/canonical_hash.c:384-402 | What is hashed for a fetch, byte for byte in field order; it has no seed. |
| NodeBinding.RollbackLayout | src/transaction/canonical_hash.c:404-416 | What is hashed for a rollback: version, tag, the number of children and their hashes. |
| SignTx.ConfirmingIff | src/handler/sign_tx.c:53-157 | The device is in a session if and only if some first chunk with a good path began it, no other first chunk came since, and none of its chunks was refused. |
| SignTx.EveryReply | src/handler/sign_tx.c:59-195 | Every chunk of every run: the reply and the message handed on follow from its flags, from whether its session is on, and from what was gathered since the last boundary, without reference to the state. |
| FinalChunk.CompletedMessage | src/handler/sign_tx.c:162-188 | A chunk hands on a message exactly when it ends one in its session and fits, namely what was gathered and its payload; it counts as the last exactly when the chunk announces no more. |

## Left out

- NodeBinding.NodeBytesBind: needs lf_version shorter than 2^24 bytes, lower-case hex contract ids and identifiers present; only there do the bytes tell the node kinds apart.
- SignedHash.FinalHashBinds: on the domain where values are readable and map keys simple; outside it the streamed bytes are not the canonical ones.
- ValueStream.StreamIsCanonicalIff: not for trees in which something is left out first (a record's id, an empty name) and a later name is longer than 63 bytes; the pieces of the long name make up for missing bytes, so lengths no longer decide.
- ValueStream.SimpleStreamIsCanonicalIff: not for such trees either.
- ValueStream.CompoundKeyDiverges: a record key without a label in front is covered only among names of at most 63 bytes.
- ValueParser.Parser.DecodeValueField: says nothing about the stream after a level that does not fit on the stack; the transaction is refused then. The depth at which that happens is not part of this model.
- NodeParser.NodeReader.ProtoDeserializeNode: says nothing about the new state when the part is refused; the caller aborts the transaction.
- TransactionProcessor.Processor.ProcessPreparedTxPart: after a refusal only the reply and the validity of the modules are stated.
- Onboarding.Session.ProcessMessage: after an error, or after the last message, the session's further state is not described.
- HoldingLookup.HoldingIsWhatWasLookedUp: on labels that are present, short and free of NULs, and on distinct configured paths; `HoldingLookup.BadLabelGivesUp` covers the other labels, except an absent one in an argument in which some path overflows, where only the walk itself (`HoldingWalk.WalkField`) says what happens.
- HoldingLookup.HoldingIsLookup: besides, when no label has a dot in it and every path fits the buffer.
- SignedTransaction.SignedLayout: names the tree hash and the contract entries by `NodeMerkle.TreeHash` and `CanonicalMetadata.EntriesBytes`; the layouts of `NodeBinding` and `SignedHash.EntryAt` say what these hash.
- NodeBinding.CreateLayout: on readable values, as the streamed bytes of others are not canonical.
- NodeBinding.ExerciseLayout: likewise.
- Refusals.NodeRefusedIff: for parts whose values fit on the stack.
- Refusals.ContractRefusedIff: likewise.
- SignTx.MessageIsReassembled: for a well-formed run of chunks; `SignTx.MessageIsContiguous` covers every run.
- SignTx.TransactionIsReassembled: for messages that processing accepts and that fit the buffer; `SignTx.LongMessageIsRefused` and `SignTx.MessageIsContiguous` cover the others.
- SignTx.ChunkingDoesNotMatter: for such messages as well.
- SignTx.EveryReply: whether a message is accepted, and whether a first chunk's path is good, are parameters of each chunk.
- FinalChunk.ReviewIsOfFinalizedIff: up to the first review of a session.
- Protobuf wire decoding, field-order permutations, repeated oneof members, and the label-order checks that only such input can trip (`records_opened`, `values_opened`).
- A label, key or constructor sent explicitly as empty is modelled like an omitted one.
- Null elements inside the lists of child ids, which the presence checks refuse: a child id is always a string here.
- Heap ownership and pb_release; a failed allocation appears only where the code goes on without the memory (the node array, the used-contract list).
- Key derivation, the challenge and its deadline, attestation and the Ed25519 signature itself: whether a challenge could be signed is a parameter.
- Display configuration tables, screen selection, deferred matching, tickers and timestamps: what a display parse finds is a parameter of each message (`PreparedTransaction.Display`).
- Holding template tables: what they say about a template is a function parameter (`PreparedTransaction.Templates`).
- The contract a node acts on is recorded after the node is parsed, not in the middle of it; nothing reads the list in between.
- Whether the collector's parse fits on the stack is a parameter of each message; the depth is not part of this model.
- A digest and its has_ flag are one Option.
- The int32 counters of parts, nodes and contracts are unbounded integers; a message cannot hold 2^31 parts before a run ends.
- qsort is an insertion sort; both sort by the same comparison, and there is one sorted arrangement (`MultiHash.SortedIsUnique`).
- Runs beyond the first successful finalization, or beyond the final chunk of a signing session.
- Signing a host-computed hash, the other APDU handlers, menus, screens and settings.
- A participant mapping whose list pointer is null while its count is two.
- Node ids and roots with NUL bytes in them: they are strings without NUL here, as the comparisons read them.
- Once the value check has given up, later nodes are no longer collected; here they may still report, which cannot change the verdict (`ValuesVerdict.FailureIsPermanent`).
- The JSON parsing of the transaction splitter; its nodes arrive here with their integer ids.
