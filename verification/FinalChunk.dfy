/** The signing handler and the phase machine together: what a review at the final chunk says about the
    transaction behind it. */
module FinalChunk {
  import opened Bytes
  import opened HashWriter
  import opened ValueStream
  import opened CanonicalNode
  import opened NodeTreeCheck
  import opened NodeHashStore
  import opened NodePhase
  import opened NodeTree
  import opened CanonicalMetadata
  import opened ValuesCheck
  import opened ValuesVerdict
  import opened PreparedTransaction
  import opened TransactionRuns
  import opened ClearSigning
  import DeferredScreen
  import SignTx

  // ------------------------------------------------------------------ the two machines

  /** The chunk buffer, and the messages handed to process_prepared_tx_part so far. */
  datatype Device = Device(ctx: SignTx.Ctx, ms: seq<Message>)

  /** What the complete message parses to; the state tells whether it was sent as the last. */
  function Arrived(parse: seq<Byte> -> Message, t: SignTx.Taken): seq<Message>
  {
    if t.complete.None? then [] else [parse(t.complete.value).(last := t.ctx.state == SignTx.STATE_PARSED)]
  }

  datatype Answer = Answer(device: Device, reply: SignTx.Reply)

  /** One chunk of a session: the message it completes is accepted when the phase machine takes it. */
  function HandleChunk(h: Sha256, start: TxState, parse: seq<Byte> -> Message, max: nat, d: Device, c: SignTx.Chunk): Answer
    requires Starts(start)
  {
    var ms := d.ms + if d.ctx.kind == c.kind then Arrived(parse, SignTx.TakeChunk(max, d.ctx, c)) else [];
    var r := SignTx.Handle(max, d.ctx, c.(accepts := !After(h, start, ms, |ms|).Refused?));
    Answer(Device(r.ctx, ms), r.reply)
  }

  function DeviceAfter(h: Sha256, start: TxState, parse: seq<Byte> -> Message, max: nat, d: Device, cs: seq<SignTx.Chunk>): Device
    requires Starts(start)
  {
    if |cs| == 0 then d
    else HandleChunk(h, start, parse, max, DeviceAfter(h, start, parse, max, d, cs[..|cs| - 1]), cs[|cs| - 1]).device
  }

  function ReplyAt(h: Sha256, start: TxState, parse: seq<Byte> -> Message, max: nat, d: Device, cs: seq<SignTx.Chunk>, i: nat): SignTx.Reply
    requires Starts(start) && i < |cs|
  {
    HandleChunk(h, start, parse, max, DeviceAfter(h, start, parse, max, d, cs[..i]), cs[i]).reply
  }

  /** A session has just begun: its first chunk was taken. */
  predicate Begun(d: Device)
  {
    SignTx.Receiving(d.ctx, SignTx.SIGN_PREPARED_TRANSACTION) && d.ctx.state == SignTx.STATE_EXPECTING_MORE && d.ms == []
  }

  /** Nothing was sent as the last, and the transaction goes on. */
  predicate Ongoing(h: Sha256, start: TxState, d: Device)
    requires Starts(start)
  {
    d.ctx.confirming ==> (forall i :: 0 <= i < |d.ms| ==> !d.ms[i].last) && After(h, start, d.ms, |d.ms|).Continue?
  }

  lemma {:induction false} AfterPrefix(h: Sha256, start: TxState, ms: seq<Message>, more: seq<Message>, k: nat)
    requires Starts(start) && k <= |ms|
    ensures After(h, start, ms + more, k) == After(h, start, ms, k)
    decreases k
  {
    hide Step;
    if k > 0 {
      AfterPrefix(h, start, ms, more, k - 1);
    }
  }

  /** One chunk that does not end in a review. */
  lemma OneChunk(h: Sha256, start: TxState, parse: seq<Byte> -> Message, max: nat, d: Device, c: SignTx.Chunk)
    requires Starts(start) && Ongoing(h, start, d) && !c.first
    ensures
      var a := HandleChunk(h, start, parse, max, d, c);
      if a.reply == SignTx.ReviewShown then
        |a.device.ms| == |d.ms| + 1 && a.device.ms[..|d.ms|] == d.ms && a.device.ms[|d.ms|].last && d.ctx.confirming &&
        After(h, start, a.device.ms, |d.ms|).Continue? && !After(h, start, a.device.ms, |a.device.ms|).Refused?
      else Ongoing(h, start, a.device)
  {
    hide After, Starts;
    var a := HandleChunk(h, start, parse, max, d, c);
    assert d.ms + [] == d.ms;
    if a.device.ms != d.ms && d.ctx.confirming {
      AfterPrefix(h, start, d.ms, a.device.ms[|d.ms|..], |d.ms|);
      FinalizedWasLast(h, start, a.device.ms);
    }
  }

  /** A chunk that completes a message hands on what was gathered and its payload, sent as the last exactly when the
      chunk does not announce more. */
  lemma CompletedMessage(h: Sha256, start: TxState, parse: seq<Byte> -> Message, max: nat, d: Device, c: SignTx.Chunk)
    requires Starts(start)
    ensures
      var ms := HandleChunk(h, start, parse, max, d, c).device.ms;
      if !c.first && d.ctx.kind == c.kind && d.ctx.confirming && |d.ctx.raw| + |c.payload| <= max && c.msgEnd
      then ms == d.ms + [parse(d.ctx.raw + c.payload).(last := !c.more)] else ms == d.ms
  {
    hide After, Starts;
  }

  lemma FinalizedWasLast(h: Sha256, start: TxState, ms: seq<Message>)
    requires Starts(start) && |ms| > 0 && After(h, start, ms, |ms| - 1).Continue?
    ensures After(h, start, ms, |ms|).Finalized? ==> ms[|ms| - 1].last
  {
    hide After, HeaderStep, NodeMessageStep, MetadataStep, ContractStep;
    var k := |ms| - 1;
    var st := After(h, start, ms, k).st;
    StepDispatch(h, start, ms, k);
    OnlyLastFinalizes(h, st, ms[k]);
  }

  lemma OnlyLastFinalizes(h: Sha256, st: TxState, m: Message)
    requires ValidRing(st.node.ring)
    ensures HeaderStep(st, m).Finalized? || NodeMessageStep(h, st, m).Finalized? || MetadataStep(h, st, m).Finalized? || ContractStep(h, st, m).Finalized? ==> m.last
  {
    hide NodeStep, PartParses, Findings, Verify, FeedMetadata, FeedHeader, FeedContract, ContractParses, FinalPreimage, Verdict, Run, Init, Discloses;
  }

  lemma {:induction false} SessionIsOngoing(h: Sha256, start: TxState, parse: seq<Byte> -> Message, max: nat, d: Device, cs: seq<SignTx.Chunk>)
    requires Starts(start) && Begun(d) && forall i :: 0 <= i < |cs| ==> !cs[i].first
    requires forall i :: 0 <= i < |cs| ==> ReplyAt(h, start, parse, max, d, cs, i) != SignTx.ReviewShown
    ensures Ongoing(h, start, DeviceAfter(h, start, parse, max, d, cs))
    decreases |cs|
  {
    hide HandleChunk;
    if |cs| > 0 {
      var k := |cs| - 1;
      forall i | 0 <= i < k
        ensures ReplyAt(h, start, parse, max, d, cs[..k], i) != SignTx.ReviewShown
      {
        assert cs[..k][..i] == cs[..i] && cs[..k][i] == cs[i];
        assert ReplyAt(h, start, parse, max, d, cs, i) != SignTx.ReviewShown;
      }
      SessionIsOngoing(h, start, parse, max, d, cs[..k]);
      assert ReplyAt(h, start, parse, max, d, cs, k) != SignTx.ReviewShown;
      OneChunk(h, start, parse, max, DeviceAfter(h, start, parse, max, d, cs[..k]), cs[k]);
    }
  }

  // ------------------------------------------------------------------ when the last message finalizes

  /** All the messages that a transaction announces. */
  predicate TookAll(ms: seq<Message>)
  {
    |ms| > 0 && ms[0].header.Some? && 0 <= ms[0].header.value.nodesCount && ms[0].header.value.nodesCount + 2 <= |ms| &&
    ms[ms[0].header.value.nodesCount + 1].metadata.Some? &&
    |ms| == 2 + ms[0].header.value.nodesCount + ms[ms[0].header.value.nodesCount + 1].metadata.value.inputContractsCount
  }

  /** While nodes come in, fewer have come than were announced. */
  lemma {:induction false} NodesToCome(h: Sha256, start: TxState, ms: seq<Message>, k: nat)
    requires Starts(start) && k <= |ms| && After(h, start, ms, k).Continue? && After(h, start, ms, k).st.phase == RECEIVING_DAML_NODES
    ensures
      var st := After(h, start, ms, k).st;
      0 <= st.recvIdx && st.recvIdx != st.header.nodesCount &&
      (0 <= st.header.nodesCount ==> st.recvIdx < st.header.nodesCount)
    decreases k
  {
    hide *;
    AtStart(h, start, ms);
    if k > 0 {
      var j := k - 1;
      EarlierContinues(h, start, ms, j);
      WhatCameBefore(h, start, ms, j);
      if After(h, start, ms, j).st.phase == RECEIVING_DAML_NODES {
        NodesToCome(h, start, ms, j);
      }
    }
  }

  lemma AtStart(h: Sha256, start: TxState, ms: seq<Message>)
    requires Starts(start)
    ensures After(h, start, ms, 0) == Continue(start) && start.phase == RECEIVING_DAML_TX_PART
  {
  }

  /** A node phase is entered from the header or goes on by one node. */
  lemma WhatCameBefore(h: Sha256, start: TxState, ms: seq<Message>, j: nat)
    requires Starts(start) && j < |ms| && After(h, start, ms, j).Continue? && After(h, start, ms, j + 1).Continue?
    requires After(h, start, ms, j + 1).st.phase == RECEIVING_DAML_NODES
    ensures
      var st, t := After(h, start, ms, j).st, After(h, start, ms, j + 1).st;
      if st.phase == RECEIVING_DAML_NODES then t.recvIdx == st.recvIdx + 1 && t.header == st.header && t.recvIdx != t.header.nodesCount
      else t.recvIdx == 0 && t.header.nodesCount != 0
  {
    hide After, HeaderStep, NodeMessageStep, MetadataStep, ContractStep;
    var st := After(h, start, ms, j).st;
    StepDispatch(h, start, ms, j);
    match st.phase {
      case RECEIVING_DAML_TX_PART => HeaderEffects(st, ms[j]);
      case RECEIVING_DAML_NODES => NodeEffects(h, st, ms[j]);
      case RECEIVING_METADATA => MetadataEffects(h, st, ms[j]);
      case RECEIVING_METADATA_INPUT_CONTRACTS => ContractEffects(h, st, ms[j]);
    }
  }

  /** A run that goes on has not taken everything. */
  lemma GoingOnIsIncomplete(h: Sha256, start: TxState, ms: seq<Message>)
    requires Starts(start) && After(h, start, ms, |ms|).Continue?
    ensures !TookAll(ms)
  {
    hide After, Shape, TookAll, Starts;
    var st := After(h, start, ms, |ms|).st;
    RunHasShape(h, start, ms, |ms|);
    match st.phase {
      case RECEIVING_DAML_TX_PART => StartedOnly(h, start, ms, st);
      case RECEIVING_DAML_NODES =>
        NodesToCome(h, start, ms, |ms|);
        NodesMissing(h, start, ms, st);
      case RECEIVING_METADATA => NodesMissing(h, start, ms, st);
      case RECEIVING_METADATA_INPUT_CONTRACTS => ContractsMissing(h, start, ms, st);
    }
  }

  lemma StartedOnly(h: Sha256, start: TxState, ms: seq<Message>, st: TxState)
    requires Shape(h, start, ms, |ms|, st) && st.phase == RECEIVING_DAML_TX_PART
    ensures !TookAll(ms)
  {
  }

  lemma NodesMissing(h: Sha256, start: TxState, ms: seq<Message>, st: TxState)
    requires Shape(h, start, ms, |ms|, st) && (st.phase == RECEIVING_DAML_NODES || st.phase == RECEIVING_METADATA)
    requires st.phase == RECEIVING_DAML_NODES && 0 <= st.header.nodesCount ==> st.recvIdx < st.header.nodesCount
    ensures !TookAll(ms)
  {
    hide NodesFollow, ContractShape;
  }

  lemma ContractsMissing(h: Sha256, start: TxState, ms: seq<Message>, st: TxState)
    requires Shape(h, start, ms, |ms|, st) && st.phase == RECEIVING_METADATA_INPUT_CONTRACTS
    ensures !TookAll(ms)
  {
    hide NodesDone, ContractsFollow, NodesFollow, ContractShape;
    ContractShapeParts(h, start, ms, |ms|, st);
    DoneHeader(h, start, ms, st.header, st.partialTxHash, st.node.tree);
  }

  lemma DoneHeader(h: Sha256, start: TxState, ms: seq<Message>, hdr: Header, partialTxHash: seq<Byte>, tree: Check)
    requires NodesDone(h, start, ms, hdr, partialTxHash, tree)
    ensures 0 <= hdr.nodesCount && |ms| > 0 && ms[0].header == Some(hdr)
  {
    hide NodeSession, Verify, Session.Parses, Session.State;
  }

  /** A message sent as the last, and not refused, finalizes the transaction exactly when all the messages
      it announces were taken. */
  lemma LastMessageFinalizesIff(h: Sha256, start: TxState, ms: seq<Message>)
    requires Starts(start) && |ms| > 0 && After(h, start, ms, |ms| - 1).Continue? && !After(h, start, ms, |ms|).Refused?
    ensures After(h, start, ms, |ms|).Finalized? <==> TookAll(ms)
  {
    hide After, Complete, Starts, TookAll;
    if After(h, start, ms, |ms|).Finalized? {
      FinalizedRunIsComplete(h, start, ms);
      CompleteTookAll(h, start, ms, After(h, start, ms, |ms|).st);
    } else {
      GoingOnIsIncomplete(h, start, ms);
    }
  }

  lemma CompleteTookAll(h: Sha256, start: TxState, ms: seq<Message>, st: TxState)
    requires Complete(h, start, ms, st) && |ms| == 1 + st.header.nodesCount + 1 + st.contractsCount
    ensures TookAll(ms)
  {
    hide NodesDone, ContractsFollow;
    DoneHeader(h, start, ms, st.header, st.partialTxHash, st.node.tree);
  }

  // ------------------------------------------------------------------ the theorem

  /** The first review of a session comes with a message that was sent as the last and not refused. Its
      transaction is finalized exactly when every message it announces was taken: the header and node
      phases do not look at the flag. */
  lemma ReviewIsOfFinalizedIff(h: Sha256, start: TxState, parse: seq<Byte> -> Message, max: nat, d: Device, cs: seq<SignTx.Chunk>)
    requires Starts(start) && Begun(d) && |cs| > 0 && forall i :: 0 <= i < |cs| ==> !cs[i].first
    requires forall i :: 0 <= i < |cs| - 1 ==> ReplyAt(h, start, parse, max, d, cs, i) != SignTx.ReviewShown
    requires ReplyAt(h, start, parse, max, d, cs, |cs| - 1) == SignTx.ReviewShown
    ensures
      var ms := DeviceAfter(h, start, parse, max, d, cs).ms;
      |ms| > 0 && ms[|ms| - 1].last && (forall i :: 0 <= i < |ms| - 1 ==> !ms[i].last) && !After(h, start, ms, |ms|).Refused? &&
      (After(h, start, ms, |ms|).Finalized? <==> TookAll(ms))
  {
    hide HandleChunk, After, Starts, TookAll, Begun;
    var k := |cs| - 1;
    forall i | 0 <= i < k
      ensures ReplyAt(h, start, parse, max, d, cs[..k], i) != SignTx.ReviewShown
    {
      assert cs[..k][..i] == cs[..i] && cs[..k][i] == cs[i];
      assert ReplyAt(h, start, parse, max, d, cs, i) != SignTx.ReviewShown;
    }
    SessionIsOngoing(h, start, parse, max, d, cs[..k]);
    OneChunk(h, start, parse, max, DeviceAfter(h, start, parse, max, d, cs[..k]), cs[k]);
    LastMessageFinalizesIff(h, start, DeviceAfter(h, start, parse, max, d, cs).ms);
  }

  // ------------------------------------------------------------------ a review of an unfinished transaction

  lemma HashStays(h: Sha256, st: TxState, m: Message)
    requires ValidRing(st.node.ring)
    ensures HeaderStep(st, m).Continue? ==> HeaderStep(st, m).st.mHash == st.mHash
    ensures NodeMessageStep(h, st, m).Continue? ==> NodeMessageStep(h, st, m).st.mHash == st.mHash
  {
    hide NodeStep, PartParses, Findings, FeedHeader, Init;
  }

  /** Two nodes are announced; the first one populates a screen and is sent as the last. */
  function UnfinishedMessages(f: ExerciseFields, seed: seq<Byte>, s: Screen): seq<Message>
  {
    [DeferredScreen.Blankly(DecodeFails).(header := Some(DeferredScreen.Announced(seed))),
     DeferredScreen.Blankly(Populates(s)).(node := Some(NodePart(Some(DeferredScreen.ONE), Exercise(f, []))), last := true)]
  }

  /** It is not refused, so a review is shown, as clear signing; but the transaction is not finalized: no
      tree verdict and no value verdict were asked for, and there is no hash to sign. */
  lemma UnfinishedReview(h: Sha256, start: TxState, f: ExerciseFields, seed: seq<Byte>, s: Screen)
    requires Starts(start) && IsHash(seed) && IsComplete(Exercise(f, []))
    requires StreamShell(Exercise(f, []), Some(seed), Blank(HASH_OK)).feed.err == HASH_OK
    ensures
      var ms := UnfinishedMessages(f, seed, s);
      !TookAll(ms) && ms[1].last && After(h, start, ms, 2).Continue? && After(h, start, ms, 2).st.review.clear && After(h, start, ms, 2).st.mHash == start.mHash
  {
    hide HeaderStep, NodeMessageStep, MetadataStep, ContractStep, NodeStep, PartParses, IsComplete, StreamShell, Init, MarkSeen, Findings;
    var ms := UnfinishedMessages(f, seed, s);
    DeferredScreen.TreeStarts();
    DeferredScreen.HeaderIsTaken(start, ms[0]);
    HeaderEffects(start, ms[0]);
    HashStays(h, start, ms[0]);
    StepDispatch(h, start, ms, 0);
    var st := HeaderStep(start, ms[0]).st;
    DeferredScreen.OrphanPart(h, st.node, f, seed);
    MarkOrphan();
    DeferredScreen.NodeIsTaken(h, st, ms[1]);
    NodeEffects(h, st, ms[1]);
    NodeReview(h, st, ms[1]);
    HashStays(h, st, ms[1]);
    StepDispatch(h, start, ms, 1);
  }

  lemma MarkOrphan()
    ensures MarkSeen(Check([NodeCheck(false, true), NodeCheck(false, false)], 0, TREE_OK), 1).err == TREE_OK
  {
  }
}
