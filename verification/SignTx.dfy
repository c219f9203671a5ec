/** Reassembly of chunked messages (handler/sign_tx.c): chunks are appended to one fixed buffer, and a
    refused transaction takes nothing more until a new first chunk. */
module SignTx {
  import opened Bytes

  datatype SigningType = SIGN_HASH | SIGN_UNTYPED_VERSIONED_MESSAGE | SIGN_PREPARED_TRANSACTION

  datatype ParsingState = STATE_NONE | STATE_EXPECTING_MORE | STATE_MSG_COMPLETE | STATE_PARSED

  /** One command: its payload and flags. pathOk is whether a first chunk's derivation path and setup are
      good, accepts whether the message it completes, if any, is processed without error. */
  datatype Chunk = Chunk(payload: seq<Byte>, kind: SigningType, first: bool, more: bool, msgEnd: bool, pathOk: bool, accepts: bool)

  datatype Reply = SW_OK | SW_BAD_STATE | SW_WRONG_DATA_LENGTH | SW_WRONG_TX_LENGTH | ProcessingFailed | ReviewShown

  /** The buffered bytes, the state, whether a transaction is being confirmed, and its type. */
  datatype Ctx = Ctx(raw: seq<Byte>, state: ParsingState, confirming: bool, kind: SigningType)

  const CLEAN: Ctx := Ctx([], STATE_NONE, false, SIGN_HASH)

  /** The reply, and the message that was handed to processing. */
  datatype Response = Response(ctx: Ctx, reply: Reply, message: Option<seq<Byte>>)

  datatype Taken = Taken(ctx: Ctx, err: Option<Reply>, complete: Option<seq<Byte>>)

  // ------------------------------------------------------------------ specification

  function RefuseTx(ctx: Ctx): Ctx { ctx.(confirming := false, state := STATE_NONE) }

  /** process_tx_chunk with a buffer of max bytes. */
  function TakeChunk(max: nat, ctx: Ctx, c: Chunk): Taken
  {
    if c.first then
      if !c.pathOk then Taken(CLEAN, Some(SW_WRONG_DATA_LENGTH), None)
      else Taken(Ctx([], STATE_EXPECTING_MORE, true, c.kind), None, None)
    else if !ctx.confirming then Taken(ctx, Some(SW_BAD_STATE), None)
    else if |ctx.raw| + |c.payload| > max then Taken(ctx, Some(SW_WRONG_TX_LENGTH), None)
    else
      var raw := ctx.raw + c.payload;
      if c.msgEnd && c.more then Taken(ctx.(raw := [], state := STATE_MSG_COMPLETE), None, Some(raw))
      else if c.msgEnd then Taken(ctx.(raw := raw, state := STATE_PARSED), None, Some(raw))
      else if c.more then Taken(ctx.(raw := raw, state := STATE_EXPECTING_MORE), None, None)
      else Taken(ctx.(raw := raw), Some(SW_BAD_STATE), None)
  }

  /** handler_sign_tx. */
  function Handle(max: nat, ctx: Ctx, c: Chunk): Response
  {
    if !c.first && ctx.kind != c.kind then Response(ctx, SW_BAD_STATE, None)
    else
      var t := TakeChunk(max, ctx, c);
      if t.err.Some? then Response(RefuseTx(t.ctx), t.err.value, None)
      else if t.ctx.state == STATE_EXPECTING_MORE then Response(t.ctx, SW_OK, None)
      else if !c.accepts then Response(RefuseTx(t.ctx), ProcessingFailed, t.complete)
      else Response(t.ctx, if t.ctx.state == STATE_PARSED then ReviewShown else SW_OK, t.complete)
  }

  predicate Refused(r: Response) { r.reply != SW_OK && r.reply != ReviewShown }

  /** The context after some chunks. */
  function After(max: nat, ctx: Ctx, cs: seq<Chunk>): Ctx
  {
    if |cs| == 0 then ctx else Handle(max, After(max, ctx, cs[..|cs| - 1]), cs[|cs| - 1]).ctx
  }

  /** The messages handed to processing, in order. */
  function Processed(max: nat, ctx: Ctx, cs: seq<Chunk>): seq<seq<Byte>>
  {
    if |cs| == 0 then []
    else
      var k := |cs| - 1;
      var r := Handle(max, After(max, ctx, cs[..k]), cs[k]);
      Processed(max, ctx, cs[..k]) + if r.message.Some? then [r.message.value] else []
  }

  /** The reply to the chunk at position i. */
  function ReplyTo(max: nat, ctx: Ctx, cs: seq<Chunk>, i: nat): Response
    requires i < |cs|
  {
    Handle(max, After(max, ctx, cs[..i]), cs[i])
  }

  // ------------------------------------------------------------------ the module's state

  class Handler {
    const rawTx: array<Byte>
    var rawTxLen: nat
    var state: ParsingState
    var confirming: bool
    var signingType: SigningType

    ghost predicate Valid()
      reads this
    {
      rawTxLen <= rawTx.Length
    }

    ghost function Model(): Ctx
      requires Valid()
      reads this, rawTx
    {
      Ctx(rawTx[..rawTxLen], state, confirming, signingType)
    }

    constructor (max: nat)
      ensures Valid() && fresh(rawTx) && rawTx.Length == max && Model() == CLEAN
    {
      rawTx := new Byte[max](_ => 0);
      rawTxLen, state, confirming, signingType := 0, STATE_NONE, false, SIGN_HASH;
    }

    /** memcpy of a chunk behind what is buffered. */
    method Append(payload: seq<Byte>)
      requires Valid() && rawTxLen + |payload| <= rawTx.Length
      modifies `rawTxLen, rawTx
      ensures Valid() && rawTx[..rawTxLen] == old(rawTx[..rawTxLen]) + payload
    {
      for i := 0 to |payload|
        invariant rawTxLen == old(rawTxLen) && rawTx[..rawTxLen] == old(rawTx[..rawTxLen])
        invariant forall j :: 0 <= j < i ==> rawTx[rawTxLen + j] == payload[j]
      {
        rawTx[rawTxLen + i] := payload[i];
      }
      assert rawTx[..rawTxLen + |payload|] == rawTx[..rawTxLen] + payload;
      rawTxLen := rawTxLen + |payload|;
    }

    method ProcessTxChunk(c: Chunk) returns (err: Option<Reply>, complete: Option<seq<Byte>>)
      requires Valid()
      modifies this, rawTx
      ensures Valid() && Taken(Model(), err, complete) == TakeChunk(rawTx.Length, old(Model()), c)
    {
      complete := None;
      if c.first {
        rawTxLen, state, confirming, signingType := 0, STATE_NONE, false, SIGN_HASH;
        if !c.pathOk {
          return Some(SW_WRONG_DATA_LENGTH), None;
        }
        confirming, signingType, state := true, c.kind, STATE_EXPECTING_MORE;
        return None, None;
      }
      if !confirming {
        return Some(SW_BAD_STATE), None;
      }
      if rawTxLen + |c.payload| > rawTx.Length {
        return Some(SW_WRONG_TX_LENGTH), None;
      }
      Append(c.payload);
      if c.msgEnd && c.more {
        complete := Some(rawTx[..rawTxLen]);
        rawTxLen := 0;
        state := STATE_MSG_COMPLETE;
      } else if c.msgEnd {
        complete := Some(rawTx[..rawTxLen]);
        state := STATE_PARSED;
      } else if c.more {
        state := STATE_EXPECTING_MORE;
      } else {
        return Some(SW_BAD_STATE), None;
      }
      return None, complete;
    }

    method Refuse()
      requires Valid()
      modifies `confirming, `state
      ensures Valid() && Model() == RefuseTx(old(Model()))
    {
      confirming := false;
      state := STATE_NONE;
    }

    method HandlerSignTx(c: Chunk) returns (reply: Reply, message: Option<seq<Byte>>)
      requires Valid()
      modifies this, rawTx
      ensures Valid() && Response(Model(), reply, message) == Handle(rawTx.Length, old(Model()), c)
    {
      hide TakeChunk;
      if !c.first && signingType != c.kind {
        return SW_BAD_STATE, None;
      }
      var err, complete := ProcessTxChunk(c);
      if err.Some? {
        Refuse();
        return err.value, None;
      }
      if state == STATE_EXPECTING_MORE {
        return SW_OK, None;
      }
      if !c.accepts {
        Refuse();
        return ProcessingFailed, complete;
      }
      return if state == STATE_PARSED then ReviewShown else SW_OK, complete;
    }
  }

  // ------------------------------------------------------------------ the buffer bound

  /** The buffer never holds more than its capacity, and no longer message is ever processed. */
  lemma {:induction false} BufferIsBounded(max: nat, ctx: Ctx, cs: seq<Chunk>)
    requires |ctx.raw| <= max
    ensures |After(max, ctx, cs).raw| <= max
    ensures forall i :: 0 <= i < |Processed(max, ctx, cs)| ==> |Processed(max, ctx, cs)[i]| <= max
    decreases |cs|
  {
    if |cs| > 0 {
      BufferIsBounded(max, ctx, cs[..|cs| - 1]);
    }
  }

  // ------------------------------------------------------------------ refusal

  /** A refused chunk ends the session, unless its type did not even match. */
  lemma RefusalStopsConfirming(max: nat, ctx: Ctx, c: Chunk)
    requires Refused(Handle(max, ctx, c))
    ensures !Handle(max, ctx, c).ctx.confirming || (!c.first && ctx.kind != c.kind && Handle(max, ctx, c).ctx == ctx)
  {
  }

  lemma {:induction false} StaysRefused(max: nat, ctx: Ctx, cs: seq<Chunk>)
    requires !ctx.confirming && forall i :: 0 <= i < |cs| ==> !cs[i].first
    ensures !After(max, ctx, cs).confirming && Processed(max, ctx, cs) == []
    ensures forall i :: 0 <= i < |cs| ==> Refused(ReplyTo(max, ctx, cs, i))
    decreases |cs|
  {
    hide Handle;
    if |cs| > 0 {
      var k := |cs| - 1;
      StaysRefused(max, ctx, cs[..k]);
      NotConfirmingRefuses(max, After(max, ctx, cs[..k]), cs[k]);
      forall i | 0 <= i < k
        ensures Refused(ReplyTo(max, ctx, cs, i))
      {
        assert cs[..k][..i] == cs[..i] && cs[..k][i] == cs[i];
        assert Refused(ReplyTo(max, ctx, cs[..k], i));
      }
    }
  }

  lemma NotConfirmingRefuses(max: nat, ctx: Ctx, c: Chunk)
    requires !ctx.confirming && !c.first
    ensures Refused(Handle(max, ctx, c)) && !Handle(max, ctx, c).ctx.confirming && Handle(max, ctx, c).message.None?
  {
  }

  /** After a chunk was refused with the session's own type, every chunk is refused, and nothing is
      processed, until a new first chunk. */
  lemma RefusedUntilFirst(max: nat, ctx: Ctx, c: Chunk, cs: seq<Chunk>)
    requires Refused(Handle(max, ctx, c)) && (c.first || ctx.kind == c.kind)
    requires forall i :: 0 <= i < |cs| ==> !cs[i].first
    ensures Processed(max, Handle(max, ctx, c).ctx, cs) == []
    ensures forall i :: 0 <= i < |cs| ==> Refused(ReplyTo(max, Handle(max, ctx, c).ctx, cs, i))
  {
    hide Handle, Refused;
    RefusalStopsConfirming(max, ctx, c);
    StaysRefused(max, Handle(max, ctx, c).ctx, cs);
  }

  // ------------------------------------------------------------------ reassembly

  /** The type of the session and what it has gathered since the last boundary. */
  datatype Gathered = Gathered(kind: SigningType, payload: seq<Byte>)

  /** A boundary is a first chunk, or the end of a message behind which more follow; chunks of another type
      are no part of a session. */
  function Since(cs: seq<Chunk>): Option<Gathered>
  {
    if |cs| == 0 then None
    else
      var c, before := cs[|cs| - 1], Since(cs[..|cs| - 1]);
      if c.first then Some(Gathered(c.kind, []))
      else if before.None? || before.value.kind != c.kind then before
      else if c.msgEnd && c.more then Some(Gathered(c.kind, []))
      else Some(Gathered(c.kind, before.value.payload + c.payload))
  }

  predicate EndsMessage(c: Chunk, kind: SigningType) { !c.first && c.kind == kind && c.msgEnd && c.more }

  /** The payloads of a session's own chunks. */
  function Payloads(kind: SigningType, cs: seq<Chunk>): seq<seq<Byte>>
  {
    if |cs| == 0 then [] else Payloads(kind, cs[..|cs| - 1]) + if cs[|cs| - 1].kind == kind then [cs[|cs| - 1].payload] else []
  }

  /** Position b is the last boundary, and bytes are the payloads behind it. */
  ghost predicate Follows(cs: seq<Chunk>, b: int, g: Gathered)
  {
    0 <= b < |cs| && ((cs[b].first && cs[b].kind == g.kind) || EndsMessage(cs[b], g.kind)) && g.payload == Concat(Payloads(g.kind, cs[b + 1..])) &&
    forall j :: b < j < |cs| ==> !cs[j].first && !EndsMessage(cs[j], g.kind)
  }

  lemma NewBoundary(cs: seq<Chunk>, c: Chunk)
    requires c.first || EndsMessage(c, c.kind)
    ensures Follows(cs + [c], |cs|, Gathered(c.kind, []))
  {
    ConcatStep([], c.payload);
    assert (cs + [c])[|cs| + 1..] == [];
  }

  lemma NoBoundary(cs: seq<Chunk>, b: int, g: Gathered, c: Chunk)
    requires Follows(cs, b, g) && !c.first && !EndsMessage(c, g.kind)
    ensures Follows(cs + [c], b, g.(payload := if c.kind == g.kind then g.payload + c.payload else g.payload))
  {
    hide Concat;
    var rest := cs[b + 1..];
    assert (cs + [c])[b + 1..] == rest + [c] && (rest + [c])[..|rest|] == rest;
    ConcatStep(Payloads(g.kind, rest), c.payload);
    assert Payloads(g.kind, rest) + [] == Payloads(g.kind, rest);
  }

  /** What is gathered are the payloads behind the last boundary, without a gap. */
  lemma {:induction false} SinceIsContiguous(cs: seq<Chunk>) returns (b: int)
    requires Since(cs).Some?
    ensures Follows(cs, b, Since(cs).value)
    decreases |cs|
  {
    hide Follows;
    var k := |cs| - 1;
    var c, before := cs[k], Since(cs[..k]);
    assert cs == cs[..k] + [c];
    b := k;
    if c.first || (before.value.kind == c.kind && c.msgEnd && c.more) {
      NewBoundary(cs[..k], c);
    } else {
      b := SinceIsContiguous(cs[..k]);
      NoBoundary(cs[..k], b, before.value, c);
    }
  }

  /** While a session is on, the buffer holds what was gathered since the last boundary. */
  lemma {:induction false} BufferIsGathered(max: nat, ctx: Ctx, cs: seq<Chunk>)
    requires !ctx.confirming
    ensures var t := After(max, ctx, cs); t.confirming ==> Since(cs) == Some(Gathered(t.kind, t.raw))
    decreases |cs|
  {
    if |cs| > 0 {
      BufferIsGathered(max, ctx, cs[..|cs| - 1]);
    }
  }

  /** Every run of chunks, well-formed or not: each message that is processed consists of the payloads of its
      session since the last boundary, and nothing else. */
  lemma MessageIsContiguous(max: nat, ctx: Ctx, cs: seq<Chunk>, i: nat)
    requires !ctx.confirming && i < |cs| && ReplyTo(max, ctx, cs, i).message.Some?
    ensures !cs[i].first && cs[i].msgEnd && Since(cs[..i]).Some? && Since(cs[..i]).value.kind == cs[i].kind
    ensures ReplyTo(max, ctx, cs, i).message == Some(Since(cs[..i]).value.payload + cs[i].payload)
  {
    BufferIsGathered(max, ctx, cs[..i]);
  }

  // ------------------------------------------------------------------ every reply

  /** The session that chunk b began is still on after the chunks: its path was good, no other first chunk came,
      and none of its own chunks was refused. */
  ghost predicate OnSince(max: nat, ctx: Ctx, cs: seq<Chunk>, b: nat)
  {
    b < |cs| && cs[b].first && cs[b].pathOk &&
    forall j :: b < j < |cs| ==> !cs[j].first && (cs[j].kind == cs[b].kind ==> !Refused(ReplyTo(max, ctx, cs, j)))
  }

  lemma ReplyOfPrefix(max: nat, ctx: Ctx, cs: seq<Chunk>, c: Chunk, j: nat)
    requires j < |cs|
    ensures ReplyTo(max, ctx, cs + [c], j) == ReplyTo(max, ctx, cs, j)
  {
    hide Handle, After;
    assert (cs + [c])[..j] == cs[..j];
  }

  lemma OnStep(max: nat, ctx: Ctx, cs: seq<Chunk>, c: Chunk, b: nat)
    requires b < |cs|
    ensures OnSince(max, ctx, cs + [c], b) <==>
      OnSince(max, ctx, cs, b) && !c.first && (c.kind == cs[b].kind ==> !Refused(ReplyTo(max, ctx, cs + [c], |cs|)))
  {
    hide ReplyTo, Refused;
    var more := cs + [c];
    forall j | 0 <= j < |cs|
      ensures more[j] == cs[j] && ReplyTo(max, ctx, more, j) == ReplyTo(max, ctx, cs, j)
    {
      ReplyOfPrefix(max, ctx, cs, c, j);
    }
    assert more[|cs|] == c;
  }

  /** A chunk that is not the first keeps the session on unless it is of its type and refused. */
  lemma KeepsOn(max: nat, ctx: Ctx, c: Chunk)
    requires !c.first
    ensures Handle(max, ctx, c).ctx.confirming <==> ctx.confirming && (c.kind == ctx.kind ==> !Refused(Handle(max, ctx, c)))
    ensures Handle(max, ctx, c).ctx.kind == ctx.kind
  {
  }

  lemma BeginsOn(max: nat, ctx: Ctx, c: Chunk)
    requires c.first
    ensures Handle(max, ctx, c).ctx.confirming == c.pathOk && (c.pathOk ==> Handle(max, ctx, c).ctx.kind == c.kind)
  {
  }

  /** The device is in a session exactly when some chunk began one that is still on. */
  lemma {:induction false} ConfirmingIff(max: nat, ctx: Ctx, cs: seq<Chunk>)
    requires !ctx.confirming
    ensures After(max, ctx, cs).confirming <==> exists b :: 0 <= b < |cs| && OnSince(max, ctx, cs, b)
    ensures forall b :: 0 <= b < |cs| && OnSince(max, ctx, cs, b) ==> After(max, ctx, cs).kind == cs[b].kind
    decreases |cs|
  {
    hide Handle, Refused;
    if |cs| > 0 {
      var k := |cs| - 1;
      var before, c := cs[..k], cs[k];
      assert cs == before + [c];
      ConfirmingIff(max, ctx, before);
      var st := After(max, ctx, before);
      forall b | 0 <= b < k
        ensures OnSince(max, ctx, cs, b) <==> OnSince(max, ctx, before, b) && !c.first && (c.kind == cs[b].kind ==> !Refused(Handle(max, st, c)))
      {
        OnStep(max, ctx, before, c, b);
      }
      if c.first {
        BeginsOn(max, st, c);
        assert OnSince(max, ctx, cs, k) <==> c.pathOk;
      } else {
        KeepsOn(max, st, c);
        assert !OnSince(max, ctx, cs, k);
        if st.confirming {
          var b :| 0 <= b < k && OnSince(max, ctx, before, b);
          assert Handle(max, st, c).ctx.confirming ==> OnSince(max, ctx, cs, b);
        }
      }
    }
  }

  /** The reply to a chunk and the message handed to processing, by the chunk's flags: what was gathered is the
      payload since the last boundary, and only a chunk of the session that is on is taken. */
  ghost predicate Answers(max: nat, on: bool, gathered: seq<Byte>, c: Chunk, r: Response)
  {
    if c.first then r.message.None? && r.reply == (if c.pathOk then SW_OK else SW_WRONG_DATA_LENGTH)
    else if !on then r.message.None? && r.reply == SW_BAD_STATE
    else if |gathered| + |c.payload| > max then r.message.None? && r.reply == SW_WRONG_TX_LENGTH
    else if c.msgEnd then
      r.message == Some(gathered + c.payload) &&
      r.reply == (if !c.accepts then ProcessingFailed else if c.more then SW_OK else ReviewShown)
    else r.message.None? && r.reply == (if c.more then SW_OK else SW_BAD_STATE)
  }

  /** Every chunk of every run, without reference to the device's state. */
  lemma EveryReply(max: nat, ctx: Ctx, cs: seq<Chunk>, i: nat)
    requires !ctx.confirming && i < |cs|
    ensures
      var on := exists b :: 0 <= b < i && cs[b].kind == cs[i].kind && OnSince(max, ctx, cs[..i], b);
      Answers(max, on, if Since(cs[..i]).Some? then Since(cs[..i]).value.payload else [], cs[i], ReplyTo(max, ctx, cs, i))
  {
    hide OnSince, After, Since, Handle;
    var before, c := cs[..i], cs[i];
    var st := After(max, ctx, before);
    ConfirmingIff(max, ctx, before);
    BufferIsGathered(max, ctx, before);
    assert forall b :: 0 <= b < i ==> before[b] == cs[b];
    var on := exists b :: 0 <= b < i && cs[b].kind == c.kind && OnSince(max, ctx, before, b);
    assert on <==> st.confirming && st.kind == c.kind;
    OneReply(max, st, c, on, if Since(before).Some? then Since(before).value.payload else []);
  }

  lemma OneReply(max: nat, st: Ctx, c: Chunk, on: bool, gathered: seq<Byte>)
    requires (on <==> st.confirming && st.kind == c.kind) && (st.confirming ==> gathered == st.raw)
    ensures Answers(max, on, gathered, c, Handle(max, st, c))
  {
  }

  // ------------------------------------------------------------------ well-formed runs

  /** The chunks of one message, however it is cut: every piece but the last says that more follows; the
      last one ends the message, and says whether more messages follow. */
  function ChunksOf(kind: SigningType, pieces: seq<seq<Byte>>, more: bool): (cs: seq<Chunk>)
    requires |pieces| > 0
    ensures |cs| == |pieces|
  {
    seq(|pieces|, i requires 0 <= i < |pieces| =>
      if i < |pieces| - 1 then Chunk(pieces[i], kind, false, true, false, true, true) else Chunk(pieces[i], kind, false, more, true, true, true))
  }

  /** A whole transaction after its first chunk: all messages, each cut in its own way. */
  function AllChunks(kind: SigningType, splits: seq<seq<seq<Byte>>>): seq<Chunk>
    requires forall i :: 0 <= i < |splits| ==> |splits[i]| > 0
  {
    if |splits| == 0 then [] else ChunksOf(kind, splits[0], |splits| > 1) + AllChunks(kind, splits[1..])
  }

  function Messages(splits: seq<seq<seq<Byte>>>): seq<seq<Byte>>
  {
    if |splits| == 0 then [] else [Concat(splits[0])] + Messages(splits[1..])
  }

  predicate Receiving(ctx: Ctx, kind: SigningType) { ctx.confirming && ctx.kind == kind && ctx.raw == [] }

  lemma {:induction false} AfterConcat(max: nat, ctx: Ctx, a: seq<Chunk>, b: seq<Chunk>)
    ensures After(max, ctx, a + b) == After(max, After(max, ctx, a), b)
    ensures Processed(max, ctx, a + b) == Processed(max, ctx, a) + Processed(max, After(max, ctx, a), b)
    decreases |b|
  {
    hide Handle;
    if |b| == 0 {
      assert a + b == a;
      assert Processed(max, ctx, a) + [] == Processed(max, ctx, a);
    } else {
      var k := |b| - 1;
      assert (a + b)[..|a + b| - 1] == a + b[..k];
      AfterConcat(max, ctx, a, b[..k]);
    }
  }

  /** Until its last piece a message is only collected. */
  lemma {:induction false} PiecesCollect(max: nat, ctx: Ctx, kind: SigningType, pieces: seq<seq<Byte>>, more: bool, k: nat)
    requires |pieces| > 0 && Receiving(ctx, kind) && k < |pieces| && |Concat(pieces[..k])| <= max
    ensures
      var t := After(max, ctx, ChunksOf(kind, pieces, more)[..k]);
      t.confirming && t.kind == kind && t.raw == Concat(pieces[..k])
    ensures Processed(max, ctx, ChunksOf(kind, pieces, more)[..k]) == []
    decreases k
  {
    var cs := ChunksOf(kind, pieces, more);
    if k > 0 {
      assert pieces[..k][..k - 1] == pieces[..k - 1] && cs[..k][..k - 1] == cs[..k - 1];
      PiecesCollect(max, ctx, kind, pieces, more, k - 1);
      assert cs[k - 1] == Chunk(pieces[k - 1], kind, false, true, false, true, true);
    }
  }

  /** One message: handed to processing whole, however it was cut. */
  lemma MessageIsReassembled(max: nat, ctx: Ctx, kind: SigningType, pieces: seq<seq<Byte>>, more: bool)
    requires |pieces| > 0 && Receiving(ctx, kind) && |Concat(pieces)| <= max
    ensures Processed(max, ctx, ChunksOf(kind, pieces, more)) == [Concat(pieces)]
    ensures more ==> Receiving(After(max, ctx, ChunksOf(kind, pieces, more)), kind)
  {
    var k, cs := |pieces| - 1, ChunksOf(kind, pieces, more);
    ConcatPrefix(pieces, k);
    PiecesCollect(max, ctx, kind, pieces, more, k);
    assert cs[k] == Chunk(pieces[k], kind, false, more, true, true, true);
    assert cs[..|cs| - 1] == cs[..k];
  }

  /** A message that does not fit is refused at the piece that exceeds the buffer, and not processed. */
  lemma LongMessageIsRefused(max: nat, ctx: Ctx, kind: SigningType, pieces: seq<seq<Byte>>, more: bool) returns (k: nat)
    requires |pieces| > 0 && Receiving(ctx, kind) && |Concat(pieces)| > max
    ensures k < |pieces| && |Concat(pieces[..k])| <= max < |Concat(pieces[..k + 1])|
    ensures ReplyTo(max, ctx, ChunksOf(kind, pieces, more), k).reply == SW_WRONG_TX_LENGTH
    ensures Processed(max, ctx, ChunksOf(kind, pieces, more)[..k]) == []
  {
    k := 0;
    assert pieces[..|pieces|] == pieces;
    while |Concat(pieces[..k + 1])| <= max
      invariant k < |pieces| && |Concat(pieces[..k])| <= max
      decreases |pieces| - k
    {
      k := k + 1;
    }
    PiecesCollect(max, ctx, kind, pieces, more, k);
    assert pieces[..k + 1][..k] == pieces[..k];
  }

  predicate Fit(max: nat, splits: seq<seq<seq<Byte>>>) { forall i :: 0 <= i < |splits| ==> |splits[i]| > 0 && |Concat(splits[i])| <= max }

  /** The whole transaction: exactly its messages are processed, in order. */
  lemma {:induction false} TransactionIsReassembled(max: nat, ctx: Ctx, kind: SigningType, splits: seq<seq<seq<Byte>>>)
    requires Receiving(ctx, kind) && Fit(max, splits)
    ensures Processed(max, ctx, AllChunks(kind, splits)) == Messages(splits)
    decreases |splits|
  {
    hide ChunksOf, Concat, Handle, Receiving;
    if |splits| > 0 {
      var first, rest := ChunksOf(kind, splits[0], |splits| > 1), AllChunks(kind, splits[1..]);
      MessageIsReassembled(max, ctx, kind, splits[0], |splits| > 1);
      AfterConcat(max, ctx, first, rest);
      if |splits| > 1 {
        TransactionIsReassembled(max, After(max, ctx, first), kind, splits[1..]);
      } else {
        assert splits[1..] == [] && [Concat(splits[0])] + [] == [Concat(splits[0])];
      }
    }
  }

  /** Two ways of cutting the same messages are processed alike. */
  lemma ChunkingDoesNotMatter(max: nat, ctx: Ctx, kind: SigningType, a: seq<seq<seq<Byte>>>, b: seq<seq<seq<Byte>>>)
    requires Receiving(ctx, kind) && Fit(max, a) && Fit(max, b) && Messages(a) == Messages(b)
    ensures Processed(max, ctx, AllChunks(kind, a)) == Processed(max, ctx, AllChunks(kind, b))
  {
    hide *;
    SplitsAreNonEmpty(max, a);
    SplitsAreNonEmpty(max, b);
    TransactionIsReassembled(max, ctx, kind, a);
    TransactionIsReassembled(max, ctx, kind, b);
  }

  lemma SplitsAreNonEmpty(max: nat, a: seq<seq<seq<Byte>>>)
    requires Fit(max, a)
    ensures forall i :: 0 <= i < |a| ==> |a[i]| > 0
  {
  }
}
