/**
  The two other readers of Length-Prefixed-Messages: the length validator of the
  buffering data path and the parser that cuts a complete body.  Both are tied to
  the decoder of `Framing`.
 */
module LegacyParsers {
  import opened Bytes
  import opened Framing

  // --------------------------------------------------------- whole-body parser

  /** Walks a complete body and hands every message to a consumer, which rejects the
      `failAt`-th one; `0` and `-1` are the codes the caller sees. */
  method ProcessBody(body: seq<byte>, start: nat, requireComplete: bool, failAt: nat)
    returns (rc: int, decoded: seq<Message>, offset: nat)
    requires start <= |body|
    ensures var all := Messages(body[start..]);
            if failAt < |all| then rc == -1 && decoded == all[..failAt]
            else
              && decoded == all && offset <= |body| && body[offset..] == Remainder(body[start..])
              && rc == if requireComplete && Remainder(body[start..]) != [] then -1 else 0
  {
    decoded, offset := [], start;
    assert Reached(body, start, start, []) by {
      assert [] + Messages(body[start..]) == Messages(body[start..]);
    }
    while offset < |body|
      invariant start <= offset <= |body| && |decoded| <= failAt && Reached(body, start, offset, decoded)
      decreases |body| - offset
    {
      CutSlice(body, offset, Min(offset + 5, |body|));
      if |body| - offset < 5 {
        ReachedEnd(body, start, offset, decoded);
        return if requireComplete then -1 else 0, decoded, offset;
      }
      var n := LengthOf(body[offset..offset + 5]);
      if n > |body| - offset - 5 {
        ReachedEnd(body, start, offset, decoded);
        return if requireComplete then -1 else 0, decoded, offset;
      }
      ReachedNext(body, start, offset, n, decoded);
      offset := offset + 5;
      var m := body[offset..offset + n];
      if |decoded| == failAt {
        return -1, decoded, offset;
      }
      decoded, offset := decoded + [m], offset + n;
    }
    ReachedEnd(body, start, offset, decoded);
    rc := 0;
  }

  /** What is decoded and what lies behind `offset` make up what lies behind `start`. */
  ghost predicate Reached(body: seq<byte>, start: nat, offset: nat, decoded: seq<Message>)
    requires start <= |body| && offset <= |body|
  {
    && decoded + Messages(body[offset..]) == Messages(body[start..])
    && Remainder(body[offset..]) == Remainder(body[start..])
  }

  lemma ReachedEnd(body: seq<byte>, start: nat, offset: nat, decoded: seq<Message>)
    requires start <= |body| && offset <= |body| && Reached(body, start, offset, decoded)
    requires !WholeMessage(body[offset..])
    ensures decoded == Messages(body[start..]) && body[offset..] == Remainder(body[start..])
  {
    assert decoded + [] == decoded;
  }

  lemma ReachedNext(body: seq<byte>, start: nat, offset: nat, n: nat, decoded: seq<Message>)
    requires start <= |body| && offset <= |body| && Reached(body, start, offset, decoded)
    requires offset + 5 + n <= |body| && n == LengthOf(body[offset..offset + 5])
    ensures Reached(body, start, offset + 5 + n, decoded + [body[offset + 5..offset + 5 + n]])
    ensures |decoded| < |Messages(body[start..])| && Messages(body[start..])[..|decoded|] == decoded
  {
    PeeledOff(body, offset, n);
    ConcatAssociative(decoded, [body[offset + 5..offset + 5 + n]], Messages(body[offset + 5 + n..]));
  }

  lemma PeeledOff(body: seq<byte>, offset: nat, n: nat)
    requires offset + 5 + n <= |body| && n == LengthOf(body[offset..offset + 5])
    ensures var rest, next := body[offset..], body[offset + 5 + n..];
            Messages(rest) == [body[offset + 5..offset + 5 + n]] + Messages(next) && Remainder(rest) == Remainder(next)
  {
    var rest := body[offset..];
    assert rest[..5] == body[offset..offset + 5];
    assert FirstMessage(rest) == body[offset + 5..offset + 5 + n] && BehindFirst(rest) == body[offset + 5 + n..];
  }

  /** On a stream the decoder does not fail, the body parser finds exactly the decoder's
      queue and leaves exactly its partial message. */
  lemma BodyParserAgrees(lim: Limits, env: Env, chunks: seq<seq<byte>>)
    requires !env.foreignReader
    ensures var d, body := OnChunks(lim, env, FRESH, chunks), Flatten(chunks);
            !d.discard ==>
              && Messages(body) == d.queue && Remainder(body) == d.header + d.payload
              && (Remainder(body) != [] <==> d.MidMessage())
  {
    ChunkingIrrelevant(lim, env, FRESH, chunks);
    UnfailedIsImage(lim, env, Flatten(chunks));
    var d := Feed(lim, env, FRESH, Flatten(chunks));
    if !d.discard {
      ImageParses(d);
    }
  }

  lemma UnfailedIsImage(lim: Limits, env: Env, body: seq<byte>)
    requires !env.foreignReader
    ensures var d := Feed(lim, env, FRESH, body);
            !d.discard ==> d.WellFormed() && Fits(d.queue) && d.Image() == body
  {
    FeedWellFormed(lim, env, FRESH, body);
    FeedFits(lim, env, FRESH, body);
    FeedImage(lim, env, FRESH, body);
    StartImage(body);
  }

  lemma StartImage(body: seq<byte>)
    ensures FRESH.Image() + body == body
  {
    IdleImage(FRESH);
    assert [] + body == body;
  }

  lemma ImageParses(d: Decoder)
    requires d.WellFormed() && Fits(d.queue)
    ensures Messages(d.Image()) == d.queue && Remainder(d.Image()) == d.header + d.payload
  {
    ParseEncoded(d.queue, d.header + d.payload);
    PartialIsNoMessage(d);
    assert d.queue + [] == d.queue;
  }

  // ---------------------------------------------------------- length validator

  datatype Validator = Validator(
    header: seq<byte>, payloadLen: nat, payloadOffset: nat, count: nat, flags: Flags, discard: bool)
  {
    predicate WellFormed() {
      && |header| <= 5
      && (|header| < 5 ==> payloadLen == 0 && payloadOffset == 0)
      && (|header| == 5 && payloadLen > 0 ==> payloadOffset < payloadLen)
    }

    /** Neither branch of the loop body would consume anything. */
    predicate Stuck() {
      |header| == 5 && payloadLen == 0
    }
  }

  const UNUSED: Validator := Validator([], 0, 0, 0, CLEAR, false)

  datatype Ending = Returned | Looping

  function JudgeLength(lim: Limits, env: Env, v: Validator, h: seq<byte>): (Validator, bool)
    requires |h| == 5
  {
    var count := if lim.maxMessages > 0 then v.count + 1 else v.count;
    var seen := Validator(h, LengthOf(h), v.payloadOffset, count, v.flags, v.discard);
    var bad := seen.(discard := true);
    if lim.maxMessages > 0 && count > lim.maxMessages then (bad.(flags := v.flags.(malformed := true)), true)
    else if h[0] > 1 then (bad.(flags := v.flags.(malformed := true)), true)
    else if h[0] == 1 then
      (bad.(flags := if env.foreignEncoding then v.flags.(unsupportedEncoding := true)
                     else v.flags.(compressed := true)), true)
    else if LengthOf(h) > lim.maxMessageBytes then
      (bad.(flags := v.flags.(tooLarge := true), payloadOffset := 0), true)
    else if LengthOf(h) == 0 then (seen.(header := [], payloadLen := 0, payloadOffset := 0), false)
    else (seen.(payloadOffset := 0), false)
  }

  function CountPayload(v: Validator, n: nat): Validator
    requires v.payloadOffset + n <= v.payloadLen
  {
    if v.payloadOffset + n == v.payloadLen then v.(header := [], payloadLen := 0, payloadOffset := 0)
    else v.(payloadOffset := v.payloadOffset + n)
  }

  function ValidateStep(lim: Limits, env: Env, v: Validator, b: byte): (Validator, bool)
    requires v.WellFormed() && !v.Stuck()
  {
    if |v.header| < 4 then (v.(header := v.header + [b]), false)
    else if |v.header| == 4 then JudgeLength(lim, env, v, v.header + [b])
    else (CountPayload(v, 1), false)
  }

  /** One DATA chunk before any grpc-status; `Looping` is the loop that never ends. */
  function Validate(lim: Limits, env: Env, v: Validator, bytes: seq<byte>): (Validator, Ending)
    requires v.WellFormed()
    decreases |bytes|
  {
    if bytes == [] || v.flags.tooLarge then (v, Returned)
    else if v.Stuck() then (v, Looping)
    else
      var (next, stop) := ValidateStep(lim, env, v, bytes[0]);
      if stop then (next, Returned) else Validate(lim, env, next, bytes[1..])
  }

  lemma ValidateHeaderOctet(lim: Limits, env: Env, v: Validator, bytes: seq<byte>)
    requires v.WellFormed() && !v.flags.tooLarge && bytes != [] && |v.header| < 4
    ensures Validate(lim, env, v, bytes) == Validate(lim, env, v.(header := v.header + [bytes[0]]), bytes[1..])
  {
  }

  lemma {:induction false} ValidateHeaderRun(lim: Limits, env: Env, v: Validator, bytes: seq<byte>, k: nat)
    requires v.WellFormed() && !v.flags.tooLarge && k <= |bytes| && |v.header| + k <= 4
    ensures Validate(lim, env, v, bytes) == Validate(lim, env, v.(header := v.header + bytes[..k]), bytes[k..])
    decreases k
  {
    if k == 0 {
      assert v.header + bytes[..0] == v.header && bytes[0..] == bytes;
    } else {
      var next := v.(header := v.header + [bytes[0]]);
      ValidateHeaderOctet(lim, env, v, bytes);
      ValidateHeaderRun(lim, env, next, bytes[1..], k - 1);
      assert next.header + bytes[1..][..k - 1] == v.header + bytes[..k];
      assert bytes[1..][k - 1..] == bytes[k..];
    }
  }

  lemma ValidateHeaderEnd(lim: Limits, env: Env, v: Validator, bytes: seq<byte>, k: nat)
    requires v.WellFormed() && !v.flags.tooLarge && 0 < k <= |bytes| && |v.header| + k == 5
    ensures var (next, stop) := JudgeLength(lim, env, v, v.header + bytes[..k]);
            && next.WellFormed()
            && Validate(lim, env, v, bytes) ==
               if stop then (next, Returned) else Validate(lim, env, next, bytes[k..])
  {
    ValidateHeaderRun(lim, env, v, bytes, k - 1);
    var four, rest := v.(header := v.header + bytes[..k - 1]), bytes[k - 1..];
    assert four.header + [bytes[k - 1]] == v.header + bytes[..k];
    assert rest[1..] == bytes[k..] && rest[0] == bytes[k - 1];
    ValidateFifth(lim, env, four, rest);
  }

  lemma ValidateFifth(lim: Limits, env: Env, v: Validator, bytes: seq<byte>)
    requires v.WellFormed() && !v.flags.tooLarge && bytes != [] && |v.header| == 4
    ensures var (next, stop) := JudgeLength(lim, env, v, v.header + [bytes[0]]);
            && next.WellFormed()
            && Validate(lim, env, v, bytes) ==
               if stop then (next, Returned) else Validate(lim, env, next, bytes[1..])
  {
  }

  lemma {:induction false} ValidatePayloadRun(lim: Limits, env: Env, v: Validator, bytes: seq<byte>, k: nat)
    requires v.WellFormed() && !v.flags.tooLarge && |v.header| == 5 && v.payloadLen > 0
    requires k <= |bytes| && v.payloadOffset + k <= v.payloadLen
    ensures CountPayload(v, k).WellFormed()
    ensures Validate(lim, env, v, bytes) == Validate(lim, env, CountPayload(v, k), bytes[k..])
    decreases k
  {
    if k == 0 {
      assert bytes[0..] == bytes;
    } else if v.payloadOffset + 1 < v.payloadLen {
      ValidatePayloadRun(lim, env, CountPayload(v, 1), bytes[1..], k - 1);
      assert bytes[1..][k - 1..] == bytes[k..];
    }
  }

  /** The validator's loop over one chunk; `ending` tells when it would spin for ever. */
  method ValidateLengths(lim: Limits, env: Env, call: Validator, data: seq<byte>)
    returns (v: Validator, ending: Ending)
    requires call.WellFormed()
    ensures (v, ending) == Validate(lim, env, call, data)
  {
    v, ending := call, Returned;
    var offset := 0;
    assert data[0..] == data;
    while offset < |data| && !v.flags.tooLarge
      invariant v.WellFormed() && offset <= |data|
      invariant Validate(lim, env, v, data[offset..]) == Validate(lim, env, call, data)
      decreases |data| - offset
    {
      ghost var rest := data[offset..];
      if v.Stuck() {
        return v, Looping;
      }
      if |v.header| < 5 {
        var need := 5 - |v.header|;
        var take := if need < |data| - offset then need else |data| - offset;
        var stop: bool;
        v, stop := TakeHeader(lim, env, v, data, offset, take);
        offset := offset + take;
        if stop {
          return;
        }
      } else {
        var need := v.payloadLen - v.payloadOffset;
        var take := if need < |data| - offset then need else |data| - offset;
        ValidatePayloadRun(lim, env, v, rest, take);
        CutSlice(data, offset, offset + take);
        v, offset := CountPayload(v, take), offset + take;
      }
    }
  }

  method TakeHeader(lim: Limits, env: Env, v: Validator, data: seq<byte>, offset: nat, take: nat)
    returns (next: Validator, stop: bool)
    requires v.WellFormed() && |v.header| < 5 && !v.flags.tooLarge
    requires offset < |data| && take == Min(5 - |v.header|, |data| - offset)
    ensures next.WellFormed()
    ensures Validate(lim, env, v, data[offset..]) ==
            if stop then (next, Returned) else Validate(lim, env, next, data[offset + take..])
  {
    ghost var rest := data[offset..];
    CutSlice(data, offset, offset + take);
    var header := v.header + data[offset..offset + take];
    if |header| < 5 {
      ValidateHeaderRun(lim, env, v, rest, take);
      return v.(header := header), false;
    }
    ValidateHeaderEnd(lim, env, v, rest, take);
    var judged := JudgeLength(lim, env, v, header);
    next, stop := judged.0, judged.1;
  }

  /** The loop spins exactly when a chunk arrives while the call is stuck behind a
      refused header that announced an empty message. */
  lemma {:induction false} LoopsExactlyWhenStuck(lim: Limits, env: Env, v: Validator, bytes: seq<byte>)
    requires v.WellFormed()
    ensures Validate(lim, env, v, bytes).1 == Looping <==> (bytes != [] && v.Stuck() && !v.flags.tooLarge)
    decreases |bytes|
  {
    if bytes != [] && !v.flags.tooLarge && !v.Stuck() {
      var (next, stop) := ValidateStep(lim, env, v, bytes[0]);
      if !stop {
        LoopsExactlyWhenStuck(lim, env, next, bytes[1..]);
      }
    }
  }

  /** A call becomes stuck only by refusing a header whose length is zero, and then it discards. */
  lemma StuckOnlyAfterRefusal(lim: Limits, env: Env, v: Validator, b: byte)
    requires v.WellFormed() && !v.Stuck()
    ensures var (next, stop) := ValidateStep(lim, env, v, b);
            && next.WellFormed()
            && (next.Stuck() <==> |v.header| == 4 && stop && LengthOf(v.header + [b]) == 0)
            && (next.Stuck() ==> next.discard)
  {
  }

  // ------------------------------------------------- the validator behind its guard

  /** The data path that still uses the validator asks first whether the call discards. */
  function GuardedChunk(lim: Limits, env: Env, v: Validator, bytes: seq<byte>): (Validator, Ending)
    requires v.WellFormed()
  {
    if v.discard then (v, Returned) else Validate(lim, env, v, bytes)
  }

  function GuardedChunks(lim: Limits, env: Env, v: Validator, chunks: seq<seq<byte>>): (Validator, Ending)
    requires v.WellFormed()
    decreases |chunks|
  {
    if chunks == [] then (v, Returned)
    else
      var (next, ending) := GuardedChunk(lim, env, v, chunks[0]);
      if ending == Looping || !next.WellFormed() then (next, ending) else GuardedChunks(lim, env, next, chunks[1..])
  }

  lemma {:induction false} StuckDiscards(lim: Limits, env: Env, v: Validator, bytes: seq<byte>)
    requires v.WellFormed() && (v.Stuck() ==> v.discard)
    ensures var next := Validate(lim, env, v, bytes).0;
            next.WellFormed() && (next.Stuck() ==> next.discard)
    decreases |bytes|
  {
    if bytes != [] && !v.flags.tooLarge && !v.Stuck() {
      StuckOnlyAfterRefusal(lim, env, v, bytes[0]);
      var (next, stop) := ValidateStep(lim, env, v, bytes[0]);
      if !stop {
        StuckDiscards(lim, env, next, bytes[1..]);
      }
    }
  }

  /** Behind the guard the loop ends on every chunk of every response. */
  lemma {:induction false} GuardedNeverLoops(lim: Limits, env: Env, v: Validator, chunks: seq<seq<byte>>)
    requires v.WellFormed() && (v.Stuck() ==> v.discard)
    ensures GuardedChunks(lim, env, v, chunks).1 == Returned
    decreases |chunks|
  {
    if chunks != [] {
      LoopsExactlyWhenStuck(lim, env, v, chunks[0]);
      StuckDiscards(lim, env, v, chunks[0]);
      GuardedNeverLoops(lim, env, GuardedChunk(lim, env, v, chunks[0]).0, chunks[1..]);
    }
  }

  lemma GuardedNeverLoopsFromStart(lim: Limits, env: Env, chunks: seq<seq<byte>>)
    ensures GuardedChunks(lim, env, UNUSED, chunks).1 == Returned
  {
    GuardedNeverLoops(lim, env, UNUSED, chunks);
  }

  /** The smallest such input: a compressed empty message, then any further octet. */
  lemma LoopingExample(lim: Limits, env: Env, b: byte)
    requires lim.maxMessages == 0
    ensures var refused := Validate(lim, env, UNUSED, [1, 0, 0, 0, 0]);
            && refused.1 == Returned && refused.0.flags.Any() && refused.0.WellFormed()
            && Validate(lim, env, refused.0, [b]).1 == Looping
  {
    var data: seq<byte> := [1, 0, 0, 0, 0];
    ValidateHeaderRun(lim, env, UNUSED, data, 4);
    var four := UNUSED.(header := [] + data[..4]);
    assert data[4..] == [0];
    assert four.header + [0] == data;
    assert Validate(lim, env, four, [0]) == (JudgeLength(lim, env, four, data).0, Returned);
  }

  // ------------------------------------------- validator and decoder agree

  predicate Agree(v: Validator, d: Decoder) {
    && v.WellFormed() && d.WellFormed() && !v.flags.Any() && !d.discard
    && v.header == d.header && v.count == d.count && v.payloadOffset == |d.payload|
    && (|d.header| == 5 ==> v.payloadLen == LengthOf(d.header))
  }

  lemma StepAgrees(lim: Limits, env: Env, v: Validator, d: Decoder, b: byte)
    requires Agree(v, d) && !env.foreignReader
    ensures !v.Stuck()
    ensures var (v', s) := ValidateStep(lim, env, v, b);
            var (d', t) := Step(lim, env, d, b);
            && s == t && v'.WellFormed() && (if s then v'.flags.Any() && d'.flags.Any() else Agree(v', d'))
  {
    StepWellFormed(lim, env, d, b);
  }

  lemma {:induction false} ChunkAgrees(lim: Limits, env: Env, v: Validator, d: Decoder, bytes: seq<byte>)
    requires Agree(v, d) && !env.foreignReader
    ensures var (v', ending) := Validate(lim, env, v, bytes);
            var d' := Feed(lim, env, d, bytes);
            && ending == Returned
            && ((v'.flags.Any() && d'.flags.Any()) || Agree(v', d'))
    decreases |bytes|
  {
    if bytes != [] {
      StepAgrees(lim, env, v, d, bytes[0]);
      StepWellFormed(lim, env, d, bytes[0]);
      var (v', stop) := ValidateStep(lim, env, v, bytes[0]);
      if !stop {
        ChunkAgrees(lim, env, v', Step(lim, env, d, bytes[0]).0, bytes[1..]);
      }
    }
  }

  /** Runs the validator over chunks and stops at the first one that raises a flag. */
  function ValidateUntilFlag(lim: Limits, env: Env, v: Validator, chunks: seq<seq<byte>>): Validator
    requires v.WellFormed()
    decreases |chunks|
  {
    if chunks == [] || v.flags.Any() then v
    else
      var next := Validate(lim, env, v, chunks[0]).0;
      if next.WellFormed() then ValidateUntilFlag(lim, env, next, chunks[1..]) else next
  }

  /** Both readers raise a flag on the same streams, and until then they stand at the same place. */
  lemma {:induction false} ValidatorAgrees(lim: Limits, env: Env, v: Validator, d: Decoder, chunks: seq<seq<byte>>)
    requires Agree(v, d) && !env.foreignReader
    ensures var v' := ValidateUntilFlag(lim, env, v, chunks);
            var d' := OnChunks(lim, env, d, chunks);
            && (v'.flags.Any() <==> d'.flags.Any())
            && (!v'.flags.Any() ==> Agree(v', d'))
    decreases |chunks|
  {
    if chunks != [] {
      var next := OnData(lim, env, d, chunks[0]);
      OnDataWellFormed(lim, env, d, chunks[0]);
      ChunkAgrees(lim, env, v, d, chunks[0]);
      if next.discard {
        DiscardStays(lim, env, next, chunks[1..]);
      } else {
        ValidatorAgrees(lim, env, Validate(lim, env, v, chunks[0]).0, next, chunks[1..]);
      }
    }
  }

  /** The same, from the first octet of a response on. */
  lemma ValidatorAgreesFromStart(lim: Limits, env: Env, chunks: seq<seq<byte>>)
    requires !env.foreignReader
    ensures var v := ValidateUntilFlag(lim, env, UNUSED, chunks);
            var d := OnChunks(lim, env, FRESH, chunks);
            && (v.flags.Any() <==> d.flags.Any())
            && (!v.flags.Any() ==>
                  && v.header == d.header && v.count == d.count && v.payloadOffset == |d.payload|
                  && (|d.header| == 5 ==> v.payloadLen == LengthOf(d.header)))
  {
    ValidatorAgrees(lim, env, UNUSED, FRESH, chunks);
  }

  lemma {:induction false} DiscardStays(lim: Limits, env: Env, d: Decoder, chunks: seq<seq<byte>>)
    requires d.WellFormed() && d.discard
    ensures OnChunks(lim, env, d, chunks) == d
    decreases |chunks|
  {
    if chunks != [] {
      DiscardStays(lim, env, d, chunks[1..]);
    }
  }
}
