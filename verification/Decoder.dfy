/**
  The receiving half of a call: the resumable chunk decoder with its queue, as
  fields updated in place, proved against the octet machine of `Framing`.
 */
module Decoder {
  import opened Bytes
  import opened Framing

  class ResponseStream {
    const lim: Limits
    var header: seq<byte>
    var payloadLen: nat
    var payloadOffset: nat
    var payload: Option<seq<byte>>
    var messageCount: nat
    var queue: seq<Message>
    var queueCount: nat
    var queueBytes: nat
    var flags: Flags
    var discard: bool
    var statusSeen: bool
    var invalidStatus: bool

    /** Queue counters are exact, and the length of a partial payload is its offset. */
    ghost predicate Valid()
      reads this
    {
      && |header| <= 5
      && (|header| < 5 ==> payload.None? && payloadLen == 0 && payloadOffset == 0)
      && (|header| == 5 ==>
            && payload.Some? && |payload.value| == payloadOffset < payloadLen
            && payloadLen == LengthOf(header) && header[0] == 0)
      && queueCount == |queue| && queueBytes == TotalSize(queue)
      && (flags.Any() ==> discard)
    }

    ghost function Model(): Decoder
      reads this
    {
      Framing.Decoder(header, if payload.Some? then payload.value else [],
                      messageCount, queue, flags, discard)
    }

    constructor (lim: Limits)
      ensures Valid() && Model() == FRESH && !statusSeen && !invalidStatus
      ensures this.lim == lim
    {
      this.lim := lim;
      header, payloadLen, payloadOffset, payload := [], 0, 0, None;
      messageCount, queue, queueCount, queueBytes := 0, [], 0, 0;
      flags, discard, statusSeen, invalidStatus := CLEAR, false, false, false;
    }

    // ------------------------------------------------------------------ queue

    method ExceedsReadAhead(env: Env, n: nat) returns (r: bool)
      requires queueCount == |queue| && queueBytes == TotalSize(queue)
      ensures r == LimitWouldExceed(lim, env, queue, n)
    {
      r := env.foreignReader
           && (queueCount >= lim.readAheadMessages || n > lim.readAheadBytes
               || queueBytes > lim.readAheadBytes - n);
    }

    /** Adds one message, or drops it and raises the queue limit. */
    method EnqueuePayload(env: Env, m: Message) returns (fatal: bool)
      requires Valid() && header == []
      modifies this`queue, this`queueCount, this`queueBytes, this`flags, this`discard
      ensures Valid()
      ensures (Model(), fatal) == Enqueue(lim, env, old(Model()), m)
    {
      fatal := false;
      var exceeds := ExceedsReadAhead(env, |m|);
      if exceeds {
        flags, discard := flags.(queueLimit := true), true;
        fatal := env.resetFatal;
      } else {
        TotalSizeAppend(queue, m);
        queue, queueCount, queueBytes := queue + [m], queueCount + 1, queueBytes + |m|;
      }
    }

    /** What `next` takes off the front for its caller. */
    method PopPayload() returns (m: Message)
      requires Valid() && queue != []
      modifies this`queue, this`queueCount, this`queueBytes
      ensures Valid()
      ensures m == old(queue)[0] && queue == old(queue)[1..]
    {
      m := queue[0];
      queue, queueCount, queueBytes := queue[1..], queueCount - 1, queueBytes - |m|;
    }

    /** The unary form guards both decrements; `Valid` makes the guards redundant. */
    method TakeUnaryPayload() returns (m: Option<Message>)
      requires Valid()
      modifies this`queue, this`queueCount, this`queueBytes
      ensures Valid()
      ensures old(queue) == [] ==> m == None && queue == []
      ensures old(queue) != [] ==> m == Some(old(queue)[0]) && queue == old(queue)[1..]
    {
      if queue == [] {
        return None;
      }
      var first := queue[0];
      queue := queue[1..];
      if queueCount > 0 {
        queueCount := queueCount - 1;
      }
      if queueBytes >= |first| {
        queueBytes := queueBytes - |first|;
      }
      m := Some(first);
    }

    method FreeQueue()
      requires Valid()
      modifies this`queue, this`queueCount, this`queueBytes
      ensures Valid() && queue == []
    {
      while queue != []
        decreases |queue|
      {
        queue := queue[1..];
      }
      queueCount, queueBytes := 0, 0;
    }

    // ------------------------------------------------------------------ chunks

    /** The size, count and flag policies applied to a complete header, in this order. */
    method JudgeHeader(env: Env) returns (admitted: bool, verdict: Flags)
      requires |header| == 5 && payloadLen == LengthOf(header)
      ensures admitted == Admitted(lim, messageCount, header)
      ensures verdict == HeaderVerdict(lim, env, flags, messageCount, header)
    {
      admitted, verdict := false, flags;
      if lim.maxMessages > 0 && messageCount > lim.maxMessages {
        verdict := flags.(malformed := true);
      } else if payloadLen > lim.maxMessageBytes {
        verdict := flags.(tooLarge := true);
      } else if header[0] > 1 {
        verdict := flags.(malformed := true);
      } else if header[0] == 1 {
        verdict := if env.foreignEncoding then flags.(unsupportedEncoding := true) else flags.(compressed := true);
      } else {
        admitted := true;
      }
    }

    /** Everything but the octets of a message being collected. */
    ghost predicate Books()
      reads this
    {
      queueCount == |queue| && queueBytes == TotalSize(queue) && (flags.Any() ==> discard)
    }

    /** Copies payload octets into the buffer, growing it if need be.  On entry the buffer
        holds the octets so far and possibly room for some of this chunk. */
    method CopyPayload(data: seq<byte>, offset: nat) returns (take: nat)
      requires offset <= |data| && payload.Some? && payloadOffset <= payloadLen
      requires payloadOffset <= |payload.value| <= payloadOffset + Min(payloadLen - payloadOffset, |data| - offset)
      modifies this`payloadOffset, this`payload
      ensures take == Min(payloadLen - old(payloadOffset), |data| - offset)
      ensures payload == Some(old(payload.value[..payloadOffset]) + data[offset..offset + take])
      ensures payloadOffset == |payload.value|
    {
      var need := payloadLen - payloadOffset;
      take := if need < |data| - offset then need else |data| - offset;
      if take > 0 {
        var required := payloadOffset + take;
        var buffer := payload.value;
        if required > |buffer| {
          buffer := buffer + seq(required - |buffer|, _ => 0);
        }
        assert buffer[..payloadOffset] == payload.value[..payloadOffset];
        payload := Some(buffer[..payloadOffset] + data[offset..offset + take] + buffer[required..]);
        payloadOffset := required;
      }
      assert payload.value == old(payload.value[..payloadOffset]) + data[offset..offset + take];
    }

    /** Hands the message over once its last octet is in the buffer. */
    method FinishPayload(env: Env) returns (fatal: bool)
      requires Books() && |header| == 5 && payloadLen == LengthOf(header) && header[0] == 0
      requires payload.Some? && payloadOffset == |payload.value| <= payloadLen
      modifies this`header, this`payloadLen, this`payloadOffset, this`payload
      modifies this`queue, this`queueCount, this`queueBytes, this`flags, this`discard
      ensures Valid() && (fatal ==> env.resetFatal)
      ensures (Model(), fatal) ==
              if old(payloadOffset) < old(payloadLen) then (old(Model()), false)
              else Enqueue(lim, env, old(Model()), old(payload.value))
    {
      fatal := false;
      if payloadOffset == payloadLen {
        var complete := payload.value;
        payload, header, payloadLen, payloadOffset := None, [], 0, 0;
        fatal := EnqueuePayload(env, complete);
      }
    }

    method TakePayload(env: Env, data: seq<byte>, offset: nat) returns (take: nat, fatal: bool)
      requires Books() && |header| == 5 && payloadLen == LengthOf(header) && header[0] == 0
      requires offset <= |data| && payload.Some? && payloadOffset <= payloadLen
      requires payloadOffset <= |payload.value| <= payloadOffset + Min(payloadLen - payloadOffset, |data| - offset)
      modifies this`header, this`payloadLen, this`payloadOffset, this`payload
      modifies this`queue, this`queueCount, this`queueBytes, this`flags, this`discard
      ensures Valid() && (fatal ==> env.resetFatal) && offset + take <= |data|
      ensures var start := old(Model().(payload := payload.value[..payloadOffset]));
              Turn(Model(), fatal, take) == PayloadTurn(lim, env, start, data[offset..])
    {
      ghost var start := Model().(payload := payload.value[..payloadOffset]);
      take := CopyPayload(data, offset);
      CutSlice(data, offset, offset + take);
      assert Model() == start.(payload := payload.value);
      assert Enqueue(lim, env, Model(), payload.value) == Enqueue(lim, env, start, payload.value);
      fatal := FinishPayload(env);
    }

    /** Counts and judges a complete header.  One that is let in gets a first buffer
        for what the chunk still holds of its message; any other is dropped. */
    method AdmitHeader(env: Env, available: nat) returns (admitted: bool)
      requires Books() && |header| == 5 && payload.None?
      modifies this`header, this`payloadLen, this`payload, this`messageCount, this`flags, this`discard
      ensures Books()
      ensures var counted := Counted(lim, old(Model()));
              admitted == (Admitted(lim, counted.count, old(header))
                           && !LimitWouldExceed(lim, env, queue, LengthOf(old(header))))
      ensures admitted ==>
                && header == old(header) && payloadLen == LengthOf(header)
                && payload == Some(seq(Min(available, payloadLen), _ => 0))
                && Model().(payload := []) == Counted(lim, old(Model()))
      ensures !admitted ==>
                && payload.None? && payloadLen == 0 && Model() == OnHeader(lim, env, old(Model()), old(header)).0
    {
      payloadLen := LengthOf(header);
      if lim.maxMessages > 0 {
        messageCount := messageCount + 1;
      }
      var lawful, verdict := JudgeHeader(env);
      var exceeds := ExceedsReadAhead(env, payloadLen);
      admitted := lawful && !exceeds;
      if admitted {
        payload := Some(seq(Min(available, payloadLen), _ => 0));
      } else {
        flags := if lawful then flags.(queueLimit := true) else verdict;
        discard, header, payloadLen := true, [], 0;
      }
    }

    /** What follows a header that has just become complete. */
    method HeaderDone(env: Env, data: seq<byte>, offset: nat) returns (take: nat, stop: bool, fatal: bool)
      requires Books() && |header| == 5 && payload.None? && payloadOffset == 0 && offset <= |data|
      modifies this`header, this`payloadLen, this`payloadOffset, this`payload, this`messageCount
      modifies this`queue, this`queueCount, this`queueBytes, this`flags, this`discard
      ensures Valid() && (fatal ==> stop && env.resetFatal) && offset + take <= |data|
      ensures Turn(Model(), stop, take) == HeaderDoneTurn(lim, env, old(Model()), old(header), data[offset..])
    {
      var admitted := AdmitHeader(env, |data| - offset);
      if !admitted {
        return 0, true, env.resetFatal;
      }
      take, fatal := TakePayload(env, data, offset);
      stop := fatal;
    }

    /** One loop turn of the chunk decoder. */
    method TakeTurn(env: Env, data: seq<byte>, offset: nat) returns (take: nat, stop: bool, fatal: bool)
      requires Valid() && offset < |data|
      modifies this`header, this`payloadLen, this`payloadOffset, this`payload, this`messageCount
      modifies this`queue, this`queueCount, this`queueBytes, this`flags, this`discard
      ensures Valid() && offset + take <= |data| && (fatal ==> stop && env.resetFatal)
      ensures old(Model()).WellFormed()
      ensures Turn(Model(), stop, take) == DecodeTurn(lim, env, old(Model()), data[offset..])
    {
      if |header| == 5 {
        assert payload.value[..payloadOffset] == payload.value;
        take, fatal := TakePayload(env, data, offset);
        return take, fatal, fatal;
      }
      take, stop, fatal := TakeHeader(env, data, offset);
    }

    method TakeHeader(env: Env, data: seq<byte>, offset: nat) returns (take: nat, stop: bool, fatal: bool)
      requires Valid() && offset < |data| && |header| < 5
      modifies this`header, this`payloadLen, this`payloadOffset, this`payload, this`messageCount
      modifies this`queue, this`queueCount, this`queueBytes, this`flags, this`discard
      ensures Valid() && offset + take <= |data| && (fatal ==> stop && env.resetFatal)
      ensures old(Model()).WellFormed()
      ensures Turn(Model(), stop, take) == DecodeTurn(lim, env, old(Model()), data[offset..])
    {
      ghost var start := Model();
      take := CollectHeader(data, offset);
      if |header| == 5 {
        take, stop, fatal := CompleteHeader(env, data, offset, take, start);
      } else {
        HeaderTurnShape(lim, env, start, data[offset..], take, header);
        stop, fatal := false, false;
      }
    }

    method CompleteHeader(env: Env, data: seq<byte>, offset: nat, used: nat, ghost start: Decoder)
      returns (take: nat, stop: bool, fatal: bool)
      requires Books() && |header| == 5 && payload.None? && payloadOffset == 0 && offset + used <= |data|
      requires start.WellFormed() && |start.header| < 5 && used == Min(5 - |start.header|, |data| - offset)
      requires header == start.header + data[offset..][..used] && Model() == start.(header := header)
      modifies this`header, this`payloadLen, this`payloadOffset, this`payload, this`messageCount
      modifies this`queue, this`queueCount, this`queueBytes, this`flags, this`discard
      ensures Valid() && offset + take <= |data| && (fatal ==> stop && env.resetFatal)
      ensures Turn(Model(), stop, take) == DecodeTurn(lim, env, start, data[offset..])
    {
      HeaderTurnShape(lim, env, start, data[offset..], used, header);
      CutSlice(data, offset, offset + used);
      var more;
      more, stop, fatal := HeaderDone(env, data, offset + used);
      take := used + more;
    }

    /** Takes over what the chunk has of the message header. */
    method CollectHeader(data: seq<byte>, offset: nat) returns (take: nat)
      requires |header| < 5 && offset < |data|
      modifies this`header
      ensures take == Min(5 - |old(header)|, |data| - offset)
      ensures header == old(header) + data[offset..][..take] && Model() == old(Model()).(header := header)
      ensures data[offset..][take..] == data[offset + take..]
    {
      var need := 5 - |header|;
      take := if need < |data| - offset then need else |data| - offset;
      CutSlice(data, offset, offset + take);
      header := header + data[offset..offset + take];
    }

    /** A loop turn, seen octet by octet: it makes progress and leaves the rest of the chunk to do. */
    method Advance(env: Env, data: seq<byte>, offset: nat) returns (next: nat, stop: bool, fatal: bool)
      requires Valid() && offset < |data|
      modifies this`header, this`payloadLen, this`payloadOffset, this`payload, this`messageCount
      modifies this`queue, this`queueCount, this`queueBytes, this`flags, this`discard
      ensures Valid() && offset < next <= |data| && (fatal ==> stop && env.resetFatal)
      ensures old(Model()).WellFormed() && Model().WellFormed()
      ensures Feed(lim, env, old(Model()), data[offset..]) == Resume(lim, env, (Model(), stop), data[next..])
    {
      ghost var start := Model();
      var take;
      take, stop, fatal := TakeTurn(env, data, offset);
      TurnAdvances(lim, env, start, data, offset, Turn(Model(), stop, take));
      next := offset + take;
    }

    method DecodeChunk(env: Env, data: seq<byte>) returns (fatal: bool)
      requires Valid()
      modifies this`header, this`payloadLen, this`payloadOffset, this`payload, this`messageCount
      modifies this`queue, this`queueCount, this`queueBytes, this`flags, this`discard
      ensures Valid() && (fatal ==> env.resetFatal)
      ensures old(Model()).WellFormed() && Model() == Feed(lim, env, old(Model()), data)
    {
      fatal := false;
      ghost var start := Model();
      var offset, stop := 0, false;
      assert data[0..] == data;
      while offset < |data| && !stop
        invariant Valid() && Model().WellFormed()
        invariant offset <= |data| && (fatal ==> env.resetFatal)
        invariant Feed(lim, env, start, data) == Resume(lim, env, (Model(), stop), data[offset..])
        decreases |data| - offset
      {
        offset, stop, fatal := Advance(env, data, offset);
      }
    }

    /** A DATA chunk on the direct path: the chunk is decoded unless a status or a failure came before. */
    method ProcessData(env: Env, data: seq<byte>) returns (fatal: bool)
      requires Valid() && data != []
      modifies this
      ensures Valid() && statusSeen == old(statusSeen) && (fatal ==> env.resetFatal)
      ensures statusSeen ==> invalidStatus && Model() == old(Model()).(discard := true)
      ensures !statusSeen ==>
                && invalidStatus == old(invalidStatus) && old(Model()).WellFormed()
                && Model() == OnData(lim, env, old(Model()), data)
    {
      fatal := false;
      if statusSeen {
        invalidStatus, discard := true, true;
        fatal := env.resetFatal;
      } else if !discard {
        fatal := DecodeChunk(env, data);
      }
    }
  }
}
