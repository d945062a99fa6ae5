/**
  The Length-Prefixed-Message framing of gRPC PROTOCOL-HTTP2 as a machine that
  takes one octet at a time.  The chunked loops of the transport are proved
  against it in `Decoder`.
 */
module Framing {
  import opened Bytes

  // ---------------------------------------------------------------- wire form

  /** Big-endian value of an octet string. */
  function Value(s: seq<byte>): nat {
    if s == [] then 0 else Value(s[..|s| - 1]) * 0x100 + s[|s| - 1] as int
  }

  /** The low `k` octets of `n`, most significant first. */
  function BigEndian(n: nat, k: nat): (s: seq<byte>)
    ensures |s| == k
  {
    if k == 0 then [] else BigEndian(n / 0x100, k - 1) + [n % 0x100]
  }

  function Span(k: nat): nat {
    if k == 0 then 1 else Span(k - 1) * 0x100
  }

  lemma {:induction false} ValueOfBigEndian(n: nat, k: nat)
    requires n < Span(k)
    ensures Value(BigEndian(n, k)) == n
  {
    if k > 0 {
      ValueOfBigEndian(n / 0x100, k - 1);
      var s := BigEndian(n, k);
      assert s[..k - 1] == BigEndian(n / 0x100, k - 1);
    }
  }

  lemma {:induction false} BigEndianOfValue(s: seq<byte>)
    ensures Value(s) < Span(|s|)
    ensures BigEndian(Value(s), |s|) == s
  {
    if s != [] {
      BigEndianOfValue(s[..|s| - 1]);
    }
  }

  /** The 32-bit length in octets 1..4 of a message header. */
  function LengthOf(header: seq<byte>): nat
    requires |header| == 5
  {
    header[1] as int * 0x100_0000 + header[2] as int * 0x1_0000 + header[3] as int * 0x100 + header[4] as int
  }

  /** The header written in front of an uncompressed message of `n` octets; the length is cut to 32 bits. */
  function MessageHeader(n: nat): (h: seq<byte>)
    ensures |h| == 5 && h[0] == 0
  {
    [0] + BigEndian(n, 4)
  }

  function Encode(m: Message): seq<byte> {
    MessageHeader(|m|) + m
  }

  function EncodeAll(ms: seq<Message>): seq<byte> {
    if ms == [] then [] else Encode(ms[0]) + EncodeAll(ms[1..])
  }

  predicate Fits(ms: seq<Message>) {
    forall i :: 0 <= i < |ms| ==> |ms[i]| < TWO_TO_THE_32
  }

  lemma LengthIsValue(h: seq<byte>)
    requires |h| == 5
    ensures LengthOf(h) == Value(h[1..])
  {
    var t := h[1..];
    assert t[..3] == h[1..4] && t[..3][..2] == h[1..3] && t[..3][..2][..1] == h[1..2];
    assert Value(t) == Value(t[..3]) * 0x100 + h[4];
    assert Value(t[..3]) == Value(h[1..3]) * 0x100 + h[3];
    assert Value(h[1..3]) == Value(h[1..2]) * 0x100 + h[2];
    assert Value(h[1..2]) == h[1];
  }

  lemma HeaderCarriesLength(n: nat)
    requires n < TWO_TO_THE_32
    ensures LengthOf(MessageHeader(n)) == n
  {
    assert Span(4) == TWO_TO_THE_32;
    ValueOfBigEndian(n, 4);
    LengthIsValue(MessageHeader(n));
    assert MessageHeader(n)[1..] == BigEndian(n, 4);
  }

  lemma LengthNamesHeader(h: seq<byte>)
    requires |h| == 5 && h[0] == 0
    ensures LengthOf(h) < TWO_TO_THE_32
    ensures h == MessageHeader(LengthOf(h))
  {
    assert Span(4) == TWO_TO_THE_32;
    LengthIsValue(h);
    BigEndianOfValue(h[1..]);
  }

  lemma {:induction false} EncodeAllAppend(ms: seq<Message>, m: Message)
    ensures EncodeAll(ms + [m]) == EncodeAll(ms) + Encode(m)
  {
    if ms == [] {
      assert ms + [m] == [m];
    } else {
      assert (ms + [m])[1..] == ms[1..] + [m];
      EncodeAllAppend(ms[1..], m);
    }
  }

  // ---------------------------------------------------- whole-body reference

  predicate WholeMessage(body: seq<byte>) {
    |body| >= 5 && LengthOf(body[..5]) <= |body| - 5
  }

  function FirstMessage(body: seq<byte>): Message
    requires WholeMessage(body)
  {
    body[5..5 + LengthOf(body[..5])]
  }

  function BehindFirst(body: seq<byte>): (rest: seq<byte>)
    requires WholeMessage(body)
    ensures |rest| < |body|
  {
    body[5 + LengthOf(body[..5])..]
  }

  /** The messages that lie whole at the front of a body. */
  function Messages(body: seq<byte>): seq<Message>
    decreases |body|
  {
    if WholeMessage(body) then [FirstMessage(body)] + Messages(BehindFirst(body)) else []
  }

  /** What is left behind the last whole message. */
  function Remainder(body: seq<byte>): seq<byte>
    decreases |body|
  {
    if WholeMessage(body) then Remainder(BehindFirst(body)) else body
  }

  lemma EncodedFirst(m: Message, rest: seq<byte>)
    requires |m| < TWO_TO_THE_32
    ensures WholeMessage(Encode(m) + rest)
    ensures FirstMessage(Encode(m) + rest) == m && BehindFirst(Encode(m) + rest) == rest
  {
    var body := Encode(m) + rest;
    HeaderCarriesLength(|m|);
    assert body[..5] == MessageHeader(|m|);
  }

  lemma {:induction false} ParseEncoded(ms: seq<Message>, tail: seq<byte>)
    requires Fits(ms)
    ensures Messages(EncodeAll(ms) + tail) == ms + Messages(tail)
    ensures Remainder(EncodeAll(ms) + tail) == Remainder(tail)
  {
    if ms == [] {
      assert EncodeAll(ms) + tail == tail;
    } else {
      var m, rest := ms[0], EncodeAll(ms[1..]) + tail;
      ParseEncoded(ms[1..], tail);
      EncodedFirst(m, rest);
      ConcatAssociative(Encode(m), EncodeAll(ms[1..]), tail);
      ConsConcat(ms, Messages(tail));
    }
  }

  /** Whatever is encoded at the front of a byte string stays the front of its messages. */
  lemma EncodedPrefixParses(ms: seq<Message>, body: seq<byte>)
    requires Fits(ms) && EncodeAll(ms) <= body
    ensures ms <= Messages(body)
  {
    var tail := body[|EncodeAll(ms)|..];
    assert body == EncodeAll(ms) + tail;
    ParseEncoded(ms, tail);
  }

  // ------------------------------------------------------------ decoder state

  /** `maxMessages == 0` means unlimited; the read-ahead bounds apply only under a foreign reader. */
  datatype Limits = Limits(maxMessages: nat, maxMessageBytes: nat, readAheadMessages: nat, readAheadBytes: nat)

  /** What the surroundings contribute to one DATA chunk: whether another call is driving
      the socket, whether submitting RST_STREAM fails fatally, and whether the response
      declared a grpc-encoding other than identity. */
  datatype Env = Env(foreignReader: bool, resetFatal: bool, foreignEncoding: bool)

  datatype Flags = Flags(
    tooLarge: bool, malformed: bool, compressed: bool, unsupportedEncoding: bool, queueLimit: bool)
  {
    predicate Any() {
      tooLarge || malformed || compressed || unsupportedEncoding || queueLimit
    }
  }

  datatype Decoder = Decoder(
    header: seq<byte>, payload: seq<byte>, count: nat, queue: seq<Message>, flags: Flags, discard: bool)
  {
    predicate WellFormed() {
      && |header| <= 5
      && (|header| < 5 ==> payload == [])
      && (|header| == 5 ==> header[0] == 0 && |payload| < LengthOf(header))
      && (flags.Any() ==> discard)
    }

    predicate MidMessage() {
      header != []
    }

    /** The octets the decoder accounts for: what is queued, then what is still incomplete. */
    function Image(): seq<byte> {
      EncodeAll(queue) + (header + payload)
    }
  }

  /** What a decoder holds of an incomplete message is no message. */
  lemma PartialIsNoMessage(d: Decoder)
    requires d.WellFormed()
    ensures !WholeMessage(d.header + d.payload) && Messages(d.header + d.payload) == []
  {
    if |d.header| == 5 {
      assert (d.header + d.payload)[..5] == d.header;
    }
  }

  const CLEAR: Flags := Flags(false, false, false, false, false)
  const FRESH: Decoder := Decoder([], [], 0, [], CLEAR, false)

  predicate LimitWouldExceed(lim: Limits, env: Env, queue: seq<Message>, n: nat) {
    env.foreignReader
    && (|queue| >= lim.readAheadMessages || n > lim.readAheadBytes
        || TotalSize(queue) > lim.readAheadBytes - n)
  }

  /** The second component says whether the rest of the chunk is left unread. */
  function Enqueue(lim: Limits, env: Env, d: Decoder, m: Message): (Decoder, bool) {
    if LimitWouldExceed(lim, env, d.queue, |m|) then
      (Decoder([], [], d.count, d.queue, d.flags.(queueLimit := true), true), env.resetFatal)
    else
      (Decoder([], [], d.count, d.queue + [m], d.flags, d.discard), false)
  }

  /** The policy verdict on a complete header; a read-ahead stop is not among them. */
  function HeaderVerdict(lim: Limits, env: Env, flags: Flags, count: nat, header: seq<byte>): Flags
    requires |header| == 5
  {
    if lim.maxMessages > 0 && count > lim.maxMessages then flags.(malformed := true)
    else if LengthOf(header) > lim.maxMessageBytes then flags.(tooLarge := true)
    else if header[0] > 1 then flags.(malformed := true)
    else if header[0] == 1 then
      if env.foreignEncoding then flags.(unsupportedEncoding := true) else flags.(compressed := true)
    else flags
  }

  /** Whether `HeaderVerdict` lets the message in. */
  predicate Admitted(lim: Limits, count: nat, header: seq<byte>)
    requires |header| == 5
  {
    && (lim.maxMessages > 0 ==> count <= lim.maxMessages)
    && LengthOf(header) <= lim.maxMessageBytes
    && header[0] == 0
  }

  function OnHeader(lim: Limits, env: Env, d: Decoder, header: seq<byte>): (Decoder, bool)
    requires |header| == 5
  {
    var count := if lim.maxMessages > 0 then d.count + 1 else d.count;
    if !Admitted(lim, count, header) then
      (Decoder([], [], count, d.queue, HeaderVerdict(lim, env, d.flags, count, header), true), true)
    else if LimitWouldExceed(lim, env, d.queue, LengthOf(header)) then
      (Decoder([], [], count, d.queue, d.flags.(queueLimit := true), true), true)
    else if LengthOf(header) == 0 then
      Enqueue(lim, env, d.(count := count), [])
    else
      (Decoder(header, [], count, d.queue, d.flags, d.discard), false)
  }

  function Step(lim: Limits, env: Env, d: Decoder, b: byte): (Decoder, bool)
    requires d.WellFormed()
  {
    if |d.header| < 4 then (d.(header := d.header + [b]), false)
    else if |d.header| == 4 then OnHeader(lim, env, d, d.header + [b])
    else if |d.payload| + 1 < LengthOf(d.header) then (d.(payload := d.payload + [b]), false)
    else Enqueue(lim, env, d, d.payload + [b])
  }

  lemma StepWellFormed(lim: Limits, env: Env, d: Decoder, b: byte)
    requires d.WellFormed()
    ensures Step(lim, env, d, b).0.WellFormed()
    ensures !env.foreignReader && !d.discard ==>
              (Step(lim, env, d, b).1 <==> Step(lim, env, d, b).0.discard)
  {
  }

  function Feed(lim: Limits, env: Env, d: Decoder, bytes: seq<byte>): Decoder
    requires d.WellFormed()
    decreases |bytes|
  {
    if bytes == [] then d
    else
      var (next, stop) := Step(lim, env, d, bytes[0]);
      StepWellFormed(lim, env, d, bytes[0]);
      if stop then next else Feed(lim, env, next, bytes[1..])
  }

  /** One DATA chunk handed to the direct decoder before any grpc-status was seen. */
  function OnData(lim: Limits, env: Env, d: Decoder, chunk: seq<byte>): Decoder
    requires d.WellFormed()
  {
    if d.discard then d else Feed(lim, env, d, chunk)
  }

  lemma {:induction false} FeedWellFormed(lim: Limits, env: Env, d: Decoder, bytes: seq<byte>)
    requires d.WellFormed()
    ensures Feed(lim, env, d, bytes).WellFormed()
    decreases |bytes|
  {
    if bytes != [] {
      StepWellFormed(lim, env, d, bytes[0]);
      var (next, stop) := Step(lim, env, d, bytes[0]);
      if !stop {
        FeedWellFormed(lim, env, next, bytes[1..]);
      }
    }
  }

  lemma OnDataWellFormed(lim: Limits, env: Env, d: Decoder, chunk: seq<byte>)
    requires d.WellFormed()
    ensures OnData(lim, env, d, chunk).WellFormed()
  {
    FeedWellFormed(lim, env, d, chunk);
  }

  function OnChunks(lim: Limits, env: Env, d: Decoder, chunks: seq<seq<byte>>): Decoder
    requires d.WellFormed()
    decreases |chunks|
  {
    if chunks == [] then d
    else
      OnDataWellFormed(lim, env, d, chunks[0]);
      OnChunks(lim, env, OnData(lim, env, d, chunks[0]), chunks[1..])
  }

  // -------------------------------------------------- chunking does not matter

  lemma {:induction false} FeedSplit(lim: Limits, env: Env, d: Decoder, a: seq<byte>, b: seq<byte>)
    requires d.WellFormed() && !env.foreignReader && !d.discard
    ensures Feed(lim, env, d, a).WellFormed()
    ensures Feed(lim, env, d, a + b) ==
            if Feed(lim, env, d, a).discard then Feed(lim, env, d, a) else Feed(lim, env, Feed(lim, env, d, a), b)
    decreases |a|
  {
    FeedWellFormed(lim, env, d, a);
    if a == [] {
      assert a + b == b;
    } else {
      StepWellFormed(lim, env, d, a[0]);
      var (next, stop) := Step(lim, env, d, a[0]);
      assert (a + b)[0] == a[0] && (a + b)[1..] == a[1..] + b;
      if !stop {
        FeedSplit(lim, env, next, a[1..], b);
      }
    }
  }

  /** While the stream is the one being read, any way of cutting its bytes into
      chunks ends in the state that one single chunk ends in. */
  lemma {:induction false} ChunkingIrrelevant(lim: Limits, env: Env, d: Decoder, chunks: seq<seq<byte>>)
    requires d.WellFormed() && !env.foreignReader
    ensures OnChunks(lim, env, d, chunks) == OnData(lim, env, d, Flatten(chunks))
    decreases |chunks|
  {
    if chunks != [] {
      OnDataWellFormed(lim, env, d, chunks[0]);
      ChunkingIrrelevant(lim, env, OnData(lim, env, d, chunks[0]), chunks[1..]);
      if !d.discard {
        FeedSplit(lim, env, d, chunks[0], Flatten(chunks[1..]));
      }
    }
  }

  // ------------------------------------------------------- nothing is lost

  lemma StepImage(lim: Limits, env: Env, d: Decoder, b: byte)
    requires d.WellFormed() && !d.discard
    ensures var (next, _) := Step(lim, env, d, b);
            && (!next.discard ==> next.Image() == d.Image() + [b])
            && (next.discard ==> next.queue == d.queue)
  {
    var (next, _) := Step(lim, env, d, b);
    if next.discard {
    } else if |d.header| < 4 || (|d.header| == 5 && |d.payload| + 1 < LengthOf(d.header)) {
      assert next.header + next.payload == d.header + d.payload + [b];
    } else if |d.header| == 4 {
      HeaderImage(lim, env, d, b);
    } else {
      PayloadImage(lim, env, d, b);
    }
  }

  lemma HeaderImage(lim: Limits, env: Env, d: Decoder, b: byte)
    requires d.WellFormed() && !d.discard && |d.header| == 4
    ensures var next := Step(lim, env, d, b).0;
            !next.discard ==> next.Image() == d.Image() + [b]
  {
    var next, h := Step(lim, env, d, b).0, d.header + [b];
    assert d.header + d.payload + [b] == h;
    if !next.discard {
      if LengthOf(h) == 0 {
        LengthNamesHeader(h);
        EncodeAllAppend(d.queue, []);
        assert Encode([]) == h;
      } else {
        assert next.header + next.payload == h;
      }
    }
  }

  lemma PayloadImage(lim: Limits, env: Env, d: Decoder, b: byte)
    requires d.WellFormed() && !d.discard && |d.header| == 5 && |d.payload| + 1 == LengthOf(d.header)
    ensures var next := Step(lim, env, d, b).0;
            !next.discard ==> next.Image() == d.Image() + [b]
  {
    var m := d.payload + [b];
    LengthNamesHeader(d.header);
    EncodeAllAppend(d.queue, m);
    assert Encode(m) == d.header + d.payload + [b];
  }

  /** Unless a message was dropped for read-ahead, the queue is a front part of
      the bytes seen; without any failure, queue and partial message are exactly those bytes. */
  lemma {:induction false} FeedImage(lim: Limits, env: Env, d: Decoder, bytes: seq<byte>)
    requires d.WellFormed() && !d.discard
    ensures var r := Feed(lim, env, d, bytes);
            && (!r.discard ==> r.Image() == d.Image() + bytes)
            && (!r.flags.queueLimit ==> EncodeAll(r.queue) <= d.Image() + bytes)
    decreases |bytes|
  {
    if bytes == [] {
      assert d.Image() + bytes == d.Image();
    } else {
      StepWellFormed(lim, env, d, bytes[0]);
      StepImage(lim, env, d, bytes[0]);
      var (next, stop) := Step(lim, env, d, bytes[0]);
      assert d.Image() + bytes == (d.Image() + [bytes[0]]) + bytes[1..];
      if !next.discard {
        FeedImage(lim, env, next, bytes[1..]);
      } else if !stop {
        QueueLimitStays(lim, env, next, bytes[1..]);
      }
    }
  }

  lemma {:induction false} QueueLimitStays(lim: Limits, env: Env, d: Decoder, bytes: seq<byte>)
    requires d.WellFormed() && d.flags.queueLimit
    ensures Feed(lim, env, d, bytes).flags.queueLimit && Feed(lim, env, d, bytes).discard
    decreases |bytes|
  {
    if bytes != [] {
      StepWellFormed(lim, env, d, bytes[0]);
      var (next, stop) := Step(lim, env, d, bytes[0]);
      if !stop {
        QueueLimitStays(lim, env, next, bytes[1..]);
      }
    }
  }

  // ------------------------------------------------ runs of octets at once

  /** Goes on with the rest of a chunk unless the last octet ended it. */
  function Resume(lim: Limits, env: Env, r: (Decoder, bool), rest: seq<byte>): Decoder
    requires r.0.WellFormed()
  {
    if r.1 then r.0 else Feed(lim, env, r.0, rest)
  }

  lemma {:induction false} FeedHeaderRun(lim: Limits, env: Env, d: Decoder, bytes: seq<byte>, k: nat)
    requires d.WellFormed() && k <= |bytes| && |d.header| + k <= 4
    ensures Feed(lim, env, d, bytes) == Feed(lim, env, d.(header := d.header + bytes[..k]), bytes[k..])
    decreases k
  {
    if k == 0 {
      assert d.header + bytes[..0] == d.header && bytes[0..] == bytes;
    } else {
      var next := d.(header := d.header + [bytes[0]]);
      FeedHeaderRun(lim, env, next, bytes[1..], k - 1);
      assert next.header + bytes[1..][..k - 1] == d.header + bytes[..k];
      assert bytes[1..][k - 1..] == bytes[k..];
    }
  }

  lemma OnHeaderWellFormed(lim: Limits, env: Env, d: Decoder, h: seq<byte>)
    requires d.WellFormed() && |d.header| < 5 && |h| == 5
    ensures OnHeader(lim, env, d, h).0.WellFormed()
  {
  }

  lemma FeedHeaderEnd(lim: Limits, env: Env, d: Decoder, bytes: seq<byte>, k: nat)
    requires d.WellFormed() && 0 < k <= |bytes| && |d.header| + k == 5
    ensures OnHeader(lim, env, d, d.header + bytes[..k]).0.WellFormed()
    ensures Feed(lim, env, d, bytes) ==
            Resume(lim, env, OnHeader(lim, env, d, d.header + bytes[..k]), bytes[k..])
  {
    var h := d.header + bytes[..k];
    OnHeaderWellFormed(lim, env, d, h);
    FeedHeaderRun(lim, env, d, bytes, k - 1);
    var four := d.(header := d.header + bytes[..k - 1]);
    assert four.header + [bytes[k - 1]] == h;
    assert bytes[k - 1..][1..] == bytes[k..];
    assert OnHeader(lim, env, four, h) == OnHeader(lim, env, d, h);
  }

  lemma {:induction false} FeedPayloadRun(lim: Limits, env: Env, d: Decoder, bytes: seq<byte>, k: nat)
    requires d.WellFormed() && k <= |bytes| && |d.header| == 5 && |d.payload| + k < LengthOf(d.header)
    ensures Feed(lim, env, d, bytes) == Feed(lim, env, d.(payload := d.payload + bytes[..k]), bytes[k..])
    decreases k
  {
    if k == 0 {
      assert d.payload + bytes[..0] == d.payload && bytes[0..] == bytes;
    } else {
      var next := d.(payload := d.payload + [bytes[0]]);
      FeedPayloadRun(lim, env, next, bytes[1..], k - 1);
      assert next.payload + bytes[1..][..k - 1] == d.payload + bytes[..k];
      assert bytes[1..][k - 1..] == bytes[k..];
    }
  }

  lemma FeedPayloadEnd(lim: Limits, env: Env, d: Decoder, bytes: seq<byte>, k: nat)
    requires d.WellFormed() && 0 < k <= |bytes| && |d.header| == 5 && |d.payload| + k == LengthOf(d.header)
    ensures Enqueue(lim, env, d, d.payload + bytes[..k]).0.WellFormed()
    ensures Feed(lim, env, d, bytes) ==
            Resume(lim, env, Enqueue(lim, env, d, d.payload + bytes[..k]), bytes[k..])
  {
    FeedPayloadRun(lim, env, d, bytes, k - 1);
    var last := d.(payload := d.payload + bytes[..k - 1]);
    assert last.payload + [bytes[k - 1]] == d.payload + bytes[..k];
    assert bytes[k - 1..][1..] == bytes[k..];
    assert Enqueue(lim, env, last, d.payload + bytes[..k]) == Enqueue(lim, env, d, d.payload + bytes[..k]);
  }

  // ------------------------------------------------- one turn of a chunk loop

  /** A chunk loop works in turns; `used` octets of what is left of the chunk go into one. */
  datatype Turn = Turn(decoder: Decoder, stop: bool, used: nat)

  function Counted(lim: Limits, d: Decoder): Decoder {
    if lim.maxMessages > 0 then d.(count := d.count + 1) else d
  }

  function PayloadTurn(lim: Limits, env: Env, d: Decoder, rest: seq<byte>): Turn
    requires |d.header| == 5 && |d.payload| <= LengthOf(d.header)
  {
    var used := Min(LengthOf(d.header) - |d.payload|, |rest|);
    var got := d.payload + rest[..used];
    if |got| == LengthOf(d.header) then
      var (next, stop) := Enqueue(lim, env, d, got);
      Turn(next, stop, used)
    else
      Turn(d.(payload := got), false, used)
  }

  function HeaderDoneTurn(lim: Limits, env: Env, d: Decoder, h: seq<byte>, rest: seq<byte>): Turn
    requires |h| == 5 && d.payload == []
  {
    var counted := Counted(lim, d);
    if Admitted(lim, counted.count, h) && !LimitWouldExceed(lim, env, d.queue, LengthOf(h)) then
      PayloadTurn(lim, env, counted.(header := h), rest)
    else
      Turn(OnHeader(lim, env, d, h).0, true, 0)
  }

  /** The octets already collected of the header do not matter once it is given whole. */
  lemma HeaderDoneIgnores(lim: Limits, env: Env, d: Decoder, h: seq<byte>, rest: seq<byte>)
    requires |h| == 5 && d.payload == []
    ensures HeaderDoneTurn(lim, env, d.(header := h), h, rest) == HeaderDoneTurn(lim, env, d, h, rest)
  {
  }

  function DecodeTurn(lim: Limits, env: Env, d: Decoder, rest: seq<byte>): Turn
    requires d.WellFormed()
  {
    if |d.header| == 5 then PayloadTurn(lim, env, d, rest)
    else
      var used := Min(5 - |d.header|, |rest|);
      var h := d.header + rest[..used];
      if |h| < 5 then Turn(d.(header := h), false, used)
      else
        var t := HeaderDoneTurn(lim, env, d, h, rest[used..]);
        t.(used := used + t.used)
  }

  /** A turn that begins inside a header, by the header `h` it arrives at. */
  lemma HeaderTurnShape(lim: Limits, env: Env, d: Decoder, rest: seq<byte>, used: nat, h: seq<byte>)
    requires d.WellFormed() && |d.header| < 5 && used == Min(5 - |d.header|, |rest|) && h == d.header + rest[..used]
    ensures |h| < 5 ==> DecodeTurn(lim, env, d, rest) == Turn(d.(header := h), false, used)
    ensures |h| == 5 ==>
              && var t := HeaderDoneTurn(lim, env, d.(header := h), h, rest[used..]);
              && DecodeTurn(lim, env, d, rest) == t.(used := used + t.used)
  {
    if |h| == 5 {
      HeaderDoneIgnores(lim, env, d, h, rest[used..]);
    }
  }

  lemma PayloadTurnFeeds(lim: Limits, env: Env, d: Decoder, rest: seq<byte>)
    requires d.WellFormed() && |d.header| == 5
    ensures var t := PayloadTurn(lim, env, d, rest);
            && t.decoder.WellFormed() && t.used <= |rest| && (rest != [] ==> 0 < t.used)
            && Feed(lim, env, d, rest) == Resume(lim, env, (t.decoder, t.stop), rest[t.used..])
  {
    var t := PayloadTurn(lim, env, d, rest);
    if |d.payload| + t.used < LengthOf(d.header) {
      FeedPayloadRun(lim, env, d, rest, t.used);
    } else {
      FeedPayloadEnd(lim, env, d, rest, t.used);
    }
  }

  lemma HeaderDoneFeeds(lim: Limits, env: Env, d: Decoder, h: seq<byte>, rest: seq<byte>)
    requires d.WellFormed() && |d.header| < 5 && |h| == 5
    ensures var t := HeaderDoneTurn(lim, env, d, h, rest);
            && OnHeader(lim, env, d, h).0.WellFormed() && t.decoder.WellFormed() && t.used <= |rest|
            && Resume(lim, env, OnHeader(lim, env, d, h), rest) ==
               Resume(lim, env, (t.decoder, t.stop), rest[t.used..])
  {
    OnHeaderWellFormed(lim, env, d, h);
    var begun := Counted(lim, d).(header := h);
    if Admitted(lim, begun.count, h) && !LimitWouldExceed(lim, env, d.queue, LengthOf(h)) {
      if LengthOf(h) > 0 {
        assert OnHeader(lim, env, d, h) == (begun, false);
        PayloadTurnFeeds(lim, env, begun, rest);
      } else {
        assert [] + rest[..0] == [] && rest[0..] == rest;
      }
    }
  }

  lemma HeaderTurnFeeds(lim: Limits, env: Env, d: Decoder, rest: seq<byte>, used: nat)
    requires d.WellFormed() && 0 < used <= |rest| && |d.header| + used == 5
    ensures var t := HeaderDoneTurn(lim, env, d, d.header + rest[..used], rest[used..]);
            && t.decoder.WellFormed() && used + t.used <= |rest|
            && Feed(lim, env, d, rest) == Resume(lim, env, (t.decoder, t.stop), rest[used + t.used..])
  {
    var h, more := d.header + rest[..used], rest[used..];
    FeedHeaderEnd(lim, env, d, rest, used);
    HeaderDoneFeeds(lim, env, d, h, more);
    var t := HeaderDoneTurn(lim, env, d, h, more);
    assert more[t.used..] == rest[used + t.used..];
  }

  /** A turn does to the decoder what its octets, one by one, would have done; and it uses at least one. */
  lemma DecodeTurnFeeds(lim: Limits, env: Env, d: Decoder, rest: seq<byte>)
    requires d.WellFormed()
    ensures var t := DecodeTurn(lim, env, d, rest);
            && t.decoder.WellFormed() && t.used <= |rest| && (rest != [] ==> 0 < t.used)
            && Feed(lim, env, d, rest) == Resume(lim, env, (t.decoder, t.stop), rest[t.used..])
  {
    if |d.header| == 5 {
      PayloadTurnFeeds(lim, env, d, rest);
    } else {
      var used := Min(5 - |d.header|, |rest|);
      if |d.header| + used < 5 {
        FeedHeaderRun(lim, env, d, rest, used);
      } else {
        HeaderTurnFeeds(lim, env, d, rest, used);
      }
    }
  }

  // --------------------------------------------------- decoding is exact

  /** A turn at `offset` of a chunk makes progress and leaves the rest of the chunk to do. */
  lemma TurnAdvances(lim: Limits, env: Env, d: Decoder, data: seq<byte>, offset: nat, t: Turn)
    requires d.WellFormed() && offset < |data| && t == DecodeTurn(lim, env, d, data[offset..])
    ensures t.decoder.WellFormed() && 0 < t.used <= |data| - offset
    ensures Feed(lim, env, d, data[offset..]) == Resume(lim, env, (t.decoder, t.stop), data[offset + t.used..])
  {
    DecodeTurnFeeds(lim, env, d, data[offset..]);
    CutSlice(data, offset, offset + t.used);
  }

  /** The message lists the limits let through. */
  predicate Acceptable(lim: Limits, ms: seq<Message>) {
    && Fits(ms)
    && (forall i :: 0 <= i < |ms| ==> |ms[i]| <= lim.maxMessageBytes)
    && (lim.maxMessages > 0 ==> |ms| <= lim.maxMessages)
  }

  /** A decoder from which nothing has been taken yet. */
  predicate Untouched(lim: Limits, d: Decoder) {
    && d.WellFormed() && !d.discard
    && d.count == (if lim.maxMessages == 0 then 0 else |d.queue| + if |d.header| == 5 then 1 else 0)
    && (|d.header| == 5 ==> Admitted(lim, d.count, d.header))
    && Acceptable(lim, d.queue)
  }

  lemma StepUntouched(lim: Limits, env: Env, d: Decoder, b: byte)
    requires Untouched(lim, d) && !Step(lim, env, d, b).0.discard
    ensures Untouched(lim, Step(lim, env, d, b).0)
  {
    StepWellFormed(lim, env, d, b);
    if |d.header| == 5 {
      LengthNamesHeader(d.header);
    }
  }

  lemma {:induction false} FeedUntouched(lim: Limits, env: Env, d: Decoder, bytes: seq<byte>)
    requires Untouched(lim, d) && !env.foreignReader && !Feed(lim, env, d, bytes).discard
    ensures Untouched(lim, Feed(lim, env, d, bytes))
    decreases |bytes|
  {
    if bytes != [] {
      StepWellFormed(lim, env, d, bytes[0]);
      StepUntouched(lim, env, d, bytes[0]);
      FeedUntouched(lim, env, Step(lim, env, d, bytes[0]).0, bytes[1..]);
    }
  }

  lemma AdmittedHeader(lim: Limits, env: Env, d: Decoder, h: seq<byte>)
    requires d.WellFormed() && d.header == [] && |h| == 5 && !LimitWouldExceed(lim, env, d.queue, LengthOf(h))
    requires Admitted(lim, Counted(lim, d).count, h)
    ensures LengthOf(h) == 0 ==>
              OnHeader(lim, env, d, h) == (Counted(lim, d).(queue := d.queue + [[]]), false)
    ensures LengthOf(h) > 0 ==>
              OnHeader(lim, env, d, h) == (Counted(lim, d).(header := h), false)
  {
  }

  lemma FeedFrame(lim: Limits, env: Env, d: Decoder, h: seq<byte>, m: Message, rest: seq<byte>)
    requires d.WellFormed() && d.header == [] && |h| == 5 && LengthOf(h) == |m|
    requires !LimitWouldExceed(lim, env, d.queue, |m|)
    requires Admitted(lim, Counted(lim, d).count, h)
    ensures Feed(lim, env, d, h + (m + rest)) == Feed(lim, env, Counted(lim, d).(queue := d.queue + [m]), rest)
  {
    AdmittedHeader(lim, env, d, h);
    FeedHeader(lim, env, d, h, m + rest);
    if m == [] {
      assert m + rest == rest;
    } else {
      FeedBody(lim, env, Counted(lim, d).(header := h), m, rest);
    }
  }

  lemma FeedHeader(lim: Limits, env: Env, d: Decoder, h: seq<byte>, rest: seq<byte>)
    requires d.WellFormed() && d.header == [] && |h| == 5
    ensures OnHeader(lim, env, d, h).0.WellFormed()
    ensures Feed(lim, env, d, h + rest) == Resume(lim, env, OnHeader(lim, env, d, h), rest)
  {
    CutConcat(h, rest);
    FeedHeaderEnd(lim, env, d, h + rest, 5);
    assert [] + h == h;
  }

  lemma FeedBody(lim: Limits, env: Env, d: Decoder, m: Message, rest: seq<byte>)
    requires d.WellFormed() && |d.header| == 5 && d.payload == [] && LengthOf(d.header) == |m| > 0
    requires !LimitWouldExceed(lim, env, d.queue, |m|)
    ensures Feed(lim, env, d, m + rest) == Feed(lim, env, d.(header := [], queue := d.queue + [m]), rest)
  {
    CutConcat(m, rest);
    FeedPayloadEnd(lim, env, d, m + rest, |m|);
    assert [] + m == m;
  }

  /** The messages may be sent one after the other to an idle decoder, read-ahead aside. */
  predicate Sendable(lim: Limits, d: Decoder, ms: seq<Message>) {
    && Fits(ms) && (forall i :: 0 <= i < |ms| ==> |ms[i]| <= lim.maxMessageBytes)
    && (lim.maxMessages > 0 ==> d.count + |ms| <= lim.maxMessages)
  }

  /** The decoder after these messages, none of them dropped. */
  function Queued(lim: Limits, d: Decoder, ms: seq<Message>): Decoder {
    d.(count := if lim.maxMessages > 0 then d.count + |ms| else d.count, queue := d.queue + ms)
  }

  lemma FeedOne(lim: Limits, env: Env, d: Decoder, ms: seq<Message>)
    requires d.WellFormed() && d.header == [] && ms != [] && Sendable(lim, d, ms)
    requires !LimitWouldExceed(lim, env, d.queue, |ms[0]|)
    ensures Feed(lim, env, d, EncodeAll(ms)) ==
            Feed(lim, env, Counted(lim, d).(queue := d.queue + [ms[0]]), EncodeAll(ms[1..]))
  {
    var m := ms[0];
    HeaderCarriesLength(|m|);
    ConcatAssociative(MessageHeader(|m|), m, EncodeAll(ms[1..]));
    FeedFrame(lim, env, d, MessageHeader(|m|), m, EncodeAll(ms[1..]));
  }

  /** Messages that fit the read-ahead bounds, or come in on the stream's own read, all get queued. */
  lemma {:induction false} FeedEncoded(lim: Limits, env: Env, d: Decoder, ms: seq<Message>)
    requires d.WellFormed() && d.header == [] && Sendable(lim, d, ms)
    requires env.foreignReader && ms != [] ==> WithinReadAhead(lim, d.queue + ms)
    ensures Feed(lim, env, d, EncodeAll(ms)) == Queued(lim, d, ms)
    decreases |ms|
  {
    if ms == [] {
      assert d.queue + ms == d.queue;
    } else {
      var next := Counted(lim, d).(queue := d.queue + [ms[0]]);
      assert next.queue + ms[1..] == d.queue + ms;
      DroppedExactly(lim, env, d.queue, ms[0]);
      if env.foreignReader {
        WithinPrefix(lim, next.queue, ms[1..]);
      }
      FeedOne(lim, env, d, ms);
      FeedEncoded(lim, env, next, ms[1..]);
    }
  }

  /** The chunked decoder, on the stream being read, ends idle and unfailed with the messages
      `ms` exactly when the bytes are the encoding of `ms` and the limits admit `ms`. */
  lemma DecodesExactly(lim: Limits, env: Env, chunks: seq<seq<byte>>, ms: seq<Message>)
    requires !env.foreignReader
    ensures var d := OnChunks(lim, env, FRESH, chunks);
            (!d.discard && !d.MidMessage() && d.queue == ms)
            <==> (Flatten(chunks) == EncodeAll(ms) && Acceptable(lim, ms))
  {
    ChunkingIrrelevant(lim, env, FRESH, chunks);
    DecodedIsEncoded(lim, env, Flatten(chunks));
    if Flatten(chunks) == EncodeAll(ms) && Acceptable(lim, ms) {
      EncodedIsDecoded(lim, env, ms);
    }
  }

  lemma DecodedIsEncoded(lim: Limits, env: Env, bytes: seq<byte>)
    requires !env.foreignReader
    ensures var d := Feed(lim, env, FRESH, bytes);
            !d.discard && !d.MidMessage() ==> bytes == EncodeAll(d.queue) && Acceptable(lim, d.queue)
  {
    var d := Feed(lim, env, FRESH, bytes);
    if !d.discard && !d.MidMessage() {
      FeedImage(lim, env, FRESH, bytes);
      FeedUntouched(lim, env, FRESH, bytes);
      assert [] + bytes == bytes;
      IdleImage(FRESH);
      IdleImage(d);
    }
  }

  lemma IdleImage(d: Decoder)
    requires d.WellFormed() && !d.MidMessage()
    ensures d.Image() == EncodeAll(d.queue)
  {
  }

  lemma EncodedIsDecoded(lim: Limits, env: Env, ms: seq<Message>)
    requires !env.foreignReader && Acceptable(lim, ms)
    ensures var d := Feed(lim, env, FRESH, EncodeAll(ms));
            !d.discard && !d.MidMessage() && d.queue == ms
  {
    FeedEncoded(lim, env, FRESH, ms);
    assert FRESH.queue + ms == ms;
  }

  // ------------------------------------------------------------- read-ahead

  predicate WithinReadAhead(lim: Limits, queue: seq<Message>) {
    |queue| <= lim.readAheadMessages && TotalSize(queue) <= lim.readAheadBytes
  }

  lemma {:induction false} TotalSizeConcat(a: seq<Message>, b: seq<Message>)
    ensures TotalSize(a + b) == TotalSize(a) + TotalSize(b)
  {
    if a == [] {
      assert a + b == b;
    } else {
      assert (a + b)[1..] == a[1..] + b;
      TotalSizeConcat(a[1..], b);
    }
  }

  lemma WithinPrefix(lim: Limits, a: seq<Message>, b: seq<Message>)
    requires WithinReadAhead(lim, a + b)
    ensures WithinReadAhead(lim, a)
  {
    TotalSizeConcat(a, b);
  }

  /** A message is dropped exactly if another call reads and the queue with it would be over a bound. */
  lemma DroppedExactly(lim: Limits, env: Env, queue: seq<Message>, m: Message)
    ensures LimitWouldExceed(lim, env, queue, |m|) <==> env.foreignReader && !WithinReadAhead(lim, queue + [m])
  {
    TotalSizeAppend(queue, m);
  }

  /** What another call reads for a stream is queued as if the stream had read it itself, if and
      only if the queue stays within both bounds; otherwise the queue limit is raised. */
  lemma {:induction false} ForeignReadExactly(lim: Limits, env: Env, d: Decoder, ms: seq<Message>)
    requires d.WellFormed() && !d.discard && d.header == [] && Sendable(lim, d, ms) && ms != [] && env.foreignReader
    ensures var r, own := Feed(lim, env, d, EncodeAll(ms)), Feed(lim, env.(foreignReader := false), d, EncodeAll(ms));
            && (r == own <==> WithinReadAhead(lim, d.queue + ms))
            && (r.flags.queueLimit <==> !WithinReadAhead(lim, d.queue + ms))
    decreases |ms|
  {
    FeedEncoded(lim, env.(foreignReader := false), d, ms);
    if WithinReadAhead(lim, d.queue + ms) {
      FeedEncoded(lim, env, d, ms);
    } else {
      DroppedExactly(lim, env, d.queue, ms[0]);
      if WithinReadAhead(lim, d.queue + [ms[0]]) {
        var next := Counted(lim, d).(queue := d.queue + [ms[0]]);
        assert next.queue + ms[1..] == d.queue + ms;
        assert next.queue + [] == next.queue;
        FeedOne(lim, env, d, ms);
        ForeignReadExactly(lim, env, next, ms[1..]);
      } else {
        FirstDropped(lim, env, d, ms);
      }
    }
  }

  lemma FirstDropped(lim: Limits, env: Env, d: Decoder, ms: seq<Message>)
    requires d.WellFormed() && !d.discard && d.header == [] && Sendable(lim, d, ms) && ms != []
    requires LimitWouldExceed(lim, env, d.queue, |ms[0]|)
    ensures Feed(lim, env, d, EncodeAll(ms)).flags.queueLimit
  {
    var m := ms[0];
    HeaderCarriesLength(|m|);
    ConcatAssociative(MessageHeader(|m|), m, EncodeAll(ms[1..]));
    FeedHeader(lim, env, d, MessageHeader(|m|), m + EncodeAll(ms[1..]));
  }

  /** Which mark a refused header raises, whatever follows it in the chunk. */
  lemma RefusedHeaderMarks(lim: Limits, env: Env, d: Decoder, h: seq<byte>, rest: seq<byte>)
    requires d.WellFormed() && !d.discard && d.header == [] && |h| == 5
    requires !Admitted(lim, Counted(lim, d).count, h)
    ensures var tooMany := lim.maxMessages > 0 && d.count >= lim.maxMessages;
            var tooLong := !tooMany && LengthOf(h) > lim.maxMessageBytes;
            var flagged := !tooMany && !tooLong && h[0] == 1;
            var r := Feed(lim, env, d, h + rest);
            && r.discard && r.queue == d.queue && !r.MidMessage()
            && r.flags == Flags(tooLong, tooMany || (!tooLong && h[0] > 1), flagged && !env.foreignEncoding,
                                flagged && env.foreignEncoding, false)
  {
    FeedHeader(lim, env, d, h, rest);
  }

  /** A chunk read on behalf of another call either leaves the queue alone or leaves it within the read-ahead bounds. */
  lemma {:induction false} ForeignReadBounded(lim: Limits, env: Env, d: Decoder, bytes: seq<byte>)
    requires d.WellFormed() && env.foreignReader
    ensures Feed(lim, env, d, bytes).queue == d.queue || WithinReadAhead(lim, Feed(lim, env, d, bytes).queue)
    decreases |bytes|
  {
    if bytes != [] {
      StepWellFormed(lim, env, d, bytes[0]);
      var (next, stop) := Step(lim, env, d, bytes[0]);
      if next.queue != d.queue {
        TotalSizeAppend(d.queue, next.queue[|d.queue|]);
      }
      if !stop {
        ForeignReadBounded(lim, env, next, bytes[1..]);
      }
    }
  }

  /** What one octet does to the queue: nothing, or one message more. */
  lemma StepQueue(lim: Limits, env: Env, d: Decoder, b: byte)
    requires d.WellFormed() && Fits(d.queue)
    ensures Fits(Step(lim, env, d, b).0.queue)
  {
    if |d.header| == 5 {
      LengthNamesHeader(d.header);
    }
  }

  lemma {:induction false} FeedFits(lim: Limits, env: Env, d: Decoder, bytes: seq<byte>)
    requires d.WellFormed() && Fits(d.queue)
    ensures Fits(Feed(lim, env, d, bytes).queue)
    decreases |bytes|
  {
    if bytes != [] {
      StepWellFormed(lim, env, d, bytes[0]);
      StepQueue(lim, env, d, bytes[0]);
      var (next, stop) := Step(lim, env, d, bytes[0]);
      if !stop {
        FeedFits(lim, env, next, bytes[1..]);
      }
    }
  }
}
