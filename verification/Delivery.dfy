/**
  Server-streaming calls that share one connection.  Whichever call is in `next` drives
  the socket for all of them, so a stream is decoded partly by its own reader and partly
  under the read-ahead limits of somebody else's.
 */
module Delivery {
  import opened Bytes
  import opened Framing
  import opened Response

  type Id = nat

  /** `wire` and `delivered` are the histories the claims are about: every DATA octet that
      arrived for the stream and every message its caller got. */
  datatype Stream = Stream(
    rec: Record, wire: seq<byte>, delivered: seq<Message>, completed: bool, cancelled: bool, released: bool)
  {
    /** The session still knows the call behind the stream. */
    predicate Attached() {
      !released && !rec.stream.closed
    }
  }

  const OPENED: Stream := Stream(NEW_CALL, [], [], false, false, false)

  /** The failures that make `next` stop the stream. */
  predicate PolicyFailed(r: Record) {
    r.head.invalidContentType || r.meta.tooLarge || r.dec.flags.Any()
  }

  datatype Result = Message(payload: Message) | Done(code: int)

  // ------------------------------------------------------------------- steps

  /** Why a receive loop ends on this side: the deadline, a socket that no longer works,
      or a session that rejected its input. */
  datatype Cause = Deadline | Broken | SessionError

  datatype Op =
    | Open(id: Id)
    | Arrive(reader: Option<Id>, id: Id, event: Event)
    | Interrupt(id: Id, cause: Cause, resetSent: bool)
    | Return(id: Id, resetSent: bool)
    | Cancel(id: Id, ioAllowed: bool, resetSent: bool)

  /** What the session may report about a stream; the reader decides how DATA is treated. */
  function FromWire(reader: Option<Id>, id: Id, e: Event): Option<Event> {
    match e
    case Data(chunk, _, fatal) => Some(Data(chunk, reader.Some? && reader.value != id, fatal))
    case DeadlinePassed => None
    case ConnectionBroke => None
    case LocalReset => None
    case Delivered => None
    case UserCancel => None
    case _ => Some(e)
  }

  function Receive(cfg: Config, s: Stream, e: Event): Stream
    requires Healthy(s.rec)
  {
    s.(rec := Apply(cfg, s.rec, e), wire := if e.Data? then s.wire + e.chunk else s.wire)
  }

  function Interrupted(s: Stream, cause: Cause, resetSent: bool): Stream {
    var r := s.rec.stream;
    var marked := match cause
      case Deadline => r.(timedOut := true, localReset := r.localReset || resetSent)
      case Broken => if r.timedOut then r else r.(broken := true)
      case SessionError => r;
    s.(rec := s.rec.(stream := marked), completed := true)
  }

  function Terminated(s: Stream, resetSent: bool): Stream {
    s.(rec := s.rec.(dec := s.rec.dec.(queue := []),
                     stream := s.rec.stream.(localReset := s.rec.stream.localReset || resetSent)),
       completed := true)
  }

  /** What `next` does once its receive loop is over. */
  function Finish(s: Stream, resetSent: bool): (Stream, Result) {
    var t := if PolicyFailed(s.rec) then Terminated(s, resetSent) else s;
    var queue := t.rec.dec.queue;
    if queue != [] then
      (t.(rec := t.rec.(dec := t.rec.dec.(queue := queue[1..])), delivered := t.delivered + [queue[0]]),
       Message(queue[0]))
    else
      (t.(completed := true, released := true), Done(Status(Ended(t.rec, false), t.cancelled)))
  }

  /** `next` leaves its receive loop only for these reasons. */
  predicate LoopOver(s: Stream) {
    s.rec.dec.queue != [] || s.rec.stream.closed || s.completed || PolicyFailed(s.rec)
  }

  /** A cancel by the caller; on a dead connection it does nothing. */
  function Cancelled(s: Stream, ioAllowed: bool, resetSent: bool): Stream {
    if s.completed || !ioAllowed then s
    else
      var t := Terminated(s, resetSent);
      t.(cancelled := true, released := true, rec := t.rec.(status := t.rec.status.(code := CANCELLED)))
  }

  // --------------------------------------------------------------- invariant

  /** Nothing the caller got, or will get, is out of line with the wire. */
  ghost predicate InStep(s: Stream) {
    && Healthy(s.rec) && Fits(s.delivered)
    && (s.rec.dec.discard ==> PolicyFailed(s.rec) || s.rec.status.invalid)
    && (PolicyFailed(s.rec) ==> s.rec.dec.discard)
    && (s.cancelled ==> s.released && s.rec.dec.queue == [])
    && (s.rec.stream.timedOut ==> s.completed)
    && EncodeAll(s.delivered) <= s.wire
    && (!s.rec.dec.flags.queueLimit ==> EncodeAll(s.delivered + s.rec.dec.queue) <= s.wire)
    && (!s.rec.dec.discard && !s.cancelled ==>
          s.wire == EncodeAll(s.delivered + s.rec.dec.queue) + (s.rec.dec.header + s.rec.dec.payload))
  }

  lemma {:induction false} EncodeAllConcat(a: seq<Message>, b: seq<Message>)
    ensures EncodeAll(a + b) == EncodeAll(a) + EncodeAll(b)
  {
    if a == [] {
      assert a + b == b;
    } else {
      assert (a + b)[1..] == a[1..] + b;
      EncodeAllConcat(a[1..], b);
      ConcatAssociative(Encode(a[0]), EncodeAll(a[1..]), EncodeAll(b));
    }
  }

  lemma OpenedInStep()
    ensures InStep(OPENED)
  {
  }

  /** DATA that is decoded. */
  lemma DecodedInStep(cfg: Config, s: Stream, e: Event)
    requires InStep(s) && e.Data? && e.chunk != [] && !s.rec.status.seen && !s.rec.dec.discard && !s.cancelled
    ensures InStep(Receive(cfg, s, e))
  {
    var env, d := Env(e.foreignReader, e.resetFatal, ForeignEncoding(s.rec)), s.rec.dec;
    var r := Feed(cfg.lim, env, d, e.chunk);
    ApplyHealthy(cfg, s.rec, e);
    FeedImage(cfg.lim, env, d, e.chunk);
    FeedReason(cfg.lim, env, d, e.chunk);
    EncodeAllConcat(s.delivered, d.queue);
    EncodeAllConcat(s.delivered, r.queue);
    var front, wire := EncodeAll(s.delivered), s.wire + e.chunk;
    ConcatAssociative(front, EncodeAll(d.queue), d.header + d.payload);
    ConcatAssociative(front, d.Image(), e.chunk);
    assert wire == front + (d.Image() + e.chunk);
    if !r.flags.queueLimit {
      PrefixUnder(front, EncodeAll(r.queue), d.Image() + e.chunk);
    }
    if !r.discard {
      ConcatAssociative(front, EncodeAll(r.queue), r.header + r.payload);
    }
  }

  lemma PrefixUnder<T>(front: seq<T>, a: seq<T>, b: seq<T>)
    requires a <= b
    ensures front + a <= front + b
  {
  }

  lemma PrefixExtend<T>(a: seq<T>, b: seq<T>, more: seq<T>)
    requires a <= b
    ensures a <= b + more
  {
  }

  /** The decoder starts to discard only with a flag to show for it. */
  lemma {:induction false} FeedReason(lim: Limits, env: Env, d: Decoder, bytes: seq<byte>)
    requires d.WellFormed() && (d.discard ==> d.flags.Any())
    ensures Feed(lim, env, d, bytes).discard ==> Feed(lim, env, d, bytes).flags.Any()
    decreases |bytes|
  {
    if bytes != [] {
      StepWellFormed(lim, env, d, bytes[0]);
      var (next, stop) := Step(lim, env, d, bytes[0]);
      if !stop {
        FeedReason(lim, env, next, bytes[1..]);
      }
    }
  }

  /** Any other event leaves the decoder's octets and queue alone. */
  lemma QuietEvent(cfg: Config, r: Record, e: Event)
    requires Healthy(r) && FromWire(None, 0, e).Some?
    requires e.Data? ==> e.chunk == [] || r.status.seen || r.dec.discard
    requires (r.dec.discard ==> PolicyFailed(r) || r.status.invalid) && (PolicyFailed(r) ==> r.dec.discard)
    ensures var r' := Apply(cfg, r, e);
            && r'.dec.queue == r.dec.queue && r'.dec.header == r.dec.header && r'.dec.payload == r.dec.payload
            && (r.dec.discard ==> r'.dec.discard) && (e.Data? && e.chunk != [] ==> r'.dec.discard)
            && r'.dec.flags.queueLimit == r.dec.flags.queueLimit
            && (r'.dec.discard ==> PolicyFailed(r') || r'.status.invalid) && (PolicyFailed(r') ==> r'.dec.discard)
  {
    if e.HeaderField? {
      QuietField(cfg, r, e);
    }
  }

  lemma QuietField(cfg: Config, r: Record, e: Event)
    requires Healthy(r) && e.HeaderField?
    requires (r.dec.discard ==> PolicyFailed(r) || r.status.invalid) && (PolicyFailed(r) ==> r.dec.discard)
    ensures var r' := Apply(cfg, r, e);
            && r'.dec == r.dec.(discard := r'.dec.discard) && (r.dec.discard ==> r'.dec.discard)
            && (r'.dec.discard ==> PolicyFailed(r') || r'.status.invalid) && (PolicyFailed(r') ==> r'.dec.discard)
  {
  }

  lemma ReceiveInStep(cfg: Config, s: Stream, e: Event)
    requires InStep(s) && FromWire(None, 0, e).Some? && !s.cancelled
    ensures InStep(Receive(cfg, s, e))
  {
    if e.Data? && e.chunk != [] && !s.rec.status.seen && !s.rec.dec.discard {
      DecodedInStep(cfg, s, e);
    } else if e.Data? && e.chunk != [] {
      DiscardedInStep(cfg, s, e);
    } else {
      OtherInStep(cfg, s, e);
    }
  }

  lemma DiscardedInStep(cfg: Config, s: Stream, e: Event)
    requires InStep(s) && e.Data? && e.chunk != [] && (s.rec.status.seen || s.rec.dec.discard) && !s.cancelled
    ensures InStep(Receive(cfg, s, e))
  {
    ApplyHealthy(cfg, s.rec, e);
    QuietEvent(cfg, s.rec, e);
    PrefixExtend(EncodeAll(s.delivered), s.wire, e.chunk);
    if !s.rec.dec.flags.queueLimit {
      PrefixExtend(EncodeAll(s.delivered + s.rec.dec.queue), s.wire, e.chunk);
    }
  }

  lemma OtherInStep(cfg: Config, s: Stream, e: Event)
    requires InStep(s) && FromWire(None, 0, e).Some? && (e.Data? ==> e.chunk == []) && !s.cancelled
    ensures InStep(Receive(cfg, s, e))
  {
    ApplyHealthy(cfg, s.rec, e);
    QuietEvent(cfg, s.rec, e);
    assert e.Data? ==> s.wire + e.chunk == s.wire;
  }

  lemma FinishInStep(s: Stream, resetSent: bool)
    requires InStep(s)
    ensures InStep(Finish(s, resetSent).0)
  {
    var queue := s.rec.dec.queue;
    if !PolicyFailed(s.rec) && queue != [] {
      assert s.delivered + queue == (s.delivered + [queue[0]]) + queue[1..];
      EncodeAllConcat(s.delivered + [queue[0]], queue[1..]);
    } else if PolicyFailed(s.rec) {
      assert s.delivered + [] == s.delivered;
    }
  }

  lemma CancelledInStep(s: Stream, ioAllowed: bool, resetSent: bool)
    requires InStep(s)
    ensures InStep(Cancelled(s, ioAllowed, resetSent))
  {
    assert s.delivered + [] == s.delivered;
  }

  // -------------------------------------------------------------------- runs

  type Streams = map<Id, Stream>

  ghost predicate AllInStep(m: Streams) {
    forall id :: id in m ==> InStep(m[id])
  }

  /** What a step does to the stream it names; a step that does not apply changes nothing. */
  function OnStream(cfg: Config, s: Stream, op: Op): Stream
    requires Healthy(s.rec)
  {
    match op
    case Open(_) => s
    case Arrive(reader, id, event) =>
      var seen := FromWire(reader, id, event);
      if s.Attached() && seen.Some? then Receive(cfg, s, seen.value) else s
    case Interrupt(_, cause, resetSent) => if s.completed then s else Interrupted(s, cause, resetSent)
    case Return(_, resetSent) => if LoopOver(s) then Finish(s, resetSent).0 else s
    case Cancel(_, ioAllowed, resetSent) => Cancelled(s, ioAllowed, resetSent)
  }

  lemma OnStreamInStep(cfg: Config, s: Stream, op: Op)
    requires InStep(s)
    ensures InStep(OnStream(cfg, s, op))
  {
    match op
    case Open(_) =>
    case Arrive(reader, id, event) =>
      var seen := FromWire(reader, id, event);
      if s.Attached() && seen.Some? {
        ReceiveInStep(cfg, s, seen.value);
      }
    case Interrupt(_, _, _) =>
    case Return(_, resetSent) => FinishInStep(s, resetSent);
    case Cancel(_, ioAllowed, resetSent) => CancelledInStep(s, ioAllowed, resetSent);
  }

  ghost function Perform(cfg: Config, m: Streams, op: Op): Streams
    requires AllInStep(m)
  {
    if op.id in m then m[op.id := OnStream(cfg, m[op.id], op)]
    else if op.Open? then m[op.id := OPENED]
    else m
  }

  lemma PerformInStep(cfg: Config, m: Streams, op: Op)
    requires AllInStep(m)
    ensures AllInStep(Perform(cfg, m, op))
  {
    OpenedInStep();
    if op.id in m {
      OnStreamInStep(cfg, m[op.id], op);
    }
  }

  ghost function PerformAll(cfg: Config, m: Streams, ops: seq<Op>): (r: Streams)
    requires AllInStep(m)
    ensures AllInStep(r)
    decreases |ops|
  {
    if ops == [] then m
    else
      PerformInStep(cfg, m, ops[0]);
      PerformAll(cfg, Perform(cfg, m, ops[0]), ops[1..])
  }

  lemma {:induction false} PerformAllConcat(cfg: Config, m: Streams, a: seq<Op>, b: seq<Op>)
    requires AllInStep(m)
    ensures PerformAll(cfg, m, a + b) == PerformAll(cfg, PerformAll(cfg, m, a), b)
    decreases |a|
  {
    if a == [] {
      assert a + b == b;
    } else {
      PerformInStep(cfg, m, a[0]);
      assert (a + b)[1..] == a[1..] + b;
      PerformAllConcat(cfg, Perform(cfg, m, a[0]), a[1..], b);
    }
  }

  /** Over every interleaving, what a stream's caller got is a gap-free front part of the
      messages on that stream's wire. */
  lemma DeliveredIsWirePrefix(cfg: Config, ops: seq<Op>, id: Id)
    requires id in PerformAll(cfg, map[], ops)
    ensures var s := PerformAll(cfg, map[], ops)[id];
            s.delivered <= Messages(s.wire)
  {
    var s := PerformAll(cfg, map[], ops)[id];
    assert InStep(s);
    EncodedPrefixParses(s.delivered, s.wire);
  }

  /** When `next` reports the final status and neither a policy failure, nor a cancel, nor an
      invalid status stands in the way, every whole message on the wire has been delivered. */
  lemma FinalStatusComesLast(cfg: Config, ops: seq<Op>, id: Id, resetSent: bool)
    requires id in PerformAll(cfg, map[], ops)
    ensures var s := PerformAll(cfg, map[], ops)[id];
            var (after, result) := Finish(s, resetSent);
            result.Done? && !PolicyFailed(s.rec) && !s.cancelled && !s.rec.status.invalid ==>
              after.delivered == Messages(after.wire)
  {
    var s := PerformAll(cfg, map[], ops)[id];
    assert InStep(s);
    if s.rec.dec.queue == [] && !s.rec.dec.discard && !s.cancelled {
      QuietEndIsComplete(s);
    }
  }

  lemma QuietEndIsComplete(s: Stream)
    requires InStep(s) && s.rec.dec.queue == [] && !s.rec.dec.discard && !s.cancelled
    ensures s.delivered == Messages(s.wire)
    ensures !s.rec.dec.MidMessage() ==> s.wire == EncodeAll(s.delivered)
  {
    var d := s.rec.dec;
    assert s.delivered + d.queue == s.delivered;
    ParseEncoded(s.delivered, d.header + d.payload);
    PartialIsNoMessage(d);
    assert s.delivered + [] == s.delivered;
  }

  /** No reset and no lost connection would explain an end inside a message. */
  predicate Unexcused(r: Record) {
    !r.stream.resetSeen && !r.stream.localReset && !r.stream.broken
  }

  /** In particular a stream that ends OK has delivered everything, and the wire holds nothing
      else, no piece of a message either, unless a reset or a lost connection explains it. */
  lemma OkDeliversEverything(cfg: Config, ops: seq<Op>, id: Id, resetSent: bool)
    requires id in PerformAll(cfg, map[], ops)
    ensures var (after, result) := Finish(PerformAll(cfg, map[], ops)[id], resetSent);
            result == Done(OK) ==>
              && after.delivered == Messages(after.wire)
              && (Unexcused(after.rec) ==> after.wire == EncodeAll(after.delivered))
  {
    var s := PerformAll(cfg, map[], ops)[id];
    assert InStep(s);
    Finished(s, resetSent);
  }

  lemma OkIsUnspoiled(s: Stream)
    requires Status(Ended(s.rec, false), s.cancelled) == OK
    ensures !PolicyFailed(s.rec) && !s.cancelled && !s.rec.status.invalid
    ensures Unexcused(s.rec) ==> !s.rec.dec.MidMessage()
  {
  }

  /** What never goes back on a stream. */
  ghost predicate Advances(s: Stream, later: Stream) {
    && s.wire <= later.wire && s.delivered <= later.delivered
    && (PolicyFailed(s.rec) ==> PolicyFailed(later.rec) && later.delivered == s.delivered)
    && (s.cancelled ==> later.cancelled && later.delivered == s.delivered)
  }

  lemma ReceiveAdvances(cfg: Config, s: Stream, e: Event)
    requires InStep(s) && !s.cancelled
    ensures Advances(s, Receive(cfg, s, e))
  {
    ApplyOnlyWorse(cfg, s.rec, e);
  }

  lemma FinishAdvances(s: Stream, resetSent: bool)
    requires InStep(s)
    ensures Advances(s, Finish(s, resetSent).0)
  {
  }

  lemma OnStreamAdvances(cfg: Config, s: Stream, op: Op)
    requires InStep(s)
    ensures Advances(s, OnStream(cfg, s, op))
  {
    match op
    case Open(_) =>
    case Arrive(reader, id, event) =>
      var seen := FromWire(reader, id, event);
      if s.Attached() && seen.Some? {
        ReceiveAdvances(cfg, s, seen.value);
      }
    case Interrupt(_, _, _) =>
    case Return(_, resetSent) => FinishAdvances(s, resetSent);
    case Cancel(_, _, _) =>
  }

  /** After a policy failure or a cancel nothing more is ever delivered, whatever still arrives. */
  lemma {:induction false} NothingAfterFailure(cfg: Config, m: Streams, ops: seq<Op>, id: Id)
    requires AllInStep(m) && id in m
    ensures id in PerformAll(cfg, m, ops) && Advances(m[id], PerformAll(cfg, m, ops)[id])
    decreases |ops|
  {
    if ops != [] {
      PerformInStep(cfg, m, ops[0]);
      OnStreamAdvances(cfg, m[id], ops[0]);
      NothingAfterFailure(cfg, Perform(cfg, m, ops[0]), ops[1..], id);
    }
  }

  // ------------------------------------------------------------------- cancel

  /** The stream was cancelled when `delivered` was all it had delivered. */
  ghost predicate GivenUp(s: Stream, delivered: seq<Message>) {
    && s.cancelled && s.completed && s.released && s.rec.dec.queue == [] && !s.rec.stream.timedOut
    && s.delivered == delivered
  }

  lemma {:induction false} GivenUpStays(cfg: Config, m: Streams, ops: seq<Op>, id: Id, delivered: seq<Message>)
    requires AllInStep(m) && id in m && GivenUp(m[id], delivered)
    ensures id in PerformAll(cfg, m, ops) && GivenUp(PerformAll(cfg, m, ops)[id], delivered)
    decreases |ops|
  {
    if ops != [] {
      PerformInStep(cfg, m, ops[0]);
      if ops[0].id == id {
        GivenUpStep(cfg, m[id], ops[0], delivered);
      }
      GivenUpStays(cfg, Perform(cfg, m, ops[0]), ops[1..], id, delivered);
    }
  }

  lemma GivenUpStep(cfg: Config, s: Stream, op: Op, delivered: seq<Message>)
    requires InStep(s) && GivenUp(s, delivered)
    ensures GivenUp(OnStream(cfg, s, op), delivered)
  {
  }

  lemma GivenUpEnds(s: Stream, delivered: seq<Message>, resetSent: bool)
    requires GivenUp(s, delivered)
    ensures var (after, result) := Finish(s, resetSent);
            result == Done(CANCELLED) && after.delivered == delivered
  {
  }

  /** A cancel on a live connection takes effect for good: whatever was queued is dropped,
      nothing is delivered in any later run, and every later `next` reports CANCELLED. */
  lemma CancelIsFinal(cfg: Config, ops: seq<Op>, id: Id, resetSent: bool, more: seq<Op>, later: bool)
    requires id in PerformAll(cfg, map[], ops) && !PerformAll(cfg, map[], ops)[id].completed
    ensures var s := PerformAll(cfg, map[], ops)[id];
            var m := PerformAll(cfg, map[], ops + [Cancel(id, true, resetSent)] + more);
            && id in m && m[id].cancelled && m[id].delivered == s.delivered
            && Finish(m[id], later).1 == Done(CANCELLED) && Finish(m[id], later).0.delivered == s.delivered
  {
    var before, op := PerformAll(cfg, map[], ops), Cancel(id, true, resetSent);
    assert InStep(before[id]);
    ExtendRun(cfg, map[], ops, op);
    PerformAllConcat(cfg, map[], ops + [op], more);
    GivenUpStays(cfg, PerformAll(cfg, map[], ops + [op]), more, id, before[id].delivered);
    GivenUpEnds(PerformAll(cfg, map[], ops + [op] + more)[id], before[id].delivered, later);
  }

  /** A deadline that passes while nothing is queued ends the stream with DEADLINE_EXCEEDED. */
  lemma DeadlineEnds(s: Stream, sent: bool, later: bool)
    requires InStep(s) && !s.completed && s.rec.dec.queue == []
    ensures Finish(Interrupted(s, Deadline, sent), later).1 == Done(DEADLINE_EXCEEDED)
  {
  }

  // -------------------------------------------------------------------- next

  /** The outcomes of one turn of the receive loop. */
  datatype Read =
    | Chunk(events: seq<(Id, Event)>)
    | Rejected(events: seq<(Id, Event)>)
    | Expired(resetSent: bool)
    | Unusable

  function ArriveOps(reader: Id, events: seq<(Id, Event)>): (ops: seq<Op>)
    ensures |ops| == |events|
  {
    seq(|events|, i requires 0 <= i < |events| => Arrive(Some(reader), events[i].0, events[i].1))
  }

  lemma {:induction false} KeysStay(cfg: Config, m: Streams, ops: seq<Op>, id: Id)
    requires AllInStep(m) && id in m
    ensures id in PerformAll(cfg, m, ops)
    decreases |ops|
  {
    if ops != [] {
      PerformInStep(cfg, m, ops[0]);
      KeysStay(cfg, Perform(cfg, m, ops[0]), ops[1..], id);
    }
  }

  /** What one turn of the receive loop amounts to. */
  function TurnOps(id: Id, read: Read): seq<Op> {
    match read
    case Chunk(events) => ArriveOps(id, events)
    case Rejected(events) => ArriveOps(id, events) + [Interrupt(id, SessionError, false)]
    case Expired(resetSent) => [Interrupt(id, Deadline, resetSent)]
    case Unusable => [Interrupt(id, Broken, false)]
  }

  /** What a receive loop amounts to: it reads until there is something to return, and is
      interrupted only where the script says so or runs out. */
  ghost function LoopOps(cfg: Config, m: Streams, id: Id, script: seq<Read>): seq<Op>
    requires AllInStep(m) && id in m
    decreases |script|
  {
    if LoopOver(m[id]) then []
    else if script == [] then [Interrupt(id, Broken, false)]
    else
      KeysStay(cfg, m, TurnOps(id, script[0]), id);
      TurnOps(id, script[0]) + LoopOps(cfg, PerformAll(cfg, m, TurnOps(id, script[0])), id, script[1..])
  }

  /** After `i` reads the loop stands at `now`, with `ops` behind it. */
  ghost predicate LoopStands(
    cfg: Config, before: Streams, now: Streams, id: Id, script: seq<Read>, i: nat, ops: seq<Op>)
  {
    && AllInStep(before) && AllInStep(now) && id in before && id in now && i <= |script|
    && now == PerformAll(cfg, before, ops)
    && ops + LoopOps(cfg, now, id, script[i..]) == LoopOps(cfg, before, id, script)
  }

  lemma LoopBegins(cfg: Config, m: Streams, id: Id, script: seq<Read>)
    requires AllInStep(m) && id in m
    ensures LoopStands(cfg, m, m, id, script, 0, [])
  {
    assert script[0..] == script;
    ConcatNil(LoopOps(cfg, m, id, script));
  }

  lemma LoopGoesOn(
    cfg: Config, before: Streams, now: Streams, next: Streams, id: Id, script: seq<Read>, i: nat, ops: seq<Op>)
    requires i < |script| && LoopStands(cfg, before, now, id, script, i, ops) && !LoopOver(now[id])
    requires AllInStep(next) && id in next && next == PerformAll(cfg, now, TurnOps(id, script[i]))
    ensures LoopStands(cfg, before, next, id, script, i + 1, ops + TurnOps(id, script[i]))
  {
    var turn := TurnOps(id, script[i]);
    LoopUnfolds(cfg, now, next, id, script, i);
    PerformAllConcat(cfg, before, ops, turn);
    ConcatAssociative(ops, turn, LoopOps(cfg, next, id, script[i + 1..]));
  }

  lemma LoopUnfolds(cfg: Config, now: Streams, next: Streams, id: Id, script: seq<Read>, i: nat)
    requires i < |script| && AllInStep(now) && id in now && !LoopOver(now[id])
    requires AllInStep(next) && id in next && next == PerformAll(cfg, now, TurnOps(id, script[i]))
    ensures LoopOps(cfg, now, id, script[i..]) == TurnOps(id, script[i]) + LoopOps(cfg, next, id, script[i + 1..])
  {
    assert script[i..][1..] == script[i + 1..];
  }

  lemma LoopEnds(cfg: Config, before: Streams, now: Streams, id: Id, script: seq<Read>, i: nat, ops: seq<Op>)
    requires LoopStands(cfg, before, now, id, script, i, ops) && (LoopOver(now[id]) || i == |script|)
    ensures LoopOver(now[id]) ==> ops == LoopOps(cfg, before, id, script)
    ensures !LoopOver(now[id]) ==>
              && ops + [Interrupt(id, Broken, false)] == LoopOps(cfg, before, id, script)
              && PerformAll(cfg, before, ops + [Interrupt(id, Broken, false)])
                 == PerformAll(cfg, now, [Interrupt(id, Broken, false)])
  {
    if LoopOver(now[id]) {
      assert ops + [] == ops;
    } else {
      assert script[i..] == [];
      PerformAllConcat(cfg, before, ops, [Interrupt(id, Broken, false)]);
    }
  }

  /** Nothing was delivered on any stream, and none was completed. */
  ghost predicate Undelivered(m: Streams, later: Streams) {
    && later.Keys == m.Keys
    && forall x :: x in m ==> later[x].delivered == m[x].delivered && later[x].completed == m[x].completed
  }

  lemma ArriveKeeps(cfg: Config, s: Stream, op: Op)
    requires Healthy(s.rec) && op.Arrive?
    ensures OnStream(cfg, s, op).delivered == s.delivered && OnStream(cfg, s, op).completed == s.completed
  {
  }

  lemma ArriveUndelivered(cfg: Config, m: Streams, op: Op)
    requires AllInStep(m) && op.Arrive?
    ensures AllInStep(Perform(cfg, m, op)) && Undelivered(m, Perform(cfg, m, op))
  {
    PerformInStep(cfg, m, op);
    if op.id in m {
      ArriveKeeps(cfg, m[op.id], op);
      UpdateUndelivered(m, op.id, OnStream(cfg, m[op.id], op));
    }
  }

  lemma UpdateUndelivered(m: Streams, id: Id, s: Stream)
    requires id in m && s.delivered == m[id].delivered && s.completed == m[id].completed
    ensures Undelivered(m, m[id := s])
  {
  }

  lemma UndeliveredTrans(a: Streams, b: Streams, c: Streams)
    requires Undelivered(a, b) && Undelivered(b, c)
    ensures Undelivered(a, c)
  {
  }

  class SharedConnection {
    const cfg: Config
    var streams: Streams

    constructor (cfg: Config)
      ensures streams == map[] && this.cfg == cfg
    {
      this.cfg := cfg;
      streams := map[];
    }

    /** One session callback during a socket read that call `reader` made. */
    method DispatchOne(reader: Id, id: Id, event: Event)
      requires AllInStep(streams)
      modifies this
      ensures AllInStep(streams) && streams == Perform(cfg, old(streams), Arrive(Some(reader), id, event))
      ensures Undelivered(old(streams), streams)
    {
      ArriveUndelivered(cfg, streams, Arrive(Some(reader), id, event));
      var seen := FromWire(Some(reader), id, event);
      if id in streams && streams[id].Attached() && seen.Some? {
        streams := streams[id := Receive(cfg, streams[id], seen.value)];
      }
    }

    /** The callbacks of one socket read, in order. */
    method Dispatch(reader: Id, events: seq<(Id, Event)>)
      requires AllInStep(streams)
      modifies this
      ensures AllInStep(streams) && streams == PerformAll(cfg, old(streams), ArriveOps(reader, events))
      ensures Undelivered(old(streams), streams)
    {
      ghost var before, all := streams, ArriveOps(reader, events);
      for i := 0 to |events|
        invariant AllInStep(streams) && streams == PerformAll(cfg, before, all[..i]) && Undelivered(before, streams)
      {
        ghost var now := streams;
        ExtendRun(cfg, before, all[..i], all[i]);
        assert all[..i + 1] == all[..i] + [all[i]];
        DispatchOne(reader, events[i].0, events[i].1);
        UndeliveredTrans(before, now, streams);
      }
      assert all[..|events|] == all;
    }

    method EndLoop(id: Id, cause: Cause, resetSent: bool)
      requires AllInStep(streams) && id in streams && !streams[id].completed
      modifies this
      ensures AllInStep(streams) && streams == PerformAll(cfg, old(streams), [Interrupt(id, cause, resetSent)])
      ensures id in streams && LoopOver(streams[id]) && streams[id].delivered == old(streams)[id].delivered
    {
      ghost var op := Interrupt(id, cause, resetSent);
      PerformInStep(cfg, streams, op);
      assert [op][1..] == [];
      streams := streams[id := Interrupted(streams[id], cause, resetSent)];
    }

    /** One turn of the receive loop. */
    method ReadOnce(id: Id, read: Read)
      requires AllInStep(streams) && id in streams && !LoopOver(streams[id])
      modifies this
      ensures AllInStep(streams) && id in streams && streams[id].delivered == old(streams)[id].delivered
      ensures streams == PerformAll(cfg, old(streams), TurnOps(id, read))
    {
      match read
      case Chunk(events) =>
        Dispatch(id, events);
      case Rejected(events) =>
        PerformAllConcat(cfg, streams, ArriveOps(id, events), [Interrupt(id, SessionError, false)]);
        Dispatch(id, events);
        EndLoop(id, SessionError, false);
      case Expired(resetSent) =>
        EndLoop(id, Deadline, resetSent);
      case Unusable =>
        EndLoop(id, Broken, false);
    }

    /** The receive loop of `next`; a script that runs out is a socket that closed. */
    method ReceiveUntilOver(id: Id, script: seq<Read>) returns (ghost ops: seq<Op>)
      requires AllInStep(streams) && id in streams
      modifies this
      ensures AllInStep(streams) && id in streams
      ensures ops == LoopOps(cfg, old(streams), id, script) && streams == PerformAll(cfg, old(streams), ops)
      ensures LoopOver(streams[id]) && streams[id].delivered == old(streams)[id].delivered
    {
      ghost var before := streams;
      ops := [];
      var i := 0;
      LoopBegins(cfg, before, id, script);
      while !LoopOver(streams[id]) && i < |script|
        invariant i <= |script| && id in streams && LoopStands(cfg, before, streams, id, script, i, ops)
        invariant streams[id].delivered == before[id].delivered
        decreases |script| - i
      {
        ghost var now := streams;
        ReadOnce(id, script[i]);
        LoopGoesOn(cfg, before, now, streams, id, script, i, ops);
        ops := ops + TurnOps(id, script[i]);
        i := i + 1;
      }
      LoopEnds(cfg, before, streams, id, script, i, ops);
      if !LoopOver(streams[id]) {
        EndLoop(id, Broken, false);
        ops := ops + [Interrupt(id, Broken, false)];
      }
    }

    /** Pulls the next message or the final status of one stream. */
    method Next(id: Id, script: seq<Read>, resetSent: bool) returns (result: Result, ghost ops: seq<Op>)
      requires AllInStep(streams) && id in streams
      modifies this
      ensures AllInStep(streams) && streams == PerformAll(cfg, old(streams), ops) && id in streams
      ensures ops == LoopOps(cfg, old(streams), id, script) + [Return(id, resetSent)]
      ensures result.Message? ==>
                streams[id].delivered == old(streams)[id].delivered + [result.payload]
                && streams[id].delivered <= Messages(streams[id].wire)
      ensures result.Done? ==>
                && streams[id].delivered == old(streams)[id].delivered && streams[id].released
                && (result.code == OK ==>
                      && streams[id].delivered == Messages(streams[id].wire)
                      && (Unexcused(streams[id].rec) ==> streams[id].wire == EncodeAll(streams[id].delivered)))
    {
      ghost var before := streams;
      ops := ReceiveUntilOver(id, script);
      ghost var op := Return(id, resetSent);
      ExtendRun(cfg, before, ops, op);
      ghost var s := streams[id];
      var finished := Finish(streams[id], resetSent);
      streams, result := streams[id := finished.0], finished.1;
      ops := ops + [op];
      Finished(s, resetSent);
    }
  }

  /** A stream that waits for its next message. */
  predicate Waiting(s: Stream) {
    && s.Attached() && !s.completed && !PolicyFailed(s.rec) && !s.rec.status.seen && !s.rec.status.invalid
    && s.rec.dec.queue == [] && !s.rec.dec.MidMessage() && !s.rec.dec.discard
  }

  /** What is queued is returned without another read. */
  lemma QueuedComesFirst(cfg: Config, m: Streams, id: Id, script: seq<Read>, resetSent: bool)
    requires AllInStep(m) && id in m && m[id].rec.dec.queue != [] && !PolicyFailed(m[id].rec)
    ensures LoopOps(cfg, m, id, script) == [] && Finish(m[id], resetSent).1 == Message(m[id].rec.dec.queue[0])
  {
  }

  /** A message that arrives for a waiting stream, and that the limits admit, is what `next`
      returns, whatever else the script holds. */
  lemma ArrivedComesOut(cfg: Config, m: Streams, id: Id, msg: Message, fatal: bool, rest: seq<Read>, resetSent: bool)
    requires AllInStep(m) && id in m && Waiting(m[id]) && Sendable(cfg.lim, m[id].rec.dec, [msg])
    ensures var script := [Chunk([(id, Data(Encode(msg), false, fatal))])] + rest;
            var end := PerformAll(cfg, m, LoopOps(cfg, m, id, script));
            id in end && Finish(end[id], resetSent).1 == Message(msg)
  {
    var e := Data(Encode(msg), false, fatal);
    var script := [Chunk([(id, e)])] + rest;
    var ops := ArriveOps(id, [(id, e)]);
    var op := Arrive(Some(id), id, e);
    assert ops == [op] && script[1..] == rest && ops + [] == ops;
    OneOp(cfg, m, op);
    ArrivedIsQueued(cfg, m[id], msg, fatal);
  }

  lemma OneOp(cfg: Config, m: Streams, op: Op)
    requires AllInStep(m)
    ensures AllInStep(Perform(cfg, m, op)) && PerformAll(cfg, m, [op]) == Perform(cfg, m, op)
  {
    PerformInStep(cfg, m, op);
    assert [op][1..] == [];
  }

  lemma ArrivedIsQueued(cfg: Config, s: Stream, msg: Message, fatal: bool)
    requires InStep(s) && Waiting(s) && Sendable(cfg.lim, s.rec.dec, [msg])
    ensures var after := Receive(cfg, s, Data(Encode(msg), false, fatal));
            && after.rec.dec.queue == [msg] && !PolicyFailed(after.rec) && LoopOver(after)
  {
    var env := Env(false, fatal, ForeignEncoding(s.rec));
    assert EncodeAll([msg]) == Encode(msg) by {
      assert [msg][1..] == [] && Encode(msg) + [] == Encode(msg);
    }
    FeedEncoded(cfg.lim, env, s.rec.dec, [msg]);
    assert [] + [msg] == [msg];
  }

  /** What the end of `next` promises its caller. */
  lemma Finished(s: Stream, resetSent: bool)
    requires InStep(s)
    ensures var (after, result) := Finish(s, resetSent);
            && InStep(after)
            && (result.Message? ==>
                  && after.delivered == s.delivered + [result.payload]
                  && after.delivered <= Messages(after.wire))
            && (result.Done? ==>
                  && after.delivered == s.delivered && after.released
                  && (result.code == OK ==>
                        && after.delivered == Messages(after.wire)
                        && (Unexcused(after.rec) ==> after.wire == EncodeAll(after.delivered))))
  {
    var (after, result) := Finish(s, resetSent);
    FinishInStep(s, resetSent);
    EncodedPrefixParses(after.delivered, after.wire);
    if result == Done(OK) {
      OkIsUnspoiled(if PolicyFailed(s.rec) then Terminated(s, resetSent) else s);
      QuietEndIsComplete(s);
    }
  }

  lemma ExtendRun(cfg: Config, m: Streams, ops: seq<Op>, op: Op)
    requires AllInStep(m)
    ensures PerformAll(cfg, m, ops + [op]) == Perform(cfg, PerformAll(cfg, m, ops), op)
  {
    PerformAllConcat(cfg, m, ops, [op]);
    PerformInStep(cfg, PerformAll(cfg, m, ops), op);
    assert [op][1..] == [];
  }
}
