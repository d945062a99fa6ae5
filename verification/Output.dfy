/**
  The sending half of a connection: the coalescing write buffer in front of the socket
  and the request bodies that are framed without being copied.  The socket may take any
  part of what it is offered, or fail, at every write.
 */
module Output {
  import opened Bytes
  import opened Framing

  /** One DATA frame as the session asked for it. */
  datatype Frame = Frame(payload: seq<byte>, eof: bool)

  function Payloads(frames: seq<Frame>): seq<byte> {
    if frames == [] then [] else Payloads(frames[..|frames| - 1]) + frames[|frames| - 1].payload
  }

  /** Only the last frame, and that one only at the end of the body, carries the EOF flag. */
  ghost predicate EofOnLastOnly(frames: seq<Frame>, ended: bool) {
    && (ended ==> frames != [])
    && forall i :: 0 <= i < |frames| ==> (frames[i].eof <==> ended && i == |frames| - 1)
  }

  /** A request body: the message header and the message, sent from `offset` on. */
  class RequestSource {
    const header: seq<byte>
    const request: seq<byte>
    var offset: nat
    ghost var frames: seq<Frame>
    ghost var ended: bool

    constructor (request: seq<byte>)
      requires |request| < TWO_TO_THE_32
      ensures Valid() && offset == 0 && frames == [] && !ended
      ensures this.request == request && Body() == Encode(request)
    {
      this.request := request;
      header := MessageHeader(|request|);
      offset, frames, ended := 0, [], false;
    }

    function Body(): seq<byte> {
      header + request
    }

    ghost predicate Valid()
      reads this
    {
      && |header| == 5 && offset <= |Body()|
      && Payloads(frames) == Body()[..offset]
      && EofOnLastOnly(frames, ended)
      && (ended <==> offset == |Body()|)
    }

    method Remaining() returns (n: nat)
      requires offset <= |Body()|
      ensures n == |Body()| - offset
    {
      var total := |header| + |request|;
      if offset >= total {
        return 0;
      }
      return total - offset;
    }

    /** The next octets that lie together in memory, at most `left` of them.  A source that
        has nothing left is never asked, so the failure the code keeps for that case is dead. */
    method Piece(left: nat) returns (chunk: seq<byte>)
      requires |header| == 5 && 0 < left && offset + left <= |Body()|
      ensures 0 < |chunk| <= left && chunk == Body()[offset..offset + |chunk|]
    {
      if offset < |header| {
        chunk := header[offset..];
      } else {
        var at := offset - |header|;
        if at >= |request| {
          assert false;
        }
        chunk := request[at..];
      }
      if |chunk| > left {
        chunk := chunk[..left];
      }
    }

    /** Decides the length of the next frame; the octets follow in `SendData`. */
    method Read(length: nat) returns (n: nat, eof: bool)
      requires offset <= |Body()|
      ensures n == Min(|Body()| - offset, length)
      ensures eof == (offset + n == |Body()|)
    {
      var remaining := Remaining();
      n := if remaining < length then remaining else length;
      eof := n == remaining;
    }
  }

  class Connection {
    var dead: bool
    var coalescing: bool
    const buffer: array<byte>
    var bufferLen: nat
    /** The octets the socket took, and the octets the session handed out. */
    ghost var wire: seq<byte>
    ghost var emitted: seq<byte>
    /** The socket has failed a write. */
    ghost var broken: bool

    constructor (capacity: nat)
      ensures Valid() && !dead && wire == [] && emitted == [] && !broken && fresh(buffer)
    {
      buffer := new byte[capacity];
      dead, coalescing, bufferLen, wire, emitted, broken := false, false, 0, [], [], false;
    }

    /** Between sends nothing is held back; only a dead connection may have lost octets. */
    ghost predicate Valid()
      reads this
    {
      && !coalescing && bufferLen == 0 && wire <= emitted
      && (!dead ==> wire == emitted)
    }

    /** During a send what is not on the wire is in the buffer. */
    ghost predicate InSync()
      reads this, buffer
    {
      && bufferLen <= buffer.Length && (!coalescing ==> bufferLen == 0)
      && emitted == wire + buffer[..bufferLen]
    }

    /** The socket: any positive part of the octets, or a failure. */
    method SocketSend(data: seq<byte>) returns (written: int)
      modifies this`wire, this`broken
      ensures written <= |data|
      ensures wire == if written > 0 then old(wire) + data[..written] else old(wire)
      ensures broken == (old(broken) || written <= 0)
    {
      written := *;
      if written > |data| {
        written := -1;
      }
      if written > 0 {
        wire := wire + data[..written];
      }
      broken := broken || written <= 0;
    }

    method WriteAll(data: seq<byte>) returns (ok: bool)
      modifies this`wire, this`broken
      ensures ok ==> wire == old(wire) + data
      ensures old(wire) <= wire <= old(wire) + data
      ensures (!ok ==> broken) && (old(broken) ==> broken)
    {
      var total := 0;
      ghost var before := wire;
      while total < |data|
        invariant total <= |data| && wire == before + data[..total] && (old(broken) ==> broken)
        decreases |data| - total
      {
        var written := SocketSend(data[total..]);
        if written <= 0 {
          return false;
        }
        assert data[..total + written] == data[..total] + data[total..][..written];
        total := total + written;
      }
      assert data[..|data|] == data;
      return true;
    }

    method FlushBuffer() returns (ok: bool)
      requires InSync()
      modifies this`wire, this`broken, this`bufferLen
      ensures ok ==> InSync() && bufferLen == 0
      ensures old(wire) <= wire <= emitted
      ensures (!ok ==> broken) && (old(broken) ==> broken)
    {
      if bufferLen == 0 {
        return true;
      }
      ok := WriteAll(buffer[..bufferLen]);
      if ok {
        bufferLen := 0;
        assert wire + buffer[..0] == wire;
      }
    }

    method Append(data: seq<byte>)
      requires bufferLen + |data| <= buffer.Length
      modifies this`bufferLen, buffer
      ensures bufferLen == old(bufferLen) + |data|
      ensures buffer[..bufferLen] == old(buffer[..bufferLen]) + data
    {
      ghost var before := buffer[..bufferLen];
      for i := 0 to |data|
        invariant bufferLen == old(bufferLen)
        invariant buffer[..bufferLen + i] == before + data[..i]
      {
        buffer[bufferLen + i] := data[i];
      }
      bufferLen := bufferLen + |data|;
      assert data[..|data|] == data;
    }

    /** Takes octets from the session: into the buffer if they fit, else straight to the socket. */
    method BufferOrWrite(data: seq<byte>) returns (ok: bool)
      requires InSync()
      modifies this`wire, this`broken, this`emitted, this`bufferLen, buffer
      ensures emitted == old(emitted) + data && old(wire) <= wire
      ensures if ok then InSync() else wire <= emitted && broken
    {
      ok := true;
      if coalescing && bufferLen + |data| > buffer.Length {
        ok := FlushBuffer();
      }
      if ok && (!coalescing || |data| > buffer.Length) {
        assert buffer[..0] == [];
        ok := WriteAll(data);
      } else if ok {
        Append(data);
      }
      emitted := emitted + data;
    }

    /** Writes one DATA frame: the frame header, then `length` octets of the body, piece by piece. */
    method SendData(source: RequestSource, frameHeader: seq<byte>, length: nat) returns (ok: bool)
      requires InSync() && |source.header| == 5 && source.offset + length <= |source.Body()|
      modifies this`wire, this`broken, this`emitted, this`bufferLen, buffer, source`offset
      ensures old(wire) <= wire && old(source.offset) <= source.offset <= |source.Body()|
      ensures var frame := frameHeader + source.Body()[old(source.offset)..old(source.offset) + length];
              if ok
              then InSync() && source.offset == old(source.offset) + length && emitted == old(emitted) + frame
              else wire <= emitted && broken && old(emitted) <= emitted <= old(emitted) + frame
    {
      ok := BufferOrWrite(frameHeader);
      if !ok {
        FrameOctets(old(emitted), frameHeader, source.Body()[source.offset..source.offset + length], emitted);
        return;
      }
      ghost var start := source.offset;
      ok := SendBody(source, length);
      FrameOctets(old(emitted), frameHeader, source.Body()[start..start + length], emitted);
    }

    /** Writes `length` octets of the body, piece by piece. */
    method SendBody(source: RequestSource, length: nat) returns (ok: bool)
      requires InSync() && |source.header| == 5 && source.offset + length <= |source.Body()|
      modifies this`wire, this`broken, this`emitted, this`bufferLen, buffer, source`offset
      ensures old(wire) <= wire && old(source.offset) <= source.offset <= |source.Body()|
      ensures var octets := source.Body()[old(source.offset)..old(source.offset) + length];
              if ok
              then InSync() && source.offset == old(source.offset) + length && emitted == old(emitted) + octets
              else wire <= emitted && broken && old(emitted) <= emitted <= old(emitted) + octets
    {
      ok := true;
      ghost var start, before := source.offset, emitted;
      assert source.Body()[start..start] == [];
      var left := length;
      while left > 0
        invariant 0 <= left <= length && source.offset == start + (length - left)
        invariant InSync() && old(wire) <= wire
        invariant emitted == before + source.Body()[start..source.offset]
        decreases left
      {
        var chunk := source.Piece(left);
        BodyGrows(before, source.Body(), start, source.offset, source.offset + |chunk|, start + length);
        ok := BufferOrWrite(chunk);
        if !ok {
          return;
        }
        source.offset := source.offset + |chunk|;
        left := left - |chunk|;
      }
    }

    /** The session asks a source for at most `limit` octets and has them framed. */
    method SendFrame(source: RequestSource, frameHeader: seq<byte>, limit: nat) returns (ok: bool)
      requires InSync() && source.Valid() && !source.ended && limit > 0
      modifies this`wire, this`broken, this`emitted, this`bufferLen, buffer, source
      ensures old(wire) <= wire
      ensures var upTo := NextStop(source, old(source.offset), limit);
              var frame := frameHeader + source.Body()[old(source.offset)..upTo];
              if ok
              then
                var n := |old(source.frames)|;
                && InSync() && source.Valid() && |source.frames| == n + 1 && source.frames[..n] == old(source.frames)
                && source.frames[n].payload == source.Body()[old(source.offset)..upTo]
                && source.offset == upTo && emitted == old(emitted) + frame
              else wire <= emitted && broken && old(emitted) <= emitted <= old(emitted) + frame
    {
      var n, eof := source.Read(limit);
      ghost var start := source.offset;
      ok := SendData(source, frameHeader, n);
      if ok {
        ghost var frame := Frame(source.Body()[start..source.offset], eof);
        ghost var grown := source.frames + [frame];
        assert grown[..|grown| - 1] == source.frames;
        SliceConcat(source.Body(), 0, start, source.offset);
        source.frames, source.ended := grown, eof;
      }
    }

    /** Hands over a DATA frame, if there is anything to frame. */
    method EmitFrame(e: Emission, sources: seq<RequestSource>) returns (ok: bool)
      requires InSync() && Sound(sources, false) && e.DataFrame?
      modifies this`wire, this`broken, this`emitted, this`bufferLen, buffer, set s | s in sources
      ensures old(wire) <= wire
      ensures var octets := OctetsOf(e, sources, old(At(sources)));
              if ok
              then InSync() && Sound(sources, false) && emitted == old(emitted) + octets
                   && At(sources) == Advanced(e, sources, old(At(sources)))
              else wire <= emitted && broken && old(emitted) <= emitted <= old(emitted) + octets
    {
      ghost var at := At(sources);
      if e.source < |sources| && e.limit > 0 && sources[e.source].offset < |sources[e.source].Body()| {
        var s := sources[e.source];
        ok := SendFrame(s, e.frameHeader, e.limit);
        assert At(sources) == at[s := s.offset];
      } else {
        ok := true;
      }
    }

    /** Hands over one thing the session has to send. */
    method EmitOne(e: Emission, sources: seq<RequestSource>) returns (ok: bool)
      requires InSync() && Sound(sources, false)
      modifies this`wire, this`broken, this`emitted, this`bufferLen, buffer, set s | s in sources
      ensures old(wire) <= wire
      ensures var octets := OctetsOf(e, sources, old(At(sources)));
              if ok
              then InSync() && Sound(sources, false) && !e.SessionError? && emitted == old(emitted) + octets
                   && At(sources) == Advanced(e, sources, old(At(sources)))
              else wire <= emitted && (broken || e.SessionError?) && old(emitted) <= emitted <= old(emitted) + octets
    {
      match e
      case Control(octets) =>
        ok := BufferOrWrite(octets);
      case DataFrame(_, _, _) =>
        ok := EmitFrame(e, sources);
      case SessionError =>
        ok := false;
    }

    /** Hands over what the session has, up to the first failure. */
    method EmitAll(script: seq<Emission>, sources: seq<RequestSource>) returns (ok: bool)
      requires InSync() && Sound(sources, false)
      modifies this`wire, this`broken, this`emitted, this`bufferLen, buffer, set s | s in sources
      ensures old(wire) <= wire
      ensures var octets := Handed(script, sources, old(At(sources)));
              if ok
              then InSync() && Sound(sources, false) && emitted == old(emitted) + octets
                   && At(sources) == Standing(script, sources, old(At(sources)))
              else wire <= emitted && (broken || SessionError in script) && old(emitted) <= emitted <= old(emitted) + octets
    {
      ghost var at := At(sources);
      ok := true;
      for i := 0 to |script|
        invariant InSync() && Sound(sources, false) && old(wire) <= wire
        invariant At(sources) == Standing(script[..i], sources, at)
        invariant emitted == old(emitted) + Handed(script[..i], sources, at)
      {
        HandedNext(script, sources, at, i, old(emitted));
        ok := EmitOne(script[i], sources);
        if !ok {
          HandedFront(script, sources, at, i + 1, old(emitted));
          return;
        }
      }
      assert script[..|script|] == script;
      ok := true;
    }

    /** Lets the session send what it has.  Any failure is final for the connection. */
    method SendPending(script: seq<Emission>, sources: seq<RequestSource>) returns (rv: int)
      requires Valid() && Sound(sources, dead)
      modifies this, buffer, set s | s in sources
      ensures Valid() && Sound(sources, dead) && old(wire) <= wire && old(emitted) <= emitted
      ensures rv == 0 <==> !dead
      ensures rv == 0 ==> wire == emitted
      ensures old(dead) ==> dead && wire == old(wire) && emitted == old(emitted)
      ensures emitted <= old(emitted) + Handed(script, sources, old(At(sources)))
      ensures !dead ==>
                && emitted == old(emitted) + Handed(script, sources, old(At(sources)))
                && At(sources) == Standing(script, sources, old(At(sources)))
      ensures dead ==> old(dead) || broken || SessionError in script
    {
      if dead {
        return -1;
      }
      var ok := Transmit(script, sources);
      dead := !ok;
      rv := if ok then 0 else -1;
    }

    /** A send on a live connection, with the buffer in use from its beginning to its end. */
    method Transmit(script: seq<Emission>, sources: seq<RequestSource>) returns (ok: bool)
      requires Valid() && !dead && Sound(sources, false)
      modifies this`wire, this`broken, this`emitted, this`coalescing, this`bufferLen, buffer, set s | s in sources
      ensures !coalescing && bufferLen == 0 && old(wire) <= wire && old(emitted) <= emitted
      ensures var octets := Handed(script, sources, old(At(sources)));
              if ok
              then wire == emitted && Sound(sources, false) && emitted == old(emitted) + octets
                   && At(sources) == Standing(script, sources, old(At(sources)))
              else wire <= emitted && (broken || SessionError in script) && emitted <= old(emitted) + octets
    {
      BeginTransmit();
      ok := EmitAll(script, sources);
      ok := EndTransmit(ok);
    }

    method BeginTransmit()
      requires wire == emitted
      modifies this`coalescing, this`bufferLen
      ensures InSync() && coalescing
    {
      coalescing, bufferLen := true, 0;
      assert buffer[..0] == [];
    }

    /** Empties the buffer if all went well so far, and takes it out of use. */
    method EndTransmit(sound: bool) returns (ok: bool)
      requires if sound then InSync() else wire <= emitted
      modifies this`wire, this`broken, this`coalescing, this`bufferLen
      ensures !coalescing && bufferLen == 0 && old(wire) <= wire <= emitted && (ok ==> sound && wire == emitted)
      ensures sound && !ok ==> broken
      ensures old(broken) ==> broken
    {
      ok := sound;
      if ok {
        ok := FlushBuffer();
        assert ok ==> buffer[..bufferLen] == [];
      }
      coalescing, bufferLen := false, 0;
    }

    /** A whole life of the connection: sends, and deaths that other code decides on. */
    method Drive(rounds: seq<Round>, sources: seq<RequestSource>)
      requires Valid() && Sound(sources, dead)
      modifies this, buffer, set s | s in sources
      ensures Valid() && Sound(sources, dead) && old(wire) <= wire <= emitted
      ensures old(dead) ==> dead && wire == old(wire)
      ensures emitted <= old(emitted) + Handed(Scripts(rounds), sources, old(At(sources)))
      ensures !dead ==> wire == old(wire) + Handed(Scripts(rounds), sources, old(At(sources)))
    {
      ghost var at := At(sources);
      for i := 0 to |rounds|
        invariant Valid() && Sound(sources, dead) && old(wire) <= wire
        invariant old(dead) ==> dead && wire == old(wire)
        invariant emitted <= old(emitted) + Handed(Scripts(rounds[..i]), sources, at)
        invariant !dead ==>
                    && emitted == old(emitted) + Handed(Scripts(rounds[..i]), sources, at)
                    && At(sources) == Standing(Scripts(rounds[..i]), sources, at)
      {
        ghost var said := Scripts(rounds[..i]);
        assert rounds[..i + 1][..i] == rounds[..i];
        match rounds[i] {
          case Send(script) =>
            HandedConcat(said, script, sources, at);
            ConcatAssociative(old(emitted), Handed(said, sources, at),
                              Handed(script, sources, Standing(said, sources, at)));
            var rv := SendPending(script, sources);
          case MarkDead =>
            dead := true;
        }
      }
      assert rounds[..|rounds|] == rounds;
    }
  }

  /** What the session may do during one send; a frame for a finished body is not asked for. */
  datatype Emission = Control(octets: seq<byte>) | DataFrame(source: nat, frameHeader: seq<byte>, limit: nat) | SessionError

  datatype Round = Send(script: seq<Emission>) | MarkDead

  // ------------------------------------- what a script asks for, without sending it

  /** Where each body stands. */
  ghost function At(sources: seq<RequestSource>): map<RequestSource, nat>
    reads set s | s in sources
  {
    map s | s in sources :: s.offset
  }

  function NextStop(source: RequestSource, offset: nat, limit: nat): (stop: nat)
    ensures offset <= stop && (offset <= |source.Body()| ==> stop <= |source.Body()|)
  {
    if offset < |source.Body()| then offset + Min(|source.Body()| - offset, limit) else offset
  }

  /** A frame is asked for if the body is not at its end and the limit leaves room. */
  ghost predicate Framed(e: Emission, sources: seq<RequestSource>, at: map<RequestSource, nat>) {
    && e.DataFrame? && e.source < |sources| && e.limit > 0 && sources[e.source] in at
    && at[sources[e.source]] < |sources[e.source].Body()|
  }

  ghost function OctetsOf(e: Emission, sources: seq<RequestSource>, at: map<RequestSource, nat>): seq<byte> {
    if e.Control? then e.octets
    else if Framed(e, sources, at) then
      var s := sources[e.source];
      e.frameHeader + s.Body()[at[s]..NextStop(s, at[s], e.limit)]
    else []
  }

  ghost function Advanced(e: Emission, sources: seq<RequestSource>, at: map<RequestSource, nat>): map<RequestSource, nat> {
    if Framed(e, sources, at) then
      var s := sources[e.source];
      at[s := NextStop(s, at[s], e.limit)]
    else at
  }

  /** Where the bodies stand after a script. */
  ghost function Standing(
    script: seq<Emission>, sources: seq<RequestSource>, at: map<RequestSource, nat>): map<RequestSource, nat>
  {
    if script == [] then at
    else Advanced(script[|script| - 1], sources, Standing(script[..|script| - 1], sources, at))
  }

  /** All octets a script asks for, in its order. */
  ghost function Handed(script: seq<Emission>, sources: seq<RequestSource>, at: map<RequestSource, nat>): seq<byte> {
    if script == [] then []
    else
      var init := script[..|script| - 1];
      Handed(init, sources, at) + OctetsOf(script[|script| - 1], sources, Standing(init, sources, at))
  }

  function Scripts(rounds: seq<Round>): seq<Emission> {
    if rounds == [] then []
    else
      var init, last := Scripts(rounds[..|rounds| - 1]), rounds[|rounds| - 1];
      if last.Send? then init + last.script else init
  }

  lemma HandedNext(
    script: seq<Emission>, sources: seq<RequestSource>, at: map<RequestSource, nat>, i: nat, before: seq<byte>)
    requires i < |script|
    ensures var now := Standing(script[..i], sources, at);
            && Standing(script[..i + 1], sources, at) == Advanced(script[i], sources, now)
            && before + Handed(script[..i + 1], sources, at)
               == before + Handed(script[..i], sources, at) + OctetsOf(script[i], sources, now)
  {
    assert script[..i + 1][..i] == script[..i];
    ConcatAssociative(before, Handed(script[..i], sources, at),
                      OctetsOf(script[i], sources, Standing(script[..i], sources, at)));
  }

  lemma {:induction false} HandedFront(
    script: seq<Emission>, sources: seq<RequestSource>, at: map<RequestSource, nat>, i: nat, before: seq<byte>)
    requires i <= |script|
    ensures before + Handed(script[..i], sources, at) <= before + Handed(script, sources, at)
    decreases |script| - i
  {
    if i == |script| {
      assert script[..i] == script;
    } else {
      HandedNext(script, sources, at, i, before);
      HandedFront(script, sources, at, i + 1, before);
    }
  }

  lemma {:induction false} HandedConcat(
    a: seq<Emission>, b: seq<Emission>, sources: seq<RequestSource>, at: map<RequestSource, nat>)
    ensures Standing(a + b, sources, at) == Standing(b, sources, Standing(a, sources, at))
    ensures Handed(a + b, sources, at) == Handed(a, sources, at) + Handed(b, sources, Standing(a, sources, at))
    decreases |b|
  {
    if b == [] {
      assert a + b == a;
    } else {
      var init, now := b[..|b| - 1], Standing(a, sources, at);
      assert (a + b)[..|a + b| - 1] == a + init;
      HandedConcat(a, init, sources, at);
      ConcatAssociative(Handed(a, sources, at), Handed(init, sources, now),
                        OctetsOf(b[|b| - 1], sources, Standing(init, sources, now)));
    }
  }

  lemma BodyGrows(before: seq<byte>, body: seq<byte>, start: nat, from: nat, to: nat, end: nat)
    requires start <= from <= to <= end <= |body|
    ensures before + body[start..from] + body[from..to] == before + body[start..to]
    ensures before + body[start..to] <= before + body[start..end]
  {
    SliceConcat(body, start, from, to);
    SliceConcat(body, start, to, end);
    ConcatAssociative(before, body[start..from], body[from..to]);
    ConcatAssociative(before, body[start..to], body[to..end]);
  }

  /** A frame is its header and its payload, and so is a front part of it. */
  lemma FrameOctets(before: seq<byte>, header: seq<byte>, payload: seq<byte>, now: seq<byte>)
    ensures before + header + payload == before + (header + payload)
    ensures before + header <= now <= before + header + payload ==> before <= now <= before + (header + payload)
    ensures before <= before + header <= before + (header + payload)
  {
    ConcatAssociative(before, header, payload);
  }

  /** While the connection lives, every body stands where its frames say it does. */
  ghost predicate Sound(sources: seq<RequestSource>, dead: bool)
    reads set s | s in sources
  {
    !dead ==> forall s :: s in sources ==> s.Valid()
  }

  lemma SliceConcat<T>(s: seq<T>, i: nat, j: nat, k: nat)
    requires i <= j <= k <= |s|
    ensures s[i..j] + s[j..k] == s[i..k]
  {
  }

  // ------------------------------------------------------ from end to end

  function Chunks(frames: seq<Frame>): seq<seq<byte>> {
    if frames == [] then [] else Chunks(frames[..|frames| - 1]) + [frames[|frames| - 1].payload]
  }

  lemma {:induction false} PayloadsFlatten(frames: seq<Frame>)
    ensures Flatten(Chunks(frames)) == Payloads(frames)
  {
    if frames != [] {
      var init := frames[..|frames| - 1];
      PayloadsFlatten(init);
      FlattenAppend(Chunks(init), frames[|frames| - 1].payload);
    }
  }

  /** However the session cut a finished body into frames, the framing decoder reads the one
      message back out of them. */
  lemma FinishedBodyDecodes(lim: Limits, env: Env, request: Message, frames: seq<Frame>)
    requires !env.foreignReader && Acceptable(lim, [request])
    requires Payloads(frames) == Encode(request)
    ensures var d := OnChunks(lim, env, FRESH, Chunks(frames));
            d.queue == [request] && !d.discard && !d.MidMessage()
  {
    PayloadsFlatten(frames);
    assert [request][1..] == [];
    assert EncodeAll([request]) == Encode(request);
    DecodesExactly(lim, env, Chunks(frames), [request]);
  }

  // ------------------------------------------------ other ways to send a body

  /** The copying form: fills a buffer with the next octets of the body. */
  method CopyRequest(source: RequestSource, length: nat) returns (copied: seq<byte>)
    requires |source.header| == 5 && source.offset <= |source.Body()|
    modifies source`offset
    ensures |copied| == Min(|source.Body()| - old(source.offset), length)
    ensures source.offset == old(source.offset) + |copied|
    ensures copied == source.Body()[old(source.offset)..source.offset]
  {
    copied := [];
    ghost var start := source.offset;
    var total := |source.header| + |source.request|;
    while |copied| < length && source.offset < total
      invariant |copied| <= length && start <= source.offset <= total
      invariant copied == source.Body()[start..source.offset]
      decreases total - source.offset
    {
      var left := if total - source.offset < length - |copied| then total - source.offset else length - |copied|;
      var piece := source.Piece(left);
      SliceConcat(source.Body(), start, source.offset, source.offset + |piece|);
      copied := copied + piece;
      source.offset := source.offset + |piece|;
    }
  }

  /** Points up to three vectors behind `iov` at the next octets of the body, which stays where it is. */
  method FillVectors(source: RequestSource, iov: seq<seq<byte>>, length: nat)
    returns (filled: seq<seq<byte>>, count: nat)
    requires |source.header| == 5 && source.offset <= |source.Body()| && |iov| == 1
    ensures |filled| <= 4 && count <= length && source.offset + count <= |source.Body()|
    ensures Flatten(filled) == Flatten(iov) + source.Body()[source.offset..source.offset + count]
    ensures count == Min(|source.Body()| - source.offset, length)
    ensures unchanged(source)
  {
    filled, count := iov, 0;
    var at := source.offset;
    var total := |source.header| + |source.request|;
    while count < length && at < total && |filled| < 4
      invariant at == source.offset + count <= total && count <= length && 1 <= |filled| <= 4
      invariant Flatten(filled) == Flatten(iov) + source.Body()[source.offset..at]
      invariant |filled| == 1 || count == length || (|filled| == 2 && at == |source.header|) || at == total
      decreases total - at
    {
      var piece := NextVector(source, at, length - count);
      VectorAdded(iov, filled, source.Body(), source.offset, at, piece);
      filled, count, at := filled + [piece], count + |piece|, at + |piece|;
    }
  }

  /** The rest of the message header, or of the request, from `at` on and up to `left` octets. */
  method NextVector(source: RequestSource, at: nat, left: nat) returns (piece: seq<byte>)
    requires |source.header| == 5 && at < |source.Body()| && 0 < left
    ensures 0 < |piece| <= left && at + |piece| <= |source.Body()| && piece == source.Body()[at..at + |piece|]
    ensures |piece| == left || (at < |source.header| && at + |piece| == |source.header|) || at + |piece| == |source.Body()|
  {
    piece := if at < |source.header| then source.header[at..] else source.request[at - |source.header|..];
    if |piece| > left {
      piece := piece[..left];
    }
  }

  lemma VectorAdded(iov: seq<seq<byte>>, filled: seq<seq<byte>>, body: seq<byte>, start: nat, at: nat, piece: seq<byte>)
    requires start <= at && at + |piece| <= |body| && piece == body[at..at + |piece|]
    requires Flatten(filled) == Flatten(iov) + body[start..at]
    ensures Flatten(filled + [piece]) == Flatten(iov) + body[start..at + |piece|]
  {
    FlattenAppend(filled, piece);
    SliceConcat(body, start, at, at + |piece|);
    ConcatAssociative(Flatten(iov), body[start..at], piece);
  }

  /** Drops the first `n` octets from a list of vectors, and the vectors it empties in front. */
  method ConsumeVectors(iov: seq<seq<byte>>, n: nat) returns (rest: seq<seq<byte>>)
    requires n <= |Flatten(iov)|
    ensures Flatten(rest) == Flatten(iov)[n..] && |rest| <= |iov|
  {
    rest := iov;
    var consumed := n;
    while rest != [] && consumed >= |rest[0]|
      invariant 0 <= consumed <= |Flatten(rest)| && |rest| <= |iov|
      invariant Flatten(rest)[consumed..] == Flatten(iov)[n..]
      decreases |rest|
    {
      assert Flatten(rest)[|rest[0]|..] == Flatten(rest[1..]);
      assert Flatten(rest)[consumed..] == Flatten(rest[1..])[consumed - |rest[0]|..];
      consumed := consumed - |rest[0]|;
      rest := rest[1..];
    }
    if rest != [] {
      ghost var tail := Flatten(rest[1..]);
      var front := rest[0][consumed..];
      assert ([front] + rest[1..])[1..] == rest[1..];
      assert (rest[0] + tail)[consumed..] == front + tail;
      rest := [front] + rest[1..];
    }
  }

  /** The vectored form: one frame, written under any pattern of partial writes. */
  method WriteVectored(conn: Connection, source: RequestSource, frameHeader: seq<byte>, length: nat) returns (ok: bool)
    requires |source.header| == 5 && source.offset <= |source.Body()| && |frameHeader| == 9
    modifies conn`wire, conn`broken, source`offset
    ensures length > |source.Body()| - old(source.offset) ==> !ok && conn.wire == old(conn.wire)
    ensures if ok
            then source.offset == old(source.offset) + length <= |source.Body()|
                 && conn.wire == old(conn.wire) + (frameHeader + source.Body()[old(source.offset)..source.offset])
            else
              && source.offset == old(source.offset) && old(conn.wire) <= conn.wire
              && (conn.broken || length > |source.Body()| - source.offset)
              && (length <= |source.Body()| - source.offset ==>
                    conn.wire <= old(conn.wire) + (frameHeader + source.Body()[source.offset..source.offset + length]))
  {
    assert [frameHeader][1..] == [];
    var iov, filled := FillVectors(source, [frameHeader], length);
    if filled != length {
      return false;
    }
    ok := PushVectors(conn, iov);
    if ok {
      source.offset := source.offset + length;
    }
  }

  /** Writes a list of vectors, shortening it by whatever the socket takes. */
  method PushVectors(conn: Connection, iov: seq<seq<byte>>) returns (ok: bool)
    modifies conn`wire, conn`broken
    ensures ok ==> conn.wire == old(conn.wire) + Flatten(iov)
    ensures !ok ==> conn.broken
    ensures old(conn.wire) <= conn.wire <= old(conn.wire) + Flatten(iov)
  {
    var rest := iov;
    ghost var all := old(conn.wire) + Flatten(iov);
    while |Flatten(rest)| > 0
      invariant conn.wire + Flatten(rest) == all && old(conn.wire) <= conn.wire
      decreases |Flatten(rest)|
    {
      var n := conn.SocketSend(Flatten(rest));
      if n <= 0 {
        return false;
      }
      rest := ConsumeVectors(rest, n);
    }
    assert conn.wire + [] == conn.wire;
    ok := true;
  }
}
