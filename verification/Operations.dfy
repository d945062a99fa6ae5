/**
  The operations that open, drive, cancel and drop calls on shared connections, built from
  the pieces of `Lifecycle`, and what holds after every run of them.
 */
module Operations {
  import opened Bytes
  import opened Lifecycle
  import opened ConnectionCache

  // ------------------------------------------------------------ giving up a call

  /** How far an RST_STREAM got; after a flush the session may already have closed the stream. */
  datatype Reset = Flushed(closes: bool) | SubmitFailed | FlushFailed

  /** Resets the stream of a call so that the connection stays usable for others. */
  function CancelStream(w: World, x: CallId, r: Reset): World
    requires x in w.calls
  {
    var call := w.calls[x];
    if call.conn.None? || call.conn.value !in w.conns || w.conns[call.conn.value].dead || call.stream <= 0 || call.closed
    then w
    else
      var c := call.conn.value;
      match r
      case Flushed(closes) =>
        var v := StopSending(w, c, call.stream);
        if closes then OnStreamClose(v, c, call.stream) else v
      case SubmitFailed => MarkDead(w, c)
      case FlushFailed => MarkDead(StopSending(w, c, call.stream), c)
  }

  /** Whatever becomes of the reset, the session will not come back to the request. */
  lemma CancelStreamCore(w: World, x: CallId, r: Reset)
    requires Core(w) && x in w.calls
    ensures var v := CancelStream(w, x, r);
            Core(v) && Harmless(w, v) && Quiet(v, x)
  {
    var call, v := w.calls[x], CancelStream(w, x, r);
    if v == w {
      assert Harmless(w, w);
    }
    if call.conn.None? || call.conn.value !in w.conns || w.conns[call.conn.value].dead || call.stream <= 0 || call.closed {
      QuietUnless(w, x);
    } else {
      CancelLive(w, x, r);
    }
  }

  lemma CancelLive(w: World, x: CallId, r: Reset)
    requires Core(w) && x in w.calls && w.calls[x].conn.Some? && w.calls[x].stream > 0 && !w.calls[x].closed
    requires w.calls[x].conn.value in w.conns && !w.conns[w.calls[x].conn.value].dead
    ensures var v := CancelStream(w, x, r);
            Core(v) && Harmless(w, v) && Quiet(v, x)
  {
    var c, s := w.calls[x].conn.value, w.calls[x].stream;
    var u := StopSending(w, c, s);
    StopSendingCore(w, c, s);
    QuietUnless(u, x);
    match r
    case Flushed(closes) =>
      if closes {
        OnStreamCloseCore(u, c, s);
        HarmlessTrans(w, u, OnStreamClose(u, c, s));
        HarmlessQuiet(u, OnStreamClose(u, c, s), x);
      }
    case SubmitFailed =>
      MarkDeadCore(w, c);
      QuietUnless(MarkDead(w, c), x);
    case FlushFailed =>
      MarkDeadCore(u, c);
      HarmlessTrans(w, u, MarkDead(u, c));
      HarmlessQuiet(u, MarkDead(u, c), x);
  }

  ghost predicate SettledBut(w: World, x: CallId) {
    forall y :: y in w.calls && y != x && w.calls[y].conn.Some? ==> w.calls[y].owned
  }

  /** What the books say about a single call. */
  ghost predicate CallOk(w: World, x: CallId) {
    && x in w.calls
    && (w.calls[x].conn.Some? ==> w.calls[x].conn.value in w.conns)
    && (w.calls[x].conn.None? ==> !w.calls[x].owned)
    && (w.calls[x].registered ==> w.calls[x].owned && w.calls[x].stream > 0)
  }

  lemma CallFacts(w: World, x: CallId)
    requires Core(w) && x in w.calls
    ensures CallOk(w, x)
  {
    assert Holds(OwnerPart, w) && Holds(ListPart, w);
  }

  /** The books are in order while call `x` is being worked on. */
  ghost predicate Busy(w: World, x: CallId) {
    Core(w) && CallOk(w, x) && SettledBut(w, x) && NoLeakBut(w, w.calls[x].conn)
  }

  lemma HarmlessBusy(w: World, v: World, x: CallId)
    requires Busy(w, x) && Core(v) && Harmless(w, v)
    ensures Busy(v, x)
  {
    CallFacts(v, x);
  }

  lemma DetachBusy(w: World, c: ConnId, x: CallId)
    requires Busy(w, x) && w.calls[x].conn == Some(c)
    ensures Busy(DetachByPtr(w, c), x) && Busy(DetachIfUnusable(w, c), x)
    ensures Quiet(w, x) ==> Quiet(DetachByPtr(w, c), x) && Quiet(DetachIfUnusable(w, c), x)
  {
    DetachCore(w, c);
  }

  /** Gives up the connection of a streaming call. */
  function ClearStreaming(w: World, x: CallId): World
    requires x in w.calls
  {
    if w.calls[x].conn.None? || w.calls[x].conn.value !in w.conns then w
    else
      var c := w.calls[x].conn.value;
      DestroyIfUnowned(ReleaseOwner(Unregister(DetachIfUnusable(w, c), x), x, false), c)
  }

  /** A connection that has become unusable is not left in the cache. */
  ghost predicate NotStale(v: World, c: Option<ConnId>) {
    c.Some? && c.value in v.conns ==> v.conns[c.value].Usable() || v.conns[c.value].detached
  }

  lemma ClearStreamingInv(w: World, x: CallId)
    requires Busy(w, x) && Quiet(w, x)
    ensures var v := ClearStreaming(w, x);
            && Inv(v) && Quiet(v, x) && v.calls.Keys == w.calls.Keys
            && !v.calls[x].registered && !v.calls[x].owned && v.calls[x].conn == None
            && v.calls[x].completed == w.calls[x].completed && NotStale(v, w.calls[x].conn)
  {
    if w.calls[x].conn.Some? {
      var c := w.calls[x].conn.value;
      DetachBusy(w, c, x);
      UnregisterBusy(DetachIfUnusable(w, c), x);
      DetachedNotStale(w, c, x);
      DropConnection(Unregister(DetachIfUnusable(w, c), x), x);
    }
  }

  lemma DetachedNotStale(w: World, c: ConnId, x: CallId)
    requires Core(w) && c in w.conns && x in w.calls
    ensures NotStale(Unregister(DetachIfUnusable(w, c), x), Some(c))
  {
    DetachCore(w, c);
  }

  lemma UnregisterBusy(w: World, x: CallId)
    requires Busy(w, x)
    ensures var v := Unregister(w, x);
            && Busy(v, x) && !v.calls[x].registered && v.calls[x].conn == w.calls[x].conn
            && v.calls.Keys == w.calls.Keys && (Quiet(w, x) ==> Quiet(v, x))
            && v.calls[x].completed == w.calls[x].completed
  {
    UnregisterCore(w, x);
    UnregisterHarmless(w, x);
    HarmlessBusy(w, Unregister(w, x), x);
    if Quiet(w, x) {
      HarmlessQuiet(w, Unregister(w, x), x);
    }
  }

  lemma DropConnection(t: World, x: CallId)
    requires Busy(t, x) && Quiet(t, x) && t.calls[x].conn.Some? && !t.calls[x].registered
    ensures var v := DestroyIfUnowned(ReleaseOwner(t, x, false), t.calls[x].conn.value);
            && Inv(v) && Quiet(v, x) && v.calls.Keys == t.calls.Keys
            && !v.calls[x].registered && !v.calls[x].owned && v.calls[x].conn == None
            && v.calls[x].completed == t.calls[x].completed
            && (NotStale(t, t.calls[x].conn) ==> NotStale(v, t.calls[x].conn))
  {
    ReleaseCore(t, x, false);
    ReleaseBusy(t, x);
    DestroyCore(ReleaseOwner(t, x, false), t.calls[x].conn.value);
  }

  lemma ReleaseBusy(t: World, x: CallId)
    requires Busy(t, x) && Quiet(t, x) && t.calls[x].conn.Some? && !t.calls[x].registered
    ensures var v := ReleaseOwner(t, x, false);
            Settled(v) && NoLeakBut(v, t.calls[x].conn) && Quiet(v, x)
  {
  }

  lemma FreeInv(w: World, x: CallId)
    requires Inv(w) && x in w.calls && Quiet(w, x)
    requires !w.calls[x].registered && !w.calls[x].owned && w.calls[x].conn == None
    ensures Inv(FreeCall(w, x))
  {
    FreeCore(w, x);
  }

  /** Drops a streaming call for good, resetting its stream first if that is still open. */
  function DestroyState(w: World, x: CallId, r: Reset): World
    requires x in w.calls
  {
    var v := ResetOpenStream(w, x, r);
    if x in v.calls then FreeCall(ClearStreaming(v, x), x) else v
  }

  function ResetOpenStream(w: World, x: CallId, r: Reset): World
    requires x in w.calls
  {
    var call := w.calls[x];
    if !call.completed && !call.closed && call.conn.Some? && call.conn.value in w.conns
       && !w.conns[call.conn.value].dead && call.stream > 0
       && call.conn.value in CancelStream(w, x, r).conns
    then DetachIfUnusable(CancelStream(w, x, r), call.conn.value)
    else w
  }

  lemma DestroyStateInv(w: World, x: CallId, r: Reset)
    requires Busy(w, x)
    ensures Inv(DestroyState(w, x, r)) && DestroyState(w, x, r).calls.Keys == w.calls.Keys - {x}
    ensures NotStale(DestroyState(w, x, r), w.calls[x].conn)
  {
    var call := w.calls[x];
    if !call.completed && !call.closed && call.conn.Some? && !w.conns[call.conn.value].dead && call.stream > 0 {
      ResetForGood(w, x, r);
      var v := DetachIfUnusable(CancelStream(w, x, r), call.conn.value);
      ClearStreamingInv(v, x);
      FreeInv(ClearStreaming(v, x), x);
    } else {
      QuietUnless(w, x);
      ClearStreamingInv(w, x);
      FreeInv(ClearStreaming(w, x), x);
    }
  }

  lemma ResetForGood(w: World, x: CallId, r: Reset)
    requires Busy(w, x) && w.calls[x].conn.Some?
    ensures var c, u := w.calls[x].conn.value, CancelStream(w, x, r);
            && c in u.conns && u.calls.Keys == w.calls.Keys
            && Busy(DetachIfUnusable(u, c), x) && Quiet(DetachIfUnusable(u, c), x)
            && DetachIfUnusable(u, c).calls == u.calls && u.calls[x].conn == Some(c)
  {
    var c, u := w.calls[x].conn.value, CancelStream(w, x, r);
    CancelStreamCore(w, x, r);
    HarmlessBusy(w, u, x);
    DetachBusy(u, c, x);
    DetachCore(u, c);
  }

  lemma InvBusy(w: World, x: CallId)
    requires Inv(w) && x in w.calls
    ensures Busy(w, x)
  {
    CallFacts(w, x);
  }

  lemma OwnedIsCounted(w: World, x: CallId)
    requires Core(w) && x in w.calls && w.calls[x].owned && w.calls[x].conn.Some?
    ensures w.calls[x].conn.value in w.conns && w.conns[w.calls[x].conn.value].ownerCount > 0
  {
    assert Holds(OwnerPart, w);
    assert x in Owners(w, w.calls[x].conn.value);
  }

  /** Work on a call is over once it owns its connection or has none. */
  lemma BusyOver(w: World, x: CallId)
    requires Busy(w, x) && (w.calls[x].conn.Some? ==> w.calls[x].owned)
    ensures Inv(w)
  {
    if w.calls[x].conn.Some? {
      OwnedIsCounted(w, x);
    }
  }

  lemma HarmlessInv(w: World, v: World)
    requires Inv(w) && Core(v) && Harmless(w, v)
    ensures Inv(v)
  {
  }

  // --------------------------------------------------------- starting a call

  function AllocCall(w: World, x: CallId, c: ConnId): World {
    SetCall(w, x, Call(Some(c), 0, false, false, false, false))
  }

  /** The session takes the request: a new stream that reads its DATA from the call. */
  function Submit(w: World, c: ConnId, x: CallId, s: StreamId): World
    requires c in w.conns && x in w.calls
  {
    SetCall(SetConn(w, c, w.conns[c].(session := w.conns[c].session[s := Stream(x, None, true)])),
            x, w.calls[x].(stream := s))
  }

  function Register(w: World, c: ConnId, x: CallId): World
    requires c in w.conns && x in w.calls
  {
    var conn, call := w.conns[c], w.calls[x];
    var session := if call.stream > 0 && call.stream in conn.session
                   then conn.session[call.stream := conn.session[call.stream].(user := Some(x))] else conn.session;
    SetCall(SetConn(w, c, conn.(active := [x] + conn.active, activeCount := conn.activeCount + 1,
                                ownerCount := conn.ownerCount + 1, session := session)),
            x, call.(conn := Some(c), registered := true, owned := true))
  }

  /** Submits the request and puts the call on the list. */
  function Launch(w: World, c: ConnId, x: CallId, s: StreamId): World
    requires c in w.conns && x in w.calls
  {
    Register(Submit(w, c, x, s), c, x)
  }

  lemma AllocBusy(w: World, x: CallId, c: ConnId)
    requires Inv(w) && x !in w.calls && c in w.conns
    ensures Busy(AllocCall(w, x, c), x)
  {
    forall p
      ensures Holds(p, AllocCall(w, x, c))
    {
      AllocPart(w, x, c, p);
    }
  }

  lemma AllocPart(w: World, x: CallId, c: ConnId, p: Part)
    requires Core(w) && x !in w.calls && c in w.conns
    ensures Holds(p, AllocCall(w, x, c))
  {
    var v := AllocCall(w, x, c);
    assert Holds(p, w);
    match p
    case CachePart => CacheFrame(w, v);
    case ListPart => AllocLists(w, x, c);
    case OwnerPart => AllocOwners(w, x, c);
    case FreedPart => FreedFrame(w, v);
    case SourcePart => AllocSources(w, x, c);
  }

  lemma AllocOwners(w: World, x: CallId, c: ConnId)
    requires OwnersOk(w) && x !in w.calls && c in w.conns
    ensures OwnersOk(AllocCall(w, x, c))
  {
    var v := AllocCall(w, x, c);
    forall d | d in v.conns
      ensures v.conns[d].ownerCount == |Owners(v, d)|
    {
      assert Owners(v, d) == Owners(w, d);
    }
  }

  lemma AllocLists(w: World, x: CallId, c: ConnId)
    requires ListsOk(w) && x !in w.calls
    ensures ListsOk(AllocCall(w, x, c))
  {
  }

  lemma AllocSources(w: World, x: CallId, c: ConnId)
    requires SourcesOk(w) && x !in w.calls
    ensures SourcesOk(AllocCall(w, x, c))
  {
  }

  /** A call whose request has not been submitted. */
  ghost predicate Unsubmitted(w: World, x: CallId, c: ConnId) {
    x in w.calls && w.calls[x] == Call(Some(c), 0, false, false, false, false)
  }

  lemma SubmitBusy(w: World, c: ConnId, x: CallId, s: StreamId)
    requires Busy(w, x) && Unsubmitted(w, x, c) && s > 0 && s !in w.conns[c].session
    ensures Busy(Submit(w, c, x, s), x)
  {
    var v := Submit(w, c, x, s);
    OpenBooks(w);
    SubmitFrame(w, c, x, s);
    CacheFrame(w, v);
    OwnersFrame(w, v);
    SubmitLists(w, c, x, s);
    SubmitSources(w, c, x, s);
    FreedFrame(w, v);
    CloseBooks(v);
  }

  lemma SubmitFrame(w: World, c: ConnId, x: CallId, s: StreamId)
    requires c in w.conns && x in w.calls
    ensures SameCache(w, Submit(w, c, x, s)) && SameOwners(w, Submit(w, c, x, s))
  {
  }

  lemma SubmitLists(w: World, c: ConnId, x: CallId, s: StreamId)
    requires ListsOk(w) && c in w.conns && Unsubmitted(w, x, c)
    ensures ListsOk(Submit(w, c, x, s))
  {
  }

  lemma SubmitSources(w: World, c: ConnId, x: CallId, s: StreamId)
    requires SourcesOk(w) && c in w.conns && Unsubmitted(w, x, c) && s > 0 && s !in w.conns[c].session
    ensures SourcesOk(Submit(w, c, x, s))
  {
  }

  /** A submitted call that is not yet on the list. */
  ghost predicate Submitted(w: World, x: CallId, c: ConnId, s: StreamId) {
    x in w.calls && s > 0 && w.calls[x] == Call(Some(c), s, false, false, false, false)
  }

  lemma RegisterInv(w: World, c: ConnId, x: CallId, s: StreamId)
    requires Busy(w, x) && Submitted(w, x, c, s)
    ensures Inv(Register(w, c, x))
  {
    forall p
      ensures Holds(p, Register(w, c, x))
    {
      RegisterPart(w, c, x, s, p);
    }
    CallFacts(Register(w, c, x), x);
  }

  lemma RegisterPart(w: World, c: ConnId, x: CallId, s: StreamId, p: Part)
    requires Core(w) && c in w.conns && Submitted(w, x, c, s)
    ensures Holds(p, Register(w, c, x))
  {
    assert Holds(p, w);
    match p
    case CachePart => RegisterCache(w, c, x);
    case ListPart => RegisterLists(w, c, x, s);
    case OwnerPart => RegisterOwners(w, c, x, s);
    case FreedPart => FreedFrame(w, Register(w, c, x));
    case SourcePart => RegisterSources(w, c, x, s);
  }

  lemma RegisterCache(w: World, c: ConnId, x: CallId)
    requires CacheOk(w) && c in w.conns && x in w.calls
    ensures CacheOk(Register(w, c, x))
  {
    CacheFrame(w, Register(w, c, x));
  }

  lemma RegisterLists(w: World, c: ConnId, x: CallId, s: StreamId)
    requires ListsOk(w) && c in w.conns && Submitted(w, x, c, s)
    ensures ListsOk(Register(w, c, x))
  {
    var v := Register(w, c, x);
    assert x !in w.conns[c].active;
    assert forall y :: y in v.conns[c].active <==> y == x || y in w.conns[c].active;
    assert NoDup(v.conns[c].active) by {
      assert forall i :: 0 <= i < |w.conns[c].active| ==> w.conns[c].active[i] in w.conns[c].active;
    }
  }

  lemma RegisterOwners(w: World, c: ConnId, x: CallId, s: StreamId)
    requires OwnersOk(w) && c in w.conns && Submitted(w, x, c, s)
    ensures OwnersOk(Register(w, c, x))
  {
    var v := Register(w, c, x);
    forall d | d in v.conns
      ensures v.conns[d].ownerCount == |Owners(v, d)|
    {
      OwnersAfterRegister(w, c, x, s, d);
    }
  }

  lemma OwnersAfterRegister(w: World, c: ConnId, x: CallId, s: StreamId, d: ConnId)
    requires c in w.conns && Submitted(w, x, c, s)
    ensures x !in Owners(w, d)
    ensures Owners(Register(w, c, x), d) == if d == c then Owners(w, d) + {x} else Owners(w, d)
  {
  }

  lemma RegisterSources(w: World, c: ConnId, x: CallId, s: StreamId)
    requires SourcesOk(w) && c in w.conns && Submitted(w, x, c, s)
    ensures SourcesOk(Register(w, c, x))
  {
  }

  /** How far the opening of a streaming call gets once it has its record; `NoTime` is the
      deadline check that stands between the fixed headers and the grpc-timeout. */
  datatype Opening =
    | NoTime
    | BadHeaders
    | Rejected(fatal: bool)
    | RegisterFailed(stream: StreamId)
    | SendFailed(stream: StreamId)
    | Opened(stream: StreamId)

  function OpenOn(w: World, c: ConnId, x: CallId, o: Opening, r: Reset): World
    requires c in w.conns && x in w.calls
  {
    match o
    case NoTime => DestroyState(w, x, r)
    case BadHeaders => DestroyState(w, x, r)
    case Rejected(fatal) => DestroyState(if fatal then DetachByPtr(MarkDead(w, c), c) else w, x, r)
    case RegisterFailed(s) =>
      if s == 0 || s in w.conns[c].session then DestroyState(w, x, r)
      else DestroyState(MarkDead(Submit(w, c, x, s), c), x, r)
    case SendFailed(s) =>
      if s == 0 || s in w.conns[c].session then DestroyState(w, x, r)
      else DestroyState(MarkDead(Launch(w, c, x, s), c), x, r)
    case Opened(s) =>
      if s == 0 || s in w.conns[c].session then DestroyState(w, x, r)
      else Launch(w, c, x, s)
  }

  /** Opens a streaming call: a connection from the cache, a record, a stream.  Nothing comes
      after the connection if the deadline has already passed, `o` being `None` then. */
  function OpenStreaming(w: World, key: Key, x: CallId, l: Lookup, o: Option<Opening>, r: Reset): World {
    if x in w.calls then w
    else
      var (v, got) := GetPersistent(w, key, l);
      if got.None? || got.value !in v.conns || o.None? then v
      else OpenOn(AllocCall(v, x, got.value), got.value, x, o.value, r)
  }

  lemma MarkDeadBusy(w: World, c: ConnId, x: CallId)
    requires Busy(w, x) && c in w.conns
    ensures Busy(MarkDead(w, c), x) && MarkDead(w, c).calls == w.calls
  {
    MarkDeadCore(w, c);
    HarmlessBusy(w, MarkDead(w, c), x);
  }

  lemma OpenOnInv(w: World, c: ConnId, x: CallId, o: Opening, r: Reset)
    requires Busy(w, x) && Unsubmitted(w, x, c) && c in w.conns
    ensures Inv(OpenOn(w, c, x, o, r))
    ensures x !in OpenOn(w, c, x, o, r).calls ==> NotStale(OpenOn(w, c, x, o, r), Some(c))
    ensures x in OpenOn(w, c, x, o, r).calls <==> o.Opened? && o.stream != 0 && o.stream !in w.conns[c].session
  {
    DestroyStateInv(w, x, r);
    match o
    case NoTime =>
    case BadHeaders =>
    case Rejected(fatal) => RejectedInv(w, c, x, r);
    case RegisterFailed(s) => RegisterFailedInv(w, c, x, s, r);
    case SendFailed(s) => SendFailedInv(w, c, x, s, r);
    case Opened(s) =>
      if s != 0 && s !in w.conns[c].session {
        OpenedInv(w, c, x, s);
      }
  }

  lemma RegisterFailedInv(w: World, c: ConnId, x: CallId, s: StreamId, r: Reset)
    requires Busy(w, x) && Unsubmitted(w, x, c) && c in w.conns
    ensures var v := OpenOn(w, c, x, RegisterFailed(s), r);
            Inv(v) && x !in v.calls && NotStale(v, Some(c))
  {
    DestroyStateInv(w, x, r);
    if s != 0 && s !in w.conns[c].session {
      SubmitBusy(w, c, x, s);
      FailedInv(Submit(w, c, x, s), c, x, r);
    }
  }

  lemma SendFailedInv(w: World, c: ConnId, x: CallId, s: StreamId, r: Reset)
    requires Busy(w, x) && Unsubmitted(w, x, c) && c in w.conns
    ensures var v := OpenOn(w, c, x, SendFailed(s), r);
            Inv(v) && x !in v.calls && NotStale(v, Some(c))
  {
    DestroyStateInv(w, x, r);
    if s != 0 && s !in w.conns[c].session {
      OpenedInv(w, c, x, s);
      InvBusy(Launch(w, c, x, s), x);
      FailedInv(Launch(w, c, x, s), c, x, r);
    }
  }

  lemma RejectedInv(w: World, c: ConnId, x: CallId, r: Reset)
    requires Busy(w, x) && w.calls[x].conn == Some(c) && c in w.conns
    ensures var v := DestroyState(DetachByPtr(MarkDead(w, c), c), x, r);
            Inv(v) && x !in v.calls && NotStale(v, Some(c))
  {
    var v := MarkDead(w, c);
    MarkDeadBusy(w, c, x);
    DetachBusy(v, c, x);
    DetachCore(v, c);
    DestroyStateInv(DetachByPtr(v, c), x, r);
  }

  /** A submitted call that is given up together with its connection. */
  lemma FailedInv(v: World, c: ConnId, x: CallId, r: Reset)
    requires Busy(v, x) && v.calls[x].conn == Some(c) && c in v.conns
    ensures var u := DestroyState(MarkDead(v, c), x, r);
            Inv(u) && x !in u.calls && NotStale(u, Some(c))
  {
    MarkDeadBusy(v, c, x);
    DestroyStateInv(MarkDead(v, c), x, r);
  }

  lemma OpenedInv(w: World, c: ConnId, x: CallId, s: StreamId)
    requires Busy(w, x) && Unsubmitted(w, x, c) && c in w.conns && s > 0 && s !in w.conns[c].session
    ensures var v := Launch(w, c, x, s);
            Inv(v) && x in v.calls && v.calls[x].conn == Some(c) && v.calls[x].owned && c in v.conns
            && v.conns[c].detached == w.conns[c].detached && !v.calls[x].completed && v.cache == w.cache
            && v.calls.Keys == w.calls.Keys
  {
    SubmitBusy(w, c, x, s);
    RegisterInv(Submit(w, c, x, s), c, x, s);
  }

  lemma OpenStreamingInv(w: World, key: Key, x: CallId, l: Lookup, o: Option<Opening>, r: Reset)
    requires Inv(w)
    ensures Inv(OpenStreaming(w, key, x, l, o, r))
  {
    GetPersistentInv(w, key, l);
    var (v, got) := GetPersistent(w, key, l);
    if x !in w.calls && got.Some? && o.Some? {
      AllocBusy(v, x, got.value);
      OpenOnInv(AllocCall(v, x, got.value), got.value, x, o.value, r);
    }
  }

  // ----------------------------------------------------- driving and ending it

  /** The reasons a receive loop marks its call completed. */
  datatype Interruption = ConnectionDead | DeadlinePassed(r: Reset) | IoFailed

  function MarkCompleted(w: World, x: CallId): World
    requires x in w.calls
  {
    SetCall(w, x, w.calls[x].(completed := true))
  }

  function Interrupt(w: World, x: CallId, i: Interruption): World {
    if x !in w.calls || w.calls[x].completed || w.calls[x].closed || w.calls[x].conn.None?
       || w.calls[x].conn.value !in w.conns
    then w
    else match i
      case ConnectionDead => if w.conns[w.calls[x].conn.value].dead then MarkCompleted(w, x) else w
      case DeadlinePassed(r) =>
        if x in CancelStream(w, x, r).calls then MarkCompleted(CancelStream(w, x, r), x) else w
      case IoFailed => MarkCompleted(MarkDead(w, w.calls[x].conn.value), x)
  }

  /** A response policy has failed: the stream is reset and the call is over. */
  function Terminate(w: World, x: CallId, r: Reset): World
    requires x in w.calls
  {
    var conn, v := w.calls[x].conn, CancelStream(w, x, r);
    var u := if conn.Some? && conn.value in v.conns then DetachIfUnusable(v, conn.value) else v;
    if x in u.calls then MarkCompleted(u, x) else u
  }

  /** The final status is reported only for a stream that is closed or a call that is completed. */
  function Report(w: World, x: CallId): World {
    if x !in w.calls || !(w.calls[x].closed || w.calls[x].completed) then w
    else ClearStreaming(MarkCompleted(w, x), x)
  }

  function UserCancel(w: World, x: CallId, r: Reset): World {
    if x !in w.calls || w.calls[x].completed || w.calls[x].conn.None? || w.calls[x].conn.value !in w.conns
       || w.conns[w.calls[x].conn.value].dead || x !in Terminate(w, x, r).calls
    then w
    else ClearStreaming(Terminate(w, x, r), x)
  }

  lemma MarkCompletedBusy(w: World, x: CallId)
    requires Busy(w, x) && Quiet(w, x)
    ensures Busy(MarkCompleted(w, x), x) && Quiet(MarkCompleted(w, x), x)
  {
    MarkCore(w, x, w.calls[x].(completed := true));
  }

  lemma InterruptInv(w: World, x: CallId, i: Interruption)
    requires Inv(w)
    ensures Inv(Interrupt(w, x, i))
  {
    if x in w.calls && !w.calls[x].completed && !w.calls[x].closed && w.calls[x].conn.Some? {
      InvBusy(w, x);
      var c := w.calls[x].conn.value;
      match i
      case ConnectionDead =>
        if w.conns[c].dead {
          QuietUnless(w, x);
          CompletedInv(w, x);
        }
      case DeadlinePassed(r) =>
        var v := CancelStream(w, x, r);
        CancelStreamCore(w, x, r);
        HarmlessInv(w, v);
        CompletedInv(v, x);
      case IoFailed =>
        var v := MarkDead(w, c);
        MarkDeadCore(w, c);
        HarmlessInv(w, v);
        QuietUnless(v, x);
        CompletedInv(v, x);
    }
  }

  lemma CompletedInv(w: World, x: CallId)
    requires Inv(w) && x in w.calls && Quiet(w, x)
    ensures Inv(MarkCompleted(w, x)) && Quiet(MarkCompleted(w, x), x)
  {
    InvBusy(w, x);
    MarkCompletedBusy(w, x);
    BusyOver(MarkCompleted(w, x), x);
  }

  lemma TerminateInv(w: World, x: CallId, r: Reset)
    requires Inv(w) && x in w.calls
    ensures var v := Terminate(w, x, r);
            && Inv(v) && x in v.calls && Quiet(v, x) && v.calls.Keys == w.calls.Keys
            && v.calls[x].conn == w.calls[x].conn && v.calls[x].completed && NotStale(v, w.calls[x].conn)
  {
    InvBusy(w, x);
    if w.calls[x].conn.Some? {
      ResetForGood(w, x, r);
      var c, u := w.calls[x].conn.value, CancelStream(w, x, r);
      CancelStreamCore(w, x, r);
      var v := DetachIfUnusable(u, c);
      DetachCore(u, c);
      MarkCompletedBusy(v, x);
      BusyOver(MarkCompleted(v, x), x);
    } else {
      QuietUnless(w, x);
      CompletedInv(w, x);
    }
  }

  lemma ReportInv(w: World, x: CallId)
    requires Inv(w)
    ensures Inv(Report(w, x))
    ensures x in w.calls && (w.calls[x].closed || w.calls[x].completed) ==> NotStale(Report(w, x), w.calls[x].conn)
  {
    if x in w.calls && (w.calls[x].closed || w.calls[x].completed) {
      QuietUnless(w, x);
      CompletedInv(w, x);
      InvBusy(MarkCompleted(w, x), x);
      ClearStreamingInv(MarkCompleted(w, x), x);
    }
  }

  lemma UserCancelInv(w: World, x: CallId, r: Reset)
    requires Inv(w)
    ensures Inv(UserCancel(w, x, r))
    ensures UserCancel(w, x, r) != w ==> x in w.calls && NotStale(UserCancel(w, x, r), w.calls[x].conn)
  {
    if x in w.calls && w.calls[x].conn.Some? {
      var v := Terminate(w, x, r);
      TerminateInv(w, x, r);
      InvBusy(v, x);
      ClearStreamingInv(v, x);
    }
  }

  // ------------------------------------------------------------ unary attempts

  // ------------------------------------------------- what the operations achieve

  /** The call is over and has let go of its connection, and its request will not be read. */
  ghost predicate LetGo(v: World, x: CallId) {
    && x in v.calls && v.calls[x].completed && !v.calls[x].registered && !v.calls[x].owned
    && v.calls[x].conn == None && Quiet(v, x)
  }

  /** A cancel of a call that is not over, on a connection that may be driven, lets go of it. */
  lemma CancelLetsGo(w: World, x: CallId, r: Reset)
    requires Inv(w) && x in w.calls && !w.calls[x].completed && w.calls[x].conn.Some?
    requires w.calls[x].conn.value in w.conns && !w.conns[w.calls[x].conn.value].dead
    ensures LetGo(UserCancel(w, x, r), x)
  {
    TerminateInv(w, x, r);
    InvBusy(Terminate(w, x, r), x);
    ClearStreamingInv(Terminate(w, x, r), x);
  }

  /** Reporting the final status lets go of the connection. */
  lemma ReportLetsGo(w: World, x: CallId)
    requires Inv(w) && x in w.calls && (w.calls[x].closed || w.calls[x].completed)
    ensures LetGo(Report(w, x), x)
  {
    QuietUnless(w, x);
    CompletedInv(w, x);
    InvBusy(MarkCompleted(w, x), x);
    ClearStreamingInv(MarkCompleted(w, x), x);
  }

  /** An interrupted receive loop leaves a completed call whose request will not be read; a
      broken connection is dead afterwards. */
  lemma InterruptCompletes(w: World, x: CallId, i: Interruption)
    requires Inv(w) && x in w.calls && !w.calls[x].completed && !w.calls[x].closed && w.calls[x].conn.Some?
    requires i.ConnectionDead? ==> w.calls[x].conn.value in w.conns && w.conns[w.calls[x].conn.value].dead
    ensures var v, c := Interrupt(w, x, i), w.calls[x].conn.value;
            && x in v.calls && v.calls[x].completed && Quiet(v, x) && v.calls[x].conn == Some(c)
            && (i.IoFailed? ==> c in v.conns && v.conns[c].dead)
  {
    InvBusy(w, x);
    var c := w.calls[x].conn.value;
    match i
    case ConnectionDead =>
      QuietUnless(w, x);
      CompletedInv(w, x);
    case DeadlinePassed(r) =>
      var v := CancelStream(w, x, r);
      CancelStreamCore(w, x, r);
      HarmlessInv(w, v);
      CompletedInv(v, x);
    case IoFailed =>
      var v := MarkDead(w, c);
      MarkDeadCore(w, c);
      HarmlessInv(w, v);
      QuietUnless(v, x);
      CompletedInv(v, x);
  }

  /** A successful opening leaves a registered call that owns its connection, in front of the
      list, with a stream that reads its request. */
  lemma OpeningOpens(w: World, c: ConnId, x: CallId, s: StreamId, r: Reset)
    requires Busy(w, x) && Unsubmitted(w, x, c) && c in w.conns && s != 0 && s !in w.conns[c].session
    ensures var v := OpenOn(w, c, x, Opened(s), r);
            && x in v.calls && v.calls[x] == Call(Some(c), s, true, true, false, false)
            && c in v.conns && v.conns[c].active == [x] + w.conns[c].active
            && v.conns[c].ownerCount == w.conns[c].ownerCount + 1
            && v.conns[c].session == w.conns[c].session[s := Stream(x, Some(x), true)]
  {
  }

  /** How the receive loop of a unary call ends. */
  datatype Exit = Finished | TimedOut(r: Reset) | Broken | SessionRejected

  /** How far a unary attempt gets. */
  datatype Exchange =
    | OutOfTime
    | HeadersRefused
    | SubmitRefused(fatal: bool)
    | NotRegistered(stream: StreamId)
    | NotSent(stream: StreamId)
    | Exchanged(stream: StreamId, events: seq<Event>, exit: Exit)

  function OnEvents(w: World, c: ConnId, es: seq<Event>): World
    decreases |es|
  {
    if es == [] then w else OnEvents(OnEvent(w, c, es[0]), c, es[1..])
  }

  /** Every way out of a unary attempt: off the list, out of the owners, record dropped, and
      the connection with it if it was detached and this was its last owner. */
  function EndUnary(w: World, c: ConnId, x: CallId): World
    requires x in w.calls
  {
    DestroyIfUnowned(FreeCall(ReleaseOwner(Unregister(w, x), x, true), x), c)
  }

  function EndExchange(w: World, c: ConnId, x: CallId, exit: Exit): (World, bool)
    requires c in w.conns && x in w.calls
  {
    match exit
    case Finished => (EndUnary(if w.calls[x].closed then w else MarkDead(w, c), c, x), true)
    case TimedOut(r) => if x in CancelStream(w, x, r).calls then (EndUnary(CancelStream(w, x, r), c, x), true) else (w, true)
    case Broken => (EndUnary(MarkDead(w, c), c, x), true)
    case SessionRejected => (EndUnary(DetachByPtr(MarkDead(w, c), c), c, x), false)
  }

  /** One attempt on a connection; the flag tells whether the caller gets a result, in which
      case it goes on to look at the connection. */
  function UnaryOn(w: World, c: ConnId, x: CallId, e: Exchange): (World, bool)
    requires c in w.conns && x in w.calls
  {
    match e
    case OutOfTime => (EndUnary(w, c, x), true)
    case HeadersRefused => (EndUnary(w, c, x), false)
    case SubmitRefused(fatal) => (EndUnary(if fatal then DetachByPtr(MarkDead(w, c), c) else w, c, x), false)
    case NotRegistered(s) =>
      if s == 0 || s in w.conns[c].session then (EndUnary(w, c, x), false)
      else (EndUnary(DetachByPtr(MarkDead(Submit(w, c, x, s), c), c), c, x), false)
    case NotSent(s) =>
      if s == 0 || s in w.conns[c].session then (EndUnary(w, c, x), false)
      else (EndUnary(MarkDead(Launch(w, c, x, s), c), c, x), true)
    case Exchanged(s, events, exit) =>
      if s == 0 || s in w.conns[c].session then (EndUnary(w, c, x), false)
      else
        Converse(Launch(w, c, x, s), c, x, events, exit)
  }

  /** Events arrive until the receive loop is left. */
  function Converse(w: World, c: ConnId, x: CallId, events: seq<Event>, exit: Exit): (World, bool) {
    var v := OnEvents(w, c, events);
    if c in v.conns && x in v.calls then EndExchange(v, c, x, exit) else (v, false)
  }

  lemma {:induction false} OnEventsCore(w: World, c: ConnId, es: seq<Event>)
    requires Core(w)
    ensures Core(OnEvents(w, c, es)) && Harmless(w, OnEvents(w, c, es))
    decreases |es|
  {
    if es == [] {
      assert Harmless(w, w);
    } else {
      var v := OnEvent(w, c, es[0]);
      OnEventCore(w, c, es[0]);
      OnEventsCore(v, c, es[1..]);
      HarmlessTrans(w, v, OnEvents(v, c, es[1..]));
    }
  }

  /** The attempt leaves the books in order; a connection that is not detached survives it. */
  lemma EndUnaryInv(w: World, c: ConnId, x: CallId)
    requires Busy(w, x) && Quiet(w, x) && w.calls[x].conn == Some(c)
    ensures var v := EndUnary(w, c, x);
            && Inv(v) && v.calls.Keys == w.calls.Keys - {x} && v.cache == w.cache
            && (!w.conns[c].detached ==> c in v.conns && v.conns[c].Usable() == w.conns[c].Usable())
            && (c in v.conns ==> v.conns[c].detached == w.conns[c].detached)
  {
    var u := Unregister(w, x);
    UnregisterBusy(w, x);
    UnregisterHarmless(w, x);
    UnregisterUsable(w, x, c);
    ReleaseAndFree(u, x, c);
    DestroyCore(FreeCall(ReleaseOwner(u, x, true), x), c);
  }

  lemma UnregisterUsable(w: World, x: CallId, c: ConnId)
    requires x in w.calls && c in w.conns
    ensures Unregister(w, x).conns[c].Usable() == w.conns[c].Usable()
  {
  }

  lemma ReleaseAndFree(u: World, x: CallId, c: ConnId)
    requires Busy(u, x) && Quiet(u, x) && u.calls[x].conn == Some(c) && !u.calls[x].registered
    ensures var v := FreeCall(ReleaseOwner(u, x, true), x);
            && Core(v) && Settled(v) && NoLeakBut(v, Some(c)) && v.calls.Keys == u.calls.Keys - {x}
            && v.cache == u.cache && c in v.conns && v.conns[c].detached == u.conns[c].detached
            && v.conns[c].Usable() == u.conns[c].Usable()
  {
    var t := ReleaseOwner(u, x, true);
    ReleaseCore(u, x, true);
    assert Quiet(t, x);
    FreeCore(t, x);
  }

  /** The contract of a unary attempt: after a result the connection is still there to look at. */
  ghost predicate Survives(w: World, v: World, c: ConnId) {
    c in v.conns && v.cache == w.cache
  }

  /** The other half: after an exception a connection the attempt made unusable is out of the
      cache, and gone if nobody else owns it. */
  ghost predicate Disowned(w: World, v: World, c: ConnId)
    requires c in w.conns
  {
    c in v.conns ==> v.conns[c].detached || v.conns[c].Usable() == w.conns[c].Usable()
  }

  lemma EndExchangeInv(w: World, c: ConnId, x: CallId, exit: Exit)
    requires Busy(w, x) && w.calls[x].conn == Some(c) && c in w.conns && !w.conns[c].detached
    requires w.calls[x].completed == false
    ensures var (v, ok) := EndExchange(w, c, x, exit);
            Inv(v) && v.calls.Keys == w.calls.Keys - {x} && (ok ==> Survives(w, v, c))
            && (ok && !w.conns[c].Usable() ==> !v.conns[c].Usable())
            && (!ok && c in v.conns ==> v.conns[c].detached)
  {
    var dead := MarkDead(w, c);
    MarkDeadBusy(w, c, x);
    QuietUnless(dead, x);
    match exit
    case Finished =>
      if w.calls[x].closed {
        QuietUnless(w, x);
        EndUnaryInv(w, c, x);
      } else {
        EndUnaryInv(dead, c, x);
      }
    case TimedOut(r) =>
      CancelStreamCore(w, x, r);
      HarmlessBusy(w, CancelStream(w, x, r), x);
      EndUnaryInv(CancelStream(w, x, r), c, x);
    case Broken => EndUnaryInv(dead, c, x);
    case SessionRejected =>
      DetachBusy(dead, c, x);
      DetachCore(dead, c);
      EndUnaryInv(DetachByPtr(dead, c), c, x);
  }

  lemma UnaryOnInv(w: World, c: ConnId, x: CallId, e: Exchange)
    requires Busy(w, x) && Unsubmitted(w, x, c) && c in w.conns && !w.conns[c].detached
    ensures var (v, ok) := UnaryOn(w, c, x, e);
            && Inv(v) && v.calls.Keys == w.calls.Keys - {x} && (ok ==> Survives(w, v, c))
            && (!ok ==> Disowned(w, v, c))
            && (ok && e.Exchanged? && Drained(e.events) ==> !v.conns[c].Usable())
  {
    QuietUnless(w, x);
    EndUnaryInv(w, c, x);
    match e
    case OutOfTime =>
    case HeadersRefused =>
    case SubmitRefused(fatal) => if fatal {
        EndDetached(w, c, x);
      }
    case NotRegistered(s) =>
      if s != 0 && s !in w.conns[c].session {
        SubmitBusy(w, c, x, s);
        EndDetached(Submit(w, c, x, s), c, x);
      }
    case NotSent(s) =>
      if s != 0 && s !in w.conns[c].session {
        OpenedInv(w, c, x, s);
        InvBusy(Launch(w, c, x, s), x);
        EndExchangeInv(Launch(w, c, x, s), c, x, Broken);
      }
    case Exchanged(s, events, exit) =>
      if s != 0 && s !in w.conns[c].session {
        ExchangedInv(w, c, x, s, events, exit);
      }
  }

  /** The session takes the request under a new stream id. */
  predicate Accepted(w: World, c: ConnId, s: StreamId)
    requires c in w.conns
  {
    s != 0 && s !in w.conns[c].session
  }

  /** An attempt has a result exactly if time ran out before it, or its request was accepted and
      registered and the session did not reject its input; otherwise there is an exception. */
  lemma UnaryAnswersExactly(w: World, c: ConnId, x: CallId, e: Exchange)
    requires Busy(w, x) && Unsubmitted(w, x, c) && c in w.conns && !w.conns[c].detached
    ensures UnaryOn(w, c, x, e).1 <==>
            || e.OutOfTime?
            || (e.NotSent? && Accepted(w, c, e.stream))
            || (e.Exchanged? && Accepted(w, c, e.stream) && !e.exit.SessionRejected?)
  {
    if e.Exchanged? && Accepted(w, c, e.stream) {
      OpenedInv(w, c, x, e.stream);
      ReceivedInv(Launch(w, c, x, e.stream), c, x, e.events);
    }
  }

  lemma EndDetached(w: World, c: ConnId, x: CallId)
    requires Busy(w, x) && w.calls[x].conn == Some(c) && c in w.conns
    ensures var v := EndUnary(DetachByPtr(MarkDead(w, c), c), c, x);
            Inv(v) && v.calls.Keys == w.calls.Keys - {x} && (c in v.conns ==> v.conns[c].detached)
  {
    var dead := MarkDead(w, c);
    MarkDeadBusy(w, c, x);
    QuietUnless(dead, x);
    DetachBusy(dead, c, x);
    DetachCore(dead, c);
    EndUnaryInv(DetachByPtr(dead, c), c, x);
  }

  lemma ExchangedInv(w: World, c: ConnId, x: CallId, s: StreamId, events: seq<Event>, exit: Exit)
    requires Busy(w, x) && Unsubmitted(w, x, c) && c in w.conns && !w.conns[c].detached
    requires s > 0 && s !in w.conns[c].session
    ensures var (v, ok) := UnaryOn(w, c, x, Exchanged(s, events, exit));
            && Inv(v) && v.calls.Keys == w.calls.Keys - {x} && (ok ==> Survives(w, v, c))
            && (!ok && c in v.conns ==> v.conns[c].detached)
            && (ok && Drained(events) ==> !v.conns[c].Usable())
  {
    var u := Launch(w, c, x, s);
    OpenedInv(w, c, x, s);
    ReceivedAndEnded(u, c, x, events, exit);
  }

  lemma ReceivedAndEnded(u: World, c: ConnId, x: CallId, events: seq<Event>, exit: Exit)
    requires Inv(u) && x in u.calls && u.calls[x].conn == Some(c) && c in u.conns && !u.conns[c].detached
    requires !u.calls[x].completed
    ensures var (v, ok) := Converse(u, c, x, events, exit);
            && Inv(v) && v.calls.Keys == u.calls.Keys - {x} && (ok ==> Survives(u, v, c))
            && (!ok && c in v.conns ==> v.conns[c].detached)
            && (ok && Drained(events) ==> !v.conns[c].Usable())
  {
    ReceivedInv(u, c, x, events);
    EndExchangeInv(OnEvents(u, c, events), c, x, exit);
  }

  predicate Drained(es: seq<Event>) {
    exists i :: 0 <= i < |es| && es[i].Goaway?
  }

  /** A call stays with its connection through whatever the session reports. */
  lemma ReceivedInv(u: World, c: ConnId, x: CallId, events: seq<Event>)
    requires Inv(u) && x in u.calls && u.calls[x].conn == Some(c) && c in u.conns && !u.conns[c].detached
    ensures var v := OnEvents(u, c, events);
            && Busy(v, x) && v.calls[x].conn == Some(c) && v.calls[x].completed == u.calls[x].completed
            && c in v.conns && !v.conns[c].detached && v.calls.Keys == u.calls.Keys && v.cache == u.cache
            && (Drained(events) ==> !v.conns[c].Usable())
  {
    var v := OnEvents(u, c, events);
    OnEventsCore(u, c, events);
    HarmlessInv(u, v);
    InvBusy(v, x);
    if Drained(events) {
      var i :| 0 <= i < |events| && events[i].Goaway?;
      GoawayMakesUnusable(u, c, events, i);
    }
  }

  lemma {:induction false} GoawayMakesUnusable(w: World, c: ConnId, es: seq<Event>, i: nat)
    requires Core(w) && c in w.conns && i < |es| && es[i].Goaway?
    ensures c in OnEvents(w, c, es).conns && !OnEvents(w, c, es).conns[c].Usable()
    decreases |es|
  {
    var v := OnEvent(w, c, es[0]);
    OnEventCore(w, c, es[0]);
    if i == 0 {
      if !w.conns[c].dead {
        OnGoawayCore(w, c, es[0].last);
      }
      OnEventsCore(v, c, es[1..]);
    } else {
      GoawayMakesUnusable(v, c, es[1..], i - 1);
    }
  }
}
