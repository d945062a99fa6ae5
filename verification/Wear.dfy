/**
  What no operation does, whatever it is about: touch the connection of another call, or make
  a connection better than it was.
 */
module Wear {
  import opened Bytes
  import opened Lifecycle
  import opened ConnectionCache
  import opened Operations

  /** What is left of a connection: a fresh address, then open, draining, dead, freed. */
  function Condition(w: World, d: ConnId): nat {
    if d in w.freed then 0
    else if d !in w.conns then 4
    else if w.conns[d].dead then 1
    else if w.conns[d].draining then 2
    else 3
  }

  /** The connection is no longer to be found in the cache: detached, or gone altogether. */
  predicate OutOfCache(w: World, d: ConnId) {
    d in w.freed || (d in w.conns && w.conns[d].detached)
  }

  datatype Aspect = Pointer | Ownership | Wear | Detachment

  ghost predicate Holding(a: Aspect, w: World, v: World, y: CallId, d: ConnId) {
    match a
    case Pointer => y in w.calls ==> y in v.calls && v.calls[y].conn == w.calls[y].conn
    case Ownership => y in w.calls ==> y in v.calls && v.calls[y].owned == w.calls[y].owned
    case Wear => Condition(v, d) <= Condition(w, d)
    case Detachment => OutOfCache(w, d) ==> OutOfCache(v, d)
  }

  /** Call `y` still points at the connection it pointed at, and owns it if it did; connection
      `d` has not come back from death, from draining, from the allocator or into the cache. */
  ghost predicate Kept(w: World, v: World, y: CallId, d: ConnId) {
    forall a :: Holding(a, w, v, y, d)
  }

  lemma KeptFacts(w: World, v: World, y: CallId, d: ConnId)
    requires Kept(w, v, y, d)
    ensures y in w.calls ==> y in v.calls && v.calls[y].conn == w.calls[y].conn && v.calls[y].owned == w.calls[y].owned
    ensures Condition(v, d) <= Condition(w, d) && (OutOfCache(w, d) ==> OutOfCache(v, d))
  {
    assert Holding(Pointer, w, v, y, d) && Holding(Ownership, w, v, y, d);
    assert Holding(Wear, w, v, y, d) && Holding(Detachment, w, v, y, d);
  }

  lemma KeptTrans(w: World, v: World, u: World, y: CallId, d: ConnId)
    requires Kept(w, v, y, d) && Kept(v, u, y, d)
    ensures Kept(w, u, y, d)
  {
    KeptFacts(w, v, y, d);
    KeptFacts(v, u, y, d);
  }

  lemma KeptSame(w: World, y: CallId, d: ConnId)
    ensures Kept(w, w, y, d)
  {
  }

  /** A change to a single call other than `y`. */
  lemma CallKept(w: World, x: CallId, call: Call, y: CallId, d: ConnId)
    requires x != y || (x in w.calls && call == w.calls[x].(closed := call.closed, registered := call.registered))
    ensures Kept(w, SetCall(w, x, call), y, d)
  {
  }

  /** A change to a single connection that does not mend it. */
  lemma ConnKept(w: World, c: ConnId, conn: Conn, y: CallId, d: ConnId)
    requires c in w.conns && (w.conns[c].dead ==> conn.dead) && (w.conns[c].draining ==> conn.draining)
    requires w.conns[c].detached ==> conn.detached
    ensures Kept(w, SetConn(w, c, conn), y, d)
  {
  }

  lemma DetachKept(w: World, c: ConnId, y: CallId, d: ConnId)
    requires c in w.conns
    ensures Kept(w, DetachByPtr(w, c), y, d) && Kept(w, DetachIfUnusable(w, c), y, d)
  {
  }

  lemma MarkDeadKept(w: World, c: ConnId, y: CallId, d: ConnId)
    requires c in w.conns
    ensures Kept(w, MarkDead(w, c), y, d)
  {
    ConnKept(w, c, w.conns[c].(dead := true), y, d);
  }

  lemma UnregisterKept(w: World, x: CallId, y: CallId, d: ConnId)
    requires x in w.calls
    ensures Kept(w, Unregister(w, x), y, d)
  {
    var v := Unregister(w, x);
    KeptSame(w, y, d);
    if v != w {
      var c := w.calls[x].conn.value;
      ConnKept(w, c, v.conns[c], y, d);
      CallKept(SetConn(w, c, v.conns[c]), x, v.calls[x], y, d);
      KeptTrans(w, SetConn(w, c, v.conns[c]), v, y, d);
    }
  }

  lemma ReleaseKept(w: World, x: CallId, keepPointer: bool, y: CallId, d: ConnId)
    requires x in w.calls && x != y
    ensures Kept(w, ReleaseOwner(w, x, keepPointer), y, d)
  {
  }

  lemma FreeKept(w: World, x: CallId, y: CallId, d: ConnId)
    requires x != y
    ensures Kept(w, FreeCall(w, x), y, d)
  {
  }

  lemma DestroyKept(w: World, c: ConnId, y: CallId, d: ConnId)
    ensures Kept(w, DestroyIfUnowned(w, c), y, d)
  {
  }

  lemma LaunchKept(w: World, c: ConnId, x: CallId, s: StreamId, y: CallId, d: ConnId)
    requires c in w.conns && x in w.calls && x != y
    ensures Kept(w, Submit(w, c, x, s), y, d) && Kept(w, Launch(w, c, x, s), y, d)
  {
  }

  lemma CloseCallKept(w: World, x: CallId, y: CallId, d: ConnId)
    requires x in w.calls
    ensures Kept(w, CloseCall(w, x), y, d)
  {
    var v := SetCall(w, x, w.calls[x].(closed := true));
    CallKept(w, x, w.calls[x].(closed := true), y, d);
    UnregisterKept(v, x, y, d);
    KeptTrans(w, v, CloseCall(w, x), y, d);
  }

  lemma StreamCloseKept(w: World, c: ConnId, s: StreamId, y: CallId, d: ConnId)
    requires c in w.conns
    ensures Kept(w, OnStreamClose(w, c, s), y, d)
  {
    KeptSame(w, y, d);
    if s in w.conns[c].session {
      var user, v := w.conns[c].session[s].user, DropStreams(w, c, {s});
      ConnKept(w, c, v.conns[c], y, d);
      if user.Some? && user.value in v.calls {
        CloseCallKept(v, user.value, y, d);
        KeptTrans(w, v, CloseCall(v, user.value), y, d);
      }
    }
  }

  lemma {:induction false} RefuseEachKept(w: World, xs: seq<CallId>, last: int, y: CallId, d: ConnId)
    ensures Kept(w, RefuseEach(w, xs, last), y, d)
    decreases |xs|
  {
    KeptSame(w, y, d);
    if xs != [] {
      var refused := xs[0] in w.calls && w.calls[xs[0]].stream > last;
      var v := if refused then CloseCall(w, xs[0]) else w;
      if refused {
        CloseCallKept(w, xs[0], y, d);
      }
      RefuseEachKept(v, xs[1..], last, y, d);
      KeptTrans(w, v, RefuseEach(v, xs[1..], last), y, d);
    }
  }

  lemma GoawayKept(w: World, c: ConnId, last: int, y: CallId, d: ConnId)
    requires c in w.conns
    ensures Kept(w, OnGoaway(w, c, last), y, d)
  {
    var v := SetConn(w, c, w.conns[c].(draining := true));
    ConnKept(w, c, v.conns[c], y, d);
    if last != INT32_MAX {
      var u := DropStreams(v, c, set s | s in v.conns[c].session && s > last);
      ConnKept(v, c, u.conns[c], y, d);
      KeptTrans(w, v, u, y, d);
      RefuseEachKept(u, w.conns[c].active, last, y, d);
      KeptTrans(w, u, RefuseEach(u, w.conns[c].active, last), y, d);
    }
  }

  lemma StopSendingKept(w: World, c: ConnId, s: StreamId, y: CallId, d: ConnId)
    requires c in w.conns
    ensures Kept(w, StopSending(w, c, s), y, d)
  {
    KeptSame(w, y, d);
    if s in w.conns[c].session {
      ConnKept(w, c, StopSending(w, c, s).conns[c], y, d);
    }
  }

  lemma EventKept(w: World, c: ConnId, e: Event, y: CallId, d: ConnId)
    ensures Kept(w, OnEvent(w, c, e), y, d)
  {
    KeptSame(w, y, d);
    if c in w.conns {
      MarkDeadKept(w, c, y, d);
      match e
      case StreamClosed(s) => StreamCloseKept(w, c, s, y, d);
      case Goaway(last) => GoawayKept(w, c, last, y, d);
      case PolicyReset(s, fatal) => StopSendingKept(w, c, s, y, d);
      case Failed =>
    }
  }

  lemma {:induction false} EventsKept(w: World, c: ConnId, es: seq<Event>, y: CallId, d: ConnId)
    ensures Kept(w, OnEvents(w, c, es), y, d)
    decreases |es|
  {
    KeptSame(w, y, d);
    if es != [] {
      var v := OnEvent(w, c, es[0]);
      EventKept(w, c, es[0], y, d);
      EventsKept(v, c, es[1..], y, d);
      KeptTrans(w, v, OnEvents(v, c, es[1..]), y, d);
    }
  }

  lemma CancelKept(w: World, x: CallId, r: Reset, y: CallId, d: ConnId)
    requires x in w.calls
    ensures Kept(w, CancelStream(w, x, r), y, d)
  {
    KeptSame(w, y, d);
    if w.calls[x].conn.Some? && w.calls[x].conn.value in w.conns && w.calls[x].stream > 0 {
      var c, s := w.calls[x].conn.value, w.calls[x].stream;
      var u := StopSending(w, c, s);
      StopSendingKept(w, c, s, y, d);
      StreamCloseKept(u, c, s, y, d);
      MarkDeadKept(w, c, y, d);
      MarkDeadKept(u, c, y, d);
      KeptTrans(w, u, OnStreamClose(u, c, s), y, d);
      KeptTrans(w, u, MarkDead(u, c), y, d);
    }
  }

  lemma ClearStreamingKept(w: World, x: CallId, y: CallId, d: ConnId)
    requires x in w.calls && x != y
    ensures Kept(w, ClearStreaming(w, x), y, d)
  {
    KeptSame(w, y, d);
    if w.calls[x].conn.Some? && w.calls[x].conn.value in w.conns {
      var c := w.calls[x].conn.value;
      var detached := DetachIfUnusable(w, c);
      var off := Unregister(detached, x);
      var released := ReleaseOwner(off, x, false);
      DetachKept(w, c, y, d);
      UnregisterKept(detached, x, y, d);
      KeptTrans(w, detached, off, y, d);
      ReleaseKept(off, x, false, y, d);
      KeptTrans(w, off, released, y, d);
      DestroyKept(released, c, y, d);
      KeptTrans(w, released, DestroyIfUnowned(released, c), y, d);
    }
  }

  lemma ResetKept(w: World, x: CallId, r: Reset, c: ConnId, y: CallId, d: ConnId)
    requires x in w.calls && c in CancelStream(w, x, r).conns
    ensures Kept(w, DetachIfUnusable(CancelStream(w, x, r), c), y, d)
  {
    var v := CancelStream(w, x, r);
    CancelKept(w, x, r, y, d);
    DetachKept(v, c, y, d);
    KeptTrans(w, v, DetachIfUnusable(v, c), y, d);
  }

  lemma CompletedKept(w: World, v: World, x: CallId, y: CallId, d: ConnId)
    requires Kept(w, v, y, d) && x in v.calls && x != y
    ensures Kept(w, MarkCompleted(v, x), y, d)
  {
    CallKept(v, x, v.calls[x].(completed := true), y, d);
    KeptTrans(w, v, MarkCompleted(v, x), y, d);
  }

  lemma TerminateKept(w: World, x: CallId, r: Reset, y: CallId, d: ConnId)
    requires x in w.calls && x != y
    ensures Kept(w, Terminate(w, x, r), y, d)
  {
    var conn, v := w.calls[x].conn, CancelStream(w, x, r);
    CancelKept(w, x, r, y, d);
    if conn.Some? && conn.value in v.conns {
      ResetKept(w, x, r, conn.value, y, d);
    }
    var u := if conn.Some? && conn.value in v.conns then DetachIfUnusable(v, conn.value) else v;
    if x in u.calls {
      CompletedKept(w, u, x, y, d);
    }
  }

  lemma UserCancelKept(w: World, x: CallId, r: Reset, y: CallId, d: ConnId)
    requires x != y
    ensures Kept(w, UserCancel(w, x, r), y, d)
  {
    KeptSame(w, y, d);
    if x in w.calls {
      var v := Terminate(w, x, r);
      TerminateKept(w, x, r, y, d);
      if x in v.calls {
        ClearStreamingKept(v, x, y, d);
        KeptTrans(w, v, ClearStreaming(v, x), y, d);
      }
    }
  }

  lemma InterruptKept(w: World, x: CallId, i: Interruption, y: CallId, d: ConnId)
    requires x != y
    ensures Kept(w, Interrupt(w, x, i), y, d)
  {
    KeptSame(w, y, d);
    if x in w.calls && w.calls[x].conn.Some? && w.calls[x].conn.value in w.conns {
      match i
      case ConnectionDead => CompletedKept(w, w, x, y, d);
      case DeadlinePassed(r) =>
        CancelKept(w, x, r, y, d);
        if x in CancelStream(w, x, r).calls {
          CompletedKept(w, CancelStream(w, x, r), x, y, d);
        }
      case IoFailed =>
        MarkDeadKept(w, w.calls[x].conn.value, y, d);
        CompletedKept(w, MarkDead(w, w.calls[x].conn.value), x, y, d);
    }
  }

  lemma ReportKept(w: World, x: CallId, y: CallId, d: ConnId)
    requires x != y
    ensures Kept(w, Report(w, x), y, d)
  {
    KeptSame(w, y, d);
    if x in w.calls {
      var v := MarkCompleted(w, x);
      CompletedKept(w, w, x, y, d);
      ClearStreamingKept(v, x, y, d);
      KeptTrans(w, v, ClearStreaming(v, x), y, d);
    }
  }

  lemma DestroyStateKept(w: World, v: World, x: CallId, r: Reset, y: CallId, d: ConnId)
    requires Kept(w, v, y, d) && x in v.calls && x != y
    ensures Kept(w, DestroyState(v, x, r), y, d)
  {
    var u := ResetOpenStream(v, x, r);
    KeptSame(v, y, d);
    if u != v {
      ResetKept(v, x, r, v.calls[x].conn.value, y, d);
    }
    KeptTrans(w, v, u, y, d);
    if x in u.calls {
      ClearStreamingKept(u, x, y, d);
      KeptTrans(w, u, ClearStreaming(u, x), y, d);
      FreeKept(ClearStreaming(u, x), x, y, d);
      KeptTrans(w, ClearStreaming(u, x), DestroyState(v, x, r), y, d);
    }
  }

  lemma DeadKept(w: World, v: World, c: ConnId, y: CallId, d: ConnId)
    requires Kept(w, v, y, d) && c in v.conns
    ensures Kept(w, MarkDead(v, c), y, d) && Kept(w, DetachByPtr(MarkDead(v, c), c), y, d)
  {
    MarkDeadKept(v, c, y, d);
    KeptTrans(w, v, MarkDead(v, c), y, d);
    DetachKept(MarkDead(v, c), c, y, d);
    KeptTrans(w, MarkDead(v, c), DetachByPtr(MarkDead(v, c), c), y, d);
  }

  lemma RejectedKept(w: World, c: ConnId, x: CallId, r: Reset, y: CallId, d: ConnId)
    requires c in w.conns && x in w.calls && x != y
    ensures Kept(w, DestroyState(DetachByPtr(MarkDead(w, c), c), x, r), y, d)
  {
    KeptSame(w, y, d);
    DeadKept(w, w, c, y, d);
    DestroyStateKept(w, DetachByPtr(MarkDead(w, c), c), x, r, y, d);
  }

  /** A submitted call that is given up together with its connection. */
  lemma FailedKept(w: World, v: World, c: ConnId, x: CallId, r: Reset, y: CallId, d: ConnId)
    requires Kept(w, v, y, d) && c in v.conns && x in v.calls && x != y
    ensures Kept(w, DestroyState(MarkDead(v, c), x, r), y, d)
  {
    DeadKept(w, v, c, y, d);
    DestroyStateKept(w, MarkDead(v, c), x, r, y, d);
  }

  lemma OpenOnKept(w: World, c: ConnId, x: CallId, o: Opening, r: Reset, y: CallId, d: ConnId)
    requires c in w.conns && x in w.calls && x != y
    ensures Kept(w, OpenOn(w, c, x, o, r), y, d)
  {
    KeptSame(w, y, d);
    DestroyStateKept(w, w, x, r, y, d);
    match o
    case NoTime =>
    case BadHeaders =>
    case Rejected(fatal) => RejectedKept(w, c, x, r, y, d);
    case RegisterFailed(s) =>
      LaunchKept(w, c, x, s, y, d);
      FailedKept(w, Submit(w, c, x, s), c, x, r, y, d);
    case SendFailed(s) =>
      LaunchKept(w, c, x, s, y, d);
      FailedKept(w, Launch(w, c, x, s), c, x, r, y, d);
    case Opened(s) => LaunchKept(w, c, x, s, y, d);
  }

  lemma EvictKept(w: World, key: Key, c: ConnId, y: CallId, d: ConnId)
    requires c in w.conns
    ensures Kept(w, Evict(w, key, c), y, d) && Kept(w, RemoveUnusable(w, key, c), y, d)
  {
  }

  lemma CloseKept(w: World, key: Key, y: CallId, d: ConnId)
    ensures Kept(w, CloseChannel(w, key), y, d)
  {
    KeptSame(w, y, d);
    if key in w.cache && w.cache[key].conn in w.conns {
      EvictKept(w, key, w.cache[key].conn, y, d);
    }
  }

  lemma ReusableKept(w: World, key: Key, p: Preflight, y: CallId, d: ConnId)
    ensures Kept(w, Reusable(w, key, p).0, y, d)
  {
    KeptSame(w, y, d);
    if key in w.cache && w.cache[key].conn in w.conns {
      var c := w.cache[key].conn;
      var v := Preflighted(w, c, p);
      if v != w {
        ConnKept(w, c, v.conns[c], y, d);
      }
      EvictKept(w, key, c, y, d);
      EvictKept(v, key, c, y, d);
      KeptTrans(w, v, Evict(v, key, c), y, d);
    }
  }

  lemma GetPersistentKept(w: World, key: Key, l: Lookup, y: CallId, d: ConnId)
    ensures Kept(w, GetPersistent(w, key, l).0, y, d)
  {
    var u, v := Reusable(w, key, l.preflight).0, GetPersistent(w, key, l).0;
    ReusableKept(w, key, l.preflight, y, d);
    KeptSame(u, y, d);
    assert Kept(u, v, y, d);
    KeptTrans(w, u, v, y, d);
  }

  /** A connection from the cache and a new record. */
  lemma PreparedKept(w: World, key: Key, l: Lookup, x: CallId, y: CallId, d: ConnId)
    requires x != y
    ensures var (v, got) := GetPersistent(w, key, l);
            Kept(w, v, y, d) && (got.Some? ==> Kept(w, AllocCall(v, x, got.value), y, d))
  {
    GetPersistentKept(w, key, l, y, d);
    var (v, got) := GetPersistent(w, key, l);
    if got.Some? {
      CallKept(v, x, Call(Some(got.value), 0, false, false, false, false), y, d);
      KeptTrans(w, v, AllocCall(v, x, got.value), y, d);
    }
  }

  lemma EndUnaryKept(w: World, v: World, c: ConnId, x: CallId, y: CallId, d: ConnId)
    requires Kept(w, v, y, d) && x in v.calls && x != y
    ensures Kept(w, EndUnary(v, c, x), y, d)
  {
    var off := Unregister(v, x);
    var released := ReleaseOwner(off, x, true);
    UnregisterKept(v, x, y, d);
    KeptTrans(w, v, off, y, d);
    ReleaseKept(off, x, true, y, d);
    KeptTrans(w, off, released, y, d);
    FreeKept(released, x, y, d);
    KeptTrans(w, released, FreeCall(released, x), y, d);
    DestroyKept(FreeCall(released, x), c, y, d);
    KeptTrans(w, FreeCall(released, x), EndUnary(v, c, x), y, d);
  }

  lemma EndExchangeKept(w: World, c: ConnId, x: CallId, exit: Exit, y: CallId, d: ConnId)
    requires c in w.conns && x in w.calls && x != y
    ensures Kept(w, EndExchange(w, c, x, exit).0, y, d)
  {
    KeptSame(w, y, d);
    DeadKept(w, w, c, y, d);
    match exit
    case Finished =>
      EndUnaryKept(w, w, c, x, y, d);
      EndUnaryKept(w, MarkDead(w, c), c, x, y, d);
    case TimedOut(r) =>
      CancelKept(w, x, r, y, d);
      if x in CancelStream(w, x, r).calls {
        EndUnaryKept(w, CancelStream(w, x, r), c, x, y, d);
      }
    case Broken => EndUnaryKept(w, MarkDead(w, c), c, x, y, d);
    case SessionRejected => EndUnaryKept(w, DetachByPtr(MarkDead(w, c), c), c, x, y, d);
  }

  lemma ConverseKept(w: World, c: ConnId, x: CallId, events: seq<Event>, exit: Exit, y: CallId, d: ConnId)
    requires x != y
    ensures Kept(w, Converse(w, c, x, events, exit).0, y, d)
  {
    var v := OnEvents(w, c, events);
    EventsKept(w, c, events, y, d);
    if c in v.conns && x in v.calls {
      EndExchangeKept(v, c, x, exit, y, d);
      KeptTrans(w, v, EndExchange(v, c, x, exit).0, y, d);
    }
  }

  lemma UnaryOnKept(w: World, c: ConnId, x: CallId, e: Exchange, y: CallId, d: ConnId)
    requires c in w.conns && x in w.calls && x != y
    ensures Kept(w, UnaryOn(w, c, x, e).0, y, d)
  {
    KeptSame(w, y, d);
    EndUnaryKept(w, w, c, x, y, d);
    match e
    case OutOfTime =>
    case HeadersRefused =>
    case SubmitRefused(fatal) =>
      DeadKept(w, w, c, y, d);
      EndUnaryKept(w, DetachByPtr(MarkDead(w, c), c), c, x, y, d);
    case NotRegistered(s) =>
      LaunchKept(w, c, x, s, y, d);
      DeadKept(w, Submit(w, c, x, s), c, y, d);
      EndUnaryKept(w, DetachByPtr(MarkDead(Submit(w, c, x, s), c), c), c, x, y, d);
    case NotSent(s) =>
      LaunchKept(w, c, x, s, y, d);
      DeadKept(w, Launch(w, c, x, s), c, y, d);
      EndUnaryKept(w, MarkDead(Launch(w, c, x, s), c), c, x, y, d);
    case Exchanged(s, events, exit) =>
      var u := Launch(w, c, x, s);
      LaunchKept(w, c, x, s, y, d);
      ConverseKept(u, c, x, events, exit, y, d);
      KeptTrans(w, u, Converse(u, c, x, events, exit).0, y, d);
  }
}
