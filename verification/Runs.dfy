/**
  Whole runs: any number of streaming and unary calls on shared connections, interleaved in
  any way with whatever the sessions report, and what is true after every one of them.
 */
module Runs {
  import opened Bytes
  import opened Lifecycle
  import opened ConnectionCache
  import opened Operations
  import opened Wear

  /** How one unary attempt ended: with no connection, with an exception, or with a result
      on a connection that the caller goes on to look at. */
  datatype AttemptEnd = NoConnection | Thrown(conn: ConnId) | Answered(conn: ConnId)

  /** One unary attempt: a connection from the cache, a record, the exchange. */
  function Attempt(w: World, key: Key, x: CallId, l: Lookup, e: Exchange): (World, AttemptEnd)
    requires x !in w.calls
  {
    AttemptWith(GetPersistent(w, key, l), x, e)
  }

  function AttemptWith(found: (World, Option<ConnId>), x: CallId, e: Exchange): (World, AttemptEnd) {
    if found.1.None? || found.1.value !in found.0.conns then (found.0, NoConnection)
    else
      var c := found.1.value;
      var (u, ok) := UnaryOn(AllocCall(found.0, x, c), c, x, e);
      (u, if ok then Answered(c) else Thrown(c))
  }

  lemma AttemptInv(w: World, key: Key, x: CallId, l: Lookup, e: Exchange)
    requires Inv(w) && x !in w.calls
    ensures var (v, end) := Attempt(w, key, x, l, e);
            && Inv(v) && v.calls.Keys == w.calls.Keys
            && (!end.NoConnection? ==> Some(end.conn) == GetPersistent(w, key, l).1)
            && (end.Answered? ==> end.conn in v.conns && OwnKey(v, key, end.conn))
            && (end.Answered? && e.Exchanged? && Drained(e.events) ==> !v.conns[end.conn].Usable())
  {
    GetPersistentInv(w, key, l);
    if GetPersistent(w, key, l).1.Some? {
      AttemptWithInv(GetPersistent(w, key, l), key, x, e);
    }
  }

  lemma AttemptWithInv(found: (World, Option<ConnId>), key: Key, x: CallId, e: Exchange)
    requires Inv(found.0) && x !in found.0.calls && found.1.Some? && found.1.value in found.0.conns
    requires !found.0.conns[found.1.value].detached && OwnKey(found.0, key, found.1.value)
    ensures var (v, end) := AttemptWith(found, x, e);
            && Inv(v) && v.calls.Keys == found.0.calls.Keys && !end.NoConnection? && Some(end.conn) == found.1
            && (end.Answered? ==> end.conn in v.conns && OwnKey(v, key, end.conn))
            && (end.Answered? && e.Exchanged? && Drained(e.events) ==> !v.conns[end.conn].Usable())
  {
    AllocBusy(found.0, x, found.1.value);
    UnaryOnInv(AllocCall(found.0, x, found.1.value), found.1.value, x, e);
  }

  datatype Op =
    | Session(conn: ConnId, event: Event)
    | Open(key: Key, call: CallId, lookup: Lookup, opening: Option<Opening>, reset: Reset)
    | Interrupted(call: CallId, why: Interruption)
    | PolicyFailed(call: CallId, reset: Reset)
    | Reported(call: CallId)
    | Cancelled(call: CallId, reset: Reset)
    | Dropped(call: CallId, reset: Reset)
    | Closed(key: Key)
    | Unary(key: Key, call: CallId, lookup: Lookup, exchange: Exchange, tidy: bool)

  function Perform(w: World, op: Op): World {
    match op
    case Session(c, e) => OnEvent(w, c, e)
    case Open(key, x, l, o, r) => OpenStreaming(w, key, x, l, o, r)
    case Interrupted(x, i) => Interrupt(w, x, i)
    case PolicyFailed(x, r) => if x in w.calls then Terminate(w, x, r) else w
    case Reported(x) => Report(w, x)
    case Cancelled(x, r) => UserCancel(w, x, r)
    case Dropped(x, r) => if x in w.calls then DestroyState(w, x, r) else w
    case Closed(key) => CloseChannel(w, key)
    case Unary(key, x, l, e, tidy) =>
      if x in w.calls then w
      else
        var (v, end) := Attempt(w, key, x, l, e);
        if tidy && end.Answered? && end.conn in v.conns then RemoveUnusable(v, key, end.conn) else v
  }

  function RunFrom(w: World, ops: seq<Op>): World {
    Fold(Perform, w, ops)
  }

  function Run(ops: seq<Op>): World {
    RunFrom(EMPTY, ops)
  }

  lemma RunStep(ops: seq<Op>, op: Op)
    ensures Run(ops + [op]) == Perform(Run(ops), op)
  {
    FoldLast(Perform, EMPTY, ops, op);
  }

  lemma PerformInv(w: World, op: Op)
    requires Inv(w)
    ensures Inv(Perform(w, op))
  {
    match op
    case Session(c, e) =>
      OnEventCore(w, c, e);
      HarmlessInv(w, OnEvent(w, c, e));
    case Open(key, x, l, o, r) => OpenStreamingInv(w, key, x, l, o, r);
    case Interrupted(x, i) => InterruptInv(w, x, i);
    case PolicyFailed(x, r) => if x in w.calls {
        TerminateInv(w, x, r);
      }
    case Reported(x) => ReportInv(w, x);
    case Cancelled(x, r) => UserCancelInv(w, x, r);
    case Dropped(x, r) => if x in w.calls {
        InvBusy(w, x);
        DestroyStateInv(w, x, r);
      }
    case Closed(key) => CloseChannelInv(w, key);
    case Unary(key, x, l, e, tidy) => UnaryInv(w, op);
  }

  lemma UnaryInv(w: World, op: Op)
    requires Inv(w) && op.Unary?
    ensures Inv(Perform(w, op))
  {
    if op.call !in w.calls {
      AttemptInv(w, op.key, op.call, op.lookup, op.exchange);
      var (v, end) := Attempt(w, op.key, op.call, op.lookup, op.exchange);
      if end.Answered? {
        EvictInv(v, op.key, end.conn);
      }
    }
  }

  lemma EmptyInv()
    ensures Inv(EMPTY)
  {
    CloseBooks(EMPTY);
  }

  lemma RunFromInv(w: World, ops: seq<Op>)
    requires Inv(w)
    ensures Inv(RunFrom(w, ops))
  {
    forall v, op | Inv(v)
      ensures Inv(Perform(v, op))
    {
      PerformInv(v, op);
    }
    assert [] + ops == ops;
    FoldKeeps(Perform, v => Inv(v), w, [], ops);
  }

  /** The books are in order after every run. */
  lemma RunInv(ops: seq<Op>)
    ensures Inv(Run(ops))
  {
    EmptyInv();
    RunFromInv(EMPTY, ops);
  }

  // ----------------------------------- other calls are left alone, nothing is repaired

  lemma OpenStreamingKept(w: World, op: Op, y: CallId, d: ConnId)
    requires op.Open? && op.call != y
    ensures Kept(w, Perform(w, op), y, d)
  {
    KeptSame(w, y, d);
    PreparedKept(w, op.key, op.lookup, op.call, y, d);
    var (v, got) := GetPersistent(w, op.key, op.lookup);
    if op.call !in w.calls && got.Some? && got.value in v.conns && op.opening.Some? {
      var u := AllocCall(v, op.call, got.value);
      OpenOnKept(u, got.value, op.call, op.opening.value, op.reset, y, d);
      KeptTrans(w, u, OpenOn(u, got.value, op.call, op.opening.value, op.reset), y, d);
    }
  }

  lemma AttemptKept(w: World, key: Key, x: CallId, l: Lookup, e: Exchange, y: CallId, d: ConnId)
    requires x !in w.calls && x != y
    ensures Kept(w, Attempt(w, key, x, l, e).0, y, d)
  {
    PreparedKept(w, key, l, x, y, d);
    var (v, got) := GetPersistent(w, key, l);
    if got.Some? && got.value in v.conns {
      var u := AllocCall(v, x, got.value);
      UnaryOnKept(u, got.value, x, e, y, d);
      KeptTrans(w, u, UnaryOn(u, got.value, x, e).0, y, d);
    }
  }

  lemma UnaryKept(w: World, op: Op, y: CallId, d: ConnId)
    requires op.Unary? && op.call != y
    ensures Kept(w, Perform(w, op), y, d)
  {
    KeptSame(w, y, d);
    if op.call !in w.calls {
      AttemptKept(w, op.key, op.call, op.lookup, op.exchange, y, d);
      var (v, end) := Attempt(w, op.key, op.call, op.lookup, op.exchange);
      if end.Answered? && end.conn in v.conns {
        EvictKept(v, op.key, end.conn, y, d);
        KeptTrans(w, v, RemoveUnusable(v, op.key, end.conn), y, d);
      }
    }
  }

  /** The operation is not about call `y`. */
  predicate Spares(op: Op, y: CallId) {
    op.Session? || op.Closed? || op.call != y
  }

  lemma PerformKept(w: World, op: Op, y: CallId, d: ConnId)
    requires Spares(op, y)
    ensures Kept(w, Perform(w, op), y, d)
  {
    KeptSame(w, y, d);
    match op
    case Session(c, e) => EventKept(w, c, e, y, d);
    case Open(key, x, l, o, r) => OpenStreamingKept(w, op, y, d);
    case Interrupted(x, i) => InterruptKept(w, x, i, y, d);
    case PolicyFailed(x, r) => if x in w.calls {
        TerminateKept(w, x, r, y, d);
      }
    case Reported(x) => ReportKept(w, x, y, d);
    case Cancelled(x, r) => UserCancelKept(w, x, r, y, d);
    case Dropped(x, r) => if x in w.calls {
        DestroyStateKept(w, w, x, r, y, d);
      }
    case Closed(key) => CloseKept(w, key, y, d);
    case Unary(key, x, l, e, tidy) => UnaryKept(w, op, y, d);
  }

  // ------------------------------------------------------ in a reader's terms

  /** A session that may still be driven reads requests and reports events only through calls
      that are allocated; so a call is never freed while its request can still be asked for. */
  lemma NoFreedRequestIsRead(ops: seq<Op>, c: ConnId, s: StreamId)
    requires var w := Run(ops); c in w.conns && !w.conns[c].dead && s in w.conns[c].session
    ensures var w := Run(ops); var stream := w.conns[c].session[s];
            && (stream.sending ==> stream.source in w.calls && w.calls[stream.source].conn == Some(c)
                                   && w.calls[stream.source].stream == s && !w.calls[stream.source].closed)
            && (stream.user.Some? ==> stream.user.value in w.calls && w.calls[stream.user.value].registered)
    ensures forall x :: x !in Run(ops).calls ==> Quiet(Run(ops), x)
  {
    RunInv(ops);
    OpenBooks(Run(ops));
  }

  /** Connections are destroyed at most once; a destroyed one is in no cache entry and no call
      points at it; one that is detached and unowned does not linger. */
  lemma DestroyedOnceAndInTime(ops: seq<Op>)
    ensures var w := Run(ops);
            && (forall i, j :: 0 <= i < j < |w.freed| ==> w.freed[i] != w.freed[j])
            && (forall c :: c in w.freed ==>
                  && c !in w.conns && !Cached(w, c)
                  && forall x :: x in w.calls ==> w.calls[x].conn != Some(c))
            && (forall c :: c in w.conns && w.conns[c].detached ==> w.conns[c].ownerCount > 0)
  {
    RunInv(ops);
    OpenBooks(Run(ops));
  }

  /** An operation on one call, or an event of a session, never takes the connection away from
      another call that owns it. */
  lemma OwnersKeepTheirConnection(ops: seq<Op>, op: Op, c: ConnId, x: CallId)
    requires x in Run(ops).calls && Run(ops).calls[x].owned && Run(ops).calls[x].conn == Some(c)
    requires Spares(op, x)
    ensures var w := Run(ops + [op]);
            && c in w.conns && x in w.calls && w.calls[x].owned && w.calls[x].conn == Some(c)
  {
    RunInv(ops);
    RunInv(ops + [op]);
    RunStep(ops, op);
    PerformKept(Run(ops), op, x, c);
    KeptFacts(Run(ops), Run(ops + [op]), x, c);
    assert Holds(OwnerPart, Run(ops + [op]));
  }

  /** The counters of a live connection are exact. */
  lemma CountersAreExact(ops: seq<Op>, c: ConnId)
    requires c in Run(ops).conns
    ensures Exact(Run(ops), c)
  {
    RunInv(ops);
    OpenBooks(Run(ops));
    BooksAreExact(Run(ops), c);
  }

  ghost predicate Exact(w: World, c: ConnId)
    requires c in w.conns
  {
    var conn := w.conns[c];
    && conn.ownerCount == |set x | x in w.calls && w.calls[x].owned && w.calls[x].conn == Some(c)|
    && conn.activeCount == |conn.active| && NoDup(conn.active)
    && (forall x :: x in conn.active <==> x in w.calls && w.calls[x].registered && w.calls[x].conn == Some(c))
    && (forall x :: x in conn.active ==> w.calls[x].owned)
  }

  lemma BooksAreExact(w: World, c: ConnId)
    requires OwnersOk(w) && ListsOk(w) && c in w.conns
    ensures Exact(w, c)
  {
    assert Owners(w, c) == set x | x in w.calls && w.calls[x].owned && w.calls[x].conn == Some(c);
  }

  /** A live connection is detached, or held under exactly one key of at most 128. */
  lemma HeldUnderOneKey(ops: seq<Op>, c: ConnId)
    requires c in Run(ops).conns
    ensures var w := Run(ops);
            && |w.cache| <= 128
            && (w.conns[c].detached ==> forall k :: k in w.cache ==> w.cache[k].conn != c)
            && (!w.conns[c].detached ==>
                  exists k :: k in w.cache && w.cache[k] == Lifecycle.Entry(c, k)
                              && forall l :: l in w.cache && w.cache[l].conn == c ==> l == k)
  {
    RunInv(ops);
    var w := Run(ops);
    OpenBooks(w);
    if !w.conns[c].detached {
      var k :| k in w.cache && w.cache[k].conn == c;
      assert w.cache[k] == Lifecycle.Entry(c, k);
    }
  }

  // ------------------------------------------------------- nothing comes back

  lemma StepIsNoBetter(w: World, op: Op, d: ConnId)
    ensures Condition(Perform(w, op), d) <= Condition(w, d)
    ensures OutOfCache(w, d) ==> OutOfCache(Perform(w, op), d)
  {
    var y := if op.Session? || op.Closed? then 0 else op.call + 1;
    PerformKept(w, op, y, d);
    KeptFacts(w, Perform(w, op), y, d);
  }

  /** Draining, death, detachment and the end of a connection are final. */
  lemma LaterIsNoBetter(w: World, ops: seq<Op>, more: seq<Op>, d: ConnId)
    ensures Condition(RunFrom(w, ops + more), d) <= Condition(RunFrom(w, ops), d)
    ensures OutOfCache(RunFrom(w, ops), d) ==> OutOfCache(RunFrom(w, ops + more), d)
  {
    var n := Condition(RunFrom(w, ops), d);
    forall v, op
      ensures Condition(v, d) <= n ==> Condition(Perform(v, op), d) <= n
      ensures OutOfCache(v, d) ==> OutOfCache(Perform(v, op), d)
    {
      StepIsNoBetter(v, op, d);
    }
    FoldKeeps(Perform, v => Condition(v, d) <= n, w, ops, more);
    if OutOfCache(RunFrom(w, ops), d) {
      FoldKeeps(Perform, v => OutOfCache(v, d), w, ops, more);
    }
  }

  lemma RunFromWears(w: World, ops: seq<Op>, d: ConnId)
    ensures Condition(RunFrom(w, ops), d) <= Condition(w, d)
  {
    assert [] + ops == ops;
    LaterIsNoBetter(w, [], ops, d);
  }

  lemma ConditionOnlyWorsens(ops: seq<Op>, more: seq<Op>, d: ConnId)
    ensures Condition(Run(ops + more), d) <= Condition(Run(ops), d)
    ensures OutOfCache(Run(ops), d) ==> OutOfCache(Run(ops + more), d)
  {
    LaterIsNoBetter(EMPTY, ops, more, d);
  }

  /** The lookup does not return a connection that is draining, dead, detached or gone. */
  lemma LookupAvoids(w: World, key: Key, l: Lookup, c: ConnId)
    requires Inv(w) && (Condition(w, c) <= 2 || OutOfCache(w, c))
    ensures GetPersistent(w, key, l).1 != Some(c)
  {
    var v := GetPersistent(w, key, l).0;
    GetPersistentInv(w, key, l);
    GetPersistentKept(w, key, l, 0, c);
    KeptFacts(w, v, 0, c);
    assert Holds(FreedPart, v);
  }

  /** Once a connection has been seen to drain or die, or has been detached, no later lookup returns it. */
  lemma NeverHandedOutAgain(ops: seq<Op>, more: seq<Op>, key: Key, l: Lookup, c: ConnId)
    requires Condition(Run(ops), c) <= 2 || OutOfCache(Run(ops), c)
    ensures GetPersistent(Run(ops + more), key, l).1 != Some(c)
  {
    ConditionOnlyWorsens(ops, more, c);
    RunInv(ops + more);
    LookupAvoids(Run(ops + more), key, l, c);
  }

  /** After a GOAWAY no call is ever started on that connection again, on any channel. */
  lemma GoawayIsForGood(ops: seq<Op>, more: seq<Op>, c: ConnId, last: int, key: Key, l: Lookup)
    ensures c in Run(ops).conns ==> GetPersistent(Run(ops + [Session(c, Goaway(last))] + more), key, l).1 != Some(c)
  {
    var w, after := Run(ops), ops + [Session(c, Goaway(last))];
    RunInv(ops);
    RunStep(ops, Session(c, Goaway(last)));
    if c in w.conns {
      GoawayDrains(w, c, last);
      NeverHandedOutAgain(after, more, key, l, c);
    }
  }

  lemma GoawayDrains(w: World, c: ConnId, last: int)
    requires Inv(w) && Condition(w, c) <= 3
    ensures Condition(OnEvent(w, c, Goaway(last)), c) <= 2
  {
    OpenBooks(w);
    if c in w.conns && !w.conns[c].dead {
      OnGoawayCore(w, c, last);
    }
  }

  /** After a channel was closed, no lookup on any channel returns its connection again, and
      whoever owned that connection goes on owning it, usable as it was. */
  lemma ClosedIsForGood(ops: seq<Op>, more: seq<Op>, closed: Key, key: Key, l: Lookup)
    ensures closed in Run(ops).cache ==>
              && var c, w := Run(ops).cache[closed].conn, Run(ops + [Closed(closed)]);
              && GetPersistent(Run(ops + [Closed(closed)] + more), key, l).1 != Some(c)
              && c in Run(ops).conns && closed !in w.cache
              && (c in w.conns <==> Run(ops).conns[c].ownerCount > 0)
              && (c in w.conns ==> w.conns[c] == Run(ops).conns[c].(detached := true))
  {
    var w, after := Run(ops), ops + [Closed(closed)];
    RunInv(ops);
    RunStep(ops, Closed(closed));
    if closed in w.cache {
      CloseChannelInv(w, closed);
      NeverHandedOutAgain(after, more, key, l, w.cache[closed].conn);
    }
  }

  /** A connection that was ever taken out of the cache is destroyed by the time nobody owns it. */
  lemma LastOwnerDestroys(ops: seq<Op>, more: seq<Op>, c: ConnId)
    requires OutOfCache(Run(ops), c)
    ensures (forall x :: x in Run(ops + more).calls && Run(ops + more).calls[x].owned
                         ==> Run(ops + more).calls[x].conn != Some(c))
            <==> c in Run(ops + more).freed
  {
    var w := Run(ops + more);
    ConditionOnlyWorsens(ops, more, c);
    RunInv(ops + more);
    OpenBooks(w);
    if forall x :: x in w.calls && w.calls[x].owned ==> w.calls[x].conn != Some(c) {
      assert Owners(w, c) == {};
    }
  }

  /** In every run, a cancel of a call that is not over, on a connection that may still be driven,
      ends the call and gives up its connection. */
  lemma CancelGivesUp(ops: seq<Op>, x: CallId, r: Reset)
    requires x in Run(ops).calls && !Run(ops).calls[x].completed && Run(ops).calls[x].conn.Some?
    requires Condition(Run(ops), Run(ops).calls[x].conn.value) > 1
    ensures LetGo(Run(ops + [Cancelled(x, r)]), x)
  {
    RunInv(ops);
    CancelledLetsGo(Run(ops), x, r);
    RunStep(ops, Cancelled(x, r));
  }

  lemma CancelledLetsGo(w: World, x: CallId, r: Reset)
    requires Inv(w) && x in w.calls && !w.calls[x].completed && w.calls[x].conn.Some?
    requires Condition(w, w.calls[x].conn.value) > 1
    ensures LetGo(Perform(w, Cancelled(x, r)), x)
  {
    CallFacts(w, x);
    CancelLetsGo(w, x, r);
  }
}
