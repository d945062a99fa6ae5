/**
  Connections, calls and the persistent cache as the allocator sees them.  Addresses are
  the keys of `conns` and `calls`; freeing a block removes its key, so following a pointer
  to a freed block is a missing key.  A step is an operation of the extension or an event
  the HTTP/2 session reports.
 */
module Lifecycle {
  import opened Bytes

  type Key = string
  type ConnId = nat
  type CallId = nat
  type StreamId = nat

  const MAX_CONNECTIONS := 128

  /** A stream of the session: the call its DATA is read from, the call its events are
      reported to, and whether the session may still ask for DATA. */
  datatype Stream = Stream(source: CallId, user: Option<CallId>, sending: bool)

  datatype Conn = Conn(
    dead: bool, draining: bool, detached: bool, active: seq<CallId>, activeCount: nat, ownerCount: nat,
    session: map<StreamId, Stream>)
  {
    predicate Usable() {
      !dead && !draining
    }
  }

  /** `stream` is not positive until a request was submitted. */
  datatype Call = Call(conn: Option<ConnId>, stream: int, registered: bool, owned: bool, closed: bool, completed: bool)

  datatype Entry = Entry(conn: ConnId, identity: Key)

  datatype World = World(cache: map<Key, Entry>, conns: map<ConnId, Conn>, calls: map<CallId, Call>, freed: seq<ConnId>)

  const EMPTY: World := World(map[], map[], map[], [])
  const NEW_CONN: Conn := Conn(false, false, false, [], 0, 0, map[])

  function SetConn(w: World, c: ConnId, conn: Conn): World {
    w.(conns := w.conns[c := conn])
  }

  function SetCall(w: World, x: CallId, call: Call): World {
    w.(calls := w.calls[x := call])
  }

  // ---------------------------------------------------------------- invariant

  predicate Cached(w: World, c: ConnId) {
    exists k :: k in w.cache && w.cache[k].conn == c
  }

  /** A live connection is held under one key, its own, or it is detached. */
  ghost predicate CacheOk(w: World) {
    && |w.cache| <= MAX_CONNECTIONS
    && (forall k :: k in w.cache ==> w.cache[k].identity == k && w.cache[k].conn in w.conns)
    && (forall k, l :: k in w.cache && l in w.cache && w.cache[k].conn == w.cache[l].conn ==> k == l)
    && (forall c :: c in w.conns ==> (w.conns[c].detached <==> !Cached(w, c)))
  }

  ghost predicate NoDup<T>(s: seq<T>) {
    forall i, j :: 0 <= i < j < |s| ==> s[i] != s[j]
  }

  /** The active list of a connection is its registered calls. */
  ghost predicate ListsOk(w: World) {
    && (forall c :: c in w.conns ==> w.conns[c].activeCount == |w.conns[c].active| && NoDup(w.conns[c].active))
    && (forall c, x :: c in w.conns && x in w.conns[c].active ==>
          x in w.calls && w.calls[x].registered && w.calls[x].conn == Some(c))
    && (forall x :: x in w.calls && w.calls[x].registered ==>
          && w.calls[x].owned && w.calls[x].stream > 0 && w.calls[x].conn.Some? && w.calls[x].conn.value in w.conns
          && x in w.conns[w.calls[x].conn.value].active)
  }

  ghost function Owners(w: World, c: ConnId): set<CallId> {
    set x | x in w.calls && w.calls[x].owned && w.calls[x].conn == Some(c)
  }

  /** Owner counts are exact, and no call points at a connection that was freed. */
  ghost predicate OwnersOk(w: World) {
    && (forall c :: c in w.conns ==> w.conns[c].ownerCount == |Owners(w, c)|)
    && (forall x :: x in w.calls && w.calls[x].owned ==> w.calls[x].conn.Some?)
    && (forall x :: x in w.calls && w.calls[x].conn.Some? ==> w.calls[x].conn.value in w.conns)
  }

  ghost predicate FreedOk(w: World) {
    NoDup(w.freed) && forall i :: 0 <= i < |w.freed| ==> w.freed[i] !in w.conns
  }

  /** On a connection that may still be driven, every stream the session can ask for DATA
      or report an event on leads to a call that is still allocated. */
  ghost predicate SourcesOk(w: World) {
    forall c, s :: c in w.conns && !w.conns[c].dead && s in w.conns[c].session ==>
      var stream := w.conns[c].session[s];
      && s > 0
      && (stream.sending ==> stream.source in w.calls && var x := w.calls[stream.source];
            x.conn == Some(c) && x.stream == s && !x.closed && !x.completed)
      && (stream.user.Some? ==> stream.user.value in w.calls && var x := w.calls[stream.user.value];
            x.conn == Some(c) && x.stream == s && x.registered)
  }

  /** The books have five parts; a proof opens them only where it looks inside. */
  datatype Part = CachePart | ListPart | OwnerPart | FreedPart | SourcePart

  ghost predicate Holds(p: Part, w: World) {
    match p
    case CachePart => CacheOk(w)
    case ListPart => ListsOk(w)
    case OwnerPart => OwnersOk(w)
    case FreedPart => FreedOk(w)
    case SourcePart => SourcesOk(w)
  }

  ghost predicate Core(w: World) {
    forall p :: Holds(p, w)
  }

  lemma OpenBooks(w: World)
    requires Core(w)
    ensures CacheOk(w) && ListsOk(w) && OwnersOk(w) && FreedOk(w) && SourcesOk(w)
  {
    assert Holds(CachePart, w) && Holds(ListPart, w) && Holds(OwnerPart, w);
    assert Holds(FreedPart, w) && Holds(SourcePart, w);
  }

  lemma CloseBooks(w: World)
    requires CacheOk(w) && ListsOk(w) && OwnersOk(w) && FreedOk(w) && SourcesOk(w)
    ensures Core(w)
  {
  }

  /** Between operations: a call with a connection owns it. */
  ghost predicate Settled(w: World) {
    forall x :: x in w.calls && w.calls[x].conn.Some? ==> w.calls[x].owned
  }

  /** Nothing detached and unowned is left behind, except possibly `c`. */
  ghost predicate NoLeakBut(w: World, c: Option<ConnId>) {
    forall d :: d in w.conns && w.conns[d].detached && c != Some(d) ==> w.conns[d].ownerCount > 0
  }

  ghost predicate Inv(w: World) {
    Core(w) && Settled(w) && NoLeakBut(w, None)
  }

  // ------------------------------------------------------- small pieces of code

  function MarkDead(w: World, c: ConnId): World
    requires c in w.conns
  {
    SetConn(w, c, w.conns[c].(dead := true))
  }

  function DestroyConn(w: World, c: ConnId): World {
    w.(conns := w.conns - {c}, freed := w.freed + [c])
  }

  function DestroyIfUnowned(w: World, c: ConnId): World {
    if c in w.conns && w.conns[c].detached && w.conns[c].ownerCount == 0 then DestroyConn(w, c) else w
  }

  /** Takes the entry that holds `c`, if any, out of the cache.  There is at most one. */
  function DetachByPtr(w: World, c: ConnId): World
    requires c in w.conns
  {
    if Cached(w, c) then
      SetConn(w.(cache := map k | k in w.cache && w.cache[k].conn != c :: w.cache[k]), c, w.conns[c].(detached := true))
    else w
  }

  function DetachIfUnusable(w: World, c: ConnId): World
    requires c in w.conns
  {
    if w.conns[c].Usable() then w else DetachByPtr(w, c)
  }

  function Without(s: seq<CallId>, x: CallId): seq<CallId> {
    if s == [] then [] else if s[0] == x then s[1..] else [s[0]] + Without(s[1..], x)
  }

  function Forget(session: map<StreamId, Stream>, s: int): map<StreamId, Stream> {
    if s > 0 && s in session then session[s := session[s].(user := None)] else session
  }

  function Unregister(w: World, x: CallId): World
    requires x in w.calls
  {
    var call := w.calls[x];
    if !call.registered || call.conn.None? || call.stream <= 0 || call.conn.value !in w.conns then w
    else
      var c := call.conn.value;
      var conn := w.conns[c];
      SetCall(SetConn(w, c, conn.(active := Without(conn.active, x),
                                  activeCount := if conn.activeCount > 0 then conn.activeCount - 1 else 0,
                                  session := if conn.dead then conn.session else Forget(conn.session, call.stream))),
              x, call.(registered := false))
  }

  /** Gives up the ownership; `keepPointer` is the unary form, whose record is dropped right after. */
  function ReleaseOwner(w: World, x: CallId, keepPointer: bool): World
    requires x in w.calls
  {
    var call := w.calls[x];
    var released := call.(owned := false, conn := if keepPointer then call.conn else None);
    if call.owned && call.conn.Some? && call.conn.value in w.conns && w.conns[call.conn.value].ownerCount > 0 then
      var c := call.conn.value;
      SetCall(SetConn(w, c, w.conns[c].(ownerCount := w.conns[c].ownerCount - 1)), x, released)
    else
      SetCall(w, x, released)
  }

  function FreeCall(w: World, x: CallId): World {
    w.(calls := w.calls - {x})
  }

  // -------------------------------------- what each part of the books looks at

  ghost predicate SameCache(w: World, v: World) {
    && v.cache == w.cache && v.conns.Keys == w.conns.Keys
    && forall c :: c in w.conns ==> v.conns[c].detached == w.conns[c].detached
  }

  lemma CacheFrame(w: World, v: World)
    requires CacheOk(w) && SameCache(w, v)
    ensures CacheOk(v)
  {
    forall c | c in v.conns
      ensures v.conns[c].detached <==> !Cached(v, c)
    {
      assert Cached(v, c) <==> Cached(w, c);
    }
  }

  ghost predicate SameLists(w: World, v: World) {
    && v.conns.Keys == w.conns.Keys && v.calls.Keys == w.calls.Keys
    && (forall c :: c in w.conns ==>
          v.conns[c].active == w.conns[c].active && v.conns[c].activeCount == w.conns[c].activeCount)
    && (forall x :: x in w.calls ==>
          v.calls[x].registered == w.calls[x].registered && v.calls[x].owned == w.calls[x].owned
          && v.calls[x].stream == w.calls[x].stream && v.calls[x].conn == w.calls[x].conn)
  }

  lemma ListsFrame(w: World, v: World)
    requires ListsOk(w) && SameLists(w, v)
    ensures ListsOk(v)
  {
  }

  ghost predicate SameOwners(w: World, v: World) {
    && v.conns.Keys == w.conns.Keys && v.calls.Keys == w.calls.Keys
    && (forall c :: c in w.conns ==> v.conns[c].ownerCount == w.conns[c].ownerCount)
    && (forall x :: x in w.calls ==> v.calls[x].owned == w.calls[x].owned && v.calls[x].conn == w.calls[x].conn)
  }

  lemma OwnersFrame(w: World, v: World)
    requires OwnersOk(w) && SameOwners(w, v)
    ensures OwnersOk(v)
  {
    forall c | c in v.conns
      ensures v.conns[c].ownerCount == |Owners(v, c)|
    {
      assert Owners(v, c) == Owners(w, c);
    }
  }

  /** Nothing that could point a live session at a dead call has changed. */
  ghost predicate SameSources(w: World, v: World) {
    && v.conns.Keys == w.conns.Keys && v.calls.Keys == w.calls.Keys
    && (forall c :: c in w.conns ==>
          v.conns[c].session == w.conns[c].session && (w.conns[c].dead ==> v.conns[c].dead))
    && (forall x :: x in w.calls ==>
          v.calls[x].registered == w.calls[x].registered && v.calls[x].stream == w.calls[x].stream
          && v.calls[x].conn == w.calls[x].conn && v.calls[x].closed == w.calls[x].closed
          && v.calls[x].completed == w.calls[x].completed)
  }

  lemma SourcesFrame(w: World, v: World)
    requires SourcesOk(w) && SameSources(w, v)
    ensures SourcesOk(v)
  {
  }

  /** The session will not ask for the request of `x` any more. */
  ghost predicate Quiet(w: World, x: CallId) {
    forall c, s :: c in w.conns && !w.conns[c].dead && s in w.conns[c].session && w.conns[c].session[s].sending ==>
      w.conns[c].session[s].source != x
  }

  // ---------------------------------------------------- what the pieces keep

  /** A change to one connection that leaves its list, its session and its counts alone. */
  lemma ConnFrame(w: World, v: World, c: ConnId)
    requires c in w.conns && c in v.conns && v.calls == w.calls && v.conns == w.conns[c := v.conns[c]]
    requires v.conns[c].active == w.conns[c].active && v.conns[c].activeCount == w.conns[c].activeCount
    requires v.conns[c].ownerCount == w.conns[c].ownerCount && v.conns[c].session == w.conns[c].session
    requires w.conns[c].dead ==> v.conns[c].dead
    ensures SameLists(w, v) && SameOwners(w, v) && SameSources(w, v)
  {
  }

  lemma FreedFrame(w: World, v: World)
    requires FreedOk(w) && v.freed == w.freed && v.conns.Keys == w.conns.Keys
    ensures FreedOk(v)
  {
  }

  /** Death and draining change nothing in the books. */
  lemma FlagsCore(w: World, c: ConnId, conn: Conn)
    requires Core(w) && c in w.conns
    requires conn == w.conns[c].(dead := conn.dead, draining := conn.draining) && (w.conns[c].dead ==> conn.dead)
    ensures Core(SetConn(w, c, conn))
  {
    OpenBooks(w);
    var v := SetConn(w, c, conn);
    ConnFrame(w, v, c);
    FlagsSameCache(w, c, conn);
    CacheFrame(w, v);
    ListsFrame(w, v);
    OwnersFrame(w, v);
    SourcesFrame(w, v);
    FreedFrame(w, v);
    CloseBooks(v);
  }

  lemma FlagsSameCache(w: World, c: ConnId, conn: Conn)
    requires c in w.conns && conn.detached == w.conns[c].detached
    ensures SameCache(w, SetConn(w, c, conn))
  {
  }

  lemma DetachCore(w: World, c: ConnId)
    requires Core(w) && c in w.conns
    ensures var v := DetachByPtr(w, c);
            && Core(v) && v.calls == w.calls && v.freed == w.freed
            && v.conns == w.conns[c := w.conns[c].(detached := true)]
  {
    assert Holds(CachePart, w);
    if Cached(w, c) {
      var k :| k in w.cache && w.cache[k].conn == c;
      DetachIsOneKey(w, c, k);
      DetachKeyCore(w, c, k);
    } else {
      assert w.conns[c].(detached := true) == w.conns[c];
    }
  }

  lemma DetachIsOneKey(w: World, c: ConnId, k: Key)
    requires CacheOk(w) && c in w.conns && k in w.cache && w.cache[k].conn == c
    ensures DetachByPtr(w, c) == SetConn(w.(cache := w.cache - {k}), c, w.conns[c].(detached := true))
  {
    assert (map l | l in w.cache && w.cache[l].conn != c :: w.cache[l]) == w.cache - {k};
  }

  lemma DetachKeyCore(w: World, c: ConnId, k: Key)
    requires Core(w) && c in w.conns && k in w.cache && w.cache[k].conn == c
    ensures Core(SetConn(w.(cache := w.cache - {k}), c, w.conns[c].(detached := true)))
  {
    var v := SetConn(w.(cache := w.cache - {k}), c, w.conns[c].(detached := true));
    OpenBooks(w);
    DetachCache(w, v, c, k);
    ConnFrame(w, v, c);
    ListsFrame(w, v);
    OwnersFrame(w, v);
    SourcesFrame(w, v);
    FreedFrame(w, v);
    CloseBooks(v);
  }

  lemma DetachCache(w: World, v: World, c: ConnId, k: Key)
    requires CacheOk(w) && c in w.conns && k in w.cache && w.cache[k].conn == c
    requires v == SetConn(w.(cache := w.cache - {k}), c, w.conns[c].(detached := true))
    ensures CacheOk(v)
  {
    assert |v.cache| <= |w.cache| by {
      assert v.cache.Keys <= w.cache.Keys;
      SubsetSize(v.cache.Keys, w.cache.Keys);
    }
    forall d | d in v.conns
      ensures v.conns[d].detached <==> !Cached(v, d)
    {
      if d != c && Cached(w, d) {
        var l :| l in w.cache && w.cache[l].conn == d;
        assert l in v.cache && v.cache[l].conn == d;
      }
    }
  }

  lemma {:induction false} SubsetSize<T>(a: set<T>, b: set<T>)
    requires a <= b
    ensures |a| <= |b|
    decreases a
  {
    if a != {} {
      var x :| x in a;
      SubsetSize(a - {x}, b - {x});
    }
  }

  lemma {:induction false} WithoutOne(s: seq<CallId>, x: CallId)
    requires NoDup(s) && x in s
    ensures |Without(s, x)| == |s| - 1 && NoDup(Without(s, x))
    ensures forall y :: y in Without(s, x) <==> y in s && y != x
  {
    assert s == [s[0]] + s[1..];
    if s[0] != x {
      assert NoDup(s[1..]);
      WithoutOne(s[1..], x);
      var r := Without(s[1..], x);
      assert s[0] !in r;
      assert forall j :: 0 <= j < |r| ==> r[j] in r;
    }
  }

  lemma UnregisterCore(w: World, x: CallId)
    requires Core(w) && x in w.calls
    ensures Core(Unregister(w, x))
  {
    var call, v := w.calls[x], Unregister(w, x);
    if call.registered {
      OpenBooks(w);
      UnregisterFrame(w, x);
      CacheFrame(w, v);
      OwnersFrame(w, v);
      UnregisterLists(w, x);
      UnregisterSources(w, x);
      FreedFrame(w, v);
      CloseBooks(v);
    }
  }

  lemma UnregisterFrame(w: World, x: CallId)
    requires x in w.calls
    ensures SameCache(w, Unregister(w, x)) && SameOwners(w, Unregister(w, x))
  {
  }

  lemma UnregisterLists(w: World, x: CallId)
    requires ListsOk(w) && x in w.calls && w.calls[x].registered
    ensures ListsOk(Unregister(w, x))
  {
    var b, v := w.calls[x].conn.value, Unregister(w, x);
    WithoutOne(w.conns[b].active, x);
    forall c, y | c in v.conns && y in v.conns[c].active
      ensures y in v.calls && v.calls[y].registered && v.calls[y].conn == Some(c)
    {
      assert y in w.conns[c].active && (c != b ==> w.calls[y].conn != w.calls[x].conn);
    }
    forall y | y in v.calls && v.calls[y].registered
      ensures v.calls[y].owned && v.calls[y].stream > 0 && v.calls[y].conn.Some? && v.calls[y].conn.value in v.conns
      ensures y in v.conns[v.calls[y].conn.value].active
    {
      assert y != x && v.calls[y] == w.calls[y];
    }
  }

  lemma UnregisterSources(w: World, x: CallId)
    requires ListsOk(w) && SourcesOk(w) && x in w.calls && w.calls[x].registered
    ensures SourcesOk(Unregister(w, x))
  {
    var v := Unregister(w, x);
    forall c, s | c in v.conns && !v.conns[c].dead && s in v.conns[c].session && v.conns[c].session[s].user.Some?
      ensures v.conns[c].session[s].user != Some(x)
    {
      assert w.conns[c].session[s].user == v.conns[c].session[s].user;
    }
  }

  lemma ReleaseCore(w: World, x: CallId, keepPointer: bool)
    requires Core(w) && x in w.calls && !w.calls[x].registered && Quiet(w, x)
    ensures Core(ReleaseOwner(w, x, keepPointer))
  {
    OpenBooks(w);
    var v := ReleaseOwner(w, x, keepPointer);
    ReleaseCache(w, x, keepPointer);
    ReleaseLists(w, x, keepPointer);
    ReleaseOwners(w, x, keepPointer);
    ReleaseSources(w, x, keepPointer);
    FreedFrame(w, v);
    CloseBooks(v);
  }

  lemma ReleaseCache(w: World, x: CallId, keepPointer: bool)
    requires x in w.calls && CacheOk(w)
    ensures CacheOk(ReleaseOwner(w, x, keepPointer))
  {
    CacheFrame(w, ReleaseOwner(w, x, keepPointer));
  }

  /** The lists do not look at a call that is not registered. */
  lemma ListsFrameBut(w: World, v: World, x: CallId)
    requires ListsOk(w) && x in w.calls && !w.calls[x].registered && x in v.calls && !v.calls[x].registered
    requires v.conns.Keys == w.conns.Keys && v.calls.Keys == w.calls.Keys
    requires forall c :: c in w.conns ==>
               v.conns[c].active == w.conns[c].active && v.conns[c].activeCount == w.conns[c].activeCount
    requires forall y :: y in w.calls && y != x ==> v.calls[y] == w.calls[y]
    ensures ListsOk(v)
  {
    forall c, y | c in v.conns && y in v.conns[c].active
      ensures y in v.calls && v.calls[y].registered && v.calls[y].conn == Some(c)
    {
      assert y in w.conns[c].active;
    }
  }

  lemma ReleaseLists(w: World, x: CallId, keepPointer: bool)
    requires ListsOk(w) && x in w.calls && !w.calls[x].registered
    ensures ListsOk(ReleaseOwner(w, x, keepPointer))
  {
    ListsFrameBut(w, ReleaseOwner(w, x, keepPointer), x);
  }

  lemma ReleaseOwners(w: World, x: CallId, keepPointer: bool)
    requires OwnersOk(w) && x in w.calls
    ensures OwnersOk(ReleaseOwner(w, x, keepPointer))
  {
    var v := ReleaseOwner(w, x, keepPointer);
    forall c | c in v.conns
      ensures v.conns[c].ownerCount == |Owners(v, c)|
    {
      OwnersAfterRelease(w, x, keepPointer, c);
    }
  }

  lemma OwnersAfterRelease(w: World, x: CallId, keepPointer: bool, c: ConnId)
    requires x in w.calls
    ensures Owners(ReleaseOwner(w, x, keepPointer), c) == Owners(w, c) - {x}
    ensures x in Owners(w, c) <==> w.calls[x].owned && w.calls[x].conn == Some(c)
  {
  }

  lemma ReleaseSources(w: World, x: CallId, keepPointer: bool)
    requires SourcesOk(w) && x in w.calls && !w.calls[x].registered && Quiet(w, x)
    ensures SourcesOk(ReleaseOwner(w, x, keepPointer))
  {
  }

  lemma FreeCore(w: World, x: CallId)
    requires Core(w) && x in w.calls && !w.calls[x].registered && !w.calls[x].owned && Quiet(w, x)
    ensures Core(FreeCall(w, x))
  {
    OpenBooks(w);
    var v := FreeCall(w, x);
    CacheFrame(w, v);
    FreeParts(w, x);
    FreeOwners(w, x);
    FreedFrame(w, v);
    CloseBooks(v);
  }

  lemma FreeParts(w: World, x: CallId)
    requires ListsOk(w) && SourcesOk(w) && x in w.calls && !w.calls[x].registered && Quiet(w, x)
    ensures ListsOk(FreeCall(w, x)) && SourcesOk(FreeCall(w, x))
  {
  }

  lemma FreeOwners(w: World, x: CallId)
    requires OwnersOk(w) && x in w.calls && !w.calls[x].owned
    ensures OwnersOk(FreeCall(w, x))
  {
    var v := FreeCall(w, x);
    forall c | c in v.conns
      ensures v.conns[c].ownerCount == |Owners(v, c)|
    {
      assert Owners(v, c) == Owners(w, c);
    }
  }

  /** Destroying what is detached and unowned leaves no pointer behind. */
  lemma DestroyCore(w: World, c: ConnId)
    requires Core(w) && Settled(w) && NoLeakBut(w, Some(c))
    ensures Inv(DestroyIfUnowned(w, c))
  {
    var v := DestroyIfUnowned(w, c);
    if v != w {
      OpenBooks(w);
      NobodyPoints(w, c);
      DestroyCache(w, c);
      DestroyOwners(w, c);
      DestroyRest(w, c);
      CloseBooks(v);
    }
  }

  lemma NobodyPoints(w: World, c: ConnId)
    requires OwnersOk(w) && Settled(w) && c in w.conns && w.conns[c].ownerCount == 0
    ensures forall x :: x in w.calls ==> w.calls[x].conn != Some(c)
  {
    assert forall x :: x in w.calls && w.calls[x].conn == Some(c) ==> x in Owners(w, c);
  }

  lemma DestroyCache(w: World, c: ConnId)
    requires CacheOk(w) && c in w.conns && w.conns[c].detached
    ensures CacheOk(DestroyConn(w, c))
  {
    var v := DestroyConn(w, c);
    forall d | d in v.conns
      ensures v.conns[d].detached <==> !Cached(v, d)
    {
      assert Cached(v, d) <==> Cached(w, d);
    }
    forall k | k in v.cache
      ensures v.cache[k].conn in v.conns
    {
      assert Cached(w, v.cache[k].conn);
    }
  }

  lemma DestroyOwners(w: World, c: ConnId)
    requires OwnersOk(w) && forall x :: x in w.calls ==> w.calls[x].conn != Some(c)
    ensures OwnersOk(DestroyConn(w, c))
  {
    var v := DestroyConn(w, c);
    forall d | d in v.conns
      ensures v.conns[d].ownerCount == |Owners(v, d)|
    {
      assert Owners(v, d) == Owners(w, d);
    }
  }

  lemma DestroyRest(w: World, c: ConnId)
    requires ListsOk(w) && SourcesOk(w) && FreedOk(w) && c in w.conns
    requires forall x :: x in w.calls ==> w.calls[x].conn != Some(c)
    ensures var v := DestroyConn(w, c);
            ListsOk(v) && SourcesOk(v) && FreedOk(v)
  {
  }

  // -------------------------------------------------------- session events

  function DropStreams(w: World, c: ConnId, gone: set<StreamId>): World
    requires c in w.conns
  {
    SetConn(w, c, w.conns[c].(session := w.conns[c].session - gone))
  }

  function StopSending(w: World, c: ConnId, s: StreamId): World
    requires c in w.conns
  {
    var conn := w.conns[c];
    if s in conn.session then SetConn(w, c, conn.(session := conn.session[s := conn.session[s].(sending := false)])) else w
  }

  /** The callbacks for a finished stream set the mark and take the call off the list. */
  function CloseCall(w: World, x: CallId): World
    requires x in w.calls
  {
    Unregister(SetCall(w, x, w.calls[x].(closed := true)), x)
  }

  function OnStreamClose(w: World, c: ConnId, s: StreamId): World
    requires c in w.conns
  {
    if s !in w.conns[c].session then w
    else
      var user := w.conns[c].session[s].user;
      var v := DropStreams(w, c, {s});
      if user.Some? && user.value in v.calls then CloseCall(v, user.value) else v
  }

  function RefuseEach(w: World, xs: seq<CallId>, last: int): World
    decreases |xs|
  {
    if xs == [] then w
    else
      var v := if xs[0] in w.calls && w.calls[xs[0]].stream > last then CloseCall(w, xs[0]) else w;
      RefuseEach(v, xs[1..], last)
  }

  /** GOAWAY: the session gives up every stream above `last`, the calls on them are refused. */
  function OnGoaway(w: World, c: ConnId, last: int): World
    requires c in w.conns
  {
    var v := SetConn(w, c, w.conns[c].(draining := true));
    if last == INT32_MAX then v
    else RefuseEach(DropStreams(v, c, set s | s in v.conns[c].session && s > last), w.conns[c].active, last)
  }

  datatype Event =
    | StreamClosed(stream: StreamId)
    | Goaway(last: int)
    | PolicyReset(stream: StreamId, fatal: bool)
    | Failed

  /** A connection that is dead is not driven, so it reports nothing. */
  function OnEvent(w: World, c: ConnId, e: Event): World {
    if c !in w.conns || w.conns[c].dead then w
    else match e
      case StreamClosed(s) => OnStreamClose(w, c, s)
      case Goaway(last) => OnGoaway(w, c, last)
      case PolicyReset(s, fatal) => if fatal then MarkDead(w, c) else StopSending(w, c, s)
      case Failed => MarkDead(w, c)
  }

  /** Streams may disappear, stop sending or lose the call they report to, and nothing else. */
  ghost predicate Fades(was: map<StreamId, Stream>, now: map<StreamId, Stream>) {
    forall s :: s in now ==>
      && s in was && now[s].source == was[s].source && (now[s].sending ==> was[s].sending)
      && (now[s].user == was[s].user || now[s].user == None)
  }

  /** A session that fades leaves the books in order. */
  lemma SessionCore(w: World, c: ConnId, session: map<StreamId, Stream>)
    requires Core(w) && c in w.conns
    requires Fades(w.conns[c].session, session)
    ensures var v := SetConn(w, c, w.conns[c].(session := session));
            Core(v) && forall x :: Quiet(w, x) ==> Quiet(v, x)
  {
    OpenBooks(w);
    var conn := w.conns[c].(session := session);
    var v := SetConn(w, c, conn);
    FlagsSameCache(w, c, conn);
    SessionFrame(w, c, conn);
    CacheFrame(w, v);
    ListsFrame(w, v);
    OwnersFrame(w, v);
    FreedFrame(w, v);
    SessionSources(w, c, session);
    CloseBooks(v);
  }

  lemma SessionFrame(w: World, c: ConnId, conn: Conn)
    requires c in w.conns && conn == w.conns[c].(session := conn.session)
    ensures SameLists(w, SetConn(w, c, conn)) && SameOwners(w, SetConn(w, c, conn))
  {
  }

  lemma SessionSources(w: World, c: ConnId, session: map<StreamId, Stream>)
    requires SourcesOk(w) && c in w.conns
    requires Fades(w.conns[c].session, session)
    ensures var v := SetConn(w, c, w.conns[c].(session := session));
            SourcesOk(v) && forall x :: Quiet(w, x) ==> Quiet(v, x)
  {
  }

  /** A call none of whose stream is being sent may be marked closed or completed. */
  lemma MarkCore(w: World, x: CallId, call: Call)
    requires Core(w) && x in w.calls && Quiet(w, x)
    requires call == w.calls[x].(closed := call.closed, completed := call.completed)
    ensures Core(SetCall(w, x, call)) && Quiet(SetCall(w, x, call), x)
  {
    OpenBooks(w);
    var v := SetCall(w, x, call);
    MarkFrame(w, x, call);
    CacheFrame(w, v);
    ListsFrame(w, v);
    OwnersFrame(w, v);
    FreedFrame(w, v);
    MarkSources(w, x, call);
    CloseBooks(v);
  }

  lemma MarkFrame(w: World, x: CallId, call: Call)
    requires x in w.calls && call == w.calls[x].(closed := call.closed, completed := call.completed)
    ensures var v := SetCall(w, x, call);
            SameCache(w, v) && SameLists(w, v) && SameOwners(w, v)
  {
  }

  lemma MarkSources(w: World, x: CallId, call: Call)
    requires SourcesOk(w) && x in w.calls && Quiet(w, x)
    requires call == w.calls[x].(closed := call.closed, completed := call.completed)
    ensures SourcesOk(SetCall(w, x, call)) && Quiet(SetCall(w, x, call), x)
  {
  }

  /** What an event or a piece of bookkeeping may do besides: no owner count, no detached mark,
      no pointer changes, death is final, and no stream starts sending. */
  ghost predicate Harmless(w: World, v: World) {
    && v.cache == w.cache && v.freed == w.freed && v.conns.Keys == w.conns.Keys && v.calls.Keys == w.calls.Keys
    && (forall c :: c in w.conns ==>
          && v.conns[c].ownerCount == w.conns[c].ownerCount && v.conns[c].detached == w.conns[c].detached
          && (w.conns[c].dead ==> v.conns[c].dead) && (w.conns[c].draining ==> v.conns[c].draining)
          && Fades(w.conns[c].session, v.conns[c].session))
    && (forall x :: x in w.calls ==>
          && v.calls[x].owned == w.calls[x].owned && v.calls[x].conn == w.calls[x].conn
          && v.calls[x].stream == w.calls[x].stream && (w.calls[x].closed ==> v.calls[x].closed)
          && v.calls[x].completed == w.calls[x].completed)
  }

  lemma HarmlessTrans(w: World, v: World, u: World)
    requires Harmless(w, v) && Harmless(v, u)
    ensures Harmless(w, u)
  {
  }

  lemma HarmlessQuiet(w: World, v: World, x: CallId)
    requires Harmless(w, v) && Quiet(w, x)
    ensures Quiet(v, x)
  {
  }

  lemma ForgetFades(session: map<StreamId, Stream>, s: int)
    ensures Fades(session, Forget(session, s)) && Fades(session, session)
  {
  }

  lemma UnregisterHarmless(w: World, x: CallId)
    requires x in w.calls
    ensures Harmless(w, Unregister(w, x))
  {
    var v := Unregister(w, x);
    forall c | c in w.conns
      ensures c in v.conns && Fades(w.conns[c].session, v.conns[c].session)
    {
      ForgetFades(w.conns[c].session, w.calls[x].stream);
    }
  }

  lemma CloseCallCore(w: World, x: CallId)
    requires Core(w) && x in w.calls && Quiet(w, x)
    ensures Core(CloseCall(w, x)) && Harmless(w, CloseCall(w, x))
  {
    var v := SetCall(w, x, w.calls[x].(closed := true));
    MarkCore(w, x, w.calls[x].(closed := true));
    UnregisterCore(v, x);
    UnregisterHarmless(v, x);
    assert Harmless(w, v);
    HarmlessTrans(w, v, Unregister(v, x));
  }

  /** A call is quiet unless its own stream, on its own connection, is still being sent. */
  lemma QuietUnless(w: World, x: CallId)
    requires Core(w) && x in w.calls
    requires var call := w.calls[x];
             call.closed || call.completed || call.stream <= 0 || call.conn.None? || call.conn.value !in w.conns
             || w.conns[call.conn.value].dead || call.stream !in w.conns[call.conn.value].session
             || !w.conns[call.conn.value].session[call.stream].sending
    ensures Quiet(w, x)
  {
    assert Holds(SourcePart, w);
  }

  lemma FlagsHarmless(w: World, c: ConnId, conn: Conn)
    requires c in w.conns && conn == w.conns[c].(dead := conn.dead, draining := conn.draining)
    requires (w.conns[c].dead ==> conn.dead) && (w.conns[c].draining ==> conn.draining)
    ensures Harmless(w, SetConn(w, c, conn))
  {
  }

  lemma SessionHarmless(w: World, c: ConnId, session: map<StreamId, Stream>)
    requires c in w.conns && Fades(w.conns[c].session, session)
    ensures Harmless(w, SetConn(w, c, w.conns[c].(session := session)))
  {
  }

  /** The call behind a stream that closes ends up closed and off the list. */
  lemma ClosedAndOffTheList(w: World, c: ConnId, s: StreamId, x: CallId)
    requires Core(w) && c in w.conns && !w.conns[c].dead
    requires s in w.conns[c].session && w.conns[c].session[s].user == Some(x)
    ensures var v := OnStreamClose(w, c, s);
            x in v.calls && v.calls[x].closed && !v.calls[x].registered && c in v.conns && x !in v.conns[c].active
  {
    assert Holds(SourcePart, w) && Holds(ListPart, w);
    WithoutOne(w.conns[c].active, x);
  }

  lemma OnStreamCloseCore(w: World, c: ConnId, s: StreamId)
    requires Core(w) && c in w.conns && !w.conns[c].dead
    ensures Core(OnStreamClose(w, c, s)) && Harmless(w, OnStreamClose(w, c, s))
    ensures s !in OnStreamClose(w, c, s).conns[c].session
  {
    OpenBooks(w);
    if s in w.conns[c].session {
      var user, v := w.conns[c].session[s].user, DropStreams(w, c, {s});
      SessionCore(w, c, v.conns[c].session);
      SessionHarmless(w, c, v.conns[c].session);
      if user.Some? && user.value in v.calls {
        assert w.calls[user.value].stream == s && w.calls[user.value].conn == Some(c);
        QuietUnless(v, user.value);
        CloseCallCore(v, user.value);
        HarmlessTrans(w, v, CloseCall(v, user.value));
        assert Fades(v.conns[c].session, CloseCall(v, user.value).conns[c].session);
      }
    }
  }

  lemma {:induction false} RefuseEachCore(w: World, xs: seq<CallId>, last: int)
    requires Core(w)
    requires forall i :: 0 <= i < |xs| && xs[i] in w.calls && w.calls[xs[i]].stream > last ==> Quiet(w, xs[i])
    ensures Core(RefuseEach(w, xs, last)) && Harmless(w, RefuseEach(w, xs, last))
    decreases |xs|
  {
    if xs == [] {
      assert Harmless(w, w);
    } else {
      var x := xs[0];
      var refused := x in w.calls && w.calls[x].stream > last;
      var v := if refused then CloseCall(w, x) else w;
      if refused {
        CloseCallCore(w, x);
      }
      assert Harmless(w, v);
      StillQuiet(w, v, xs, last);
      RefuseEachCore(v, xs[1..], last);
      HarmlessTrans(w, v, RefuseEach(v, xs[1..], last));
    }
  }

  lemma StillQuiet(w: World, v: World, xs: seq<CallId>, last: int)
    requires Harmless(w, v) && xs != []
    requires forall i :: 0 <= i < |xs| && xs[i] in w.calls && w.calls[xs[i]].stream > last ==> Quiet(w, xs[i])
    ensures forall i :: 0 <= i < |xs[1..]| && xs[1..][i] in v.calls && v.calls[xs[1..][i]].stream > last ==>
              Quiet(v, xs[1..][i])
  {
    forall i | 0 <= i < |xs[1..]| && xs[1..][i] in v.calls && v.calls[xs[1..][i]].stream > last
      ensures Quiet(v, xs[1..][i])
    {
      assert xs[1..][i] == xs[i + 1];
      HarmlessQuiet(w, v, xs[i + 1]);
    }
  }

  lemma OnGoawayCore(w: World, c: ConnId, last: int)
    requires Core(w) && c in w.conns && !w.conns[c].dead
    ensures Core(OnGoaway(w, c, last)) && Harmless(w, OnGoaway(w, c, last)) && OnGoaway(w, c, last).conns[c].draining
  {
    var conn := w.conns[c].(draining := true);
    var v := SetConn(w, c, conn);
    FlagsCore(w, c, conn);
    FlagsHarmless(w, c, conn);
    if last != INT32_MAX {
      var u := DropStreams(v, c, set s | s in v.conns[c].session && s > last);
      SessionCore(v, c, u.conns[c].session);
      SessionHarmless(v, c, u.conns[c].session);
      HarmlessTrans(w, v, u);
      RefusedAreQuiet(w, u, c, last);
      RefuseEachCore(u, w.conns[c].active, last);
      HarmlessTrans(w, u, RefuseEach(u, w.conns[c].active, last));
    }
  }

  lemma RefusedAreQuiet(w: World, u: World, c: ConnId, last: int)
    requires Core(w) && Core(u) && c in w.conns && u.calls == w.calls && c in u.conns
    requires forall s :: s in u.conns[c].session ==> s <= last
    ensures var xs := w.conns[c].active;
            forall i :: 0 <= i < |xs| && xs[i] in u.calls && u.calls[xs[i]].stream > last ==> Quiet(u, xs[i])
  {
    var xs := w.conns[c].active;
    forall i | 0 <= i < |xs| && xs[i] in u.calls && u.calls[xs[i]].stream > last
      ensures Quiet(u, xs[i])
    {
      assert Holds(ListPart, w) && xs[i] in xs;
      QuietUnless(u, xs[i]);
    }
  }

  lemma StopSendingCore(w: World, c: ConnId, s: StreamId)
    requires Core(w) && c in w.conns
    ensures Core(StopSending(w, c, s)) && Harmless(w, StopSending(w, c, s))
  {
    if s in w.conns[c].session {
      var session := StopSending(w, c, s).conns[c].session;
      SessionCore(w, c, session);
      SessionHarmless(w, c, session);
    } else {
      assert Harmless(w, w);
    }
  }

  lemma MarkDeadCore(w: World, c: ConnId)
    requires Core(w) && c in w.conns
    ensures Core(MarkDead(w, c)) && Harmless(w, MarkDead(w, c))
  {
    FlagsCore(w, c, w.conns[c].(dead := true));
    FlagsHarmless(w, c, w.conns[c].(dead := true));
  }

  lemma OnEventCore(w: World, c: ConnId, e: Event)
    requires Core(w)
    ensures Core(OnEvent(w, c, e)) && Harmless(w, OnEvent(w, c, e))
  {
    if c in w.conns && !w.conns[c].dead {
      match e
      case StreamClosed(s) => OnStreamCloseCore(w, c, s);
      case Goaway(last) => OnGoawayCore(w, c, last);
      case PolicyReset(s, fatal) =>
        MarkDeadCore(w, c);
        StopSendingCore(w, c, s);
      case Failed => MarkDeadCore(w, c);
    } else {
      assert Harmless(w, w);
    }
  }
}
