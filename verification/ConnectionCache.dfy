/**
  The cache of persistent connections: a finite map from connection keys to live
  connections, with eviction that leaves owned connections to their owners.
 */
module ConnectionCache {
  import opened Bytes
  import opened Lifecycle

  /** Takes a connection out of circulation; if nobody owns it, that is its end. */
  function Evict(w: World, key: Key, c: ConnId): World
    requires c in w.conns
  {
    if key !in w.cache || w.cache[key].conn != c then
      DestroyIfUnowned(SetConn(w, c, w.conns[c].(detached := true)), c)
    else
      var v := w.(cache := w.cache - {key});
      if w.conns[c].ownerCount > 0 then SetConn(v, c, w.conns[c].(detached := true)) else DestroyConn(v, c)
  }

  function RemoveUnusable(w: World, key: Key, c: ConnId): World
    requires c in w.conns
  {
    if w.conns[c].Usable() then w else Evict(w, key, c)
  }

  /** Closing a channel discards the connection held under its key, usable or not. */
  function CloseChannel(w: World, key: Key): World {
    if key in w.cache && w.cache[key].conn in w.conns then Evict(w, key, w.cache[key].conn) else w
  }

  /** `c` is held under no other key. */
  ghost predicate OwnKey(w: World, key: Key, c: ConnId) {
    forall k :: k in w.cache && w.cache[k].conn == c ==> k == key
  }

  lemma EvictInv(w: World, key: Key, c: ConnId)
    requires Inv(w) && c in w.conns && OwnKey(w, key, c)
    ensures var v := Evict(w, key, c);
            && Inv(v) && v.calls == w.calls && !Cached(v, c) && (c in v.conns ==> v.conns[c].detached)
            && v.cache == (if key in w.cache && w.cache[key].conn == c then w.cache - {key} else w.cache)
            && (forall d :: d in w.conns && d != c ==> d in v.conns && v.conns[d] == w.conns[d])
            && (if c in v.conns then v.conns[c].Usable() == w.conns[c].Usable() else c in v.freed)
  {
    if key in w.cache && w.cache[key].conn == c {
      EvictHeld(w, key, c);
    } else {
      assert Holds(CachePart, w) && !Cached(w, c);
      assert w.conns[c := w.conns[c]] == w.conns;
    }
  }

  lemma EvictHeld(w: World, key: Key, c: ConnId)
    requires Inv(w) && c in w.conns && OwnKey(w, key, c) && key in w.cache && w.cache[key].conn == c
    ensures var v := Evict(w, key, c);
            && Inv(v) && v.calls == w.calls && !Cached(v, c) && (c in v.conns ==> v.conns[c].detached)
            && v.cache == w.cache - {key}
            && (forall d :: d in w.conns && d != c ==> d in v.conns && v.conns[d] == w.conns[d])
            && (if c in v.conns then v.conns[c].Usable() == w.conns[c].Usable() else c in v.freed)
  {
    var u := SetConn(w.(cache := w.cache - {key}), c, w.conns[c].(detached := true));
    EvictIsDestroy(w, key, c);
    DetachKeyCore(w, c, key);
    DestroyCore(u, c);
  }

  lemma EvictIsDestroy(w: World, key: Key, c: ConnId)
    requires c in w.conns && key in w.cache && w.cache[key].conn == c
    ensures var u := SetConn(w.(cache := w.cache - {key}), c, w.conns[c].(detached := true));
            Evict(w, key, c) == DestroyIfUnowned(u, c)
  {
    var u := SetConn(w.(cache := w.cache - {key}), c, w.conns[c].(detached := true));
    assert w.conns - {c} == u.conns - {c};
  }

  /** Closing a channel frees its slot and no other.  A connection nobody owns is destroyed;
      one that is owned is left to its owners as it is, only detached. */
  lemma CloseChannelInv(w: World, key: Key)
    requires Inv(w)
    ensures var v := CloseChannel(w, key);
            && Inv(v) && v.calls == w.calls && v.cache == w.cache - {key}
            && (key in w.cache ==>
                  var c := w.cache[key].conn;
                  && c in w.conns
                  && if w.conns[c].ownerCount == 0 then c !in v.conns && v.freed == w.freed + [c]
                     else c in v.conns && v.conns[c] == w.conns[c].(detached := true) && v.freed == w.freed)
  {
    assert Holds(CachePart, w);
    if key in w.cache {
      EvictInv(w, key, w.cache[key].conn);
    } else {
      assert w.cache - {key} == w.cache;
    }
  }

  // ------------------------------------------------------------------ lookup

  /** What the check of an idle connection before its reuse finds. */
  datatype Preflight = Alive | FoundDead | FoundDraining

  /** What the surroundings decide about a lookup: the check, and the connection that could be set up. */
  datatype Lookup = Lookup(preflight: Preflight, created: Option<ConnId>)

  function Preflighted(w: World, c: ConnId, p: Preflight): World
    requires c in w.conns
  {
    if w.conns[c].activeCount > 0 || p == Alive then w
    else SetConn(w, c, if p == FoundDead then w.conns[c].(dead := true) else w.conns[c].(draining := true))
  }

  /** The connection cached under `key`, if it may be used; one that may not is evicted. */
  function Reusable(w: World, key: Key, p: Preflight): (World, Option<ConnId>) {
    if key !in w.cache || w.cache[key].conn !in w.conns then (w, None)
    else
      var c := w.cache[key].conn;
      if !w.conns[c].Usable() then (RemoveUnusable(w, key, c), None)
      else
        var v := Preflighted(w, c, p);
        if !v.conns[c].Usable() then (RemoveUnusable(v, key, c), None)
        else if w.cache[key].identity != key then (Evict(v, key, c), None)
        else (v, Some(c))
  }

  function GetPersistent(w: World, key: Key, l: Lookup): (World, Option<ConnId>) {
    var (v, found) := Reusable(w, key, l.preflight);
    if found.Some? then (v, found) else Create(v, key, l.created)
  }

  /** Sets up a connection and files it, if there is room and the connection can be had. */
  function Create(v: World, key: Key, created: Option<ConnId>): (World, Option<ConnId>) {
    if |v.cache| >= MAX_CONNECTIONS || created.None? || created.value in v.conns || created.value in v.freed
    then (v, None)
    else
      var c := created.value;
      (v.(cache := v.cache[key := Entry(c, key)], conns := v.conns[c := NEW_CONN]), Some(c))
  }

  lemma PreflightedInv(w: World, c: ConnId, p: Preflight)
    requires Inv(w) && c in w.conns
    ensures var v := Preflighted(w, c, p);
            Inv(v) && v.cache == w.cache && v.calls == w.calls && c in v.conns
  {
    var v := Preflighted(w, c, p);
    if v != w {
      FlagsCore(w, c, v.conns[c]);
    }
  }

  /** Either the slot is free afterwards, or it holds the usable connection that is returned.
      The branch for an entry filed under a foreign identity is never taken. */
  lemma ReusableInv(w: World, key: Key, p: Preflight)
    requires Inv(w)
    ensures var (v, found) := Reusable(w, key, p);
            && Inv(v) && v.calls == w.calls
            && (found.None? ==> key !in v.cache)
            && (found.Some? ==> key in v.cache && v.cache[key] == Entry(found.value, key)
                                && found.value in v.conns && v.conns[found.value].Usable())
    ensures key in w.cache ==> w.cache[key].identity == key && w.cache[key].conn in w.conns
  {
    assert Holds(CachePart, w);
    if key in w.cache {
      var c := w.cache[key].conn;
      var v := Preflighted(w, c, p);
      PreflightedInv(w, c, p);
      EvictInv(w, key, c);
      EvictInv(v, key, c);
    }
  }

  /** A lookup returns nothing, or a usable connection that the cache now holds under that key. */
  lemma GetPersistentInv(w: World, key: Key, l: Lookup)
    requires Inv(w)
    ensures var (v, got) := GetPersistent(w, key, l);
            && Inv(v) && v.calls == w.calls && |v.cache| <= MAX_CONNECTIONS
            && (got.Some? ==> key in v.cache && v.cache[key] == Entry(got.value, key) && OwnKey(v, key, got.value)
                              && got.value in v.conns && v.conns[got.value].Usable() && !v.conns[got.value].detached)
  {
    var (u, found) := Reusable(w, key, l.preflight);
    var (v, got) := GetPersistent(w, key, l);
    ReusableInv(w, key, l.preflight);
    if found.None? && got.Some? {
      CreateInv(u, key, got.value);
    }
    assert Holds(CachePart, v);
    if got.Some? {
      assert Cached(v, got.value);
    }
  }

  ghost predicate OnlyUnder(key: Key, w: World, v: World) {
    forall k :: k != key ==> (k in v.cache <==> k in w.cache) && (k in w.cache ==> v.cache[k] == w.cache[k])
  }

  /** The connection is out of use: gone, or left to its owners. */
  ghost predicate Displaced(v: World, c: ConnId) {
    if c in v.conns then v.conns[c].detached && !v.conns[c].Usable() else c in v.freed
  }

  lemma UnusableIsDisplaced(w: World, key: Key, c: ConnId)
    requires Inv(w) && key in w.cache && w.cache[key].conn == c && c in w.conns && !w.conns[c].Usable()
    ensures var v := RemoveUnusable(w, key, c);
            OnlyUnder(key, w, v) && key !in v.cache && Displaced(v, c)
  {
    assert Holds(CachePart, w);
    EvictInv(w, key, c);
  }

  lemma ReusableTouchesOneKey(w: World, key: Key, p: Preflight)
    requires Inv(w)
    ensures var (v, found) := Reusable(w, key, p);
            && OnlyUnder(key, w, v)
            && (found.Some? ==> v.cache == w.cache)
            && (found.None? && key in w.cache ==> Displaced(v, w.cache[key].conn))
  {
    assert Holds(CachePart, w);
    if key in w.cache {
      var c := w.cache[key].conn;
      var v := Preflighted(w, c, p);
      PreflightedInv(w, c, p);
      if !w.conns[c].Usable() {
        UnusableIsDisplaced(w, key, c);
      } else if !v.conns[c].Usable() {
        UnusableIsDisplaced(v, key, c);
      }
    }
  }

  /** The entry under `key` is the only one a lookup changes, and it changes it only after the
      connection that was there had become unusable; that one is then detached or destroyed. */
  lemma LookupTouchesOneKey(w: World, key: Key, l: Lookup)
    requires Inv(w)
    ensures var v := GetPersistent(w, key, l).0;
            && OnlyUnder(key, w, v)
            && (key in w.cache && (key !in v.cache || v.cache[key] != w.cache[key]) ==>
                  Displaced(v, w.cache[key].conn))
  {
    ReusableTouchesOneKey(w, key, l.preflight);
  }

  /** The cached connection may be reused: it is usable, and it is busy or found alive. */
  predicate Reuses(w: World, key: Key, p: Preflight) {
    && key in w.cache && w.cache[key].conn in w.conns
    && var conn := w.conns[w.cache[key].conn];
    conn.Usable() && (conn.activeCount > 0 || p == Alive)
  }

  /** No address was given out or forgotten. */
  ghost predicate SameAddresses(w: World, v: World) {
    forall d :: (d in v.conns || d in v.freed) <==> (d in w.conns || d in w.freed)
  }

  /** The entry is gone, and no address was given out. */
  ghost predicate SlotFreed(w: World, v: World, key: Key) {
    v.cache == w.cache - {key} && v.calls == w.calls && SameAddresses(w, v)
  }

  lemma EvictFrees(w: World, key: Key, c: ConnId)
    requires key in w.cache && w.cache[key].conn == c && c in w.conns
    ensures SlotFreed(w, Evict(w, key, c), key)
  {
  }

  lemma PreflightedFrees(w: World, key: Key, c: ConnId, p: Preflight)
    requires key in w.cache && w.cache[key].conn == c && c in w.conns
    ensures var v := Preflighted(w, c, p);
            c in v.conns && SlotFreed(w, Evict(v, key, c), key)
  {
    EvictFrees(Preflighted(w, c, p), key, c);
  }

  lemma EntryFacts(w: World, key: Key)
    requires Core(w) && key in w.cache
    ensures w.cache[key].conn in w.conns && w.cache[key].identity == key
  {
    assert Holds(CachePart, w);
  }

  lemma ReusableKeeps(w: World, key: Key, p: Preflight)
    requires Reuses(w, key, p) && w.cache[key].identity == key
    ensures Reusable(w, key, p) == (w, Some(w.cache[key].conn))
  {
  }

  lemma ReusableDrops(w: World, key: Key, p: Preflight)
    requires key in w.cache && w.cache[key].conn in w.conns && w.cache[key].identity == key && !Reuses(w, key, p)
    ensures var v := Preflighted(w, w.cache[key].conn, p);
            Reusable(w, key, p) == (Evict(w, key, w.cache[key].conn), None)
            || Reusable(w, key, p) == (Evict(v, key, w.cache[key].conn), None)
  {
  }

  lemma ReusableExactly(w: World, key: Key, p: Preflight)
    requires Core(w)
    ensures var (v, found) := Reusable(w, key, p);
            if Reuses(w, key, p) then v == w && found == Some(w.cache[key].conn)
            else found == None && SlotFreed(w, v, key)
  {
    if key in w.cache {
      EntryFacts(w, key);
      if Reuses(w, key, p) {
        ReusableKeeps(w, key, p);
      } else {
        ReusableDrops(w, key, p);
        EvictFrees(w, key, w.cache[key].conn);
        PreflightedFrees(w, key, w.cache[key].conn, p);
      }
    } else {
      assert w.cache - {key} == w.cache;
    }
  }

  /** A lookup returns the cached connection, and changes nothing, exactly if that may be reused.
      Otherwise the slot is freed and it returns a new connection exactly if one could be set up
      at a fresh address and there is room for it. */
  lemma GetPersistentExactly(w: World, key: Key, l: Lookup)
    requires Inv(w)
    ensures var (v, got) := GetPersistent(w, key, l);
            var room := |w.cache - {key}| < MAX_CONNECTIONS;
            var setUp := l.created.Some? && l.created.value !in w.conns && l.created.value !in w.freed;
            if Reuses(w, key, l.preflight) then v == w && got == Some(w.cache[key].conn)
            else if room && setUp then
              && got == l.created && v.cache == (w.cache - {key})[key := Entry(got.value, key)]
              && got.value in v.conns && v.conns[got.value] == NEW_CONN
            else got == None && v.cache == w.cache - {key}
  {
    ReusableExactly(w, key, l.preflight);
    if !Reuses(w, key, l.preflight) {
      CreateExactly(w, Reusable(w, key, l.preflight).0, key, l.created);
    }
  }

  lemma CreateExactly(w: World, v: World, key: Key, created: Option<ConnId>)
    requires SlotFreed(w, v, key)
    ensures var (u, got) := Create(v, key, created);
            if |w.cache - {key}| < MAX_CONNECTIONS && created.Some?
               && created.value !in w.conns && created.value !in w.freed
            then
              && got == created && u.cache == (w.cache - {key})[key := Entry(got.value, key)]
              && got.value in u.conns && u.conns[got.value] == NEW_CONN
            else got == None && u.cache == w.cache - {key}
  {
    if created.Some? {
      assert (created.value in v.conns || created.value in v.freed)
             <==> (created.value in w.conns || created.value in w.freed);
    }
  }

  lemma CreateInv(u: World, key: Key, c: ConnId)
    requires Inv(u) && key !in u.cache && |u.cache| < MAX_CONNECTIONS && c !in u.conns && c !in u.freed
    ensures Inv(u.(cache := u.cache[key := Entry(c, key)], conns := u.conns[c := NEW_CONN]))
  {
    var v := u.(cache := u.cache[key := Entry(c, key)], conns := u.conns[c := NEW_CONN]);
    OpenBooks(u);
    CreateCache(u, v, key, c);
    CreateOwners(u, v, c);
    CreateRest(u, v, c);
    CloseBooks(v);
  }

  lemma CreateCache(u: World, v: World, key: Key, c: ConnId)
    requires CacheOk(u) && key !in u.cache && |u.cache| < MAX_CONNECTIONS && c !in u.conns
    requires v == u.(cache := u.cache[key := Entry(c, key)], conns := u.conns[c := NEW_CONN])
    ensures CacheOk(v)
  {
    forall d | d in v.conns
      ensures v.conns[d].detached <==> !Cached(v, d)
    {
      if d == c {
        assert key in v.cache && v.cache[key].conn == c;
      } else if Cached(u, d) {
        var k :| k in u.cache && u.cache[k].conn == d;
        assert k in v.cache && v.cache[k].conn == d;
      }
    }
  }

  lemma CreateOwners(u: World, v: World, c: ConnId)
    requires OwnersOk(u) && c !in u.conns && v.calls == u.calls && v.conns == u.conns[c := NEW_CONN]
    ensures OwnersOk(v)
  {
    forall d | d in v.conns
      ensures v.conns[d].ownerCount == |Owners(v, d)|
    {
      assert Owners(v, d) == Owners(u, d);
      if d == c {
        assert Owners(v, c) == {};
      }
    }
  }

  lemma CreateRest(u: World, v: World, c: ConnId)
    requires ListsOk(u) && SourcesOk(u) && FreedOk(u) && c !in u.conns && c !in u.freed
    requires v.calls == u.calls && v.conns == u.conns[c := NEW_CONN] && v.freed == u.freed
    ensures ListsOk(v) && SourcesOk(v) && FreedOk(v)
  {
  }
}
