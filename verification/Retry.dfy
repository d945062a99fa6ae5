/**
  The two loops that repeat a refused request without the caller noticing.
 */
module Retry {
  import opened Bytes
  import opened Lifecycle
  import opened ConnectionCache
  import opened Operations
  import opened Wear
  import opened Runs
  import Response

  type History = seq<Response.Event>

  ghost predicate LawfulHistory(t: History) {
    forall i :: 0 <= i < |t| ==> Response.Lawful(t[i])
  }

  /** The peer said it would not process the stream, and there was no response on it. */
  ghost predicate Unprocessed(t: History) {
    && Response.Refused(t)
    && (forall i :: 0 <= i < |t| ==> !t[i].HeaderField?)
  }

  // -------------------------------------------------------------------- unary

  /** What the surroundings contribute to one attempt. */
  datatype Try = Try(call: CallId, lookup: Lookup, exchange: Exchange, history: History)

  /** A stream is refused by GOAWAY only where the session reports one. */
  ghost predicate Possible(t: Try) {
    && LawfulHistory(t.history)
    && (Response.RefusedByGoaway in t.history ==> t.exchange.Exchanged? && Drained(t.exchange.events))
  }

  datatype UnaryEnd = Unconnected | Threw | Resolved(record: Response.Record)

  function UnaryRecord(cfg: Response.Config, t: History): Response.Record {
    Response.Ended(Response.Run(cfg, t), true)
  }

  lemma RetryMeans(cfg: Response.Config, t: History, unary: bool, attempt: nat, observed: bool)
    requires LawfulHistory(t)
    requires Response.OutcomeOf(Response.Ended(Response.Run(cfg, t), unary), attempt, observed).retryable
    ensures attempt == 0 && !observed && Unprocessed(t)
    ensures Response.OutcomeOf(Response.Ended(Response.Run(cfg, t), unary), attempt, observed).refusal == Response.ByGoaway
            <==> Response.RefusedByGoaway in t
  {
    Response.RetryOnlyIfUnprocessed(cfg, t, attempt, observed);
    Response.RefusalTracksHistory(cfg, t);
  }

  /** The two sides of an outcome; a proof looks at them only where it must. */
  datatype Side = WorldSide | EndSide

  ghost predicate Comes(side: Side, w: World, key: Key, t: Try, v: World, made: AttemptEnd) {
    && t.call !in w.calls
    && match side
       case WorldSide => v == Runs.Attempt(w, key, t.call, t.lookup, t.exchange).0
       case EndSide => made == Runs.Attempt(w, key, t.call, t.lookup, t.exchange).1
  }

  /** An attempt made in `w` leaves `v` and ends as `made`. */
  ghost predicate CameOf(w: World, key: Key, t: Try, v: World, made: AttemptEnd) {
    forall side :: Comes(side, w, key, t, v, made)
  }

  /** Where a refused first attempt leaves the connections for the second. */
  function BeforeSecond(v: World, key: Key, made: AttemptEnd, first: Try): World {
    if Response.RefusedByGoaway in first.history && made.Answered? && made.conn in v.conns
    then RemoveUnusable(v, key, made.conn) else v
  }

  /** What an attempt that is not repeated comes to. */
  function EndOf(cfg: Response.Config, made: AttemptEnd, t: Try): UnaryEnd {
    match made
    case NoConnection => Unconnected
    case Thrown(_) => Threw
    case Answered(_) => Resolved(UnaryRecord(cfg, t.history))
  }

  predicate Repeats(cfg: Response.Config, made: AttemptEnd, t: Try) {
    made.Answered? && Response.OutcomeOf(UnaryRecord(cfg, t.history), 0, false).retryable
  }

  /** One attempt: never on a connection that is draining, dead or gone. */
  method MakeAttempt(v: World, key: Key, t: Try) returns (u: World, made: AttemptEnd)
    requires Inv(v) && t.call !in v.calls && Possible(t)
    ensures Inv(u) && u.calls.Keys == v.calls.Keys && CameOf(v, key, t, u, made)
    ensures !made.NoConnection? ==> Condition(v, made.conn) > 2
    ensures made.Answered? ==> made.conn in u.conns && OwnKey(u, key, made.conn)
    ensures made.Answered? && Response.RefusedByGoaway in t.history ==> Condition(u, made.conn) <= 2
  {
    AttemptInv(v, key, t.call, t.lookup, t.exchange);
    var (w, end) := Attempt(v, key, t.call, t.lookup, t.exchange);
    u, made := w, end;
    if !made.NoConnection? && Condition(v, made.conn) <= 2 {
      LookupAvoids(v, key, t.lookup, made.conn);
    }
  }

  /** Takes the connection of an attempt out of the cache if it has become unusable. */
  method TidyUp(v: World, key: Key, c: ConnId) returns (u: World)
    requires Inv(v) && c in v.conns && OwnKey(v, key, c)
    ensures Inv(u) && u.calls.Keys == v.calls.Keys && Condition(u, c) <= Condition(v, c)
    ensures u == RemoveUnusable(v, key, c)
    ensures c in u.conns && !u.conns[c].Usable() ==> !Cached(u, c)
  {
    u := RemoveUnusable(v, key, c);
    EvictInv(v, key, c);
    EvictKept(v, key, c, 0, c);
    KeptFacts(v, u, 0, c);
  }

  /** Performs a unary call.  `ends` tells how each attempt ended: a second one is made exactly if
      the first was answered and may be repeated, and the last one decides the end of the call. */
  method PerformUnary(cfg: Response.Config, w: World, key: Key, first: Try, second: Try)
    returns (v: World, end: UnaryEnd, ends: seq<AttemptEnd>, ghost after: seq<World>)
    requires Inv(w) && first.call !in w.calls && second.call !in w.calls && Possible(first) && Possible(second)
    ensures Inv(v) && v.calls.Keys == w.calls.Keys
    ensures 1 <= |ends| == |after| <= 2 && CameOf(w, key, first, after[0], ends[0])
    ensures |ends| == 2 <==> Repeats(cfg, ends[0], first)
    ensures |ends| == 1 ==> end == EndOf(cfg, ends[0], first)
    ensures |ends| == 2 ==>
              && CameOf(BeforeSecond(after[0], key, ends[0], first), key, second, after[1], ends[1])
              && end == EndOf(cfg, ends[1], second) && Unprocessed(first.history)
              && (ends[0].Answered? && !ends[1].NoConnection? && Response.RefusedByGoaway in first.history ==>
                    ends[1].conn != ends[0].conn)
    ensures ends[|ends| - 1].Answered? ==> var c := ends[|ends| - 1].conn;
              c in v.conns && !v.conns[c].Usable() ==> !Cached(v, c)
  {
    v, ends, after := w, [], [];
    var attempt := 0;
    var haveResult, record := false, Response.NEW_CALL;
    while attempt < 2
      invariant 0 <= attempt <= 1 && |ends| == |after| == attempt && !haveResult
      invariant Inv(v) && v.calls.Keys == w.calls.Keys
      invariant attempt == 0 ==> v == w
      invariant attempt == 1 ==>
                  && CameOf(w, key, first, after[0], ends[0]) && v == BeforeSecond(after[0], key, ends[0], first)
                  && Repeats(cfg, ends[0], first) && Unprocessed(first.history)
                  && (Response.RefusedByGoaway in first.history ==> Condition(v, ends[0].conn) <= 2)
      decreases 2 - attempt
    {
      var t := if attempt == 0 then first else second;
      var made;
      v, made := MakeAttempt(v, key, t);
      ends, after := ends + [made], after + [v];
      if made.NoConnection? {
        return v, Unconnected, ends, after;
      }
      if made.Thrown? {
        return v, Threw, ends, after;
      }
      haveResult, record := true, UnaryRecord(cfg, t.history);
      var outcome := Response.OutcomeOf(record, attempt, false);
      if !outcome.retryable {
        break;
      }
      RetryMeans(cfg, t.history, true, attempt, false);
      if outcome.refusal == Response.ByGoaway {
        v := TidyUp(v, key, made.conn);
      }
      haveResult := false;
      attempt := attempt + 1;
    }
    assert haveResult;
    v := TidyUp(v, key, ends[|ends| - 1].conn);
    end := Resolved(record);
  }

  // ---------------------------------------------------------------- streaming

  /** What the surroundings contribute to opening a stream; `opening` is `None` if the deadline
      has passed by the time there is a connection. */
  datatype Start = Start(call: CallId, lookup: Lookup, opening: Option<Opening>, reset: Reset)

  /** What happens until `next` returns: to the connections, by whatever calls and sessions there
      are, to this stream, and whether a message comes out of it.  A GOAWAY on the stream's own
      connection is kept apart from the rest. */
  datatype Pull = Pull(before: seq<Op>, goaway: Option<int>, after: seq<Op>, events: History, message: bool)

  /** What the surroundings contribute to one turn of the loop. */
  datatype Turn = Turn(start: Start, pull: Pull)

  /** Headers are refused because of what the application passed, and a stream is refused by
      GOAWAY only where the session reports one. */
  ghost predicate PossibleTurn(t: Turn) {
    && t.start.opening != Some(BadHeaders)
    && LawfulHistory(t.pull.events)
    && (Response.RefusedByGoaway in t.pull.events ==> t.pull.goaway.Some?)
  }

  /** What the application has passed: nothing to send, an unusable target, bad metadata, or a request. */
  datatype Request = Missing | Malformed | BadMetadata | Good

  /** How an attempt to open a stream ends: with an exception, with a status, or with a stream. */
  datatype Setup = Exception | SetupFailed(submitted: bool) | StreamOpen

  /** What the checks in the middle of an opening make of it. */
  function Effective(q: Request, o: Option<Opening>): Option<Opening> {
    if q == BadMetadata && o.Some? && o.value != NoTime then Some(BadHeaders) else o
  }

  function SetupOf(w: World, c: Option<ConnId>, o: Option<Opening>): Setup {
    if c.None? || c.value !in w.conns || o.None? then SetupFailed(false)
    else match o.value
      case NoTime => SetupFailed(false)
      case BadHeaders => Exception
      case Rejected(_) => SetupFailed(false)
      case RegisterFailed(s) => SetupFailed(s != 0 && s !in w.conns[c.value].session)
      case SendFailed(s) => SetupFailed(s != 0 && s !in w.conns[c.value].session)
      case Opened(s) => if s == 0 || s in w.conns[c.value].session then SetupFailed(false) else StreamOpen
  }

  ghost predicate Begins(side: Side, w: World, key: Key, q: Request, s: Start, on: Option<ConnId>, how: Setup) {
    match side
    case WorldSide => on == if s.call in w.calls then None else GetPersistent(w, key, s.lookup).1
    case EndSide =>
      how == if s.call in w.calls then SetupFailed(false)
             else SetupOf(GetPersistent(w, key, s.lookup).0, GetPersistent(w, key, s.lookup).1, Effective(q, s.opening))
  }

  /** The connection a start is made on and what comes of it, by what the lookup finds. */
  ghost predicate Began(w: World, key: Key, q: Request, s: Start, on: Option<ConnId>, how: Setup) {
    forall side :: Begins(side, w, key, q, s, on, how)
  }

  /** The connections once a stream, if there is one, is dropped. */
  function WithoutStream(w: World, stream: Option<CallId>, reset: Reset): World {
    if stream.Some? then Perform(w, Dropped(stream.value, reset)) else w
  }

  /** The same after the stream of the attempt before has been dropped. */
  ghost predicate BeganAfter(
    w: World, stream: Option<CallId>, key: Key, q: Request, s: Start, on: Option<ConnId>, how: Setup)
  {
    forall side :: Begins(side, WithoutStream(w, stream, s.reset), key, q, s, on, how)
  }

  /** A stream that counts as open has a registered call that owns the connection it began on. */
  lemma StreamOpenMeans(w: World, key: Key, q: Request, s: Start, on: Option<ConnId>)
    requires Inv(w) && Began(w, key, q, s, on, StreamOpen)
    ensures var v := OpenStreaming(w, key, s.call, s.lookup, Effective(q, s.opening), s.reset);
            && on.Some? && s.call !in w.calls && s.call in v.calls
            && v.calls[s.call].conn == on && v.calls[s.call].registered && v.calls[s.call].owned
  {
    var (found, got) := GetPersistent(w, key, s.lookup);
    assert Begins(WorldSide, w, key, q, s, on, StreamOpen) && Begins(EndSide, w, key, q, s, on, StreamOpen);
    GetPersistentInv(w, key, s.lookup);
    AllocBusy(found, s.call, got.value);
    OpeningOpens(AllocCall(found, s.call, got.value), got.value, s.call, Effective(q, s.opening).value.stream, s.reset);
  }

  /** A start counts as an open stream exactly if it leaves a call behind, and the request has been
      submitted exactly if the session gave it a stream. */
  lemma StreamOpenExactly(w: World, key: Key, q: Request, s: Start, on: Option<ConnId>, how: Setup)
    requires Inv(w) && s.call !in w.calls && Began(w, key, q, s, on, how)
    ensures how == StreamOpen <==> s.call in OpenStreaming(w, key, s.call, s.lookup, Effective(q, s.opening), s.reset).calls
    ensures how == StreamOpen || (how.SetupFailed? && how.submitted) <==>
            && on.Some? && var o := Effective(q, s.opening);
            && o.Some? && (o.value.RegisterFailed? || o.value.SendFailed? || o.value.Opened?) && o.value.stream != 0
            && on.value in GetPersistent(w, key, s.lookup).0.conns
            && o.value.stream !in GetPersistent(w, key, s.lookup).0.conns[on.value].session
  {
    var (found, got) := GetPersistent(w, key, s.lookup);
    assert Begins(WorldSide, w, key, q, s, on, how) && Begins(EndSide, w, key, q, s, on, how);
    GetPersistentInv(w, key, s.lookup);
    var o := Effective(q, s.opening);
    if got.Some? && o.Some? {
      AllocBusy(found, s.call, got.value);
      OpenOnInv(AllocCall(found, s.call, got.value), got.value, s.call, o.value, s.reset);
    }
  }

  /** No connection is in a better condition than before. */
  ghost predicate Worn(w: World, v: World) {
    forall d :: Condition(v, d) <= Condition(w, d)
  }

  lemma RunWorn(w: World, ops: seq<Op>)
    requires Inv(w)
    ensures Inv(RunFrom(w, ops)) && Worn(w, RunFrom(w, ops))
  {
    RunFromInv(w, ops);
    forall d
      ensures Condition(RunFrom(w, ops), d) <= Condition(w, d)
    {
      RunFromWears(w, ops, d);
    }
  }

  method Evolve(w: World, ops: seq<Op>) returns (v: World)
    requires Inv(w)
    ensures Inv(v) && Worn(w, v)
  {
    RunWorn(w, ops);
    v := RunFrom(w, ops);
  }

  method Do(w: World, op: Op) returns (v: World)
    requires Inv(w)
    ensures v == Perform(w, op) && Inv(v) && Worn(w, v)
  {
    PerformInv(w, op);
    forall d
      ensures Condition(Perform(w, op), d) <= Condition(w, d)
    {
      StepIsNoBetter(w, op, d);
    }
    v := Perform(w, op);
  }

  /** Takes a connection from the cache and opens a stream on it: one that is not draining, dead
      or gone, and that is still a connection, however the opening ends. */
  method StartStream(w: World, key: Key, q: Request, s: Start) returns (v: World, conn: Option<ConnId>, how: Setup)
    requires Inv(w) && (q == Good ==> s.opening != Some(BadHeaders))
    ensures Inv(v) && Worn(w, v)
    ensures conn.Some? ==> Condition(w, conn.value) > 2 && Condition(v, conn.value) <= 3
    ensures how == StreamOpen || (how.SetupFailed? && how.submitted) ==> conn.Some?
    ensures (q == Good ==> how != Exception) && (how == StreamOpen ==> q != BadMetadata)
    ensures Began(w, key, q, s, conn, how)
  {
    var o := Effective(q, s.opening);
    v := Do(w, Runs.Open(key, s.call, s.lookup, o, s.reset));
    if s.call in w.calls {
      return v, None, SetupFailed(false);
    }
    var (found, got) := GetPersistent(w, key, s.lookup);
    StartedOnLive(w, key, s.call, s.lookup, o, s.reset);
    conn, how := got, SetupOf(found, got, o);
  }

  lemma StartedOnLive(w: World, key: Key, x: CallId, l: Lookup, o: Option<Opening>, r: Reset)
    requires Inv(w) && x !in w.calls
    ensures var got := GetPersistent(w, key, l).1;
            got.Some? ==> Condition(w, got.value) > 2 && Condition(OpenStreaming(w, key, x, l, o, r), got.value) <= 3
  {
    var (v, got) := GetPersistent(w, key, l);
    GetPersistentInv(w, key, l);
    if got.Some? {
      if Condition(w, got.value) <= 2 {
        LookupAvoids(w, key, l, got.value);
      }
      if o.Some? {
        OpeningKept(v, got.value, x, o.value, r);
      }
    }
  }

  lemma OpeningKept(v: World, c: ConnId, x: CallId, o: Opening, r: Reset)
    requires c in v.conns
    ensures Condition(OpenOn(AllocCall(v, x, c), c, x, o, r), c) <= 3
  {
    var u := AllocCall(v, x, c);
    OpenOnKept(u, c, x, o, r, x + 1, c);
    KeptFacts(u, OpenOn(u, c, x, o, r), x + 1, c);
  }

  /** The receive loop, as far as connections are concerned. */
  method Drive(w: World, conn: Option<ConnId>, p: Pull) returns (v: World)
    requires Inv(w)
    ensures Inv(v) && Worn(w, v)
    ensures conn.Some? && p.goaway.Some? && Condition(w, conn.value) <= 3 ==> Condition(v, conn.value) <= 2
  {
    v := Evolve(w, p.before);
    if conn.Some? && p.goaway.Some? {
      if Condition(v, conn.value) <= 3 {
        GoawayDrains(v, conn.value, p.goaway.value);
      }
      v := Do(v, Session(conn.value, Goaway(p.goaway.value)));
    }
    v := Evolve(v, p.after);
  }

  datatype NextResult = Raised | Message | Done(record: Option<Response.Record>)

  /** A server-streaming call as the application holds it. */
  class StreamingCall {
    const cfg: Response.Config
    const key: Key
    /** What is to be sent; the application may change both between two receives. */
    var request: Request
    var credentialsRefused: bool
    var isOpen: bool
    var statusReady: bool
    var initialMetadataReady: bool
    var attempt: nat
    /** The stream of the current attempt, its connection and what happened on it so far. */
    var stream: Option<CallId>
    var conn: Option<ConnId>
    var history: History
    var delivered: nat
    var submissions: nat
    /** The attempts given up so far. */
    var abandoned: seq<History>
    var abandonedConns: seq<Option<ConnId>>

    constructor (cfg: Response.Config, key: Key)
      ensures Valid() && Settled() && submissions == 0 && !isOpen && !statusReady
    {
      this.cfg, this.key := cfg, key;
      request, credentialsRefused := Missing, false;
      isOpen, statusReady, initialMetadataReady := false, false, false;
      attempt, stream, conn, history, delivered, submissions := 0, None, None, [], 0, 0;
      abandoned, abandonedConns := [], [];
    }

    /** At most one attempt was given up; it was refused and showed nothing of a response.  If
        that was by GOAWAY, the next attempt is on another connection.  Every attempt submitted
        the request at most once. */
    ghost predicate Valid()
      reads this
    {
      && LawfulHistory(history)
      && attempt == |abandoned| == |abandonedConns| && attempt <= 1
      && (forall i :: 0 <= i < |abandoned| ==> Unprocessed(abandoned[i]))
      && (attempt == 1 && Response.RefusedByGoaway in abandoned[0] && conn.Some? ==> conn != abandonedConns[0])
      && submissions <= attempt + (if isOpen then 1 else 0)
      && (!isOpen ==> attempt == 0 && delivered == 0)
    }

    /** Between two receives the application has seen something of whatever was opened. */
    ghost predicate Settled()
      reads this
    {
      isOpen ==> initialMetadataReady || delivered > 0
    }

    /** A batch that sends: the application sets what the call is to send. */
    method Send(request: Request, credentialsRefused: bool)
      requires Valid() && Settled()
      modifies this`request, this`credentialsRefused
      ensures Valid() && Settled() && this.request == request && this.credentialsRefused == credentialsRefused
    {
      this.request, this.credentialsRefused := request, credentialsRefused;
    }

    /** Drops the stream of the attempt before, if there is one, and starts another. */
    method Replace(w: World, s: Start) returns (v: World, on: Option<ConnId>, how: Setup)
      requires Inv(w) && s.opening != Some(BadHeaders)
      modifies this`stream
      ensures Inv(v) && Worn(w, v) && stream == None
      ensures on.Some? ==> Condition(w, on.value) > 2 && Condition(v, on.value) <= 3
      ensures how == StreamOpen || (how.SetupFailed? && how.submitted) ==> on.Some?
      ensures (request == Good ==> how != Exception) && (how == StreamOpen ==> request != BadMetadata)
      ensures BeganAfter(w, old(stream), key, request, s, on, how)
    {
      v := w;
      if stream.Some? {
        v := Do(w, Dropped(stream.value, s.reset));
      }
      stream := None;
      v, on, how := StartStream(v, key, request, s);
    }

    /** Opens the stream of an attempt.  A request that is refused on the spot is not submitted. */
    method Open(w: World, retryAttempt: nat, prepare: bool, s: Start) returns (v: World, ok: bool, how: Setup)
      requires Inv(w) && !isOpen && s.opening != Some(BadHeaders)
      modifies this`isOpen, this`statusReady, this`initialMetadataReady, this`attempt, this`stream, this`conn
      modifies this`history, this`delivered, this`submissions
      ensures Inv(v) && Worn(w, v)
      ensures request == Good || (prepare && credentialsRefused && request != Missing) ==> ok
      ensures request == Missing ==> !ok && v == w
      ensures !isOpen ==>
                && attempt == old(attempt) && conn == old(conn) && delivered == old(delivered)
                && history == old(history) && submissions == old(submissions)
      ensures ok && prepare && credentialsRefused ==> !isOpen && statusReady && initialMetadataReady && v == w
      ensures isOpen <==> ok && !(prepare && credentialsRefused)
      ensures isOpen ==>
                && how != Exception && BeganAfter(w, old(stream), key, request, s, conn, how)
                && attempt == retryAttempt && history == [] && delivered == 0
                && submissions == old(submissions) + (if how == StreamOpen || how.submitted then 1 else 0)
                && (submissions > old(submissions) ==> conn.Some?)
                && (conn.Some? ==> Condition(w, conn.value) > 2 && Condition(v, conn.value) <= 3)
                && statusReady == (old(statusReady) || how != StreamOpen)
                && initialMetadataReady == (old(initialMetadataReady) || how != StreamOpen)
                && (!statusReady ==> request == Good)
      ensures !ok ==> statusReady == old(statusReady) && initialMetadataReady == old(initialMetadataReady)
    {
      v, ok, how := w, false, Exception;
      if request == Missing {
        return;
      }
      if prepare && credentialsRefused {
        initialMetadataReady, statusReady, ok := true, true, true;
        return;
      }
      if request == Malformed {
        return;
      }
      v, how := Attempt(w, retryAttempt, s);
      ok := how != Exception;
    }

    /** Opens the stream of an attempt whose request has passed the first checks. */
    method Attempt(w: World, retryAttempt: nat, s: Start) returns (v: World, how: Setup)
      requires Inv(w) && !isOpen && s.opening != Some(BadHeaders)
      modifies this`isOpen, this`statusReady, this`initialMetadataReady, this`attempt, this`stream, this`conn
      modifies this`history, this`delivered, this`submissions
      ensures Inv(v) && Worn(w, v) && isOpen == (how != Exception) && (request == Good ==> how != Exception)
      ensures how == Exception ==>
                && attempt == old(attempt) && conn == old(conn) && delivered == old(delivered)
                && history == old(history) && submissions == old(submissions)
                && statusReady == old(statusReady) && initialMetadataReady == old(initialMetadataReady)
      ensures how != Exception ==>
                && BeganAfter(w, old(stream), key, request, s, conn, how)
                && attempt == retryAttempt && history == [] && delivered == 0
                && submissions == old(submissions) + (if how == StreamOpen || how.submitted then 1 else 0)
                && stream == (if how == StreamOpen then Some(s.call) else None)
                && (submissions > old(submissions) ==> conn.Some?)
                && (conn.Some? ==> Condition(w, conn.value) > 2 && Condition(v, conn.value) <= 3)
                && statusReady == (old(statusReady) || how != StreamOpen)
                && initialMetadataReady == (old(initialMetadataReady) || how != StreamOpen)
                && (!statusReady ==> request != BadMetadata)
    {
      var on;
      v, on, how := Replace(w, s);
      if how != Exception {
        Settle(retryAttempt, on, how, s.call);
      }
    }

    /** Makes the outcome of an opening that of the call. */
    method Settle(retryAttempt: nat, on: Option<ConnId>, how: Setup, call: CallId)
      requires how != Exception && stream == None
      modifies this`isOpen, this`statusReady, this`initialMetadataReady, this`attempt, this`stream, this`conn
      modifies this`history, this`delivered, this`submissions
      ensures isOpen && attempt == retryAttempt && conn == on && history == [] && delivered == 0
      ensures submissions == old(submissions) + (if how == StreamOpen || how.submitted then 1 else 0)
      ensures stream == if how == StreamOpen then Some(call) else None
      ensures statusReady == (old(statusReady) || how != StreamOpen)
      ensures initialMetadataReady == (old(initialMetadataReady) || how != StreamOpen)
    {
      isOpen, attempt, conn, history, delivered := true, retryAttempt, on, [], 0;
      if how == StreamOpen {
        stream, submissions := Some(call), submissions + 1;
      } else {
        submissions := submissions + if how.submitted then 1 else 0;
        initialMetadataReady, statusReady := true, true;
      }
    }

    /** The record of the current attempt as `next` leaves it at the end. */
    ghost function FinalRecord(): Response.Record
      reads this
    {
      Response.Ended(Response.Run(cfg, history), false)
    }

    /** Takes the next message off the stream, or its end. */
    method Pull(w: World, p: Pull) returns (v: World, record: Option<Response.Record>)
      requires Inv(w) && Valid() && isOpen && LawfulHistory(p.events)
      modifies this`history, this`delivered
      ensures Inv(v) && Worn(w, v) && Valid() && history == old(history) + p.events
      ensures conn.Some? && p.goaway.Some? && Condition(w, conn.value) <= 3 ==> Condition(v, conn.value) <= 2
      ensures record.None? <==> p.message
      ensures record.None? ==> delivered == old(delivered) + 1
      ensures record.Some? ==> delivered == old(delivered) && record.value == FinalRecord()
    {
      v := Drive(w, conn, p);
      history := history + p.events;
      if p.message {
        delivered := delivered + 1;
        return v, None;
      }
      if stream.Some? {
        v := Evolve(v, [Reported(stream.value)]);
      }
      record := Some(Response.Ended(Response.Run(cfg, history), false));
    }

    /** Puts a second attempt in the place of a refused first one. */
    method Retry(w: World, s: Start) returns (v: World)
      requires Inv(w) && Valid() && isOpen && attempt == 0 && request == Good && s.opening != Some(BadHeaders)
      requires Unprocessed(history) && delivered == 0
      requires Response.RefusedByGoaway in history && conn.Some? ==> Condition(w, conn.value) <= 2
      modifies this
      ensures Inv(v) && Worn(w, v) && Valid() && isOpen && attempt == 1 && request == Good
      ensures abandoned == [old(history)] && abandonedConns == [old(conn)]
    {
      var given, on := history, conn;
      isOpen := false;
      var ok, how;
      v, ok, how := Open(w, 1, false, s);
      abandoned, abandonedConns := [given], [on];
    }

    /** One turn of the loop.  Without a result, a first attempt that was opened in this turn has
        been refused unprocessed, with nothing delivered. */
    method OneTurn(w: World, turn: Turn) returns (v: World, r: Option<NextResult>)
      requires Inv(w) && Valid() && (Settled() || attempt == 1) && PossibleTurn(turn)
      modifies this`isOpen, this`statusReady, this`initialMetadataReady, this`attempt, this`stream, this`conn
      modifies this`history, this`delivered, this`submissions
      ensures Inv(v) && Valid()
      ensures r == Some(Raised) ==> !isOpen && !old(isOpen) && request != Good && submissions == old(submissions)
      ensures r == Some(Message) ==> isOpen && delivered > 0
      ensures r == Some(Done(None)) ==> statusReady
      ensures r.Some? && r.value.Done? && r.value.record.Some? ==>
                && isOpen && r.value.record.value == FinalRecord()
                && (initialMetadataReady || !Response.OutcomeOf(FinalRecord(), attempt, delivered > 0).retryable)
      ensures r.None? ==>
                && !old(isOpen) && isOpen && attempt == 0 && request == Good && Unprocessed(history) && delivered == 0
                && (Response.RefusedByGoaway in history && conn.Some? ==> Condition(v, conn.value) <= 2)
    {
      v := w;
      if !isOpen {
        var ok, how;
        v, ok, how := Open(v, 0, true, turn.start);
        if !ok {
          return v, Some(Raised);
        }
      }
      if statusReady {
        return v, Some(Done(None));
      }
      v, r := PullOrRetry(v, turn.pull);
    }

    /** Takes the next message or the end off an open stream, and says nothing if the attempt is
        to be repeated. */
    method PullOrRetry(w: World, p: Pull) returns (v: World, r: Option<NextResult>)
      requires Inv(w) && Valid() && isOpen && LawfulHistory(p.events)
      modifies this`history, this`delivered
      ensures Inv(v) && Valid() && history == old(history) + p.events && old(delivered) <= delivered
      ensures conn.Some? && p.goaway.Some? && Condition(w, conn.value) <= 3 ==> Condition(v, conn.value) <= 2
      ensures r == Some(Message) <==> p.message
      ensures r.Some? ==>
                && !r.value.Raised? && (r.value.Message? ==> delivered > 0)
                && (r.value.Done? ==>
                      && r.value.record == Some(FinalRecord())
                      && (initialMetadataReady || !Response.OutcomeOf(FinalRecord(), attempt, delivered > 0).retryable))
      ensures r.None? ==> attempt == 0 && delivered == 0 && !initialMetadataReady && Unprocessed(history)
    {
      var record;
      v, record := Pull(w, p);
      if record.None? {
        return v, Some(Message);
      }
      var outcome := Response.OutcomeOf(record.value, attempt, delivered > 0);
      if !outcome.retryable || initialMetadataReady {
        return v, Some(Done(record));
      }
      RetryMeans(cfg, history, false, attempt, delivered > 0);
      r := None;
    }

    /** The loop behind every receive: a refused attempt is replaced by a second one, whose
        result is the one that counts. */
    method NextForCall(w: World, first: Turn, second: Turn) returns (v: World, r: NextResult)
      requires Inv(w) && Valid() && Settled() && PossibleTurn(first) && PossibleTurn(second)
      modifies this
      ensures Inv(v) && Valid()
      ensures r.Raised? ==> !isOpen && request != Good && submissions == old(submissions)
      ensures r.Message? ==> isOpen && delivered > 0
      ensures r.Done? && r.record.None? ==> statusReady
      ensures r.Done? && r.record.Some? ==>
                && isOpen && r.record.value == FinalRecord()
                && (initialMetadataReady || !Response.OutcomeOf(FinalRecord(), attempt, delivered > 0).retryable)
      ensures |abandoned| > |old(abandoned)| ==> !old(isOpen)
    {
      v := w;
      var round := 0;
      while true
        invariant 0 <= round <= 1 && Inv(v) && Valid()
        invariant round == 0 ==> unchanged(this)
        invariant round == 1 ==> isOpen && attempt == 1 && !old(isOpen) && request == old(request)
        decreases 2 - round
      {
        var result;
        v, result := OneTurn(v, if round == 0 then first else second);
        if result.Some? {
          return v, result.value;
        }
        v := Retry(v, second.start);
        round := 1;
      }
    }

    /** What the application calls for a message.  Only the first receive can repeat the request,
        and over the whole life of the call it is submitted at most twice. */
    method Receive(w: World, first: Turn, second: Turn) returns (v: World, r: NextResult)
      requires Inv(w) && Valid() && Settled() && PossibleTurn(first) && PossibleTurn(second)
      modifies this
      ensures Inv(v) && Valid() && Settled() && submissions <= 2
      ensures r.Raised? ==> !isOpen && request != Good && submissions == 0
      ensures r.Message? ==> isOpen && delivered > 0
      ensures r.Done? ==> statusReady && (r.record.Some? ==> r.record.value == FinalRecord())
      ensures |abandoned| > |old(abandoned)| ==> !old(isOpen)
      ensures attempt == 1 && Response.RefusedByGoaway in abandoned[0] && conn.Some? ==> conn != abandonedConns[0]
    {
      v, r := NextForCall(w, first, second);
      match r
      case Raised =>
      case Message => initialMetadataReady := true;
      case Done(_) => initialMetadataReady, statusReady := true, true;
    }

    /** One turn of the loop by which the application asks for the status alone; messages on the
        way to it are dropped. */
    method SkipToStatus(w: World, first: Turn, second: Turn) returns (v: World, r: NextResult)
      requires Inv(w) && Valid() && Settled() && PossibleTurn(first) && PossibleTurn(second)
      modifies this
      ensures Inv(v) && Valid() && Settled() && submissions <= 2
      ensures r.Done? ==> statusReady && (r.record.Some? ==> r.record.value == FinalRecord())
      ensures |abandoned| > |old(abandoned)| ==> !old(isOpen)
    {
      v, r := NextForCall(w, first, second);
      if r.Done? {
        initialMetadataReady, statusReady := true, true;
      }
    }
  }
}
