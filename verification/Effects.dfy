/**
  What the events of a session achieve: exactly which calls a GOAWAY closes, and that resets
  and failures have their effect.
 */
module Effects {
  import opened Bytes
  import opened Lifecycle

  /** A call as a GOAWAY with `last` leaves it, if it is among those asked. */
  function Judged(call: Call, asked: bool, last: int): Call {
    if asked && call.stream > last then call.(closed := true, registered := false) else call
  }

  /** On the list of `c`, still to be walked: `xs` behind what has been admitted. */
  ghost predicate Walking(w: World, c: ConnId, xs: seq<CallId>) {
    && c in w.conns && NoDup(xs)
    && forall i :: 0 <= i < |xs| ==>
         && xs[i] in w.calls && w.calls[xs[i]].registered && w.calls[xs[i]].conn == Some(c)
         && w.calls[xs[i]].stream > 0
  }

  lemma CloseCallExactly(w: World, c: ConnId, x: CallId)
    requires c in w.conns && x in w.calls && w.calls[x].registered && w.calls[x].conn == Some(c) && w.calls[x].stream > 0
    ensures var v := CloseCall(w, x);
            && v.calls == w.calls[x := w.calls[x].(closed := true, registered := false)]
            && v.conns.Keys == w.conns.Keys && v.conns[c].active == Without(w.conns[c].active, x)
  {
  }

  /** Exactly the calls above `last` are closed and taken off; every other call is untouched. */
  lemma {:induction false} RefuseEachExactly(w: World, c: ConnId, xs: seq<CallId>, last: int)
    requires Walking(w, c, xs)
    ensures var v := RefuseEach(w, xs, last);
            && v.calls.Keys == w.calls.Keys && c in v.conns
            && forall x :: x in w.calls ==> v.calls[x] == Judged(w.calls[x], x in xs, last)
    decreases |xs|
  {
    if xs != [] {
      var x := xs[0];
      assert xs == [x] + xs[1..];
      if w.calls[x].stream > last {
        CloseCallExactly(w, c, x);
        WalkingOn(w, CloseCall(w, x), c, xs);
        RefuseEachExactly(CloseCall(w, x), c, xs[1..], last);
      } else {
        WalkingOn(w, w, c, xs);
        RefuseEachExactly(w, c, xs[1..], last);
      }
    }
  }

  lemma WalkingOn(w: World, v: World, c: ConnId, xs: seq<CallId>)
    requires Walking(w, c, xs) && xs != [] && c in v.conns && v.calls.Keys == w.calls.Keys
    requires forall x :: x in w.calls && x != xs[0] ==> v.calls[x] == w.calls[x]
    ensures Walking(v, c, xs[1..])
  {
    forall i | 0 <= i < |xs[1..]|
      ensures var x := xs[1..][i];
              x in v.calls && v.calls[x].registered && v.calls[x].conn == Some(c) && v.calls[x].stream > 0
    {
      assert xs[1..][i] == xs[i + 1] && xs[i + 1] != xs[0];
    }
  }

  /** A GOAWAY closes exactly the active calls of its connection whose stream is above `last`,
      and leaves every other call of every connection as it was. */
  lemma GoawayClosesExactly(w: World, c: ConnId, last: int)
    requires Core(w) && c in w.conns && last != INT32_MAX
    ensures var v := OnGoaway(w, c, last);
            && v.calls.Keys == w.calls.Keys
            && forall x :: x in w.calls ==>
                 v.calls[x] == Judged(w.calls[x], w.calls[x].registered && w.calls[x].conn == Some(c), last)
  {
    assert Holds(ListPart, w);
    var v := SetConn(w, c, w.conns[c].(draining := true));
    var u, xs := DropStreams(v, c, set s | s in v.conns[c].session && s > last), w.conns[c].active;
    assert forall i :: 0 <= i < |xs| ==> xs[i] in xs;
    RefuseEachExactly(u, c, xs, last);
  }

  /** A reset in a callback stops the stream, or kills the connection if it fails; so does a
      failing session. */
  lemma FailuresTakeEffect(w: World, c: ConnId, s: StreamId)
    requires c in w.conns && !w.conns[c].dead
    ensures OnEvent(w, c, Failed).conns[c].dead && OnEvent(w, c, PolicyReset(s, true)).conns[c].dead
    ensures var v := OnEvent(w, c, PolicyReset(s, false));
            s in w.conns[c].session ==>
              s in v.conns[c].session && v.conns[c].session[s] == w.conns[c].session[s].(sending := false)
  {
  }
}
