/**
  The intrusive list of the streams a connection is serving: calls are linked through a
  field of their own, spliced out in place, and GOAWAY splices them out while walking the list.
 */
module ActiveStreams {
  import opened Bytes

  const REFUSED_STREAM := 7

  /** What the call records about the end of its stream. */
  datatype Ending = Running | Closed(errorCode: int, refused: bool)

  class GrpcCall {
    const streamId: int
    var connection: H2Connection?
    var next: GrpcCall?
    var registered: bool
    var owned: bool
    var ending: Ending

    constructor (streamId: int)
      ensures this.streamId == streamId && !registered && !owned && ending == Running && connection == null
    {
      this.streamId := streamId;
      connection, next, registered, owned, ending := null, null, false, false, Running;
    }
  }

  ghost predicate Distinct(calls: seq<GrpcCall>) {
    forall i, j :: 0 <= i < j < |calls| ==> calls[i] != calls[j]
  }

  lemma Prepended(call: GrpcCall, calls: seq<GrpcCall>)
    requires Distinct(calls) && forall i :: 0 <= i < |calls| ==> calls[i] != call
    ensures var all := [call] + calls;
            && Distinct(all) && all[0] == call
            && (forall i :: 0 < i < |all| ==> all[i] == calls[i - 1])
  {
  }

  lemma Removed(calls: seq<GrpcCall>, k: nat)
    requires Distinct(calls) && k < |calls|
    ensures var rest := calls[..k] + calls[k + 1..];
            && Distinct(rest)
            && (forall i :: 0 <= i < |rest| ==> rest[i] == if i < k then calls[i] else calls[i + 1])
  {
  }

  /** The calls of a list that a GOAWAY with `last` still admits, in order. */
  function Admitted(calls: seq<GrpcCall>, last: int): seq<GrpcCall> {
    if calls == [] then []
    else
      var front, c := Admitted(calls[..|calls| - 1], last), calls[|calls| - 1];
      if c.streamId <= last then front + [c] else front
  }

  /** No stream id exceeds 2^31-1, so a GOAWAY that names it refuses nothing. */
  lemma {:induction false} GracefulGoawayAdmitsAll(calls: seq<GrpcCall>)
    requires forall i :: 0 <= i < |calls| ==> calls[i].streamId <= INT32_MAX
    ensures Admitted(calls, INT32_MAX) == calls
  {
    if calls != [] {
      GracefulGoawayAdmitsAll(calls[..|calls| - 1]);
    }
  }

  /** Exactly the calls with an id up to `last` remain. */
  lemma {:induction false} AdmittedExactly(calls: seq<GrpcCall>, last: int, c: GrpcCall)
    ensures c in Admitted(calls, last) <==> c in calls && c.streamId <= last
  {
    if calls != [] {
      AdmittedExactly(calls[..|calls| - 1], last, c);
      assert calls == calls[..|calls| - 1] + [calls[|calls| - 1]];
    }
  }

  class H2Connection {
    var head: GrpcCall?
    var activeCount: nat
    var ownerCount: nat
    var dead: bool
    var draining: bool
    var lastGoaway: int
    ghost var active: seq<GrpcCall>
    /** Every call that was ever listed here. */
    ghost var served: set<GrpcCall>

    constructor ()
      ensures Valid() && active == [] && ownerCount == 0 && !dead && !draining
    {
      head, activeCount, ownerCount := null, 0, 0;
      dead, draining, lastGoaway := false, false, 0;
      active, served := [], {};
    }

    ghost predicate Linked()
      reads this, served
    {
      && (forall i :: 0 <= i < |active| ==> active[i] in served)
      && head == (if active == [] then null else active[0])
      && (active != [] ==> active[|active| - 1].next == null)
      && (forall i {:trigger active[i].next} :: 0 <= i < |active| - 1 ==> active[i].next == active[i + 1])
      && Distinct(active)
    }

    /** The list is what `active` says, the count is its length, and a call is listed only while owned. */
    ghost predicate Valid()
      reads this, served
    {
      && Linked() && activeCount == |active|
      && (forall i :: 0 <= i < |active| ==>
            active[i].registered && active[i].owned && active[i].connection == this && active[i].streamId > 0)
    }

    predicate Usable()
      reads this
    {
      !dead && !draining
    }

    /** Puts a submitted call in front; fails without effect if the session does not know the stream. */
    method Register(call: GrpcCall, known: bool) returns (ok: bool)
      requires Valid() && !call.registered
      modifies this`head, this`activeCount, this`ownerCount, this`active, this`served, call
      ensures Valid() && ok == (known && call.streamId > 0)
      ensures ok ==> active == [call] + old(active) && ownerCount == old(ownerCount) + 1
      ensures !ok ==> active == old(active) && ownerCount == old(ownerCount) && unchanged(call)
    {
      if call.streamId <= 0 || !known {
        return false;
      }
      Prepended(call, active);
      call.connection, call.registered, call.owned := this, true, true;
      call.next := head;
      head := call;
      activeCount, ownerCount := activeCount + 1, ownerCount + 1;
      active, served := [call] + active, served + {call};
      return true;
    }

    /** The call in front of `call` in the list. */
    method Previous(call: GrpcCall, ghost k: nat) returns (previous: GrpcCall)
      requires Linked() && 0 < k < |active| && active[k] == call
      ensures previous == active[k - 1]
    {
      var p := head;
      ghost var j := 0;
      while p != null && p.next != call
        invariant 0 <= j < k && p == active[j]
        decreases k - j
      {
        p := p.next;
        j := j + 1;
      }
      previous := p;
    }

    /** Takes the `k`-th call out of the chain of links. */
    method Splice(call: GrpcCall, ghost k: nat)
      requires Linked() && k < |active| && active[k] == call
      modifies this`head, this`active, served`next
      ensures Linked() && active == old(active)[..k] + old(active)[k + 1..] && call.next == null
    {
      Removed(active, k);
      if head == call {
        head := call.next;
      } else {
        var previous := Previous(call, k);
        previous.next := call.next;
      }
      call.next := null;
      active := active[..k] + active[k + 1..];
    }

    /** Takes a listed call off the list; who owns the connection does not change. */
    method Unregister(call: GrpcCall, ghost k: nat)
      requires Valid() && k < |active| && active[k] == call
      modifies this`head, this`activeCount, this`active, served`next, call`registered
      ensures Valid() && active == old(active)[..k] + old(active)[k + 1..]
      ensures !call.registered && call.next == null
    {
      Removed(active, k);
      Splice(call, k);
      call.registered := false;
      activeCount := activeCount - 1;
    }

    /** Whether a call is as its id demands after a GOAWAY that named `last`. */
    twostate predicate Judged(c: GrpcCall, last: int)
      reads c
    {
      if c.streamId <= last then c.registered == old(c.registered) && c.ending == old(c.ending)
      else !c.registered && c.ending == Closed(REFUSED_STREAM, true)
    }

    /** One turn of the walk; the successor is read before the call may leave the list. */
    method Visit(call: GrpcCall, last: int, ghost k: nat) returns (next: GrpcCall?)
      requires Valid() && k < |active| && active[k] == call
      modifies this`head, this`activeCount, this`active, served`next, call`registered, call`ending
      ensures Valid() && Judged(call, last)
      ensures next == if k + 1 < |old(active)| then old(active)[k + 1] else null
      ensures active == if call.streamId <= last then old(active) else old(active)[..k] + old(active)[k + 1..]
    {
      next := call.next;
      if call.streamId > 0 && last < call.streamId {
        call.ending := Closed(REFUSED_STREAM, true);
        Unregister(call, k);
      }
    }

    /** Walk position `i`: the calls before it are judged, the others still as `was` found them. */
    ghost predicate Walked(all: seq<GrpcCall>, was: seq<Ending>, i: nat, last: int)
      reads this, served
      requires i <= |all| == |was|
    {
      && Valid() && active == Admitted(all[..i], last) + all[i..]
      && (forall j :: 0 <= j < |all| ==>
            && all[j] in served
            && all[j].registered == !(j < i && last < all[j].streamId)
            && all[j].ending == if all[j].registered then was[j] else Closed(REFUSED_STREAM, true))
    }

    method WalkOne(call: GrpcCall, last: int, ghost all: seq<GrpcCall>, ghost was: seq<Ending>, ghost i: nat)
      returns (next: GrpcCall?)
      requires i < |all| == |was| && call == all[i] && Walked(all, was, i, last)
      requires Distinct(all)
      modifies this`head, this`activeCount, this`active, served`next, call`registered, call`ending
      ensures Walked(all, was, i + 1, last)
      ensures next == if i + 1 < |all| then all[i + 1] else null
    {
      SpliceNext(all, i, last);
      next := Visit(call, last, |Admitted(all[..i], last)|);
    }

    method WalkAll(last: int, ghost all: seq<GrpcCall>, ghost was: seq<Ending>)
      requires |all| == |was| && Distinct(all) && Walked(all, was, 0, last)
      requires head == if 0 < |all| then all[0] else null
      modifies this`head, this`activeCount, this`active, served`next, served`registered, served`ending
      ensures Walked(all, was, |all|, last)
    {
      ghost var i: nat := 0;
      var current := head;
      while current != null
        invariant i <= |all| && Walked(all, was, i, last)
        invariant current == if i < |all| then all[i] else null
        decreases |all| - i
      {
        current := WalkOne(current, last, all, was, i);
        i := i + 1;
      }
    }

    method RefuseAbove(last: int)
      requires Valid()
      modifies this`head, this`activeCount, this`active, served`next, served`registered, served`ending
      ensures Valid() && active == Admitted(old(active), last)
      ensures forall i :: 0 <= i < |old(active)| ==> Judged(old(active)[i], last)
    {
      ghost var all := active;
      ghost var was := EndingsOf(all);
      WalkEnds(all, last);
      assert Walked(all, was, 0, last);
      WalkAll(last, all, was);
    }

    /** The callback for GOAWAY: the connection drains, and the streams above `last` are
        refused and leave the list while it is being walked. */
    method OnGoaway(last: int)
      requires Valid()
      modifies this`head, this`activeCount, this`active, this`draining, this`lastGoaway
      modifies served`next, served`registered, served`ending
      ensures Valid() && draining && !Usable() && lastGoaway == last
      ensures active == if last == INT32_MAX then old(active) else Admitted(old(active), last)
      ensures last != INT32_MAX ==> forall i :: 0 <= i < |old(active)| ==> Judged(old(active)[i], last)
      ensures last == INT32_MAX ==> forall c :: c in served ==> unchanged(c)
    {
      draining, lastGoaway := true, last;
      if last == INT32_MAX {
        return;
      }
      RefuseAbove(last);
    }
  }

  ghost function EndingsOf(calls: seq<GrpcCall>): (was: seq<Ending>)
    reads calls
    ensures |was| == |calls| && forall i :: 0 <= i < |calls| ==> was[i] == calls[i].ending
  {
    if calls == [] then [] else EndingsOf(calls[..|calls| - 1]) + [calls[|calls| - 1].ending]
  }

  lemma WalkEnds(all: seq<GrpcCall>, last: int)
    ensures Admitted(all[..0], last) + all[0..] == all
    ensures Admitted(all[..|all|], last) + all[|all|..] == Admitted(all, last)
  {
    assert all[..|all|] == all;
  }

  /** The walked front, and the rest of the list with its next element kept or taken out. */
  lemma SpliceNext(all: seq<GrpcCall>, i: nat, last: int)
    requires i < |all|
    ensures var front := Admitted(all[..i], last);
            var list, k := front + all[i..], |front|;
            && list[k] == all[i] && |list| == k + |all| - i && (i + 1 < |all| ==> list[k + 1] == all[i + 1])
            && Admitted(all[..i + 1], last) + all[i + 1..] ==
               if all[i].streamId <= last then list else list[..k] + list[k + 1..]
  {
    assert all[..i + 1][..i] == all[..i];
  }
}
