/** Octets, messages and the small sequence vocabulary the other modules share. */
module Bytes {

  type byte = x: int | 0 <= x < 256

  /** The payload of one gRPC message. */
  type Message = seq<byte>

  datatype Option<+T> = None | Some(value: T)

  /** The largest stream id, which GOAWAY names when it refuses nothing. */
  const INT32_MAX := 0x7fff_ffff

  const TWO_TO_THE_32: int := 0x1_0000_0000

  function Min(a: int, b: int): int {
    if a < b then a else b
  }

  lemma ConcatAssociative<T>(a: seq<T>, b: seq<T>, c: seq<T>)
    ensures (a + b) + c == a + (b + c)
  {
  }

  lemma ConcatNil<T>(s: seq<T>)
    ensures [] + s == s && s + [] == s
  {
  }

  lemma ConsConcat<T>(s: seq<T>, t: seq<T>)
    requires s != []
    ensures [s[0]] + (s[1..] + t) == s + t
  {
  }

  lemma CutConcat<T>(a: seq<T>, b: seq<T>)
    ensures (a + b)[..|a|] == a && (a + b)[|a|..] == b
  {
  }

  lemma CutSlice<T>(s: seq<T>, i: nat, j: nat)
    requires i <= j <= |s|
    ensures s[i..][..j - i] == s[i..j] && s[i..][j - i..] == s[j..]
  {
  }

  function Flatten<T>(xs: seq<seq<T>>): seq<T> {
    if xs == [] then [] else xs[0] + Flatten(xs[1..])
  }

  /** Number of payload octets held by a list of messages. */
  function TotalSize(ms: seq<Message>): nat {
    if ms == [] then 0 else |ms[0]| + TotalSize(ms[1..])
  }

  lemma {:induction false} TotalSizeAppend(ms: seq<Message>, m: Message)
    ensures TotalSize(ms + [m]) == TotalSize(ms) + |m|
  {
    if ms == [] {
      assert ms + [m] == [m];
    } else {
      assert (ms + [m])[1..] == ms[1..] + [m];
      TotalSizeAppend(ms[1..], m);
    }
  }

  lemma {:induction false} FlattenAppend<T>(xs: seq<seq<T>>, x: seq<T>)
    ensures Flatten(xs + [x]) == Flatten(xs) + x
  {
    if xs == [] {
      assert xs + [x] == [x];
    } else {
      assert (xs + [x])[1..] == xs[1..] + [x];
      FlattenAppend(xs[1..], x);
    }
  }

  /** The state after a run of steps. */
  function Fold<S, O>(step: (S, O) -> S, s: S, ops: seq<O>): S {
    if |ops| == 0 then s else step(Fold(step, s, ops[..|ops| - 1]), ops[|ops| - 1])
  }

  lemma FoldLast<S, O>(step: (S, O) -> S, s: S, ops: seq<O>, op: O)
    ensures Fold(step, s, ops + [op]) == step(Fold(step, s, ops), op)
  {
    assert (ops + [op])[..|ops|] == ops;
  }

  /** What every step keeps holds at the end of every run that goes through a state where it holds. */
  lemma {:induction false} FoldKeeps<S, O>(step: (S, O) -> S, p: S -> bool, s: S, ops: seq<O>, more: seq<O>)
    requires p(Fold(step, s, ops)) && forall t, op :: p(t) ==> p(step(t, op))
    ensures p(Fold(step, s, ops + more))
    decreases |more|
  {
    if more == [] {
      assert ops + more == ops;
    } else {
      var init, op := more[..|more| - 1], more[|more| - 1];
      assert ops + more == (ops + init) + [op];
      FoldKeeps(step, p, s, ops, init);
      FoldLast(step, s, ops + init, op);
    }
  }
}
