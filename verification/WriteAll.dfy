/** Common/common.c: `write_all` repeats `write` until the whole buffer is out or a call fails. */
module WriteAll {

  /** What one `write` call does: take up to n bytes, fail with EINTR, or fail otherwise. */
  datatype Reply = Accepts(n: nat) | Interrupted | Failed

  /** A call that takes nothing and is repeated. */
  predicate Stalls(r: Reply) { r == Interrupted || r == Accepts(0) }

  function Min(a: nat, b: nat): nat { if a < b then a else b }

  /** Bytes a call takes when that many remain. */
  function Share(reply: Reply, remaining: nat): (r: nat)
    ensures r <= remaining
  {
    match reply
    case Accepts(n) => Min(n, remaining)
    case _ => 0
  }

  /** Bytes out after the first `calls` calls on a buffer of that length. */
  function Out(length: nat, kernel: nat -> Reply, calls: nat): (r: nat)
    ensures r <= length
  {
    if calls == 0 then 0 else
    var before := Out(length, kernel, calls - 1);
    before + Share(kernel(calls - 1), length - before)
  }

  /** Bytes that call t takes. */
  function Taken(length: nat, kernel: nat -> Reply, t: nat): nat {
    Share(kernel(t), length - Out(length, kernel, t))
  }

  /** Something is left to write after the first t calls. */
  ghost predicate Unfinished(buffer: seq<bv8>, kernel: nat -> Reply, t: nat) {
    Out(|buffer|, kernel, t) < |buffer|
  }

  /** A whole execution: no call is made once the buffer is out or a call has failed, and the
      result says which of the two ended it. */
  ghost predicate Writes(buffer: seq<bv8>, kernel: nat -> Reply, result: int, sent: seq<bv8>, calls: nat) {
    && sent == buffer[..Out(|buffer|, kernel, calls)]
    && (forall t: nat | t < calls :: Unfinished(buffer, kernel, t))
    && (forall t: nat | t + 1 < calls :: kernel(t) != Failed)
    && (if sent == buffer then result == |buffer| else result == -1 && calls > 0 && kernel(calls - 1) == Failed)
  }

  /** Against any kernel that stalls only finitely often. `log` holds the number of bytes each call
      took. */
  method Write(buffer: seq<bv8>, kernel: nat -> Reply, ghost horizon: nat)
    returns (result: int, sent: seq<bv8>, log: seq<nat>)
    requires forall t: nat | t >= horizon :: !Stalls(kernel(t))
    ensures Writes(buffer, kernel, result, sent, |log|)
    ensures forall t: nat | t < |log| :: log[t] == Taken(|buffer|, kernel, t)
  {
    var cursor, remaining := 0, |buffer|;
    sent, log := [], [];
    while remaining > 0
      invariant 0 <= remaining && cursor + remaining == |buffer| && sent == buffer[..cursor]
      invariant cursor == Out(|buffer|, kernel, |log|)
      invariant forall t: nat | t < |log| :: kernel(t) != Failed
      invariant forall t: nat | t < |log| :: Unfinished(buffer, kernel, t)
      invariant forall t: nat | t < |log| :: log[t] == Taken(|buffer|, kernel, t)
      decreases remaining, if |log| < horizon then horizon - |log| else 0
    {
      match kernel(|log|)
      case Interrupted =>
        log := log + [0];
      case Failed =>
        return -1, sent, log + [0];
      case Accepts(n) =>
        var taken := Min(n, remaining);
        sent, log := sent + buffer[cursor..cursor + taken], log + [taken];
        cursor, remaining := cursor + taken, remaining - taken;
    }
    result := |buffer|;
  }

  /** Each call adds the next min(n, remaining) bytes if it accepts n, and none otherwise. */
  lemma CallTakes(buffer: seq<bv8>, kernel: nat -> Reply, t: nat)
    ensures var k, j := Out(|buffer|, kernel, t), Out(|buffer|, kernel, t + 1);
            && k <= j && buffer[..j] == buffer[..k] + buffer[k..j]
            && (forall n: nat :: kernel(t) == Accepts(n) ==> j - k == if n < |buffer| - k then n else |buffer| - k)
            && (!kernel(t).Accepts? ==> j == k)
  {}

  lemma NotLonger(
    buffer: seq<bv8>, kernel: nat -> Reply, r: int, s: seq<bv8>, n: nat, r': int, s': seq<bv8>, n': nat)
    requires Writes(buffer, kernel, r, s, n) && Writes(buffer, kernel, r', s', n')
    ensures n' <= n
  {
    assert n < n' ==> Unfinished(buffer, kernel, n);
  }

  /** The replies determine the execution. */
  lemma ExecutionIsUnique(
    buffer: seq<bv8>, kernel: nat -> Reply, r: int, s: seq<bv8>, n: nat, r': int, s': seq<bv8>, n': nat)
    requires Writes(buffer, kernel, r, s, n) && Writes(buffer, kernel, r', s', n')
    ensures r == r' && s == s' && n == n'
  {
    NotLonger(buffer, kernel, r, s, n, r', s', n');
    NotLonger(buffer, kernel, r', s', n', r, s, n);
  }

  /** `later` gives the replies of `kernel` with an EINTR put in front of call p. */
  ghost predicate Interrupts(kernel: nat -> Reply, p: nat, later: nat -> Reply) {
    && (forall t: nat | t < p :: later(t) == kernel(t))
    && later(p) == Interrupted
    && (forall t: nat | t > p :: later(t) == kernel(t - 1))
  }

  lemma {:induction false} InterruptTakesNothing(length: nat, kernel: nat -> Reply, p: nat, later: nat -> Reply, t: nat)
    requires Interrupts(kernel, p, later)
    ensures Out(length, later, t) == Out(length, kernel, if t <= p then t else t - 1)
  {
    if t > 0 {
      InterruptTakesNothing(length, kernel, p, later, t - 1);
    }
  }

  lemma InterruptedExecution(
    buffer: seq<bv8>, kernel: nat -> Reply, p: nat, later: nat -> Reply, r: int, s: seq<bv8>, n: nat)
    requires Interrupts(kernel, p, later) && Writes(buffer, kernel, r, s, n)
    ensures Writes(buffer, later, r, s, if p < n then n + 1 else n)
  {
    var n' := if p < n then n + 1 else n;
    forall t: nat | t <= n' ensures Out(|buffer|, later, t) == Out(|buffer|, kernel, if t <= p then t else t - 1) {
      InterruptTakesNothing(|buffer|, kernel, p, later, t);
    }
    forall t: nat | t < n' ensures Unfinished(buffer, later, t) {
      assert Unfinished(buffer, kernel, if t <= p then t else t - 1);
    }
  }

  /** An EINTR inserted anywhere in the replies changes neither the bytes sent nor the result; it
      costs one more call, and only if the execution gets there. */
  lemma InterruptIsInvisible(
    buffer: seq<bv8>, kernel: nat -> Reply, p: nat, later: nat -> Reply,
    r: int, s: seq<bv8>, n: nat, r': int, s': seq<bv8>, n': nat)
    requires Interrupts(kernel, p, later) && Writes(buffer, kernel, r, s, n) && Writes(buffer, later, r', s', n')
    ensures r' == r && s' == s && n' == if p < n then n + 1 else n
  {
    InterruptedExecution(buffer, kernel, p, later, r, s, n);
    ExecutionIsUnique(buffer, later, r, s, if p < n then n + 1 else n, r', s', n');
  }

  lemma {:induction false} StallsTakeNothing(length: nat, kernel: nat -> Reply, f: nat, t: nat)
    requires t <= f + 1 && kernel(f) == Failed && forall i: nat | i < f :: Stalls(kernel(i))
    ensures Out(length, kernel, t) == 0
  {
    if t > 0 {
      StallsTakeNothing(length, kernel, f, t - 1);
      assert t - 1 < f ==> Stalls(kernel(t - 1));
    }
  }

  /** A kernel that takes nothing before it fails at call f: nothing is sent, and -1 comes after
      exactly f + 1 calls. */
  lemma FailureBeforeAnyByte(buffer: seq<bv8>, kernel: nat -> Reply, f: nat, r: int, s: seq<bv8>, n: nat)
    requires Writes(buffer, kernel, r, s, n) && buffer != []
    requires kernel(f) == Failed && forall i: nat | i < f :: Stalls(kernel(i))
    ensures s == [] && r == -1 && n == f + 1
  {
    assert f + 1 < n ==> kernel(f) != Failed;
    StallsTakeNothing(|buffer|, kernel, f, n);
  }
}
