/** SharedMemory/posix_shm_ring_sem.c: one producer and one consumer share a ring of slots
    guarded by two counting semaphores and a mutex. Every `sem_wait`, slot access, index
    update and `sem_post` is a step of its own; the two processes interleave freely. */
module SemaphoreRing {
  import opened Remainders
  import opened StepSystems
  import opened Totals

  /** `guarded` false erases the mutex steps; `interrupts` bounds the EINTR returns of `sem_wait`. */
  datatype Config = Config(capacity: nat, items: nat, guarded: bool, interrupts: nat)

  datatype ProducerPc = WaitEmpty | LockForStore | Store | AdvanceTail | UnlockAfterStore | PostFull | ProducerDone

  datatype ConsumerPc =
    WaitFull | LockForLoad | Load | AdvanceHead | UnlockAfterLoad | PostEmpty | AddTotal | ConsumerDone

  /** The shared ring, the locals of both loops, and `seen`, the values loaded so far. */
  datatype State = State(
    empty: nat, full: nat, mutex: nat, head: nat, tail: nat, slots: seq<int>,
    producer: ProducerPc, value: nat,
    consumer: ConsumerPc, i: nat, register: int, total: int, seen: seq<int>,
    interrupts: nat)

  datatype Action = Produce | Consume | InterruptProducer | InterruptConsumer

  function ProducerTop(c: Config, value: nat): ProducerPc {
    if value <= c.items then WaitEmpty else ProducerDone
  }

  function ConsumerTop(c: Config, i: nat): ConsumerPc {
    if i < c.items then WaitFull else ConsumerDone
  }

  function Start(c: Config): State {
    State(c.capacity, 0, 1, 0, 0, seq(c.capacity, _ => 0),
          ProducerTop(c, 1), 1, ConsumerTop(c, 0), 0, 0, 0, [], c.interrupts)
  }

  predicate Enabled(c: Config, s: State, a: Action) {
    match a
    case Produce =>
      && s.producer != ProducerDone
      && (s.producer == WaitEmpty ==> s.empty > 0)
      && (s.producer == LockForStore && c.guarded ==> s.mutex > 0)
      && (s.producer == Store ==> s.tail < |s.slots|)
    case Consume =>
      && s.consumer != ConsumerDone
      && (s.consumer == WaitFull ==> s.full > 0)
      && (s.consumer == LockForLoad && c.guarded ==> s.mutex > 0)
      && (s.consumer == Load ==> s.head < |s.slots|)
    case InterruptProducer =>
      s.interrupts > 0 && (s.producer == WaitEmpty || (s.producer == LockForStore && c.guarded))
    case InterruptConsumer =>
      s.interrupts > 0 && (s.consumer == WaitFull || (s.consumer == LockForLoad && c.guarded))
  }

  function ProducerStep(c: Config, s: State): State
    requires c.capacity > 0 && Enabled(c, s, Produce)
  {
    match s.producer
    case WaitEmpty => s.(empty := s.empty - 1, producer := LockForStore)
    case LockForStore => s.(mutex := if c.guarded then s.mutex - 1 else s.mutex, producer := Store)
    case Store => s.(slots := s.slots[s.tail := s.value], producer := AdvanceTail)
    case AdvanceTail => s.(tail := (s.tail + 1) % c.capacity, producer := UnlockAfterStore)
    case UnlockAfterStore => s.(mutex := if c.guarded then s.mutex + 1 else s.mutex, producer := PostFull)
    case PostFull => s.(full := s.full + 1, value := s.value + 1, producer := ProducerTop(c, s.value + 1))
  }

  function ConsumerStep(c: Config, s: State): State
    requires c.capacity > 0 && Enabled(c, s, Consume)
  {
    match s.consumer
    case WaitFull => s.(full := s.full - 1, consumer := LockForLoad)
    case LockForLoad => s.(mutex := if c.guarded then s.mutex - 1 else s.mutex, consumer := Load)
    case Load => s.(register := s.slots[s.head], seen := s.seen + [s.slots[s.head]], consumer := AdvanceHead)
    case AdvanceHead => s.(head := (s.head + 1) % c.capacity, consumer := UnlockAfterLoad)
    case UnlockAfterLoad => s.(mutex := if c.guarded then s.mutex + 1 else s.mutex, consumer := PostEmpty)
    case PostEmpty => s.(empty := s.empty + 1, consumer := AddTotal)
    case AddTotal => s.(total := s.total + s.register, i := s.i + 1, consumer := ConsumerTop(c, s.i + 1))
  }

  function Apply(c: Config, s: State, a: Action): State
    requires c.capacity > 0 && Enabled(c, s, a)
  {
    match a
    case Produce => ProducerStep(c, s)
    case Consume => ConsumerStep(c, s)
    case _ => s.(interrupts := s.interrupts - 1)
  }

  /** While EINTRs are left, any wait of either process can be interrupted, whether or not it could
      go through, and the process is then at the same wait again with nothing changed. */
  lemma InterruptedWaitIsRepeated(c: Config, s: State)
    requires c.capacity > 0 && s.interrupts > 0
    ensures s.producer == WaitEmpty || (s.producer == LockForStore && c.guarded) ==>
              Enabled(c, s, InterruptProducer)
              && Apply(c, s, InterruptProducer) == s.(interrupts := s.interrupts - 1)
    ensures s.consumer == WaitFull || (s.consumer == LockForLoad && c.guarded) ==>
              Enabled(c, s, InterruptConsumer)
              && Apply(c, s, InterruptConsumer) == s.(interrupts := s.interrupts - 1)
  {}

  ghost predicate Next(c: Config, s: State, t: State) {
    c.capacity > 0 && exists a :: Enabled(c, s, a) && t == Apply(c, s, a)
  }

  ghost function Ring(c: Config): System<State> {
    System(Start(c), (s, t) => Next(c, s, t))
  }

  predicate Final(s: State) {
    s.producer == ProducerDone && s.consumer == ConsumerDone
  }

  // ----- what the counters mean -----

  function One(b: bool): nat { if b then 1 else 0 }

  /** The producer is between its wait on `empty` and its post on `full`. */
  predicate ProducerHolds(s: State) { s.producer != WaitEmpty && s.producer != ProducerDone }

  /** The consumer is between its wait on `full` and its post on `empty`. */
  predicate ConsumerHolds(s: State) {
    s.consumer != WaitFull && s.consumer != AddTotal && s.consumer != ConsumerDone
  }

  predicate ProducerInside(s: State) {
    s.producer == Store || s.producer == AdvanceTail || s.producer == UnlockAfterStore
  }

  predicate ConsumerInside(s: State) {
    s.consumer == Load || s.consumer == AdvanceHead || s.consumer == UnlockAfterLoad
  }

  function TailMoves(s: State): int {
    s.value - 1 + One(s.producer == UnlockAfterStore || s.producer == PostFull)
  }

  function Stored(s: State): int {
    TailMoves(s) + One(s.producer == AdvanceTail)
  }

  function HeadMoves(s: State): nat {
    s.i + One(s.consumer == UnlockAfterLoad || s.consumer == PostEmpty || s.consumer == AddTotal)
  }

  function Taken(s: State): nat {
    HeadMoves(s) + One(s.consumer == AdvanceHead)
  }

  /** The slot used by the n-th item: n wrapped around the ring. */
  function Wrap(n: nat, capacity: nat): (r: nat)
    requires capacity > 0
    ensures r < capacity
  {
    if n < capacity then n else Wrap(n - capacity, capacity)
  }

  function SumTo(n: nat): nat {
    if n == 0 then 0 else SumTo(n - 1) + n
  }

  function SlotOf(c: Config, s: State, j: nat): int
    requires 0 < c.capacity == |s.slots|
  {
    s.slots[Wrap(j, c.capacity)]
  }

  ghost predicate CountersAgree(c: Config, s: State) {
    && 1 <= s.value <= c.items + 1 && s.i <= c.items
    && (s.producer == ProducerDone <==> s.value == c.items + 1)
    && (s.consumer == ConsumerDone <==> s.i == c.items)
    && s.full == s.value - 1 - s.i - One(s.consumer != WaitFull && s.consumer != ConsumerDone)
    && s.empty + s.full + One(ProducerHolds(s)) + One(ConsumerHolds(s)) == c.capacity
    && (if c.guarded then s.mutex + One(ProducerInside(s)) + One(ConsumerInside(s)) == 1 else s.mutex == 1)
  }

  ghost predicate IndicesAgree(c: Config, s: State)
    requires c.capacity > 0 && s.value > 0
  {
    && s.tail == Wrap(TailMoves(s), c.capacity)
    && s.head == Wrap(HeadMoves(s), c.capacity)
  }

  ghost predicate WindowAgrees(c: Config, s: State)
    requires c.capacity > 0
  {
    && |s.slots| == c.capacity
    && forall j | Taken(s) <= j < Stored(s) :: SlotOf(c, s, j) == j + 1
  }

  ghost predicate HistoryAgrees(s: State) {
    && s.seen == UpTo(Taken(s))
    && (Taken(s) > s.i ==> s.register == s.i + 1)
    && s.total == SumTo(s.i)
  }

  ghost predicate Inv(c: Config, s: State) {
    c.capacity > 0 && CountersAgree(c, s) && IndicesAgree(c, s) && WindowAgrees(c, s) && HistoryAgrees(s)
  }

  // ----- arithmetic of the ring index -----

  lemma {:induction false} WrapAdvances(n: nat, capacity: nat)
    requires capacity > 0
    ensures Wrap(n + 1, capacity) == (Wrap(n, capacity) + 1) % capacity
  {
    if n >= capacity {
      WrapAdvances(n - capacity, capacity);
    }
  }

  /** Wrapping is the remainder modulo the capacity. */
  lemma WrapIsRemainder(n: nat, capacity: nat)
    requires capacity > 0
    ensures Wrap(n, capacity) == n % capacity
  {
    var q := WrapQuotient(n, capacity);
    RemainderIsUnique(n, q, Wrap(n, capacity), capacity);
  }

  lemma {:induction false} WrapQuotient(n: nat, capacity: nat) returns (q: nat)
    requires capacity > 0
    ensures n == q * capacity + Wrap(n, capacity)
  {
    if n < capacity {
      q := 0;
    } else {
      q := WrapQuotient(n - capacity, capacity);
      q := q + 1;
    }
  }

  lemma {:induction false} WrapOfWrap(n: nat, d: nat, capacity: nat)
    requires capacity > 0
    ensures Wrap(Wrap(n, capacity) + d, capacity) == Wrap(n + d, capacity)
  {
    if n >= capacity {
      WrapOfWrap(n - capacity, d, capacity);
    }
  }

  /** Two counts less than a full turn apart use different slots. */
  lemma {:induction false} WrapDistinct(a: nat, b: nat, capacity: nat)
    requires a < b < a + capacity
    ensures Wrap(a, capacity) != Wrap(b, capacity)
  {
    if a >= capacity {
      WrapDistinct(a - capacity, b - capacity, capacity);
    }
  }

  // ----- every step keeps the invariant -----

  lemma ProducerKeepsCounters(c: Config, s: State)
    requires c.capacity > 0 && CountersAgree(c, s) && Enabled(c, s, Produce)
    ensures CountersAgree(c, ProducerStep(c, s))
  {}

  lemma ConsumerKeepsCounters(c: Config, s: State)
    requires c.capacity > 0 && CountersAgree(c, s) && Enabled(c, s, Consume)
    ensures CountersAgree(c, ConsumerStep(c, s))
  {}

  /** The producer's next slot holds no item the consumer still has to load. */
  lemma WindowHasRoom(c: Config, s: State)
    requires CountersAgree(c, s) && s.producer == Store
    ensures Taken(s) <= s.value - 1 < Taken(s) + c.capacity
  {}

  lemma TailIsKept(c: Config, s: State)
    requires c.capacity > 0 && s.value > 0 && IndicesAgree(c, s) && Enabled(c, s, Produce)
    ensures IndicesAgree(c, ProducerStep(c, s))
  {
    WrapAdvances(s.value - 1, c.capacity);
  }

  lemma HeadIsKept(c: Config, s: State)
    requires c.capacity > 0 && s.value > 0 && IndicesAgree(c, s) && Enabled(c, s, Consume)
    ensures IndicesAgree(c, ConsumerStep(c, s))
  {
    WrapAdvances(s.i, c.capacity);
  }

  lemma StoreKeepsWindow(c: Config, s: State)
    requires c.capacity > 0 && WindowAgrees(c, s) && s.producer == Store && Enabled(c, s, Produce) && s.value > 0
    requires s.tail == Wrap(s.value - 1, c.capacity) && s.value - 1 < Taken(s) + c.capacity
    ensures WindowAgrees(c, ProducerStep(c, s))
  {
    var t := ProducerStep(c, s);
    forall j | Taken(t) <= j < Stored(t) ensures SlotOf(c, t, j) == j + 1 {
      if j < s.value - 1 {
        WrapDistinct(j, s.value - 1, c.capacity);
        assert SlotOf(c, s, j) == j + 1;
      }
    }
  }

  lemma WindowIsKept(c: Config, s: State, a: Action)
    requires Inv(c, s) && Enabled(c, s, a)
    ensures WindowAgrees(c, Apply(c, s, a))
  {
    if a == Produce && s.producer == Store {
      WindowHasRoom(c, s);
      StoreKeepsWindow(c, s);
    } else {
      var t := Apply(c, s, a);
      assert t.slots == s.slots && Stored(t) == Stored(s) && Taken(t) >= Taken(s);
      assert forall j | Taken(t) <= j < Stored(t) :: SlotOf(c, t, j) == SlotOf(c, s, j);
    }
  }

  /** The consumer loads the oldest item. */
  lemma LoadedValue(c: Config, s: State)
    requires Inv(c, s) && s.consumer == Load
    ensures s.head < |s.slots| && s.slots[s.head] == s.i + 1
  {
    assert SlotOf(c, s, s.i) == s.i + 1;
  }

  lemma HistoryIsKept(c: Config, s: State, a: Action)
    requires c.capacity > 0 && HistoryAgrees(s) && Enabled(c, s, a)
    requires a == Consume && s.consumer == Load ==> s.slots[s.head] == s.i + 1
    ensures HistoryAgrees(Apply(c, s, a))
  {}

  lemma StepKeepsInv(c: Config, s: State, a: Action)
    requires Inv(c, s) && Enabled(c, s, a)
    ensures Inv(c, Apply(c, s, a))
  {
    if a == Produce {
      ProducerKeepsCounters(c, s);
      TailIsKept(c, s);
    } else if a == Consume {
      ConsumerKeepsCounters(c, s);
      HeadIsKept(c, s);
    }
    WindowIsKept(c, s, a);
    if s.consumer == Load {
      LoadedValue(c, s);
    }
    HistoryIsKept(c, s, a);
  }

  lemma InvIsInductive(c: Config)
    requires c.capacity > 0
    ensures Inductive(Ring(c), x => Inv(c, x))
  {
    forall s, t | Inv(c, s) && Next(c, s, t) ensures Inv(c, t) {
      var a :| Enabled(c, s, a) && t == Apply(c, s, a);
      StepKeepsInv(c, s, a);
    }
  }

  lemma ReachableHoldsInv(c: Config, s: State)
    requires c.capacity > 0 && Reachable(Ring(c), s)
    ensures Inv(c, s)
  {
    InvIsInductive(c);
    InvariantWhenReachable(Ring(c), x => Inv(c, x), s);
  }

  // ----- results -----

  /** Where the oldest live item sits: the head, or the slot after it when the head's item
      has been loaded but the head not yet advanced. */
  function Front(s: State): nat {
    s.head + One(s.consumer == AdvanceHead)
  }

  /** The items in the ring, read from the head. */
  function Live(c: Config, s: State): (r: seq<int>)
    requires |s.slots| == c.capacity > 0 && Taken(s) <= Stored(s)
    ensures |r| == Stored(s) - Taken(s)
    ensures forall d | 0 <= d < |r| :: r[d] == s.slots[Wrap(Front(s) + d, c.capacity)]
  {
    seq(Stored(s) - Taken(s), d requires 0 <= d => s.slots[Wrap(Front(s) + d, c.capacity)])
  }

  /** A bounded first-in first-out channel carrying 1, 2, 3, ... */
  datatype Fifo = Fifo(sent: nat, queue: seq<int>, received: seq<int>)

  predicate FifoSends(capacity: nat, a: Fifo, b: Fifo) {
    |a.queue| < capacity && b == Fifo(a.sent + 1, a.queue + [a.sent + 1], a.received)
  }

  predicate FifoReceives(a: Fifo, b: Fifo) {
    |a.queue| > 0 && b == Fifo(a.sent, a.queue[1..], a.received + [a.queue[0]])
  }

  predicate FifoStep(capacity: nat, a: Fifo, b: Fifo) {
    a == b || FifoSends(capacity, a, b) || FifoReceives(a, b)
  }

  /** n items sent, the first k of them received. */
  function Channel(n: nat, k: nat): Fifo
    requires k <= n
  {
    Fifo(n, UpTo(n)[k..], UpTo(k))
  }

  function Abstract(c: Config, s: State): Fifo
    requires |s.slots| == c.capacity > 0 && Taken(s) <= Stored(s)
  {
    Fifo(Stored(s), Live(c, s), s.seen)
  }

  lemma LiveAt(c: Config, s: State, d: nat)
    requires Inv(c, s) && Taken(s) + d < Stored(s)
    ensures Live(c, s)[d] == Taken(s) + d + 1
  {
    WrapOfWrap(HeadMoves(s), One(s.consumer == AdvanceHead) + d, c.capacity);
    assert SlotOf(c, s, Taken(s) + d) == Taken(s) + d + 1;
  }

  lemma UpToPrefix(k: nat, n: nat)
    requires k <= n
    ensures UpTo(k) == UpTo(n)[..k]
  {
    forall i | 0 <= i < k ensures UpTo(k)[i] == UpTo(n)[i] {
      UpToAt(n, i);
      UpToAt(k, i);
    }
  }

  lemma LiveFollowsSeen(c: Config, s: State)
    requires Inv(c, s)
    ensures Taken(s) <= Stored(s) <= Taken(s) + c.capacity
    ensures Live(c, s) == UpTo(Stored(s))[Taken(s)..] && s.seen == UpTo(Taken(s)) == UpTo(Stored(s))[..Taken(s)]
  {
    forall d | 0 <= d < Stored(s) - Taken(s) ensures Live(c, s)[d] == UpTo(Stored(s))[Taken(s) + d] {
      LiveAt(c, s, d);
      UpToAt(Stored(s), Taken(s) + d);
    }
    UpToPrefix(Taken(s), Stored(s));
  }

  /** What has been loaded, followed by what the ring holds, is always the produced prefix,
      and the ring never holds more than its capacity. */
  lemma RingHoldsProducedPrefix(c: Config, s: State)
    requires c.capacity > 0 && Reachable(Ring(c), s)
    ensures Taken(s) <= Stored(s) <= Taken(s) + c.capacity && |s.slots| == c.capacity
    ensures s.seen + Live(c, s) == UpTo(Stored(s))
  {
    ReachableHoldsInv(c, s);
    LiveFollowsSeen(c, s);
  }

  /** A store adds one item and a load takes one; no other step moves an item. */
  lemma ItemsMovedByStep(c: Config, s: State, a: Action)
    requires c.capacity > 0 && CountersAgree(c, s) && Enabled(c, s, a)
    ensures var t := Apply(c, s, a);
            && Stored(t) == Stored(s) + One(a == Produce && s.producer == Store)
            && Taken(t) == Taken(s) + One(a == Consume && s.consumer == Load)
  {}

  lemma PrefixRoom(c: Config, s: State, a: Action)
    requires c.capacity > 0 && CountersAgree(c, s) && Enabled(c, s, a)
    ensures Taken(s) <= Stored(s)
    ensures a == Produce && s.producer == Store ==> Stored(s) < Taken(s) + c.capacity
    ensures a == Consume && s.consumer == Load ==> Taken(s) < Stored(s)
  {}

  lemma ChannelSends(capacity: nat, n: nat, k: nat)
    requires k <= n < k + capacity
    ensures FifoSends(capacity, Channel(n, k), Channel(n + 1, k))
  {
    SliceOfLonger(UpTo(n), n + 1, k);
  }

  lemma ChannelReceives(n: nat, k: nat)
    requires k < n
    ensures FifoReceives(Channel(n, k), Channel(n, k + 1))
  {
    UpToAt(n, k);
    SliceFromNext(UpTo(n), k);
  }

  lemma ChannelSteps(capacity: nat, n: nat, k: nat, sends: bool, receives: bool)
    requires k <= n && !(sends && receives) && (sends ==> n < k + capacity) && (receives ==> k < n)
    ensures FifoStep(capacity, Channel(n, k), Channel(n + One(sends), k + One(receives)))
  {
    if sends {
      ChannelSends(capacity, n, k);
    } else if receives {
      ChannelReceives(n, k);
    }
  }

  lemma AbstractIsChannel(c: Config, s: State)
    requires Inv(c, s)
    ensures Taken(s) <= Stored(s) && Abstract(c, s) == Channel(Stored(s), Taken(s))
  {
    LiveFollowsSeen(c, s);
  }

  lemma CountsStepLikeChannel(c: Config, s: State, a: Action)
    requires c.capacity > 0 && CountersAgree(c, s) && Enabled(c, s, a)
    ensures var t := Apply(c, s, a);
            && Taken(s) <= Stored(s) && Taken(t) <= Stored(t)
            && FifoStep(c.capacity, Channel(Stored(s), Taken(s)), Channel(Stored(t), Taken(t)))
  {
    ItemsMovedByStep(c, s, a);
    PrefixRoom(c, s, a);
    ChannelSteps(c.capacity, Stored(s), Taken(s), a == Produce && s.producer == Store, a == Consume && s.consumer == Load);
  }

  /** Every step of the ring is a step of the bounded channel, or no step of it. */
  lemma RingRefinesFifo(c: Config, s: State, a: Action)
    requires c.capacity > 0 && Reachable(Ring(c), s) && Enabled(c, s, a)
    ensures var t := Apply(c, s, a);
            && |s.slots| == |t.slots| == c.capacity && Taken(s) <= Stored(s) && Taken(t) <= Stored(t)
            && FifoStep(c.capacity, Abstract(c, s), Abstract(c, t))
  {
    ReachableHoldsInv(c, s);
    StepKeepsInv(c, s, a);
    AbstractIsChannel(c, s);
    AbstractIsChannel(c, Apply(c, s, a));
    CountsStepLikeChannel(c, s, a);
  }

  lemma SliceOfLonger(all: seq<int>, x: int, k: nat)
    requires k <= |all|
    ensures (all + [x])[k..] == all[k..] + [x]
  {}

  lemma SliceFromNext(all: seq<int>, k: nat)
    requires k < |all|
    ensures |all[k..]| > 0 && all[k..][0] == all[k] && all[k..][1..] == all[k + 1..]
  {}

  /** The two counting semaphores plus the tokens in flight always make up the capacity, and
      the mutex admits one process at a time. */
  lemma SemaphoresAreConserved(c: Config, s: State)
    requires c.capacity > 0 && Reachable(Ring(c), s)
    ensures s.empty + s.full + One(ProducerHolds(s)) + One(ConsumerHolds(s)) == c.capacity
    ensures c.guarded ==> !(ProducerInside(s) && ConsumerInside(s))
  {
    ReachableHoldsInv(c, s);
  }

  /** With or without the mutex, the slot the producer is about to write holds no item that
      the consumer has still to load, nor the one it is loading. */
  lemma SlotsAreSeparate(c: Config, s: State)
    requires c.capacity > 0 && Reachable(Ring(c), s) && s.producer == Store
    ensures forall j | Taken(s) <= j < Stored(s) :: Wrap(j, c.capacity) != s.tail
    ensures s.consumer == Load ==> s.head != s.tail
  {
    ReachableHoldsInv(c, s);
    WindowHasRoom(c, s);
    forall j | Taken(s) <= j < Stored(s) ensures Wrap(j, c.capacity) != s.tail {
      WrapDistinct(j, s.value - 1, c.capacity);
    }
  }

  /** Some process can always take a step that is not an interrupted wait, until both are done. */
  lemma RingNeverDeadlocks(c: Config, s: State)
    requires c.capacity > 0 && Reachable(Ring(c), s) && !Final(s)
    ensures Enabled(c, s, Produce) || Enabled(c, s, Consume)
  {
    ReachableHoldsInv(c, s);
  }

  function ProducerLeft(s: State): nat {
    match s.producer
    case WaitEmpty => 6 case LockForStore => 5 case Store => 4
    case AdvanceTail => 3 case UnlockAfterStore => 2 case PostFull => 1 case ProducerDone => 0
  }

  function ConsumerLeft(s: State): nat {
    match s.consumer
    case WaitFull => 7 case LockForLoad => 6 case Load => 5 case AdvanceHead => 4
    case UnlockAfterLoad => 3 case PostEmpty => 2 case AddTotal => 1 case ConsumerDone => 0
  }

  /** Steps left, exactly: six per unproduced item, seven per unconsumed one, one per interrupt. */
  function StepsLeft(c: Config, s: State): nat {
    ProducerLeft(s) + (if s.value < c.items then 6 * (c.items - s.value) else 0)
    + ConsumerLeft(s) + (if s.i + 1 < c.items then 7 * (c.items - s.i - 1) else 0)
    + s.interrupts
  }

  lemma ProducerLowersStepsLeft(c: Config, s: State)
    requires c.capacity > 0 && CountersAgree(c, s) && Enabled(c, s, Produce)
    ensures StepsLeft(c, s) == StepsLeft(c, ProducerStep(c, s)) + 1
  {}

  lemma ConsumerLowersStepsLeft(c: Config, s: State)
    requires c.capacity > 0 && CountersAgree(c, s) && Enabled(c, s, Consume)
    ensures StepsLeft(c, s) == StepsLeft(c, ConsumerStep(c, s)) + 1
  {}

  lemma StepLowersStepsLeft(c: Config, s: State, a: Action)
    requires c.capacity > 0 && CountersAgree(c, s) && Enabled(c, s, a)
    ensures StepsLeft(c, s) == StepsLeft(c, Apply(c, s, a)) + 1
  {
    match a
    case Produce => ProducerLowersStepsLeft(c, s);
    case Consume => ConsumerLowersStepsLeft(c, s);
    case _ =>
  }

  lemma StepStaysReachable(c: Config, s: State, a: Action)
    requires c.capacity > 0 && Reachable(Ring(c), s) && Enabled(c, s, a)
    ensures Reachable(Ring(c), Apply(c, s, a))
    ensures StepsLeft(c, Apply(c, s, a)) < StepsLeft(c, s)
  {
    StepIsReachable(Ring(c), s, Apply(c, s, a));
    ReachableHoldsInv(c, s);
    StepLowersStepsLeft(c, s, a);
  }

  /** Every run with finitely many interrupted waits ends, after at most 13 steps per item
      plus one per interrupt. */
  lemma RingAlwaysFinishes(c: Config, run: seq<State>)
    requires c.capacity > 0 && IsRun(Ring(c), run)
    ensures |run| - 1 <= 13 * c.items + c.interrupts
  {
    InvIsInductive(c);
    forall s, t | Inv(c, s) && Next(c, s, t) ensures StepsLeft(c, t) < StepsLeft(c, s) {
      var a :| Enabled(c, s, a) && t == Apply(c, s, a);
      StepLowersStepsLeft(c, s, a);
    }
    RunsAreBounded(Ring(c), x => Inv(c, x), x => StepsLeft(c, x), run);
  }

  lemma {:induction false} SumToClosedForm(n: nat)
    ensures 2 * SumTo(n) == n * (n + 1)
  {
    if n > 0 {
      SumToClosedForm(n - 1);
    }
  }

  /** When both processes are done the consumer has loaded exactly 1..ITEMS in order, its
      total is ITEMS*(ITEMS+1)/2, and the semaphores are back where they began. */
  lemma ConsumerSeesEveryItem(c: Config, s: State)
    requires c.capacity > 0 && Reachable(Ring(c), s) && Final(s)
    ensures s.seen == UpTo(c.items) && 2 * s.total == c.items * (c.items + 1)
    ensures s.empty == c.capacity && s.full == 0 && s.mutex == 1
  {
    ReachableHoldsInv(c, s);
    SumToClosedForm(c.items);
  }

  // ----- the ring in shared memory, updated in place -----

  /** `struct ring` together with the locals of the two loops that work on it. */
  class SharedRing {
    const config: Config
    const slots: array<int>
    var empty: nat
    var full: nat
    var mutex: nat
    var head: nat
    var tail: nat
    var producer: ProducerPc
    var value: nat
    var consumer: ConsumerPc
    var i: nat
    var register: int
    var total: int
    var interrupts: nat
    ghost var seen: seq<int>

    ghost function View(): State
      reads this, slots
    {
      State(empty, full, mutex, head, tail, slots[..], producer, value, consumer, i, register, total, seen, interrupts)
    }

    constructor (config: Config)
      ensures this.config == config && fresh(slots)
      ensures View() == Start(config)
    {
      this.config := config;
      slots := new int[config.capacity](_ => 0);
      empty, full, mutex, head, tail := config.capacity, 0, 1, 0, 0;
      producer, value := ProducerTop(config, 1), 1;
      consumer, i, register, total, seen := ConsumerTop(config, 0), 0, 0, 0, [];
      interrupts := config.interrupts;
    }

    predicate CanProduce()
      reads this, slots
      ensures CanProduce() == Enabled(config, View(), Produce)
    {
      && producer != ProducerDone
      && (producer == WaitEmpty ==> empty > 0)
      && (producer == LockForStore && config.guarded ==> mutex > 0)
      && (producer == Store ==> tail < slots.Length)
    }

    predicate CanConsume()
      reads this, slots
      ensures CanConsume() == Enabled(config, View(), Consume)
    {
      && consumer != ConsumerDone
      && (consumer == WaitFull ==> full > 0)
      && (consumer == LockForLoad && config.guarded ==> mutex > 0)
      && (consumer == Load ==> head < slots.Length)
    }

    method StepProducer()
      requires config.capacity > 0 && CanProduce()
      modifies this, slots
      ensures View() == ProducerStep(config, old(View()))
    {
      match producer
      case WaitEmpty => empty, producer := empty - 1, LockForStore;
      case LockForStore =>
        if config.guarded { mutex := mutex - 1; }
        producer := Store;
      case Store =>
        slots[tail] := value;
        producer := AdvanceTail;
      case AdvanceTail => tail, producer := (tail + 1) % config.capacity, UnlockAfterStore;
      case UnlockAfterStore =>
        if config.guarded { mutex := mutex + 1; }
        producer := PostFull;
      case PostFull =>
        full, value := full + 1, value + 1;
        producer := ProducerTop(config, value);
    }

    method StepConsumer()
      requires config.capacity > 0 && CanConsume()
      modifies this
      ensures View() == ConsumerStep(config, old(View()))
    {
      match consumer
      case WaitFull => full, consumer := full - 1, LockForLoad;
      case LockForLoad =>
        if config.guarded { mutex := mutex - 1; }
        consumer := Load;
      case Load =>
        register := slots[head];
        seen := seen + [register];
        consumer := AdvanceHead;
      case AdvanceHead => head, consumer := (head + 1) % config.capacity, UnlockAfterLoad;
      case UnlockAfterLoad =>
        if config.guarded { mutex := mutex + 1; }
        consumer := PostEmpty;
      case PostEmpty => empty, consumer := empty + 1, AddTotal;
      case AddTotal =>
        total, i := total + register, i + 1;
        consumer := ConsumerTop(config, i);
    }

    method Interrupt()
      requires interrupts > 0
      modifies this`interrupts
      ensures View() == old(View()).(interrupts := old(interrupts) - 1)
    {
      interrupts := interrupts - 1;
    }

    /** The whole program under any scheduler: whichever enabled process runs next, the loop
        ends with the consumer's total over 1..ITEMS. */
    method Run()
      requires config.capacity > 0 && View() == Start(config)
      modifies this, slots
      ensures producer == ProducerDone && consumer == ConsumerDone
      ensures seen == UpTo(config.items) && 2 * total == config.items * (config.items + 1)
    {
      StartIsReachable(Ring(config));
      while producer != ProducerDone || consumer != ConsumerDone
        invariant Reachable(Ring(config), View())
        decreases StepsLeft(config, View())
      {
        ghost var before := View();
        RingNeverDeadlocks(config, before);
        if
        case CanProduce() =>
          StepStaysReachable(config, before, Produce);
          StepProducer();
        case CanConsume() =>
          StepStaysReachable(config, before, Consume);
          StepConsumer();
        case interrupts > 0 && (producer == WaitEmpty || (producer == LockForStore && config.guarded)) =>
          StepStaysReachable(config, before, InterruptProducer);
          Interrupt();
        case interrupts > 0 && (consumer == WaitFull || (consumer == LockForLoad && config.guarded)) =>
          StepStaysReachable(config, before, InterruptConsumer);
          Interrupt();
      }
      ConsumerSeesEveryItem(config, View());
    }
  }
}
