/** MessageQueues/sysv_priority_workers.c: one System V queue carries jobs, results and stop
    messages between a parent and its workers. Each `msgsnd` and `msgrcv` is one step; a send
    waits for room, a receive waits for a message of its type and takes the first one. */
module WorkerPool {
  import opened Remainders
  import opened StepSystems
  import opened Totals

  /** The queue holds at most `capacity` messages. */
  datatype Config = Config(workers: nat, jobs: nat, capacity: nat)

  const RESULT_TYPE: nat := 100

  /** Worker types must stay below the type of results, and the queue must hold something. */
  predicate WellFormed(c: Config) {
    0 < c.workers < RESULT_TYPE && c.capacity > 0
  }

  /** `struct job_msg`, with a negative id for a stop, and `struct result_msg`, whose pid is the
      number of the worker. */
  datatype Msg =
    | Job(mtype: nat, id: int, value: int)
    | Result(mtype: nat, id: int, value: int, result: int, worker: nat)

  datatype Worker = Idle | Holding(id: int, value: int) | Exited

  /** `sent`, `collected` and `stops` say how far the three loops of the parent have come. */
  datatype State = State(
    queue: seq<Msg>, workers: seq<Worker>,
    sent: nat, collected: seq<Msg>, stops: nat, removed: bool)

  datatype Action = SendJob | Collect | SendStop | Remove | Take(w: nat) | Reply(w: nat)

  /** Job i, counting from 0, goes to worker i % WORKERS. */
  function WorkerOf(c: Config, i: nat): (w: nat)
    requires c.workers > 0
    ensures w < c.workers
  {
    i % c.workers
  }

  function JobMsg(c: Config, i: nat): Msg
    requires c.workers > 0
  {
    Job(WorkerOf(c, i) + 1, i + 1, i + 2)
  }

  function StopMsg(w: nat): Msg {
    Job(w + 1, -1, 0)
  }

  function ResultMsg(id: int, value: int, w: nat): Msg {
    Result(RESULT_TYPE, id, value, value * value, w)
  }

  /** Index of the first message of a type; the length of the queue if there is none. */
  function FirstOf(queue: seq<Msg>, mtype: nat): (k: nat)
    ensures k <= |queue|
    ensures forall j | 0 <= j < k :: queue[j].mtype != mtype
    ensures k < |queue| ==> queue[k].mtype == mtype
  {
    if queue == [] || queue[0].mtype == mtype then 0 else 1 + FirstOf(queue[1..], mtype)
  }

  function Without(queue: seq<Msg>, k: nat): seq<Msg>
    requires k < |queue|
  {
    queue[..k] + queue[k + 1..]
  }

  function Start(c: Config): State {
    State([], seq(c.workers, _ => Idle), 0, [], 0, false)
  }

  predicate Collecting(c: Config, s: State) { s.sent == c.jobs && |s.collected| < c.jobs }

  predicate AllCollected(c: Config, s: State) { s.sent == c.jobs && |s.collected| == c.jobs }

  /** A message waits for the idle worker w. */
  predicate CanReceive(s: State, w: nat) {
    && w < |s.workers| && s.workers[w].Idle?
    && var k := FirstOf(s.queue, w + 1); k < |s.queue| && s.queue[k].Job?
  }

  /** Worker w takes its first message: a job to hold, or its stop. */
  function Receiving(s: State, w: nat): State
    requires CanReceive(s, w)
  {
    var k := FirstOf(s.queue, w + 1);
    var job := s.queue[k];
    s.(queue := Without(s.queue, k),
       workers := s.workers[w := if job.id < 0 then Exited else Holding(job.id, job.value)])
  }

  predicate Enabled(c: Config, s: State, a: Action) {
    match a
    case SendJob => s.sent < c.jobs && |s.queue| < c.capacity
    case Collect => Collecting(c, s) && FirstOf(s.queue, RESULT_TYPE) < |s.queue|
    case SendStop => AllCollected(c, s) && s.stops < c.workers && |s.queue| < c.capacity
    case Remove =>
      AllCollected(c, s) && s.stops == c.workers && !s.removed && forall w | 0 <= w < |s.workers| :: s.workers[w].Exited?
    case Take(w) => CanReceive(s, w)
    case Reply(w) => w < |s.workers| && s.workers[w].Holding? && |s.queue| < c.capacity
  }

  function Apply(c: Config, s: State, a: Action): State
    requires c.workers > 0 && Enabled(c, s, a)
  {
    match a
    case SendJob => s.(queue := s.queue + [JobMsg(c, s.sent)], sent := s.sent + 1)
    case Collect =>
      var k := FirstOf(s.queue, RESULT_TYPE);
      s.(queue := Without(s.queue, k), collected := s.collected + [s.queue[k]])
    case SendStop => s.(queue := s.queue + [StopMsg(s.stops)], stops := s.stops + 1)
    case Remove => s.(removed := true)
    case Take(w) => Receiving(s, w)
    case Reply(w) =>
      var held := s.workers[w];
      s.(queue := s.queue + [ResultMsg(held.id, held.value, w)], workers := s.workers[w := Idle])
  }

  ghost predicate Next(c: Config, s: State, t: State) {
    c.workers > 0 && exists a :: Enabled(c, s, a) && t == Apply(c, s, a)
  }

  ghost function Pool(c: Config): System<State> {
    System(Start(c), (s, t) => Next(c, s, t))
  }

  // ----- the jobs of one worker, wherever they are -----

  datatype Key = JobsOf(w: nat) | ResultsOf(w: nat)

  predicate Matches(m: Msg, key: Key) {
    match key
    case JobsOf(w) => m.Job? && m.mtype == w + 1
    case ResultsOf(w) => m.Result? && m.worker == w
  }

  /** The ids of the messages that match, in queue order. */
  function IdsOf(ms: seq<Msg>, key: Key): seq<int> {
    if ms == [] then [] else IdOf(ms[0], key) + IdsOf(ms[1..], key)
  }

  function IdOf(m: Msg, key: Key): seq<int> {
    if Matches(m, key) then [m.id] else []
  }

  lemma Assoc(a: seq<int>, b: seq<int>, c: seq<int>)
    ensures (a + b) + c == a + (b + c)
  {}

  lemma {:induction false} IdsOfAppend(ms: seq<Msg>, m: Msg, key: Key)
    ensures IdsOf(ms + [m], key) == IdsOf(ms, key) + IdOf(m, key)
  {
    if ms == [] {
      assert ms + [m] == [m] && [m][1..] == [];
    } else {
      assert (ms + [m])[1..] == ms[1..] + [m] && (ms + [m])[0] == ms[0];
      IdsOfAppend(ms[1..], m, key);
      Assoc(IdOf(ms[0], key), IdsOf(ms[1..], key), IdOf(m, key));
    }
  }

  lemma {:induction false} IdsOfWithoutOther(ms: seq<Msg>, k: nat, key: Key)
    requires k < |ms| && !Matches(ms[k], key)
    ensures IdsOf(Without(ms, k), key) == IdsOf(ms, key)
  {
    if k == 0 {
      assert Without(ms, k) == ms[1..];
    } else {
      assert Without(ms, k)[1..] == Without(ms[1..], k - 1);
      IdsOfWithoutOther(ms[1..], k - 1, key);
    }
  }

  lemma {:induction false} IdsOfWithoutFirst(ms: seq<Msg>, k: nat, key: Key)
    requires k < |ms| && Matches(ms[k], key) && forall j | 0 <= j < k :: !Matches(ms[j], key)
    ensures IdsOf(ms, key) == [ms[k].id] + IdsOf(Without(ms, k), key)
  {
    if k == 0 {
      assert Without(ms, k) == ms[1..];
    } else {
      assert Without(ms, k)[1..] == Without(ms[1..], k - 1);
      IdsOfWithoutFirst(ms[1..], k - 1, key);
    }
  }

  function HeldBy(worker: Worker): seq<int> {
    if worker.Holding? then [worker.id] else []
  }

  /** Ids of the jobs of worker w along their way: collected, queued as result, held, queued as job. */
  function Trail(s: State, w: nat): seq<int>
    requires w < |s.workers|
  {
    IdsOf(s.collected, ResultsOf(w)) + IdsOf(s.queue, ResultsOf(w)) + HeldBy(s.workers[w]) + IdsOf(s.queue, JobsOf(w))
  }

  /** The ids among 1..n given to worker w, in order. */
  function Assigned(c: Config, w: nat, n: nat): seq<int>
    requires c.workers > 0
  {
    if n == 0 then [] else Assigned(c, w, n - 1) + (if WorkerOf(c, n - 1) == w then [n] else [])
  }

  function PendingStop(s: State, w: nat): seq<int>
    requires w < |s.workers|
  {
    if w < s.stops && !s.workers[w].Exited? then [-1] else []
  }

  // ----- the invariant -----

  predicate JobFits(c: Config, id: int, value: int, w: nat)
    requires c.workers > 0
  {
    id >= 1 && value == id + 1 && w == WorkerOf(c, id - 1)
  }

  predicate MsgFits(c: Config, m: Msg)
    requires c.workers > 0
  {
    match m
    case Job(t, id, value) => 1 <= t <= c.workers && (id == -1 || JobFits(c, id, value, t - 1))
    case Result(t, id, value, result, w) => t == RESULT_TYPE && result == value * value && JobFits(c, id, value, w)
  }

  ghost predicate MessagesFit(c: Config, s: State)
    requires c.workers > 0
  {
    && (forall m | m in s.queue :: MsgFits(c, m))
    && (forall m | m in s.collected :: m.Result? && MsgFits(c, m))
    && |s.workers| == c.workers
    && (forall w | 0 <= w < |s.workers| ::
          s.workers[w].Holding? ==> JobFits(c, s.workers[w].id, s.workers[w].value, w))
  }

  function IsWork(m: Msg): nat { if m.Result? || m.id >= 0 then 1 else 0 }

  function IsStop(m: Msg): nat { 1 - IsWork(m) }

  function IsHolding(x: Worker): nat { if x.Holding? then 1 else 0 }

  function HasExited(x: Worker): nat { if x.Exited? then 1 else 0 }

  /** No job and no stop is lost or doubled. */
  ghost predicate Balanced(c: Config, s: State) {
    && Total(IsWork, s.queue) + Total(IsHolding, s.workers) + |s.collected| == s.sent <= c.jobs
    && Total(IsStop, s.queue) + Total(HasExited, s.workers) == s.stops <= c.workers
    && (s.stops > 0 ==> AllCollected(c, s))
    && (s.removed ==> AllCollected(c, s) && Total(HasExited, s.workers) == s.stops == c.workers)
    && (forall w | 0 <= w < |s.workers| :: s.workers[w].Exited? ==> w < s.stops)
  }

  ghost predicate TrailsHold(c: Config, s: State)
    requires c.workers > 0 && |s.workers| == c.workers
  {
    forall w | 0 <= w < c.workers :: Trail(s, w) == Assigned(c, w, s.sent) + PendingStop(s, w)
  }

  ghost predicate Inv(c: Config, s: State) {
    c.workers > 0 && MessagesFit(c, s) && Balanced(c, s) && TrailsHold(c, s)
  }

  // ----- every step keeps it -----

  lemma TakeKeepsFit(c: Config, s: State, w: nat)
    requires c.workers > 0 && MessagesFit(c, s) && CanReceive(s, w)
    ensures MessagesFit(c, Receiving(s, w))
  {
    var m := s.queue[FirstOf(s.queue, w + 1)];
    assert m in s.queue && MsgFits(c, m);
  }

  lemma CollectKeepsFit(c: Config, s: State)
    requires WellFormed(c) && MessagesFit(c, s) && Enabled(c, s, Collect)
    ensures MessagesFit(c, Apply(c, s, Collect))
  {
    var m := s.queue[FirstOf(s.queue, RESULT_TYPE)];
    assert m in s.queue && MsgFits(c, m);
  }

  lemma FitIsKept(c: Config, s: State, a: Action)
    requires WellFormed(c) && MessagesFit(c, s) && Enabled(c, s, a)
    ensures MessagesFit(c, Apply(c, s, a))
  {
    match a
    case SendJob => assert MsgFits(c, JobMsg(c, s.sent));
    case SendStop => assert MsgFits(c, StopMsg(s.stops));
    case Reply(w) => assert MsgFits(c, ResultMsg(s.workers[w].id, s.workers[w].value, w));
    case Collect => CollectKeepsFit(c, s);
    case Take(w) => TakeKeepsFit(c, s, w);
    case Remove =>
  }

  lemma {:induction false} AssignedIsPositive(c: Config, w: nat, n: nat)
    requires c.workers > 0
    ensures forall i | 0 <= i < |Assigned(c, w, n)| :: 1 <= Assigned(c, w, n)[i] <= n
  {
    if n > 0 {
      AssignedIsPositive(c, w, n - 1);
    }
  }

  /** A stop at the front of a worker's jobs was sent to it, and nothing is queued behind it. */
  lemma StopIsLast(c: Config, s: State, w: nat)
    requires Inv(c, s) && w < c.workers && s.workers[w].Idle?
    requires IdsOf(s.queue, JobsOf(w)) != [] && IdsOf(s.queue, JobsOf(w))[0] < 0
    ensures w < s.stops && IdsOf(s.queue, JobsOf(w)) == [-1]
    ensures IdsOf(s.collected, ResultsOf(w)) + IdsOf(s.queue, ResultsOf(w)) == Assigned(c, w, s.sent)
  {
    var front := IdsOf(s.collected, ResultsOf(w)) + IdsOf(s.queue, ResultsOf(w));
    var jobs := IdsOf(s.queue, JobsOf(w));
    var all := Assigned(c, w, s.sent) + PendingStop(s, w);
    assert HeldBy(s.workers[w]) == [] && front + [] == front;
    assert front + jobs == Trail(s, w) == all;
    assert all[|front|] == jobs[0];
    AssignedIsPositive(c, w, s.sent);
    assert |front| == |Assigned(c, w, s.sent)|;
    assert front == all[..|front|] && jobs == all[|front|..];
  }

  lemma TakeFindsFirst(c: Config, s: State, w: nat)
    requires Inv(c, s) && Enabled(c, s, Take(w))
    ensures var k := FirstOf(s.queue, w + 1);
            IdsOf(s.queue, JobsOf(w)) == [s.queue[k].id] + IdsOf(Without(s.queue, k), JobsOf(w))
  {
    IdsOfWithoutFirst(s.queue, FirstOf(s.queue, w + 1), JobsOf(w));
  }

  lemma TakeKeepsOtherTrail(c: Config, s: State, w: nat, v: nat)
    requires Inv(c, s) && Enabled(c, s, Take(w)) && v < c.workers && v != w
    ensures Trail(Apply(c, s, Take(w)), v) == Trail(s, v)
  {
    var k := FirstOf(s.queue, w + 1);
    IdsOfWithoutOther(s.queue, k, ResultsOf(v));
    IdsOfWithoutOther(s.queue, k, JobsOf(v));
  }

  lemma StopLeavesNothing(c: Config, s: State, w: nat)
    requires Inv(c, s) && Enabled(c, s, Take(w)) && s.queue[FirstOf(s.queue, w + 1)].id < 0
    ensures w < s.stops && IdsOf(Without(s.queue, FirstOf(s.queue, w + 1)), JobsOf(w)) == []
    ensures IdsOf(s.collected, ResultsOf(w)) + IdsOf(s.queue, ResultsOf(w)) == Assigned(c, w, s.sent)
  {
    TakeFindsFirst(c, s, w);
    StopIsLast(c, s, w);
  }

  lemma TakeStopKeepsTrail(c: Config, s: State, w: nat)
    requires Inv(c, s) && Enabled(c, s, Take(w)) && s.queue[FirstOf(s.queue, w + 1)].id < 0
    ensures var t := Apply(c, s, Take(w)); Trail(t, w) == Assigned(c, w, t.sent) + PendingStop(t, w)
  {
    var k := FirstOf(s.queue, w + 1);
    IdsOfWithoutOther(s.queue, k, ResultsOf(w));
    StopLeavesNothing(c, s, w);
    TrailOfExited(s.(queue := Without(s.queue, k), workers := s.workers[w := Exited]), w);
  }

  lemma TrailOfExited(t: State, w: nat)
    requires w < |t.workers| && t.workers[w] == Exited && IdsOf(t.queue, JobsOf(w)) == []
    ensures Trail(t, w) == IdsOf(t.collected, ResultsOf(w)) + IdsOf(t.queue, ResultsOf(w)) + PendingStop(t, w)
  {
    DropEmpty(IdsOf(t.collected, ResultsOf(w)), IdsOf(t.queue, ResultsOf(w)));
  }

  lemma DropEmpty(a: seq<int>, b: seq<int>)
    ensures a + b + [] + [] == (a + b) + []
  {}

  lemma TakeJobKeepsTrail(c: Config, s: State, w: nat)
    requires Inv(c, s) && Enabled(c, s, Take(w)) && s.queue[FirstOf(s.queue, w + 1)].id >= 0
    ensures var t := Apply(c, s, Take(w)); Trail(t, w) == Trail(s, w) && PendingStop(t, w) == PendingStop(s, w)
  {
    var t := Apply(c, s, Take(w));
    var k := FirstOf(s.queue, w + 1);
    IdsOfWithoutOther(s.queue, k, ResultsOf(w));
    TakeFindsFirst(c, s, w);
    var front := IdsOf(s.collected, ResultsOf(w)) + IdsOf(s.queue, ResultsOf(w));
    JoinHeld(front, s.queue[k].id, IdsOf(t.queue, JobsOf(w)));
  }

  lemma JoinHeld(front: seq<int>, x: int, rest: seq<int>)
    ensures front + [x] + rest == front + [] + ([x] + rest)
  {}

  lemma TakeKeepsTrail(c: Config, s: State, w: nat, v: nat)
    requires Inv(c, s) && Enabled(c, s, Take(w)) && v < c.workers
    ensures var t := Apply(c, s, Take(w)); Trail(t, v) == Assigned(c, v, t.sent) + PendingStop(t, v)
  {
    if v == w && s.queue[FirstOf(s.queue, w + 1)].id < 0 {
      TakeStopKeepsTrail(c, s, w);
    } else if v == w {
      TakeJobKeepsTrail(c, s, w);
    } else {
      TakeKeepsOtherTrail(c, s, w, v);
    }
  }

  lemma ShiftFirst(a: seq<int>, x: int, b: seq<int>, rest: seq<int>)
    ensures (a + [x]) + b + rest == a + ([x] + b) + rest
  {}

  lemma ShiftLast(a: seq<int>, b: seq<int>, x: int, rest: seq<int>)
    ensures a + (b + [x]) + [] + rest == a + b + [x] + rest
  {}

  lemma ExtendLast(front: seq<int>, b: seq<int>, x: int)
    ensures front + (b + [x]) == (front + b) + [x]
  {}

  lemma FirstResultIsItsWorkersFirst(c: Config, s: State)
    requires WellFormed(c) && MessagesFit(c, s) && Enabled(c, s, Collect)
    ensures var k := FirstOf(s.queue, RESULT_TYPE); var m := s.queue[k];
            && m.Result?
            && IdsOf(s.queue, ResultsOf(m.worker)) == [m.id] + IdsOf(Without(s.queue, k), ResultsOf(m.worker))
  {
    var k := FirstOf(s.queue, RESULT_TYPE);
    var m := s.queue[k];
    assert m in s.queue;
    forall j | 0 <= j < k ensures !Matches(s.queue[j], ResultsOf(m.worker)) {
      assert s.queue[j] in s.queue;
    }
    IdsOfWithoutFirst(s.queue, k, ResultsOf(m.worker));
  }

  lemma CollectKeepsTrail(c: Config, s: State, v: nat)
    requires WellFormed(c) && Inv(c, s) && Enabled(c, s, Collect) && v < c.workers
    ensures var t := Apply(c, s, Collect); Trail(t, v) == Trail(s, v)
  {
    var k := FirstOf(s.queue, RESULT_TYPE);
    var m := s.queue[k];
    FirstResultIsItsWorkersFirst(c, s);
    IdsOfAppend(s.collected, m, ResultsOf(v));
    IdsOfWithoutOther(s.queue, k, JobsOf(v));
    if m.worker == v {
      ShiftFirst(IdsOf(s.collected, ResultsOf(v)), m.id, IdsOf(Without(s.queue, k), ResultsOf(v)), HeldBy(s.workers[v]));
    } else {
      IdsOfWithoutOther(s.queue, k, ResultsOf(v));
    }
  }

  lemma JobExtendsTrail(s: State, m: Msg, v: nat)
    requires v < |s.workers| && m.Job?
    ensures Trail(s.(queue := s.queue + [m]), v) == Trail(s, v) + (if m.mtype == v + 1 then [m.id] else [])
  {
    IdsOfAppend(s.queue, m, JobsOf(v));
    IdsOfAppend(s.queue, m, ResultsOf(v));
    var front := IdsOf(s.collected, ResultsOf(v)) + IdsOf(s.queue, ResultsOf(v)) + HeldBy(s.workers[v]);
    ExtendLast(front, IdsOf(s.queue, JobsOf(v)), m.id);
  }

  lemma SendJobKeepsTrail(c: Config, s: State, v: nat)
    requires Inv(c, s) && Enabled(c, s, SendJob) && v < c.workers
    ensures var t := Apply(c, s, SendJob); Trail(t, v) == Assigned(c, v, t.sent) + PendingStop(t, v)
  {
    var t := Apply(c, s, SendJob);
    JobExtendsTrail(s, JobMsg(c, s.sent), v);
    assert Trail(t, v) == Trail(s.(queue := t.queue), v);
    assert PendingStop(s, v) == [] == PendingStop(t, v);
    assert Trail(s, v) == Assigned(c, v, s.sent);
  }

  lemma SendStopKeepsTrail(c: Config, s: State, v: nat)
    requires Inv(c, s) && Enabled(c, s, SendStop) && v < c.workers
    ensures var t := Apply(c, s, SendStop); Trail(t, v) == Assigned(c, v, t.sent) + PendingStop(t, v)
  {
    var t := Apply(c, s, SendStop);
    JobExtendsTrail(s, StopMsg(s.stops), v);
    assert Trail(t, v) == Trail(s.(queue := t.queue), v);
    if v == s.stops {
      assert PendingStop(s, v) == [] && PendingStop(t, v) == [-1];
      assert Trail(s, v) == Assigned(c, v, s.sent);
    }
  }

  lemma ReplyKeepsTrail(c: Config, s: State, w: nat, v: nat)
    requires Inv(c, s) && Enabled(c, s, Reply(w)) && v < c.workers
    ensures var t := Apply(c, s, Reply(w)); Trail(t, v) == Trail(s, v)
  {
    var m := ResultMsg(s.workers[w].id, s.workers[w].value, w);
    IdsOfAppend(s.queue, m, JobsOf(v));
    IdsOfAppend(s.queue, m, ResultsOf(v));
    if v == w {
      ShiftLast(IdsOf(s.collected, ResultsOf(v)), IdsOf(s.queue, ResultsOf(v)), m.id, IdsOf(s.queue, JobsOf(v)));
    }
  }

  lemma TrailsAreKept(c: Config, s: State, a: Action)
    requires WellFormed(c) && Inv(c, s) && Enabled(c, s, a)
    ensures var t := Apply(c, s, a); |t.workers| == c.workers && TrailsHold(c, t)
  {
    var t := Apply(c, s, a);
    forall v | 0 <= v < c.workers ensures Trail(t, v) == Assigned(c, v, t.sent) + PendingStop(t, v) {
      match a
      case Take(w) => TakeKeepsTrail(c, s, w, v);
      case Collect => CollectKeepsTrail(c, s, v);
      case Remove =>
      case SendJob => SendJobKeepsTrail(c, s, v);
      case SendStop => SendStopKeepsTrail(c, s, v);
      case Reply(w) => ReplyKeepsTrail(c, s, w, v);
    }
  }

  lemma SendKeepsBalance(c: Config, s: State, a: Action)
    requires WellFormed(c) && Inv(c, s) && Enabled(c, s, a)
    requires a.SendJob? || a.SendStop? || a.Reply?
    ensures Balanced(c, Apply(c, s, a))
  {
    var m := Apply(c, s, a).queue[|s.queue|];
    TotalAppend(IsWork, s.queue, m);
    TotalAppend(IsStop, s.queue, m);
    if a.Reply? {
      TotalUpdate(IsHolding, s.workers, a.w, Idle);
      TotalUpdate(HasExited, s.workers, a.w, Idle);
    }
  }

  lemma TakeMovesCounts(s: State, w: nat)
    requires CanReceive(s, w)
    ensures var t := Receiving(s, w);
            && Total(IsWork, t.queue) + Total(IsHolding, t.workers) == Total(IsWork, s.queue) + Total(IsHolding, s.workers)
            && Total(IsStop, t.queue) + Total(HasExited, t.workers) == Total(IsStop, s.queue) + Total(HasExited, s.workers)
  {
    var t := Receiving(s, w);
    var k := FirstOf(s.queue, w + 1);
    TotalRemove(IsWork, s.queue, k);
    TotalRemove(IsStop, s.queue, k);
    TotalUpdate(IsHolding, s.workers, w, t.workers[w]);
    TotalUpdate(HasExited, s.workers, w, t.workers[w]);
  }

  lemma TakeKeepsBalance(c: Config, s: State, w: nat)
    requires Inv(c, s) && Enabled(c, s, Take(w))
    ensures Balanced(c, Apply(c, s, Take(w)))
  {
    TakeMovesCounts(s, w);
    if s.queue[FirstOf(s.queue, w + 1)].id < 0 {
      StopLeavesNothing(c, s, w);
    }
    if s.removed {
      NoneLeftToTake(c, s, w);
    }
  }

  /** Once every worker has exited no worker can take anything. */
  lemma NoneLeftToTake(c: Config, s: State, w: nat)
    requires Inv(c, s) && s.removed && w < |s.workers|
    ensures s.workers[w].Exited?
  {
    if !s.workers[w].Exited? {
      TotalUpdate(HasExited, s.workers, w, Exited);
      TotalAtMost(HasExited, s.workers[w := Exited], 1);
    }
  }

  lemma {:induction false} AllExited(ws: seq<Worker>)
    requires forall w | 0 <= w < |ws| :: ws[w].Exited?
    ensures Total(HasExited, ws) == |ws|
  {
    TotalUniform(HasExited, ws, 1);
  }

  lemma StepKeepsInv(c: Config, s: State, a: Action)
    requires WellFormed(c) && Inv(c, s) && Enabled(c, s, a)
    ensures Inv(c, Apply(c, s, a))
  {
    FitIsKept(c, s, a);
    TrailsAreKept(c, s, a);
    match a
    case Take(w) => TakeKeepsBalance(c, s, w);
    case Collect =>
      var k := FirstOf(s.queue, RESULT_TYPE);
      assert s.queue[k] in s.queue;
      TotalRemove(IsWork, s.queue, k);
      TotalRemove(IsStop, s.queue, k);
    case Remove => AllExited(s.workers);
    case _ => SendKeepsBalance(c, s, a);
  }

  lemma StartHoldsInv(c: Config)
    requires c.workers > 0
    ensures Inv(c, Start(c))
  {
    TotalZero(IsHolding, Start(c).workers);
    TotalZero(HasExited, Start(c).workers);
  }

  lemma InvIsInductive(c: Config)
    requires WellFormed(c)
    ensures Inductive(Pool(c), x => Inv(c, x))
  {
    StartHoldsInv(c);
    forall s, t | Inv(c, s) && Next(c, s, t) ensures Inv(c, t) {
      var a :| Enabled(c, s, a) && t == Apply(c, s, a);
      StepKeepsInv(c, s, a);
    }
  }

  lemma ReachableHoldsInv(c: Config, s: State)
    requires WellFormed(c) && Reachable(Pool(c), s)
    ensures Inv(c, s)
  {
    InvIsInductive(c);
    InvariantWhenReachable(Pool(c), x => Inv(c, x), s);
  }

  // ----- where each job is -----

  lemma {:induction false} AssignedCounts(c: Config, w: nat, n: nat, id: int)
    requires c.workers > 0
    ensures multiset(Assigned(c, w, n))[id] == if 1 <= id <= n && WorkerOf(c, id - 1) == w then 1 else 0
  {
    if n > 0 {
      var last := if WorkerOf(c, n - 1) == w then [n] else [];
      AssignedCounts(c, w, n - 1, id);
      CountInJoin(Assigned(c, w, n - 1), last, id);
      assert multiset(last)[id] == if id == n && WorkerOf(c, n - 1) == w then 1 else 0;
    }
  }

  /** The ids are w + 1, w + 1 + WORKERS, w + 1 + 2 * WORKERS and so on, as far as n goes. */
  ghost predicate InTurn(workers: nat, w: nat, n: nat, ids: seq<int>)
    requires workers > 0
  {
    && |ids| == n / workers + (if w < n % workers then 1 else 0)
    && forall k | 0 <= k < |ids| :: ids[k] == k * workers + w + 1
  }

  lemma InTurnHit(workers: nat, w: nat, n: nat, ids: seq<int>)
    requires w < workers && InTurn(workers, w, n, ids) && n % workers == w
    ensures InTurn(workers, w, n + 1, ids + [n + 1])
  {
    NextRemainder(n, workers);
    assert n == (n / workers) * workers + n % workers;
  }

  lemma InTurnMiss(workers: nat, w: nat, n: nat, ids: seq<int>)
    requires w < workers && InTurn(workers, w, n, ids) && n % workers != w
    ensures InTurn(workers, w, n + 1, ids)
  {
    NextRemainder(n, workers);
  }

  lemma InTurnStep(workers: nat, w: nat, n: nat, ids: seq<int>, more: seq<int>)
    requires w < workers && InTurn(workers, w, n, ids)
    requires more == if n % workers == w then [n + 1] else []
    ensures InTurn(workers, w, n + 1, ids + more)
  {
    if more == [] {
      InTurnMiss(workers, w, n, ids);
      assert ids + more == ids;
    } else {
      InTurnHit(workers, w, n, ids);
    }
  }

  lemma {:induction false} AssignedInTurn(c: Config, w: nat, n: nat)
    requires w < c.workers
    ensures InTurn(c.workers, w, n, Assigned(c, w, n))
  {
    if n > 0 {
      AssignedInTurn(c, w, n - 1);
      InTurnStep(c.workers, w, n - 1, Assigned(c, w, n - 1), if WorkerOf(c, n - 1) == w then [n] else []);
    }
  }

  /** The ids given to worker w, one by one and how many. */
  lemma AssignedInClosedForm(c: Config, w: nat, n: nat)
    requires w < c.workers
    ensures |Assigned(c, w, n)| == n / c.workers + if w < n % c.workers then 1 else 0
    ensures forall k | 0 <= k < |Assigned(c, w, n)| :: Assigned(c, w, n)[k] == k * c.workers + w + 1
  {
    AssignedInTurn(c, w, n);
  }

  /** Every sent job is in exactly one place - collected, queued as a result, held, or queued as
      a job - and only on the way of the worker it was given to. */
  lemma EveryJobIsInOnePlace(c: Config, s: State, w: nat, id: int)
    requires WellFormed(c) && Reachable(Pool(c), s) && w < c.workers
    ensures |s.workers| == c.workers
    ensures id >= 0 ==> multiset(Trail(s, w))[id] == if 1 <= id <= s.sent && (id - 1) % c.workers == w then 1 else 0
  {
    ReachableHoldsInv(c, s);
    AssignedCounts(c, w, s.sent, id);
    assert Trail(s, w) == Assigned(c, w, s.sent) + PendingStop(s, w);
  }

  /** Results of one worker are collected in the order its jobs were sent. */
  lemma CollectedInOrder(c: Config, s: State, w: nat)
    requires WellFormed(c) && Reachable(Pool(c), s) && w < c.workers
    ensures IdsOf(s.collected, ResultsOf(w)) <= Assigned(c, w, s.sent)
    ensures forall k | 0 <= k < |IdsOf(s.collected, ResultsOf(w))| ::
              IdsOf(s.collected, ResultsOf(w))[k] == k * c.workers + w + 1
  {
    AssignedInClosedForm(c, w, s.sent);
    ReachableHoldsInv(c, s);
    var front, given, stop := IdsOf(s.collected, ResultsOf(w)), Assigned(c, w, s.sent), PendingStop(s, w);
    assert front <= Trail(s, w) == given + stop;
    forall i | 0 <= i < |front| ensures front[i] > 0 {
      IdsArePositive(c, s.collected, w, i);
    }
    PositivePrefix(front, given, stop);
  }

  lemma PositivePrefix(front: seq<int>, given: seq<int>, stop: seq<int>)
    requires front <= given + stop && forall i | 0 <= i < |front| :: front[i] > 0
    requires forall i | 0 <= i < |stop| :: stop[i] < 0
    ensures front <= given
  {
    var all := given + stop;
    assert |given| < |all| ==> all[|given|] < 0;
    assert forall i | 0 <= i < |front| :: all[i] > 0;
    assert |front| <= |given|;
    assert front == all[..|front|];
  }

  lemma {:induction false} IdsArePositive(c: Config, ms: seq<Msg>, w: nat, i: nat)
    requires c.workers > 0 && i < |IdsOf(ms, ResultsOf(w))| && forall m | m in ms :: MsgFits(c, m)
    ensures IdsOf(ms, ResultsOf(w))[i] > 0
  {
    if Matches(ms[0], ResultsOf(w)) && i == 0 {
      assert ms[0] in ms;
    } else {
      IdsArePositive(c, ms[1..], w, if Matches(ms[0], ResultsOf(w)) then i - 1 else i);
    }
  }

  /** A worker that has seen its stop has answered all its jobs, and they are collected. */
  lemma StopComesAfterAllJobs(c: Config, s: State, w: nat)
    requires WellFormed(c) && Reachable(Pool(c), s) && w < |s.workers| && s.workers[w].Exited?
    ensures w < c.workers && IdsOf(s.collected, ResultsOf(w)) == Assigned(c, w, c.jobs)
    ensures |IdsOf(s.collected, ResultsOf(w))| == c.jobs / c.workers + if w < c.jobs % c.workers then 1 else 0
  {
    ReachableHoldsInv(c, s);
    NoWorkQueued(c, s, w);
    AssignedInTurn(c, w, c.jobs);
    assert Trail(s, w) == Assigned(c, w, s.sent) + PendingStop(s, w);
  }

  lemma {:induction false} NoResultIds(ms: seq<Msg>, w: nat)
    requires Total(IsWork, ms) == 0
    ensures IdsOf(ms, ResultsOf(w)) == [] && forall i | 0 <= i < |IdsOf(ms, JobsOf(w))| :: IdsOf(ms, JobsOf(w))[i] < 0
  {
    if ms != [] {
      NoResultIds(ms[1..], w);
    }
  }

  lemma TrailWhenQuiet(s: State, w: nat)
    requires w < |s.workers| && HeldBy(s.workers[w]) == [] && IdsOf(s.queue, ResultsOf(w)) == []
    ensures Trail(s, w) == IdsOf(s.collected, ResultsOf(w)) + IdsOf(s.queue, JobsOf(w))
  {
    var done := IdsOf(s.collected, ResultsOf(w));
    assert done + [] + [] == done;
  }

  lemma QuietWhenCollected(c: Config, s: State, w: nat)
    requires Inv(c, s) && AllCollected(c, s) && w < c.workers
    ensures HeldBy(s.workers[w]) == [] && IdsOf(s.queue, ResultsOf(w)) == []
    ensures forall i | 0 <= i < |IdsOf(s.queue, JobsOf(w))| :: IdsOf(s.queue, JobsOf(w))[i] < 0
  {
    NoResultIds(s.queue, w);
    TotalAtLeast(IsHolding, s.workers, w);
  }

  lemma NoWorkQueued(c: Config, s: State, w: nat)
    requires Inv(c, s) && AllCollected(c, s) && w < c.workers
    ensures HeldBy(s.workers[w]) == [] && IdsOf(s.queue, ResultsOf(w)) == []
    ensures IdsOf(s.collected, ResultsOf(w)) == Assigned(c, w, c.jobs)
    ensures IdsOf(s.queue, JobsOf(w)) == PendingStop(s, w)
  {
    QuietWhenCollected(c, s, w);
    TrailWhenQuiet(s, w);
    var done, jobs := IdsOf(s.collected, ResultsOf(w)), IdsOf(s.queue, JobsOf(w));
    AssignedIsPositive(c, w, c.jobs);
    forall i | 0 <= i < |done| ensures done[i] > 0 {
      IdsArePositive(c, s.collected, w, i);
    }
    SplitBySign(done, jobs, Assigned(c, w, c.jobs), PendingStop(s, w));
  }

  lemma SplitBySign(a: seq<int>, b: seq<int>, a': seq<int>, b': seq<int>)
    requires a + b == a' + b'
    requires forall i | 0 <= i < |a| :: a[i] > 0
    requires forall i | 0 <= i < |a'| :: a'[i] > 0
    requires forall i | 0 <= i < |b| :: b[i] < 0
    requires forall i | 0 <= i < |b'| :: b'[i] < 0
    ensures a == a' && b == b'
  {
    var all := a + b;
    assert |a| < |all| ==> all[|a|] < 0;
    assert |a'| < |all| ==> all[|a'|] < 0;
    assert forall i | 0 <= i < |a| :: all[i] > 0;
    assert forall i | 0 <= i < |a'| :: all[i] > 0;
    assert |a| == |a'|;
    assert a == (a + b)[..|a|] && a' == (a' + b')[..|a'|];
    assert b == (a + b)[|a|..] && b' == (a' + b')[|a'|..];
  }

  function AllIds(ms: seq<Msg>): seq<int> {
    if ms == [] then [] else [ms[0].id] + AllIds(ms[1..])
  }

  lemma CountInJoin(a: seq<int>, b: seq<int>, id: int)
    ensures multiset(a + b)[id] == multiset(a)[id] + multiset(b)[id]
  {}

  /** A job's result can only come from the worker it was given to. */
  lemma ResultCountsAtWorker(c: Config, m: Msg, id: nat)
    requires c.workers > 0 && id >= 1 && m.Result? && MsgFits(c, m)
    ensures multiset([m.id])[id] == multiset(if Matches(m, ResultsOf(WorkerOf(c, id - 1))) then [m.id] else [])[id]
  {}

  lemma {:induction false} IdsByWorker(c: Config, ms: seq<Msg>, id: nat)
    requires c.workers > 0 && id >= 1 && forall m | m in ms :: m.Result? && MsgFits(c, m)
    ensures multiset(AllIds(ms))[id] == multiset(IdsOf(ms, ResultsOf(WorkerOf(c, id - 1))))[id]
  {
    if ms != [] {
      var key := ResultsOf(WorkerOf(c, id - 1));
      assert ms[0] in ms;
      ResultCountsAtWorker(c, ms[0], id);
      IdsByWorker(c, ms[1..], id);
      CountInJoin([ms[0].id], AllIds(ms[1..]), id);
      CountInJoin(if Matches(ms[0], key) then [ms[0].id] else [], IdsOf(ms[1..], key), id);
    }
  }

  /** When the queue is removed it is empty, every worker has exited, and every job has been
      collected exactly once, with the square of its value. */
  lemma EveryJobIsCollectedOnce(c: Config, s: State)
    requires WellFormed(c) && Reachable(Pool(c), s) && s.removed
    ensures s.queue == [] && |s.collected| == c.jobs
    ensures forall w | 0 <= w < |s.workers| :: s.workers[w].Exited?
    ensures forall id: nat | 1 <= id <= c.jobs :: multiset(AllIds(s.collected))[id] == 1
    ensures forall m | m in s.collected ::
              1 <= m.id && m == Result(100, m.id, m.id + 1, (m.id + 1) * (m.id + 1), (m.id - 1) % c.workers)
  {
    ReachableHoldsInv(c, s);
    forall w | 0 <= w < |s.workers| ensures s.workers[w].Exited? {
      NoneLeftToTake(c, s, w);
    }
    QueueLength(s.queue);
    forall id: nat | 1 <= id <= c.jobs ensures multiset(AllIds(s.collected))[id] == 1 {
      IdsByWorker(c, s.collected, id);
      NoWorkQueued(c, s, WorkerOf(c, id - 1));
      AssignedCounts(c, WorkerOf(c, id - 1), c.jobs, id);
    }
  }

  // ----- capacity decides whether the pool can deadlock -----

  lemma {:induction false} QueueLength(ms: seq<Msg>)
    ensures |ms| == Total(IsWork, ms) + Total(IsStop, ms)
  {
    if ms != [] {
      QueueLength(ms[1..]);
    }
  }

  lemma {:induction false} IdsOfHasMatch(ms: seq<Msg>, w: nat)
    requires IdsOf(ms, JobsOf(w)) != []
    ensures FirstOf(ms, w + 1) < |ms|
  {
    if !Matches(ms[0], JobsOf(w)) {
      IdsOfHasMatch(ms[1..], w);
    }
  }

  lemma {:induction false} HasIdsOf(ms: seq<Msg>, k: nat, w: nat)
    requires k < |ms| && Matches(ms[k], JobsOf(w))
    ensures IdsOf(ms, JobsOf(w)) != []
  {
    if k > 0 {
      HasIdsOf(ms[1..], k - 1, w);
    }
  }

  lemma CanTake(c: Config, s: State, w: nat)
    requires WellFormed(c) && Inv(c, s) && w < c.workers && s.workers[w].Idle? && FirstOf(s.queue, w + 1) < |s.queue|
    ensures Enabled(c, s, Take(w))
  {
    assert s.queue[FirstOf(s.queue, w + 1)] in s.queue;
  }

  lemma CollectingMoves(c: Config, s: State) returns (a: Action)
    requires WellFormed(c) && Inv(c, s) && c.capacity >= c.jobs && Collecting(c, s)
    ensures Enabled(c, s, a)
  {
    QueueLength(s.queue);
    if FirstOf(s.queue, RESULT_TYPE) < |s.queue| {
      a := Collect;
    } else if Total(IsHolding, s.workers) > 0 {
      var w := TotalWitness(IsHolding, s.workers);
      a := Reply(w);
    } else {
      var m := s.queue[0];
      assert m in s.queue && m.Job?;
      var w := m.mtype - 1;
      TotalAtLeast(IsHolding, s.workers, w);
      assert s.workers[w].Idle?;
      assert FirstOf(s.queue, w + 1) == 0;
      a := Take(w);
    }
  }

  lemma StoppingMoves(c: Config, s: State) returns (a: Action)
    requires WellFormed(c) && Inv(c, s) && AllCollected(c, s) && !s.removed
    ensures Enabled(c, s, a)
  {
    if forall w | 0 <= w < |s.workers| :: s.workers[w].Exited? {
      AllExited(s.workers);
      a := Remove;
    } else {
      var w: nat :| w < |s.workers| && !s.workers[w].Exited?;
      NoWorkQueued(c, s, w);
      assert s.workers[w].Idle?;
      if w < s.stops {
        IdsOfHasMatch(s.queue, w);
        CanTake(c, s, w);
        a := Take(w);
      } else if |s.queue| < c.capacity {
        a := SendStop;
      } else {
        var v := s.queue[0].mtype - 1;
        assert s.queue[0] in s.queue;
        HasIdsOf(s.queue, 0, v);
        NoWorkQueued(c, s, v);
        assert s.workers[v].Idle?;
        CanTake(c, s, v);
        a := Take(v);
      }
    }
  }

  /** With room for all jobs, some process can always move until the queue is removed. */
  lemma PoolMoves(c: Config, s: State) returns (a: Action)
    requires WellFormed(c) && c.capacity >= c.jobs && Reachable(Pool(c), s) && !s.removed
    ensures Enabled(c, s, a)
  {
    ReachableHoldsInv(c, s);
    QueueLength(s.queue);
    if s.sent < c.jobs {
      a := SendJob;
    } else if Collecting(c, s) {
      a := CollectingMoves(c, s);
    } else {
      a := StoppingMoves(c, s);
    }
  }

  /** The results of jobs 0..m-1, queued in that order. */
  function Results(c: Config, m: nat): (r: seq<Msg>)
    requires c.workers > 0
    ensures |r| == m && forall i | 0 <= i < m :: r[i].Result? && r[i].mtype == RESULT_TYPE
  {
    if m == 0 then [] else Results(c, m - 1) + [ResultMsg(m, m + 1, WorkerOf(c, m - 1))]
  }

  /** m jobs sent and answered, nothing collected. */
  function Answered(c: Config, m: nat): State
    requires c.workers > 0
  {
    State(Results(c, m), seq(c.workers, _ => Idle), m, [], 0, false)
  }

  lemma {:induction false} AnsweredIsReachable(c: Config, m: nat)
    requires WellFormed(c) && m <= c.capacity && m <= c.jobs
    ensures Reachable(Pool(c), Answered(c, m))
  {
    if m == 0 {
      StartIsReachable(Pool(c));
    } else {
      AnsweredIsReachable(c, m - 1);
      AnswerOneMore(c, m - 1);
    }
  }

  /** As Answered, with one more job sent and taken. */
  function TakenNext(c: Config, m: nat): State
    requires c.workers > 0
  {
    var s := Answered(c, m);
    s.(sent := m + 1, workers := s.workers[WorkerOf(c, m) := Holding(m + 1, m + 2)])
  }

  lemma TakeOneMore(c: Config, m: nat)
    requires WellFormed(c) && m < c.capacity && m < c.jobs && Reachable(Pool(c), Answered(c, m))
    ensures Reachable(Pool(c), TakenNext(c, m))
  {
    var w, job := WorkerOf(c, m), JobMsg(c, m);
    var t := OneStep(c, Answered(c, m), SendJob);
    FirstBehindResults(c, m, job, w + 1);
    WithoutLast(Results(c, m), job);
    t := OneStep(c, t, Take(w));
  }

  lemma WithoutLast(ms: seq<Msg>, m: Msg)
    ensures (ms + [m])[|ms|] == m && Without(ms + [m], |ms|) == ms
  {}

  /** Send one job, let its worker take it, let the worker answer. */
  lemma AnswerOneMore(c: Config, m: nat)
    requires WellFormed(c) && m < c.capacity && m < c.jobs && Reachable(Pool(c), Answered(c, m))
    ensures Reachable(Pool(c), Answered(c, m + 1))
  {
    TakeOneMore(c, m);
    var t := OneStep(c, TakenNext(c, m), Reply(WorkerOf(c, m)));
    assert t.workers == Answered(c, m + 1).workers;
  }

  lemma FirstBehindResults(c: Config, m: nat, job: Msg, mtype: nat)
    requires c.workers > 0 && job.mtype == mtype != RESULT_TYPE
    ensures FirstOf(Results(c, m) + [job], mtype) == m
  {
    var queue := Results(c, m) + [job];
    assert queue[m].mtype == mtype;
    assert forall k | 0 <= k < m :: queue[k].mtype == RESULT_TYPE;
  }

  lemma OneStep(c: Config, s: State, a: Action) returns (t: State)
    requires c.workers > 0 && Reachable(Pool(c), s) && Enabled(c, s, a)
    ensures t == Apply(c, s, a) && Reachable(Pool(c), t)
  {
    t := Apply(c, s, a);
    StepIsReachable(Pool(c), s, t);
  }

  /** With less room than jobs, the parent blocks on a full queue of results it does not yet
      collect, and no worker has a job. */
  lemma FullOfResultsIsStuck(c: Config)
    requires WellFormed(c) && c.capacity < c.jobs
    ensures Reachable(Pool(c), Answered(c, c.capacity)) && Stuck(Pool(c), Answered(c, c.capacity))
  {
    AnsweredIsReachable(c, c.capacity);
    forall t ensures !Next(c, Answered(c, c.capacity), t) {
      forall a ensures !Enabled(c, Answered(c, c.capacity), a) {
      }
    }
  }

  /** The pool has no reachable deadlock if and only if the queue holds all the jobs at once. */
  lemma CapacityIsTight(c: Config)
    requires WellFormed(c)
    ensures (forall s :: Reachable(Pool(c), s) && Stuck(Pool(c), s) ==> s.removed) <==> c.capacity >= c.jobs
  {
    if c.capacity >= c.jobs {
      forall s | Reachable(Pool(c), s) && !s.removed ensures !Stuck(Pool(c), s) {
        var a := PoolMoves(c, s);
        assert Pool(c).next(s, Apply(c, s, a));
      }
    } else {
      FullOfResultsIsStuck(c);
    }
  }

  // ----- every run ends -----

  function Weight(m: Msg): nat { if m.Result? || m.id < 0 then 1 else 3 }

  function Burden(x: Worker): nat { if x.Holding? then 2 else 0 }

  /** Steps left, exactly: four per unsent job, fewer the further a job has come. */
  function StepsLeft(c: Config, s: State): nat {
    (if s.sent < c.jobs then 4 * (c.jobs - s.sent) else 0) + Total(Weight, s.queue) + Total(Burden, s.workers)
    + (if s.stops < c.workers then 2 * (c.workers - s.stops) else 0) + (if s.removed then 0 else 1)
  }

  lemma TakeLowersWeight(s: State, w: nat)
    requires CanReceive(s, w)
    ensures var t := Receiving(s, w);
            Total(Weight, t.queue) + Total(Burden, t.workers) + 1 == Total(Weight, s.queue) + Total(Burden, s.workers)
  {
    var t := Receiving(s, w);
    TotalRemove(Weight, s.queue, FirstOf(s.queue, w + 1));
    TotalUpdate(Burden, s.workers, w, t.workers[w]);
    assert Burden(t.workers[w]) + 1 == Weight(s.queue[FirstOf(s.queue, w + 1)]);
  }

  lemma ReplyLowersStepsLeft(c: Config, s: State, w: nat)
    requires c.workers > 0 && Enabled(c, s, Reply(w))
    ensures StepsLeft(c, Apply(c, s, Reply(w))) + 1 == StepsLeft(c, s)
  {
    TotalAppend(Weight, s.queue, ResultMsg(s.workers[w].id, s.workers[w].value, w));
    TotalUpdate(Burden, s.workers, w, Idle);
  }

  lemma StepLowersStepsLeft(c: Config, s: State, a: Action)
    requires WellFormed(c) && MessagesFit(c, s) && Enabled(c, s, a)
    ensures StepsLeft(c, Apply(c, s, a)) + 1 == StepsLeft(c, s)
  {
    match a
    case SendJob => TotalAppend(Weight, s.queue, JobMsg(c, s.sent));
    case SendStop => TotalAppend(Weight, s.queue, StopMsg(s.stops));
    case Collect =>
      assert s.queue[FirstOf(s.queue, RESULT_TYPE)] in s.queue;
      TotalRemove(Weight, s.queue, FirstOf(s.queue, RESULT_TYPE));
    case Remove =>
    case Take(w) => TakeLowersWeight(s, w);
    case Reply(w) => ReplyLowersStepsLeft(c, s, w);
  }

  lemma StepStaysReachable(c: Config, s: State, a: Action)
    requires WellFormed(c) && Reachable(Pool(c), s) && Enabled(c, s, a)
    ensures Reachable(Pool(c), Apply(c, s, a)) && StepsLeft(c, Apply(c, s, a)) < StepsLeft(c, s)
  {
    ReachableHoldsInv(c, s);
    StepLowersStepsLeft(c, s, a);
    StepIsReachable(Pool(c), s, Apply(c, s, a));
  }

  /** Whatever the capacity, no run has more than four steps per job, two per worker, and one. */
  lemma PoolRunsAreBounded(c: Config, run: seq<State>)
    requires WellFormed(c) && IsRun(Pool(c), run)
    ensures |run| - 1 <= 4 * c.jobs + 2 * c.workers + 1
  {
    InvIsInductive(c);
    forall s, t | Inv(c, s) && Next(c, s, t) ensures StepsLeft(c, t) < StepsLeft(c, s) {
      var a :| Enabled(c, s, a) && t == Apply(c, s, a);
      StepLowersStepsLeft(c, s, a);
    }
    RunsAreBounded(Pool(c), x => Inv(c, x), x => StepsLeft(c, x), run);
    TotalZero(Burden, Start(c).workers);
  }

  // ----- the queue as the kernel object the processes share -----

  class MessageQueue {
    const capacity: nat
    var messages: seq<Msg>

    constructor (capacity: nat)
      ensures this.capacity == capacity && messages == []
    {
      this.capacity, this.messages := capacity, [];
    }

    /** `msgsnd`, once there is room. */
    method Send(m: Msg)
      requires |messages| < capacity
      modifies this
      ensures messages == old(messages) + [m]
    {
      messages := messages + [m];
    }

    /** `msgrcv` with a positive type, once such a message is there: the first one leaves. */
    method Receive(mtype: nat) returns (m: Msg)
      requires exists k :: 0 <= k < |messages| && messages[k].mtype == mtype
      modifies this
      ensures var k := FirstOf(old(messages), mtype);
              k < |old(messages)| && m == old(messages)[k] && messages == Without(old(messages), k)
    {
      var k := 0;
      while messages[k].mtype != mtype
        invariant 0 <= k < |messages|
        invariant forall j | 0 <= j < k :: messages[j].mtype != mtype
        decreases |messages| - k
      {
        k := k + 1;
      }
      FirstIsUnique(messages, mtype, k);
      m := messages[k];
      messages := messages[..k] + messages[k + 1..];
    }
  }

  lemma FirstIsUnique(ms: seq<Msg>, mtype: nat, k: nat)
    requires k < |ms| && ms[k].mtype == mtype && forall j | 0 <= j < k :: ms[j].mtype != mtype
    ensures FirstOf(ms, mtype) == k
  {}

  /** The parent, its workers and the queue they share. */
  class Program {
    const config: Config
    const queue: MessageQueue
    var workers: seq<Worker>
    var sent: nat
    var collected: seq<Msg>
    var stops: nat
    var removed: bool

    function View(): State
      reads this, queue
    {
      State(queue.messages, workers, sent, collected, stops, removed)
    }

    constructor (config: Config)
      ensures this.config == config && queue.capacity == config.capacity && fresh(queue)
      ensures View() == Start(config)
    {
      this.config := config;
      queue := new MessageQueue(config.capacity);
      workers := seq(config.workers, _ => Idle);
      sent, collected, stops, removed := 0, [], 0, false;
    }

    /** One `msgsnd` or `msgrcv` of the parent, or the removal of the queue. */
    method StepParent(a: Action)
      requires config.workers > 0 && queue.capacity == config.capacity && Enabled(config, View(), a)
      requires !a.Take? && !a.Reply?
      modifies this, queue
      ensures View() == Apply(config, old(View()), a)
      ensures a == SendJob ==>
                queue.messages
                == old(queue.messages) + [Job(old(sent) % config.workers + 1, old(sent) + 1, old(sent) + 2)]
      ensures a == SendStop ==> queue.messages == old(queue.messages) + [Job(old(stops) + 1, -1, 0)]
    {
      match a
      case SendJob =>
        queue.Send(JobMsg(config, sent));
        sent := sent + 1;
      case Collect =>
        var m := queue.Receive(RESULT_TYPE);
        collected := collected + [m];
      case SendStop =>
        queue.Send(StopMsg(stops));
        stops := stops + 1;
      case Remove => removed := true;
    }

    /** One `msgrcv` or `msgsnd` of worker w. */
    method StepWorker(a: Action)
      requires config.workers > 0 && queue.capacity == config.capacity && Enabled(config, View(), a)
      requires a.Take? || a.Reply?
      modifies this, queue
      ensures View() == Apply(config, old(View()), a)
    {
      match a
      case Take(w) =>
        var job := queue.Receive(w + 1);
        workers := workers[w := if job.id < 0 then Exited else Holding(job.id, job.value)];
      case Reply(w) =>
        queue.Send(ResultMsg(workers[w].id, workers[w].value, w));
        workers := workers[w := Idle];
    }
  }

  /** The whole program under any scheduler, with room for all jobs: it ends, and the parent has
      collected every job once with the square of its value. */
  method RunPool(c: Config) returns (collected: seq<Msg>)
    requires WellFormed(c) && c.capacity >= c.jobs
    ensures |collected| == c.jobs
    ensures forall id: nat | 1 <= id <= c.jobs :: multiset(AllIds(collected))[id] == 1
    ensures forall m | m in collected :: m.Result? && m.value == m.id + 1 && m.result == m.value * m.value
    ensures forall m | m in collected :: m.Result? && m.worker == (m.id - 1) % c.workers
  {
    var program := new Program(c);
    StartIsReachable(Pool(c));
    while !program.removed
      invariant Reachable(Pool(c), program.View())
      decreases StepsLeft(c, program.View())
    {
      var some := PoolMoves(c, program.View());
      var a :| Enabled(c, program.View(), a);
      StepStaysReachable(c, program.View(), a);
      if a.Take? || a.Reply? {
        program.StepWorker(a);
      } else {
        program.StepParent(a);
      }
    }
    EveryJobIsCollectedOnce(c, program.View());
    collected := program.collected;
  }
}
