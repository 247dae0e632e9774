/** Signals/sigchld_supervisor.c: a supervisor restarts its worker a limited number of times. The
    SIGCHLD handler writes a byte into a pipe; the main loop polls the pipe, drains it, and asks
    `waitpid` about the current worker without blocking.

    Assumed of Linux: pending SIGCHLDs coalesce; a handler that runs while `poll` is blocked makes
    `poll` fail with EINTR in spite of SA_RESTART. */
module Supervisor {
  import opened StepSystems
  import opened Totals

  /** The restart limit, and a bound on the SIGCHLDs that come from elsewhere. */
  datatype Config = Config(limit: nat, spurious: nat)

  datatype Child = Running | Dead | Reaped

  /** AtPoll: about to call `poll`; Blocked: inside it with nothing to read; Draining: `poll` said
      ready; Waiting: about to call `waitpid`. */
  datatype Pc = AtPoll | Blocked | Draining | Waiting | Done | Died

  /** `children[k]` was started for attempt k; `statuses` are the exit statuses printed so far. */
  datatype State = State(
    pc: Pc, attempt: nat, children: seq<Child>, pending: bool, pipe: nat, statuses: seq<nat>, spurious: nat)

  /** ChildExits and Spurious raise SIGCHLD; Handler delivers it; TimesOut ends a blocked poll; the
      rest are the supervisor's own calls. */
  datatype Action = ChildExits(k: nat) | Spurious | Handler | Poll | TimesOut | Drain | WaitPid

  const DRAIN_SIZE: nat := 8

  /** `WEXITSTATUS` of a worker that exits with 30 + attempt: the low eight bits. */
  function ExitStatus(attempt: nat): nat {
    (30 + attempt) % 256
  }

  function Start(c: Config): State {
    State(AtPoll, 0, [Running], false, 0, [], c.spurious)
  }

  predicate Enabled(s: State, a: Action) {
    match a
    case ChildExits(k) => k < |s.children| && s.children[k] == Running
    case Spurious => s.spurious > 0 && s.pc != Done && s.pc != Died
    case Handler => s.pending && s.pc != Done && s.pc != Died
    case Poll => s.pc == AtPoll
    case TimesOut => s.pc == Blocked
    case Drain => s.pc == Draining
    case WaitPid => s.pc == Waiting && s.attempt < |s.children|
  }

  function Apply(c: Config, s: State, a: Action): State
    requires Enabled(s, a)
  {
    match a
    case ChildExits(k) => s.(children := s.children[k := Dead], pending := true)
    case Spurious => s.(pending := true, spurious := s.spurious - 1)
    case Handler => s.(pending := false, pipe := s.pipe + 1, pc := if s.pc == Blocked then Died else s.pc)
    case Poll => s.(pc := if s.pipe > 0 then Draining else Blocked)
    case TimesOut => s.(pc := Died)
    case Drain => s.(pipe := if s.pipe < DRAIN_SIZE then 0 else s.pipe - DRAIN_SIZE, pc := Waiting)
    case WaitPid =>
      if s.children[s.attempt] != Dead then s.(pc := AtPoll) else
      var reaped := s.children[s.attempt := Reaped];
      var next := s.attempt + 1;
      s.(attempt := next, statuses := s.statuses + [ExitStatus(s.attempt)],
         children := if next < c.limit then reaped + [Running] else reaped,
         pc := if next < c.limit then AtPoll else Done)
  }

  ghost predicate Next(c: Config, s: State, t: State) {
    exists a :: Enabled(s, a) && t == Apply(c, s, a)
  }

  /** Everything that can happen from the state s on. */
  ghost function From(c: Config, s: State): System<State> {
    System(s, (x, y) => Next(c, x, y))
  }

  ghost function Supervision(c: Config): System<State> {
    From(c, Start(c))
  }

  ghost predicate WorkersFit(c: Config, s: State) {
    && (if s.pc == Done then s.attempt == |s.children| == c.limit
        else s.attempt < c.limit && |s.children| == s.attempt + 1 && s.children[s.attempt] != Reaped)
    && (forall k | 0 <= k < s.attempt :: s.children[k] == Reaped)
    && |s.statuses| == s.attempt && (forall k | 0 <= k < s.attempt :: s.statuses[k] == (30 + k) % 256)
  }

  /** Outside the window from draining to `waitpid`, a dead worker has left a trace. */
  ghost predicate WakeupIsKept(s: State) {
    && (s.pc != Waiting ==>
          forall k | 0 <= k < |s.children| :: s.children[k] == Dead ==> s.pending || s.pipe > 0)
    && (s.pc == Blocked ==> s.pipe == 0)
    && (s.pc == Draining ==> s.pipe > 0)
  }

  ghost predicate Inv(c: Config, s: State) {
    WorkersFit(c, s) && WakeupIsKept(s)
  }

  lemma StepKeepsInv(c: Config, s: State, a: Action)
    requires Inv(c, s) && Enabled(s, a)
    ensures Inv(c, Apply(c, s, a))
  {}

  lemma InvIsInductive(c: Config, s: State)
    requires Inv(c, s)
    ensures Inductive(From(c, s), x => Inv(c, x))
  {
    forall x, y | Inv(c, x) && Next(c, x, y) ensures Inv(c, y) {
      var a :| Enabled(x, a) && y == Apply(c, x, a);
      StepKeepsInv(c, x, a);
    }
  }

  lemma ReachableHoldsInv(c: Config, s: State)
    requires c.limit > 0 && Reachable(Supervision(c), s)
    ensures Inv(c, s)
  {
    InvIsInductive(c, Start(c));
    InvariantWhenReachable(Supervision(c), x => Inv(c, x), s);
  }

  /** Outside the window from draining to `waitpid`, an unreaped dead worker has a SIGCHLD pending
      or a byte in the pipe, whatever other SIGCHLDs came or were merged. */
  lemma NoWakeupIsLost(c: Config, s: State, k: nat)
    requires c.limit > 0 && Reachable(Supervision(c), s) && k < |s.children| && s.children[k] == Dead
    requires s.pc != Waiting
    ensures s.pending || s.pipe > 0
  {
    ReachableHoldsInv(c, s);
  }

  /** There is never a second worker beside an unreaped one, and workers are reaped in order. */
  lemma OneWorkerAtATime(c: Config, s: State)
    requires c.limit > 0 && Reachable(Supervision(c), s)
    ensures |s.children| <= c.limit && |s.children| <= s.attempt + 1
    ensures forall k | 0 <= k < |s.children| :: s.children[k] == Reaped <==> k < s.attempt
    ensures |s.statuses| == s.attempt && forall k | 0 <= k < s.attempt :: s.statuses[k] == (30 + k) % 256
  {
    ReachableHoldsInv(c, s);
  }

  /** A normal exit has started and reaped exactly RESTART_LIMIT workers, in attempt order. */
  lemma NormalExitReapedAll(c: Config, s: State)
    requires c.limit > 0 && Reachable(Supervision(c), s) && s.pc == Done
    ensures |s.children| == |s.statuses| == c.limit
    ensures forall k | 0 <= k < c.limit :: s.children[k] == Reaped && s.statuses[k] == (30 + k) % 256
  {
    ReachableHoldsInv(c, s);
  }

  // ----- exactly when the supervisor can still exit normally -----

  ghost predicate Doomed(s: State) {
    s.pc == Died || (s.pc == Blocked && s.pipe == 0)
  }

  /** A poll that has blocked is ended only by the handler or the timeout, and both are fatal. */
  lemma DoomedStaysDoomed(c: Config, s: State, t: State)
    requires Doomed(s) && Reachable(From(c, s), t)
    ensures Doomed(t)
  {
    InvariantWhenReachable(From(c, s), x => Doomed(x), t);
  }

  lemma OneStep(c: Config, s: State, x: State, a: Action) returns (y: State)
    requires Reachable(From(c, s), x) && Enabled(x, a)
    ensures y == Apply(c, x, a) && Reachable(From(c, s), y)
  {
    y := Apply(c, x, a);
    assert Next(c, x, y);
    StepIsReachable(From(c, s), x, y);
  }

  /** The current worker exits if it has not, and the signal reaches the pipe. */
  lemma WakeUp(c: Config, s: State, x: State) returns (y: State)
    requires Reachable(From(c, s), x) && Inv(c, x) && x.pc == AtPoll
    ensures Reachable(From(c, s), y) && y.pc == AtPoll && y.attempt == x.attempt && Inv(c, y)
    ensures y.pipe > 0
  {
    y := x;
    if y.children[y.attempt] == Running {
      y := OneStep(c, s, y, ChildExits(y.attempt));
      StepKeepsInv(c, x, ChildExits(x.attempt));
    }
    if y.pipe == 0 {
      var z := y;
      assert z.children[z.attempt] == Dead;
      y := OneStep(c, s, z, Handler);
      StepKeepsInv(c, z, Handler);
    }
  }

  /** From `waitpid` on, the worker's death is seen and the attempt is over. */
  lemma ReapNext(c: Config, s: State, x: State) returns (y: State)
    requires Reachable(From(c, s), x) && Inv(c, x) && x.pc == Waiting
    ensures Reachable(From(c, s), y) && Inv(c, y) && y.attempt == x.attempt + 1 && (y.pc == Done || y.pc == AtPoll)
  {
    y := x;
    if y.children[y.attempt] == Running {
      y := OneStep(c, s, y, ChildExits(y.attempt));
      StepKeepsInv(c, x, ChildExits(x.attempt));
    }
    var z := y;
    assert z.children[z.attempt] == Dead;
    y := OneStep(c, s, z, WaitPid);
    StepKeepsInv(c, z, WaitPid);
  }

  /** From any state that is not doomed a normal exit can be reached. */
  lemma {:induction false} CanExit(c: Config, s: State, x: State) returns (y: State)
    requires Reachable(From(c, s), x) && Inv(c, x) && x.pc != Blocked && x.pc != Died
    ensures Reachable(From(c, s), y) && y.pc == Done
    decreases c.limit - x.attempt, if x.pc == AtPoll then 2 else if x.pc == Draining then 1 else 0
  {
    match x.pc
    case Done => y := x;
    case AtPoll =>
      y := WakeUp(c, s, x);
      StepKeepsInv(c, y, Poll);
      y := OneStep(c, s, y, Poll);
      y := CanExit(c, s, y);
    case Draining =>
      StepKeepsInv(c, x, Drain);
      y := OneStep(c, s, x, Drain);
      y := CanExit(c, s, y);
    case Waiting =>
      y := ReapNext(c, s, x);
      y := CanExit(c, s, y);
  }

  /** A normal exit is still possible exactly as long as no poll has blocked. */
  lemma BlockingDecidesExit(c: Config, s: State)
    requires c.limit > 0 && Reachable(Supervision(c), s)
    ensures (exists t :: Reachable(From(c, s), t) && t.pc == Done) <==> s.pc != Blocked && s.pc != Died
  {
    ReachableHoldsInv(c, s);
    if s.pc == Blocked || s.pc == Died {
      forall t | Reachable(From(c, s), t) ensures t.pc != Done {
        DoomedStaysDoomed(c, s, t);
      }
    } else {
      StartIsReachable(From(c, s));
      var t := CanExit(c, s, s);
    }
  }

  /** The very wake-up the supervisor polls for can end it: the worker exits while `poll` blocks. */
  lemma WakeupCanKill(c: Config) returns (t: State)
    requires c.limit > 0
    ensures Reachable(Supervision(c), t) && t.pc == Died && t.children == [Dead] && t.pipe > 0
  {
    StartIsReachable(Supervision(c));
    t := OneStep(c, Start(c), Start(c), Poll);
    t := OneStep(c, Start(c), t, ChildExits(0));
    t := OneStep(c, Start(c), t, Handler);
  }

  // ----- signals and the drain -----

  /** A foreign SIGCHLD is delivered like any other: the handler can run next and leaves a byte;
      while `poll` is blocked it ends the supervisor. */
  lemma ForeignSignalIsDelivered(c: Config, s: State)
    requires s.spurious > 0 && s.pc != Done && s.pc != Died
    ensures Enabled(s, Spurious) && Enabled(Apply(c, s, Spurious), Handler)
    ensures Apply(c, Apply(c, s, Spurious), Handler)
            == s.(pending := false, spurious := s.spurious - 1, pipe := s.pipe + 1,
                  pc := if s.pc == Blocked then Died else s.pc)
  {}

  /** A running worker can exit at any point of the loop, and its exit raises the signal. */
  lemma ExitIsSignalled(c: Config, s: State, k: nat)
    requires k < |s.children| && s.children[k] == Running
    ensures Enabled(s, ChildExits(k))
    ensures Apply(c, s, ChildExits(k))
            == s.(children := s.children[..k] + [Dead] + s.children[k + 1..], pending := true)
  {}

  /** A signal that has nothing to do with the worker can end the supervisor: it arrives while
      `poll` blocks and the worker runs on. */
  lemma ForeignSignalCanKill(c: Config) returns (t: State)
    requires c.limit > 0 && c.spurious > 0
    ensures Reachable(Supervision(c), t) && t.pc == Died && t.children == [Running] && t.pipe > 0
  {
    StartIsReachable(Supervision(c));
    t := OneStep(c, Start(c), Start(c), Poll);
    t := OneStep(c, Start(c), t, Spurious);
    t := OneStep(c, Start(c), t, Handler);
  }

  /** Delivered before `poll`, a foreign signal costs one empty round of the loop: `poll` is ready,
      the drain empties the pipe, `waitpid` finds the worker running, and nothing is reaped. */
  lemma ForeignSignalPassesThrough(c: Config, s: State) returns (ready: State, drained: State, back: State)
    requires s.pc == AtPoll && s.attempt < |s.children| && s.children[s.attempt] == Running
    requires s.spurious > 0 && s.pipe < 8
    ensures Reachable(From(c, s), ready) && ready.pc == Draining && ready.pipe == s.pipe + 1
    ensures Reachable(From(c, ready), drained) && drained.pc == Waiting && drained.pipe == 0
    ensures Reachable(From(c, drained), back) && back == s.(spurious := s.spurious - 1, pending := false, pipe := 0)
  {
    StartIsReachable(From(c, s));
    ready := OneStep(c, s, s, Spurious);
    ready := OneStep(c, s, ready, Handler);
    ready := OneStep(c, s, ready, Poll);
    StartIsReachable(From(c, ready));
    drained := OneStep(c, ready, ready, Drain);
    StartIsReachable(From(c, drained));
    back := OneStep(c, drained, drained, WaitPid);
  }

  /** One `read` takes up to eight bytes: it empties a pipe that holds no more. */
  lemma DrainTakesEight(c: Config, s: State)
    requires s.pc == Draining
    ensures var t := Apply(c, s, Drain);
            t == s.(pc := Waiting, pipe := t.pipe) && (if s.pipe <= 8 then t.pipe == 0 else t.pipe == s.pipe - 8)
  {}

  // ----- every run ends -----

  function IsRunning(k: Child): nat { if k == Running then 1 else 0 }

  /** Workers that have not exited, started or not. */
  function ExitsLeft(c: Config, s: State): nat {
    Total(IsRunning, s.children) + if |s.children| < c.limit then c.limit - |s.children| else 0
  }

  function PcWeight(pc: Pc): nat {
    match pc
    case AtPoll => 2
    case Blocked => 1
    case Draining => 1
    case Waiting => 3
    case Done => 0
    case Died => 0
  }

  /** A round of the loop is paid for by a byte, a byte by a signal, a signal by its cause. */
  function Weight(c: Config, s: State): nat {
    5 * ExitsLeft(c, s) + 5 * s.spurious + (if s.pending then 4 else 0) + 3 * s.pipe + PcWeight(s.pc)
  }

  lemma ExitsMove(c: Config, s: State, a: Action)
    requires Inv(c, s) && Enabled(s, a)
    ensures ExitsLeft(c, Apply(c, s, a)) + (if a.ChildExits? then 1 else 0) == ExitsLeft(c, s)
  {
    if a.ChildExits? {
      TotalUpdate(IsRunning, s.children, a.k, Dead);
    } else if a == WaitPid && s.children[s.attempt] == Dead {
      var reaped := s.children[s.attempt := Reaped];
      TotalUpdate(IsRunning, s.children, s.attempt, Reaped);
      TotalAppend(IsRunning, reaped, Running);
    }
  }

  lemma StepLowersWeight(c: Config, s: State, a: Action)
    requires Inv(c, s) && Enabled(s, a)
    ensures Weight(c, Apply(c, s, a)) < Weight(c, s)
  {
    ExitsMove(c, s, a);
  }

  /** With finitely many foreign SIGCHLDs every run ends, and it ends with the supervisor gone:
      a byte never makes the loop spin. */
  lemma SupervisionEnds(c: Config, run: seq<State>)
    requires c.limit > 0 && IsRun(Supervision(c), run)
    ensures |run| - 1 <= 5 * (c.limit + c.spurious) + 2
    ensures var last := run[|run| - 1]; Stuck(Supervision(c), last) ==> last.pc == Done || last.pc == Died
  {
    InvIsInductive(c, Start(c));
    forall s, t | Inv(c, s) && Next(c, s, t) ensures Weight(c, t) < Weight(c, s) {
      var a :| Enabled(s, a) && t == Apply(c, s, a);
      StepLowersWeight(c, s, a);
    }
    RunsAreBounded(Supervision(c), x => Inv(c, x), x => Weight(c, x), run);
    var last := run[|run| - 1];
    InvariantAlongRun(Supervision(c), x => Inv(c, x), run, |run| - 1);
    if last.pc != Done && last.pc != Died {
      var a := OwnStep(c, last);
      assert Supervision(c).next(last, Apply(c, last, a));
    }
  }

  /** The supervisor itself can always go on until it is gone. */
  lemma OwnStep(c: Config, s: State) returns (a: Action)
    requires Inv(c, s) && s.pc != Done && s.pc != Died
    ensures Enabled(s, a)
  {
    match s.pc
    case AtPoll => a := Poll;
    case Blocked => a := TimesOut;
    case Draining => a := Drain;
    case Waiting => a := WaitPid;
  }

  // ----- the supervisor, updated in place -----

  class Process {
    const config: Config
    var pc: Pc
    var attempt: nat
    var children: seq<Child>
    var pending: bool
    var pipe: nat
    var statuses: seq<nat>
    var spurious: nat

    function View(): State
      reads this
    {
      State(pc, attempt, children, pending, pipe, statuses, spurious)
    }

    constructor (config: Config)
      ensures this.config == config && View() == Start(config)
    {
      this.config, pc, attempt, children := config, AtPoll, 0, [Running];
      pending, pipe, statuses, spurious := false, 0, [], config.spurious;
    }

    /** `waitpid` on the current worker, and the restart that may follow. */
    method Reap()
      requires Enabled(View(), WaitPid)
      modifies this
      ensures View() == Apply(config, old(View()), WaitPid)
    {
      pc := AtPoll;
      if children[attempt] == Dead {
        children := children[attempt := Reaped];
        statuses := statuses + [ExitStatus(attempt)];
        attempt := attempt + 1;
        if attempt < config.limit {
          children := children + [Running];
        } else {
          pc := Done;
        }
      }
    }

    method Do(a: Action)
      requires Enabled(View(), a)
      modifies this
      ensures View() == Apply(config, old(View()), a)
    {
      match a
      case ChildExits(k) => children, pending := children[k := Dead], true;
      case Spurious => pending, spurious := true, spurious - 1;
      case Handler =>
        pending, pipe := false, pipe + 1;
        if pc == Blocked {
          pc := Died;
        }
      case Poll => pc := if pipe > 0 then Draining else Blocked;
      case TimesOut => pc := Died;
      case Drain => pipe, pc := if pipe < DRAIN_SIZE then 0 else pipe - DRAIN_SIZE, Waiting;
      case WaitPid => Reap();
    }
  }

  /** The supervisor under any schedule of child exits, signals and its own calls: it comes to an
      end, and when that end is a normal exit it has reaped every attempt in order. */
  method Supervise(c: Config) returns (s: State)
    requires c.limit > 0
    ensures s.pc == Done || s.pc == Died
    ensures |s.statuses| == s.attempt <= c.limit && forall k | 0 <= k < s.attempt :: s.statuses[k] == (30 + k) % 256
    ensures s.pc == Done ==> s.attempt == c.limit
  {
    var process := new Process(c);
    s := process.View();
    StartIsReachable(Supervision(c));
    ReachableHoldsInv(c, s);
    while s.pc != Done && s.pc != Died
      invariant process.config == c && s == process.View() && Inv(c, s)
      decreases Weight(c, s)
    {
      var some := OwnStep(c, s);
      var a :| Enabled(s, a);
      StepKeepsInv(c, s, a);
      StepLowersWeight(c, s, a);
      process.Do(a);
      s := process.View();
    }
  }
}
