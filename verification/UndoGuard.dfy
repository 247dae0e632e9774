/** Semaphores/sysv_binary_semaphore_guard.c: a System V semaphore of value 1 guards the load and
    store of a shared counter, and every operation on it carries SEM_UNDO. Any process may be
    killed at any point; the kernel then adds the process's adjustment back to the semaphore. */
module UndoGuard {
  import opened StepSystems
  import opened Totals

  /** `undo` false drops the SEM_UNDO flag. */
  datatype Config = Config(processes: nat, rounds: nat, undo: bool)

  datatype Pc = Acquiring | Loading | Storing | Releasing

  /** A killed process keeps the point it had reached; `adj` is its semaphore adjustment. */
  datatype Process = Process(alive: bool, pc: Pc, done: nat, register: nat, adj: int)

  datatype State = State(sem: int, counter: nat, procs: seq<Process>)

  datatype Action = Step(p: nat) | Kill(p: nat)

  function Start(c: Config): State {
    State(1, 0, seq(c.processes, _ => Process(true, Acquiring, 0, 0, 0)))
  }

  predicate Enabled(c: Config, s: State, a: Action) {
    && a.p < |s.procs| && s.procs[a.p].alive
    && (a.Step? && s.procs[a.p].pc == Acquiring ==> s.procs[a.p].done < c.rounds && s.sem > 0)
  }

  /** `semop` with one operation: the semaphore moves by op, the adjustment against it. */
  function SemOp(c: Config, s: State, p: nat, op: int, q: Process): State
    requires p < |s.procs|
  {
    s.(sem := s.sem + op, procs := s.procs[p := q.(adj := if c.undo then q.adj - op else q.adj)])
  }

  function Apply(c: Config, s: State, a: Action): State
    requires Enabled(c, s, a)
  {
    var q := s.procs[a.p];
    match a
    case Kill(p) => s.(sem := s.sem + q.adj, procs := s.procs[p := q.(alive := false, adj := 0)])
    case Step(p) =>
      match q.pc
      case Acquiring => SemOp(c, s, p, -1, q.(pc := Loading))
      case Loading => s.(procs := s.procs[p := q.(pc := Storing, register := s.counter)])
      case Storing => s.(counter := q.register + 1, procs := s.procs[p := q.(pc := Releasing)])
      case Releasing => SemOp(c, s, p, 1, q.(pc := Acquiring, done := q.done + 1))
  }

  ghost predicate Next(c: Config, s: State, t: State) {
    exists a :: Enabled(c, s, a) && t == Apply(c, s, a)
  }

  ghost function Guard(c: Config): System<State> {
    System(Start(c), (s, t) => Next(c, s, t))
  }

  /** A live process can be killed at any point. Its adjustment goes back to the semaphore; what it
      stored stays stored, and no other process is touched. */
  lemma KillKeepsStores(c: Config, s: State, p: nat)
    requires p < |s.procs| && s.procs[p].alive
    ensures Enabled(c, s, Kill(p))
    ensures var t := Apply(c, s, Kill(p));
            && t.counter == s.counter && t.sem == s.sem + s.procs[p].adj
            && |t.procs| == |s.procs| && !t.procs[p].alive
            && t.procs[p].pc == s.procs[p].pc && t.procs[p].done == s.procs[p].done
            && forall q | 0 <= q < |s.procs| && q != p :: t.procs[q] == s.procs[q]
  {}

  /** A live process that still has rounds to do. */
  predicate Unfinished(c: Config, q: Process) {
    q.alive && !(q.pc == Acquiring && q.done == c.rounds)
  }

  function Holders(q: Process): nat {
    if q.alive && q.pc != Acquiring then 1 else 0
  }

  function Stores(q: Process): nat {
    q.done + if q.pc == Releasing then 1 else 0
  }

  ghost predicate ProcessFits(c: Config, s: State, q: Process) {
    && q.adj == Holders(q)
    && q.done <= c.rounds && (q.pc != Acquiring ==> q.done < c.rounds)
    && (q.alive && q.pc == Storing ==> q.register == s.counter)
  }

  ghost predicate Inv(c: Config, s: State) {
    && |s.procs| == c.processes
    && s.sem >= 0 && s.sem + Total(Holders, s.procs) == 1
    && s.counter == Total(Stores, s.procs)
    && forall p | 0 <= p < |s.procs| :: ProcessFits(c, s, s.procs[p])
  }

  /** At most one live process is between acquire and release. */
  lemma OneHolder(c: Config, s: State, i: nat, j: nat)
    requires Inv(c, s) && i < |s.procs| && j < |s.procs| && i != j
    ensures Holders(s.procs[i]) == 0 || Holders(s.procs[j]) == 0
  {
    if i < j {
      TotalAtLeastTwo(Holders, s.procs, i, j);
    } else {
      TotalAtLeastTwo(Holders, s.procs, j, i);
    }
  }

  lemma StepKeepsInv(c: Config, s: State, a: Action)
    requires c.undo && Inv(c, s) && Enabled(c, s, a)
    ensures Inv(c, Apply(c, s, a))
  {
    var t := Apply(c, s, a);
    TotalUpdate(Holders, s.procs, a.p, t.procs[a.p]);
    TotalUpdate(Stores, s.procs, a.p, t.procs[a.p]);
    assert ProcessFits(c, s, s.procs[a.p]);
    forall p | 0 <= p < |t.procs| ensures ProcessFits(c, t, t.procs[p]) {
      assert ProcessFits(c, s, s.procs[p]);
      if p != a.p {
        OneHolder(c, s, p, a.p);
      }
    }
  }

  lemma InvIsInductive(c: Config)
    requires c.undo
    ensures Inductive(Guard(c), x => Inv(c, x))
  {
    TotalZero(Holders, Start(c).procs);
    TotalZero(Stores, Start(c).procs);
    forall s, t | Inv(c, s) && Next(c, s, t) ensures Inv(c, t) {
      var a :| Enabled(c, s, a) && t == Apply(c, s, a);
      StepKeepsInv(c, s, a);
    }
  }

  lemma ReachableHoldsInv(c: Config, s: State)
    requires c.undo && Reachable(Guard(c), s)
    ensures Inv(c, s)
  {
    InvIsInductive(c);
    InvariantWhenReachable(Guard(c), x => Inv(c, x), s);
  }

  /** Whoever is killed and whenever, the semaphore plus the live holders is 1, two live processes
      are never inside together, and the counter is the number of stores done. */
  lemma GuardSurvivesKills(c: Config, s: State)
    requires c.undo && Reachable(Guard(c), s)
    ensures s.sem + Total(Holders, s.procs) == 1
    ensures forall i, j | 0 <= i < j < |s.procs| :: Holders(s.procs[i]) == 0 || Holders(s.procs[j]) == 0
    ensures s.counter == Total(Stores, s.procs)
  {
    ReachableHoldsInv(c, s);
    forall i, j | 0 <= i < j < |s.procs| ensures Holders(s.procs[i]) == 0 || Holders(s.procs[j]) == 0 {
      OneHolder(c, s, i, j);
    }
  }

  /** While a live process has rounds left, some live process can step: a dead holder blocks nobody. */
  lemma SurvivorsMove(c: Config, s: State, u: nat) returns (p: nat)
    requires c.undo && Reachable(Guard(c), s) && u < |s.procs| && Unfinished(c, s.procs[u])
    ensures Enabled(c, s, Step(p))
  {
    ReachableHoldsInv(c, s);
    assert ProcessFits(c, s, s.procs[u]);
    if s.sem > 0 {
      p := u;
    } else {
      p := TotalWitness(Holders, s.procs);
    }
  }

  /** When no live process has rounds left, the survivors have done all theirs; without kills the
      counter is the number of increments. */
  lemma SurvivorsAreCounted(c: Config, s: State)
    requires c.undo && Reachable(Guard(c), s) && forall p | 0 <= p < |s.procs| :: !Unfinished(c, s.procs[p])
    ensures s.sem == 1 && s.counter == Total(Stores, s.procs) <= c.processes * c.rounds
    ensures forall p | 0 <= p < |s.procs| && s.procs[p].alive :: Stores(s.procs[p]) == c.rounds
    ensures (forall p | 0 <= p < |s.procs| :: s.procs[p].alive) ==> s.counter == c.processes * c.rounds
  {
    ReachableHoldsInv(c, s);
    assert forall p | 0 <= p < |s.procs| :: ProcessFits(c, s, s.procs[p]);
    TotalZero(Holders, s.procs);
    TotalAtMost(Stores, s.procs, c.rounds);
    if forall p | 0 <= p < |s.procs| :: s.procs[p].alive {
      TotalUniform(Stores, s.procs, c.rounds);
    }
  }

  /** Without SEM_UNDO, a process killed inside leaves the others waiting for ever. */
  lemma NoUndoStrandsSurvivors(c: Config) returns (s: State)
    requires !c.undo && c.processes >= 2 && c.rounds > 0
    ensures Reachable(Guard(c), s) && |s.procs| == c.processes && Unfinished(c, s.procs[1])
    ensures forall p :: !Enabled(c, s, Step(p))
  {
    var s0 := Start(c);
    StartIsReachable(Guard(c));
    var s1 := Apply(c, s0, Step(0));
    assert Next(c, s0, s1);
    StepIsReachable(Guard(c), s0, s1);
    s := Apply(c, s1, Kill(0));
    assert Next(c, s1, s);
    StepIsReachable(Guard(c), s1, s);
  }

  /** With two or more processes, kills never strand a survivor if and only if the operations
      carry SEM_UNDO. */
  lemma UndoDecidesSurvival(c: Config)
    requires c.processes >= 2 && c.rounds > 0
    ensures (forall s, u: nat ::
               Reachable(Guard(c), s) && u < |s.procs| && Unfinished(c, s.procs[u]) ==> exists p :: Enabled(c, s, Step(p)))
            <==> c.undo
  {
    if c.undo {
      forall s, u: nat | Reachable(Guard(c), s) && u < |s.procs| && Unfinished(c, s.procs[u])
        ensures exists p :: Enabled(c, s, Step(p))
      {
        var p := SurvivorsMove(c, s, u);
      }
    } else {
      var s := NoUndoStrandsSurvivors(c);
    }
  }

  // ----- every run ends -----

  function Progress(pc: Pc): nat {
    match pc
    case Acquiring => 0
    case Loading => 1
    case Storing => 2
    case Releasing => 3
  }

  function StepsOf(rounds: nat): Process -> nat {
    (q: Process) => (if q.done < rounds then 4 * (rounds - q.done) - Progress(q.pc) else 0) + if q.alive then 1 else 0
  }

  lemma StepLowersSteps(c: Config, s: State, a: Action)
    requires Inv(c, s) && Enabled(c, s, a)
    ensures Total(StepsOf(c.rounds), Apply(c, s, a).procs) < Total(StepsOf(c.rounds), s.procs)
  {
    assert ProcessFits(c, s, s.procs[a.p]);
    TotalUpdate(StepsOf(c.rounds), s.procs, a.p, Apply(c, s, a).procs[a.p]);
  }

  /** Every run ends within four steps per increment and one kill per process. */
  lemma GuardRunsAreBounded(c: Config, run: seq<State>)
    requires c.undo && IsRun(Guard(c), run)
    ensures |run| - 1 <= c.processes * (4 * c.rounds + 1)
  {
    var f := StepsOf(c.rounds);
    InvIsInductive(c);
    forall s, t | Inv(c, s) && Next(c, s, t) ensures Total(f, t.procs) < Total(f, s.procs) {
      var a :| Enabled(c, s, a) && t == Apply(c, s, a);
      StepLowersSteps(c, s, a);
    }
    RunsAreBounded(Guard(c), x => Inv(c, x), (x: State) => Total(f, x.procs), run);
    TotalUniform(f, Start(c).procs, 4 * c.rounds + 1);
  }

  // ----- the semaphore and the counter, updated in place -----

  class SharedSegment {
    const config: Config
    const procs: array<Process>
    var sem: int
    var counter: nat

    function View(): State
      reads this, procs
    {
      State(sem, counter, procs[..])
    }

    constructor (config: Config)
      ensures this.config == config && fresh(procs) && View() == Start(config)
    {
      this.config, sem, counter := config, 1, 0;
      procs := new Process[config.processes](_ => Process(true, Acquiring, 0, 0, 0));
    }

    /** `sem_op` of process p, which goes on as q. */
    method Operate(p: nat, op: int, q: Process)
      requires p < procs.Length
      modifies this, procs
      ensures View() == SemOp(config, old(View()), p, op, q)
    {
      sem := sem + op;
      procs[p] := if config.undo then q.(adj := q.adj - op) else q;
    }

    /** The next step of process p, or its end by a signal. */
    method Do(a: Action)
      requires Enabled(config, View(), a)
      modifies this, procs
      ensures View() == Apply(config, old(View()), a)
    {
      var q := procs[a.p];
      if a.Kill? {
        sem := sem + q.adj;
        procs[a.p] := q.(alive := false, adj := 0);
        return;
      }
      match q.pc
      case Acquiring => Operate(a.p, -1, q.(pc := Loading));
      case Loading => procs[a.p] := q.(pc := Storing, register := counter);
      case Storing =>
        counter := q.register + 1;
        procs[a.p] := q.(pc := Releasing);
      case Releasing => Operate(a.p, 1, q.(pc := Acquiring, done := q.done + 1));
    }
  }

  /** The whole program under any scheduler and any kills: it ends, every survivor has done its
      rounds, and the counter is the number of stores of all processes, dead or alive. */
  method RunGuard(c: Config) returns (s: State)
    requires c.undo
    ensures |s.procs| == c.processes && s.sem == 1 && s.counter == Total(Stores, s.procs)
    ensures forall p | 0 <= p < |s.procs| && s.procs[p].alive :: Stores(s.procs[p]) == c.rounds
  {
    var segment := new SharedSegment(c);
    s := segment.View();
    StartIsReachable(Guard(c));
    while exists u :: 0 <= u < |s.procs| && Unfinished(c, s.procs[u])
      invariant segment.config == c && s == segment.View() && Reachable(Guard(c), s)
      decreases Total(StepsOf(c.rounds), s.procs)
    {
      var u: nat :| u < |s.procs| && Unfinished(c, s.procs[u]);
      var some := SurvivorsMove(c, s, u);
      var a :| Enabled(c, s, a);
      ReachableHoldsInv(c, s);
      StepLowersSteps(c, s, a);
      StepIsReachable(Guard(c), s, Apply(c, s, a));
      segment.Do(a);
      s := segment.View();
    }
    ReachableHoldsInv(c, s);
    SurvivorsAreCounted(c, s);
  }
}
