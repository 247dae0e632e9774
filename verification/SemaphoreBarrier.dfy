/** Semaphores/sysv_semaphore_set_barrier.c: workers meet at a barrier built from one System V
    semaphore. Each decrements it by one and then waits for it to be zero. */
module SemaphoreBarrier {
  import opened StepSystems
  import opened Totals

  /** The program sets `initial` to the number of workers. */
  datatype Config = Config(workers: nat, initial: nat)

  datatype Worker = Coming | Arrived | Released

  datatype State = State(sem: nat, workers: seq<Worker>)

  function Start(c: Config): State {
    State(c.initial, seq(c.workers, _ => Coming))
  }

  /** `change(-1)` waits for a positive value, `wait_zero` for zero. */
  predicate Enabled(s: State, w: nat) {
    && w < |s.workers|
    && match s.workers[w]
       case Coming => s.sem > 0
       case Arrived => s.sem == 0
       case Released => false
  }

  function Apply(s: State, w: nat): State
    requires Enabled(s, w)
  {
    if s.workers[w] == Coming then State(s.sem - 1, s.workers[w := Arrived])
    else s.(workers := s.workers[w := Released])
  }

  ghost predicate Next(s: State, t: State) {
    exists w :: Enabled(s, w) && t == Apply(s, w)
  }

  ghost function Barrier(c: Config): System<State> {
    System(Start(c), (s, t) => Next(s, t))
  }

  predicate AllReleased(s: State) {
    forall w | 0 <= w < |s.workers| :: s.workers[w] == Released
  }

  function IsComing(w: Worker): nat { if w == Coming then 1 else 0 }

  /** With the right initial value the semaphore counts the workers still to come. */
  ghost predicate Inv(c: Config, s: State) {
    && |s.workers| == c.workers
    && s.sem == Total(IsComing, s.workers)
    && ((exists w :: 0 <= w < |s.workers| && s.workers[w] == Released) ==> s.sem == 0)
  }

  lemma StepKeepsInv(c: Config, s: State, w: nat)
    requires Inv(c, s) && Enabled(s, w)
    ensures Inv(c, Apply(s, w))
  {
    TotalUpdate(IsComing, s.workers, w, Apply(s, w).workers[w]);
  }

  lemma ReachableHoldsInv(c: Config, s: State)
    requires c.initial == c.workers && Reachable(Barrier(c), s)
    ensures Inv(c, s)
  {
    TotalUniform(IsComing, Start(c).workers, 1);
    forall s, t | Inv(c, s) && Next(s, t) ensures Inv(c, t) {
      var w :| Enabled(s, w) && t == Apply(s, w);
      StepKeepsInv(c, s, w);
    }
    InvariantWhenReachable(Barrier(c), x => Inv(c, x), s);
  }

  /** The semaphore is the number of workers still to come, so the decrement never blocks, and
      nobody is released before all have arrived. */
  lemma BarrierIsSafe(c: Config, s: State, w: nat)
    requires c.initial == c.workers && Reachable(Barrier(c), s) && w < |s.workers|
    ensures s.sem == Total(IsComing, s.workers)
    ensures s.workers[w] == Coming ==> Enabled(s, w)
    ensures s.workers[w] == Released ==> forall v | 0 <= v < |s.workers| :: s.workers[v] != Coming
  {
    ReachableHoldsInv(c, s);
    TotalAtLeast(IsComing, s.workers, w);
    forall v | 0 <= v < |s.workers| ensures s.workers[v] == Coming ==> s.sem > 0 {
      TotalAtLeast(IsComing, s.workers, v);
    }
  }

  /** Until all are released some worker can step. */
  lemma BarrierMoves(c: Config, s: State) returns (w: nat)
    requires c.initial == c.workers && Reachable(Barrier(c), s) && !AllReleased(s)
    ensures Enabled(s, w)
  {
    ReachableHoldsInv(c, s);
    if s.sem > 0 {
      w := TotalWitness(IsComing, s.workers);
    } else {
      w :| 0 <= w < |s.workers| && s.workers[w] != Released;
      TotalAtLeast(IsComing, s.workers, w);
    }
  }

  function StepsOf(w: Worker): nat {
    match w
    case Coming => 2
    case Arrived => 1
    case Released => 0
  }

  lemma StepLowersSteps(s: State, w: nat)
    requires Enabled(s, w)
    ensures Total(StepsOf, Apply(s, w).workers) + 1 == Total(StepsOf, s.workers)
    ensures Apply(s, w).sem <= s.sem
  {
    TotalUpdate(StepsOf, s.workers, w, Apply(s, w).workers[w]);
  }

  /** Every run ends after two steps per worker at most. */
  lemma BarrierRunsAreBounded(c: Config, run: seq<State>)
    requires IsRun(Barrier(c), run)
    ensures |run| - 1 <= c.workers * 2
  {
    forall s, t | Next(s, t) ensures Total(StepsOf, t.workers) < Total(StepsOf, s.workers) {
      var w :| Enabled(s, w) && t == Apply(s, w);
      StepLowersSteps(s, w);
    }
    RunsAreBounded(Barrier(c), _ => true, (x: State) => Total(StepsOf, x.workers), run);
    TotalUniform(StepsOf, Start(c).workers, 2);
  }

  // ----- the initial value has to be the number of workers -----

  function FirstArrived(c: Config, m: nat): State
    requires m <= c.initial && m <= c.workers
  {
    State(c.initial - m, seq(c.workers, i => if i < m then Arrived else Coming))
  }

  lemma {:induction false} FirstArrivedIsReachable(c: Config, m: nat)
    requires m <= c.initial && m <= c.workers
    ensures Reachable(Barrier(c), FirstArrived(c, m))
  {
    if m == 0 {
      StartIsReachable(Barrier(c));
      assert FirstArrived(c, 0).workers == Start(c).workers;
    } else {
      FirstArrivedIsReachable(c, m - 1);
      var s, t := FirstArrived(c, m - 1), FirstArrived(c, m);
      assert t.workers == s.workers[m - 1 := Arrived];
      assert Enabled(s, m - 1) && t == Apply(s, m - 1);
      StepIsReachable(Barrier(c), s, t);
    }
  }

  /** It never lets a worker through early and never hangs. */
  ghost predicate Works(c: Config) {
    forall s | Reachable(Barrier(c), s) ::
      && (Stuck(Barrier(c), s) ==> AllReleased(s))
      && (forall v, w | 0 <= v < |s.workers| && 0 <= w < |s.workers| :: !(s.workers[v] == Released && s.workers[w] == Coming))
  }

  lemma TooHighHangs(c: Config)
    requires 0 < c.workers < c.initial
    ensures !Works(c)
  {
    var s := FirstArrived(c, c.workers);
    FirstArrivedIsReachable(c, c.workers);
    forall w ensures !Enabled(s, w) {}
    assert Stuck(Barrier(c), s) && s.workers[0] == Arrived;
  }

  lemma TooLowFails(c: Config)
    requires c.initial < c.workers
    ensures !Works(c)
  {
    var s := FirstArrived(c, c.initial);
    FirstArrivedIsReachable(c, c.initial);
    if c.initial == 0 {
      forall w ensures !Enabled(s, w) {}
      assert Stuck(Barrier(c), s) && s.workers[0] == Coming;
    } else {
      var t := Apply(s, 0);
      assert Next(s, t);
      StepIsReachable(Barrier(c), s, t);
      assert t.workers[0] == Released && t.workers[c.initial] == Coming;
    }
  }

  /** The barrier holds everyone and releases everyone if and only if the semaphore starts at the
      number of workers. */
  lemma InitialValueIsExact(c: Config)
    requires c.workers > 0
    ensures Works(c) <==> c.initial == c.workers
  {
    if c.initial == c.workers {
      forall s | Reachable(Barrier(c), s)
        ensures Stuck(Barrier(c), s) ==> AllReleased(s)
        ensures forall v, w | 0 <= v < |s.workers| && 0 <= w < |s.workers| :: !(s.workers[v] == Released && s.workers[w] == Coming)
      {
        if !AllReleased(s) {
          var w := BarrierMoves(c, s);
          assert Barrier(c).next(s, Apply(s, w));
        }
        forall v | 0 <= v < |s.workers| ensures s.workers[v] == Released ==> forall w | 0 <= w < |s.workers| :: s.workers[w] != Coming {
          BarrierIsSafe(c, s, v);
        }
      }
    } else if c.initial > c.workers {
      TooHighHangs(c);
    } else {
      TooLowFails(c);
    }
  }

  /** The semaphore and the workers that meet at it. */
  class Meeting {
    const workers: array<Worker>
    var sem: nat

    function View(): State
      reads this, workers
    {
      State(sem, workers[..])
    }

    constructor (c: Config)
      ensures fresh(workers) && View() == Start(c)
    {
      sem := c.initial;
      workers := new Worker[c.workers](_ => Coming);
    }

    /** Worker w passes `change` or `wait_zero`. */
    method Step(w: nat)
      requires Enabled(View(), w)
      modifies this, workers
      ensures View() == Apply(old(View()), w)
    {
      if workers[w] == Coming {
        sem := sem - 1;
        workers[w] := Arrived;
      } else {
        workers[w] := Released;
      }
    }
  }

  /** The whole program under any scheduler: it ends with every worker released. */
  method RunBarrier(n: nat) returns (s: State)
    ensures AllReleased(s) && s.sem == 0 && |s.workers| == n
  {
    var c := Config(n, n);
    var meeting := new Meeting(c);
    s := meeting.View();
    StartIsReachable(Barrier(c));
    while !AllReleased(s)
      invariant s == meeting.View() && Reachable(Barrier(c), s)
      decreases Total(StepsOf, s.workers)
    {
      var some := BarrierMoves(c, s);
      var w: nat :| Enabled(s, w);
      StepLowersSteps(s, w);
      StepIsReachable(Barrier(c), s, Apply(s, w));
      meeting.Step(w);
      s := meeting.View();
    }
    ReachableHoldsInv(c, s);
    TotalZero(IsComing, s.workers);
  }
}
