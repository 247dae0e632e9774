/** Interleaved processes as step systems: a start state and a relation holding between a
    state and each state one process step can lead to. Every protocol of this project is
    one such system, and every safety result is about its reachable states. */
module StepSystems {

  datatype System<!S> = System(start: S, next: (S, S) -> bool)

  /** A run begins at the start state and takes one step between neighbours. */
  ghost predicate IsRun<S>(sys: System<S>, run: seq<S>) {
    && |run| > 0
    && run[0] == sys.start
    && forall i | 0 < i < |run| :: sys.next(run[i - 1], run[i])
  }

  ghost predicate Reachable<S(!new)>(sys: System<S>, s: S) {
    exists run: seq<S> :: IsRun(sys, run) && run[|run| - 1] == s
  }

  ghost predicate Stuck<S(!new)>(sys: System<S>, s: S) {
    forall t :: !sys.next(s, t)
  }

  ghost predicate Inductive<S(!new)>(sys: System<S>, inv: S -> bool) {
    && inv(sys.start)
    && forall s, t :: inv(s) && sys.next(s, t) ==> inv(t)
  }

  /** An inductive invariant holds all along every run. */
  lemma {:induction false} InvariantAlongRun<S(!new)>(sys: System<S>, inv: S -> bool, run: seq<S>, i: nat)
    requires Inductive(sys, inv) && IsRun(sys, run) && i < |run|
    ensures inv(run[i])
  {
    if i > 0 {
      InvariantAlongRun(sys, inv, run, i - 1);
      assert sys.next(run[i - 1], run[i]);
    }
  }

  lemma InvariantWhenReachable<S(!new)>(sys: System<S>, inv: S -> bool, s: S)
    requires Inductive(sys, inv) && Reachable(sys, s)
    ensures inv(s)
  {
    var run: seq<S> :| IsRun(sys, run) && run[|run| - 1] == s;
    InvariantAlongRun(sys, inv, run, |run| - 1);
  }

  ghost predicate Decreasing<S(!new)>(sys: System<S>, inv: S -> bool, measure: S -> nat) {
    forall s, t :: inv(s) && sys.next(s, t) ==> measure(t) < measure(s)
  }

  /** When every step lowers a measure, no run has more steps than the measure at the start. */
  lemma {:induction false} RunsAreBounded<S(!new)>(sys: System<S>, inv: S -> bool, measure: S -> nat, run: seq<S>)
    requires Inductive(sys, inv) && Decreasing(sys, inv, measure) && IsRun(sys, run)
    ensures |run| - 1 + measure(run[|run| - 1]) <= measure(sys.start)
  {
    if |run| > 1 {
      var shorter := run[..|run| - 1];
      assert IsRun(sys, shorter);
      RunsAreBounded(sys, inv, measure, shorter);
      InvariantAlongRun(sys, inv, run, |run| - 2);
      assert sys.next(run[|run| - 2], run[|run| - 1]);
    }
  }

  lemma StartIsReachable<S(!new)>(sys: System<S>)
    ensures Reachable(sys, sys.start)
  {
    assert IsRun(sys, [sys.start]);
  }

  lemma StepIsReachable<S(!new)>(sys: System<S>, s: S, t: S)
    requires Reachable(sys, s) && sys.next(s, t)
    ensures Reachable(sys, t)
  {
    var run: seq<S> :| IsRun(sys, run) && run[|run| - 1] == s;
    var longer := run + [t];
    assert IsRun(sys, longer) && longer[|longer| - 1] == t;
  }
}
