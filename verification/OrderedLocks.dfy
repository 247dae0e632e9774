/** FileLocking/deadlock_avoidance_ordering.c: forked processes take write locks on single bytes
    of a file with `F_SETLKW`, each in increasing order, and hold them until they exit. Any
    number of processes, each with its own increasing plan of bytes. */
module OrderedLocks {
  import opened StepSystems
  import opened Totals

  /** The first `next` bytes of the plan are locked. */
  datatype Process = Process(plan: seq<nat>, next: nat, exited: bool)

  /** `held` maps a locked byte to the process that owns the lock. */
  datatype State = State(held: map<nat, nat>, procs: seq<Process>)

  type Plans = seq<seq<nat>>

  predicate Increasing(plan: seq<nat>) {
    forall i, j | 0 <= i < j < |plan| :: plan[i] < plan[j]
  }

  predicate Ordered(plans: Plans) {
    forall p | 0 <= p < |plans| :: Increasing(plans[p])
  }

  function Start(plans: Plans): State {
    State(map[], seq(|plans|, p requires 0 <= p < |plans| => Process(plans[p], 0, false)))
  }

  /** Process p is about to lock a byte. */
  predicate Locking(s: State, p: nat) {
    p < |s.procs| && !s.procs[p].exited && s.procs[p].next < |s.procs[p].plan|
  }

  function Want(s: State, p: nat): nat
    requires Locking(s, p)
  {
    s.procs[p].plan[s.procs[p].next]
  }

  predicate WaitsFor(s: State, p: nat, q: nat) {
    Locking(s, p) && Want(s, p) in s.held && s.held[Want(s, p)] == q && q != p
  }

  /** A process steps unless it waits for another one; after its last lock it exits. */
  predicate Enabled(s: State, p: nat) {
    && p < |s.procs| && !s.procs[p].exited
    && (Locking(s, p) && Want(s, p) in s.held ==> s.held[Want(s, p)] == p)
  }

  /** At exit the kernel drops all locks of the process. */
  function Apply(s: State, p: nat): State
    requires Enabled(s, p)
  {
    if Locking(s, p) then
      State(s.held[Want(s, p) := p], s.procs[p := s.procs[p].(next := s.procs[p].next + 1)])
    else
      State(map b | b in s.held && s.held[b] != p :: s.held[b], s.procs[p := s.procs[p].(exited := true)])
  }

  /** A live process is held up exactly by a byte it wants that another process has locked; a lock
      of its own never holds it up. */
  lemma BlockedByOthersOnly(s: State, p: nat)
    requires p < |s.procs| && !s.procs[p].exited
    ensures Enabled(s, p) <==> forall q :: !WaitsFor(s, p, q)
    ensures Locking(s, p) && Want(s, p) in s.held && s.held[Want(s, p)] == p ==> Enabled(s, p)
  {
    if Locking(s, p) && Want(s, p) in s.held && s.held[Want(s, p)] != p {
      assert WaitsFor(s, p, s.held[Want(s, p)]);
    }
  }

  ghost predicate Next(s: State, t: State) {
    exists p :: Enabled(s, p) && t == Apply(s, p)
  }

  ghost function Locks(plans: Plans): System<State> {
    System(Start(plans), (s, t) => Next(s, t))
  }

  predicate Final(s: State) {
    forall p | 0 <= p < |s.procs| :: s.procs[p].exited
  }

  /** Process p has locked byte b and not exited. */
  predicate Holds(s: State, p: nat, b: nat) {
    && p < |s.procs| && !s.procs[p].exited && s.procs[p].next <= |s.procs[p].plan|
    && b in s.procs[p].plan[..s.procs[p].next]
  }

  ghost predicate TableAgrees(s: State) {
    && (forall b | b in s.held :: Holds(s, s.held[b], b))
    && (forall p, b | 0 <= p < |s.procs| && Holds(s, p, b) :: b in s.held && s.held[b] == p)
  }

  ghost predicate Inv(plans: Plans, s: State) {
    && |s.procs| == |plans| && TableAgrees(s)
    && forall p | 0 <= p < |s.procs| ::
         && s.procs[p].plan == plans[p] && s.procs[p].next <= |plans[p]|
         && (s.procs[p].exited ==> s.procs[p].next == |plans[p]|)
  }

  lemma LockKeepsTable(s: State, p: nat)
    requires TableAgrees(s) && Enabled(s, p) && Locking(s, p)
    ensures TableAgrees(Apply(s, p))
  {
    var t := Apply(s, p);
    var q := s.procs[p];
    assert q.plan[..q.next + 1] == q.plan[..q.next] + [Want(s, p)];
    forall b ensures Holds(t, p, b) <==> Holds(s, p, b) || b == Want(s, p) {}
    forall r: nat, b | r != p ensures Holds(t, r, b) <==> Holds(s, r, b) {}
  }

  lemma ExitKeepsTable(s: State, p: nat)
    requires TableAgrees(s) && Enabled(s, p) && !Locking(s, p)
    ensures TableAgrees(Apply(s, p))
  {
    var t := Apply(s, p);
    forall r: nat, b | r != p ensures Holds(t, r, b) <==> Holds(s, r, b) {}
  }

  lemma InvIsInductive(plans: Plans)
    ensures Inductive(Locks(plans), x => Inv(plans, x))
  {
    forall s, t | Inv(plans, s) && Next(s, t) ensures Inv(plans, t) {
      var p :| Enabled(s, p) && t == Apply(s, p);
      if Locking(s, p) {
        LockKeepsTable(s, p);
      } else {
        ExitKeepsTable(s, p);
      }
    }
  }

  lemma ReachableHoldsInv(plans: Plans, s: State)
    requires Reachable(Locks(plans), s)
    ensures Inv(plans, s)
  {
    InvIsInductive(plans);
    InvariantWhenReachable(Locks(plans), x => Inv(plans, x), s);
  }

  /** A byte is locked by the process that took it and has not exited, and by no other. */
  lemma TableIsExact(plans: Plans, s: State, p: nat, b: nat)
    requires Reachable(Locks(plans), s) && p < |s.procs|
    ensures (b in s.held && s.held[b] == p) <==> Holds(s, p, b)
  {
    ReachableHoldsInv(plans, s);
  }

  // ----- the wait-for relation climbs -----

  lemma WaitingClimbs(plans: Plans, s: State, p: nat, q: nat)
    requires Ordered(plans) && Inv(plans, s) && WaitsFor(s, p, q)
    ensures q < |s.procs| && !s.procs[q].exited && (Locking(s, q) ==> Want(s, p) < Want(s, q))
  {
    assert Holds(s, q, Want(s, p));
    var plan, n := s.procs[q].plan, s.procs[q].next;
    var i :| 0 <= i < n && plan[i] == Want(s, p);
    assert Increasing(plans[q]);
  }

  ghost predicate WaitPath(s: State, path: seq<nat>) {
    |path| >= 2 && forall i | 0 < i < |path| :: WaitsFor(s, path[i - 1], path[i])
  }

  lemma {:induction false} WantRisesAlong(plans: Plans, s: State, path: seq<nat>)
    requires Ordered(plans) && Inv(plans, s) && WaitPath(s, path)
    ensures Locking(s, path[0]) && (Locking(s, path[|path| - 1]) ==> Want(s, path[0]) < Want(s, path[|path| - 1]))
  {
    var n := |path|;
    assert WaitsFor(s, path[0], path[1]) && WaitsFor(s, path[n - 2], path[n - 1]);
    WaitingClimbs(plans, s, path[n - 2], path[n - 1]);
    if n > 2 {
      WantRisesAlong(plans, s, path[..n - 1]);
    }
  }

  /** With increasing plans no chain of waiting processes ever closes into a cycle, so `fcntl`
      never fails with EDEADLK. */
  lemma NoWaitCycle(plans: Plans, s: State, path: seq<nat>)
    requires Ordered(plans) && Reachable(Locks(plans), s) && WaitPath(s, path)
    ensures path[0] != path[|path| - 1]
  {
    ReachableHoldsInv(plans, s);
    WantRisesAlong(plans, s, path);
  }

  /** A number above every byte of every plan. */
  function Ceiling(plan: seq<nat>): (r: nat)
    ensures forall i | 0 <= i < |plan| :: plan[i] < r
  {
    if plan == [] then 0 else
    var r := Ceiling(plan[1..]);
    assert forall i | 1 <= i < |plan| :: plan[i] == plan[1..][i - 1];
    if plan[0] < r then r else plan[0] + 1
  }

  function CeilingOf(plans: Plans): (r: nat)
    ensures forall p, i | 0 <= p < |plans| && 0 <= i < |plans[p]| :: plans[p][i] < r
  {
    if plans == [] then 0 else
    var r := CeilingOf(plans[1..]);
    assert forall p | 1 <= p < |plans| :: plans[p] == plans[1..][p - 1];
    if Ceiling(plans[0]) < r then r else Ceiling(plans[0])
  }

  /** Following the waits from any unfinished process ends at one that can step. */
  lemma {:induction false} Unblocked(plans: Plans, s: State, p: nat) returns (q: nat)
    requires Ordered(plans) && Inv(plans, s) && p < |s.procs| && !s.procs[p].exited
    ensures Enabled(s, q)
    decreases if Locking(s, p) then CeilingOf(plans) - Want(s, p) else 0
  {
    if Enabled(s, p) {
      q := p;
    } else {
      q := s.held[Want(s, p)];
      assert WaitsFor(s, p, q) && plans[p][s.procs[p].next] < CeilingOf(plans);
      WaitingClimbs(plans, s, p, q);
      q := Unblocked(plans, s, q);
    }
  }

  /** With increasing plans some unfinished process can always step. */
  lemma OrderedLocksMove(plans: Plans, s: State) returns (p: nat)
    requires Ordered(plans) && Reachable(Locks(plans), s) && !Final(s)
    ensures Enabled(s, p)
  {
    ReachableHoldsInv(plans, s);
    p :| 0 <= p < |s.procs| && !s.procs[p].exited;
    p := Unblocked(plans, s, p);
  }

  function Left(q: Process): nat {
    (if q.next < |q.plan| then |q.plan| - q.next else 0) + if q.exited then 0 else 1
  }

  lemma StepLowersLeft(s: State, p: nat)
    requires Enabled(s, p)
    ensures Total(Left, Apply(s, p).procs) + 1 == Total(Left, s.procs)
  {
    TotalUpdate(Left, s.procs, p, Apply(s, p).procs[p]);
  }

  function Length(plan: seq<nat>): nat { |plan| }

  lemma {:induction false} StartLeft(plans: Plans, procs: seq<Process>)
    requires |procs| == |plans| && forall p | 0 <= p < |plans| :: procs[p] == Process(plans[p], 0, false)
    ensures Total(Left, procs) == Total(Length, plans) + |plans|
  {
    if plans != [] {
      StartLeft(plans[1..], procs[1..]);
    }
  }

  /** Every run ends: one step per byte of every plan and one per process. */
  lemma LockRunsAreBounded(plans: Plans, run: seq<State>)
    requires IsRun(Locks(plans), run)
    ensures |run| - 1 <= Total(Length, plans) + |plans|
  {
    StartLeft(plans, Start(plans).procs);
    InvIsInductive(plans);
    forall s, t | Next(s, t) ensures Total(Left, t.procs) < Total(Left, s.procs) {
      var p :| Enabled(s, p) && t == Apply(s, p);
      StepLowersLeft(s, p);
    }
    RunsAreBounded(Locks(plans), x => Inv(plans, x), (x: State) => Total(Left, x.procs), run);
  }

  /** The lock table of the file and the processes that fill it. */
  class LockTable {
    const procs: array<Process>
    var held: map<nat, nat>

    function View(): State
      reads this, procs
    {
      State(held, procs[..])
    }

    constructor (plans: Plans)
      ensures fresh(procs) && View() == Start(plans)
    {
      held := map[];
      procs := new Process[|plans|](p requires 0 <= p < |plans| => Process(plans[p], 0, false));
    }

    /** Process p locks its next byte or, after the last one, exits and drops all its locks. */
    method Step(p: nat)
      requires Enabled(View(), p)
      modifies this, procs
      ensures View() == Apply(old(View()), p)
    {
      var q := procs[p];
      if q.next < |q.plan| {
        held := held[q.plan[q.next] := p];
        procs[p] := q.(next := q.next + 1);
      } else {
        held := map b | b in held && held[b] != p :: held[b];
        procs[p] := q.(exited := true);
      }
    }
  }

  /** The whole program under any scheduler: every process gets all its locks and exits, and no
      lock is left. */
  method RunLocks(plans: Plans) returns (s: State)
    requires Ordered(plans)
    ensures Final(s) && s.held == map[] && |s.procs| == |plans|
    ensures forall p | 0 <= p < |plans| :: s.procs[p] == Process(plans[p], |plans[p]|, true)
  {
    var table := new LockTable(plans);
    s := table.View();
    StartIsReachable(Locks(plans));
    while !Final(s)
      invariant s == table.View() && Reachable(Locks(plans), s)
      decreases Total(Left, s.procs)
    {
      var some := OrderedLocksMove(plans, s);
      var p: nat :| Enabled(s, p);
      StepLowersLeft(s, p);
      StepIsReachable(Locks(plans), s, Apply(s, p));
      table.Step(p);
      s := table.View();
    }
    ReachableHoldsInv(plans, s);
    assert forall b | b in s.held :: Holds(s, s.held[b], b);
  }

  /** Order is what saves it: two processes that take the same two bytes in opposite orders can
      wait for each other for ever. */
  lemma OppositeOrdersDeadlock(a: nat, b: nat) returns (s: State)
    requires a != b
    ensures Reachable(Locks([[a, b], [b, a]]), s) && Stuck(Locks([[a, b], [b, a]]), s) && !Final(s)
    ensures WaitPath(s, [0, 1, 0])
  {
    var sys := Locks([[a, b], [b, a]]);
    var s0 := Start([[a, b], [b, a]]);
    StartIsReachable(sys);
    var s1 := Apply(s0, 0);
    assert Next(s0, s1);
    StepIsReachable(sys, s0, s1);
    s := Apply(s1, 1);
    assert Next(s1, s);
    StepIsReachable(sys, s1, s);
    assert s.procs == [Process([a, b], 1, false), Process([b, a], 1, false)];
    assert s.held == map[a := 0, b := 1];
    assert !s.procs[0].exited;
    forall p ensures !Enabled(s, p) {}
  }
}
