/** SharedMemory/mmap_file_lock_counter.c and FileLocking/ofd_lock_counter.c: forked processes
    increment a mapped counter between taking and dropping a write lock on the whole file. The
    increment is a load and a store. The two programs differ only in who owns the lock: with
    `F_SETLKW` the process, with `F_OFD_SETLKW` the open file description, which the children
    share because the file is opened before they are forked.

    Assumed of the kernel (Linux fcntl(2)): a lock conflicts with locks of other owners only;
    an owner that locks again keeps its lock; an unlock drops the lock of its own owner only. */
module LockedCounter {
  import opened StepSystems
  import opened Totals

  /** Process p locks as owner owners[p] and does `rounds` increments. */
  datatype Config = Config(owners: seq<nat>, rounds: nat)

  /** Each process its own owner: `F_SETLKW`. */
  function ProcessOwned(n: nat, rounds: nat): Config {
    Config(seq(n, i => i), rounds)
  }

  /** One owner for all, the shared open file description: `F_OFD_SETLKW` after `fork`. */
  function DescriptionOwned(n: nat, rounds: nat): Config {
    Config(seq(n, _ => 0), rounds)
  }

  datatype Lock = Free | HeldBy(owner: nat)

  datatype Pc = Locking | Loading | Storing | Unlocking

  /** `done` counts the finished rounds of the loop. */
  datatype Process = Process(pc: Pc, done: nat, register: nat)

  datatype State = State(lock: Lock, counter: nat, procs: seq<Process>)

  function Start(c: Config): State {
    State(Free, 0, seq(|c.owners|, _ => Process(Locking, 0, 0)))
  }

  predicate Enabled(c: Config, s: State, p: nat) {
    && p < |s.procs| == |c.owners|
    && (s.procs[p].pc == Locking ==>
          s.procs[p].done < c.rounds && (s.lock == Free || s.lock == HeldBy(c.owners[p])))
  }

  function Apply(c: Config, s: State, p: nat): State
    requires Enabled(c, s, p)
  {
    var q := s.procs[p];
    match q.pc
    case Locking => s.(lock := HeldBy(c.owners[p]), procs := s.procs[p := q.(pc := Loading)])
    case Loading => s.(procs := s.procs[p := q.(pc := Storing, register := s.counter)])
    case Storing => s.(counter := q.register + 1, procs := s.procs[p := q.(pc := Unlocking)])
    case Unlocking =>
      s.(lock := if s.lock == HeldBy(c.owners[p]) then Free else s.lock,
         procs := s.procs[p := q.(pc := Locking, done := q.done + 1)])
  }

  ghost predicate Next(c: Config, s: State, t: State) {
    exists p :: Enabled(c, s, p) && t == Apply(c, s, p)
  }

  ghost function Counter(c: Config): System<State> {
    System(Start(c), (s, t) => Next(c, s, t))
  }

  predicate Final(c: Config, s: State) {
    forall p | 0 <= p < |s.procs| :: s.procs[p].pc == Locking && s.procs[p].done == c.rounds
  }

  /** An unlock drops the lock of its own owner and leaves the lock of any other in place. */
  lemma UnlockIsOwn(c: Config, s: State, p: nat)
    requires Enabled(c, s, p) && s.procs[p].pc == Unlocking
    ensures s.lock == HeldBy(c.owners[p]) ==> Apply(c, s, p).lock == Free
    ensures s.lock != HeldBy(c.owners[p]) ==> Apply(c, s, p).lock == s.lock
  {}

  // ----- facts that hold whoever owns the lock -----

  function Stores(q: Process): nat {
    q.done + if q.pc == Unlocking then 1 else 0
  }

  ghost predicate RoundsFit(c: Config, s: State) {
    && |s.procs| == |c.owners|
    && (forall p | 0 <= p < |s.procs| ::
          s.procs[p].done <= c.rounds && (s.procs[p].pc != Locking ==> s.procs[p].done < c.rounds))
  }

  /** No value is larger than the number of stores, and none seen after a store is 0. */
  ghost predicate ValuesFit(s: State) {
    var stores := Total(Stores, s.procs);
    && s.counter <= stores && (stores > 0 ==> s.counter > 0)
    && (forall p | 0 <= p < |s.procs| :: s.procs[p].pc == Storing ==>
          s.procs[p].register <= stores && (s.procs[p].done > 0 ==> s.procs[p].register > 0))
  }

  /** While the counter is below 2 somebody still has a store to do. */
  ghost predicate LowMeansUnfinished(c: Config, s: State) {
    s.counter < 2 ==> exists p :: 0 <= p < |s.procs| && Stores(s.procs[p]) < c.rounds
  }

  /** A held lock belongs to a process between lock and unlock. */
  ghost predicate LockHasHolder(c: Config, s: State)
    requires |s.procs| == |c.owners|
  {
    s.lock.HeldBy? ==> exists p :: 0 <= p < |s.procs| && s.procs[p].pc != Locking && s.lock == HeldBy(c.owners[p])
  }

  lemma RoundsAreKept(c: Config, s: State, p: nat)
    requires RoundsFit(c, s) && Enabled(c, s, p)
    ensures RoundsFit(c, Apply(c, s, p))
  {}

  lemma StoresMove(c: Config, s: State, p: nat)
    requires Enabled(c, s, p)
    ensures Total(Stores, Apply(c, s, p).procs) == Total(Stores, s.procs) + if s.procs[p].pc == Storing then 1 else 0
  {
    TotalUpdate(Stores, s.procs, p, Apply(c, s, p).procs[p]);
  }

  lemma ValuesAreKept(c: Config, s: State, p: nat)
    requires ValuesFit(s) && Enabled(c, s, p)
    ensures ValuesFit(Apply(c, s, p))
  {
    StoresMove(c, s, p);
    TotalAtLeast(Stores, s.procs, p);
  }

  lemma LowIsKept(c: Config, s: State, p: nat)
    requires c.rounds >= 2 && ValuesFit(s) && LowMeansUnfinished(c, s) && Enabled(c, s, p)
    ensures LowMeansUnfinished(c, Apply(c, s, p))
  {
    var t := Apply(c, s, p);
    if t.counter < 2 && s.procs[p].pc == Storing {
      assert Stores(t.procs[p]) == 1;
    } else if t.counter < 2 {
      var q :| 0 <= q < |s.procs| && Stores(s.procs[q]) < c.rounds;
      assert Stores(t.procs[q]) < c.rounds;
    }
  }

  lemma HolderIsKept(c: Config, s: State, p: nat)
    requires |s.procs| == |c.owners| && LockHasHolder(c, s) && Enabled(c, s, p)
    ensures LockHasHolder(c, Apply(c, s, p))
  {
    var t := Apply(c, s, p);
    if s.procs[p].pc == Locking {
      assert t.procs[p].pc != Locking;
    } else if t.lock.HeldBy? {
      var q :| 0 <= q < |s.procs| && s.procs[q].pc != Locking && s.lock == HeldBy(c.owners[q]);
      assert t.procs[q].pc != Locking && t.lock == HeldBy(c.owners[q]);
    }
  }

  ghost predicate Inv(c: Config, s: State) {
    && RoundsFit(c, s) && ValuesFit(s) && LockHasHolder(c, s)
    && (c.rounds >= 2 && |c.owners| > 0 ==> LowMeansUnfinished(c, s))
  }

  lemma InvIsInductive(c: Config)
    ensures Inductive(Counter(c), x => Inv(c, x))
  {
    TotalZero(Stores, Start(c).procs);
    if |c.owners| > 0 {
      assert Stores(Start(c).procs[0]) == 0;
    }
    forall s, t | Inv(c, s) && Next(c, s, t) ensures Inv(c, t) {
      var p :| Enabled(c, s, p) && t == Apply(c, s, p);
      StepKeepsInv(c, s, p);
    }
  }

  lemma StepKeepsInv(c: Config, s: State, p: nat)
    requires Inv(c, s) && Enabled(c, s, p)
    ensures Inv(c, Apply(c, s, p))
  {
    RoundsAreKept(c, s, p);
    ValuesAreKept(c, s, p);
    HolderIsKept(c, s, p);
    if c.rounds >= 2 && |c.owners| > 0 {
      LowIsKept(c, s, p);
    }
  }

  lemma ReachableHoldsInv(c: Config, s: State)
    requires Reachable(Counter(c), s)
    ensures Inv(c, s)
  {
    InvIsInductive(c);
    InvariantWhenReachable(Counter(c), x => Inv(c, x), s);
  }

  lemma FinalStores(c: Config, s: State)
    requires Inv(c, s) && Final(c, s)
    ensures Total(Stores, s.procs) == |c.owners| * c.rounds
  {
    TotalUniform(Stores, s.procs, c.rounds);
  }

  /** Whoever owns the lock, a finished run with two or more rounds per process ends with a value
      from 2 to the number of increments. */
  lemma FinalValueIsBounded(c: Config, s: State)
    requires Reachable(Counter(c), s) && Final(c, s)
    ensures s.counter <= |c.owners| * c.rounds
    ensures c.rounds >= 2 && |c.owners| > 0 ==> s.counter >= 2
  {
    ReachableHoldsInv(c, s);
    FinalStores(c, s);
  }

  /** Some unfinished process can always step: no program blocks on its lock for ever. */
  lemma CounterMoves(c: Config, s: State) returns (p: nat)
    requires Reachable(Counter(c), s) && !Final(c, s)
    ensures Enabled(c, s, p)
  {
    ReachableHoldsInv(c, s);
    if s.lock.HeldBy? {
      p :| 0 <= p < |s.procs| && s.procs[p].pc != Locking && s.lock == HeldBy(c.owners[p]);
    } else {
      p :| 0 <= p < |s.procs| && !(s.procs[p].pc == Locking && s.procs[p].done == c.rounds);
    }
  }

  function Progress(pc: Pc): nat {
    match pc
    case Locking => 0
    case Loading => 1
    case Storing => 2
    case Unlocking => 3
  }

  function StepsOf(rounds: nat): Process -> nat {
    (q: Process) => if q.done < rounds then 4 * (rounds - q.done) - Progress(q.pc) else 0
  }

  /** Steps left, exactly: four per round. */
  function StepsLeft(c: Config, s: State): nat {
    Total(StepsOf(c.rounds), s.procs)
  }

  lemma StepLowersStepsLeft(c: Config, s: State, p: nat)
    requires RoundsFit(c, s) && Enabled(c, s, p)
    ensures StepsLeft(c, Apply(c, s, p)) + 1 == StepsLeft(c, s)
  {
    TotalUpdate(StepsOf(c.rounds), s.procs, p, Apply(c, s, p).procs[p]);
  }

  /** Every run ends within four steps per increment. */
  lemma CounterRunsAreBounded(c: Config, run: seq<State>)
    requires IsRun(Counter(c), run)
    ensures |run| - 1 <= |c.owners| * (4 * c.rounds)
  {
    InvIsInductive(c);
    forall s, t | Inv(c, s) && Next(c, s, t) ensures StepsLeft(c, t) < StepsLeft(c, s) {
      var p :| Enabled(c, s, p) && t == Apply(c, s, p);
      StepLowersStepsLeft(c, s, p);
    }
    RunsAreBounded(Counter(c), x => Inv(c, x), x => StepsLeft(c, x), run);
    TotalUniform(StepsOf(c.rounds), Start(c).procs, 4 * c.rounds);
  }

  // ----- different owners: the lock excludes -----

  predicate Distinct(owners: seq<nat>) {
    forall i, j | 0 <= i < j < |owners| :: owners[i] != owners[j]
  }

  ghost predicate Exclusive(c: Config, s: State) {
    && |s.procs| == |c.owners|
    && (forall p | 0 <= p < |s.procs| :: s.procs[p].pc != Locking <==> s.lock == HeldBy(c.owners[p]))
    && (forall p | 0 <= p < |s.procs| :: s.procs[p].pc == Storing ==> s.procs[p].register == s.counter)
    && s.counter == Total(Stores, s.procs)
  }

  lemma ExclusionIsKept(c: Config, s: State, p: nat)
    requires Distinct(c.owners) && Exclusive(c, s) && Enabled(c, s, p)
    ensures Exclusive(c, Apply(c, s, p))
  {
    StoresMove(c, s, p);
    assert forall q | 0 <= q < |s.procs| && q != p :: c.owners[q] != c.owners[p];
  }

  lemma ReachableIsExclusive(c: Config, s: State)
    requires Distinct(c.owners) && Reachable(Counter(c), s)
    ensures Exclusive(c, s)
  {
    TotalZero(Stores, Start(c).procs);
    forall s, t | Exclusive(c, s) && Next(c, s, t) ensures Exclusive(c, t) {
      var p :| Enabled(c, s, p) && t == Apply(c, s, p);
      ExclusionIsKept(c, s, p);
    }
    InvariantWhenReachable(Counter(c), x => Exclusive(c, x), s);
  }

  /** When no two processes lock as the same owner no increment is lost, on any run. */
  lemma DistinctOwnersCountExactly(c: Config, s: State)
    requires Distinct(c.owners) && Reachable(Counter(c), s) && Final(c, s)
    ensures s.counter == |c.owners| * c.rounds
  {
    ReachableIsExclusive(c, s);
    ReachableHoldsInv(c, s);
    FinalStores(c, s);
  }

  // ----- building runs -----

  function LeftOf(rounds: nat): Process -> nat {
    (q: Process) => if q.done < rounds then rounds - q.done else 0
  }

  /** Rounds not yet finished, over all processes. */
  function RoundsLeft(c: Config, s: State): nat {
    Total(LeftOf(c.rounds), s.procs)
  }

  predicate CanLock(c: Config, s: State, p: nat)
    requires p < |c.owners|
  {
    s.lock == Free || s.lock == HeldBy(c.owners[p])
  }

  lemma OneStep(c: Config, s: State, p: nat) returns (t: State)
    requires Reachable(Counter(c), s) && Enabled(c, s, p)
    ensures t == Apply(c, s, p) && Reachable(Counter(c), t)
  {
    t := Apply(c, s, p);
    StepIsReachable(Counter(c), s, t);
  }

  /** Process p runs one whole round undisturbed. */
  function AfterRound(s: State, p: nat): State
    requires p < |s.procs|
  {
    State(Free, s.counter + 1, s.procs[p := Process(Locking, s.procs[p].done + 1, s.counter)])
  }

  lemma WholeRound(c: Config, s: State, p: nat) returns (t: State)
    requires Reachable(Counter(c), s) && p < |s.procs| == |c.owners|
    requires s.procs[p].pc == Locking && s.procs[p].done < c.rounds && CanLock(c, s, p)
    ensures t == AfterRound(s, p) && Reachable(Counter(c), t)
    ensures RoundsLeft(c, t) + 1 == RoundsLeft(c, s)
  {
    t := OneStep(c, s, p);
    t := OneStep(c, t, p);
    t := OneStep(c, t, p);
    t := OneStep(c, t, p);
    assert t.procs == AfterRound(s, p).procs;
    TotalUpdate(LeftOf(c.rounds), s.procs, p, t.procs[p]);
  }

  predicate Resting(c: Config, s: State) {
    && |s.procs| == |c.owners| && s.lock == Free
    && forall p | 0 <= p < |s.procs| :: s.procs[p].pc == Locking
  }

  /** From rest, letting one process at a time finish counts every round that is left. */
  lemma {:induction false} FinishInTurn(c: Config, s: State) returns (t: State)
    requires Reachable(Counter(c), s) && Resting(c, s)
    ensures Reachable(Counter(c), t) && Final(c, t) && t.counter == s.counter + RoundsLeft(c, s)
    decreases RoundsLeft(c, s)
  {
    if RoundsLeft(c, s) == 0 {
      ReachableHoldsInv(c, s);
      forall p | 0 <= p < |s.procs| ensures s.procs[p].done == c.rounds {
        TotalAtLeast(LeftOf(c.rounds), s.procs, p);
      }
      t := s;
    } else {
      var p := TotalWitness(LeftOf(c.rounds), s.procs);
      t := WholeRound(c, s, p);
      t := FinishInTurn(c, t);
    }
  }

  lemma StartHasAllRounds(c: Config)
    ensures RoundsLeft(c, Start(c)) == |c.owners| * c.rounds
  {
    TotalUniform(LeftOf(c.rounds), Start(c).procs, c.rounds);
  }

  /** Process p has loaded; the lock is its owner's. */
  lemma LoadFirst(c: Config, s: State, p: nat) returns (t: State)
    requires Reachable(Counter(c), s) && p < |s.procs| == |c.owners|
    requires s.procs[p].pc == Locking && s.procs[p].done < c.rounds && CanLock(c, s, p)
    ensures t == State(HeldBy(c.owners[p]), s.counter, s.procs[p := Process(Storing, s.procs[p].done, s.counter)])
    ensures Reachable(Counter(c), t) && RoundsLeft(c, t) == RoundsLeft(c, s)
  {
    t := OneStep(c, s, p);
    t := OneStep(c, t, p);
    TotalUpdate(LeftOf(c.rounds), s.procs, p, t.procs[p]);
  }

  /** Process p stores what it loaded plus one, and unlocks. */
  lemma StoreLate(c: Config, s: State, p: nat) returns (t: State)
    requires Reachable(Counter(c), s) && p < |s.procs| == |c.owners|
    requires s.procs[p].pc == Storing && s.procs[p].done < c.rounds && CanLock(c, s, p)
    ensures t == State(Free, s.procs[p].register + 1, s.procs[p := Process(Locking, s.procs[p].done + 1, s.procs[p].register)])
    ensures Reachable(Counter(c), t) && RoundsLeft(c, t) + 1 == RoundsLeft(c, s)
  {
    t := OneStep(c, s, p);
    t := OneStep(c, t, p);
    TotalUpdate(LeftOf(c.rounds), s.procs, p, t.procs[p]);
  }

  // ----- a shared owner: updates are lost -----

  /** Two processes that lock as the same owner can lose an update. */
  lemma SharedOwnerLosesUpdate(c: Config, i: nat, j: nat) returns (t: State)
    requires i < j < |c.owners| && c.owners[i] == c.owners[j] && c.rounds > 0
    ensures Reachable(Counter(c), t) && Final(c, t) && t.counter == |c.owners| * c.rounds - 1
  {
    StartIsReachable(Counter(c));
    StartHasAllRounds(c);
    t := LoadFirst(c, Start(c), i);
    t := WholeRound(c, t, j);
    t := StoreLate(c, t, i);
    t := FinishInTurn(c, t);
  }

  /** Every run counts all increments if and only if no two processes lock as the same owner
      (or there is nothing to count). */
  lemma OwnersDecideTheCount(c: Config)
    ensures (forall s :: Reachable(Counter(c), s) && Final(c, s) ==> s.counter == |c.owners| * c.rounds)
            <==> (Distinct(c.owners) || c.rounds == 0)
  {
    if Distinct(c.owners) {
      forall s | Reachable(Counter(c), s) && Final(c, s) ensures s.counter == |c.owners| * c.rounds {
        DistinctOwnersCountExactly(c, s);
      }
    } else if c.rounds == 0 {
      forall s | Reachable(Counter(c), s) && Final(c, s) ensures s.counter == |c.owners| * c.rounds {
        FinalValueIsBounded(c, s);
      }
    } else {
      var i, j :| 0 <= i < j < |c.owners| && c.owners[i] == c.owners[j];
      var t := SharedOwnerLosesUpdate(c, i, j);
    }
  }

  predicate SameOwner(c: Config) {
    forall p | 0 <= p < |c.owners| :: c.owners[p] == c.owners[0]
  }

  /** Process 0 is inside its first round, the others between rounds, and process 1 has a round left. */
  predicate ZeroInside(c: Config, s: State) {
    && |s.procs| == |c.owners| >= 2
    && (s.lock == Free || s.lock == HeldBy(c.owners[0]))
    && s.procs[0] == Process(Storing, 0, 0)
    && s.procs[1].done < c.rounds
    && forall p | 0 < p < |s.procs| :: s.procs[p].pc == Locking
  }

  /** A process other than 0 that can spend a round and leave one for process 1. */
  lemma PickSpender(c: Config, s: State) returns (p: nat)
    requires ZeroInside(c, s) && RoundsLeft(c, s) >= c.rounds + 2
    ensures 0 < p < |s.procs| && s.procs[p].done < c.rounds && (p == 1 ==> s.procs[1].done + 1 < c.rounds)
  {
    if s.procs[1].done + 1 < c.rounds {
      p := 1;
    } else {
      var f := LeftOf(c.rounds);
      var finished := Process(Locking, c.rounds, 0);
      var rest := s.procs[0 := finished];
      TotalUpdate(f, s.procs, 0, finished);
      TotalUpdate(f, rest, 1, finished);
      p := TotalWitness(f, rest[1 := finished]);
    }
  }

  /** x rounds of the other processes pass while process 0 holds what it loaded. */
  lemma {:induction false} SpendRounds(c: Config, s: State, x: nat) returns (t: State)
    requires SameOwner(c) && Reachable(Counter(c), s) && ZeroInside(c, s) && RoundsLeft(c, s) >= c.rounds + x + 1
    ensures Reachable(Counter(c), t) && ZeroInside(c, t) && RoundsLeft(c, t) + x == RoundsLeft(c, s)
    decreases x
  {
    if x == 0 {
      t := s;
    } else {
      var p := PickSpender(c, s);
      t := WholeRound(c, s, p);
      t := SpendRounds(c, t, x - 1);
    }
  }

  /** y rounds of process 0 pass while process 1 holds what it loaded. */
  lemma {:induction false} SpendOwnRounds(c: Config, s: State, y: nat) returns (t: State)
    requires SameOwner(c) && Reachable(Counter(c), s) && |s.procs| == |c.owners| >= 2
    requires s.procs[0].pc == Locking && s.procs[0].done + y <= c.rounds && CanLock(c, s, 0)
    ensures Reachable(Counter(c), t) && RoundsLeft(c, t) + y == RoundsLeft(c, s)
    ensures |t.procs| == |s.procs| && t.procs == s.procs[0 := t.procs[0]] && t.procs[0].pc == Locking && CanLock(c, t, 0)
    decreases y
  {
    t := s;
    if y > 0 {
      t := WholeRound(c, s, 0);
      t := SpendOwnRounds(c, t, y - 1);
    }
  }

  /** A run that wastes x rounds behind the first store of process 0 and y rounds behind a store
      of process 1 loses exactly x + y increments. */
  lemma WasteRounds(c: Config, x: nat, y: nat) returns (t: State)
    requires SameOwner(c) && |c.owners| >= 2 && c.rounds >= 2
    requires y < c.rounds && c.rounds + x + 1 <= |c.owners| * c.rounds
    ensures Reachable(Counter(c), t) && Final(c, t) && t.counter + x + y == |c.owners| * c.rounds
  {
    StartIsReachable(Counter(c));
    StartHasAllRounds(c);
    t := LoadFirst(c, Start(c), 0);
    t := SpendRounds(c, t, x);
    t := StoreLate(c, t, 0);
    t := LoadFirst(c, t, 1);
    t := SpendOwnRounds(c, t, y);
    t := StoreLate(c, t, 1);
    t := FinishInTurn(c, t);
  }

  /** With a lock owned by the shared description, and two or more processes and rounds, the
      final values are exactly the values from 2 to the number of increments. */
  lemma SharedDescriptionValues(n: nat, rounds: nat, v: nat)
    requires n >= 2 && rounds >= 2
    ensures (exists s :: Reachable(Counter(DescriptionOwned(n, rounds)), s)
                         && Final(DescriptionOwned(n, rounds), s) && s.counter == v)
            <==> 2 <= v <= n * rounds
  {
    var c := DescriptionOwned(n, rounds);
    if s :| Reachable(Counter(c), s) && Final(c, s) && s.counter == v {
      FinalValueIsBounded(c, s);
    }
    if 2 <= v <= n * rounds {
      var waste := n * rounds - v;
      var y := if waste < rounds then waste else rounds - 1;
      assert n * rounds >= 2 * rounds;
      var t := WasteRounds(c, waste - y, y);
    }
  }

  /** With a lock owned by each process the final value is the number of increments. */
  lemma ProcessOwnedValue(n: nat, rounds: nat, s: State)
    requires Reachable(Counter(ProcessOwned(n, rounds)), s) && Final(ProcessOwned(n, rounds), s)
    ensures s.counter == n * rounds
  {
    DistinctOwnersCountExactly(ProcessOwned(n, rounds), s);
  }

  // ----- the mapped file, updated in place -----

  class MappedFile {
    const config: Config
    const procs: array<Process>
    var lock: Lock
    var counter: nat

    function View(): State
      reads this, procs
    {
      State(lock, counter, procs[..])
    }

    constructor (config: Config)
      ensures this.config == config && fresh(procs) && View() == Start(config)
    {
      this.config, lock, counter := config, Free, 0;
      procs := new Process[|config.owners|](_ => Process(Locking, 0, 0));
    }

    /** The next step of process p: lock, load, store or unlock. */
    method Step(p: nat)
      requires Enabled(config, View(), p)
      modifies this, procs
      ensures View() == Apply(config, old(View()), p)
    {
      var q := procs[p];
      match q.pc
      case Locking =>
        lock := HeldBy(config.owners[p]);
        procs[p] := q.(pc := Loading);
      case Loading => procs[p] := q.(pc := Storing, register := counter);
      case Storing =>
        counter := q.register + 1;
        procs[p] := q.(pc := Unlocking);
      case Unlocking =>
        if lock == HeldBy(config.owners[p]) {
          lock := Free;
        }
        procs[p] := q.(pc := Locking, done := q.done + 1);
    }
  }

  /** Either program under any scheduler: it ends, no update is lost when the owners are distinct,
      and at least 2 is left when they are not. */
  method RunCounter(c: Config) returns (counter: nat)
    ensures counter <= |c.owners| * c.rounds
    ensures Distinct(c.owners) ==> counter == |c.owners| * c.rounds
    ensures c.rounds >= 2 && |c.owners| > 0 ==> counter >= 2
  {
    var file := new MappedFile(c);
    StartIsReachable(Counter(c));
    while !Final(c, file.View())
      invariant file.config == c && Reachable(Counter(c), file.View())
      decreases StepsLeft(c, file.View())
    {
      ghost var s := file.View();
      var some := CounterMoves(c, s);
      var p: nat :| Enabled(c, file.View(), p);
      ReachableHoldsInv(c, s);
      StepLowersStepsLeft(c, s, p);
      StepIsReachable(Counter(c), s, Apply(c, s, p));
      file.Step(p);
    }
    FinalValueIsBounded(c, file.View());
    if Distinct(c.owners) {
      DistinctOwnersCountExactly(c, file.View());
    }
    counter := file.counter;
  }
}
