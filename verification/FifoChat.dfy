/** Pipes/fifo_select_chat.c: a parent and its child each open a FIFO to read, then one to write,
    and go through rounds of write, `select` and `read`. The parent then waits for the child with
    its own descriptors still open. A read takes a non-empty run of whole queued messages, as all
    messages that can be queued at once fit the buffer (see FifoHoldsAtMostTwo). */
module FifoChat {
  import opened StepSystems
  import opened Totals

  /** `draining`: every read takes all that is queued, as Linux does; otherwise any run. */
  datatype Config = Config(rounds: nat, draining: bool)

  /** Returned: the parent waits for the child, the child is about to exit. */
  datatype Pc = OpeningRx | OpeningTx | Writing | Selecting | Reading | Returned | Exited

  /** `inbox` is the FIFO the peer takes from and `done` its finished rounds; messages are numbered 1, 2, 3, ... by their writer. */
  datatype Peer = Peer(pc: Pc, written: nat, done: nat, received: seq<nat>, inbox: seq<nat>)

  datatype Side = Parent | Child

  datatype State = State(parent: Peer, child: Peer)

  /** The next step of one side; `take` is the number of messages a read takes. */
  datatype Action = Action(side: Side, take: nat)

  function Get(s: State, side: Side): Peer {
    match side
    case Parent => s.parent
    case Child => s.child
  }

  function Opposite(side: Side): Side {
    if side == Parent then Child else Parent
  }

  const BEGIN := Peer(OpeningRx, 0, 0, [], [])

  function Start(): State {
    State(BEGIN, BEGIN)
  }

  function Top(c: Config, done: nat): Pc {
    if done < c.rounds then Writing else Returned
  }

  predicate CanMove(c: Config, side: Side, me: Peer, other: Peer, take: nat) {
    match me.pc
    case OpeningRx => true
    case OpeningTx => other.pc != OpeningRx && other.pc != Exited
    case Writing => true
    case Selecting => me.inbox != [] || other.pc == Exited
    case Reading => take <= |me.inbox| && (me.inbox != [] ==> take > 0 && (c.draining ==> take == |me.inbox|))
    case Returned => side == Child || other.pc == Exited
    case Exited => false
  }

  /** The step of the peer me, and the other side's FIFO after it. */
  function Move(c: Config, side: Side, me: Peer, other: Peer, take: nat): (Peer, Peer)
    requires CanMove(c, side, me, other, take)
  {
    match me.pc
    case OpeningRx => (me.(pc := OpeningTx), other)
    case OpeningTx => (me.(pc := Top(c, 0)), other)
    case Writing =>
      (me.(pc := Selecting, written := me.written + 1), other.(inbox := other.inbox + [me.written + 1]))
    case Selecting => (me.(pc := Reading), other)
    case Reading =>
      (me.(pc := Top(c, me.done + 1), done := me.done + 1,
           received := me.received + me.inbox[..take], inbox := me.inbox[take..]), other)
    case Returned => (me.(pc := Exited), other)
  }

  predicate Enabled(c: Config, s: State, a: Action) {
    CanMove(c, a.side, Get(s, a.side), Get(s, Opposite(a.side)), a.take)
  }

  function Apply(c: Config, s: State, a: Action): State
    requires Enabled(c, s, a)
  {
    match a.side
    case Parent =>
      var (parent, child) := Move(c, Parent, s.parent, s.child, a.take);
      State(parent, child)
    case Child =>
      var (child, parent) := Move(c, Child, s.child, s.parent, a.take);
      State(parent, child)
  }

  /** A read takes any non-empty run of what is there, and the whole of it in the draining mode,
      which then leaves the FIFO empty. At the end of file it takes nothing. */
  lemma ReadTakes(c: Config, s: State, side: Side, take: nat)
    requires Get(s, side).pc == Reading
    ensures Enabled(c, s, Action(side, take)) <==>
              var n := |Get(s, side).inbox|;
              if n == 0 then take == 0 else if c.draining then take == n else 1 <= take <= n
    ensures Enabled(c, s, Action(side, take)) && c.draining ==>
              Get(Apply(c, s, Action(side, take)), side).inbox == []
  {}

  ghost predicate Next(c: Config, s: State, t: State) {
    exists a :: Enabled(c, s, a) && t == Apply(c, s, a)
  }

  ghost function Chat(c: Config): System<State> {
    System(Start(), (s, t) => Next(c, s, t))
  }

  predicate Final(s: State) {
    s.parent.pc == Exited && s.child.pc == Exited
  }

  // ----- the invariant -----

  predicate Opening(pc: Pc) { pc == OpeningRx || pc == OpeningTx }

  /** Between its write and its read. */
  predicate Expecting(pc: Pc) { pc == Selecting || pc == Reading }

  predicate LoopFits(c: Config, me: Peer) {
    match me.pc
    case OpeningRx => me.written == me.done == 0
    case OpeningTx => me.written == me.done == 0
    case Writing => me.written == me.done < c.rounds
    case Selecting => me.written == me.done + 1 <= c.rounds
    case Reading => me.written == me.done + 1 <= c.rounds
    case Returned => me.written == me.done == c.rounds
    case Exited => me.written == me.done == c.rounds
  }

  /** What me has read and what waits for it is what the other side wrote, in order; every read
      got something, unless the writer has exited and nothing is left. */
  predicate StreamFits(me: Peer, other: Peer) {
    && me.received + me.inbox == UpTo(other.written)
    && (|me.received| >= me.done || (me.inbox == [] && other.pc == Exited))
    && (me.done == 0 ==> me.received == [])
    && (me.pc == Reading ==> me.inbox != [] || other.pc == Exited)
  }

  /** How the two sides can stand to each other. */
  predicate SidesFit(c: Config, s: State) {
    && (Expecting(s.parent.pc) && Expecting(s.child.pc) ==> s.parent.inbox != [] || s.child.inbox != [])
    && (s.parent.pc == Exited ==> s.child.pc == Exited)
    && (s.parent.pc == OpeningRx ==> Opening(s.child.pc))
    && (s.child.pc == OpeningRx ==> Opening(s.parent.pc))
    && (c.rounds > 0 && s.child.pc == Exited ==> s.parent.written == c.rounds)
  }

  predicate Inv(c: Config, s: State) {
    && LoopFits(c, s.parent) && LoopFits(c, s.child)
    && StreamFits(s.parent, s.child) && StreamFits(s.child, s.parent)
    && SidesFit(c, s)
  }

  lemma ReadKeepsStream(me: Peer, other: Peer, take: nat, pc: Pc)
    requires StreamFits(me, other) && me.pc == Reading && take <= |me.inbox| && (me.inbox != [] ==> take > 0)
    requires pc != Reading
    ensures StreamFits(me.(pc := pc, done := me.done + 1, received := me.received + me.inbox[..take],
                           inbox := me.inbox[take..]), other)
  {
    assert me.received + me.inbox[..take] + me.inbox[take..] == me.received + me.inbox;
  }

  lemma WriteKeepsStream(me: Peer, other: Peer)
    requires StreamFits(other, me) && me.pc != Exited
    ensures StreamFits(other.(inbox := other.inbox + [me.written + 1]), me.(pc := Selecting, written := me.written + 1))
  {
    assert other.received + (other.inbox + [me.written + 1]) == other.received + other.inbox + [me.written + 1];
  }

  /** A step keeps the loop of the side that takes it and both streams. */
  lemma MoveKeepsPeers(c: Config, side: Side, me: Peer, other: Peer, take: nat)
    requires LoopFits(c, me) && LoopFits(c, other) && StreamFits(me, other) && StreamFits(other, me)
    requires CanMove(c, side, me, other, take)
    ensures var (me', other') := Move(c, side, me, other, take);
            LoopFits(c, me') && LoopFits(c, other') && StreamFits(me', other') && StreamFits(other', me')
  {
    if me.pc == Reading {
      ReadKeepsStream(me, other, take, Top(c, me.done + 1));
    } else if me.pc == Writing {
      WriteKeepsStream(me, other);
    }
  }

  lemma ParentKeepsSides(c: Config, s: State, a: Action)
    requires Inv(c, s) && Enabled(c, s, a) && a.side == Parent
    ensures SidesFit(c, Apply(c, s, a))
  {}

  /** The child has read something in every round when it exits, so the parent has written all. */
  lemma ChildKeepsSides(c: Config, s: State, a: Action)
    requires Inv(c, s) && Enabled(c, s, a) && a.side == Child
    ensures SidesFit(c, Apply(c, s, a))
  {
    assert |s.child.received| + |s.child.inbox| == s.parent.written;
  }

  lemma StepKeepsInv(c: Config, s: State, a: Action)
    requires Inv(c, s) && Enabled(c, s, a)
    ensures Inv(c, Apply(c, s, a))
  {
    MoveKeepsPeers(c, a.side, Get(s, a.side), Get(s, Opposite(a.side)), a.take);
    if a.side == Parent {
      ParentKeepsSides(c, s, a);
    } else {
      ChildKeepsSides(c, s, a);
    }
  }

  lemma InvIsInductive(c: Config)
    ensures Inductive(Chat(c), x => Inv(c, x))
  {
    forall s, t | Inv(c, s) && Next(c, s, t) ensures Inv(c, t) {
      var a :| Enabled(c, s, a) && t == Apply(c, s, a);
      StepKeepsInv(c, s, a);
    }
  }

  lemma ReachableHoldsInv(c: Config, s: State)
    requires Reachable(Chat(c), s)
    ensures Inv(c, s)
  {
    InvIsInductive(c);
    InvariantWhenReachable(Chat(c), x => Inv(c, x), s);
  }

  // ----- safety -----

  /** Never are both sides blocked in `select`; nobody writes to a FIFO whose reader has exited;
      and what a side has read is a prefix of what the other wrote. */
  lemma ChatIsSafe(c: Config, s: State, side: Side)
    requires Reachable(Chat(c), s)
    ensures !(s.parent.pc == Selecting && s.child.pc == Selecting && s.parent.inbox == [] && s.child.inbox == [])
    ensures Get(s, side).pc == Writing ==> Get(s, Opposite(side)).pc != Exited
    ensures !Opening(Get(s, side).pc) ==> Get(s, Opposite(side)).pc != OpeningRx
    ensures Get(s, side).received + Get(s, side).inbox == UpTo(Get(s, Opposite(side)).written)
  {
    ReachableHoldsInv(c, s);
  }

  /** However many rounds, a FIFO never holds more than two messages. */
  lemma FifoHoldsAtMostTwo(c: Config, s: State, side: Side)
    requires Reachable(Chat(c), s)
    ensures |Get(s, side).inbox| <= 2
  {
    ReachableHoldsInv(c, s);
    assert |s.parent.received| + |s.parent.inbox| == s.child.written;
    assert |s.child.received| + |s.child.inbox| == s.parent.written;
  }

  /** When both sides are done, both have read every message. */
  lemma FinalMeansAllReceived(c: Config, s: State)
    requires Reachable(Chat(c), s) && Final(s)
    ensures s.parent.received == s.child.received == UpTo(c.rounds) && s.parent.inbox == s.child.inbox == []
  {
    ReachableHoldsInv(c, s);
    AllReceived(c, s.parent, s.child);
    AllReceived(c, s.child, s.parent);
  }

  lemma AllReceived(c: Config, me: Peer, other: Peer)
    requires StreamFits(me, other) && me.done == c.rounds == other.written
    ensures me.received == UpTo(c.rounds) && me.inbox == []
  {
    assert |me.received| + |me.inbox| == c.rounds;
    assert me.received == (me.received + me.inbox)[..|me.received|];
  }

  // ----- exactly when the chat can hang -----

  /** The parent waits for a child that is in its last `select`, has already read all the parent
      will ever write, and sees no end of file because the parent's FIFO is still open. */
  predicate LateChild(c: Config, s: State) {
    && s.parent.pc == Returned && s.child.pc == Selecting
    && s.child.done + 1 == c.rounds && s.child.received == UpTo(c.rounds) && s.child.inbox == []
  }

  /** The parent waits to open a FIFO whose reader has come and gone. */
  predicate LateOpen(s: State) {
    s.parent.pc == OpeningTx && s.child.pc == Exited
  }

  lemma Blocked(c: Config, s: State, side: Side)
    requires Inv(c, s) && Stuck(Chat(c), s)
    ensures var me, other := Get(s, side), Get(s, Opposite(side));
            || me.pc == Exited
            || (me.pc == OpeningTx && (other.pc == OpeningRx || other.pc == Exited))
            || (me.pc == Selecting && me.inbox == [] && other.pc != Exited)
            || (me.pc == Returned && side == Parent && other.pc != Exited)
  {
    var me := Get(s, side);
    var a := Action(side, |me.inbox|);
    assert Enabled(c, s, a) ==> Chat(c).next(s, Apply(c, s, a));
  }

  /** With at least one round, the only way to hang is the late child. */
  lemma StuckIsLateChild(c: Config, s: State)
    requires c.rounds > 0 && Reachable(Chat(c), s) && Stuck(Chat(c), s) && !Final(s)
    ensures LateChild(c, s) && c.rounds >= 2
  {
    ReachableHoldsInv(c, s);
    Blocked(c, s, Parent);
    Blocked(c, s, Child);
    assert |s.parent.received| + |s.parent.inbox| == s.child.written;
    assert s.child.received == s.child.received + s.child.inbox;
  }

  /** The late child is stuck indeed. */
  lemma LateChildIsStuck(c: Config, s: State)
    requires LateChild(c, s)
    ensures Stuck(Chat(c), s) && !Final(s)
  {
    forall a ensures !Enabled(c, s, a) {}
  }

  lemma OneStep(c: Config, s: State, side: Side, take: nat) returns (t: State)
    requires Reachable(Chat(c), s) && Enabled(c, s, Action(side, take))
    ensures t == Apply(c, s, Action(side, take)) && Reachable(Chat(c), t)
  {
    t := Apply(c, s, Action(side, take));
    assert Next(c, s, t);
    StepIsReachable(Chat(c), s, t);
  }

  /** Both sides about to write after m rounds in step. */
  function InStep(m: nat): State {
    State(Peer(Writing, m, m, UpTo(m), []), Peer(Writing, m, m, UpTo(m), []))
  }

  lemma OpenBoth(c: Config) returns (t: State)
    ensures Reachable(Chat(c), t) && t == State(Peer(Top(c, 0), 0, 0, [], []), Peer(Top(c, 0), 0, 0, [], []))
  {
    StartIsReachable(Chat(c));
    t := OneStep(c, Start(), Parent, 0);
    t := OneStep(c, t, Child, 0);
    t := OneStep(c, t, Parent, 0);
    t := OneStep(c, t, Child, 0);
  }

  /** Both sides write, then the parent reads the one message it has. */
  lemma BothWriteParentReads(c: Config, m: nat) returns (t: State)
    requires Reachable(Chat(c), InStep(m)) && m < c.rounds
    ensures Reachable(Chat(c), t)
    ensures t == State(Peer(Top(c, m + 1), m + 1, m + 1, UpTo(m + 1), []),
                       Peer(Selecting, m + 1, m, UpTo(m), [m + 1]))
  {
    t := OneStep(c, InStep(m), Parent, 0);
    t := OneStep(c, t, Child, 0);
    t := OneStep(c, t, Parent, 0);
    t := OneStep(c, t, Parent, 1);
  }

  lemma {:induction false} InStepIsReachable(c: Config, m: nat)
    requires m < c.rounds
    ensures Reachable(Chat(c), InStep(m))
  {
    if m == 0 {
      var t := OpenBoth(c);
    } else {
      InStepIsReachable(c, m - 1);
      var t := BothWriteParentReads(c, m - 1);
      t := OneStep(c, t, Child, 0);
      t := OneStep(c, t, Child, 1);
    }
  }

  /** One round before the end the parent gets ahead, so that the child's next read takes two
      messages; then the parent's last read is answered and the child's last `select` is not. */
  lemma LateChildIsReachable(c: Config) returns (t: State)
    requires c.rounds >= 2
    ensures Reachable(Chat(c), t) && LateChild(c, t)
  {
    var m := c.rounds - 2;
    InStepIsReachable(c, m);
    t := BothWriteParentReads(c, m);
    t := OneStep(c, t, Parent, 0);
    t := OneStep(c, t, Child, 0);
    assert t.child.inbox == [m + 1, m + 2];
    t := OneStep(c, t, Child, 2);
    t := OneStep(c, t, Child, 0);
    t := OneStep(c, t, Parent, 0);
    t := OneStep(c, t, Parent, 1);
  }

  /** With no rounds at all the parent can be too late to open its FIFO for writing. */
  lemma LateOpenIsReachable(c: Config) returns (t: State)
    requires c.rounds == 0
    ensures Reachable(Chat(c), t) && Stuck(Chat(c), t) && !Final(t) && LateOpen(t)
  {
    StartIsReachable(Chat(c));
    t := OneStep(c, Start(), Parent, 0);
    t := OneStep(c, t, Child, 0);
    t := OneStep(c, t, Child, 0);
    t := OneStep(c, t, Child, 0);
    forall a ensures !Enabled(c, t, a) {}
  }

  /** The chat can hang if and only if the number of rounds is not 1. */
  lemma ChatCanHang(c: Config)
    ensures (exists s :: Reachable(Chat(c), s) && Stuck(Chat(c), s) && !Final(s)) <==> c.rounds != 1
  {
    if c.rounds == 0 {
      var t := LateOpenIsReachable(c);
    } else if c.rounds >= 2 {
      var t := LateChildIsReachable(c);
      LateChildIsStuck(c, t);
    } else {
      forall s | Reachable(Chat(c), s) && Stuck(Chat(c), s) && !Final(s) ensures false {
        StuckIsLateChild(c, s);
      }
    }
  }

  // ----- every run ends -----

  function PcLeft(c: Config, me: Peer): nat {
    match me.pc
    case OpeningRx => 3 + 3 * c.rounds
    case OpeningTx => 2 + 3 * c.rounds
    case Writing => if me.done < c.rounds then 1 + 3 * (c.rounds - me.done) else 0
    case Selecting => if me.done < c.rounds then 3 * (c.rounds - me.done) else 0
    case Reading => if me.done < c.rounds then 3 * (c.rounds - me.done) - 1 else 0
    case Returned => 1
    case Exited => 0
  }

  lemma MoveLowersLeft(c: Config, side: Side, me: Peer, other: Peer, take: nat)
    requires LoopFits(c, me) && CanMove(c, side, me, other, take)
    ensures var (me', other') := Move(c, side, me, other, take);
            PcLeft(c, me') + 1 == PcLeft(c, me) && PcLeft(c, other') == PcLeft(c, other)
  {}

  lemma StepLowersLeft(c: Config, s: State, a: Action)
    requires Inv(c, s) && Enabled(c, s, a)
    ensures var t := Apply(c, s, a);
            PcLeft(c, t.parent) + PcLeft(c, t.child) + 1 == PcLeft(c, s.parent) + PcLeft(c, s.child)
  {
    MoveLowersLeft(c, a.side, Get(s, a.side), Get(s, Opposite(a.side)), a.take);
  }

  /** Every run ends, in the final state or in a hang, within three steps per round and side and
      six more. */
  lemma ChatRunsAreBounded(c: Config, run: seq<State>)
    requires IsRun(Chat(c), run)
    ensures |run| - 1 <= 6 * c.rounds + 6
  {
    InvIsInductive(c);
    forall s, t | Inv(c, s) && Next(c, s, t)
      ensures PcLeft(c, t.parent) + PcLeft(c, t.child) < PcLeft(c, s.parent) + PcLeft(c, s.child)
    {
      var a :| Enabled(c, s, a) && t == Apply(c, s, a);
      StepLowersLeft(c, s, a);
    }
    RunsAreBounded(Chat(c), x => Inv(c, x), (x: State) => PcLeft(c, x.parent) + PcLeft(c, x.child), run);
  }

  // ----- the two peers, updated in place -----

  class Endpoint {
    var pc: Pc
    var written: nat
    var done: nat
    var received: seq<nat>
    var inbox: seq<nat>

    function View(): Peer
      reads this
    {
      Peer(pc, written, done, received, inbox)
    }

    constructor ()
      ensures View() == BEGIN
    {
      pc, written, done, received, inbox := OpeningRx, 0, 0, [], [];
    }

    /** The next step of this peer against the other one. */
    method Step(c: Config, side: Side, other: Endpoint, take: nat)
      requires this != other && CanMove(c, side, View(), other.View(), take)
      modifies this, other
      ensures (View(), other.View()) == Move(c, side, old(View()), old(other.View()), take)
    {
      match pc
      case OpeningRx => pc := OpeningTx;
      case OpeningTx => pc := Top(c, 0);
      case Writing =>
        written := written + 1;
        other.inbox := other.inbox + [written];
        pc := Selecting;
      case Selecting => pc := Reading;
      case Reading =>
        received, inbox := received + inbox[..take], inbox[take..];
        done := done + 1;
        pc := Top(c, done);
      case Returned => pc := Exited;
    }
  }

  /** A side that can step at all can step taking everything queued. */
  predicate Ready(c: Config, s: State, side: Side) {
    Enabled(c, s, Action(side, |Get(s, side).inbox|))
  }

  lemma StuckWhenNobodyReady(c: Config, s: State)
    requires !Ready(c, s, Parent) && !Ready(c, s, Child)
    ensures Stuck(Chat(c), s)
  {
    forall a | Enabled(c, s, a) ensures Ready(c, s, a.side) {}
  }

  lemma StepStaysReachable(c: Config, s: State, a: Action)
    requires Reachable(Chat(c), s) && Enabled(c, s, a)
    ensures var t := Apply(c, s, a);
            && Reachable(Chat(c), t)
            && PcLeft(c, t.parent) + PcLeft(c, t.child) < PcLeft(c, s.parent) + PcLeft(c, s.child)
  {
    ReachableHoldsInv(c, s);
    StepLowersLeft(c, s, a);
    StepIsReachable(Chat(c), s, Apply(c, s, a));
  }

  /** The whole program under any scheduler: it stops with both sides done and every message read,
      or with the late child. */
  method RunChat(c: Config) returns (s: State)
    requires c.rounds > 0
    ensures Final(s) || (c.rounds >= 2 && LateChild(c, s))
    ensures Final(s) ==> s.parent.received == s.child.received == UpTo(c.rounds)
  {
    var parent := new Endpoint();
    var child := new Endpoint();
    s := State(parent.View(), child.View());
    StartIsReachable(Chat(c));
    while Ready(c, s, Parent) || Ready(c, s, Child)
      invariant s == State(parent.View(), child.View()) && Reachable(Chat(c), s)
      decreases PcLeft(c, s.parent) + PcLeft(c, s.child)
    {
      var a :| Enabled(c, s, a);
      StepStaysReachable(c, s, a);
      if a.side == Parent {
        parent.Step(c, Parent, child, a.take);
      } else {
        child.Step(c, Child, parent, a.take);
      }
      s := State(parent.View(), child.View());
    }
    if Final(s) {
      FinalMeansAllReceived(c, s);
    } else {
      StuckWhenNobodyReady(c, s);
      StuckIsLateChild(c, s);
    }
  }
}
