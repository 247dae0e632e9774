/** Semaphores/posix_named_sem_pingpong.c: two processes take turns through two semaphores, `ping`
    starting at 1 and `pong` at 0. The parent waits on ping, prints and posts pong; the child does
    the reverse. No handler is installed, so `sem_wait` is taken to be uninterrupted. */
module PingPong {
  import opened StepSystems

  datatype Event = Ping(n: nat) | Pong(n: nat)

  datatype Pc = Waiting | Printing | Posting | Over

  datatype Player = Player(pc: Pc, i: nat)

  datatype State = State(ping: nat, pong: nat, parent: Player, child: Player, events: seq<Event>)

  datatype Side = Parent | Child

  function Top(rounds: nat, i: nat): Player {
    Player(if i < rounds then Waiting else Over, i)
  }

  function Start(rounds: nat): State {
    State(1, 0, Top(rounds, 0), Top(rounds, 0), [])
  }

  predicate Enabled(s: State, side: Side) {
    match side
    case Parent => s.parent.pc != Over && (s.parent.pc == Waiting ==> s.ping > 0)
    case Child => s.child.pc != Over && (s.child.pc == Waiting ==> s.pong > 0)
  }

  function Apply(rounds: nat, s: State, side: Side): State
    requires Enabled(s, side)
  {
    match side
    case Parent =>
      var me := s.parent;
      (match me.pc
       case Waiting => s.(ping := s.ping - 1, parent := me.(pc := Printing))
       case Printing => s.(events := s.events + [Ping(me.i + 1)], parent := me.(pc := Posting))
       case Posting => s.(pong := s.pong + 1, parent := Top(rounds, me.i + 1)))
    case Child =>
      var me := s.child;
      match me.pc
      case Waiting => s.(pong := s.pong - 1, child := me.(pc := Printing))
      case Printing => s.(events := s.events + [Pong(me.i + 1)], child := me.(pc := Posting))
      case Posting => s.(ping := s.ping + 1, child := Top(rounds, me.i + 1))
  }

  ghost predicate Next(rounds: nat, s: State, t: State) {
    exists side :: Enabled(s, side) && t == Apply(rounds, s, side)
  }

  ghost function Game(rounds: nat): System<State> {
    System(Start(rounds), (s, t) => Next(rounds, s, t))
  }

  predicate Final(s: State) {
    s.parent.pc == Over && s.child.pc == Over
  }

  function Inside(p: Player): nat { if p.pc == Printing || p.pc == Posting then 1 else 0 }

  function Printed(p: Player): nat { p.i + if p.pc == Posting then 1 else 0 }

  /** ping 1, pong 1, ping 2, pong 2, ... up to p pings and q pongs. */
  function Turns(p: nat, q: nat): seq<Event>
    requires q <= p <= q + 1
    decreases p + q
  {
    if p == 0 then [] else if p == q then Turns(p, q - 1) + [Pong(q)] else Turns(p - 1, q) + [Ping(p)]
  }

  ghost predicate TokensFit(rounds: nat, s: State) {
    && s.parent.i <= rounds && (s.parent.pc == Over <==> s.parent.i == rounds)
    && s.child.i <= rounds && (s.child.pc == Over <==> s.child.i == rounds)
    && s.ping + s.parent.i + Inside(s.parent) == 1 + s.child.i
    && s.pong + s.child.i + Inside(s.child) == s.parent.i
  }

  ghost predicate Inv(rounds: nat, s: State) {
    && TokensFit(rounds, s)
    && Printed(s.child) <= Printed(s.parent) <= Printed(s.child) + 1
    && s.events == Turns(Printed(s.parent), Printed(s.child))
  }

  lemma StepKeepsInv(rounds: nat, s: State, side: Side)
    requires Inv(rounds, s) && Enabled(s, side)
    ensures Inv(rounds, Apply(rounds, s, side))
  {}

  lemma InvIsInductive(rounds: nat)
    ensures Inductive(Game(rounds), x => Inv(rounds, x))
  {
    forall s, t | Inv(rounds, s) && Next(rounds, s, t) ensures Inv(rounds, t) {
      var side :| Enabled(s, side) && t == Apply(rounds, s, side);
      StepKeepsInv(rounds, s, side);
    }
  }

  lemma ReachableHoldsInv(rounds: nat, s: State)
    requires Reachable(Game(rounds), s)
    ensures Inv(rounds, s)
  {
    InvIsInductive(rounds);
    InvariantWhenReachable(Game(rounds), x => Inv(rounds, x), s);
  }

  lemma {:induction false} TurnsPrefix(p: nat, q: nat, p': nat, q': nat)
    requires q <= p <= q + 1 && q' <= p' <= q' + 1 && p <= p' && q <= q'
    ensures Turns(p, q) <= Turns(p', q')
    decreases p' + q'
  {
    if p' == q' && q < q' {
      TurnsPrefix(p, q, p', q' - 1);
    } else if p' != q' && p < p' {
      TurnsPrefix(p, q, p' - 1, q');
    }
  }

  /** Event by event: ping and pong alternate, ping first, and both count from 1. */
  lemma {:induction false} TurnsInOrder(p: nat, q: nat)
    requires q <= p <= q + 1
    ensures |Turns(p, q)| == p + q
    ensures forall j | 0 <= j < p + q :: Turns(p, q)[j] == if j % 2 == 0 then Ping(j / 2 + 1) else Pong(j / 2 + 1)
    decreases p + q
  {
    if p > 0 {
      if p == q {
        TurnsInOrder(p, q - 1);
      } else {
        TurnsInOrder(p - 1, q);
      }
    }
  }

  /** Round by round. */
  lemma TurnsOfRound(n: nat, k: nat)
    requires k < n
    ensures |Turns(n, n)| == 2 * n
    ensures Turns(n, n)[2 * k] == Ping(k + 1) && Turns(n, n)[2 * k + 1] == Pong(k + 1)
  {
    TurnsInOrder(n, n);
  }

  /** There is always exactly one turn, in a semaphore or in a process, and the events so far are
      a prefix of ping 1, pong 1, ping 2, pong 2, ... */
  lemma TurnsAreStrict(rounds: nat, s: State)
    requires Reachable(Game(rounds), s)
    ensures s.ping + s.pong + Inside(s.parent) + Inside(s.child) == 1
    ensures s.events <= Turns(rounds, rounds)
    ensures |s.events| == Printed(s.parent) + Printed(s.child)
    ensures forall j | 0 <= j < |s.events| ::
              s.events[j] == if j % 2 == 0 then Ping(j / 2 + 1) else Pong(j / 2 + 1)
  {
    ReachableHoldsInv(rounds, s);
    TurnsInOrder(Printed(s.parent), Printed(s.child));
    TurnsPrefix(Printed(s.parent), Printed(s.child), rounds, rounds);
  }

  /** No reachable state is a deadlock, and a finished game leaves the semaphores as they began. */
  lemma GameMovesUntilOver(rounds: nat, s: State)
    requires Reachable(Game(rounds), s)
    ensures !Final(s) ==> Enabled(s, Parent) || Enabled(s, Child)
    ensures Final(s) ==> s.events == Turns(rounds, rounds) && |s.events| == 2 * rounds && s.ping == 1 && s.pong == 0
  {
    ReachableHoldsInv(rounds, s);
    TurnsInOrder(rounds, rounds);
  }

  function LeftOf(rounds: nat, p: Player): nat {
    if p.i >= rounds then 0 else
    3 * (rounds - p.i) - match p.pc case Waiting => 0 case Printing => 1 case Posting => 2 case Over => 0
  }

  lemma StepLowersLeft(rounds: nat, s: State, side: Side)
    requires Inv(rounds, s) && Enabled(s, side)
    ensures var t := Apply(rounds, s, side);
            LeftOf(rounds, t.parent) + LeftOf(rounds, t.child) + 1 == LeftOf(rounds, s.parent) + LeftOf(rounds, s.child)
  {}

  /** The two semaphores, the loops of the two processes, and what they printed. */
  class Court {
    const rounds: nat
    var ping: nat
    var pong: nat
    var parent: Player
    var child: Player
    var events: seq<Event>

    function View(): State
      reads this
    {
      State(ping, pong, parent, child, events)
    }

    constructor (rounds: nat)
      ensures this.rounds == rounds && View() == Start(rounds)
    {
      this.rounds, ping, pong := rounds, 1, 0;
      parent, child, events := Top(rounds, 0), Top(rounds, 0), [];
    }

    method StepParent()
      requires Enabled(View(), Parent)
      modifies this
      ensures View() == Apply(rounds, old(View()), Parent)
    {
      match parent.pc
      case Waiting => ping, parent := ping - 1, parent.(pc := Printing);
      case Printing => events, parent := events + [Ping(parent.i + 1)], parent.(pc := Posting);
      case Posting => pong, parent := pong + 1, Top(rounds, parent.i + 1);
    }

    method StepChild()
      requires Enabled(View(), Child)
      modifies this
      ensures View() == Apply(rounds, old(View()), Child)
    {
      match child.pc
      case Waiting => pong, child := pong - 1, child.(pc := Printing);
      case Printing => events, child := events + [Pong(child.i + 1)], child.(pc := Posting);
      case Posting => ping, child := ping + 1, Top(rounds, child.i + 1);
    }
  }

  lemma StepStaysReachable(rounds: nat, s: State, side: Side)
    requires Reachable(Game(rounds), s) && Enabled(s, side)
    ensures var t := Apply(rounds, s, side);
            && Reachable(Game(rounds), t)
            && LeftOf(rounds, t.parent) + LeftOf(rounds, t.child) < LeftOf(rounds, s.parent) + LeftOf(rounds, s.child)
  {
    ReachableHoldsInv(rounds, s);
    StepLowersLeft(rounds, s, side);
    StepIsReachable(Game(rounds), s, Apply(rounds, s, side));
  }

  /** The whole program under any scheduler: it ends with the strict alternation. */
  method RunGame(rounds: nat) returns (events: seq<Event>, ping: nat, pong: nat)
    ensures events == Turns(rounds, rounds) && ping == 1 && pong == 0
    ensures |events| == 2 * rounds
    ensures forall j | 0 <= j < |events| ::
              events[j] == if j % 2 == 0 then Ping(j / 2 + 1) else Pong(j / 2 + 1)
  {
    var court := new Court(rounds);
    StartIsReachable(Game(rounds));
    while !Final(court.View())
      invariant court.rounds == rounds && Reachable(Game(rounds), court.View())
      decreases LeftOf(rounds, court.parent) + LeftOf(rounds, court.child)
    {
      GameMovesUntilOver(rounds, court.View());
      if
      case Enabled(court.View(), Parent) =>
        StepStaysReachable(rounds, court.View(), Parent);
        court.StepParent();
      case Enabled(court.View(), Child) =>
        StepStaysReachable(rounds, court.View(), Child);
        court.StepChild();
    }
    GameMovesUntilOver(rounds, court.View());
    TurnsInOrder(rounds, rounds);
    events, ping, pong := court.events, court.ping, court.pong;
  }
}
