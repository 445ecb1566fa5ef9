/** Two threads that hand a turn to each other under a mutex and a condition variable, one step at a time.  */
module HandOff {

  datatype Tid = T1 | T2

  function Other(t: Tid): Tid { if t == T1 then T2 else T1 }

  /** Where a thread is in its loop: before the lock, testing its flag, asleep, waking, and so on. */
  datatype Pc = AtLock | Check | Waiting | Relock | Unlock | Running | Clear | Lock2 | SetOther | Signal | Unlock2

  datatype Thread = Thread(pc: Pc, flag: bool, runs: nat)

  datatype Holder = Free | Held(owner: Tid)

  datatype Machine = Machine(one: Thread, two: Thread, holder: Holder)

  function Get(m: Machine, t: Tid): Thread { if t == T1 then m.one else m.two }

  function Put(m: Machine, t: Tid, x: Thread): Machine {
    if t == T1 then m.(one := x) else m.(two := x)
  }

  function Init(): Machine {
    Machine(Thread(AtLock, true, 0), Thread(AtLock, false, 0), Free)
  }

  /** A thread can take its next step; one that sleeps waits for the other. */
  predicate Enabled(m: Machine, t: Tid) {
    var pc := Get(m, t).pc;
    if pc == Waiting then false
    else if pc == AtLock || pc == Relock || pc == Lock2 then m.holder == Free
    else true
  }

  /** A step of thread `t`.  Waiting gives up the lock and sleeps at once; a signal wakes the other thread
      if it sleeps; the own flag is cleared without the lock. */
  function Step(m: Machine, t: Tid): Machine
    requires Enabled(m, t)
  {
    var me, you := Get(m, t), Get(m, Other(t));
    match me.pc
    case AtLock => Put(m, t, me.(pc := Check)).(holder := Held(t))
    case Check => if me.flag then Put(m, t, me.(pc := Unlock)) else Put(m, t, me.(pc := Waiting)).(holder := Free)
    case Relock => Put(m, t, me.(pc := Check)).(holder := Held(t))
    case Unlock => Put(m, t, me.(pc := Running, runs := me.runs + 1)).(holder := Free)
    case Running => Put(m, t, me.(pc := Clear))
    case Clear => Put(m, t, me.(pc := Lock2, flag := false))
    case Lock2 => Put(m, t, me.(pc := SetOther)).(holder := Held(t))
    case SetOther => Put(Put(m, Other(t), you.(flag := true)), t, me.(pc := Signal))
    case Signal =>
      var m1 := if you.pc == Waiting then Put(m, Other(t), you.(pc := Relock)) else m;
      Put(m1, t, me.(pc := Unlock2))
    case Unlock2 => Put(m, t, me.(pc := AtLock)).(holder := Free)
  }

  /** A sleeping thread may also wake for no reason. */
  function Spurious(m: Machine, t: Tid): Machine
    requires Get(m, t).pc == Waiting
  {
    Put(m, t, Get(m, t).(pc := Relock))
  }

  // ---- the invariant ----

  predicate Holds(pc: Pc) { pc == Check || pc == Unlock || pc == SetOther || pc == Signal || pc == Unlock2 }

  /** Between clearing its own flag and setting the other's a thread carries the turn itself. */
  predicate Carries(pc: Pc) { pc == Lock2 || pc == SetOther }

  predicate InTurn(pc: Pc) { pc == Unlock || pc == Running || pc == Clear }

  predicate HasTurn(x: Thread) { x.flag || Carries(x.pc) }

  predicate Inv(m: Machine) {
    && (m.holder == Held(T1) <==> Holds(m.one.pc))
    && (m.holder == Held(T2) <==> Holds(m.two.pc))
    && (HasTurn(m.one) <==> !HasTurn(m.two))
    && !(m.one.flag && Carries(m.one.pc)) && !(m.two.flag && Carries(m.two.pc))
    && (InTurn(m.one.pc) ==> m.one.flag) && (InTurn(m.two.pc) ==> m.two.flag)
    && (m.one.pc == Signal || m.one.pc == Unlock2 ==> m.two.flag && !InTurn(m.two.pc))
    && (m.two.pc == Signal || m.two.pc == Unlock2 ==> m.one.flag && !InTurn(m.one.pc))
    && (m.one.pc == Waiting && m.one.flag ==> m.two.pc == Signal)
    && (m.two.pc == Waiting && m.two.flag ==> m.one.pc == Signal)
    && m.one.runs == m.two.runs + (if Started(m) then 1 else 0)
  }

  /** Thread one has begun the current round and thread two has not answered it yet. */
  predicate Started(m: Machine) {
    if HasTurn(m.one) then m.one.pc == Running || m.one.pc == Clear || Carries(m.one.pc)
    else !(m.two.pc == Running || m.two.pc == Clear || Carries(m.two.pc))
  }

  lemma InitInv()
    ensures Inv(Init())
  {
  }

  lemma StepKeeps(m: Machine, t: Tid)
    requires Inv(m) && Enabled(m, t)
    ensures Inv(Step(m, t))
  {
  }

  lemma SpuriousKeeps(m: Machine, t: Tid)
    requires Inv(m) && Get(m, t).pc == Waiting
    ensures Inv(Spurious(m, t))
  {
  }

  // ---- runs of the machine ----

  datatype Event = Move(t: Tid) | Wake(t: Tid)

  predicate Possible(m: Machine, e: Event) {
    match e
    case Move(t) => Enabled(m, t)
    case Wake(t) => Get(m, t).pc == Waiting
  }

  function Next(m: Machine, e: Event): Machine
    requires Possible(m, e)
  {
    match e
    case Move(t) => Step(m, t)
    case Wake(t) => Spurious(m, t)
  }

  predicate Feasible(m: Machine, events: seq<Event>)
    decreases |events|
  {
    events == [] || (Possible(m, events[0]) && Feasible(Next(m, events[0]), events[1..]))
  }

  function After(m: Machine, events: seq<Event>): Machine
    requires Feasible(m, events)
    decreases |events|
  {
    if events == [] then m else After(Next(m, events[0]), events[1..])
  }

  /** The threads that begin to run, in order. */
  function Starts(m: Machine, events: seq<Event>): seq<Tid>
    requires Feasible(m, events)
    decreases |events|
  {
    if events == [] then []
    else
      var e := events[0];
      (if e.Move? && Get(m, e.t).pc == Unlock then [e.t] else []) + Starts(Next(m, e), events[1..])
  }

  lemma NextKeeps(m: Machine, e: Event)
    requires Inv(m) && Possible(m, e)
    ensures Inv(Next(m, e))
  {
    hide Inv, Step, Spurious;
    match e {
      case Move(t) => StepKeeps(m, t);
      case Wake(t) => SpuriousKeeps(m, t);
    }
  }

  lemma {:induction false} ReachableInv(m: Machine, events: seq<Event>)
    requires Inv(m) && Feasible(m, events)
    ensures Inv(After(m, events))
    decreases |events|
  {
    hide Inv, Possible, Next;
    if events != [] {
      NextKeeps(m, events[0]);
      ReachableInv(Next(m, events[0]), events[1..]);
    }
  }

  /** In every interleaving, spurious wakeups included, the threads never run together. */
  lemma MutualExclusion(events: seq<Event>)
    requires Feasible(Init(), events)
    ensures var m := After(Init(), events); !(InTurn(m.one.pc) && InTurn(m.two.pc))
  {
    InitInv();
    ReachableInv(Init(), events);
  }

  /** Whose run comes next. */
  function Turn(m: Machine): Tid { if m.one.runs == m.two.runs then T1 else T2 }

  predicate Alternates(t: Tid, starts: seq<Tid>)
    decreases |starts|
  {
    starts == [] || (starts[0] == t && Alternates(Other(t), starts[1..]))
  }

  lemma StartsInTurn(m: Machine, e: Event)
    requires Inv(m) && Possible(m, e)
    ensures e.Move? && Get(m, e.t).pc == Unlock ==> e.t == Turn(m) && Turn(Next(m, e)) == Other(e.t)
    ensures !(e.Move? && Get(m, e.t).pc == Unlock) ==> Turn(Next(m, e)) == Turn(m)
  {
  }

  lemma {:induction false} StartsAlternate(m: Machine, events: seq<Event>)
    requires Inv(m) && Feasible(m, events)
    ensures Alternates(Turn(m), Starts(m, events))
    decreases |events|
  {
    hide Inv, Possible, Next, Turn;
    if events != [] {
      var e := events[0];
      NextKeeps(m, e);
      StartsInTurn(m, e);
      StartsAlternate(Next(m, e), events[1..]);
      if e.Move? && Get(m, e.t).pc == Unlock {
        assert Starts(m, events)[1..] == Starts(Next(m, e), events[1..]);
      } else {
        assert Starts(m, events) == Starts(Next(m, e), events[1..]);
      }
    }
  }

  /** The runs strictly alternate, thread one first. */
  lemma StrictAlternation(events: seq<Event>)
    requires Feasible(Init(), events)
    ensures Alternates(T1, Starts(Init(), events))
  {
    InitInv();
    StartsAlternate(Init(), events);
  }

  // ---- no deadlock, no lost wakeup, no idling ----

  /** Some thread can always go on, without help from a spurious wakeup. */
  lemma NoDeadlock(events: seq<Event>)
    requires Feasible(Init(), events)
    ensures Enabled(After(Init(), events), T1) || Enabled(After(Init(), events), T2)
  {
    InitInv();
    ReachableInv(Init(), events);
    hide Feasible, After;
  }

  /** A thread that sleeps although it is its turn is about to be signalled. */
  lemma NoLostWakeup(events: seq<Event>, t: Tid)
    requires Feasible(Init(), events)
    ensures var m := After(Init(), events);
      Get(m, t).pc == Waiting && Get(m, t).flag ==> Get(m, Other(t)).pc == Signal && Enabled(m, Other(t))
  {
    InitInv();
    ReachableInv(Init(), events);
    hide Feasible, After;
  }

  /** How much the thread whose turn it is has still to do. */
  function Ahead(pc: Pc): nat {
    if pc == AtLock || pc == Relock then 3 else if pc == Check then 2 else if pc == Unlock then 1 else 0
  }

  /** How much the other one can still do before it sleeps. */
  function Behind(pc: Pc): nat {
    match pc
    case Running => 14
    case Clear => 13
    case Lock2 => 12
    case SetOther => 11
    case Signal => 10
    case Unlock2 => 4
    case AtLock => 3
    case Relock => 3
    case Check => 2
    case Unlock => 1
    case Waiting => 0
  }

  function Rank(m: Machine): (r: nat)
    ensures r <= 17
  {
    Ahead(Get(m, Turn(m)).pc) + Behind(Get(m, Other(Turn(m))).pc)
  }

  lemma RankFalls(m: Machine, t: Tid)
    requires Inv(m) && Enabled(m, t) && Get(m, t).pc != Unlock
    ensures Rank(Step(m, t)) < Rank(m)
  {
  }

  lemma RankWakes(m: Machine, t: Tid)
    requires Inv(m) && Get(m, t).pc == Waiting
    ensures Rank(Spurious(m, t)) == Rank(m) + 3
  {
  }

  function Wakes(events: seq<Event>): nat {
    if events == [] then 0 else (if events[0].Wake? then 1 else 0) + Wakes(events[1..])
  }

  /** Without a run beginning, the machine takes a bounded number of steps: as many as its rank, and four more
      for each spurious wakeup. */
  lemma {:induction false} BoundedIdling(m: Machine, events: seq<Event>)
    requires Inv(m) && Feasible(m, events) && Starts(m, events) == []
    ensures |events| <= Rank(m) + 4 * Wakes(events)
    decreases |events|
  {
    hide Inv, Possible, Next, Rank;
    if events != [] {
      var e := events[0];
      NextKeeps(m, e);
      assert !(e.Move? && Get(m, e.t).pc == Unlock);
      BoundedIdling(Next(m, e), events[1..]);
      RankNext(m, e);
    }
  }

  lemma RankNext(m: Machine, e: Event)
    requires Inv(m) && Possible(m, e) && !(e.Move? && Get(m, e.t).pc == Unlock)
    ensures Rank(Next(m, e)) <= if e.Wake? then Rank(m) + 3 else Rank(m) - 1
  {
    hide Inv, Rank, Step, Spurious;
    match e {
      case Move(t) => RankFalls(m, t);
      case Wake(t) => RankWakes(m, t);
    }
  }

  /** Every eighteen steps without a spurious wakeup a run begins, from every reachable state. */
  lemma RunsKeepComing(history: seq<Event>, events: seq<Event>)
    requires Feasible(Init(), history) && Feasible(After(Init(), history), events)
    requires Wakes(events) == 0 && |events| > 17
    ensures Starts(After(Init(), history), events) != []
  {
    InitInv();
    ReachableInv(Init(), history);
    hide Inv, Rank, Possible, Next, Starts, Feasible, After;
    if Starts(After(Init(), history), events) == [] {
      BoundedIdling(After(Init(), history), events);
    }
  }
}
