/** The timer branch of `usertrap` against the boost in `clockintr` on another CPU (kernel/trap.c). The
    boost holds the process's lock and the timer branch does not, so every access to the two fields they
    share, the level and the ticks used at it, is a step of its own here. */
module TickRaces {
  import opened Scheduling

  /** Where the timer branch is, with what it holds in registers. */
  datatype TickPc =
    | Off
    | GotTicks(t: nat)    // has read the ticks, to add one
    | Charge              // about to charge the level
    | ReadQuantum
    | Compare(q: nat)     // about to compare the ticks with the quantum
    | ReadDelta
    | Check(dt: nat)      // about to decide whether to sink
    | ReadLevel
    | GotLevel(l: nat)    // has read the level, to add one
    | Reset
    | Yield

  /** Where the boost is: it writes the level and then the ticks. */
  datatype BoostPc = Out | ToLevel | ToTicks

  /** `charged` counts the timer interrupts. */
  datatype Race = Race(p: Proc, tick: TickPc, boost: BoostPc, charged: nat)

  datatype Move = TickMove | BoostMove | Elsewhere(e: Event)

  /** The branch is entered by a running process; giving up the CPU needs the process's lock. Whatever
      else happens to a process happens while neither is under way. */
  predicate Can(r: Race, m: Move) {
    && r.p.level < LEVELS && |r.p.ticksPerLevel| == LEVELS
    && match m
       case TickMove => (r.tick == Off ==> r.p.state == Running) && (r.tick == Yield ==> r.boost == Out)
       case BoostMove => true
       case Elsewhere(e) => r.tick == Off && r.boost == Out && !e.Tick? && !e.Boost?
  }

  function TickStep(r: Race): Race
    requires r.p.level < LEVELS && |r.p.ticksPerLevel| == LEVELS
  {
    var p := r.p;
    match r.tick
    case Off => r.(tick := GotTicks(p.ticksAtLevel), charged := r.charged + 1)
    case GotTicks(t) => r.(tick := Charge, p := p.(ticksAtLevel := t + 1))
    case Charge =>
      r.(tick := ReadQuantum, p := p.(ticksPerLevel := p.ticksPerLevel[p.level := p.ticksPerLevel[p.level] + 1]))
    case ReadQuantum => r.(tick := Compare(Quantum(p.level)))
    case Compare(q) => r.(tick := if p.ticksAtLevel >= q then ReadDelta else Off)
    case ReadDelta => r.(tick := Check(p.ticksAtLevel))
    case Check(dt) => r.(tick := if p.syscount - p.syscallsAtLevel < dt && p.level < 3 then ReadLevel else Reset)
    case ReadLevel => r.(tick := GotLevel(p.level))
    case GotLevel(l) => r.(tick := Reset, p := p.(level := l + 1))
    case Reset => r.(tick := Yield, p := p.(ticksAtLevel := 0))
    case Yield => r.(tick := Off, p := p.(state := Runnable))
  }

  function BoostStep(r: Race): Race {
    match r.boost
    case Out => r.(boost := if r.p.state == Runnable || r.p.state == Running then ToLevel else Out)
    case ToLevel => r.(boost := ToTicks, p := r.p.(level := 0))
    case ToTicks => r.(boost := Out, p := r.p.(ticksAtLevel := 0))
  }

  function Do(r: Race, m: Move): Race
    requires Can(r, m)
  {
    match m
    case TickMove => TickStep(r)
    case BoostMove => BoostStep(r)
    case Elsewhere(e) => r.(p := Next(r.p, e))
  }

  // -------- What every interleaving keeps --------

  predicate Uncharged(pc: TickPc) {
    pc.GotTicks? || pc == Charge
  }

  ghost predicate Inv(r: Race) {
    && r.p.level < LEVELS && |r.p.ticksPerLevel| == LEVELS
    && r.p.syscallsAtLevel <= r.p.syscount
    && Sum(r.p.ticksPerLevel) + (if Uncharged(r.tick) then 1 else 0) == r.charged
    && match r.tick
       case Off => r.boost == ToTicks || r.p.ticksAtLevel < Quantum(r.p.level)
       case Yield => r.boost == ToTicks || r.p.ticksAtLevel < Quantum(r.p.level)
       case Compare(q) => r.boost == ToTicks || q == Quantum(r.p.level) || r.p.ticksAtLevel == 0
       case ReadLevel => r.p.level < 3
       case GotLevel(l) => l < 3
       case _ => true
  }

  lemma MoveKeeps(r: Race, m: Move)
    requires Inv(r) && Can(r, m)
    ensures Inv(Do(r, m))
  {
    if m == TickMove && r.tick == Charge {
      SumBump(r.p.ticksPerLevel, r.p.level);
    }
    if m.Elsewhere? {
      NextAccounted(r.p, r.charged, m.e);
    }
  }

  ghost predicate Leads(r: Race, ms: seq<Move>, r': Race)
    decreases |ms|
  {
    if ms == [] then r' == r else Can(r, ms[0]) && Leads(Do(r, ms[0]), ms[1..], r')
  }

  /** However ticks and boosts interleave, whenever neither is under way the level exists, its quantum is
      not used up, and every tick has been charged to one level. */
  lemma {:induction false} AccountedInRaces(r: Race, ms: seq<Move>, r': Race)
    requires Inv(r) && Leads(r, ms, r')
    ensures Inv(r') && (r'.tick == Off && r'.boost == Out ==> Accounted(r'.p, r'.charged))
    decreases |ms|
  {
    if ms != [] {
      MoveKeeps(r, ms[0]);
      AccountedInRaces(Do(r, ms[0]), ms[1..], r');
    }
  }

  // -------- One at a time, they do what is specified --------

  /** How many steps the timer branch has left at most. */
  function Left(pc: TickPc): nat {
    match pc
    case Off => 0
    case GotTicks(_) => 10
    case Charge => 9
    case ReadQuantum => 8
    case Compare(_) => 7
    case ReadDelta => 6
    case Check(_) => 5
    case ReadLevel => 4
    case GotLevel(_) => 3
    case Reset => 2
    case Yield => 1
  }

  /** The timer branch runs to its end undisturbed. */
  ghost function Finish(r: Race): (r': Race)
    requires Inv(r) && r.boost == Out
    ensures Inv(r') && r'.tick == Off && r'.boost == Out
    decreases Left(r.tick)
  {
    if r.tick == Off then r else
      MoveKeeps(r, TickMove);
      Finish(TickStep(r))
  }

  /** Whether the process sinks after `dt` ticks at its level. */
  predicate Sinks(p: Proc, dt: nat) {
    p.syscount - p.syscallsAtLevel < dt && p.level < 3
  }

  /** The end of the branch, from its decision on. */
  function Decided(p: Proc, dt: nat): Proc {
    p.(ticksAtLevel := 0, state := Runnable, level := if Sinks(p, dt) then p.level + 1 else p.level)
  }

  /** The same, from the comparison with the quantum on. */
  function Compared(p: Proc, q: nat): Proc {
    if p.ticksAtLevel >= q then Decided(p, p.ticksAtLevel) else p
  }

  function Charged(p: Proc): Proc
    requires p.level < LEVELS && |p.ticksPerLevel| == LEVELS
  {
    p.(ticksPerLevel := p.ticksPerLevel[p.level := p.ticksPerLevel[p.level] + 1])
  }

  /** What is left of the branch makes of the process. */
  function Final(p: Proc, pc: TickPc): Proc
    requires p.level < LEVELS && |p.ticksPerLevel| == LEVELS
  {
    match pc
    case Off => p
    case GotTicks(t) => Compared(Charged(p.(ticksAtLevel := t + 1)), Quantum(p.level))
    case Charge => Compared(Charged(p), Quantum(p.level))
    case ReadQuantum => Compared(p, Quantum(p.level))
    case Compare(q) => Compared(p, q)
    case ReadDelta => Decided(p, p.ticksAtLevel)
    case Check(dt) => Decided(p, dt)
    case ReadLevel => p.(ticksAtLevel := 0, state := Runnable, level := p.level + 1)
    case GotLevel(l) => p.(ticksAtLevel := 0, state := Runnable, level := l + 1)
    case Reset => p.(ticksAtLevel := 0, state := Runnable)
    case Yield => p.(state := Runnable)
  }

  lemma {:induction false} Undisturbed(r: Race)
    requires Inv(r) && r.boost == Out
    ensures Finish(r) == Race(Final(r.p, r.tick), Off, Out, r.charged)
    decreases Left(r.tick)
  {
    if r.tick != Off {
      MoveKeeps(r, TickMove);
      Undisturbed(TickStep(r));
    }
  }

  /** Without a boost in between, a timer interrupt does what `Ticked` says. */
  lemma TickAlone(r: Race)
    requires Inv(r) && r.tick == Off && r.boost == Out && r.p.state == Running
    ensures Inv(TickStep(r)) && Finish(TickStep(r)) == Race(Ticked(r.p), Off, Out, r.charged + 1)
  {
    MoveKeeps(r, TickMove);
    Undisturbed(TickStep(r));
  }

  /** A whole boost. */
  function WholeBoost(r: Race): Race
    requires r.boost == Out
  {
    if BoostStep(r).boost == Out then r else BoostStep(BoostStep(BoostStep(r)))
  }

  lemma BoostAlone(r: Race)
    requires r.boost == Out
    ensures WholeBoost(r) == r.(p := Boosted(r.p))
  {
  }

  // -------- A boost in the middle of a tick --------

  /** A boost that comes at this point of the timer branch is undone: the branch still adds one to a level
      it has read, or sinks the process for ticks it has read. */
  predicate Undoes(r: Race) {
    var calls := r.p.syscount - r.p.syscallsAtLevel;
    match r.tick
    case GotTicks(t) => t > 0 && calls < t + 1
    case Check(dt) => calls < dt
    case ReadLevel => true
    case GotLevel(_) => true
    case _ => false
  }

  /** The process of a boost that comes in the middle of a tick is at level 0 after the tick if and only if
      the boost does not come at one of those points. It can even be where it would be without the boost. */
  lemma BoostInTick(r: Race)
    requires Inv(r) && r.boost == Out && r.p.state == Running
    ensures Inv(WholeBoost(r)) && (Finish(WholeBoost(r)).p.level == 0 <==> !Undoes(r))
    ensures r.tick.GotLevel? ==> Finish(WholeBoost(r)).p.level == r.tick.l + 1 == Finish(r).p.level
  {
    MoveKeeps(r, BoostMove);
    MoveKeeps(BoostStep(r), BoostMove);
    MoveKeeps(BoostStep(BoostStep(r)), BoostMove);
    Undisturbed(WholeBoost(r));
    Undisturbed(r);
  }

  lemma {:induction false} OneMore(r0: Race, ms: seq<Move>, r: Race, m: Move)
    requires Leads(r0, ms, r) && Can(r, m)
    ensures Leads(r0, ms + [m], Do(r, m))
    decreases |ms|
  {
    if ms == [] {
      assert Leads(Do(r, m), [m][1..], Do(r, m));
    } else {
      OneMore(Do(r0, ms[0]), ms[1..], r, m);
      assert (ms + [m])[1..] == ms[1..] + [m];
    }
  }

  lemma Advance(r0: Race, ms: seq<Move>, r: Race) returns (ms': seq<Move>, r': Race)
    requires Leads(r0, ms, r) && r.boost == Out && Can(r, TickMove)
    ensures Leads(r0, ms', r') && r' == TickStep(r)
  {
    OneMore(r0, ms, r, TickMove);
    ms', r' := ms + [TickMove], TickStep(r);
  }

  lemma ToQuantum(r0: Race) returns (ms: seq<Move>, r: Race)
    requires r0.tick == Off && r0.boost == Out && Can(r0, TickMove)
    ensures Leads(r0, ms, r)
    ensures r == Race(Charged(r0.p.(ticksAtLevel := r0.p.ticksAtLevel + 1)), Compare(Quantum(r0.p.level)), Out,
              r0.charged + 1)
  {
    ms, r := Advance(r0, [], r0);
    ms, r := Advance(r0, ms, r);
    ms, r := Advance(r0, ms, r);
    ms, r := Advance(r0, ms, r);
  }

  lemma ToLevelRead(r0: Race, ms0: seq<Move>, r1: Race) returns (ms: seq<Move>, r: Race)
    requires Leads(r0, ms0, r1) && r1.tick.Compare? && r1.boost == Out && Can(r1, TickMove)
    requires r1.p.ticksAtLevel >= r1.tick.q && Sinks(r1.p, r1.p.ticksAtLevel)
    ensures Leads(r0, ms, r) && r == r1.(tick := GotLevel(r1.p.level))
  {
    ms, r := Advance(r0, ms0, r1);
    ms, r := Advance(r0, ms, r);
    ms, r := Advance(r0, ms, r);
    ms, r := Advance(r0, ms, r);
  }

  /** A boost that is lost: every process that has used up its quantum without system calls, above the
      lowest level, comes to a point where a whole boost leaves it to sink all the same. */
  lemma LostBoost(p: Proc, charged: nat) returns (ms: seq<Move>, r: Race)
    requires Accounted(p, charged) && p.state == Running && p.syscallsAtLevel == p.syscount
    requires p.level < 3 && p.ticksAtLevel + 1 == Quantum(p.level)
    ensures Leads(Race(p, Off, Out, charged), ms, r) && Inv(r) && r.boost == Out && Inv(WholeBoost(r))
    ensures WholeBoost(r).p.level == 0 && Finish(WholeBoost(r)).p.level == p.level + 1
  {
    var r0 := Race(p, Off, Out, charged);
    ms, r := ToQuantum(r0);
    ms, r := ToLevelRead(r0, ms, r);
    AccountedInRaces(r0, ms, r);
    BoostInTick(r);
  }
}
