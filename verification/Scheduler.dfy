/** The multi-level feedback queue: the accounting done on timer ticks and on being scheduled
    (kernel/trap.c, kernel/proc.c), and the round robin of the per-CPU scheduler (kernel/proc.c). */
module Scheduling {
  import opened Wrapping

  const LEVELS := 4

  datatype ProcState = Unused | Used | Sleeping | Runnable | Running | Zombie

  /** The scheduling fields of a process. */
  datatype Proc = Proc(
    state: ProcState, level: nat, ticksAtLevel: nat, ticksPerLevel: seq<nat>,
    syscount: nat, syscallsAtLevel: nat, timesScheduled: nat)

  /** `get_quantum` */
  function Quantum(level: int): (q: nat)
    ensures 2 <= q <= 16
  {
    if level == 0 then 2 else if level == 1 then 4 else if level == 2 then 8 else 16
  }

  // -------- Accounting, as values --------

  /** The timer branch of `usertrap`; the process gives up the CPU when its quantum is used up. */
  function Ticked(p: Proc): Proc
    requires p.level < LEVELS && |p.ticksPerLevel| == LEVELS
  {
    var t := p.ticksAtLevel + 1;
    var q := p.(ticksPerLevel := p.ticksPerLevel[p.level := p.ticksPerLevel[p.level] + 1]);
    if t < Quantum(p.level) then q.(ticksAtLevel := t)
    else q.(ticksAtLevel := 0, state := Runnable,
            level := if p.syscount - p.syscallsAtLevel < t && p.level < 3 then p.level + 1 else p.level)
  }

  /** What the scheduler does to the process it picks. */
  function Scheduled(p: Proc): Proc {
    p.(state := Running, timesScheduled := p.timesScheduled + 1, syscallsAtLevel := p.syscount)
  }

  /** The boost in `clockintr`. */
  function Boosted(p: Proc): Proc {
    if p.state == Runnable || p.state == Running then p.(level := 0, ticksAtLevel := 0) else p
  }

  /** What can happen to a process between two looks at it. */
  datatype Event = Tick | Schedule | Boost | Syscall | Other(state: ProcState)

  function Next(p: Proc, e: Event): Proc
    requires p.level < LEVELS && |p.ticksPerLevel| == LEVELS
  {
    match e
    case Tick => Ticked(p)
    case Schedule => Scheduled(p)
    case Boost => Boosted(p)
    case Syscall => p.(syscount := p.syscount + 1)
    case Other(st) => p.(state := st)
  }

  function Sum(s: seq<nat>): nat {
    if s == [] then 0 else s[0] + Sum(s[1..])
  }

  lemma {:induction false} SumBump(s: seq<nat>, i: nat)
    requires i < |s|
    ensures Sum(s[i := s[i] + 1]) == Sum(s) + 1
  {
    if i > 0 {
      SumBump(s[1..], i - 1);
      assert s[i := s[i] + 1][1..] == s[1..][i - 1 := s[1..][i - 1] + 1];
    }
  }

  /** Between traps the level exists, its quantum is not used up, and the ticks charged per level
      add up to the ticks charged in all. */
  ghost predicate Accounted(p: Proc, charged: nat) {
    && p.level < LEVELS && |p.ticksPerLevel| == LEVELS
    && p.ticksAtLevel < Quantum(p.level)
    && Sum(p.ticksPerLevel) == charged
  }

  lemma NextAccounted(p: Proc, charged: nat, e: Event)
    requires Accounted(p, charged)
    ensures Accounted(Next(p, e), if e == Tick then charged + 1 else charged)
  {
    if e == Tick {
      SumBump(p.ticksPerLevel, p.level);
    }
  }

  function Ticks(es: seq<Event>): nat {
    if es == [] then 0 else (if es[0] == Tick then 1 else 0) + Ticks(es[1..])
  }

  /** `es` take `p` to `p'`. */
  ghost predicate Leads(p: Proc, es: seq<Event>, p': Proc)
    decreases |es|
  {
    if es == [] then p' == p
    else p.level < LEVELS && |p.ticksPerLevel| == LEVELS && Leads(Next(p, es[0]), es[1..], p')
  }

  /** Over any run of events the accounting stays right. */
  lemma {:induction false} AccountedAlways(p: Proc, charged: nat, es: seq<Event>, p': Proc)
    requires Accounted(p, charged) && Leads(p, es, p')
    ensures Accounted(p', charged + Ticks(es))
    decreases |es|
  {
    if es != [] {
      NextAccounted(p, charged, es[0]);
      AccountedAlways(Next(p, es[0]), if es[0] == Tick then charged + 1 else charged, es[1..], p');
    }
  }

  /** The level of a process that has used `n` ticks since it was scheduled at level 0. */
  function LevelAfter(n: nat): nat {
    if n < 2 then 0 else if n < 6 then 1 else if n < 14 then 2 else 3
  }

  /** How far into the quantum of that level it is. */
  function TicksInto(n: nat): nat {
    if n < 2 then n else if n < 6 then n - 2 else if n < 14 then n - 6 else (n - 14) % 16
  }

  ghost predicate UsedUp(p: Proc, n: nat) {
    && |p.ticksPerLevel| == LEVELS && p.syscallsAtLevel == p.syscount
    && p.level == LevelAfter(n) && p.ticksAtLevel == TicksInto(n)
  }

  lemma TickUses(p: Proc, n: nat)
    requires UsedUp(p, n)
    ensures UsedUp(Ticked(p), n + 1)
  {
    if n >= 14 {
      assert (n + 1 - 14) % 16 == if (n - 14) % 16 == 15 then 0 else (n - 14) % 16 + 1;
    }
  }

  /** A process just scheduled at level 0 that makes no system calls and is not boosted sinks on
      schedule: it is at level 0 for 2 ticks, 1 for 4, 2 for 8, and then stays at 3, however
      often it sleeps, wakes and is scheduled in between. */
  lemma {:induction false} CpuBoundSinks(p: Proc, n: nat, es: seq<Event>, p': Proc)
    requires UsedUp(p, n) && Leads(p, es, p')
    requires forall e :: e in es ==> !e.Syscall? && !e.Boost?
    ensures UsedUp(p', n + Ticks(es))
    decreases |es|
  {
    if es != [] {
      assert es[0] in es;
      if es[0] == Tick {
        TickUses(p, n);
      }
      CpuBoundSinks(Next(p, es[0]), if es[0] == Tick then n + 1 else n, es[1..], p');
    }
  }

  /** Whatever its counts, a process that the scheduler picks at the start of a quantum at level 0 and that makes
      no system calls and is not boosted is then at level 0 for fewer than 2 ticks, at 1 for fewer than 6, at
      2 for fewer than 14, and at 3 from then on. */
  lemma SinksFromPick(p: Proc, es: seq<Event>, p': Proc)
    requires p.level == 0 && p.ticksAtLevel == 0 && |p.ticksPerLevel| == 4 && Leads(Scheduled(p), es, p')
    requires forall e :: e in es ==> !e.Syscall? && !e.Boost?
    ensures p'.level == if Ticks(es) < 2 then 0 else if Ticks(es) < 6 then 1 else if Ticks(es) < 14 then 2 else 3
  {
    CpuBoundSinks(Scheduled(p), 0, es, p');
  }

  function Syscalls(es: seq<Event>): nat {
    if es == [] then 0 else (if es[0] == Syscall then 1 else 0) + Syscalls(es[1..])
  }

  /** From inside a quantum of `q` ticks to the tick that uses it up. */
  lemma {:induction false} QuantumEnds(p: Proc, es: seq<Event>, p': Proc, q: nat)
    requires p.level < 4 && |p.ticksPerLevel| == 4 && p.syscallsAtLevel <= p.syscount && Leads(p, es + [Tick], p')
    requires q == [2, 4, 8, 16][p.level] && p.ticksAtLevel + Ticks(es) == q - 1
    requires forall e :: e in es ==> !e.Boost? && !e.Schedule?
    ensures p'.ticksAtLevel == 0 && p'.state == Runnable && p'.syscount == p.syscount + Syscalls(es)
    ensures p'.level ==
            if p.level < 3 && p.syscount - p.syscallsAtLevel + Syscalls(es) < q then p.level + 1 else p.level
    decreases |es|
  {
    var all := es + [Tick];
    if es == [] {
      assert all[1..] == [];
    } else {
      assert es[0] in es && all[1..] == es[1..] + [Tick];
      QuantumEnds(Next(p, es[0]), es[1..], p', q);
    }
  }

  /** What the calls are counted for: a process picked at the start of a quantum of 2, 4, 8 or 16 ticks keeps its
      level at the end of it if and only if it has made at least that many system calls meanwhile, or
      is at the last level. */
  lemma KeepsLevelIff(p: Proc, es: seq<Event>, p': Proc)
    requires p.level < 4 && |p.ticksPerLevel| == 4 && p.ticksAtLevel == 0 && Leads(Scheduled(p), es + [Tick], p')
    requires Ticks(es) + 1 == [2, 4, 8, 16][p.level] && forall e :: e in es ==> !e.Boost? && !e.Schedule?
    ensures p'.level == p.level <==> p.level == 3 || Syscalls(es) >= [2, 4, 8, 16][p.level]
    ensures p'.level != p.level ==> p'.level == p.level + 1
    ensures p'.ticksAtLevel == 0 && p'.state == Runnable
  {
    QuantumEnds(Scheduled(p), es, p', [2, 4, 8, 16][p.level]);
  }

  /** A tick, in full: it is charged to the level the process is at. When the quantum of 2, 4, 8 or 16 ticks is
      used up, the process gives up the CPU and starts a new one, a level down unless it is at the last or
      has made at least as many system calls as it used ticks since it was scheduled. */
  lemma TickMeans(p: Proc)
    requires p.level < 4 && |p.ticksPerLevel| == 4
    ensures var q, t := Ticked(p), p.ticksAtLevel + 1;
            var quantum := [2, 4, 8, 16][p.level];
            && |q.ticksPerLevel| == 4 && q.ticksPerLevel[p.level] == p.ticksPerLevel[p.level] + 1
            && (forall l :: 0 <= l < 4 && l != p.level ==> q.ticksPerLevel[l] == p.ticksPerLevel[l])
            && q.syscount == p.syscount && q.syscallsAtLevel == p.syscallsAtLevel
            && q.timesScheduled == p.timesScheduled
            && (t < quantum ==> q.ticksAtLevel == t && q.level == p.level && q.state == p.state)
            && (t >= quantum ==> q.ticksAtLevel == 0 && q.state == Runnable)
            && (t >= quantum ==>
                  q.level == if p.level < 3 && p.syscount - p.syscallsAtLevel < t then p.level + 1 else p.level)
  {
  }

  /** Without a boost the level never falls. */
  lemma {:induction false} OnlyBoostsRaise(p: Proc, charged: nat, es: seq<Event>, p': Proc)
    requires Accounted(p, charged) && Leads(p, es, p') && Boost !in es
    ensures p.level <= p'.level
    decreases |es|
  {
    if es != [] {
      assert es[0] in es;
      NextAccounted(p, charged, es[0]);
      OnlyBoostsRaise(Next(p, es[0]), if es[0] == Tick then charged + 1 else charged, es[1..], p');
    }
  }

  // -------- Accounting, in place --------

  class Process {
    var state: ProcState
    var level: nat
    var ticksAtLevel: nat
    const ticksPerLevel: array<nat>
    var syscount: nat
    var syscallsAtLevel: nat
    var timesScheduled: nat

    ghost function Value(): Proc
      reads this, ticksPerLevel
    {
      Proc(state, level, ticksAtLevel, ticksPerLevel[..], syscount, syscallsAtLevel, timesScheduled)
    }

    ghost predicate Valid()
      reads this, ticksPerLevel
    {
      Accounted(Value(), Sum(ticksPerLevel[..]))
    }

    /** A fresh process, as `allocproc` leaves it. */
    constructor ()
      ensures Valid() && fresh(ticksPerLevel) && Value() == Proc(Used, 0, 0, [0, 0, 0, 0], 0, 0, 0)
    {
      ticksPerLevel := new nat[LEVELS](_ => 0);
      state, level, ticksAtLevel, syscount, syscallsAtLevel, timesScheduled := Used, 0, 0, 0, 0, 0;
      new;
      assert ticksPerLevel[..] == [0, 0, 0, 0];
      assert Sum([0]) == 0 && [0, 0, 0, 0][1..][1..][1..] == [0];
    }

    /** The timer branch of `usertrap`; `yielded` tells whether it gives up the CPU. */
    method TimerTick() returns (yielded: bool)
      requires Valid()
      modifies this, ticksPerLevel
      ensures Valid() && Value() == Ticked(old(Value()))
      ensures old(level) < 4 && (yielded <==> old(ticksAtLevel) + 1 == [2, 4, 8, 16][old(level)])
    {
      NextAccounted(Value(), Sum(ticksPerLevel[..]), Tick);
      ticksAtLevel := ticksAtLevel + 1;
      ticksPerLevel[level] := ticksPerLevel[level] + 1;
      var quantum := Quantum(level);
      yielded := ticksAtLevel >= quantum;
      if yielded {
        var deltaS := syscount - syscallsAtLevel;
        var deltaT := ticksAtLevel;
        if deltaS < deltaT && level < 3 {
          level := level + 1;
        }
        ticksAtLevel := 0;
        state := Runnable;
      }
      assert Value() == Ticked(old(Value()));
    }
  }

  /** The boost in `clockintr` over the process table. */
  method BoostAll(procs: array<Proc>)
    modifies procs
    ensures forall i :: 0 <= i < procs.Length ==> procs[i] == Boosted(old(procs[i]))
    ensures forall i :: 0 <= i < procs.Length ==>
              if old(procs[i]).state in {Runnable, Running}
              then procs[i] == old(procs[i]).(level := 0, ticksAtLevel := 0)
              else procs[i] == old(procs[i])
  {
    var i := 0;
    while i < procs.Length
      invariant 0 <= i <= procs.Length
      invariant forall k :: 0 <= k < i ==> procs[k] == Boosted(old(procs[k]))
      invariant forall k :: i <= k < procs.Length ==> procs[k] == old(procs[k])
    {
      if procs[i].state == Runnable || procs[i].state == Running {
        procs[i] := procs[i].(level := 0, ticksAtLevel := 0);
      }
      i := i + 1;
    }
  }

  const WORD := 0x1_0000_0000

  /** Whether the tick that makes the 32-bit counter `ticks` boosts. */
  predicate BoostDue(ticks: nat) {
    ticks > 0 && ticks % 128 == 0
  }

  /** `clockintr` on CPU `cpu`: only CPU 0 counts ticks and boosts. */
  method ClockIntr(cpu: nat, ticks: nat, procs: array<Proc>) returns (ticks': nat)
    requires ticks < WORD
    modifies procs
    ensures ticks' == (if cpu != 0 then ticks else if ticks == 0xFFFF_FFFF then 0 else ticks + 1)
    ensures cpu == 0 && ticks' > 0 && ticks' % 128 == 0 ==>
              forall i :: 0 <= i < procs.Length ==> procs[i] == Boosted(old(procs[i]))
    ensures !(cpu == 0 && ticks' > 0 && ticks' % 128 == 0) ==> procs[..] == old(procs[..])
  {
    ticks' := ticks;
    if cpu == 0 {
      ticks' := (ticks + 1) % WORD;
      var gboost := ticks' > 0 && ticks' % 128 == 0;
      if gboost {
        BoostAll(procs);
      }
    }
  }

  /** The counter after `j` more ticks. */
  function Later(ticks: nat, j: nat): nat {
    (ticks + j) % WORD
  }

  /** No process waits long for a boost: one comes within 128 ticks, except that the boost due when
      the counter wraps to 0 is skipped, and then one comes within 256. */
  lemma BoostComes(ticks: nat) returns (k: nat)
    requires ticks < WORD
    ensures 1 <= k <= 256 && BoostDue(Later(ticks, k)) && forall j :: 1 <= j < k ==> !BoostDue(Later(ticks, j))
    ensures k <= 128 <==> ticks < 0xFFFF_FF80
    ensures Later(ticks, k) % 128 == 0 && Later(ticks, k) > 0
  {
    var q, r := ticks / 128, ticks % 128;
    k := if ticks < WORD - 128 then 128 - r else 256 - r;
    forall j | 1 <= j <= k ensures BoostDue(Later(ticks, j)) <==> j == k {
      if ticks + j < WORD {
        assert Later(ticks, j) == q * 128 + (r + j);
        assert r + j < 128 || (j == k && Later(ticks, j) == (q + 1) * 128);
      } else {
        assert q == 0x1FF_FFFF && Later(ticks, j) == ticks + j - WORD == r + j - 128;
      }
    }
  }

  // -------- Round robin --------

  /** How many slots a scan that starts after `last` visits before it comes to `p`. */
  function Distance(last: nat, p: nat, n: nat): nat
    requires last < n && p < n
  {
    if p > last then p - last - 1 else p + n - last - 1
  }

  /** The slots a scan of `level` would pick, as it sees them. */
  predicate Ready(seen: seq<Proc>, level: nat, i: nat)
    requires i < |seen|
  {
    seen[i].state == Runnable && seen[i].level == level
  }

  /** `picked` is the first ready slot after `last` in cyclic order, or -1 if there is none. */
  ghost predicate RoundRobin(seen: seq<Proc>, level: nat, last: nat, picked: int)
    requires last < |seen|
  {
    && -1 <= picked < |seen|
    && (picked >= 0 ==> Ready(seen, level, picked))
    && forall i :: 0 <= i < |seen| && Ready(seen, level, i) ==>
         picked >= 0 && Distance(last, picked, |seen|) <= Distance(last, i, |seen|)
  }

  /** Going round from the slot after `last`, no slot before `picked` is ready. */
  ghost predicate NoneBetween(seen: seq<Proc>, level: nat, last: nat, picked: int)
    requires last < |seen|
  {
    forall i :: 0 <= i < |seen| && seen[i].state == Runnable && seen[i].level == level ==>
      if picked > last then i <= last || picked <= i else picked <= i <= last
  }

  lemma PickedFirst(seen: seq<Proc>, level: nat, last: nat, picked: int)
    requires last < |seen| && RoundRobin(seen, level, last, picked)
    ensures picked >= 0 ==> NoneBetween(seen, level, last, picked)
    ensures picked < 0 ==> forall i :: 0 <= i < |seen| ==> !(seen[i].state == Runnable && seen[i].level == level)
  {
    forall i | 0 <= i < |seen| && seen[i].state == Runnable && seen[i].level == level
      ensures picked >= 0 && if picked > last then i <= last || picked <= i else picked <= i <= last
    {
      assert Ready(seen, level, i);
    }
  }

  /** The next slot in cyclic order. */
  method NextSlot(i: nat, n: nat) returns (r: nat)
    requires i < n
    ensures r == if i + 1 < n then i + 1 else 0
  {
    if i + 1 < n {
      Small(i + 1, n);
    }
    r := (i + 1) % n;
  }

  /** Passing over one process brings the scan strictly closer to any other that is ready. */
  lemma PickCloser(seen: seq<Proc>, level: nat, last: nat, picked: int, p: nat)
    requires last < |seen| && p < |seen| && RoundRobin(seen, level, last, picked)
    requires Ready(seen, level, p) && picked != p
    ensures picked >= 0 && Distance(picked, p, |seen|) < Distance(last, p, |seen|)
  {
  }

  /** One CPU's scheduler. */
  class Cpu {
    const nproc: nat
    const lastIdx: array<nat>

    ghost predicate Valid()
      reads this, lastIdx
    {
      nproc > 0 && lastIdx.Length == LEVELS && forall i :: 0 <= i < LEVELS ==> lastIdx[i] < nproc
    }

    constructor (n: nat)
      requires n > 0
      ensures Valid() && fresh(lastIdx) && nproc == n && forall i :: 0 <= i < LEVELS ==> lastIdx[i] == 0
    {
      nproc := n;
      lastIdx := new nat[LEVELS](_ => 0);
    }

    /** One scan of a level. `seen[i]` is slot `i` as it is when the scan looks at it, so other
        CPUs may be changing the table meanwhile; `ran` is the record the picked process runs with. */
    method ScanLevel(level: nat, seen: seq<Proc>) returns (picked: int, ran: seq<Proc>)
      requires Valid() && level < LEVELS && |seen| == nproc
      modifies lastIdx
      ensures Valid() && RoundRobin(seen, level, old(lastIdx[level]), picked)
      ensures picked >= 0 ==> NoneBetween(seen, level, old(lastIdx[level]), picked)
      ensures picked < 0 ==> forall i :: 0 <= i < nproc ==> !(seen[i].state == Runnable && seen[i].level == level)
      ensures picked >= 0 ==> lastIdx[level] == picked && ran == [Scheduled(seen[picked])]
      ensures picked >= 0 ==> var p, r := seen[picked], ran[0];
                && p.state == Runnable && p.level == level && r.state == Running
                && r.timesScheduled == p.timesScheduled + 1 && r.syscallsAtLevel == p.syscount
                && r.level == p.level && r.ticksAtLevel == p.ticksAtLevel && r.ticksPerLevel == p.ticksPerLevel
                && r.syscount == p.syscount
      ensures picked < 0 ==> lastIdx[level] == old(lastIdx[level]) && ran == []
      ensures forall k :: 0 <= k < LEVELS && k != level ==> lastIdx[k] == old(lastIdx[k])
    {
      var last := lastIdx[level];
      var startIdx := NextSlot(last, nproc);
      var idx := startIdx;
      ghost var visited: nat := 0;
      while true
        invariant forall k :: 0 <= k < LEVELS ==> lastIdx[k] == old(lastIdx[k])
        invariant 0 <= idx < nproc && visited < nproc && Distance(last, idx, nproc) == visited
        invariant forall i :: 0 <= i < nproc && Distance(last, i, nproc) < visited ==> !Ready(seen, level, i)
        decreases nproc - visited
      {
        var p := seen[idx];
        if p.state == Runnable && p.level == level {
          ran := [p.(state := Running, timesScheduled := p.timesScheduled + 1, syscallsAtLevel := p.syscount)];
          lastIdx[level] := idx;
          picked := idx;
          PickedFirst(seen, level, last, picked);
          return;
        }
        idx := NextSlot(idx, nproc);
        if idx == startIdx { break; }
        visited := visited + 1;
      }
      picked, ran := -1, [];
      PickedFirst(seen, level, last, picked);
    }

    /** One pass of the scheduler over all levels; `views[l]` is the table as the scan of level `l`
        sees it. Levels do not disturb each other. */
    method Pass(views: seq<seq<Proc>>) returns (picks: seq<int>)
      requires Valid() && |views| == LEVELS && forall l :: 0 <= l < LEVELS ==> |views[l]| == nproc
      modifies lastIdx
      ensures Valid() && |picks| == LEVELS
      ensures forall l :: 0 <= l < LEVELS ==> PassedLevel(views[l], l, old(lastIdx[l]), picks[l], lastIdx[l])
    {
      picks := [];
      var level := 0;
      while level < LEVELS
        invariant Valid() && 0 <= level <= LEVELS && |picks| == level
        invariant forall l :: 0 <= l < level ==> PassedLevel(views[l], l, old(lastIdx[l]), picks[l], lastIdx[l])
        invariant forall l :: level <= l < LEVELS ==> lastIdx[l] == old(lastIdx[l])
      {
        var picked, _ := ScanLevel(level, views[level]);
        picks := picks + [picked];
        level := level + 1;
      }
    }
  }

  /** What one pass does at one level. */
  ghost predicate PassedLevel(seen: seq<Proc>, level: nat, last: nat, picked: int, last': nat) {
    && last < |seen| && RoundRobin(seen, level, last, picked)
    && last' == if picked >= 0 then picked else last
  }

  /** Bounded bypass: while a process is ready at `level` whenever the level is scanned, it is
      picked after at most as many passes as its cyclic distance from the last pick, hence
      within as many passes as there are slots, whatever happens at other levels. */
  lemma {:induction false} BoundedBypass(level: nat, p: nat, n: nat, views: seq<seq<Proc>>, lasts: seq<nat>,
      picks: seq<int>)
    requires p < n && |lasts| == n + 1 && |views| == |picks| == n
    requires forall k :: 0 <= k < n ==>
              |views[k]| == n && PassedLevel(views[k], level, lasts[k], picks[k], lasts[k + 1])
    requires forall k :: 0 <= k < n ==> Ready(views[k], level, p)
    ensures lasts[0] < n && exists k :: 0 <= k <= Distance(lasts[0], p, n) < n && picks[k] == p
  {
    assert PassedLevel(views[0], level, lasts[0], picks[0], lasts[1]);
    var k := 0;
    while picks[k] != p
      invariant 0 <= k < n && lasts[k] < n
      invariant Distance(lasts[k], p, n) + k <= Distance(lasts[0], p, n) < n
      decreases n - k
    {
      assert PassedLevel(views[k], level, lasts[k], picks[k], lasts[k + 1]);
      PickCloser(views[k], level, lasts[k], picks[k], p);
      k := k + 1;
    }
  }
}
