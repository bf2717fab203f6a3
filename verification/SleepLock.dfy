/** Sleep locks (kernel/sleeplock.c) over sleep, wakeup and kkill (kernel/proc.c), as a state
    machine in which any number of processes take one step each in any order. A step is one
    spinlock operation or one access to a shared field, so every interleaving is a run. */
module SleepLocks {

  datatype ProcState = Running | Runnable | Sleeping

  /** acquiresleep: acquire lk->lk, test lk->locked, set it, set lk->pid, release lk->lk. */
  datatype AcquireStage = Want | Test | Mark | Name | Leave

  /** sleep: acquire p->lock, release lk->lk, set p->chan, set p->state, switch to the scheduler
      (which releases p->lock), not running, clear p->chan, release p->lock. */
  datatype SleepStage = WantOwn | DropLk | SetChan | SetState | Switch | Off | Tidy | DropOwn

  /** releasesleep: acquire lk->lk, clear lk->locked, clear lk->pid; wakeup: acquire proc[j].lock,
      wake proc[j] and release its lock. */
  datatype ReleaseStage = WantRel | Unmark | Unname | Reach(j: nat) | Wake(j: nat)

  /** What a process is about to do, and with which lock. In kkill, the victim has index `v`,
      and `has` tells whether proc[j].lock has been acquired. */
  datatype Pc =
    | Idle
    | Acquiring(l: nat, a: AcquireStage)
    | Dozing(l: nat, z: SleepStage)
    | Releasing(l: nat, r: ReleaseStage)
    | Killing(v: nat, j: nat, has: bool)

  const NONE := -1

  /** A process: what it does next, its state and channel, and who holds its p->lock. */
  datatype Proc = Proc(pc: Pc, st: ProcState, chan: int, lock: int)

  /** A sleep lock. `held` records who has passed the test in acquiresleep and not yet cleared
      lk->locked. Spinlocks hold the index of the process that has them, or NONE. */
  datatype Lock = Lock(lk: int, locked: bool, pid: int, held: set<nat>)

  datatype State = State(procs: seq<Proc>, locks: seq<Lock>)

  /** The sleep lock whose spinlock a process holds at `c`, or NONE. */
  function Inner(c: Pc): int {
    match c
    case Idle => NONE
    case Acquiring(l, a) => if a == Want then NONE else l
    case Dozing(l, z) => if z == WantOwn || z == DropLk then l else NONE
    case Releasing(l, r) => if r == WantRel then NONE else l
    case Killing(_, _, _) => NONE
  }

  /** The process whose p->lock process `p` holds at `c`, or NONE. */
  function Outer(c: Pc, p: nat): int {
    match c
    case Idle => NONE
    case Acquiring(_, _) => NONE
    case Dozing(_, z) => if z == WantOwn || z == Off then NONE else p
    case Releasing(_, r) => if r.Wake? then r.j else NONE
    case Killing(_, j, has) => if has then j else NONE
  }

  // -------- Steps --------

  datatype Step =
    | Acquire(p: nat, l: nat)  // call acquiresleep
    | Release(p: nat, l: nat)  // call releasesleep on a lock one holds
    | Kill(p: nat, v: nat)     // call kkill
    | Preempt(p: nat)          // timer interrupt: yield
    | Dispatch(p: nat)         // the scheduler picks a process that yielded
    | Code(p: nat)             // the next step of the code the process is in

  /** A process that holds no spinlock and is not going to sleep can be interrupted. */
  predicate Interruptible(c: Pc) {
    match c
    case Idle => true
    case Acquiring(_, a) => a == Want
    case Dozing(_, _) => false
    case Releasing(_, r) => r == WantRel
    case Killing(_, _, has) => !has
  }

  predicate Enabled(s: State, t: Step) {
    && t.p < |s.procs|
    && var me := s.procs[t.p];
    match t
    case Acquire(_, l) => me.pc.Idle? && me.st == Running && l < |s.locks|
    case Release(p, l) => me.pc.Idle? && me.st == Running && l < |s.locks| && p in s.locks[l].held
    case Kill(_, v) => me.pc.Idle? && me.st == Running
    case Preempt(_) => Interruptible(me.pc) && me.st == Running && me.lock == NONE
    case Dispatch(_) => Interruptible(me.pc) && me.st == Runnable && me.lock == NONE
    case Code(p) => CodeEnabled(s, p)
  }

  /** Spinlock acquisitions wait; every other step can be taken at once. */
  predicate CodeEnabled(s: State, p: nat)
    requires p < |s.procs|
  {
    var me := s.procs[p];
    match me.pc
    case Idle => false
    case Acquiring(l, a) => l < |s.locks| && (a == Want ==> me.st == Running && s.locks[l].lk == NONE)
    case Dozing(l, z) =>
      && l < |s.locks|
      && (z == WantOwn ==> me.lock == NONE) && (z == Off ==> me.st == Runnable && me.lock == NONE)
    case Releasing(l, r) =>
      && l < |s.locks|
      && (r == WantRel ==> me.st == Running && s.locks[l].lk == NONE)
      && (r.Reach? ==> r.j == p || r.j >= |s.procs| || s.procs[r.j].lock == NONE)
      && (r.Wake? ==> r.j < |s.procs|)
    case Killing(_, j, has) =>
      if has then j < |s.procs| else me.st == Running && (j >= |s.procs| || s.procs[j].lock == NONE)
  }

  /** Process `p` moves to `c`. */
  function At(s: State, p: nat, c: Pc): State
    requires p < |s.procs|
  {
    s.(procs := s.procs[p := s.procs[p].(pc := c)])
  }

  /** Process `p` acquires proc[j].lock. */
  function Grab(s: State, j: nat, p: nat): State
    requires j < |s.procs|
  {
    s.(procs := s.procs[j := s.procs[j].(lock := p)])
  }

  /** proc[j].lock is released, after making the process runnable if it is asleep and `wake`. */
  function Let(s: State, j: nat, wake: bool): State
    requires j < |s.procs|
  {
    var q := s.procs[j];
    s.(procs := s.procs[j := q.(lock := NONE, st := if wake && q.st == Sleeping then Runnable else q.st)])
  }

  function Do(s: State, t: Step): State
    requires Enabled(s, t)
  {
    var p := t.p;
    match t
    case Acquire(_, l) => At(s, p, Acquiring(l, Want))
    case Release(_, l) => At(s, p, Releasing(l, WantRel))
    case Kill(_, v) => At(s, p, Killing(v, 0, false))
    case Preempt(_) => s.(procs := s.procs[p := s.procs[p].(st := Runnable)])
    case Dispatch(_) => s.(procs := s.procs[p := s.procs[p].(st := Running)])
    case Code(_) =>
      match s.procs[p].pc
      case Acquiring(l, a) => AcquireStep(s, p, l, a)
      case Dozing(l, z) => SleepStep(s, p, l, z)
      case Releasing(l, r) => ReleaseStep(s, p, l, r)
      case Killing(v, j, has) => KillStep(s, p, v, j, has)
  }

  function AcquireStep(s: State, p: nat, l: nat, a: AcquireStage): State
    requires p < |s.procs| && l < |s.locks|
  {
    var k := s.locks[l];
    match a
    case Want => At(s, p, Acquiring(l, Test)).(locks := s.locks[l := k.(lk := p)])
    case Test => At(s, p, if k.locked then Dozing(l, WantOwn) else Acquiring(l, Mark))
    case Mark => At(s, p, Acquiring(l, Name)).(locks := s.locks[l := k.(locked := true, held := k.held + {p})])
    case Name => At(s, p, Acquiring(l, Leave)).(locks := s.locks[l := k.(pid := p)])
    case Leave => At(s, p, Idle).(locks := s.locks[l := k.(lk := NONE)])
  }

  function SleepStep(s: State, p: nat, l: nat, z: SleepStage): State
    requires p < |s.procs| && l < |s.locks|
  {
    var me := s.procs[p];
    match z
    case WantOwn => s.(procs := s.procs[p := me.(pc := Dozing(l, DropLk), lock := p)])
    case DropLk => At(s, p, Dozing(l, SetChan)).(locks := s.locks[l := s.locks[l].(lk := NONE)])
    case SetChan => s.(procs := s.procs[p := me.(pc := Dozing(l, SetState), chan := l)])
    case SetState => s.(procs := s.procs[p := me.(pc := Dozing(l, Switch), st := Sleeping)])
    case Switch => s.(procs := s.procs[p := me.(pc := Dozing(l, Off), lock := NONE)])
    case Off => s.(procs := s.procs[p := me.(pc := Dozing(l, Tidy), lock := p, st := Running)])
    case Tidy => s.(procs := s.procs[p := me.(pc := Dozing(l, DropOwn), chan := NONE)])
    case DropOwn => s.(procs := s.procs[p := me.(pc := Acquiring(l, Want), lock := NONE)])
  }

  function ReleaseStep(s: State, p: nat, l: nat, r: ReleaseStage): State
    requires p < |s.procs| && l < |s.locks| && (r.Wake? ==> r.j < |s.procs|)
  {
    var k := s.locks[l];
    match r
    case WantRel => At(s, p, Releasing(l, Unmark)).(locks := s.locks[l := k.(lk := p)])
    case Unmark => At(s, p, Releasing(l, Unname)).(locks := s.locks[l := k.(locked := false, held := k.held - {p})])
    case Unname => At(s, p, Releasing(l, Reach(0))).(locks := s.locks[l := k.(pid := NONE)])
    case Reach(j) =>
      if j >= |s.procs| then At(s, p, Idle).(locks := s.locks[l := k.(lk := NONE)])
      else if j == p then At(s, p, Releasing(l, Reach(j + 1)))
      else Grab(At(s, p, Releasing(l, Wake(j))), j, p)
    case Wake(j) => Let(At(s, p, Releasing(l, Reach(j + 1))), j, s.procs[j].chan == l)
  }

  function KillStep(s: State, p: nat, v: nat, j: nat, has: bool): State
    requires p < |s.procs| && (has ==> j < |s.procs|)
  {
    if !has then
      if j >= |s.procs| then At(s, p, Idle) else Grab(At(s, p, Killing(v, j, true)), j, p)
    else
      Let(At(s, p, if j == v then Idle else Killing(v, j + 1, false)), j, j == v)
  }

  // -------- The invariant --------

  /** Process `p` has given up the spinlock of `l` in order to sleep, and nothing has woken it. */
  predicate Asleep(me: Proc, l: nat) {
    && me.pc.Dozing? && me.pc.l == l
    && var z := me.pc.z;
    z == SetChan || z == SetState || z == Switch || (z == Off && me.st == Sleeping)
  }

  /** The process at `c` has cleared lk->locked and its wakeup has yet to reach process `p`. */
  predicate WillWake(c: Pc, l: nat, p: nat) {
    && c.Releasing? && c.l == l
    && (c.r == Unname || ((c.r.Reach? || c.r.Wake?) && c.r.j <= p))
  }

  /** What holds of a process at each point of its code. */
  ghost predicate ProcOk(s: State, p: nat)
    requires p < |s.procs|
  {
    var me := s.procs[p];
    var c := me.pc;
    && (Inner(c) != NONE ==> Inner(c) < |s.locks| && s.locks[Inner(c)].lk == p && me.st == Running)
    && (Outer(c, p) != NONE ==> Outer(c, p) < |s.procs| && s.procs[Outer(c, p)].lock == p)
    && (c.Dozing? || me.st != Sleeping)
    && (me.chan != NONE ==> c.Dozing? && c.z in {SetState, Switch, Off, Tidy})
    && match c
       case Idle => true
       case Acquiring(l, a) =>
         && l < |s.locks|
         && (a == Mark ==> !s.locks[l].locked)
         && (a == Name || a == Leave ==> p in s.locks[l].held)
       case Dozing(l, z) =>
         && l < |s.locks|
         && (z == WantOwn || z == DropLk ==> s.locks[l].locked)
         && (z == SetState || z == Switch || z == Off ==> me.chan == l)
         && (z == Switch <==> me.st == Sleeping && me.lock == p)
         && (z == Off ==> me.st != Running)
         && (z != Off && z != Switch ==> me.st == Running)
       case Releasing(l, r) =>
         && l < |s.locks|
         && (if r == WantRel || r == Unmark then p in s.locks[l].held else !s.locks[l].locked)
       case Killing(v, j, has) => (has ==> me.st == Running) && (v < |s.procs| ==> j <= v)
  }

  ghost predicate OwnLockOk(s: State, q: nat)
    requires q < |s.procs|
  {
    var p := s.procs[q].lock;
    p == NONE || (0 <= p < |s.procs| && Outer(s.procs[p].pc, p) == q)
  }

  ghost predicate LockOk(s: State, l: nat)
    requires l < |s.locks|
  {
    var k := s.locks[l];
    && (k.lk == NONE || (0 <= k.lk < |s.procs| && Inner(s.procs[k.lk].pc) == l))
    && (k.locked <==> k.held != {})
    && (forall p, q :: p in k.held && q in k.held ==> p == q)
    && (k.locked && !(k.lk != NONE && s.procs[k.lk].pc == Acquiring(l, Name)) ==> k.pid in k.held)
    && (!k.locked && !(k.lk != NONE && s.procs[k.lk].pc == Releasing(l, Unname)) ==> k.pid == NONE)
  }

  /** No lost wakeup: a sleeper finds the lock taken, or is still ahead of a wakeup. */
  ghost predicate Covered(s: State, p: nat, l: nat)
    requires p < |s.procs| && l < |s.locks|
  {
    Asleep(s.procs[p], l) ==>
      s.locks[l].locked || (0 <= s.locks[l].lk < |s.procs| && WillWake(s.procs[s.locks[l].lk].pc, l, p))
  }

  ghost predicate Inv(s: State) {
    && (forall p :: 0 <= p < |s.procs| ==> ProcOk(s, p))
    && (forall q :: 0 <= q < |s.procs| ==> OwnLockOk(s, q))
    && (forall l :: 0 <= l < |s.locks| ==> LockOk(s, l))
    && (forall p, l :: 0 <= p < |s.procs| && 0 <= l < |s.locks| ==> Covered(s, p, l))
  }

  // -------- Every step keeps it --------

  /** What every other process may rely on when `p` takes a step: `p` touches only what it has
      locked, or locks, and a sleeper changes state only while `p` has its p->lock. */
  ghost predicate Guarantee(p: nat, s: State, s': State) {
    && |s'.procs| == |s.procs| && |s'.locks| == |s.locks|
    && (forall q :: 0 <= q < |s.procs| && q != p ==> ProcChange(p, s.procs[q], s'.procs[q]))
    && (p < |s.procs| ==> s'.procs[p].lock == s.procs[p].lock || s.procs[p].lock in {p, NONE})
    && (forall l :: 0 <= l < |s.locks| ==> LockChange(p, s.locks[l], s'.locks[l]))
  }

  ghost predicate ProcChange(p: nat, a: Proc, b: Proc) {
    && b.pc == a.pc && b.chan == a.chan
    && (b.st == a.st || (a.st == Sleeping && b.st == Runnable && a.lock == p))
    && (b.lock == a.lock || (a.lock in {p, NONE} && b.lock in {p, NONE}))
  }

  ghost predicate LockChange(p: nat, a: Lock, b: Lock) {
    b == a || (a.lk in {p, NONE} && b.lk in {p, NONE} && a.held - {p} <= b.held)
  }

  lemma ProcGuaranteed(s: State, t: Step, q: nat)
    requires Enabled(s, t) && ProcOk(s, t.p) && q < |s.procs|
    ensures q < |Do(s, t).procs|
    ensures q != t.p ==> ProcChange(t.p, s.procs[q], Do(s, t).procs[q])
    ensures q == t.p ==> Do(s, t).procs[q].lock == s.procs[q].lock || s.procs[q].lock in {q, NONE}
  {
  }

  lemma LockGuaranteed(s: State, t: Step, l: nat)
    requires Enabled(s, t) && ProcOk(s, t.p) && l < |s.locks|
    ensures l < |Do(s, t).locks| && LockChange(t.p, s.locks[l], Do(s, t).locks[l])
  {
  }

  lemma Guaranteed(s: State, t: Step)
    requires Enabled(s, t) && ProcOk(s, t.p)
    ensures Guarantee(t.p, s, Do(s, t))
  {
    var s' := Do(s, t);
    ProcGuaranteed(s, t, t.p);
    forall q | 0 <= q < |s.procs| && q != t.p ensures q < |s'.procs| && ProcChange(t.p, s.procs[q], s'.procs[q]) {
      ProcGuaranteed(s, t, q);
    }
    forall l | 0 <= l < |s.locks| ensures l < |s'.locks| && LockChange(t.p, s.locks[l], s'.locks[l]) {
      LockGuaranteed(s, t, l);
    }
  }

  lemma ForeignKept(p: nat, s: State, s': State, q: nat)
    requires Guarantee(p, s, s') && q < |s.procs| && q != p && ProcOk(s, q)
    ensures ProcOk(s', q)
  {
  }

  lemma OwnKept(s: State, t: Step)
    requires Enabled(s, t) && ProcOk(s, t.p)
    requires Inner(s.procs[t.p].pc) != NONE ==> LockOk(s, Inner(s.procs[t.p].pc))
    ensures ProcOk(Do(s, t), t.p)
  {
    if t.Code? && s.procs[t.p].pc.Releasing? {
      ReleaserKept(s, t);
    } else if t.Code? && s.procs[t.p].pc.Dozing? {
      SleeperKept(s, t);
    }
  }

  lemma ReleaserKept(s: State, t: Step)
    requires Enabled(s, t) && ProcOk(s, t.p) && t.Code? && s.procs[t.p].pc.Releasing?
    requires Inner(s.procs[t.p].pc) != NONE ==> LockOk(s, Inner(s.procs[t.p].pc))
    ensures ProcOk(Do(s, t), t.p)
  {
  }

  lemma SleeperKept(s: State, t: Step)
    requires Enabled(s, t) && ProcOk(s, t.p) && t.Code? && s.procs[t.p].pc.Dozing?
    ensures ProcOk(Do(s, t), t.p)
  {
  }

  lemma OwnLockKept(s: State, t: Step, q: nat)
    requires Enabled(s, t) && ProcOk(s, t.p)
    requires q < |s.procs| && OwnLockOk(s, q)
    ensures q < |Do(s, t).procs| && OwnLockOk(Do(s, t), q)
  {
    if t.Code? && s.procs[t.p].pc.Releasing? {
      ReleaserKeepsOwnLock(s, t, q);
    }
  }

  lemma ReleaserKeepsOwnLock(s: State, t: Step, q: nat)
    requires Enabled(s, t) && ProcOk(s, t.p) && t.Code? && s.procs[t.p].pc.Releasing?
    requires q < |s.procs| && OwnLockOk(s, q)
    ensures q < |Do(s, t).procs| && OwnLockOk(Do(s, t), q)
  {
  }

  lemma LockKept(s: State, t: Step, l: nat)
    requires Enabled(s, t) && ProcOk(s, t.p)
    requires l < |s.locks| && LockOk(s, l)
    ensures l < |Do(s, t).locks| && LockOk(Do(s, t), l)
  {
    if t.Code? && s.procs[t.p].pc.Releasing? {
      ReleaserKeepsLock(s, t, l);
    }
  }

  lemma ReleaserKeepsLock(s: State, t: Step, l: nat)
    requires Enabled(s, t) && ProcOk(s, t.p) && t.Code? && s.procs[t.p].pc.Releasing?
    requires l < |s.locks| && LockOk(s, l)
    ensures l < |Do(s, t).locks| && LockOk(Do(s, t), l)
  {
  }

  /** Going to sleep: the lock was seen taken, under its spinlock. */
  lemma SleeperCovered(s: State, t: Step, l: nat)
    requires Enabled(s, t) && ProcOk(s, t.p) && l < |s.locks| && Covered(s, t.p, l) && LockOk(s, l)
    ensures Guarantee(t.p, s, Do(s, t)) && Covered(Do(s, t), t.p, l)
  {
    Guaranteed(s, t);
  }

  /** The process that has the spinlock of `l` moves: a waker gets to `q` before it finishes. */
  lemma WakerCovers(s: State, t: Step, q: nat, l: nat)
    requires Enabled(s, t) && ProcOk(s, t.p) && l < |s.locks| && s.locks[l].lk == t.p
    requires q < |s.procs| && q != t.p && ProcOk(s, q) && Covered(s, q, l)
    ensures Guarantee(t.p, s, Do(s, t)) && Covered(Do(s, t), q, l)
  {
    Guaranteed(s, t);
    assert ProcChange(t.p, s.procs[q], Do(s, t).procs[q]);
  }

  lemma BystanderCovers(s: State, t: Step, q: nat, l: nat)
    requires Enabled(s, t) && ProcOk(s, t.p) && l < |s.locks| && s.locks[l].lk != t.p && LockOk(s, l)
    requires q < |s.procs| && q != t.p && Covered(s, q, l)
    ensures Guarantee(t.p, s, Do(s, t)) && Covered(Do(s, t), q, l)
  {
    Guaranteed(s, t);
    assert ProcChange(t.p, s.procs[q], Do(s, t).procs[q]);
  }

  /** Every step keeps the invariant. */
  lemma StepKeeps(s: State, t: Step)
    requires Inv(s) && Enabled(s, t)
    ensures Inv(Do(s, t))
  {
    assert ProcOk(s, t.p);
    var s' := Do(s, t);
    Guaranteed(s, t);
    forall q | 0 <= q < |s.procs| ensures ProcOk(s', q) && OwnLockOk(s', q) {
      if q == t.p {
        OwnKept(s, t);
      } else {
        ForeignKept(t.p, s, s', q);
      }
      OwnLockKept(s, t, q);
    }
    forall l | 0 <= l < |s.locks| ensures LockOk(s', l) {
      LockKept(s, t, l);
    }
    forall q, l | 0 <= q < |s.procs| && 0 <= l < |s.locks| ensures Covered(s', q, l) {
      if q == t.p {
        SleeperCovered(s, t, l);
      } else if s.locks[l].lk == t.p {
        WakerCovers(s, t, q, l);
      } else {
        BystanderCovers(s, t, q, l);
      }
    }
  }

  // -------- Runs --------

  /** Boot: nobody is in this code and every lock is free. */
  ghost predicate Init(s: State) {
    && (forall p :: 0 <= p < |s.procs| ==>
          && s.procs[p].pc == Idle && s.procs[p].st != Sleeping && s.procs[p].lock == NONE
          && s.procs[p].chan == NONE)
    && (forall l :: 0 <= l < |s.locks| ==> s.locks[l] == Lock(NONE, false, NONE, {}))
  }

  /** `ts` leads from `s` to `s'`. */
  ghost predicate Run(s: State, ts: seq<Step>, s': State)
    decreases |ts|
  {
    if ts == [] then s' == s else Enabled(s, ts[0]) && Run(Do(s, ts[0]), ts[1..], s')
  }

  lemma InitInv(s: State)
    requires Init(s)
    ensures Inv(s)
  {
  }

  lemma {:induction false} RunInv(s: State, ts: seq<Step>, s': State)
    requires Inv(s) && Run(s, ts, s')
    ensures Inv(s')
    decreases |ts|
  {
    if ts != [] {
      StepKeeps(s, ts[0]);
      RunInv(Do(s, ts[0]), ts[1..], s');
    }
  }

  /** After any run, a sleep lock that is not held, with its spinlock free, has nobody asleep on it
      and nobody on the way to sleeping on it. */
  lemma NoLostWakeup(s: State, ts: seq<Step>, s': State, p: nat, l: nat)
    requires Init(s) && Run(s, ts, s') && p < |s'.procs| && l < |s'.locks|
    requires s'.locks[l].lk == NONE && !s'.locks[l].locked
    ensures s'.procs[p].pc.Dozing? && s'.procs[p].pc.l == l ==>
              s'.procs[p].pc.z in {Off, Tidy, DropOwn} && s'.procs[p].st != Sleeping
    ensures s'.procs[p].st == Sleeping ==> s'.procs[p].chan != l
  {
    InitInv(s);
    RunInv(s, ts, s');
    assert Covered(s', p, l) && ProcOk(s', p);
  }

  /** After any run, at most one process holds a sleep lock; the lock is marked exactly while one
      does, and while its spinlock is free `pid` names that process. */
  lemma MutualExclusion(s: State, ts: seq<Step>, s': State, p: nat, q: nat, l: nat)
    requires Init(s) && Run(s, ts, s') && l < |s'.locks|
    requires p in s'.locks[l].held && q in s'.locks[l].held
    ensures p == q && s'.locks[l].locked && (s'.locks[l].lk == NONE ==> s'.locks[l].pid == p)
  {
    InitInv(s);
    RunInv(s, ts, s');
    assert LockOk(s', l);
  }

  /** After any run, a lock that is free with its spinlock free names nobody. */
  lemma FreeNamesNobody(s: State, ts: seq<Step>, s': State, l: nat)
    requires Init(s) && Run(s, ts, s') && l < |s'.locks| && s'.locks[l].lk == NONE && s'.locks[l].held == {}
    ensures !s'.locks[l].locked && s'.locks[l].pid == NONE
  {
    InitInv(s);
    RunInv(s, ts, s');
    assert LockOk(s', l);
  }

  // -------- What a return means --------

  /** The process of step `t` returns from the call it is in. */
  predicate Returns(s: State, t: Step)
    requires Enabled(s, t)
  {
    s.procs[t.p].pc != Idle && t.p < |Do(s, t).procs| && Do(s, t).procs[t.p].pc == Idle
  }

  /** After any run, whoever returns from acquiresleep holds the lock, whether or not it slept. */
  lemma ReturnsHolding(s: State, ts: seq<Step>, s': State, t: Step)
    requires Init(s) && Run(s, ts, s') && Enabled(s', t) && Returns(s', t)
    ensures var c, r := s'.procs[t.p].pc, Do(s', t);
            c.Acquiring? || c.Dozing? ==>
              c.l < |r.locks| && r.locks[c.l].held == {t.p} && r.locks[c.l].locked && r.locks[c.l].pid == t.p
              && r.locks[c.l].lk == NONE && r.procs[t.p].lock == s'.procs[t.p].lock && r.procs[t.p].chan == NONE
  {
    InitInv(s);
    RunInv(s, ts, s');
    StepKeeps(s', t);
    var c, r := s'.procs[t.p].pc, Do(s', t);
    assert ProcOk(s', t.p) && ProcOk(r, t.p);
    if c.Acquiring? || c.Dozing? {
      assert c.l < |r.locks| && t.p in r.locks[c.l].held;
      assert LockOk(r, c.l);
      assert r.locks[c.l].held == {t.p};
    }
  }

  /** It goes on holding it until its own releasesleep clears the lock. */
  lemma KeepsHolding(s: State, ts: seq<Step>, s': State, t: Step, p: nat, l: nat)
    requires Init(s) && Run(s, ts, s') && Enabled(s', t) && l < |s'.locks| && p in s'.locks[l].held
    ensures l < |Do(s', t).locks|
    ensures p in Do(s', t).locks[l].held <==> !(t == Code(p) && s'.procs[p].pc == Releasing(l, Unmark))
  {
    InitInv(s);
    RunInv(s, ts, s');
    assert ProcOk(s', t.p) && LockOk(s', l);
  }

  /** Whoever returns from releasesleep holds the lock no more, and nobody else has got hold of it yet. */
  lemma ReturnsReleased(s: State, ts: seq<Step>, s': State, t: Step)
    requires Init(s) && Run(s, ts, s') && Enabled(s', t) && Returns(s', t)
    ensures var c, r := s'.procs[t.p].pc, Do(s', t);
            c.Releasing? ==>
              c.l < |r.locks| && r.locks[c.l] == Lock(NONE, false, NONE, {})
              && forall q :: 0 <= q < |r.procs| && r.procs[q].st == Sleeping ==> r.procs[q].chan != c.l
  {
    InitInv(s);
    RunInv(s, ts, s');
    StepKeeps(s', t);
    var c, r := s'.procs[t.p].pc, Do(s', t);
    assert ProcOk(s', t.p) && ProcOk(r, t.p);
    if c.Releasing? {
      assert LockOk(s', c.l) && LockOk(r, c.l);
      forall q | 0 <= q < |r.procs| && r.procs[q].st == Sleeping ensures r.procs[q].chan != c.l {
        assert ProcOk(r, q) && Covered(r, q, c.l);
      }
    }
  }

  /** Whoever returns from kkill has reached its victim, if there is one, and the victim is not asleep. */
  lemma ReturnsKilled(s: State, ts: seq<Step>, s': State, t: Step)
    requires Init(s) && Run(s, ts, s') && Enabled(s', t) && Returns(s', t)
    ensures var c, r := s'.procs[t.p].pc, Do(s', t);
            c.Killing? && c.v < |s'.procs| ==> c.j == c.v && c.has && c.v < |r.procs| && r.procs[c.v].st != Sleeping
  {
    InitInv(s);
    RunInv(s, ts, s');
    assert ProcOk(s', t.p);
  }

  /** A step wakes another process only by a wakeup on the channel it sleeps on, or by killing it. */
  lemma WakesOnly(s: State, ts: seq<Step>, s': State, t: Step, q: nat)
    requires Init(s) && Run(s, ts, s') && Enabled(s', t) && q < |s'.procs| && q != t.p
    ensures q < |Do(s', t).procs|
    ensures Do(s', t).procs[q].st != s'.procs[q].st ==>
              && s'.procs[q].st == Sleeping && Do(s', t).procs[q].st == Runnable && t.Code?
              && var c := s'.procs[t.p].pc;
                 (c.Releasing? && c.r == Wake(q) && s'.procs[q].chan == c.l) || (c.Killing? && c.v == c.j == q)
  {
    InitInv(s);
    RunInv(s, ts, s');
    assert ProcOk(s', t.p);
  }

  /** After any run, if any spinlock is held then the holder of some spinlock can take its next
      step: the order lk->lk before p->lock excludes deadlock among them. */
  lemma NoSpinDeadlock(s: State, ts: seq<Step>, s': State, p: nat)
    requires Init(s) && Run(s, ts, s') && p < |s'.procs|
    requires Inner(s'.procs[p].pc) != NONE || Outer(s'.procs[p].pc, p) != NONE
    ensures exists w: nat :: w < |s'.procs| && CodeEnabled(s', w)
              && (Inner(s'.procs[w].pc) != NONE || Outer(s'.procs[w].pc, w) != NONE)
  {
    InitInv(s);
    RunInv(s, ts, s');
    assert ProcOk(s', p);
    if !CodeEnabled(s', p) {
      var c := s'.procs[p].pc;
      var q := if c.Dozing? then p else c.r.j;
      assert OwnLockOk(s', q);
      var w: nat := s'.procs[q].lock;
      assert ProcOk(s', w);
      assert CodeEnabled(s', w);
    }
  }

  // -------- What can happen --------

  lemma RunCons(s: State, t: Step, ts: seq<Step>, s': State)
    requires Enabled(s, t) && Run(Do(s, t), ts, s')
    ensures Run(s, [t] + ts, s')
  {
    assert ([t] + ts)[1..] == ts;
  }

  lemma {:induction false} RunJoin(s: State, ts: seq<Step>, m: State, us: seq<Step>, s': State)
    requires Run(s, ts, m) && Run(m, us, s')
    ensures Run(s, ts + us, s')
    decreases |ts|
  {
    if ts == [] {
      assert ts + us == us;
    } else {
      assert (ts + us)[1..] == ts[1..] + us;
      RunJoin(Do(s, ts[0]), ts[1..], m, us, s');
    }
  }

  /** A process that wants a free lock gets it, by its own steps alone. */
  lemma GetsFree(s: State, p: nat, l: nat) returns (ts: seq<Step>, s': State)
    requires p < |s.procs| && l < |s.locks| && s.procs[p].pc == Acquiring(l, Want) && s.procs[p].st == Running
    requires s.locks[l].lk == NONE && !s.locks[l].locked
    ensures Run(s, ts, s') && forall t :: t in ts ==> t == Code(p)
    ensures s'.procs == s.procs[p := s.procs[p].(pc := Idle)]
    ensures s'.locks == s.locks[l := Lock(NONE, true, p, s.locks[l].held + {p})]
  {
    var c := Code(p);
    var s1 := Do(s, c);
    var s2 := Do(s1, c);
    var s3 := Do(s2, c);
    var s4 := Do(s3, c);
    s' := Do(s4, c);
    RunCons(s4, c, [], s');
    RunCons(s3, c, [c], s');
    RunCons(s2, c, [c] + [c], s');
    RunCons(s1, c, [c] + ([c] + [c]), s');
    ts := [c] + ([c] + ([c] + ([c] + [c])));
    RunCons(s, c, [c] + ([c] + ([c] + [c])), s');
  }

  /** A process that wants a lock that is held goes to sleep on it. */
  lemma FallsAsleep(s: State, p: nat, l: nat) returns (ts: seq<Step>, s': State)
    requires p < |s.procs| && l < |s.locks| && s.procs[p] == Proc(Acquiring(l, Want), Running, s.procs[p].chan, NONE)
    requires s.locks[l].lk == NONE && s.locks[l].locked
    ensures Run(s, ts, s') && forall t :: t in ts ==> t == Code(p)
    ensures s' == State(s.procs[p := Proc(Dozing(l, Off), Sleeping, l, NONE)], s.locks)
  {
    var c := Code(p);
    var s1 := Do(s, c);
    var s2 := Do(s1, c);
    var s3 := Do(s2, c);
    var us;
    us, s' := Switches(s3, p, l);
    ts := [c] + ([c] + ([c] + us));
    RunCons(s2, c, us, s');
    RunCons(s1, c, [c] + us, s');
    RunCons(s, c, [c] + ([c] + us), s');
    assert s'.locks == s.locks;
  }

  /** `sleep`, from where it has the process's own lock. */
  lemma Switches(s: State, p: nat, l: nat) returns (ts: seq<Step>, s': State)
    requires p < |s.procs| && l < |s.locks| && s.procs[p] == Proc(Dozing(l, DropLk), Running, s.procs[p].chan, p)
    ensures Run(s, ts, s') && forall t :: t in ts ==> t == Code(p)
    ensures s' == State(s.procs[p := Proc(Dozing(l, Off), Sleeping, l, NONE)], s.locks[l := s.locks[l].(lk := NONE)])
  {
    var c := Code(p);
    var s1 := Do(s, c);
    var s2 := Do(s1, c);
    var s3 := Do(s2, c);
    s' := Do(s3, c);
    RunCons(s3, c, [], s');
    RunCons(s2, c, [c], s');
    RunCons(s1, c, [c] + [c], s');
    ts := [c] + ([c] + ([c] + [c]));
    RunCons(s, c, [c] + ([c] + [c]), s');
  }

  /** A process that has been woken goes back to wanting the lock. */
  lemma WakesUp(s: State, p: nat, l: nat) returns (ts: seq<Step>, s': State)
    requires p < |s.procs| && l < |s.locks| && s.procs[p] == Proc(Dozing(l, Off), Runnable, s.procs[p].chan, NONE)
    ensures Run(s, ts, s') && forall t :: t in ts ==> t == Code(p)
    ensures s' == s.(procs := s.procs[p := Proc(Acquiring(l, Want), Running, NONE, NONE)])
  {
    var c := Code(p);
    var s1 := Do(s, c);
    var s2 := Do(s1, c);
    s' := Do(s2, c);
    RunCons(s2, c, [], s');
    RunCons(s1, c, [c], s');
    ts := [c] + ([c] + [c]);
    RunCons(s, c, [c] + [c], s');
  }

  /** No process's own lock is held. */
  ghost predicate Calm(s: State) {
    forall q :: 0 <= q < |s.procs| ==> s.procs[q].lock == NONE
  }

  /** `procs` after `q` has woken those from `j` on that sleep on `l`, and returned. */
  ghost predicate Woken(a: seq<Proc>, b: seq<Proc>, q: nat, l: nat, j: nat) {
    && |b| == |a|
    && forall i :: 0 <= i < |a| ==>
         b[i] == if i == q then a[i].(pc := Idle)
                 else if i >= j && a[i].chan == l && a[i].st == Sleeping then a[i].(st := Runnable) else a[i]
  }

  /** `wakeup` from process `j` on, and the end of releasesleep. */
  lemma {:induction false} WakesRest(s: State, q: nat, l: nat, j: nat) returns (ts: seq<Step>, s': State)
    requires q < |s.procs| && l < |s.locks| && s.procs[q].pc == Releasing(l, Reach(j)) && Calm(s) && j <= |s.procs|
    ensures Run(s, ts, s') && forall t :: t in ts ==> t == Code(q)
    ensures Woken(s.procs, s'.procs, q, l, j) && s'.locks == s.locks[l := s.locks[l].(lk := NONE)]
    decreases |s.procs| - j
  {
    var c := Code(q);
    var s1 := Do(s, c);
    var us;
    if j >= |s.procs| {
      ts, s' := [c] + [], s1;
      RunCons(s, c, [], s');
    } else if j == q {
      us, s' := WakesRest(s1, q, l, j + 1);
      ts := [c] + us;
      RunCons(s, c, us, s');
    } else {
      var s2 := Do(s1, c);
      us, s' := WakesRest(s2, q, l, j + 1);
      ts := [c] + ([c] + us);
      RunCons(s1, c, us, s');
      RunCons(s, c, [c] + us, s');
    }
  }

  /** Whoever holds a lock can give it back and wake everyone who sleeps on it. */
  lemma LetsGo(s: State, q: nat, l: nat) returns (ts: seq<Step>, s': State)
    requires q < |s.procs| && l < |s.locks| && s.procs[q].pc == Idle && s.procs[q].st == Running && Calm(s)
    requires q in s.locks[l].held && s.locks[l].lk == NONE
    ensures Run(s, ts, s') && Woken(s.procs, s'.procs, q, l, 0)
    ensures s'.locks == s.locks[l := Lock(NONE, false, NONE, s.locks[l].held - {q})]
  {
    var c, t := Code(q), Release(q, l);
    var s1 := Do(s, t);
    var s2 := Do(s1, c);
    var s3 := Do(s2, c);
    var s4 := Do(s3, c);
    var us;
    us, s' := WakesRest(s4, q, l, 0);
    RunCons(s3, c, us, s');
    RunCons(s2, c, [c] + us, s');
    RunCons(s1, c, [c] + ([c] + us), s');
    ts := [t] + ([c] + ([c] + ([c] + us)));
    RunCons(s, t, [c] + ([c] + ([c] + us)), s');
    assert s'.locks[l] == Lock(NONE, false, NONE, s.locks[l].held - {q});
  }

  /** A process that sleeps on a lock can be woken by the release and get the lock. */
  lemma HandedOver(s: State, p: nat, q: nat, l: nat) returns (ts: seq<Step>, s': State)
    requires p < |s.procs| && q < |s.procs| && p != q && l < |s.locks| && Calm(s)
    requires s.procs[p] == Proc(Dozing(l, Off), Sleeping, l, NONE) && s.procs[q] == Proc(Idle, Running, NONE, NONE)
    requires s.locks[l] == Lock(NONE, true, q, {q})
    ensures Run(s, ts, s')
    ensures s'.locks == s.locks[l := Lock(NONE, true, p, {p})]
    ensures |s'.procs| == |s.procs| && s'.procs[p] == s'.procs[q] == Proc(Idle, Running, NONE, NONE)
  {
    var t1, s1 := LetsGo(s, q, l);
    assert s1.procs[p] == s.procs[p].(st := Runnable) && s1.procs[q] == s.procs[q];
    var t2, s2 := WakesUp(s1, p, l);
    var t3;
    t3, s' := GetsFree(s2, p, l);
    assert {q} - {q} + {p} == {p};
    RunJoin(s1, t2, s2, t3, s');
    ts := t1 + (t2 + t3);
    RunJoin(s, t1, s1, t2 + t3, s');
  }

  /** A lock can be passed on: a process that asks for a lock that another holds can sleep, be woken by the
      other's release, and get it. */
  lemma PassedOn(s: State, p: nat, q: nat, l: nat) returns (ts: seq<Step>, s': State)
    requires p < |s.procs| && q < |s.procs| && p != q && l < |s.locks| && Calm(s)
    requires s.procs[p] == Proc(Idle, Running, NONE, NONE) && s.procs[q] == Proc(Idle, Running, NONE, NONE)
    requires s.locks[l] == Lock(NONE, true, q, {q})
    ensures Run(s, ts, s') && ts != [] && ts[0] == Acquire(p, l)
    ensures s'.locks == s.locks[l := Lock(NONE, true, p, {p})]
    ensures |s'.procs| == |s.procs| && s'.procs[p] == s.procs[p] && s'.procs[q] == s.procs[q]
  {
    var s1 := Do(s, Acquire(p, l));
    var t2, s2 := FallsAsleep(s1, p, l);
    var t3;
    t3, s' := HandedOver(s2, p, q, l);
    RunJoin(s1, t2, s2, t3, s');
    ts := [Acquire(p, l)] + (t2 + t3);
    RunCons(s, Acquire(p, l), t2 + t3, s');
  }

  /** kkill from process `j` on. */
  lemma {:induction false} KillsFrom(s: State, k: nat, v: nat, j: nat) returns (ts: seq<Step>, s': State)
    requires k < |s.procs| && v < |s.procs| && k != v && j <= v && Calm(s)
    requires s.procs[k].pc == Killing(v, j, false) && s.procs[k].st == Running
    ensures Run(s, ts, s') && s'.locks == s.locks
    ensures s'.procs == s.procs[k := s.procs[k].(pc := Idle)]
                               [v := s.procs[v].(st := if s.procs[v].st == Sleeping then Runnable else s.procs[v].st)]
    decreases v - j
  {
    var c := Code(k);
    var s1 := Do(s, c);
    var s2 := Do(s1, c);
    if j == v {
      ts, s' := [c] + [c], s2;
      RunCons(s1, c, [], s');
      RunCons(s, c, [c], s');
    } else {
      var us;
      us, s' := KillsFrom(s2, k, v, j + 1);
      ts := [c] + ([c] + us);
      RunCons(s1, c, us, s');
      RunCons(s, c, [c] + us, s');
    }
  }

  /** Killing a process that sleeps on a lock does not give it the lock or make it give up: it wakes, finds
      the lock held, and sleeps again, and all is as before. */
  lemma KilledSleepsAgain(s: State, k: nat, p: nat, l: nat) returns (ts: seq<Step>)
    requires k < |s.procs| && p < |s.procs| && k != p && l < |s.locks| && Calm(s)
    requires s.procs[k].pc == Idle && s.procs[k].st == Running
    requires s.procs[p] == Proc(Dozing(l, Off), Sleeping, l, NONE) && s.locks[l].lk == NONE && s.locks[l].locked
    ensures Run(s, ts, s) && Kill(k, p) in ts
  {
    var s1 := Do(s, Kill(k, p));
    var t2, s2 := KillsFrom(s1, k, p, 0);
    var t3, s3 := WakesUp(s2, p, l);
    var t4, s4 := FallsAsleep(s3, p, l);
    assert s4 == s;
    RunJoin(s2, t3, s3, t4, s4);
    RunJoin(s1, t2, s2, t3 + t4, s4);
    ts := [Kill(k, p)] + (t2 + (t3 + t4));
    RunCons(s, Kill(k, p), t2 + (t3 + t4), s4);
  }

  /** A timer interrupt takes the CPU from a process and the scheduler gives it back, and all is as before. */
  lemma Paused(s: State, p: nat)
    requires p < |s.procs| && s.procs[p].pc == Idle && s.procs[p].st == Running && s.procs[p].lock == NONE
    ensures Run(s, [Preempt(p)] + [Dispatch(p)], s)
  {
    var s1 := Do(s, Preempt(p));
    assert Do(s1, Dispatch(p)) == s;
    RunCons(s1, Dispatch(p), [], s);
    RunCons(s, Preempt(p), [Dispatch(p)], s);
  }
}
