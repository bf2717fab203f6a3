/** The log and the buffer cache under concurrency: every `bget`, `acquiresleep`,
    disk read, update, `log_write`, `brelse`, `begin_op`, `end_op`, and every
    single block write of commit and recovery is a step, a crash may come
    between any two steps, and processes interleave freely. */
module LogProtocol {
  import opened Disks
  import opened Counting

  type Pid = nat

  /** Who counts in a buffer's `refcnt`. */
  datatype Ref = Proc(p: Pid) | Pin

  datatype Holder = Nobody | Held(p: Pid)

  /** `changed`: modified by its holder and not yet handed to `log_write`. */
  datatype CBuf = CBuf(valid: bool, data: Block, refs: set<Ref>, holder: Holder, changed: bool)

  /** Where the committing process, or recovery, is. */
  datatype Phase = Idle | Copying(i: nat) | Installing(i: nat) | Recovering(i: nat)

  datatype State = State(
    disk: seq<Block>,
    header: seq<nat>,
    copies: seq<Block>,
    cache: map<nat, CBuf>,
    lh: seq<nat>,
    ops: map<Pid, set<nat>>,
    phase: Phase,
    /** What a reader must see, and what must survive a crash now. */
    last: seq<Block>,
    durable: seq<Block>)

  /** LOGBLOCKS and MAXOPBLOCKS. */
  datatype Config = Config(logBlocks: nat, maxOp: nat)

  datatype Step =
    | Begin(p: Pid)
    | RefHit(p: Pid, b: nat)
    | RefMiss(p: Pid, b: nat, victims: set<nat>)
    | Lock(p: Pid, b: nat)
    | Fill(p: Pid, b: nat)
    | Modify(p: Pid, b: nat, v: Block)
    | LogWrite(p: Pid, b: nat)
    | Release(p: Pid, b: nat)
    | End(p: Pid)
    | CopyToLog
    | WriteHeader
    | Install
    | Clear
    | Crash
    | RecoverOne
    | RecoverDone

  predicate Running(s: State) {
    !s.phase.Recovering?
  }

  predicate Holds(s: State, p: Pid, b: nat) {
    b in s.cache && s.cache[b].holder == Held(p)
  }

  /** The blocks a committed but not yet erased transaction still has to install. */
  function Remaining(s: State): seq<nat> {
    if s.phase.Installing? && s.phase.i <= |s.lh| then s.lh[s.phase.i..] else s.lh
  }

  /** A client calls `log_write` as it should: on a buffer it holds, inside an
      operation that keeps to its budget of distinct blocks. */
  ghost predicate WantsLog(c: Config, s: State, p: Pid, b: nat) {
    Running(s) && Holds(s, p, b) && s.cache[b].valid && p in s.ops && |s.ops[p] + {b}| <= c.maxOp
  }

  /** When a step may happen. */
  ghost predicate Enabled(c: Config, s: State, st: Step) {
    match st
    case Begin(p) =>
      s.phase == Idle && p !in s.ops && |s.lh| + (|s.ops| + 1) * c.maxOp <= c.logBlocks
    case RefHit(p, b) =>
      Running(s) && b in s.cache && Proc(p) !in s.cache[b].refs
    case RefMiss(p, b, victims) =>
      && Running(s) && b !in s.cache && b < |s.disk|
      && victims <= s.cache.Keys && (forall v :: v in victims ==> s.cache[v].refs == {})
    case Lock(p, b) =>
      Running(s) && b in s.cache && Proc(p) in s.cache[b].refs && s.cache[b].holder == Nobody
    case Fill(p, b) =>
      Running(s) && Holds(s, p, b) && !s.cache[b].valid
    case Modify(p, b, v) =>
      Running(s) && Holds(s, p, b) && s.cache[b].valid && p in s.ops
    case LogWrite(p, b) =>
      // the panic for a full log comes before absorption
      WantsLog(c, s, p, b) && |s.lh| < c.logBlocks
    case Release(p, b) =>
      // a client hands every change to log_write before letting go
      Running(s) && Holds(s, p, b) && !s.cache[b].changed
    case End(p) =>
      s.phase == Idle && p in s.ops && (forall b :: Holds(s, p, b) ==> !s.cache[b].changed)
    case CopyToLog =>
      && s.phase.Copying? && s.phase.i < |s.lh|
      && s.lh[s.phase.i] in s.cache && s.cache[s.lh[s.phase.i]].holder == Nobody
    case WriteHeader =>
      s.phase == Copying(|s.lh|)
    case Install =>
      && s.phase.Installing? && s.phase.i < |s.lh| == |s.copies|
      && s.lh[s.phase.i] in s.cache && s.cache[s.lh[s.phase.i]].holder == Nobody
    case Clear =>
      s.phase == Installing(|s.lh|)
    case Crash => true
    case RecoverOne =>
      s.phase.Recovering? && s.phase.i < |s.header| <= |s.copies|
    case RecoverDone =>
      s.phase == Recovering(|s.header|)
  }

  function With(s: State, b: nat, x: CBuf): State {
    s.(cache := s.cache[b := x])
  }

  function Put(d: seq<Block>, b: nat, v: Block): seq<Block> {
    if b < |d| then d[b := v] else d
  }

  function Recycled(s: State, p: Pid, b: nat, victims: set<nat>): State {
    s.(cache := (s.cache - victims)[b := CBuf(false, [], {Proc(p)}, Nobody, false)])
  }

  /** Absorb the block, or append and pin it. */
  function Logged(s: State, p: Pid, b: nat): State
    requires Holds(s, p, b) && p in s.ops
  {
    if b in s.lh then
      With(s, b, s.cache[b].(changed := false)).(ops := s.ops[p := s.ops[p] + {b}])
    else
      With(s, b, s.cache[b].(changed := false, refs := s.cache[b].refs + {Pin}))
        .(ops := s.ops[p := s.ops[p] + {b}], lh := s.lh + [b])
  }

  /** Copy one block from the log to its home and drop its pin. */
  function Installed(s: State): State
    requires s.phase.Installing? && s.phase.i < |s.lh| == |s.copies| && s.lh[s.phase.i] in s.cache
  {
    var b := s.lh[s.phase.i];
    With(s, b, s.cache[b].(data := s.copies[s.phase.i], refs := s.cache[b].refs - {Pin}))
      .(disk := Put(s.disk, b, s.copies[s.phase.i]), phase := Installing(s.phase.i + 1))
  }

  /** What a step does. */
  ghost function Do(c: Config, s: State, st: Step): State
    requires Enabled(c, s, st)
  {
    match st
    case Begin(p) => s.(ops := s.ops[p := {}])
    case RefHit(p, b) => With(s, b, s.cache[b].(refs := s.cache[b].refs + {Proc(p)}))
    case RefMiss(p, b, victims) =>
      Recycled(s, p, b, victims)
    case Lock(p, b) => With(s, b, s.cache[b].(holder := Held(p)))
    case Fill(p, b) => With(s, b, s.cache[b].(valid := true, data := if b < |s.disk| then s.disk[b] else []))
    case Modify(p, b, v) => With(s, b, s.cache[b].(data := v, changed := true)).(last := Put(s.last, b, v))
    case LogWrite(p, b) => Logged(s, p, b)
    case Release(p, b) => With(s, b, s.cache[b].(holder := Nobody, refs := s.cache[b].refs - {Proc(p)}))
    case End(p) =>
      var ops := s.ops - {p};
      s.(ops := ops, phase := if ops != map[] then Idle else Copying(0),
         copies := if ops != map[] then s.copies else [])
    case CopyToLog => s.(copies := s.copies + [s.cache[s.lh[s.phase.i]].data], phase := Copying(s.phase.i + 1))
    case WriteHeader =>
      if s.lh == [] then s.(phase := Idle)
      else s.(header := s.lh, phase := Installing(0), durable := s.last)
    case Install => Installed(s)
    case Clear => s.(header := [], lh := [], phase := Idle)
    case Crash => s.(cache := map[], lh := [], ops := map[], phase := Recovering(0), last := s.durable)
    case RecoverOne =>
      s.(disk := Put(s.disk, s.header[s.phase.i], s.copies[s.phase.i]), phase := Recovering(s.phase.i + 1))
    case RecoverDone => s.(header := [], phase := Idle)
  }

  // -------- The invariant --------

  /** Log space still promised to the operations in progress. */
  ghost function Reserved(c: Config, ops: map<Pid, set<nat>>): int
    decreases |ops|
  {
    if ops == map[] then 0 else
      var p :| p in ops;
      c.maxOp - |ops[p]| + Reserved(c, ops - {p})
  }

  lemma {:induction false} ReservedWithout(c: Config, ops: map<Pid, set<nat>>, p: Pid)
    requires p in ops
    ensures Reserved(c, ops) == c.maxOp - |ops[p]| + Reserved(c, ops - {p})
    decreases |ops|
  {
    var q :| q in ops && Reserved(c, ops) == c.maxOp - |ops[q]| + Reserved(c, ops - {q});
    if q != p {
      ReservedWithout(c, ops - {q}, p);
      ReservedWithout(c, ops - {p}, q);
      assert ops - {q} - {p} == ops - {p} - {q};
    }
  }

  lemma Distribute(n: nat, k: nat)
    ensures (n + 1) * k == n * k + k
  {
  }

  lemma {:induction false} ReservedBounds(c: Config, ops: map<Pid, set<nat>>)
    requires forall p :: p in ops ==> |ops[p]| <= c.maxOp
    ensures 0 <= Reserved(c, ops) <= |ops| * c.maxOp
    decreases |ops|
  {
    if ops != map[] {
      var p :| p in ops;
      ReservedWithout(c, ops, p);
      var rest := ops - {p};
      ReservedBounds(c, rest);
      assert ops.Keys == rest.Keys + {p};
      Distribute(|rest|, c.maxOp);
    }
  }

  ghost predicate Sizes(s: State) {
    && |s.last| == |s.durable| == |s.disk|
    && (forall b :: b in s.cache ==> b < |s.disk|)
    && (forall i :: 0 <= i < |s.lh| ==> s.lh[i] < |s.disk|)
    && (forall i :: 0 <= i < |s.header| ==> s.header[i] < |s.disk|)
  }

  /** References, locks and pins. */
  ghost predicate Discipline(s: State) {
    && (forall b :: b in s.cache && s.cache[b].holder.Held? ==> Proc(s.cache[b].holder.p) in s.cache[b].refs)
    && (forall b :: b in s.cache && s.cache[b].changed ==>
          s.cache[b].valid && s.cache[b].holder.Held? && s.cache[b].holder.p in s.ops)
    && (forall b :: b in Remaining(s) ==> b in s.cache && s.cache[b].valid && Pin in s.cache[b].refs)
  }

  /** A block whose newest contents are only in the cache. */
  ghost predicate Dirty(s: State, b: nat) {
    b in Remaining(s) || (b in s.cache && s.cache[b].changed)
  }

  /** The cache holds the newest contents; for a block that is not dirty so does the disk. */
  ghost predicate Transparent(s: State) {
    && (forall b :: b in s.cache && s.cache[b].valid && b < |s.last| ==> s.cache[b].data == s.last[b])
    && (forall b: nat :: b < |s.disk| == |s.last| && !Dirty(s, b) ==> s.disk[b] == s.last[b])
  }

  /** Installing what the header names gives the durable contents. */
  ghost predicate CrashSafe(s: State) {
    && Distinct(s.header) && |s.header| <= |s.copies|
    && (forall i :: 0 <= i < |s.header| && s.header[i] < |s.durable| ==> s.durable[s.header[i]] == s.copies[i])
    && (forall b: nat :: b < |s.disk| == |s.durable| && b !in s.header ==> s.disk[b] == s.durable[b])
  }

  ghost predicate Phased(s: State) {
    match s.phase
    case Idle => s.header == []
    case Copying(i) =>
      && s.header == [] && s.ops == map[] && i <= |s.lh| && |s.copies| == i
      && (forall j :: 0 <= j < i && s.lh[j] < |s.last| ==> s.copies[j] == s.last[s.lh[j]])
    case Installing(i) =>
      && s.header == s.lh && s.ops == map[] && i <= |s.lh| == |s.copies| && s.durable == s.last
    case Recovering(i) =>
      && s.lh == [] && s.cache == map[] && s.ops == map[] && i <= |s.header| <= |s.copies| && s.last == s.durable
      && (forall j :: 0 <= j < i && s.header[j] < |s.disk| ==> s.disk[s.header[j]] == s.copies[j])
  }

  ghost predicate Space(c: Config, s: State) {
    && Distinct(s.lh)
    && |s.lh| + Reserved(c, s.ops) <= c.logBlocks
    && (forall p :: p in s.ops ==> |s.ops[p]| <= c.maxOp)
    && (forall p, b :: p in s.ops && b in s.ops[p] ==> b in s.lh)
  }

  ghost predicate Inv(c: Config, s: State) {
    && Sizes(s) && Discipline(s) && CrashSafe(s) && Phased(s) && Space(c, s)
    && (Running(s) ==> Transparent(s))
  }

  ghost predicate Init(s: State) {
    && s.header == [] && s.cache == map[] && s.lh == [] && s.ops == map[] && s.phase == Idle
    && s.last == s.durable == s.disk
  }

  // -------- Every step keeps the invariant --------

  /** `x` may stand for buffer `b`: it is no newer and no dirtier. */
  ghost predicate Replaces(s: State, b: nat, x: CBuf) {
    && b in s.cache
    && (x.holder.Held? ==> Proc(x.holder.p) in x.refs)
    && x.changed == s.cache[b].changed && (x.changed ==> x.holder == s.cache[b].holder)
    && (s.cache[b].valid ==> x.valid)
    && (Pin in s.cache[b].refs ==> Pin in x.refs)
    && (x.valid && b < |s.last| ==> x.data == s.last[b])
  }

  lemma BufferDiscipline(s: State, b: nat, x: CBuf)
    requires Discipline(s) && Replaces(s, b, x)
    ensures Discipline(With(s, b, x))
  {
    assert Remaining(With(s, b, x)) == Remaining(s);
  }

  lemma BufferTransparent(s: State, b: nat, x: CBuf)
    requires Transparent(s) && Replaces(s, b, x)
    ensures Transparent(With(s, b, x))
  {
    assert forall a :: Dirty(With(s, b, x), a) <==> Dirty(s, a);
  }

  /** A step that touches one buffer, without making it newer or dirtier. */
  lemma BufferStep(c: Config, s: State, b: nat, x: CBuf)
    requires Inv(c, s) && Running(s) && Replaces(s, b, x)
    ensures Inv(c, With(s, b, x))
  {
    BufferDiscipline(s, b, x);
    BufferTransparent(s, b, x);
    var t := With(s, b, x);
    assert Sizes(t) && CrashSafe(t) && Phased(t) && Space(c, t);
  }

  /** No eviction loses a write: what `bget` recycles is never the only newest copy. */
  lemma EvictsClean(c: Config, s: State, p: Pid, b: nat, victims: set<nat>)
    requires Inv(c, s) && Enabled(c, s, RefMiss(p, b, victims))
    ensures forall v :: v in victims ==> v < |s.disk| && !Dirty(s, v) && s.disk[v] == s.last[v]
  {
  }

  lemma MissTransparent(s: State, p: Pid, b: nat, victims: set<nat>)
    requires Transparent(s) && b !in s.cache && forall v :: v in victims ==> !Dirty(s, v)
    ensures Transparent(Recycled(s, p, b, victims))
  {
    var t := Recycled(s, p, b, victims);
    assert forall a :: Dirty(t, a) <==> Dirty(s, a);
  }

  lemma MissDiscipline(s: State, p: Pid, b: nat, victims: set<nat>)
    requires Discipline(s) && b !in s.cache && forall v :: v in victims ==> !Dirty(s, v)
    ensures Discipline(Recycled(s, p, b, victims))
  {
    assert Remaining(Recycled(s, p, b, victims)) == Remaining(s);
  }

  lemma MissStep(c: Config, s: State, p: Pid, b: nat, victims: set<nat>)
    requires Inv(c, s) && Enabled(c, s, RefMiss(p, b, victims))
    ensures Inv(c, Recycled(s, p, b, victims))
  {
    EvictsClean(c, s, p, b, victims);
    MissTransparent(s, p, b, victims);
    MissDiscipline(s, p, b, victims);
    var t := Recycled(s, p, b, victims);
    assert Sizes(t) && CrashSafe(t) && Phased(t) && Space(c, t);
  }

  lemma ModifyStep(c: Config, s: State, p: Pid, b: nat, v: Block)
    requires Inv(c, s) && Enabled(c, s, Modify(p, b, v))
    ensures Inv(c, Do(c, s, Modify(p, b, v)))
  {
    var t := Do(c, s, Modify(p, b, v));
    assert Sizes(t) && CrashSafe(t) && Phased(t) && Space(c, t);
    assert Remaining(t) == Remaining(s);
    assert Discipline(t);
    assert forall a :: Dirty(t, a) <==> Dirty(s, a) || a == b;
  }

  lemma BeginSpace(c: Config, ops: map<Pid, set<nat>>, n: nat, p: Pid)
    requires forall q :: q in ops ==> |ops[q]| <= c.maxOp
    requires p !in ops && n + (|ops| + 1) * c.maxOp <= c.logBlocks
    ensures n + Reserved(c, ops[p := {}]) <= c.logBlocks
  {
    ReservedBounds(c, ops);
    ReservedWithout(c, ops[p := {}], p);
    assert ops[p := {}] - {p} == ops;
    Distribute(|ops|, c.maxOp);
  }

  lemma BeginStep(c: Config, s: State, p: Pid)
    requires Inv(c, s) && Enabled(c, s, Begin(p))
    ensures Inv(c, Do(c, s, Begin(p)))
  {
    BeginSpace(c, s.ops, |s.lh|, p);
    var t := Do(c, s, Begin(p));
    assert Discipline(t);
  }

  /** New blocks take a place that was reserved for the operation. */
  lemma LogSpace(c: Config, s: State, p: Pid, b: nat)
    requires Inv(c, s) && WantsLog(c, s, p, b)
    ensures b !in s.lh ==> |s.lh| < c.logBlocks
    ensures var ops := s.ops[p := s.ops[p] + {b}];
            |s.lh| + (if b in s.lh then 0 else 1) + Reserved(c, ops) <= c.logBlocks
  {
    var ops := s.ops[p := s.ops[p] + {b}];
    ReservedWithout(c, s.ops, p);
    ReservedWithout(c, ops, p);
    ReservedBounds(c, s.ops - {p});
    assert ops - {p} == s.ops - {p};
    if b !in s.lh {
      assert b !in s.ops[p];
    } else {
      SubsetSize(s.ops[p], s.ops[p] + {b});
    }
  }

  lemma LoggedSpace(c: Config, s: State, p: Pid, b: nat)
    requires Inv(c, s) && WantsLog(c, s, p, b)
    ensures Space(c, Logged(s, p, b))
  {
    LogSpace(c, s, p, b);
  }

  lemma LoggedTransparent(c: Config, s: State, p: Pid, b: nat)
    requires Inv(c, s) && WantsLog(c, s, p, b)
    ensures Transparent(Logged(s, p, b))
  {
  }

  lemma LoggedDiscipline(c: Config, s: State, p: Pid, b: nat)
    requires Inv(c, s) && WantsLog(c, s, p, b)
    ensures Discipline(Logged(s, p, b))
  {
    assert s.phase == Idle;
    var t := Logged(s, p, b);
    assert forall a :: a in Remaining(t) <==> a in Remaining(s) || a == b;
  }

  lemma LoggedPhase(c: Config, s: State, p: Pid, b: nat)
    requires Inv(c, s) && WantsLog(c, s, p, b)
    ensures Sizes(Logged(s, p, b)) && CrashSafe(Logged(s, p, b)) && Phased(Logged(s, p, b))
  {
    assert s.phase == Idle;
  }

  lemma LogWriteStep(c: Config, s: State, p: Pid, b: nat)
    requires Inv(c, s) && WantsLog(c, s, p, b)
    ensures Inv(c, Logged(s, p, b))
  {
    LoggedSpace(c, s, p, b);
    LoggedDiscipline(c, s, p, b);
    LoggedTransparent(c, s, p, b);
    LoggedPhase(c, s, p, b);
  }

  lemma EndDiscipline(c: Config, s: State, p: Pid)
    requires Discipline(s) && Transparent(s) && Enabled(c, s, End(p))
    ensures Discipline(Do(c, s, End(p))) && Transparent(Do(c, s, End(p)))
  {
    assert Remaining(Do(c, s, End(p))) == Remaining(s);
    assert forall b :: b in s.cache && s.cache[b].holder == Held(p) ==> Holds(s, p, b);
  }

  lemma EndStep(c: Config, s: State, p: Pid)
    requires Inv(c, s) && Enabled(c, s, End(p))
    ensures Inv(c, Do(c, s, End(p)))
  {
    EndDiscipline(c, s, p);
    ReservedWithout(c, s.ops, p);
    var t := Do(c, s, End(p));
    assert Sizes(t) && CrashSafe(t) && Phased(t) && Space(c, t);
  }

  lemma CopyStep(c: Config, s: State)
    requires Inv(c, s) && Enabled(c, s, CopyToLog)
    ensures Inv(c, Do(c, s, CopyToLog))
  {
    var t := Do(c, s, CopyToLog);
    assert Remaining(t) == Remaining(s);
    assert Sizes(t) && Discipline(t) && CrashSafe(t) && Space(c, t) && Transparent(t);
  }

  /** The commit point: nothing changes but what a crash would restore. */
  lemma HeaderStep(c: Config, s: State)
    requires Inv(c, s) && Enabled(c, s, WriteHeader)
    ensures Inv(c, Do(c, s, WriteHeader))
  {
  }

  lemma InstallShrinks(s: State)
    requires s.phase.Installing? && s.phase.i < |s.lh| && Distinct(s.lh)
    ensures forall b :: b in s.lh[s.phase.i..] <==> b == s.lh[s.phase.i] || b in s.lh[s.phase.i + 1..]
    ensures s.lh[s.phase.i] !in s.lh[s.phase.i + 1..]
  {
  }

  lemma InstallTransparent(c: Config, s: State)
    requires Transparent(s) && Enabled(c, s, Install) && Distinct(s.lh) && s.lh[s.phase.i] < |s.disk| == |s.last|
    requires s.copies[s.phase.i] == s.last[s.lh[s.phase.i]]
    ensures Transparent(Installed(s))
  {
    InstallShrinks(s);
    var t, b := Installed(s), s.lh[s.phase.i];
    assert forall a :: Dirty(s, a) ==> Dirty(t, a) || a == b;
  }

  lemma InstallDiscipline(c: Config, s: State)
    requires Inv(c, s) && Enabled(c, s, Install)
    ensures Discipline(Installed(s))
  {
    InstallShrinks(s);
  }

  lemma InstallSafe(c: Config, s: State)
    requires Sizes(s) && CrashSafe(s) && Phased(s) && Space(c, s) && Enabled(c, s, Install)
    ensures Sizes(Installed(s)) && CrashSafe(Installed(s)) && Phased(Installed(s)) && Space(c, Installed(s))
  {
    assert s.header[s.phase.i] == s.lh[s.phase.i];
  }

  lemma InstallStep(c: Config, s: State)
    requires Inv(c, s) && Enabled(c, s, Install)
    ensures Inv(c, Installed(s))
  {
    assert s.header[s.phase.i] == s.lh[s.phase.i];
    InstallTransparent(c, s);
    InstallDiscipline(c, s);
    InstallSafe(c, s);
  }

  lemma ClearStep(c: Config, s: State)
    requires Inv(c, s) && Enabled(c, s, Clear)
    ensures Inv(c, Do(c, s, Clear))
  {
  }

  lemma CrashStep(c: Config, s: State)
    requires Inv(c, s)
    ensures Inv(c, Do(c, s, Crash))
  {
  }

  lemma RecoverPhase(c: Config, s: State)
    requires Phased(s) && Distinct(s.header) && Enabled(c, s, RecoverOne)
    ensures Phased(Do(c, s, RecoverOne))
  {
    var t, b := Do(c, s, RecoverOne), s.header[s.phase.i];
    assert forall a: nat :: a < |s.disk| && a != b ==> t.disk[a] == s.disk[a];
  }

  lemma RecoverStep(c: Config, s: State)
    requires Inv(c, s) && Enabled(c, s, RecoverOne)
    ensures Inv(c, Do(c, s, RecoverOne))
  {
    RecoverPhase(c, s);
    var t := Do(c, s, RecoverOne);
    assert Sizes(t) && Discipline(t) && CrashSafe(t) && Space(c, t);
  }

  /** Recovery that has installed everything has restored the durable contents. */
  lemma RecoveredIsDurable(c: Config, s: State)
    requires Inv(c, s) && Enabled(c, s, RecoverDone)
    ensures s.disk == s.durable == s.last
  {
  }

  lemma RecoverDoneStep(c: Config, s: State)
    requires Inv(c, s) && Enabled(c, s, RecoverDone)
    ensures Inv(c, Do(c, s, RecoverDone))
  {
  }

  lemma HoldingStep(c: Config, s: State, st: Step)
    requires Inv(c, s) && Enabled(c, s, st) && (st.RefHit? || st.Lock? || st.Fill? || st.Release?)
    ensures Inv(c, Do(c, s, st))
  {
    match st {
      case RefHit(p, b) => BufferStep(c, s, b, s.cache[b].(refs := s.cache[b].refs + {Proc(p)}));
      case Lock(p, b) => BufferStep(c, s, b, s.cache[b].(holder := Held(p)));
      case Fill(p, b) => BufferStep(c, s, b, s.cache[b].(valid := true, data := s.disk[b]));
      case Release(p, b) => BufferStep(c, s, b, s.cache[b].(holder := Nobody, refs := s.cache[b].refs - {Proc(p)}));
    }
  }

  ghost predicate OnDisk(st: Step) {
    st.CopyToLog? || st.WriteHeader? || st.Install? || st.Clear? || st.Crash? || st.RecoverOne? || st.RecoverDone?
  }

  lemma DiskStep(c: Config, s: State, st: Step)
    requires Inv(c, s) && Enabled(c, s, st) && OnDisk(st)
    ensures Inv(c, Do(c, s, st))
  {
    match st {
      case CopyToLog => CopyStep(c, s);
      case WriteHeader => HeaderStep(c, s);
      case Install => InstallStep(c, s);
      case Clear => ClearStep(c, s);
      case Crash => CrashStep(c, s);
      case RecoverOne => RecoverStep(c, s);
      case RecoverDone => RecoverDoneStep(c, s);
    }
  }

  lemma InvStep(c: Config, s: State, st: Step)
    requires Inv(c, s) && Enabled(c, s, st)
    ensures Inv(c, Do(c, s, st))
  {
    match st {
      case Begin(p) => BeginStep(c, s, p);
      case RefMiss(p, b, victims) => MissStep(c, s, p, b, victims);
      case RefHit(_, _) => HoldingStep(c, s, st);
      case Lock(_, _) => HoldingStep(c, s, st);
      case Fill(_, _) => HoldingStep(c, s, st);
      case Release(_, _) => HoldingStep(c, s, st);
      case Modify(p, b, v) => ModifyStep(c, s, p, b, v);
      case LogWrite(p, b) => LogWriteStep(c, s, p, b);
      case End(p) => EndStep(c, s, p);
      case _ => DiskStep(c, s, st);
    }
  }

  // -------- Whole runs --------

  ghost predicate IsRun(c: Config, ss: seq<State>, sts: seq<Step>) {
    && |ss| == |sts| + 1
    && Init(ss[0])
    && forall i :: 0 <= i < |sts| ==> Enabled(c, ss[i], sts[i]) && ss[i + 1] == Do(c, ss[i], sts[i])
  }

  lemma {:induction false} RunInv(c: Config, ss: seq<State>, sts: seq<Step>, i: nat)
    requires IsRun(c, ss, sts) && i < |ss|
    ensures Inv(c, ss[i])
  {
    if i > 0 {
      RunInv(c, ss, sts, i - 1);
      InvStep(c, ss[i - 1], sts[i - 1]);
    }
  }

  /** Transparency: in every run, whoever holds a block read by `bread` has the
      contents last given to it; an unheld block that is cached has them too. */
  lemma ReadersSeeLastContents(c: Config, ss: seq<State>, sts: seq<Step>, i: nat, b: nat)
    requires IsRun(c, ss, sts) && i < |ss| && b in ss[i].cache && ss[i].cache[b].valid
    ensures b < |ss[i].last| && ss[i].cache[b].data == ss[i].last[b]
    ensures ss[i].cache[b].holder == Nobody && b !in ss[i].lh ==>
              b < |ss[i].disk| && ss[i].cache[b].data == ss[i].disk[b]
  {
    RunInv(c, ss, sts, i);
  }

  /** Space: in every run the log fits, its entries are distinct, commit never
      overlaps an operation, and a block not yet logged finds room. */
  lemma LogNeverOverflows(c: Config, ss: seq<State>, sts: seq<Step>, i: nat)
    requires IsRun(c, ss, sts) && i < |ss|
    ensures |ss[i].lh| <= c.logBlocks && Distinct(ss[i].lh)
    ensures ss[i].phase != Idle ==> ss[i].ops == map[]
    ensures forall p, b :: WantsLog(c, ss[i], p, b) && !Enabled(c, ss[i], LogWrite(p, b)) ==> b in ss[i].lh
  {
    RunInv(c, ss, sts, i);
    ReservedBounds(c, ss[i].ops);
    forall p, b | WantsLog(c, ss[i], p, b) && !Enabled(c, ss[i], LogWrite(p, b)) ensures b in ss[i].lh {
      LogSpace(c, ss[i], p, b);
    }
  }

  /** Crashes: however often power fails, and wherever, once recovery completes
      the disk is what was durable at the first of those crashes. */
  lemma RecoveryRestoresDurable(c: Config, ss: seq<State>, sts: seq<Step>, i: nat, j: nat)
    requires IsRun(c, ss, sts) && i <= j < |sts| && sts[j] == RecoverDone
    requires forall k :: i <= k < j ==> sts[k] == Crash || sts[k] == RecoverOne
    ensures ss[j + 1].disk == ss[j + 1].last == ss[i].durable
    decreases j - i
  {
    RunInv(c, ss, sts, j);
    RecoveredIsDurable(c, ss[j]);
    DurableKept(c, ss, sts, i, j);
  }

  lemma {:induction false} DurableKept(c: Config, ss: seq<State>, sts: seq<Step>, i: nat, j: nat)
    requires IsRun(c, ss, sts) && i <= j < |ss|
    requires forall k :: i <= k < j ==> sts[k] == Crash || sts[k] == RecoverOne
    ensures ss[j].durable == ss[i].durable
    decreases j - i
  {
    if i < j {
      DurableKept(c, ss, sts, i + 1, j);
    }
  }

  lemma DurableStep(c: Config, s: State, st: Step)
    requires Discipline(s) && Phased(s) && Enabled(c, s, st) && Do(c, s, st).durable != s.durable
    ensures st == WriteHeader && s.ops == map[] && Do(c, s, st).durable == s.last
    ensures forall b :: b in s.cache ==> !s.cache[b].changed
  {
  }

  /** Atomic groups: what is durable changes only at a commit point, and there it
      becomes everything every finished operation wrote, with no operation in progress. */
  lemma DurableOnlyAtCommit(c: Config, ss: seq<State>, sts: seq<Step>, i: nat)
    requires IsRun(c, ss, sts) && i < |sts| && ss[i + 1].durable != ss[i].durable
    ensures sts[i] == WriteHeader && ss[i].ops == map[] && ss[i + 1].durable == ss[i].last
    ensures forall b :: b in ss[i].cache ==> !ss[i].cache[b].changed
  {
    RunInv(c, ss, sts, i);
    DurableStep(c, ss[i], sts[i]);
  }

  // -------- A full log panics on absorption --------

  /** The room check of `log_write` comes before absorption, so an operation within its budget can still
      meet the panic, on a block it logged before: for every budget, and every log that is a multiple of it
      (the kernel has three times ten blocks), when that many operations use up their reservations. */
  lemma AbsorptionCanPanic(c: Config, n: nat) returns (ss: seq<State>, sts: seq<Step>)
    requires c.maxOp >= 1 && n >= 1 && c.logBlocks == n * c.maxOp
    ensures IsRun(c, ss, sts)
    ensures WantsLog(c, ss[|sts|], 0, 0) && !Enabled(c, ss[|sts|], LogWrite(0, 0)) && 0 in ss[|sts|].lh
  {
    var s := FullLog(c, n);
    s := ReadAgain(c, n, s);
    assert Tracing(0);
    ss, sts :| IsRun(c, ss, sts) && ss[|sts|] == s;
  }

  ghost predicate Tracing(z: int) { true }

  /** Some run ends in `s`. To be opened by mentioning `Tracing`. */
  ghost predicate Reachable(c: Config, s: State) {
    forall z :: Tracing(z) ==> exists ss, sts :: IsRun(c, ss, sts) && ss[|sts|] == s
  }

  lemma ReachNext(c: Config, s: State, st: Step)
    requires Reachable(c, s) && Enabled(c, s, st)
    ensures Reachable(c, Do(c, s, st))
  {
    assert Tracing(0);
    var ss, sts :| IsRun(c, ss, sts) && ss[|sts|] == s;
    RunMore(c, ss, sts, st);
  }

  lemma RunMore(c: Config, ss: seq<State>, sts: seq<Step>, st: Step)
    requires IsRun(c, ss, sts) && Enabled(c, ss[|sts|], st)
    ensures IsRun(c, ss + [Do(c, ss[|sts|], st)], sts + [st])
  {
  }

  /** The first operation reads its first block again, from the full log. */
  lemma ReadAgain(c: Config, n: nat, s: State) returns (t: State)
    requires c.maxOp >= 1 && n >= 1 && c.logBlocks == n * c.maxOp && Reachable(c, s) && Filled(c, n, s, n, 0)
    ensures Reachable(c, t) && WantsLog(c, t, 0, 0) && !Enabled(c, t, LogWrite(0, 0)) && 0 in t.lh
  {
    Product(0, n, c.maxOp);
    assert s.lh[0] == 0 && s.cache[0] == AtRest();
    ReachNext(c, s, RefHit(0, 0));
    t := Do(c, s, RefHit(0, 0));
    ReachNext(c, t, Lock(0, 0));
    t := Do(c, t, Lock(0, 0));
    assert t.ops[0] + {0} == t.ops[0] && t.lh == s.lh;
  }

  lemma Product(p: nat, n: nat, k: nat)
    requires p < n
    ensures (p + 1) * k == p * k + k <= n * k && 0 <= p * k
  {
    Distribute(p, k);
    var q := n - p - 1;
    assert n * k == (p + 1) * k + q * k;
  }

  /** Blocks of zeroes. */
  function Zeroes(n: nat): seq<Block> {
    seq(n, _ => [0])
  }

  /** `q` operations that have logged nothing. */
  ghost function Fresh(q: nat): (r: map<Pid, set<nat>>)
    ensures |r| == q && forall p: nat :: p in r <==> p < q
    ensures forall p :: p in r ==> r[p] == {}
  {
    if q == 0 then map[] else
      var r := Fresh(q - 1);
      assert r[q - 1 := {}].Keys == r.Keys + {q - 1};
      r[q - 1 := {}]
  }

  /** `q` operations have begun. */
  ghost function Begun(c: Config, q: nat): State {
    var d := Zeroes(c.logBlocks);
    State(d, [], [], map[], [], Fresh(q), Idle, d, d)
  }

  lemma {:induction false} BeginAll(c: Config, n: nat, q: nat)
    requires c.logBlocks == n * c.maxOp && q <= n
    ensures Reachable(c, Begun(c, q))
  {
    if q == 0 {
      assert IsRun(c, [Begun(c, 0)], []);
    } else {
      BeginAll(c, n, q - 1);
      Product(q - 1, n, c.maxOp);
      ReachNext(c, Begun(c, q - 1), Begin(q - 1));
    }
  }

  /** The `k` blocks from `lo` on. */
  ghost function Range(lo: nat, k: nat): (r: set<nat>)
    ensures |r| == k && forall b: nat :: b in r <==> lo <= b < lo + k
  {
    if k == 0 then {} else Range(lo, k - 1) + {lo + k - 1}
  }

  /** A logged block that nobody uses. */
  function AtRest(): CBuf {
    CBuf(true, [0], {Pin}, Nobody, false)
  }

  /** The first `k` blocks of the disk are logged, and nobody uses a block. */
  ghost predicate Loaded(c: Config, s: State, k: nat) {
    && s.phase == Idle && s.disk == Zeroes(c.logBlocks) && |s.lh| == k
    && (forall i :: 0 <= i < k ==> s.lh[i] == i)
    && (forall b :: b in s.cache <==> 0 <= b < k)
    && (forall b :: b in s.cache ==> s.cache[b] == AtRest())
  }

  /** The first `p` operations have used up their budgets, and the next has logged `j` blocks. */
  ghost predicate Spent(c: Config, n: nat, ops: map<Pid, set<nat>>, p: nat, j: nat) {
    && (forall q: nat :: q < n ==> q in ops)
    && (forall q: nat :: p < q < n ==> ops[q] == {})
    && (p < n ==> ops[p] == Range(p * c.maxOp, j))
    && (0 < p && 0 < n ==> ops[0] == Range(0, c.maxOp))
  }

  ghost predicate Filled(c: Config, n: nat, s: State, p: nat, j: nat) {
    Loaded(c, s, p * c.maxOp + j) && Spent(c, n, s.ops, p, j)
  }

  lemma FullLog(c: Config, n: nat) returns (s: State)
    requires c.maxOp >= 1 && n >= 1 && c.logBlocks == n * c.maxOp
    ensures Reachable(c, s) && Filled(c, n, s, n, 0)
  {
    BeginAll(c, n, n);
    s := Begun(c, n);
    for p := 0 to n
      invariant Reachable(c, s) && Filled(c, n, s, p, 0)
    {
      s := UseUp(c, n, s, p);
    }
  }

  lemma UseUp(c: Config, n: nat, s: State, p: nat) returns (t: State)
    requires c.logBlocks == n * c.maxOp && p < n && Reachable(c, s) && Filled(c, n, s, p, 0)
    ensures Reachable(c, t) && Filled(c, n, t, p + 1, 0)
  {
    t := s;
    for j := 0 to c.maxOp
      invariant Reachable(c, t) && Filled(c, n, t, p, j)
    {
      t := LogNext(c, n, t, p, j);
    }
    NextOp(c, n, t, p);
  }

  lemma NextOp(c: Config, n: nat, s: State, p: nat)
    requires p < n && Filled(c, n, s, p, c.maxOp)
    ensures Filled(c, n, s, p + 1, 0)
  {
    Product(p, n, c.maxOp);
    assert Range((p + 1) * c.maxOp, 0) == {};
    assert p == 0 ==> 0 * c.maxOp == 0;
  }

  /** One more block: bread, log_write, brelse. */
  lemma LogNext(c: Config, n: nat, s: State, p: nat, j: nat) returns (t: State)
    requires p < n && j < c.maxOp && c.logBlocks == n * c.maxOp && Reachable(c, s) && Filled(c, n, s, p, j)
    ensures Reachable(c, t) && Filled(c, n, t, p, j + 1)
  {
    var b := p * c.maxOp + j;
    Product(p, n, c.maxOp);
    assert s.ops[p] + {b} == Range(p * c.maxOp, j + 1);
    ReadBlock(c, s, p, b);
    LogBlock(c, s, p, b);
    t := With(s, b, AtRest()).(lh := s.lh + [b], ops := s.ops[p := s.ops[p] + {b}]);
    LoadedMore(c, s, t, b);
  }

  /** A block as `bread` gives it to `p`. */
  function Read(p: Pid): CBuf {
    CBuf(true, [0], {Proc(p)}, Held(p), false)
  }

  lemma ReadBlock(c: Config, s: State, p: nat, b: nat)
    requires Reachable(c, s) && s.phase == Idle && b !in s.cache && b < |s.disk| && s.disk[b] == [0]
    ensures Reachable(c, With(s, b, Read(p)))
  {
    ReachNext(c, s, RefMiss(p, b, {}));
    var t := Do(c, s, RefMiss(p, b, {}));
    assert s.cache - {} == s.cache;
    ReachNext(c, t, Lock(p, b));
    t := Do(c, t, Lock(p, b));
    ReachNext(c, t, Fill(p, b));
    t := Do(c, t, Fill(p, b));
    assert t.cache == s.cache[b := Read(p)];
  }

  lemma LogBlock(c: Config, s: State, p: nat, b: nat)
    requires Reachable(c, With(s, b, Read(p))) && s.phase == Idle
    requires p in s.ops && b !in s.lh && |s.lh| < c.logBlocks && |s.ops[p] + {b}| <= c.maxOp
    ensures Reachable(c, With(s, b, AtRest()).(lh := s.lh + [b], ops := s.ops[p := s.ops[p] + {b}]))
  {
    var t := With(s, b, Read(p));
    ReachNext(c, t, LogWrite(p, b));
    t := Do(c, t, LogWrite(p, b));
    ReachNext(c, t, Release(p, b));
    t := Do(c, t, Release(p, b));
    assert {Proc(p)} + {Pin} - {Proc(p)} == {Pin};
    assert t.cache == s.cache[b := AtRest()];
  }

  lemma LoadedMore(c: Config, s: State, t: State, k: nat)
    requires Loaded(c, s, k) && t.phase == Idle && t.disk == s.disk
    requires t.cache == s.cache[k := AtRest()] && t.lh == s.lh + [k]
    ensures Loaded(c, t, k + 1)
  {
  }
}
