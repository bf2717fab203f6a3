/** The code of the log and the cache refines the protocol: every call that a client makes on the real
    buffer cache and log (modules LogClients, Logs, BufferCaches) is a run of steps of LogProtocol, with the
    same guards. What LogProtocol proves of every interleaving therefore holds of the code. */
module LogRefinements {
  import opened Disks
  import opened Counting
  import opened CrashRecovery
  import opened BufferCaches
  import opened Logs
  import opened LogClients
  import P = LogProtocol

  // -------- Runs of the protocol --------

  ghost predicate Taking(z: int, st: P.Step) { true }

  /** The step leads from `a` to `a'`. To be opened by mentioning `Taking`. */
  ghost predicate Takes(c: P.Config, a: P.State, st: P.Step, a': P.State) {
    forall z :: Taking(z, st) ==> P.Enabled(c, a, st) && a' == P.Do(c, a, st)
  }

  /** The steps `sts` lead from `a` to `a'`. */
  ghost predicate Path(c: P.Config, a: P.State, sts: seq<P.Step>, a': P.State)
    decreases |sts|
  {
    if sts == [] then a' == a else exists m :: Takes(c, a, sts[0], m) && Path(c, m, sts[1..], a')
  }

  ghost predicate Walking(z: int, sts: seq<P.Step>) { true }

  /** The same, to be opened by mentioning `Walking`. */
  ghost predicate Leads(c: P.Config, a: P.State, sts: seq<P.Step>, a': P.State) {
    forall z :: Walking(z, sts) ==> Path(c, a, sts, a')
  }

  lemma NoStep(c: P.Config, a: P.State)
    ensures Leads(c, a, [], a)
  {
  }

  lemma OneStep(c: P.Config, a: P.State, st: P.Step)
    requires P.Enabled(c, a, st)
    ensures Leads(c, a, [st], P.Do(c, a, st))
  {
    var a' := P.Do(c, a, st);
    assert Takes(c, a, st, a');
    assert Path(c, a', [st][1..], a');
  }

  lemma {:induction false} PathsJoin(c: P.Config, a: P.State, sts: seq<P.Step>, a1: P.State, more: seq<P.Step>,
      a2: P.State)
    requires Path(c, a, sts, a1) && Path(c, a1, more, a2)
    ensures Path(c, a, sts + more, a2)
    decreases |sts|
  {
    if sts == [] {
      assert sts + more == more;
    } else {
      var m :| Takes(c, a, sts[0], m) && Path(c, m, sts[1..], a1);
      PathsJoin(c, m, sts[1..], a1, more, a2);
      assert (sts + more)[1..] == sts[1..] + more;
    }
  }

  lemma Joined(c: P.Config, a: P.State, sts: seq<P.Step>, a1: P.State, more: seq<P.Step>, a2: P.State)
    requires Leads(c, a, sts, a1) && Leads(c, a1, more, a2)
    ensures Leads(c, a, sts + more, a2)
  {
    assert Walking(0, sts) && Walking(0, more);
    PathsJoin(c, a, sts, a1, more, a2);
  }

  lemma {:induction false} PathKeeps(c: P.Config, a: P.State, sts: seq<P.Step>, a': P.State)
    requires P.Inv(c, a) && P.Reachable(c, a) && Path(c, a, sts, a')
    ensures P.Inv(c, a') && P.Reachable(c, a')
    decreases |sts|
  {
    if sts != [] {
      var m :| Takes(c, a, sts[0], m) && Path(c, m, sts[1..], a');
      assert Taking(0, sts[0]);
      P.InvStep(c, a, sts[0]);
      P.ReachNext(c, a, sts[0]);
      PathKeeps(c, m, sts[1..], a');
    }
  }

  lemma LeadsKeeps(c: P.Config, a: P.State, sts: seq<P.Step>, a': P.State)
    requires P.Inv(c, a) && P.Reachable(c, a) && Leads(c, a, sts, a')
    ensures P.Inv(c, a') && P.Reachable(c, a')
  {
    assert Walking(0, sts);
    PathKeeps(c, a, sts, a');
  }

  // -------- The steps of a commit --------

  /** No logged block is locked, so commit does not have to wait for any. */
  ghost predicate LogUnlocked(a: P.State) {
    forall k :: 0 <= k < |a.lh| && a.lh[k] in a.cache ==> a.cache[a.lh[k]].holder == P.Nobody
  }

  /** The same buffers, but those of `pins` have lost their pins. */
  ghost predicate Unpins(a: P.State, a': P.State, pins: seq<nat>) {
    && a'.cache.Keys == a.cache.Keys
    && forall b :: b in a.cache ==>
         && a'.cache[b].valid == a.cache[b].valid && a'.cache[b].holder == a.cache[b].holder
         && a'.cache[b].changed == a.cache[b].changed
         && a'.cache[b].refs == if b in pins then a.cache[b].refs - {P.Pin} else a.cache[b].refs
  }

  lemma {:induction false} CopyAll(c: P.Config, a: P.State) returns (sts: seq<P.Step>, a': P.State)
    requires P.Inv(c, a) && a.phase.Copying? && LogUnlocked(a)
    ensures Leads(c, a, sts, a') && P.Inv(c, a') && a' == a.(copies := a'.copies, phase := P.Copying(|a.lh|))
    decreases |a.lh| - if a.phase.Copying? then a.phase.i else 0
  {
    if a.phase.i == |a.lh| {
      NoStep(c, a);
      sts, a' := [], a;
    } else {
      assert a.lh[a.phase.i] in P.Remaining(a);
      var a1 := P.Do(c, a, P.CopyToLog);
      P.InvStep(c, a, P.CopyToLog);
      var more;
      more, a' := CopyAll(c, a1);
      OneStep(c, a, P.CopyToLog);
      Joined(c, a, [P.CopyToLog], a1, more, a');
      sts := [P.CopyToLog] + more;
    }
  }

  lemma {:induction false} InstallAll(c: P.Config, a: P.State) returns (sts: seq<P.Step>, a': P.State)
    requires P.Inv(c, a) && a.phase.Installing? && LogUnlocked(a)
    ensures Leads(c, a, sts, a') && P.Inv(c, a') && Unpins(a, a', P.Remaining(a))
    ensures a' == a.(disk := a'.disk, cache := a'.cache, phase := P.Installing(|a.lh|))
    decreases |a.lh| - if a.phase.Installing? then a.phase.i else 0
  {
    if a.phase.i == |a.lh| {
      NoStep(c, a);
      sts, a' := [], a;
    } else {
      assert a.lh[a.phase.i] in P.Remaining(a);
      var a1 := P.Installed(a);
      P.InvStep(c, a, P.Install);
      P.InstallShrinks(a);
      InstallUnlocked(a);
      var more;
      more, a' := InstallAll(c, a1);
      OneStep(c, a, P.Install);
      Joined(c, a, [P.Install], a1, more, a');
      sts := [P.Install] + more;
      InstallUnpins(a, a', P.Remaining(a), P.Remaining(a1));
    }
  }

  lemma InstallUnlocked(a: P.State)
    requires a.phase.Installing? && a.phase.i < |a.lh| == |a.copies| && a.lh[a.phase.i] in a.cache && LogUnlocked(a)
    ensures LogUnlocked(P.Installed(a))
  {
  }

  lemma InstallUnpins(a: P.State, a': P.State, pins: seq<nat>, rest: seq<nat>)
    requires a.phase.Installing? && a.phase.i < |a.lh| == |a.copies| && a.lh[a.phase.i] in a.cache
    requires Unpins(P.Installed(a), a', rest)
    requires forall b :: b in pins <==> b == a.lh[a.phase.i] || b in rest
    ensures Unpins(a, a', pins)
  {
  }

  /** The last `end_op`: copy, write the header, install and erase. */
  lemma CommitRun(c: P.Config, a: P.State, p: P.Pid) returns (sts: seq<P.Step>, a': P.State)
    requires P.Inv(c, a) && P.Enabled(c, a, P.End(p)) && a.ops.Keys == {p} && LogUnlocked(a)
    ensures Leads(c, a, sts, a') && P.Inv(c, a')
    ensures a'.phase == P.Idle && a'.lh == [] && a'.ops == map[] && a'.last == a.last && Unpins(a, a', a.lh)
    ensures sts != [] && sts[0] == P.End(p)
  {
    var a2;
    sts, a2 := SealRun(c, a, p);
    if a.lh == [] {
      a' := a2;
    } else {
      sts, a' := InstallRun(c, a, sts, a2);
    }
  }

  /** Up to the commit point. */
  lemma SealRun(c: P.Config, a: P.State, p: P.Pid) returns (sts: seq<P.Step>, a': P.State)
    requires P.Inv(c, a) && P.Enabled(c, a, P.End(p)) && a.ops.Keys == {p} && LogUnlocked(a)
    ensures Leads(c, a, sts, a') && P.Inv(c, a') && sts != [] && sts[0] == P.End(p)
    ensures a'.cache == a.cache && a'.lh == a.lh && a'.ops == map[] && a'.last == a.last
    ensures a'.phase == if a.lh == [] then P.Idle else P.Installing(0)
  {
    var a1 := P.Do(c, a, P.End(p));
    P.InvStep(c, a, P.End(p));
    OneStep(c, a, P.End(p));
    assert a.ops - {p} == map[];
    var more, a2 := CopyAll(c, a1);
    Joined(c, a, [P.End(p)], a1, more, a2);
    a' := P.Do(c, a2, P.WriteHeader);
    P.InvStep(c, a2, P.WriteHeader);
    OneStep(c, a2, P.WriteHeader);
    Joined(c, a, [P.End(p)] + more, a2, [P.WriteHeader], a');
    sts := [P.End(p)] + more + [P.WriteHeader];
  }

  lemma InstallRun(c: P.Config, a: P.State, before: seq<P.Step>, a3: P.State) returns (sts: seq<P.Step>, a': P.State)
    requires Leads(c, a, before, a3) && P.Inv(c, a3) && a3.phase == P.Installing(0) && LogUnlocked(a3)
    ensures Leads(c, a, sts, a') && P.Inv(c, a') && Unpins(a3, a', a3.lh) && before <= sts
    ensures a'.phase == P.Idle && a'.lh == [] && a'.ops == a3.ops && a'.last == a3.last
  {
    var more, a4 := InstallAll(c, a3);
    assert P.Remaining(a3) == a3.lh;
    Joined(c, a, before, a3, more, a4);
    a' := P.Do(c, a4, P.Clear);
    P.InvStep(c, a4, P.Clear);
    OneStep(c, a4, P.Clear);
    Joined(c, a, before + more, a4, [P.Clear], a');
    sts := before + more + [P.Clear];
  }

  // -------- The steps of a crash and a reboot --------

  lemma {:induction false} RecoverAll(c: P.Config, a: P.State) returns (sts: seq<P.Step>, a': P.State)
    requires P.Inv(c, a) && a.phase.Recovering?
    ensures Leads(c, a, sts, a') && P.Inv(c, a') && a' == a.(disk := a'.disk, phase := P.Recovering(|a.header|))
    decreases |a.header| - if a.phase.Recovering? then a.phase.i else 0
  {
    if a.phase.i == |a.header| {
      NoStep(c, a);
      sts, a' := [], a;
    } else {
      var a1 := P.Do(c, a, P.RecoverOne);
      P.InvStep(c, a, P.RecoverOne);
      var more;
      more, a' := RecoverAll(c, a1);
      OneStep(c, a, P.RecoverOne);
      Joined(c, a, [P.RecoverOne], a1, more, a');
      sts := [P.RecoverOne] + more;
    }
  }

  /** Power fails and recovery completes: what was durable is there, and nothing else. */
  lemma CrashRun(c: P.Config, a: P.State) returns (sts: seq<P.Step>, a': P.State)
    requires P.Inv(c, a)
    ensures Leads(c, a, sts, a') && P.Inv(c, a') && P.Init(a') && a'.last == a.durable && sts != [] && sts[0] == P.Crash
  {
    var a1 := P.Do(c, a, P.Crash);
    P.InvStep(c, a, P.Crash);
    OneStep(c, a, P.Crash);
    var more, a2 := RecoverAll(c, a1);
    Joined(c, a, [P.Crash], a1, more, a2);
    P.RecoveredIsDurable(c, a2);
    a' := P.Do(c, a2, P.RecoverDone);
    P.InvStep(c, a2, P.RecoverDone);
    OneStep(c, a2, P.RecoverDone);
    Joined(c, a, [P.Crash] + more, a2, [P.RecoverDone], a');
    sts := [P.Crash] + more + [P.RecoverDone];
  }

  /** Power fails in the last `end_op` after its commit point: everything it was to commit is there. */
  lemma CommittedRun(c: P.Config, a: P.State, p: P.Pid) returns (sts: seq<P.Step>, a': P.State)
    requires P.Inv(c, a) && P.Enabled(c, a, P.End(p)) && a.ops.Keys == {p} && LogUnlocked(a)
    ensures Leads(c, a, sts, a') && P.Inv(c, a') && P.Init(a') && a'.last == a.last
  {
    var before, a1 := SealRun(c, a, p);
    SealedDurable(c, a1);
    var more;
    more, a' := CrashRun(c, a1);
    Joined(c, a, before, a1, more, a');
    sts := before + more;
  }

  lemma SealedDurable(c: P.Config, a: P.State)
    requires P.Inv(c, a) && a.ops == map[] && a.phase == if a.lh == [] then P.Idle else P.Installing(0)
    ensures a.durable == a.last
  {
    if a.lh == [] {
      assert forall b: nat :: b < |a.disk| ==> !P.Dirty(a, b);
    }
  }

  // -------- Which protocol state the code is in --------

  /** The cache, the disk, the log and its clients, the sleep locks of the buffers (who holds which), and
      how many operations are outstanding. */
  datatype World = World(v: Board, locks: map<int, P.Pid>, out: int)

  /** Buffer `i` holds a home block that somebody refers to. */
  predicate Used(l: Layout, dev: nat, s: seq<Slot>, i: int) {
    0 <= i < |s| && s[i].dev == dev && l.Home(s[i].blockno) && s[i].refcnt > 0
  }

  ghost predicate InUse(l: Layout, dev: nat, s: seq<Slot>, b: int) {
    exists i :: Used(l, dev, s, i) && s[i].blockno == b
  }

  ghost predicate Tallying(z: int, refs: set<P.Ref>) { true }

  /** `n` processes are among the references. To be opened by mentioning `Tallying`. */
  ghost predicate Count(refs: set<P.Ref>, n: int) {
    forall z :: Tallying(z, refs) ==> |refs - {P.Pin}| == n
  }

  lemma CountMore(refs: set<P.Ref>, p: P.Pid, n: int)
    requires Count(refs, n) && P.Proc(p) !in refs
    ensures Count(refs + {P.Proc(p)}, n + 1)
  {
    assert Tallying(0, refs);
    assert refs + {P.Proc(p)} - {P.Pin} == refs - {P.Pin} + {P.Proc(p)};
  }

  lemma CountLess(refs: set<P.Ref>, p: P.Pid, n: int)
    requires Count(refs, n) && P.Proc(p) in refs
    ensures Count(refs - {P.Proc(p)}, n - 1)
    ensures n == 1 && P.Pin !in refs ==> refs - {P.Proc(p)} == {}
  {
    assert Tallying(0, refs);
    assert refs - {P.Proc(p)} - {P.Pin} == refs - {P.Pin} - {P.Proc(p)};
    if n == 1 && P.Pin !in refs {
      assert |refs - {P.Proc(p)}| == 0;
    }
  }

  lemma CountOne(p: P.Pid)
    ensures Count({P.Proc(p)}, 1) && {P.Proc(p)} == {} + {P.Proc(p)}
  {
    assert {P.Proc(p)} - {P.Pin} == {P.Proc(p)};
  }

  lemma CountPins(refs: set<P.Ref>, n: int)
    requires Count(refs, n)
    ensures Count(refs + {P.Pin}, n) && Count(refs - {P.Pin}, n)
  {
    assert Tallying(0, refs);
    assert refs + {P.Pin} - {P.Pin} == refs - {P.Pin} == refs - {P.Pin} - {P.Pin};
  }

  /** A buffer in use is what the protocol says about its block. */
  ghost predicate Mirror(w: World, a: P.State, i: int)
    requires 0 <= i < |w.v.s| == |w.v.users|
  {
    var b := w.v.s[i].blockno;
    && w.v.s[i].valid && b in a.cache && a.cache[b].valid
    && Count(a.cache[b].refs, w.v.users[i]) && (P.Pin in a.cache[b].refs <==> i in w.v.pin)
    && a.cache[b].holder == (if i in w.locks then P.Held(w.locks[i]) else P.Nobody)
    && (a.cache[b].changed <==> i in w.v.held)
  }

  ghost predicate SameBuffers(l: Layout, dev: nat, w: World, a: P.State) {
    && |w.v.users| == |w.v.s|
    && (forall i :: Used(l, dev, w.v.s, i) ==> Mirror(w, a, i))
    && (forall i :: i in w.locks ==> Used(l, dev, w.v.s, i))
    && (forall b :: b in a.cache && a.cache[b].refs != {} ==> InUse(l, dev, w.v.s, b))
  }

  ghost predicate SameDisk(l: Layout, w: World, a: P.State) {
    && |a.disk| == |a.last| == |w.v.d| == |w.v.last| == l.nblocks
    && forall b :: l.Home(b) ==> a.disk[b] == w.v.d[b] && a.last[b] == w.v.last[b]
  }

  ghost predicate SameLog(w: World, a: P.State) {
    a.phase == P.Idle && |a.ops| == w.out && |a.lh| == |w.v.lh| && forall k :: 0 <= k < |a.lh| ==> a.lh[k] == w.v.lh[k]
  }

  ghost predicate Coupling(z: int, w: World) { true }

  /** All of this, to be opened by mentioning `Coupling`. */
  ghost predicate Coupled(l: Layout, dev: nat, w: World, a: P.State) {
    forall z :: Coupling(z, w) ==> SameBuffers(l, dev, w, a) && SameDisk(l, w, a) && SameLog(w, a)
  }

  // -------- Each call, as steps --------

  /** `bget` takes a reference. */
  ghost function RefStep(a: P.State, p: P.Pid, b: nat): P.Step {
    if b in a.cache then P.RefHit(p, b) else P.RefMiss(p, b, {})
  }

  ghost predicate MayRefer(a: P.State, p: P.Pid, b: nat) {
    b in a.cache ==> P.Proc(p) !in a.cache[b].refs
  }

  /** The buffer that `bread` finds, and what the protocol knows of it. */
  lemma Finds(l: Layout, dev: nat, w: World, a: P.State, i: int, b: nat)
    requires dev != 0 && Counted(w.v) && Held(l, dev, w.v) && P.Discipline(a) && SameBuffers(l, dev, w, a)
    requires Unique(w.v.s) && Pinned(dev, w.v.s, w.v.lh, w.v.pin)
    requires l.Home(b) && 0 <= i < |w.v.s|
    requires (w.v.s[i].Tagged(dev, b) || (w.v.s[i].refcnt == 0 && !Cached(w.v.s, dev, b)))
    ensures w.v.s[i].refcnt > 0 ==> Used(l, dev, w.v.s, i) && w.v.s[i].blockno == b && Mirror(w, a, i)
    ensures w.v.s[i].refcnt == 0 ==> i !in w.locks && i !in w.v.held && i !in w.v.pin && w.v.users[i] == 0
    ensures w.v.s[i].refcnt == 0 && b in a.cache ==>
              a.cache[b].refs == {} && a.cache[b].holder == P.Nobody && !a.cache[b].changed
  {
  }

  /** Nothing but buffer `i` has changed. */
  ghost predicate OnlyBuffer(w: World, w': World, i: int) {
    && 0 <= i < |w.v.s| == |w'.v.s| == |w.v.users| == |w'.v.users|
    && w'.v.s == w.v.s[i := w'.v.s[i]] && w'.v.users == w.v.users[i := w'.v.users[i]]
    && (forall j :: j != i ==> (j in w'.locks <==> j in w.locks) && (j in w.locks ==> w'.locks[j] == w.locks[j]))
    && (forall j :: j != i ==> (j in w'.v.pin <==> j in w.v.pin))
    && (forall j :: j != i ==> (j in w'.v.held <==> j in w.v.held))
  }

  /** A step of the code and a step of the protocol that touch one buffer and its block. */
  lemma OneBuffer(l: Layout, dev: nat, w: World, w': World, a: P.State, a': P.State, i: int, b: nat, x: P.CBuf)
    requires dev != 0 && SameBuffers(l, dev, w, a) && Unique(w'.v.s) && OnlyBuffer(w, w', i)
    requires w'.v.s[i].Tagged(dev, b) && l.Home(b) && a'.cache == a.cache[b := x]
    requires w.v.s[i].refcnt > 0 ==> w.v.s[i].Tagged(dev, b)
    requires w'.v.s[i].refcnt > 0 ==> Mirror(w', a', i)
    requires w'.v.s[i].refcnt == 0 ==> x.refs == {} && i !in w'.locks
    ensures SameBuffers(l, dev, w', a')
  {
    forall j | Used(l, dev, w'.v.s, j) ensures Mirror(w', a', j) {
      if j != i {
        assert Used(l, dev, w.v.s, j) && Mirror(w, a, j);
        assert w'.v.s[j].blockno != b;
      }
    }
    forall k | k in a'.cache && a'.cache[k].refs != {} ensures InUse(l, dev, w'.v.s, k) {
      if k == b {
        assert Used(l, dev, w'.v.s, i);
      } else {
        var j :| Used(l, dev, w.v.s, j) && w.v.s[j].blockno == k;
        assert Used(l, dev, w'.v.s, j) && w'.v.s[j].blockno == k;
      }
    }
  }

  ghost function OpenSteps(a: P.State, p: P.Pid, b: nat): seq<P.Step> {
    [RefStep(a, p, b), P.Lock(p, b)] + if b in a.cache && a.cache[b].valid then [] else [P.Fill(p, b)]
  }

  /** The buffer of block `b` once `p` refers to it. */
  ghost function Referred(a: P.State, p: P.Pid, b: nat): P.CBuf {
    if b in a.cache then a.cache[b].(refs := a.cache[b].refs + {P.Proc(p)})
    else P.CBuf(false, [], {P.Proc(p)}, P.Nobody, false)
  }

  lemma RefRun(c: P.Config, a: P.State, p: P.Pid, b: nat)
    requires P.Running(a) && MayRefer(a, p, b) && b < |a.disk|
    ensures P.Enabled(c, a, RefStep(a, p, b))
    ensures P.Do(c, a, RefStep(a, p, b)) == P.With(a, b, Referred(a, p, b))
  {
    assert a.cache - {} == a.cache;
  }

  /** The rest of `bread`, on a buffer that nobody has locked. */
  lemma LockRun(c: P.Config, a: P.State, p: P.Pid, b: nat, x: P.CBuf) returns (sts: seq<P.Step>, y: P.CBuf)
    requires P.Running(a) && b < |a.disk| && P.Proc(p) in x.refs && x.holder == P.Nobody
    ensures Leads(c, P.With(a, b, x), sts, P.With(a, b, y))
    ensures y == x.(valid := true, holder := P.Held(p), data := y.data)
    ensures sts == [P.Lock(p, b)] + if x.valid then [] else [P.Fill(p, b)]
  {
    var a1 := P.With(a, b, x);
    y := x.(holder := P.Held(p));
    OneStep(c, a1, P.Lock(p, b));
    assert P.Do(c, a1, P.Lock(p, b)) == P.With(a, b, y);
    sts := [P.Lock(p, b)];
    if !x.valid {
      var a2 := P.With(a, b, y);
      y := y.(valid := true, data := a.disk[b]);
      OneStep(c, a2, P.Fill(p, b));
      assert P.Do(c, a2, P.Fill(p, b)) == P.With(a, b, y);
      Joined(c, a1, sts, a2, [P.Fill(p, b)], P.With(a, b, y));
      sts := sts + [P.Fill(p, b)];
    }
  }

  /** `bread` of a block whose buffer nobody has locked: reference, lock and, if need be, fill. */
  lemma OpenRun(c: P.Config, a: P.State, p: P.Pid, b: nat) returns (sts: seq<P.Step>, y: P.CBuf)
    requires P.Running(a) && MayRefer(a, p, b) && b < |a.disk| && (b in a.cache ==> a.cache[b].holder == P.Nobody)
    ensures Leads(c, a, sts, P.With(a, b, y)) && sts == OpenSteps(a, p, b)
    ensures y == Referred(a, p, b).(valid := true, holder := P.Held(p), data := y.data)
  {
    var x := Referred(a, p, b);
    RefRun(c, a, p, b);
    OneStep(c, a, RefStep(a, p, b));
    var more;
    more, y := LockRun(c, a, p, b, x);
    Joined(c, a, [RefStep(a, p, b)], P.With(a, b, x), more, P.With(a, b, y));
    sts := [RefStep(a, p, b)] + more;
  }

  /** What a client's world is after `bread` gave it buffer `i` for block `b`. */
  ghost predicate Fetches(dev: nat, w: World, w': World, i: int, b: nat, p: P.Pid) {
    && b < |w.v.d| && |w.v.users| == |w.v.s| && Fetched(dev, w.v.s, w'.v.s, i, b, w.v.d[b])
    && w' == World(w.v.(s := w'.v.s, users := w.v.users[i := w.v.users[i] + 1]),
                   if i in w.locks then w.locks else w.locks[i := p], w.out)
  }

  /** What the lemmas below need to know of the clients' world. */
  lemma SoundParts(l: Layout, dev: nat, v: Board)
    requires Sound(l, dev, v)
    ensures dev != 0 && Unique(v.s) && Counted(v) && Held(l, dev, v) && Pinned(dev, v.s, v.lh, v.pin)
    ensures AllHome(l, v.lh)
  {
    assert Serving(0);
  }

  lemma CoupledParts(l: Layout, dev: nat, w: World, a: P.State)
    requires Coupled(l, dev, w, a)
    ensures SameBuffers(l, dev, w, a) && SameDisk(l, w, a) && SameLog(w, a)
  {
    assert Coupling(0, w);
  }

  /** Disk and log have no part in a step that touches one buffer. */
  lemma Recoupled(l: Layout, dev: nat, w: World, w': World, a: P.State, a': P.State)
    requires Coupled(l, dev, w, a) && SameBuffers(l, dev, w', a')
    requires w'.v.d == w.v.d && w'.v.last == w.v.last && w'.v.lh == w.v.lh && w'.out == w.out
    requires a' == a.(cache := a'.cache)
    ensures Coupled(l, dev, w', a')
  {
    CoupledParts(l, dev, w, a);
  }

  lemma OpenCouples(l: Layout, dev: nat, c: P.Config, w: World, w': World, a: P.State, i: int, b: nat, p: P.Pid)
      returns (sts: seq<P.Step>, a': P.State)
    requires Sound(l, dev, w.v) && Sound(l, dev, w'.v) && P.Discipline(a) && Coupled(l, dev, w, a)
    requires l.Home(b) && MayRefer(a, p, b) && Fetches(dev, w, w', i, b, p)
    ensures Leads(c, a, sts, a') && Coupled(l, dev, w', a')
    ensures sts == if i in w.locks then [RefStep(a, p, b)] else OpenSteps(a, p, b)
  {
    SoundParts(l, dev, w.v);
    SoundParts(l, dev, w'.v);
    CoupledParts(l, dev, w, a);
    Finds(l, dev, w, a, i, b);
    var y := Referred(a, p, b);
    if i in w.locks {
      RefRun(c, a, p, b);
      OneStep(c, a, RefStep(a, p, b));
      sts := [RefStep(a, p, b)];
    } else {
      sts, y := OpenRun(c, a, p, b);
    }
    a' := P.With(a, b, y);
    OpenMirror(w, w', a, a', i, b, p, dev, y);
    OneBuffer(l, dev, w, w', a, a', i, b, y);
    Recoupled(l, dev, w, w', a, a');
  }

  lemma OpenMirror(w: World, w': World, a: P.State, a': P.State, i: int, b: nat, p: P.Pid, dev: nat, y: P.CBuf)
    requires Fetches(dev, w, w', i, b, p) && MayRefer(a, p, b) && a' == P.With(a, b, y)
    requires if w.v.s[i].refcnt > 0 then w.v.s[i].blockno == b && Mirror(w, a, i)
             else i !in w.locks && i !in w.v.held && i !in w.v.pin && w.v.users[i] == 0
    requires w.v.s[i].refcnt == 0 && b in a.cache ==> a.cache[b].refs == {} && !a.cache[b].changed
    requires y == Referred(a, p, b).(valid := true, data := y.data,
                                     holder := P.Held(if i in w.locks then w.locks[i] else p))
    ensures Mirror(w', a', i) && w'.v.s[i].refcnt > 0 && w'.v.s[i].Tagged(dev, b)
  {
    if w.v.s[i].refcnt > 0 {
      CountMore(a.cache[b].refs, p, w.v.users[i]);
    } else {
      CountOne(p);
    }
  }

  /** A waiting process gets the lock. */
  lemma ResumeCouples(l: Layout, dev: nat, c: P.Config, w: World, a: P.State, i: int, p: P.Pid)
    requires Sound(l, dev, w.v) && Coupled(l, dev, w, a) && Used(l, dev, w.v.s, i) && i !in w.locks
    requires w.v.s[i].blockno in a.cache && P.Proc(p) in a.cache[w.v.s[i].blockno].refs
    ensures P.Enabled(c, a, P.Lock(p, w.v.s[i].blockno))
    ensures Coupled(l, dev, w.(locks := w.locks[i := p]), P.Do(c, a, P.Lock(p, w.v.s[i].blockno)))
  {
    SoundParts(l, dev, w.v);
    CoupledParts(l, dev, w, a);
    var b := w.v.s[i].blockno;
    var a' := P.Do(c, a, P.Lock(p, b));
    OneBuffer(l, dev, w, w.(locks := w.locks[i := p]), a, a', i, b, a'.cache[b]);
    Recoupled(l, dev, w, w.(locks := w.locks[i := p]), a, a');
  }

  /** Process `p` has locked buffer `i`. */
  predicate Locked(w: World, i: int, p: P.Pid) {
    i in w.locks && w.locks[i] == p
  }

  lemma ChangeCouples(l: Layout, dev: nat, c: P.Config, w: World, w': World, a: P.State, i: int, p: P.Pid, data: Block)
    requires Sound(l, dev, w.v) && Sound(l, dev, w'.v) && Coupled(l, dev, w, a) && Locked(w, i, p) && p in a.ops
    requires 0 <= i < |w.v.s| && w.v.s[i].blockno < |w.v.last|
    requires w' == w.(v := w.v.(s := w.v.s[i := w.v.s[i].(data := data)], held := w.v.held + {i},
                                last := w.v.last[w.v.s[i].blockno := data]))
    ensures P.Enabled(c, a, P.Modify(p, w.v.s[i].blockno, data))
    ensures Coupled(l, dev, w', P.Do(c, a, P.Modify(p, w.v.s[i].blockno, data)))
  {
    SoundParts(l, dev, w.v);
    SoundParts(l, dev, w'.v);
    CoupledParts(l, dev, w, a);
    var b := w.v.s[i].blockno;
    assert Mirror(w, a, i);
    var a' := P.Do(c, a, P.Modify(p, b, data));
    OneBuffer(l, dev, w, w', a, a', i, b, a'.cache[b]);
  }

  /** `log_write` on a buffer, in the code. */
  ghost function LogWritten(v: Board, i: int): Board
    requires 0 <= i < |v.s|
  {
    var b := v.s[i].blockno;
    if b in v.lh then v.(held := v.held - {i})
    else v.(held := v.held - {i}, lh := v.lh + [b], pin := v.pin + [i],
            s := v.s[i := v.s[i].(refcnt := v.s[i].refcnt + 1)])
  }

  lemma LogCouples(l: Layout, dev: nat, c: P.Config, w: World, w': World, a: P.State, i: int, p: P.Pid)
    requires Sound(l, dev, w.v) && Sound(l, dev, w'.v) && Coupled(l, dev, w, a) && Locked(w, i, p) && 0 <= i < |w.v.s|
    requires P.WantsLog(c, a, p, w.v.s[i].blockno) && |w.v.lh| < c.logBlocks && w' == w.(v := LogWritten(w.v, i))
    ensures P.Enabled(c, a, P.LogWrite(p, w.v.s[i].blockno))
    ensures Coupled(l, dev, w', P.Do(c, a, P.LogWrite(p, w.v.s[i].blockno)))
  {
    SoundParts(l, dev, w'.v);
    CoupledParts(l, dev, w, a);
    LogAgrees(w, a, w.v.s[i].blockno);
    LogBuffers(l, dev, w, w', a, i, p);
    LogSame(l, w, w', a, i, p);
  }

  lemma LogBuffers(l: Layout, dev: nat, w: World, w': World, a: P.State, i: int, p: P.Pid)
    requires dev != 0 && Unique(w'.v.s) && SameBuffers(l, dev, w, a) && Locked(w, i, p) && 0 <= i < |w.v.s|
    requires w' == w.(v := LogWritten(w.v, i)) && P.Holds(a, p, w.v.s[i].blockno) && p in a.ops
    requires w.v.s[i].blockno in a.lh <==> w.v.s[i].blockno in w.v.lh
    ensures SameBuffers(l, dev, w', P.Logged(a, p, w.v.s[i].blockno))
  {
    var b := w.v.s[i].blockno;
    var a' := P.Logged(a, p, b);
    LogMirror(w, w', a, i, p);
    OneBuffer(l, dev, w, w', a, a', i, b, a'.cache[b]);
  }

  lemma LogSame(l: Layout, w: World, w': World, a: P.State, i: int, p: P.Pid)
    requires 0 <= i < |w.v.s| && SameDisk(l, w, a) && SameLog(w, a) && w' == w.(v := LogWritten(w.v, i))
    requires w.v.s[i].blockno in a.lh <==> w.v.s[i].blockno in w.v.lh
    requires P.Holds(a, p, w.v.s[i].blockno) && p in a.ops
    ensures SameDisk(l, w', P.Logged(a, p, w.v.s[i].blockno)) && SameLog(w', P.Logged(a, p, w.v.s[i].blockno))
  {
    var b := w.v.s[i].blockno;
    assert a.ops[p := a.ops[p] + {b}].Keys == a.ops.Keys;
  }

  lemma LogAgrees(w: World, a: P.State, b: nat)
    requires SameLog(w, a)
    ensures b in a.lh <==> b in w.v.lh
  {
  }

  lemma LogMirror(w: World, w': World, a: P.State, i: int, p: P.Pid)
    requires 0 <= i < |w.v.s| == |w.v.users| && Mirror(w, a, i) && w' == w.(v := LogWritten(w.v, i))
    requires w.v.s[i].blockno in a.lh <==> w.v.s[i].blockno in w.v.lh
    requires P.Holds(a, p, w.v.s[i].blockno) && p in a.ops
    ensures Mirror(w', P.Logged(a, p, w.v.s[i].blockno), i)
  {
    CountPins(a.cache[w.v.s[i].blockno].refs, w.v.users[i]);
  }

  lemma CloseCouples(l: Layout, dev: nat, c: P.Config, w: World, w': World, a: P.State, i: int, p: P.Pid)
    requires Sound(l, dev, w.v) && Sound(l, dev, w'.v) && P.Discipline(a) && Coupled(l, dev, w, a) && Locked(w, i, p)
    requires 0 <= i < |w.v.s| == |w.v.users| && i !in w.v.held && w.v.s[i].refcnt > 0
    requires w' == World(w.v.(s := w.v.s[i := w.v.s[i].(refcnt := w.v.s[i].refcnt - 1)],
                              users := w.v.users[i := w.v.users[i] - 1]), w.locks - {i}, w.out)
    ensures P.Enabled(c, a, P.Release(p, w.v.s[i].blockno))
    ensures Coupled(l, dev, w', P.Do(c, a, P.Release(p, w.v.s[i].blockno)))
  {
    SoundParts(l, dev, w.v);
    SoundParts(l, dev, w'.v);
    CoupledParts(l, dev, w, a);
    var b := w.v.s[i].blockno;
    assert Mirror(w, a, i);
    CountLess(a.cache[b].refs, p, w.v.users[i]);
    var a' := P.Do(c, a, P.Release(p, b));
    OneBuffer(l, dev, w, w', a, a', i, b, a'.cache[b]);
    Recoupled(l, dev, w, w', a, a');
  }

  /** `begin_op`, and an `end_op` that is not the last. */
  lemma CountCouples(l: Layout, dev: nat, w: World, a: P.State, ops: map<P.Pid, set<nat>>)
    requires Coupled(l, dev, w, a)
    ensures Coupled(l, dev, w.(out := |ops|), a.(ops := ops))
  {
    CoupledParts(l, dev, w, a);
    assert forall i :: Used(l, dev, w.v.s, i) ==> Mirror(w, a, i) && Mirror(w.(out := |ops|), a.(ops := ops), i);
  }

  /** After a commit, in the protocol. */
  ghost predicate Done(c: P.Config, a: P.State, a': P.State) {
    && P.Inv(c, a') && Unpins(a, a', a.lh)
    && a'.phase == P.Idle && a'.lh == [] && a'.ops == map[] && a'.last == a.last
  }

  /** And in the code. */
  ghost predicate Committed(l: Layout, w: World, w': World) {
    && w'.v.held == w.v.held == {} && w'.v.users == w.v.users && w'.v.last == w.v.last
    && w'.v.lh == [] && w'.v.pin == []
    && Unpinned(w.v.s, w'.v.s, w.v.pin) && w'.locks == w.locks && w'.out == 0
    && |w'.v.d| == |w.v.d| == |w.v.last| && forall b :: l.Home(b) ==> b < |w'.v.d| && w'.v.d[b] == w.v.last[b]
  }

  lemma CommitCouples(l: Layout, dev: nat, c: P.Config, w: World, w': World, a: P.State, a': P.State)
    requires Sound(l, dev, w.v) && Sound(l, dev, w'.v) && P.Inv(c, a) && Coupled(l, dev, w, a) && Committed(l, w, w')
    requires Done(c, a, a')
    ensures Coupled(l, dev, w', a')
  {
    SoundParts(l, dev, w.v);
    SoundParts(l, dev, w'.v);
    CoupledParts(l, dev, w, a);
    CommitBuffers(l, dev, w, w', a, a');
    assert forall b: nat :: b < |a'.disk| ==> !P.Dirty(a', b);
    assert SameDisk(l, w', a') && SameLog(w', a');
  }

  lemma CommitBuffers(l: Layout, dev: nat, w: World, w': World, a: P.State, a': P.State)
    requires dev != 0 && Unique(w.v.s) && Counted(w.v) && Counted(w'.v) && Pinned(dev, w.v.s, w.v.lh, w.v.pin)
    requires SameBuffers(l, dev, w, a) && SameLog(w, a) && Committed(l, w, w') && Unpins(a, a', a.lh)
    requires P.Discipline(a)
    ensures SameBuffers(l, dev, w', a')
  {
    forall i | Used(l, dev, w'.v.s, i) ensures Mirror(w', a', i) {
      CommitMirror(l, dev, w, w', a, a', i);
    }
    forall i | i in w.locks ensures Used(l, dev, w'.v.s, i) {
      var b := w.v.s[i].blockno;
      assert Mirror(w, a, i);
      CountSome(a.cache[b].refs, w.locks[i], w.v.users[i]);
    }
    forall b | b in a'.cache && a'.cache[b].refs != {} ensures InUse(l, dev, w'.v.s, b) {
      StillInUse(l, dev, w, w', a, a', b);
    }
  }

  lemma CountSome(refs: set<P.Ref>, p: P.Pid, n: int)
    requires Count(refs, n) && P.Proc(p) in refs
    ensures n > 0
  {
    assert Tallying(0, refs);
    assert P.Proc(p) in refs - {P.Pin};
  }

  /** The pinned buffers are those of the logged blocks. */
  lemma PinsAreLogged(dev: nat, w: World, a: P.State, i: int)
    requires dev != 0 && Unique(w.v.s) && Pinned(dev, w.v.s, w.v.lh, w.v.pin) && SameLog(w, a)
    requires 0 <= i < |w.v.s| && w.v.s[i].dev == dev
    ensures i in w.v.pin <==> w.v.s[i].blockno in a.lh
  {
    if w.v.s[i].blockno in a.lh {
      var k :| 0 <= k < |a.lh| && a.lh[k] == w.v.s[i].blockno;
      assert w.v.s[w.v.pin[k]].Tagged(dev, w.v.s[i].blockno);
    }
  }

  lemma CommitMirror(l: Layout, dev: nat, w: World, w': World, a: P.State, a': P.State, i: int)
    requires dev != 0 && Unique(w.v.s) && Pinned(dev, w.v.s, w.v.lh, w.v.pin) && SameBuffers(l, dev, w, a)
    requires SameLog(w, a)
    requires Committed(l, w, w') && Unpins(a, a', a.lh) && Used(l, dev, w'.v.s, i)
    ensures Mirror(w', a', i)
  {
    assert Used(l, dev, w.v.s, i) && Mirror(w, a, i);
    PinsAreLogged(dev, w, a, i);
    CountPins(a.cache[w.v.s[i].blockno].refs, w.v.users[i]);
  }

  lemma StillInUse(l: Layout, dev: nat, w: World, w': World, a: P.State, a': P.State, b: nat)
    requires dev != 0 && Unique(w.v.s) && Counted(w'.v) && Pinned(dev, w.v.s, w.v.lh, w.v.pin)
    requires SameBuffers(l, dev, w, a) && SameLog(w, a) && Committed(l, w, w') && Unpins(a, a', a.lh)
    requires b in a'.cache && a'.cache[b].refs != {}
    ensures InUse(l, dev, w'.v.s, b)
  {
    assert InUse(l, dev, w.v.s, b);
    var i :| Used(l, dev, w.v.s, i) && w.v.s[i].blockno == b;
    assert Mirror(w, a, i);
    PinsAreLogged(dev, w, a, i);
    SomeProcess(a.cache[b].refs, a'.cache[b].refs, w.v.users[i]);
    assert w'.v.s[i].refcnt > 0;
    assert Used(l, dev, w'.v.s, i) && w'.v.s[i].blockno == b;
  }

  lemma SomeProcess(refs: set<P.Ref>, refs': set<P.Ref>, n: int)
    requires Count(refs, n) && refs' <= refs && refs' != {} && P.Pin !in refs'
    ensures n > 0
  {
    var r :| r in refs';
    CountSome(refs, r.p, n);
  }

  // -------- The machine --------

  ghost predicate Standing(z: int) { true }

  /** A state that some run of the protocol reaches. To be opened by mentioning `Standing`. */
  ghost predicate Stands(c: P.Config, a: P.State) {
    forall z :: Standing(z) ==> P.Inv(c, a) && P.Reachable(c, a)
  }

  lemma StandsParts(c: P.Config, a: P.State)
    requires Stands(c, a)
    ensures P.Inv(c, a) && P.Reachable(c, a) && P.Discipline(a)
  {
    assert Standing(0);
  }

  lemma StandsOn(c: P.Config, a: P.State, sts: seq<P.Step>, a': P.State)
    requires Stands(c, a) && Leads(c, a, sts, a')
    ensures Stands(c, a')
  {
    assert Standing(0);
    LeadsKeeps(c, a, sts, a');
  }

  /** The clients of the real cache and log, with the sleep locks of the buffers, and the state of the
      protocol that all this amounts to. */
  class Machine {
    const c: Clients
    var locks: map<int, P.Pid>
    ghost var abs: P.State

    ghost function Cfg(): P.Config {
      P.Config(c.g.l.cap, c.g.maxOp)
    }

    ghost function Now(): World
      reads this, c, c.g, c.g.bc
    {
      World(c.Now(), locks, c.g.outstanding)
    }

    ghost predicate Valid()
      reads this, c, c.g, c.g.bc, c.g.bc.buf
    {
      c.Valid() && !c.g.committing && Stands(Cfg(), abs) && Coupled(c.g.l, c.g.dev, Now(), abs)
    }

    /** After boot: the protocol is in an initial state. */
    constructor (c: Clients)
      requires c.Valid() && c.held == {} && c.g.lh == [] && c.g.outstanding == 0 && !c.g.committing
      requires c.last == c.g.bc.disk
      requires forall i :: 0 <= i < c.g.bc.n ==> c.users[i] == 0
      ensures Valid() && this.c == c && locks == map[] && P.Init(abs)
    {
      this.c, locks := c, map[];
      abs := P.State(c.g.bc.disk, [], [], map[], [], map[], P.Idle, c.g.bc.disk, c.g.bc.disk);
      new;
      BootStands(Cfg(), abs);
      BootCouples(c.g.l, c.g.dev, Now(), abs);
    }

    /** After a reboot: the protocol is where a crash and recovery have left it. */
    constructor After(c: Clients, ghost a: P.State)
      requires c.Valid() && c.held == {} && c.g.lh == [] && c.g.outstanding == 0 && !c.g.committing
      requires c.last == c.g.bc.disk
      requires forall i :: 0 <= i < c.g.bc.n ==> c.users[i] == 0
      requires Stands(P.Config(c.g.l.cap, c.g.maxOp), a) && P.Init(a) && SameHome(c.g.l, a.disk, c.g.bc.disk)
      ensures Valid() && this.c == c && locks == map[] && abs == a
    {
      this.c, locks, abs := c, map[], a;
      new;
      BootCouples(c.g.l, c.g.dev, Now(), abs);
    }

    /** `begin_op`: the code admits the operation if and only if the protocol does. */
    method Begin(p: P.Pid) returns (ok: bool)
      requires Valid() && p !in abs.ops
      modifies this`abs, c.g`outstanding
      ensures Valid() && (ok <==> P.Enabled(Cfg(), old(abs), P.Begin(p)))
      ensures abs == if ok then P.Do(Cfg(), old(abs), P.Begin(p)) else old(abs)
    {
      CoupledParts(c.g.l, c.g.dev, Now(), abs);
      ok := c.g.BeginOp();
      if ok {
        OneStep(Cfg(), abs, P.Begin(p));
        StandsOn(Cfg(), abs, [P.Begin(p)], P.Do(Cfg(), abs, P.Begin(p)));
        CountCouples(c.g.l, c.g.dev, old(Now()), abs, abs.ops[p := {}]);
        abs := P.Do(Cfg(), abs, P.Begin(p));
      }
    }

    /** `bread`: the process refers to the buffer and locks it, and the block is filled if need be; or it
        waits, if another has locked it. */
    method Open(p: P.Pid, b: nat) returns (i: int)
      requires Valid() && c.g.l.Home(b) && MayRefer(abs, p, b)
      modifies this, c`users, c.g.bc.buf, c.g.bc`slots
      ensures Valid() && (i == -1 <==> !Cached(old(c.g.bc.slots), c.g.dev, b) && !HasFree(old(c.g.bc.slots)))
      ensures i == -1 ==> abs == old(abs) && locks == old(locks)
      ensures i != -1 ==>
                && Leads(Cfg(), old(abs),
                         if i in old(locks) then [RefStep(old(abs), p, b)] else OpenSteps(old(abs), p, b), abs)
                && locks == (if i in old(locks) then old(locks) else old(locks)[i := p])
                && HoldsHome(c.g.l, c.g.dev, c.g.bc.slots, i)
                && c.g.bc.slots[i].blockno == b && c.g.bc.slots[i].data == c.last[b]
    {
      ghost var w := Now();
      i := c.Open(b);
      if i != -1 {
        if i !in locks { locks := locks[i := p]; }
        ghost var sts, a' := OpenRefines(c.g.l, c.g.dev, Cfg(), w, Now(), abs, i, b, p);
        abs := a';
      }
    }

    /** A process that waited for a buffer gets its lock. */
    method Resume(p: P.Pid, i: nat)
      requires Valid() && Used(c.g.l, c.g.dev, c.g.bc.slots, i) && i !in locks
      requires c.g.bc.slots[i].blockno in abs.cache && P.Proc(p) in abs.cache[c.g.bc.slots[i].blockno].refs
      modifies this
      ensures Valid() && locks == old(locks)[i := p] && P.Enabled(Cfg(), old(abs), P.Lock(p, c.g.bc.slots[i].blockno))
      ensures abs == P.Do(Cfg(), old(abs), P.Lock(p, c.g.bc.slots[i].blockno))
    {
      ghost var a, st := abs, P.Lock(p, c.g.bc.slots[i].blockno);
      ResumeCouples(c.g.l, c.g.dev, Cfg(), Now(), a, i, p);
      Step(st);
      locks := locks[i := p];
    }

    /** One step of the protocol. */
    ghost method Step(st: P.Step)
      requires Stands(Cfg(), abs) && P.Enabled(Cfg(), abs, st)
      modifies this`abs
      ensures Stands(Cfg(), abs) && abs == P.Do(Cfg(), old(abs), st)
    {
      OneStep(Cfg(), abs, st);
      StandsOn(Cfg(), abs, [st], P.Do(Cfg(), abs, st));
      abs := P.Do(Cfg(), abs, st);
    }

    /** The holder of a buffer changes it, inside an operation. */
    method Change(p: P.Pid, i: nat, data: Block)
      requires Valid() && Locked(Now(), i, p) && p in abs.ops && |data| == c.g.l.words
      modifies this`abs, c`held, c`last, c.g.bc.buf, c.g.bc`slots
      ensures Valid() && i < |old(c.g.bc.slots)|
      ensures P.Enabled(Cfg(), old(abs), P.Modify(p, old(c.g.bc.slots)[i].blockno, data))
      ensures abs == P.Do(Cfg(), old(abs), P.Modify(p, old(c.g.bc.slots)[i].blockno, data))
    {
      ghost var w := Now();
      StandsParts(Cfg(), abs);
      LockedParts(c.g.l, c.g.dev, w, abs, i);
      LockedUser(c.g.l, c.g.dev, w, abs, i);
      c.Change(i, data);
      ChangeCouples(c.g.l, c.g.dev, Cfg(), w, Now(), abs, i, p, data);
      Step(P.Modify(p, w.v.s[i].blockno, data));
    }

    /** `log_write` by an operation that keeps to its budget: the code panics if and only if the protocol's
        step is not enabled. */
    method LogWrite(p: P.Pid, i: nat) returns (ok: bool)
      requires Valid() && Locked(Now(), i, p) && i in c.held && i < c.g.bc.n
      requires P.WantsLog(Cfg(), abs, p, c.g.bc.slots[i].blockno)
      modifies this`abs, c`held, c.g`lh, c.g`pin, c.g.bc.buf, c.g.bc`slots
      ensures ok <==> P.Enabled(Cfg(), old(abs), P.LogWrite(p, old(c.g.bc.slots)[i].blockno))
      ensures ok ==> Valid() && abs == P.Do(Cfg(), old(abs), P.LogWrite(p, old(c.g.bc.slots)[i].blockno))
    {
      ghost var w := Now();
      SomeOutstanding(c.g.l, c.g.dev, w, abs, p);
      ok := c.Log(i);
      if ok {
        LogCouples(c.g.l, c.g.dev, Cfg(), w, Now(), abs, i, p);
        Step(P.LogWrite(p, w.v.s[i].blockno));
      }
    }

    /** `brelse` of a buffer whose changes have been logged. */
    method Close(p: P.Pid, i: nat)
      requires Valid() && Locked(Now(), i, p) && i !in c.held && i < c.g.bc.n
      modifies this, c`users, c.g.bc.buf, c.g.bc`slots, c.g.bc`order, c.g.bc`stamp, c.g.bc`now
      ensures Valid() && locks == old(locks) - {i}
      ensures P.Enabled(Cfg(), old(abs), P.Release(p, old(c.g.bc.slots)[i].blockno))
      ensures abs == P.Do(Cfg(), old(abs), P.Release(p, old(c.g.bc.slots)[i].blockno))
    {
      ghost var w := Now();
      StandsParts(Cfg(), abs);
      LockedParts(c.g.l, c.g.dev, w, abs, i);
      LockedUser(c.g.l, c.g.dev, w, abs, i);
      c.Close(i);
      locks := locks - {i};
      CloseCouples(c.g.l, c.g.dev, Cfg(), w, Now(), abs, i, p);
      Step(P.Release(p, w.v.s[i].blockno));
    }

    /** `end_op` by an operation that has logged all its changes. Unless it is the last, the protocol takes
        one step; the last one takes it through a whole commit, which does not have to wait for a lock. */
    method End(p: P.Pid) returns (ok: bool, ghost sts: seq<P.Step>)
      requires Valid() && p in abs.ops && forall i :: i in c.held ==> !Locked(Now(), i, p)
      requires c.g.outstanding == 1 ==> NoneLocked(Now())
      modifies this`abs, c.g`outstanding, c.g`committing, c.g`lh, c.g`pin, c.g.bc.buf, c.g.bc
      ensures c.g.outstanding == old(c.g.outstanding) - 1
      ensures ok <==> c.g.outstanding > 0 || old(c.g.lh) == [] || HasFree(old(c.g.bc.slots))
      ensures ok ==> Valid() && Leads(Cfg(), old(abs), sts, abs) && sts != [] && sts[0] == P.End(p)
      ensures ok && c.g.outstanding > 0 ==> sts == [P.End(p)]
      ensures ok && c.g.outstanding == 0 ==> abs.lh == [] && abs.ops == map[] && abs.last == old(abs.last)
    {
      ghost var w, a := Now(), abs;
      EndEnabled(c.g.l, c.g.dev, Cfg(), w, a, p);
      OneStep(Cfg(), a, P.End(p));
      sts := [P.End(p)];
      if c.g.outstanding == 1 { LastEnd(c.g.l, c.g.dev, Cfg(), w, a, p); }
      ok := c.End();
      if !ok { return; }
      if c.g.outstanding > 0 {
        Step(P.End(p));
        EndCouples(c.g.l, c.g.dev, Cfg(), w, a, p);
      } else {
        sts, abs := CommitRefines(c.g.l, c.g.dev, Cfg(), w, Now(), a, p);
      }
    }
  }

  lemma OpenRefines(l: Layout, dev: nat, c: P.Config, w: World, w': World, a: P.State, i: int, b: nat, p: P.Pid)
      returns (sts: seq<P.Step>, a': P.State)
    requires Sound(l, dev, w.v) && Sound(l, dev, w'.v) && Stands(c, a) && Coupled(l, dev, w, a)
    requires l.Home(b) && MayRefer(a, p, b) && Fetches(dev, w, w', i, b, p)
    ensures Leads(c, a, sts, a') && Coupled(l, dev, w', a') && Stands(c, a')
    ensures sts == if i in w.locks then [RefStep(a, p, b)] else OpenSteps(a, p, b)
  {
    StandsParts(c, a);
    sts, a' := OpenCouples(l, dev, c, w, w', a, i, b, p);
    StandsOn(c, a, sts, a');
  }

  lemma CommitRefines(l: Layout, dev: nat, c: P.Config, w: World, w': World, a: P.State, p: P.Pid)
      returns (sts: seq<P.Step>, a': P.State)
    requires Sound(l, dev, w.v) && Sound(l, dev, w'.v) && Stands(c, a) && Coupled(l, dev, w, a) && Committed(l, w, w')
    requires P.Enabled(c, a, P.End(p)) && a.ops.Keys == {p} && LogUnlocked(a)
    ensures Leads(c, a, sts, a') && Coupled(l, dev, w', a') && Stands(c, a') && sts != [] && sts[0] == P.End(p)
    ensures a'.lh == [] && a'.ops == map[] && a'.last == a.last
  {
    StandsParts(c, a);
    sts, a' := CommitRun(c, a, p);
    CommitCouples(l, dev, c, w, w', a, a');
    StandsOn(c, a, sts, a');
  }

  /** No logged block is locked. */
  ghost predicate NoneLocked(w: World) {
    forall i :: i in w.locks && 0 <= i < |w.v.s| ==> w.v.s[i].blockno !in w.v.lh
  }

  lemma EndEnabled(l: Layout, dev: nat, c: P.Config, w: World, a: P.State, p: P.Pid)
    requires Sound(l, dev, w.v) && Coupled(l, dev, w, a) && Stands(c, a) && p in a.ops
    requires forall i :: i in w.v.held ==> !Locked(w, i, p)
    ensures P.Enabled(c, a, P.End(p)) && w.out >= 1
  {
    StandsParts(c, a);
    CoupledParts(l, dev, w, a);
    forall b: nat | P.Holds(a, p, b) ensures !a.cache[b].changed {
      assert InUse(l, dev, w.v.s, b);
      var i :| Used(l, dev, w.v.s, i) && w.v.s[i].blockno == b;
      assert Mirror(w, a, i);
    }
    SomeOutstanding(l, dev, w, a, p);
  }

  lemma EndCouples(l: Layout, dev: nat, c: P.Config, w: World, a: P.State, p: P.Pid)
    requires Coupled(l, dev, w, a) && P.Enabled(c, a, P.End(p)) && w.out > 1
    ensures Coupled(l, dev, w.(out := w.out - 1), P.Do(c, a, P.End(p)))
  {
    CoupledParts(l, dev, w, a);
    assert (a.ops - {p}).Keys == a.ops.Keys - {p};
    CountCouples(l, dev, w, a, a.ops - {p});
  }

  lemma LastEnd(l: Layout, dev: nat, c: P.Config, w: World, a: P.State, p: P.Pid)
    requires Sound(l, dev, w.v) && Coupled(l, dev, w, a) && Stands(c, a) && p in a.ops && w.out == 1 && NoneLocked(w)
    requires forall i :: i in w.v.held ==> !Locked(w, i, p)
    ensures w.v.held == {} && a.ops.Keys == {p} && LogUnlocked(a)
  {
    StandsParts(c, a);
    SoundParts(l, dev, w.v);
    CoupledParts(l, dev, w, a);
    OnlyOne(a.ops.Keys, p);
    HeldAreLocked(l, dev, w, a, p);
    assert forall i :: i !in w.v.held;
    forall k | 0 <= k < |a.lh| && a.lh[k] in a.cache ensures a.cache[a.lh[k]].holder == P.Nobody {
      var i := w.v.pin[k];
      assert w.v.s[i].blockno == w.v.lh[k] && w.v.lh[k] in w.v.lh;
      assert Used(l, dev, w.v.s, i) && Mirror(w, a, i);
    }
  }

  lemma HeldAreLocked(l: Layout, dev: nat, w: World, a: P.State, p: P.Pid)
    requires Counted(w.v) && Held(l, dev, w.v) && SameBuffers(l, dev, w, a) && P.Discipline(a) && a.ops.Keys == {p}
    ensures forall i :: i in w.v.held ==> Locked(w, i, p)
  {
    forall i | i in w.v.held ensures Locked(w, i, p) {
      assert Used(l, dev, w.v.s, i) && Mirror(w, a, i);
    }
  }

  lemma OnlyOne(s: set<P.Pid>, p: P.Pid)
    requires p in s && |s| == 1
    ensures s == {p}
  {
    assert |s - {p}| == 0;
  }

  lemma LockedParts(l: Layout, dev: nat, w: World, a: P.State, i: int)
    requires Sound(l, dev, w.v) && Coupled(l, dev, w, a) && i in w.locks
    ensures HoldsHome(l, dev, w.v.s, i) && i < |w.v.users| && w.v.s[i].blockno < |w.v.last|
  {
    CoupledParts(l, dev, w, a);
    assert Mirror(w, a, i);
  }

  lemma LockedUser(l: Layout, dev: nat, w: World, a: P.State, i: int)
    requires Coupled(l, dev, w, a) && i in w.locks && P.Discipline(a)
    ensures 0 <= i < |w.v.users| && w.v.users[i] > 0
  {
    CoupledParts(l, dev, w, a);
    assert Mirror(w, a, i);
    CountSome(a.cache[w.v.s[i].blockno].refs, w.locks[i], w.v.users[i]);
  }

  lemma SomeOutstanding(l: Layout, dev: nat, w: World, a: P.State, p: P.Pid)
    requires Coupled(l, dev, w, a) && p in a.ops
    ensures w.out >= 1 && |a.lh| == |w.v.lh|
  {
    CoupledParts(l, dev, w, a);
    assert a.ops.Keys != {};
  }

  lemma BootStands(c: P.Config, a: P.State)
    requires P.Init(a)
    ensures Stands(c, a)
  {
    var ss, sts: seq<P.Step> := [a], [];
    assert P.IsRun(c, ss, sts) && ss[|sts|] == a;
    P.RunInv(c, ss, sts, 0);
  }

  lemma BootCouples(l: Layout, dev: nat, w: World, a: P.State)
    requires Sound(l, dev, w.v) && w.locks == map[] && w.out == 0 && w.v.lh == [] && w.v.last == w.v.d
    requires P.Init(a) && SameHome(l, a.disk, w.v.d) && |w.v.users| == |w.v.s|
    requires forall i :: 0 <= i < |w.v.users| ==> w.v.users[i] == 0
    ensures Coupled(l, dev, w, a)
  {
    SoundParts(l, dev, w.v);
    assert w.v.pin == [];
  }

  // -------- Power failures --------

  lemma UpdatedIsLast(l: Layout, dev: nat, v: Board, t: Txn)
    requires Clean(l, v.d) && Pinned(dev, v.s, v.lh, v.pin) && Shows(l, dev, v) && v.held == {} && TxnWf(l, t)
    requires t == Txn(v.lh, Data(v.s, v.pin))
    ensures SameHome(l, Update(v.d, t), v.last)
  {
    UpdateAt(l, v.d, t, |v.lh|);
    assert InstallWrites(t)[..|v.lh|] == InstallWrites(t) && t.blocks[..|v.lh|] == v.lh;
    forall b | l.Home(b) ensures Update(v.d, t)[b] == v.last[b] {
      if b in v.lh {
        var k :| 0 <= k < |v.lh| && v.lh[k] == b;
        assert HoldsHome(l, dev, v.s, v.pin[k]);
      }
    }
  }

  lemma DenotesSame(l: Layout, d: Disk, h: Disk, h': Disk)
    requires Denotes(l, d, h) && SameHome(l, h, h')
    ensures Denotes(l, d, h')
  {
  }

  /** The power fails after `k` of the writes of the last `end_op`: the disk means what the clients wrote if
      the header write is among them, and otherwise what it meant before. Recoveries that are cut short
      change nothing about that (`CrashRecovery.CrashInRecovery`). */
  lemma PowerFails(l: Layout, dev: nat, v: Board, k: nat)
    requires Sound(l, dev, v) && v.held == {}
    ensures Pinned(dev, v.s, v.lh, v.pin) && Clean(l, v.d)
    ensures var t := Txn(v.lh, Data(v.s, v.pin));
            && TxnWf(l, t)
            && (k <= |CommitWrites(l, v.d, t)| ==>
                  Denotes(l, ApplyAll(v.d, CommitWrites(l, v.d, t)[..k]), if Reached(t, k) then v.last else v.d))
  {
    assert Serving(0);
    var t := Txn(v.lh, Data(v.s, v.pin));
    assert TxnWf(l, t);
    if k <= |CommitWrites(l, v.d, t)| {
      CrashInCommit(l, v.d, v.d, t, k);
      if Reached(t, k) {
        UpdatedIsLast(l, dev, v, t);
        DenotesSame(l, ApplyAll(v.d, CommitWrites(l, v.d, t)[..k]), Update(v.d, t), v.last);
      }
    }
  }

  /** The last operation is about to end: it has logged its changes, and commit need not wait for a lock. */
  ghost predicate Ending(m: Machine, p: P.Pid)
    reads m, m.c, m.c.g, m.c.g.bc
  {
    && p in m.abs.ops && m.c.g.outstanding == 1 && NoneLocked(m.Now())
    && forall i :: i in m.c.held ==> !Locked(m.Now(), i, p)
  }

  /** A reboot, `initlog` included, on a disk that means what the clients of `m` had written, if the crash
      came after the commit point, or what was on the disk before. The protocol crashes and recovers, and
      the clients of the new machine see exactly that. */
  method Reboot(m: Machine, n: nat, d: Disk, ghost p: P.Pid, ghost committed: bool)
      returns (m': Machine, ghost sts: seq<P.Step>)
    requires m.Valid() && n >= 2 && Denotes(m.c.g.l, d, if committed then m.c.last else m.c.g.bc.disk)
    requires committed ==> Ending(m, p)
    ensures fresh(m') && m'.Valid() && m'.Cfg() == m.Cfg() && Leads(m.Cfg(), m.abs, sts, m'.abs)
    ensures P.Init(m'.abs) && m'.abs.last == if committed then m.abs.last else m.abs.durable
    ensures SameHome(m.c.g.l, m'.c.last, if committed then m.c.last else m.c.g.bc.disk)
  {
    ghost var h := if committed then m.c.last else m.c.g.bc.disk;
    SoundParts(m.c.g.l, m.c.g.dev, m.c.Now());
    ghost var a;
    sts, a := RebootRun(m.c.g.l, m.c.g.dev, m.Cfg(), m.Now(), m.abs, p, committed);
    var c := Restart(m.c.g.l, m.c.g.dev, m.c.g.maxOp, n, d, h);
    m' := new Machine.After(c, a);
  }

  /** A new cache, a log that has recovered, and nobody using them. */
  method Restart(l: Layout, dev: nat, maxOp: nat, n: nat, d: Disk, ghost h: Disk) returns (c: Clients)
    requires dev != 0 && n >= 2 && Denotes(l, d, h)
    ensures fresh(c) && fresh(c.g) && fresh(c.g.bc) && fresh(c.g.bc.buf) && c.Valid() && c.held == {}
    ensures c.last == c.g.bc.disk
    ensures c.g.l == l && c.g.dev == dev && c.g.maxOp == maxOp && c.g.lh == [] && c.g.outstanding == 0
    ensures !c.g.committing
    ensures SameHome(l, c.g.bc.disk, h) && forall i :: 0 <= i < c.g.bc.n ==> c.users[i] == 0
  {
    var bc := new BufferCache(n, d);
    var g := new Log(l, dev, maxOp, bc);
    CrashInRecovery(l, d, h, |RecoverWrites(l, d)|);
    assert RecoverWrites(l, d)[..|RecoverWrites(l, d)|] == RecoverWrites(l, d);
    g.Recover();
    c := new Clients(g);
  }

  lemma RebootRun(l: Layout, dev: nat, c: P.Config, w: World, a: P.State, p: P.Pid, committed: bool)
      returns (sts: seq<P.Step>, a': P.State)
    requires Sound(l, dev, w.v) && Stands(c, a) && Coupled(l, dev, w, a)
    requires committed ==> p in a.ops && w.out == 1 && NoneLocked(w) && forall i :: i in w.v.held ==> !Locked(w, i, p)
    ensures Leads(c, a, sts, a') && Stands(c, a') && P.Init(a')
    ensures a'.last == if committed then a.last else a.durable
    ensures SameHome(l, a'.disk, if committed then w.v.last else w.v.d)
  {
    StandsParts(c, a);
    CoupledParts(l, dev, w, a);
    if committed {
      EndEnabled(l, dev, c, w, a, p);
      LastEnd(l, dev, c, w, a, p);
      sts, a' := CommittedRun(c, a, p);
    } else {
      sts, a' := CrashRun(c, a);
    }
    StandsOn(c, a, sts, a');
  }
}
