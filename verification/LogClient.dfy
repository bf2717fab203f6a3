/** The clients of the log on the real buffer cache: bread, change, log_write, brelse, inside
    begin_op and end_op (kernel/log.c, kernel/bio.c). Whatever the cache recycles and whenever a
    commit happens, a block read always has the contents last given to it. */
module LogClients {
  import opened Disks
  import opened Counting
  import opened CrashRecovery
  import opened BufferCaches
  import opened Logs

  /** The cache, the disk and the log, with what the clients know about them: the buffers they have
      changed and not yet logged, how many references they have to each buffer, and the contents last
      given to each block. */
  datatype Board = Board(
    s: seq<Slot>, d: Disk, lh: seq<int>, pin: seq<int>,
    held: set<int>, users: seq<int>, last: seq<Block>)

  /** Every reference is a client's, or the log's own pin. */
  ghost predicate Counted(v: Board) {
    |v.users| == |v.s| && forall i :: 0 <= i < |v.s| ==> v.s[i].refcnt == v.users[i] + (if i in v.pin then 1 else 0)
  }

  /** Buffer `i` holds a home block of the device. */
  predicate HoldsHome(l: Layout, dev: nat, s: seq<Slot>, i: int) {
    0 <= i < |s| && s[i].dev == dev && s[i].valid && l.Home(s[i].blockno)
  }

  /** Some client is changing block `b`. */
  ghost predicate Changing(s: seq<Slot>, held: set<int>, b: int) {
    exists i :: i in held && 0 <= i < |s| && s[i].blockno == b
  }

  /** Cached blocks have the contents last given to them, and so have blocks on disk unless they are
      logged or being changed. */
  ghost predicate Shows(l: Layout, dev: nat, v: Board) {
    && |v.d| == |v.last| == l.nblocks
    && (forall i :: HoldsHome(l, dev, v.s, i) ==> v.s[i].data == v.last[v.s[i].blockno])
    && (forall b :: l.Home(b) && b !in v.lh && !Changing(v.s, v.held, b) ==> v.d[b] == v.last[b])
  }

  /** The log's own view of cache and disk. */
  ghost predicate LogOk(l: Layout, dev: nat, v: Board) {
    && dev != 0 && l.Wf() && AllSized(l, v.d) && Unique(v.s) && Clean(l, v.d)
    && Coherent(l, dev, v.s, v.d, v.lh, v.held) && Pinned(dev, v.s, v.lh, v.pin) && LogIdle(l, dev, v.s)
    && |v.lh| <= l.cap && Distinct(v.lh) && AllHome(l, v.lh)
  }

  ghost predicate Held(l: Layout, dev: nat, v: Board) {
    forall i :: i in v.held ==> HoldsHome(l, dev, v.s, i) && i < |v.users| && v.users[i] > 0
  }

  ghost predicate Serving(z: int) { true }

  /** All of this, to be opened by mentioning `Serving`. */
  ghost predicate Sound(l: Layout, dev: nat, v: Board) {
    forall z :: Serving(z) ==> LogOk(l, dev, v) && Counted(v) && Shows(l, dev, v) && Held(l, dev, v)
  }

  /** Buffer `i` has been referenced for block `b`, recycled if need be, and filled from `disk` unless valid. */
  ghost predicate Fetched(dev: nat, s: seq<Slot>, s': seq<Slot>, i: int, b: nat, disk: Block) {
    && 0 <= i < |s| && (s[i].Tagged(dev, b) || (s[i].refcnt == 0 && !Cached(s, dev, b)))
    && s' == s[i := Filled(Taken(s[i], dev, b), disk)]
  }

  // -------- What each step keeps --------

  /** `bread`: on a hit or a recycled buffer, the block has the contents last given to it. */
  lemma OpenKeeps(l: Layout, dev: nat, v: Board, v': Board, i: int, b: nat)
    requires Sound(l, dev, v) && l.Home(b) && b < |v.d| && 0 <= i < |v.s| == |v.users|
    requires v' == v.(s := v.s[i := Filled(Taken(v.s[i], dev, b), v.d[b])], users := v.users[i := v.users[i] + 1])
    requires v.s[i].Tagged(dev, b) || (v.s[i].refcnt == 0 && !Cached(v.s, dev, b))
    ensures Sound(l, dev, v') && HoldsHome(l, dev, v'.s, i) && b < |v.last|
    ensures v'.s[i].blockno == b && v'.s[i].data == v.last[b] && v'.users[i] > 0
  {
    assert Serving(0);
    OpenLogOk(l, dev, v, v', i, b);
    OpenShows(l, dev, v, v', i, b);
  }

  lemma OpenLogOk(l: Layout, dev: nat, v: Board, v': Board, i: int, b: nat)
    requires LogOk(l, dev, v) && Counted(v) && Held(l, dev, v) && l.Home(b) && b < |v.d| && 0 <= i < |v.s|
    requires v' == v.(s := v.s[i := Filled(Taken(v.s[i], dev, b), v.d[b])], users := v.users[i := v.users[i] + 1])
    requires v.s[i].Tagged(dev, b) || (v.s[i].refcnt == 0 && !Cached(v.s, dev, b))
    ensures LogOk(l, dev, v') && Counted(v')
  {
  }

  lemma OpenShows(l: Layout, dev: nat, v: Board, v': Board, i: int, b: nat)
    requires LogOk(l, dev, v) && Counted(v) && Shows(l, dev, v) && Held(l, dev, v) && l.Home(b) && 0 <= i < |v.s|
    requires v' == v.(s := v.s[i := Filled(Taken(v.s[i], dev, b), v.d[b])], users := v.users[i := v.users[i] + 1])
    requires v.s[i].Tagged(dev, b) || (v.s[i].refcnt == 0 && !Cached(v.s, dev, b))
    ensures Shows(l, dev, v') && Held(l, dev, v')
    ensures v'.s[i].Tagged(dev, b) && v'.s[i].valid && v'.s[i].data == v.last[b] && v.users[i] >= 0
  {
    forall c ensures Changing(v'.s, v.held, c) <==> Changing(v.s, v.held, c) {
      assert forall j :: j in v.held ==> v'.s[j].blockno == v.s[j].blockno;
    }
  }

  lemma ChangeKeeps(l: Layout, dev: nat, v: Board, v': Board, i: nat, data: Block)
    requires Sound(l, dev, v) && HoldsHome(l, dev, v.s, i) && |data| == l.words && |v.last| == l.nblocks
    requires i < |v.users| && v.users[i] > 0
    requires v' == v.(s := v.s[i := v.s[i].(data := data)], held := v.held + {i},
                      last := v.last[v.s[i].blockno := data])
    ensures Sound(l, dev, v')
  {
    assert Serving(0);
    ChangeLogOk(l, dev, v, v', i, data);
    ChangeShows(l, dev, v, v', i, data);
  }

  lemma ChangeLogOk(l: Layout, dev: nat, v: Board, v': Board, i: nat, data: Block)
    requires LogOk(l, dev, v) && Counted(v) && i < |v.s| && |data| == l.words
    requires v'.s == v.s[i := v.s[i].(data := data)] && v'.held == v.held + {i}
    requires v'.d == v.d && v'.lh == v.lh && v'.pin == v.pin && v'.users == v.users
    ensures LogOk(l, dev, v') && Counted(v')
  {
  }

  lemma ChangeShows(l: Layout, dev: nat, v: Board, v': Board, i: nat, data: Block)
    requires dev != 0 && Unique(v.s) && Shows(l, dev, v) && Held(l, dev, v) && HoldsHome(l, dev, v.s, i)
    requires i < |v.users| && v.users[i] > 0
    requires v' == v.(s := v.s[i := v.s[i].(data := data)], held := v.held + {i},
                      last := v.last[v.s[i].blockno := data])
    ensures Shows(l, dev, v') && Held(l, dev, v')
  {
    assert i in v'.held && v'.s[i].blockno == v.s[i].blockno;
    forall b | Changing(v.s, v.held, b) ensures Changing(v'.s, v'.held, b) {
      var j :| j in v.held && 0 <= j < |v.s| && v.s[j].blockno == b;
      assert j in v'.held && v'.s[j].blockno == b;
    }
  }

  lemma ChangingKept(s: seq<Slot>, s': seq<Slot>, held: set<int>)
    requires |s| == |s'| && forall i :: 0 <= i < |s| ==> s[i].blockno == s'[i].blockno
    ensures forall b :: Changing(s, held, b) <==> Changing(s', held, b)
  {
  }

  lemma CloseKeeps(l: Layout, dev: nat, v: Board, v': Board, i: nat)
    requires Sound(l, dev, v) && i < |v.s| == |v.users| && v.users[i] > 0 && i !in v.held && v.s[i].refcnt > 0
    requires v' == v.(s := v.s[i := v.s[i].(refcnt := v.s[i].refcnt - 1)], users := v.users[i := v.users[i] - 1])
    ensures Sound(l, dev, v')
  {
    assert Serving(0);
    CloseLogOk(l, dev, v, v', i);
    CountShows(l, dev, v, v', i);
  }

  lemma CloseLogOk(l: Layout, dev: nat, v: Board, v': Board, i: nat)
    requires LogOk(l, dev, v) && Counted(v) && i < |v.s| && v.users[i] > 0
    requires v' == v.(s := v.s[i := v.s[i].(refcnt := v.s[i].refcnt - 1)], users := v.users[i := v.users[i] - 1])
    ensures LogOk(l, dev, v') && Counted(v')
  {
  }

  /** Reference counts have no part in what clients see. */
  lemma CountShows(l: Layout, dev: nat, v: Board, v': Board, i: nat)
    requires Shows(l, dev, v) && Held(l, dev, v) && i < |v.s| == |v'.s| && i !in v.held && |v'.users| == |v.users|
    requires v'.s == v.s[i := v'.s[i]] && v'.s[i] == v.s[i].(refcnt := v'.s[i].refcnt)
    requires v'.d == v.d && v'.lh == v.lh && v'.held == v.held && v'.last == v.last
    requires forall j :: 0 <= j < |v.users| && j != i ==> v'.users[j] == v.users[j]
    ensures Shows(l, dev, v') && Held(l, dev, v')
  {
    ChangingKept(v.s, v'.s, v.held);
    assert forall j :: HoldsHome(l, dev, v'.s, j) <==> HoldsHome(l, dev, v.s, j);
  }

  /** `log_write`: the block is handed to the log, whose pin is a reference of its own. */
  lemma LogWriteKeeps(l: Layout, dev: nat, v: Board, v': Board, i: nat)
    requires Sound(l, dev, v) && i in v.held && i < |v.s| && |v.lh| < l.cap
    requires if v.s[i].blockno in v.lh then v' == v.(held := v.held - {i})
             else v' == v.(held := v.held - {i}, lh := v.lh + [v.s[i].blockno], pin := v.pin + [i as int],
                           s := v.s[i := v.s[i].(refcnt := v.s[i].refcnt + 1)])
    ensures Sound(l, dev, v')
  {
    assert Serving(0);
    LogWriteLogOk(l, dev, v, v', i);
    LogWriteShows(l, dev, v, v', i);
  }

  lemma LogWriteLogOk(l: Layout, dev: nat, v: Board, v': Board, i: nat)
    requires LogOk(l, dev, v) && Counted(v) && Held(l, dev, v) && i in v.held && i < |v.s| && |v.lh| < l.cap
    requires if v.s[i].blockno in v.lh then v' == v.(held := v.held - {i})
             else v' == v.(held := v.held - {i}, lh := v.lh + [v.s[i].blockno], pin := v.pin + [i as int],
                           s := v.s[i := v.s[i].(refcnt := v.s[i].refcnt + 1)])
    ensures LogOk(l, dev, v')
  {
    assert v.s[i].refcnt > 0 && HoldsHome(l, dev, v.s, i);
    if v.s[i].blockno !in v.lh {
      LogKeeps(l, dev, v.s, i, v.d, v.lh, v.pin, v.held);
    }
  }

  lemma LogWriteShows(l: Layout, dev: nat, v: Board, v': Board, i: nat)
    requires Counted(v) && Pinned(dev, v.s, v.lh, v.pin) && Shows(l, dev, v) && Held(l, dev, v) && i in v.held
    requires i < |v.s|
    requires if v.s[i].blockno in v.lh then v' == v.(held := v.held - {i})
             else v' == v.(held := v.held - {i}, lh := v.lh + [v.s[i].blockno], pin := v.pin + [i as int],
                           s := v.s[i := v.s[i].(refcnt := v.s[i].refcnt + 1)])
    ensures Counted(v') && Shows(l, dev, v') && Held(l, dev, v')
  {
    ChangingKept(v.s, v'.s, v.held);
    forall b | b !in v'.lh && Changing(v.s, v.held, b) ensures Changing(v'.s, v'.held, b) {
      var j :| j in v.held && 0 <= j < |v.s| && v.s[j].blockno == b;
      assert j in v'.held && v'.s[j].blockno == b;
    }
  }

  /** A commit: every pin is dropped, some unreferenced buffers are recycled, and the disk has
      everything the clients wrote. */
  lemma CommitKeeps(l: Layout, dev: nat, v: Board, v': Board, t: Txn)
    requires Sound(l, dev, v) && v.held == {} && v'.held == {} && v'.users == v.users && v'.last == v.last
    requires v'.lh == [] && v'.pin == [] && Unpinned(v.s, v'.s, v.pin) && Unique(v'.s)
    requires Clean(l, v'.d) && AllSized(l, v'.d) && Coherent(l, dev, v'.s, v'.d, [], {}) && LogIdle(l, dev, v'.s)
    requires Clean(l, v.d) && TxnWf(l, t) && Pinned(dev, v.s, v.lh, v.pin) && t == Txn(v.lh, Data(v.s, v.pin))
    requires v'.d == ApplyAll(v.d, CommitWrites(l, v.d, t))
    ensures Sound(l, dev, v') && |v'.d| == |v.last| == l.nblocks && forall b :: l.Home(b) ==> v'.d[b] == v.last[b]
  {
    assert Serving(0);
    CommitParts(l, dev, v, v', t);
  }

  lemma CommitParts(l: Layout, dev: nat, v: Board, v': Board, t: Txn)
    requires dev != 0 && l.Wf() && Counted(v) && Shows(l, dev, v)
    requires v.held == {} && v'.held == {} && v'.users == v.users && v'.last == v.last
    requires v'.lh == [] && v'.pin == [] && Unpinned(v.s, v'.s, v.pin) && Unique(v'.s)
    requires Clean(l, v'.d) && AllSized(l, v'.d) && Coherent(l, dev, v'.s, v'.d, [], {}) && LogIdle(l, dev, v'.s)
    requires Clean(l, v.d) && TxnWf(l, t) && Pinned(dev, v.s, v.lh, v.pin) && t == Txn(v.lh, Data(v.s, v.pin))
    requires v'.d == ApplyAll(v.d, CommitWrites(l, v.d, t))
    ensures LogOk(l, dev, v') && Counted(v') && Shows(l, dev, v') && Held(l, dev, v')
    ensures |v'.d| == |v.last| == l.nblocks && forall b :: l.Home(b) ==> v'.d[b] == v.last[b]
  {
    CommitShows(l, dev, v, t, v'.d);
    CommitCounted(v, v');
    FromDisk(l, dev, v');
  }

  lemma CommitCounted(v: Board, v': Board)
    requires Counted(v) && v'.users == v.users && v'.pin == [] && Unpinned(v.s, v'.s, v.pin)
    ensures Counted(v')
  {
  }

  /** When cached blocks equal the disk and the disk has the last contents, clients see those. */
  lemma FromDisk(l: Layout, dev: nat, v: Board)
    requires Coherent(l, dev, v.s, v.d, [], {}) && |v.d| == |v.last| == l.nblocks
    requires forall b :: l.Home(b) ==> v.d[b] == v.last[b]
    ensures Shows(l, dev, v)
  {
    forall i | HoldsHome(l, dev, v.s, i) ensures v.s[i].data == v.last[v.s[i].blockno] {
      assert v.s[i].data == v.d[v.s[i].blockno];
    }
  }

  lemma CommitShows(l: Layout, dev: nat, v: Board, t: Txn, d': Disk)
    requires Clean(l, v.d) && Pinned(dev, v.s, v.lh, v.pin) && Shows(l, dev, v) && v.held == {} && TxnWf(l, t)
    requires t == Txn(v.lh, Data(v.s, v.pin)) && d' == ApplyAll(v.d, CommitWrites(l, v.d, t))
    ensures |d'| == l.nblocks && forall b :: l.Home(b) ==> d'[b] == v.last[b]
  {
    if v.lh != [] {
      WholeCommit(l, v.d, v.d, t);
      UpdateAt(l, v.d, t, |v.lh|);
      assert InstallWrites(t)[..|v.lh|] == InstallWrites(t) && t.blocks[..|v.lh|] == v.lh;
      forall b | l.Home(b) ensures d'[b] == v.last[b] {
        if b in v.lh {
          var k :| 0 <= k < |v.lh| && v.lh[k] == b;
          assert HoldsHome(l, dev, v.s, v.pin[k]);
        }
      }
    }
  }

  // -------- The steps --------

  ghost function Refcnts(s: seq<Slot>): (r: seq<int>)
    ensures |r| == |s| && forall i :: 0 <= i < |s| ==> r[i] == s[i].refcnt
  {
    seq(|s|, i requires 0 <= i < |s| => s[i].refcnt)
  }

  class Clients {
    const g: Log
    ghost var held: set<int>
    ghost var users: seq<int>
    ghost var last: seq<Block>

    ghost function Now(): Board
      reads this, g, g.bc
    {
      Board(g.bc.slots, g.bc.disk, g.lh, g.pin, held, users, last)
    }

    ghost predicate Valid()
      reads this, g, g.bc, g.bc.buf
    {
      && g.bc.Valid() && |users| == |g.bc.slots| == g.bc.n && |last| == |g.bc.disk| == g.l.nblocks
      && Sound(g.l, g.dev, Now())
    }

    constructor (g: Log)
      requires g.Ok(g.lh, g.pin, {}) && g.lh == [] && Clean(g.l, g.bc.disk)
      ensures Valid() && this.g == g && held == {} && last == g.bc.disk
      ensures forall i :: 0 <= i < g.bc.n ==> users[i] == g.bc.slots[i].refcnt
    {
      this.g := g;
      held, last, users := {}, g.bc.disk, Refcnts(g.bc.slots);
    }

    /** The log can be asked to do its part. */
    lemma LogReady()
      requires Valid()
      ensures g.Ok(g.lh, g.pin, held) && Clean(g.l, g.bc.disk)
      ensures forall i :: i in held ==> HoldsHome(g.l, g.dev, g.bc.slots, i) && g.bc.slots[i].refcnt > 0
    {
      assert Serving(0);
    }

    /** While no client has a buffer and the log is shorter than the cache, some buffer is free. */
    lemma FreeWhileShort()
      requires Valid() && |g.lh| < g.bc.n && forall i :: 0 <= i < g.bc.n ==> users[i] == 0
      ensures HasFree(g.bc.slots)
    {
      assert Serving(0);
      PinsDistinct(g.dev, g.bc.slots, g.lh, g.pin);
      FreeLeft(Now());
    }

    /** When the log is as long as the cache is large, none is. */
    lemma NoneFreeWhenFull()
      requires Valid() && |g.lh| == g.bc.n
      ensures !HasFree(g.bc.slots)
    {
      assert Serving(0);
      FullLogStarvesCommit(g.dev, g.bc.slots, g.lh, g.pin);
    }

    /** `bread` by a client: the contents last given to the block, wherever they are. */
    method Open(b: nat) returns (i: int)
      requires Valid() && g.l.Home(b)
      modifies this`users, g.bc.buf, g.bc`slots
      ensures Valid()
      ensures i == -1 <==> !Cached(old(g.bc.slots), g.dev, b) && !HasFree(old(g.bc.slots))
      ensures i == -1 ==> users == old(users) && g.bc.slots == old(g.bc.slots)
      ensures i != -1 ==>
                0 <= i < g.bc.n && b < |g.bc.disk| && Fetched(g.dev, old(g.bc.slots), g.bc.slots, i, b, g.bc.disk[b])
      ensures i != -1 ==>
                && HoldsHome(g.l, g.dev, g.bc.slots, i) && g.bc.slots[i].blockno == b && g.bc.slots[i].data == last[b]
                && users == old(users)[i := old(users)[i] + 1] && users[i] > 0
    {
      ghost var v := Now();
      i := g.bc.Bread(g.dev, b);
      if i != -1 {
        users := users[i := users[i] + 1];
        OpenKeeps(g.l, g.dev, v, Now(), i, b);
      }
    }

    /** The holder of a buffer gives its block new contents, inside an operation. */
    method Change(i: nat, data: Block)
      requires Valid() && HoldsHome(g.l, g.dev, g.bc.slots, i) && users[i] > 0 && |data| == g.l.words
      modifies this`held, this`last, g.bc.buf, g.bc`slots
      ensures Valid() && held == old(held) + {i}
      ensures g.bc.slots == old(g.bc.slots)[i := old(g.bc.slots)[i].(data := data)]
      ensures last == old(last)[old(g.bc.slots)[i].blockno := data]
    {
      ghost var v := Now();
      var x := g.bc.Get(i);
      g.bc.SetSlot(i, x.(data := data));
      held, last := held + {i}, last[x.blockno := data];
      ChangeKeeps(g.l, g.dev, v, Now(), i, data);
    }

    /** `log_write` of a changed buffer; false is a panic, of a full log or outside an operation. */
    method Log(i: nat) returns (ok: bool)
      requires Valid() && i in held && i < g.bc.n
      modifies this`held, g`lh, g`pin, g.bc.buf, g.bc`slots
      ensures ok <==> |old(g.lh)| < g.l.cap && g.outstanding >= 1
      ensures ok ==> Valid() && held == old(held) - {i}
      ensures ok ==>
        var b := old(g.bc.slots)[i].blockno;
        if b in old(g.lh) then g.lh == old(g.lh) && g.pin == old(g.pin) && g.bc.slots == old(g.bc.slots)
        else && g.lh == old(g.lh) + [b] && g.pin == old(g.pin) + [i as int]
             && g.bc.slots == old(g.bc.slots)[i := old(g.bc.slots)[i].(refcnt := old(g.bc.slots)[i].refcnt + 1)]
    {
      ghost var v := Now();
      ok := Append(i);
      if ok {
        held := held - {i};
        LogWriteKeeps(g.l, g.dev, v, Now(), i);
      }
    }

    method Append(i: nat) returns (ok: bool)
      requires Valid() && i in held && i < g.bc.n
      modifies g`lh, g`pin, g.bc.buf, g.bc`slots
      ensures g.bc.Valid() && (ok <==> |old(g.lh)| < g.l.cap && g.outstanding >= 1)
      ensures ok ==>
        var b := old(g.bc.slots)[i].blockno;
        if b in old(g.lh) then g.lh == old(g.lh) && g.pin == old(g.pin) && g.bc.slots == old(g.bc.slots)
        else && g.lh == old(g.lh) + [b] && g.pin == old(g.pin) + [i as int]
             && g.bc.slots == old(g.bc.slots)[i := old(g.bc.slots)[i].(refcnt := old(g.bc.slots)[i].refcnt + 1)]
    {
      LogReady();
      ok := g.LogWrite(i, held);
    }

    /** `brelse`: the log's pins keep every logged block in the cache. */
    method Close(i: nat)
      requires Valid() && i < g.bc.n && users[i] > 0 && i !in held
      modifies this`users, g.bc.buf, g.bc`slots, g.bc`order, g.bc`stamp, g.bc`now
      ensures Valid() && users == old(users)[i := old(users)[i] - 1] && old(g.bc.slots)[i].refcnt > 0
      ensures g.bc.slots == old(g.bc.slots)[i := old(g.bc.slots)[i].(refcnt := old(g.bc.slots)[i].refcnt - 1)]
    {
      ghost var v := Now();
      assert g.bc.slots[i].refcnt > 0 by { assert Serving(0); }
      g.bc.Brelse(i);
      users := users[i := users[i] - 1];
      CloseKeeps(g.l, g.dev, v, Now(), i);
    }

    /** `end_op`: a commit, if one happens, changes nothing that a client could see. */
    method End() returns (ok: bool)
      requires Valid() && g.outstanding > 0 && (g.outstanding == 1 ==> held == {})
      modifies g`outstanding, g`committing, g`lh, g`pin, g.bc.buf, g.bc
      ensures g.outstanding == old(g.outstanding) - 1
      ensures ok <==> !old(g.committing) && (g.outstanding > 0 || old(g.lh) == [] || HasFree(old(g.bc.slots)))
      ensures ok ==> Valid() && !g.committing
      ensures ok && g.outstanding > 0 ==>
                g.lh == old(g.lh) && g.pin == old(g.pin) && g.bc.slots == old(g.bc.slots) && g.bc.disk == old(g.bc.disk)
      ensures ok && g.outstanding == 0 ==> g.pin == [] && Unpinned(old(g.bc.slots), g.bc.slots, old(g.pin))
      ensures ok && g.outstanding == 0 ==>
                g.lh == [] && |g.bc.disk| == g.l.nblocks && forall b :: g.l.Home(b) ==> g.bc.disk[b] == last[b]
    {
      LogReady();
      ghost var v := Now();
      ghost var t := if g.outstanding == 1 then g.Pending() else Txn([], []);
      ok := g.EndOp(held);
      if ok && g.outstanding == 0 {
        CommitKeeps(g.l, g.dev, v, Now(), t);
      }
    }
  }

  // -------- A run that starves commit --------

  /** The `k`-th home block of the disk. */
  function HomeBlock(l: Layout, k: nat): nat {
    if k < l.start then k else k + l.cap + 1
  }

  lemma FreeLeft(v: Board)
    requires Counted(v) && (forall i :: 0 <= i < |v.s| ==> v.users[i] == 0) && |v.pin| < |v.s| && Distinct(v.pin)
    ensures HasFree(v.s)
  {
    DistinctElements(v.pin);
    if forall i :: 0 <= i < |v.s| ==> i in v.pin {
      SubsetSize(Below(|v.s|), Elements(v.pin));
    } else {
      var i :| 0 <= i < |v.s| && i !in v.pin;
      assert v.s[i].refcnt == 0;
    }
  }

  /** One more block of an operation: read, change, log, release. */
  method WriteBlock(c: Clients, b: nat, data: Block)
    requires c.Valid() && c.g.l.Home(b) && |data| == c.g.l.words && c.held == {} && b !in c.g.lh
    requires c.g.outstanding >= 1 && |c.g.lh| < c.g.l.cap && HasFree(c.g.bc.slots)
    modifies c`held, c`users, c`last, c.g`lh, c.g`pin, c.g.bc.buf, c.g.bc`slots, c.g.bc`order, c.g.bc`stamp, c.g.bc`now
    ensures c.Valid() && c.held == {} && c.users == old(c.users) && c.g.lh == old(c.g.lh) + [b as int]
    ensures c.last == old(c.last)[b := data]
  {
    var i := c.Open(b);
    c.Change(i, data);
    var _ := c.Log(i);
    c.Close(i);
    assert old(c.users)[i := old(c.users)[i] + 1][i := old(c.users)[i]] == old(c.users);
  }

  /** The operations use up the whole log, one home block after the other. */
  method FillLog(c: Clients, data: Block)
    requires c.Valid() && |data| == c.g.l.words && c.held == {} && c.g.lh == [] && c.g.outstanding >= 1
    requires c.g.bc.n == c.g.l.cap
    requires 2 * c.g.l.cap + 1 <= c.g.l.nblocks && forall i :: 0 <= i < c.g.bc.n ==> c.users[i] == 0
    modifies c, c.g`lh, c.g`pin, c.g.bc.buf, c.g.bc
    ensures c.Valid() && c.held == {} && |c.g.lh| == c.g.l.cap
  {
    var k := 0;
    while k < c.g.l.cap
      invariant 0 <= k <= c.g.l.cap && c.Valid() && c.held == {} && |c.g.lh| == k && c.users == old(c.users)
      invariant forall j :: 0 <= j < k ==> c.g.lh[j] == HomeBlock(c.g.l, j)
    {
      c.FreeWhileShort();
      var b := HomeBlock(c.g.l, k);
      WriteBlock(c, b, data);
      k := k + 1;
    }
  }

  /** A fresh cache of `n` buffers, a log on it, and its clients. */
  method Boot(l: Layout, d: Disk, maxOp: nat, n: nat) returns (c: Clients)
    requires Clean(l, d)
    ensures fresh(c) && fresh(c.g) && fresh(c.g.bc) && fresh(c.g.bc.buf) && c.Valid() && c.held == {}
    ensures c.g.l == l && c.g.maxOp == maxOp && c.g.bc.n == n && c.g.lh == [] && c.g.outstanding == 0 && !c.g.committing
    ensures forall i :: 0 <= i < n ==> c.users[i] == 0
  {
    var bc := new BufferCache(n, d);
    var g := new Log(l, 1, maxOp, bc);
    c := new Clients(g);
  }

  /** With a cache as large as the log, three operations that use up their reservations leave no
      buffer for the commit, whatever they write: the last `end_op` meets the panic of `bget`. */
  method StarvedCommit(l: Layout, d: Disk, maxOp: nat) returns (c: Clients, ok: bool)
    requires Clean(l, d) && maxOp >= 1 && l.cap == 3 * maxOp && 2 * l.cap + 1 <= l.nblocks
    ensures !ok && c.g.outstanding == 0 && c.g.bc.n == l.cap && c.g.l == l && c.g.maxOp == maxOp
  {
    c := Boot(l, d, maxOp, l.cap);
    var a1 := c.g.BeginOp();
    var a2 := c.g.BeginOp();
    var a3 := c.g.BeginOp();
    assert a1 && a2 && a3 && c.g.outstanding == 3;
    FillLog(c, d[l.start]);
    c.NoneFreeWhenFull();
    var e1 := c.End();
    var e2 := c.End();
    ok := c.End();
  }
}
