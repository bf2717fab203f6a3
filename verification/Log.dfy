/** The logging layer of kernel/log.c on top of the buffer cache. Commit and
    recovery are shown to issue exactly the write sequences of module
    CrashRecovery, which carries the crash guarantees. */
module Logs {
  import opened Disks
  import opened Counting
  import opened CrashRecovery
  import opened BufferCaches

  // -------- How cache and disk relate --------

  /** A cached block that is neither logged nor being modified equals the disk. */
  ghost predicate Coherent(l: Layout, dev: nat, s: seq<Slot>, d: Disk, lh: seq<int>, held: set<int>) {
    forall i :: 0 <= i < |s| && s[i].dev == dev && s[i].valid ==>
      && s[i].blockno < |d| && |s[i].data| == l.words
      && (i !in held && s[i].blockno !in lh ==> s[i].data == d[s[i].blockno])
  }

  /** Every logged block sits in a buffer that cannot be recycled. */
  ghost predicate Pinned(dev: nat, s: seq<Slot>, lh: seq<int>, pin: seq<int>) {
    && |pin| == |lh|
    && forall t :: 0 <= t < |lh| ==>
         && 0 <= pin[t] < |s| && s[pin[t]].dev == dev && s[pin[t]].blockno == lh[t]
         && s[pin[t]].valid && s[pin[t]].refcnt > 0
  }

  /** Buffer `i` now holds block `b` with contents `data`; its references are as before. */
  ghost predicate Reused(s: seq<Slot>, s': seq<Slot>, i: int, dev: nat, b: nat, data: Block) {
    && 0 <= i < |s|
    && (s[i].Tagged(dev, b) || (s[i].refcnt == 0 && !Cached(s, dev, b)))
    && s' == s[i := Slot(true, dev, b, s[i].refcnt, data)]
  }

  /** The same while the buffer is referenced once more. */
  ghost predicate Opened(s: seq<Slot>, s': seq<Slot>, i: int, dev: nat, b: nat, data: Block) {
    && 0 <= i < |s|
    && (s[i].Tagged(dev, b) || (s[i].refcnt == 0 && !Cached(s, dev, b)))
    && s' == s[i := Slot(true, dev, b, s[i].refcnt + 1, data)]
  }

  /** Nobody but commit and recovery uses the blocks of the log itself. */
  ghost predicate LogIdle(l: Layout, dev: nat, s: seq<Slot>) {
    forall i :: 0 <= i < |s| && s[i].dev == dev && l.start <= s[i].blockno <= l.start + l.cap ==> s[i].refcnt == 0
  }

  /** Reusing a buffer for a log block, with the contents the disk now has. */
  lemma ReuseKeeps(l: Layout, dev: nat, s: seq<Slot>, s': seq<Slot>, i: int, b: nat, data: Block,
                   d: Disk, lh: seq<int>, pin: seq<int>)
    requires dev != 0 && Unique(s) && Reused(s, s', i, dev, b, data)
    requires Coherent(l, dev, s, d, lh, {}) && Pinned(dev, s, lh, pin) && LogIdle(l, dev, s)
    requires b < |d| && |data| == l.words && b !in lh
    ensures Coherent(l, dev, s', Apply(d, Write(b, data)), lh, {}) && Pinned(dev, s', lh, pin) && LogIdle(l, dev, s')
    ensures Data(s', pin) == Data(s, pin) && Untouched(s, s')
  {
  }

  /** The buffer still has the same block. */
  predicate SameBlock(x: Slot, y: Slot) {
    x.dev == y.dev && x.blockno == y.blockno && (x.valid ==> y.valid)
  }

  /** Reference counts are as before, and so are the blocks of buffers in use. */
  ghost predicate Untouched(s: seq<Slot>, s': seq<Slot>) {
    && |s| == |s'| && (forall j :: 0 <= j < |s| ==> s'[j].refcnt == s[j].refcnt)
    && (forall j :: 0 <= j < |s| && s[j].refcnt > 0 ==> SameBlock(s[j], s'[j]))
  }

  lemma FreeKept(s: seq<Slot>, s': seq<Slot>)
    requires Untouched(s, s')
    ensures HasFree(s) <==> HasFree(s')
  {
  }

  /** Installing the first logged block: it leaves the log's care, clean and with one pin less. */
  lemma InstallKeeps(l: Layout, dev: nat, s: seq<Slot>, s': seq<Slot>, i: int, b: nat, data: Block,
                     d: Disk, lh: seq<int>, pin: seq<int>)
    requires dev != 0 && l.Wf() && Unique(s) && lh != [] && Distinct(lh) && AllHome(l, lh)
    requires |d| == l.nblocks && l.start < b <= l.start + l.cap && data == d[b] && |data| == l.words
    requires Coherent(l, dev, s, d, lh, {}) && Pinned(dev, s, lh, pin) && LogIdle(l, dev, s)
    requires 0 <= i < |s| && (s[i].Tagged(dev, b) || (s[i].refcnt == 0 && !Cached(s, dev, b)))
    requires s' == s[i := Slot(true, dev, b, s[i].refcnt, data)]
                    [pin[0] := s[pin[0]].(data := data, refcnt := s[pin[0]].refcnt - 1)]
    ensures Coherent(l, dev, s', Apply(d, Write(lh[0], data)), lh[1..], {})
    ensures Pinned(dev, s', lh[1..], pin[1..]) && LogIdle(l, dev, s')
  {
  }

  function Data(s: seq<Slot>, pin: seq<int>): (r: seq<Block>)
    requires forall t :: 0 <= t < |pin| ==> 0 <= pin[t] < |s|
    ensures |r| == |pin| && forall t :: 0 <= t < |pin| ==> r[t] == s[pin[t]].data
  {
    seq(|pin|, t requires 0 <= t < |pin| => s[pin[t]].data)
  }

  class Log {
    const l: Layout
    const dev: nat
    const maxOp: nat
    const bc: BufferCache
    /** `log.lh`: the block numbers logged so far. */
    var lh: seq<int>
    var outstanding: nat
    var committing: bool
    /** The buffer that pins each logged block. */
    ghost var pin: seq<int>

    /** `initlog` up to recovery. The cache may already hold blocks of the device as they are on disk,
        such as the superblock; nobody uses the blocks of the log. */
    constructor (l: Layout, dev: nat, maxOp: nat, bc: BufferCache)
      requires bc.Valid() && dev != 0 && DiskWf(l, bc.disk)
      requires Coherent(l, dev, bc.slots, bc.disk, [], {}) && LogIdle(l, dev, bc.slots)
      ensures this.l == l && this.dev == dev && this.maxOp == maxOp && this.bc == bc
      ensures Ok(lh, pin, {}) && lh == [] && outstanding == 0 && !committing
    {
      this.l, this.dev, this.maxOp, this.bc := l, dev, maxOp, bc;
      lh, outstanding, committing, pin := [], 0, false, [];
    }

    /** The cache serves `lst` as the logged blocks, pinned by `pins`; the
        buffers `held` are being modified by their holders. */
    ghost predicate Ok(lst: seq<int>, pins: seq<int>, held: set<int>)
      reads this, bc, bc.buf
    {
      && bc.Valid() && dev != 0 && l.Wf()
      && |bc.disk| == l.nblocks && AllSized(l, bc.disk)
      && Coherent(l, dev, bc.slots, bc.disk, lst, held)
      && Pinned(dev, bc.slots, lst, pins)
      && LogIdle(l, dev, bc.slots)
      && |lst| <= l.cap && Distinct(lst) && AllHome(l, lst)
    }

    /** The transaction that `commit` would write now. */
    ghost function Pending(): (t: Txn)
      requires Ok(lh, pin, {})
      reads this, bc, bc.buf
      ensures TxnWf(l, t)
    {
      Txn(lh, Data(bc.slots, pin))
    }

    /** `bread` of a block that is not logged: it always yields the block as it is on disk. */
    method ReadClean(b: nat, ghost lst: seq<int>) returns (i: int)
      requires bc.Valid() && b < |bc.disk| && Coherent(l, dev, bc.slots, bc.disk, lst, {}) && b !in lst
      modifies bc.buf, bc`slots
      ensures bc.Valid()
      ensures i == -1 <==> !HasFree(old(bc.slots)) && !Cached(old(bc.slots), dev, b)
      ensures i == -1 ==> bc.slots == old(bc.slots)
      ensures i != -1 ==> Opened(old(bc.slots), bc.slots, i, dev, b, bc.disk[b])
    {
      i := bc.Bread(dev, b);
    }

    /** `bread` of a logged block: always a hit, always the pinned buffer. */
    method ReadLogged(lst: seq<int>, ghost pins: seq<int>, t: nat) returns (i: int)
      requires bc.Valid() && dev != 0 && Pinned(dev, bc.slots, lst, pins) && t < |lst|
      requires 0 <= lst[t] < |bc.disk|
      modifies bc.buf, bc`slots
      ensures bc.Valid()
      ensures i == pins[t]
      ensures bc.slots == old(bc.slots)[i := old(bc.slots)[i].(refcnt := old(bc.slots)[i].refcnt + 1)]
    {
      assert bc.slots[pins[t]].Tagged(dev, lst[t]);
      i := bc.Bread(dev, lst[t]);
    }

    /** `memmove(to->data, from->data, BSIZE); bwrite(to)` */
    method CopyAndWrite(to: nat, from: nat)
      requires bc.Valid() && to < bc.n && from < bc.n && bc.slots[to].blockno < |bc.disk|
      modifies bc.buf, bc`slots, bc`disk, bc`writes
      ensures bc.Valid()
      ensures bc.slots == old(bc.slots)[to := old(bc.slots)[to].(data := old(bc.slots)[from].data)]
      ensures bc.disk == Apply(old(bc.disk), Write(old(bc.slots)[to].blockno, old(bc.slots)[from].data))
      ensures bc.writes == old(bc.writes) + [Write(old(bc.slots)[to].blockno, old(bc.slots)[from].data)]
    {
      var t := bc.Get(to);
      var f := bc.Get(from);
      bc.SetSlot(to, t.(data := f.data));
      bc.Bwrite(to);
    }

    method Release(a: nat, b: nat)
      requires bc.Valid() && a < bc.n && b < bc.n && a != b && bc.slots[a].refcnt > 0 && bc.slots[b].refcnt > 0
      modifies bc.buf, bc`slots, bc`order, bc`stamp, bc`now
      ensures bc.Valid()
      ensures bc.slots == old(bc.slots)[a := old(bc.slots)[a].(refcnt := old(bc.slots)[a].refcnt - 1)]
                                       [b := old(bc.slots)[b].(refcnt := old(bc.slots)[b].refcnt - 1)]
    {
      bc.Brelse(a);
      bc.Brelse(b);
    }

    /** One round of `write_log`: -1 when the cache has no buffer left. */
    method CopyToLog(tail: nat) returns (to: int)
      requires Ok(lh, pin, {}) && tail < |lh|
      modifies bc.buf, bc
      ensures bc.Valid()
      ensures to == -1 <==> !HasFree(old(bc.slots)) && !Cached(old(bc.slots), dev, l.start + tail + 1)
      ensures to == -1 ==> bc.slots == old(bc.slots) && bc.disk == old(bc.disk) && bc.writes == old(bc.writes)
      ensures to != -1 ==>
                && Reused(old(bc.slots), bc.slots, to, dev, l.start + tail + 1, old(bc.slots[pin[tail]].data))
                && bc.disk == Apply(old(bc.disk), Write(l.start + tail + 1, old(bc.slots[pin[tail]].data)))
                && bc.writes == old(bc.writes) + [Write(l.start + tail + 1, old(bc.slots[pin[tail]].data))]
    {
      ghost var s0 := bc.slots;
      to := ReadClean(l.start + tail + 1, lh);
      if to == -1 { return; }
      assert Pinned(dev, bc.slots, lh, pin);
      var from := ReadLogged(lh, pin, tail);
      CopyAndWrite(to, from);
      Release(from, to);
      assert bc.slots == s0[to := Slot(true, dev, l.start + tail + 1, s0[to].refcnt, s0[from].data)];
    }

    /** The same round, for the log as a whole: false when the cache has no buffer left. */
    method LogOne(tail: nat) returns (ok: bool)
      requires Ok(lh, pin, {}) && tail < |lh|
      modifies bc.buf, bc
      ensures ok <==> HasFree(old(bc.slots))
      ensures ok ==>
                && Ok(lh, pin, {}) && Pending() == old(Pending()) && HasFree(bc.slots)
                && Untouched(old(bc.slots), bc.slots)
                && bc.disk == Apply(old(bc.disk), Write(l.start + 1 + tail, old(Pending()).data[tail]))
                && bc.writes == old(bc.writes) + [Write(l.start + 1 + tail, old(Pending()).data[tail])]
    {
      ghost var s := bc.slots;
      var to := CopyToLog(tail);
      ok := to != -1;
      if ok {
        ReuseKeeps(l, dev, s, bc.slots, to, l.start + tail + 1, s[pin[tail]].data, old(bc.disk), lh, pin);
        if Cached(s, dev, l.start + tail + 1) { LogBufferFree(l, dev, s, l.start + tail + 1); }
        FreeKept(s, bc.slots);
      }
    }

    /** `write_log`: copy every logged block from the cache into the log. */
    method WriteLog() returns (ok: bool)
      requires Ok(lh, pin, {})
      modifies bc.buf, bc
      ensures ok <==> lh == [] || HasFree(old(bc.slots))
      ensures ok ==>
                && Ok(lh, pin, {}) && Pending() == old(Pending()) && (lh != [] ==> HasFree(bc.slots))
                && Untouched(old(bc.slots), bc.slots)
                && bc.disk == ApplyAll(old(bc.disk), LogWrites(l, old(Pending())))
                && bc.writes == old(bc.writes) + LogWrites(l, old(Pending()))
    {
      ghost var t, ws, d0, w0 := Pending(), LogWrites(l, Pending()), bc.disk, bc.writes;
      var tail := 0;
      while tail < |lh|
        invariant 0 <= tail <= |lh|
        invariant Ok(lh, pin, {}) && Pending() == t
        invariant Untouched(old(bc.slots), bc.slots)
        invariant Issued(d0, w0, ws, tail, bc.disk, bc.writes)
        invariant tail > 0 ==> HasFree(old(bc.slots)) && HasFree(bc.slots)
      {
        FreeKept(old(bc.slots), bc.slots);
        ghost var d, w := bc.disk, bc.writes;
        ok := LogOne(tail);
        if !ok { return; }
        IssueOneMore(d0, w0, ws, tail, d, w, Write(l.start + 1 + tail, t.data[tail]));
        tail := tail + 1;
      }
      assert ws[..tail] == ws;
      ok := true;
    }

    /** The two `bread` calls of `install_trans(0)`. */
    method OpenPair(tail: nat) returns (lbuf: int, dbuf: int)
      requires tail < |lh| == |pin| <= l.cap && Ok(lh[tail..], pin[tail..], {}) && HasFree(bc.slots)
      modifies bc.buf, bc`slots
      ensures bc.Valid() && dbuf == pin[tail] && 0 <= dbuf < bc.n && 0 <= lbuf < bc.n && lbuf != dbuf
      ensures var s, b := old(bc.slots), l.start + tail + 1;
              && s[dbuf].refcnt > 0 && s[dbuf].Tagged(dev, lh[tail]) && 0 <= lh[tail] < |bc.disk| && b < |bc.disk|
              && (s[lbuf].Tagged(dev, b) || (s[lbuf].refcnt == 0 && !Cached(s, dev, b)))
              && bc.slots == s[lbuf := Slot(true, dev, b, s[lbuf].refcnt + 1, bc.disk[b])]
                              [dbuf := s[dbuf].(refcnt := s[dbuf].refcnt + 1)]
    {
      assert lh[tail..][0] == lh[tail] && pin[tail..][0] == pin[tail];
      assert l.Home(lh[tail..][0]);
      lbuf := ReadClean(l.start + tail + 1, lh[tail..]);
      assert Pinned(dev, bc.slots, lh[tail..], pin[tail..]);
      dbuf := ReadLogged(lh[tail..], pin[tail..], 0);
    }

    /** One round of `install_trans(0)`; the cache has a buffer for the log block. */
    method CopyHome(tail: nat) returns (lbuf: int)
      requires tail < |lh| == |pin| <= l.cap && Ok(lh[tail..], pin[tail..], {}) && HasFree(bc.slots)
      modifies bc.buf, bc
      ensures bc.Valid()
      ensures InstalledOne(old(bc.slots), bc.slots, lbuf, dev, l.start + tail + 1,
                old(bc.disk)[l.start + tail + 1], pin[tail])
      ensures bc.disk == Apply(old(bc.disk), Write(lh[tail], old(bc.disk)[l.start + tail + 1]))
      ensures bc.writes == old(bc.writes) + [Write(lh[tail], old(bc.disk)[l.start + tail + 1])]
    {
      ghost var s0 := bc.slots;
      var dbuf;
      lbuf, dbuf := OpenPair(tail);
      CopyAndWrite(dbuf, lbuf);
      bc.Bunpin(dbuf);
      Release(lbuf, dbuf);
      ghost var b := l.start + tail + 1;
      assert bc.slots == s0[lbuf := Slot(true, dev, b, s0[lbuf].refcnt, old(bc.disk)[b])]
                           [dbuf := s0[dbuf].(data := old(bc.disk)[l.start + tail + 1], refcnt := s0[dbuf].refcnt - 1)];
    }

    /** The same round, for the log as a whole. */
    method InstallOne(tail: nat)
      requires tail < |lh| == |pin| <= l.cap && Ok(lh[tail..], pin[tail..], {}) && HasFree(bc.slots)
      modifies bc.buf, bc
      ensures Ok(lh[tail + 1..], pin[tail + 1..], {}) && HasFree(bc.slots)
      ensures Unpinned(old(bc.slots), bc.slots, [pin[tail]])
      ensures bc.disk == Apply(old(bc.disk), Write(lh[tail], old(bc.disk)[l.start + tail + 1]))
      ensures bc.writes == old(bc.writes) + [Write(lh[tail], old(bc.disk)[l.start + tail + 1])]
    {
      ghost var s, b := bc.slots, l.start + tail + 1;
      assert lh[tail..][0] == lh[tail] && pin[tail..][0] == pin[tail];
      assert lh[tail..][1..] == lh[tail + 1..] && pin[tail..][1..] == pin[tail + 1..];
      TailHome(l, lh[tail..]);
      var i := CopyHome(tail);
      InstallKeeps(l, dev, s, bc.slots, i, b, old(bc.disk)[b], old(bc.disk), lh[tail..], pin[tail..]);
      InstalledCounts(s, bc.slots, i, dev, b, old(bc.disk)[b], pin[tail]);
    }

    /** The same round, counted from the start of the loop. */
    method InstallRound(tail: nat, ghost t: Txn, ghost d0: Disk, ghost w0: seq<Write>, ghost s0: seq<Slot>)
      requires tail < |lh| == |pin| == |t.data| && Ok(lh[tail..], pin[tail..], {}) && HasFree(bc.slots)
      requires t.blocks == lh && Copied(l, bc.disk, t) && Distinct(pin)
      requires Unpinned(s0, bc.slots, pin[..tail]) && Issued(d0, w0, InstallWrites(t), tail, bc.disk, bc.writes)
      modifies bc.buf, bc
      ensures Ok(lh[tail + 1..], pin[tail + 1..], {}) && HasFree(bc.slots) && Copied(l, bc.disk, t)
      ensures Unpinned(s0, bc.slots, pin[..tail + 1])
      ensures Issued(d0, w0, InstallWrites(t), tail + 1, bc.disk, bc.writes)
    {
      ghost var d, w, s := bc.disk, bc.writes, bc.slots;
      assert d[l.start + 1 + tail] == t.data[tail] && lh[tail..][0] == lh[tail];
      InstallOne(tail);
      IssueOneMore(d0, w0, InstallWrites(t), tail, d, w, Write(lh[tail], t.data[tail]));
      CopiedKept(l, d, lh[tail], t.data[tail], t);
      UnpinOneMore(s0, s, bc.slots, pin, tail);
    }

    /** `install_trans(0)`: copy the log to the home blocks and drop the pins. */
    method InstallTrans()
      requires Ok(lh, pin, {}) && HasFree(bc.slots)
      requires Copied(l, bc.disk, Pending())
      modifies bc.buf, bc
      ensures Ok([], [], {}) && HasFree(bc.slots)
      ensures Unpinned(old(bc.slots), bc.slots, pin)
      ensures bc.disk == ApplyAll(old(bc.disk), InstallWrites(old(Pending())))
      ensures bc.writes == old(bc.writes) + InstallWrites(old(Pending()))
    {
      ghost var t, ws, d0, w0, s0 := Pending(), InstallWrites(Pending()), bc.disk, bc.writes, bc.slots;
      PinsDistinct(dev, s0, lh, pin);
      var tail := 0;
      assert lh[0..] == lh && pin[0..] == pin;
      while tail < |lh|
        invariant 0 <= tail <= |lh|
        invariant Ok(lh[tail..], pin[tail..], {}) && HasFree(bc.slots)
        invariant Copied(l, bc.disk, t)
        invariant Unpinned(s0, bc.slots, pin[..tail])
        invariant Issued(d0, w0, ws, tail, bc.disk, bc.writes)
      {
        InstallRound(tail, t, d0, w0, s0);
        tail := tail + 1;
      }
      assert ws[..tail] == ws && lh[tail..] == [] && pin[tail..] == [] && pin[..tail] == pin;
    }

    /** `write_head` */
    method WriteHead(ghost lst: seq<int>, ghost pins: seq<int>) returns (ok: bool)
      requires Ok(lst, pins, {}) && |lh| <= l.cap
      modifies bc.buf, bc
      ensures ok <==> HasFree(old(bc.slots))
      ensures ok ==>
                && Ok(lst, pins, {}) && Data(bc.slots, pins) == Data(old(bc.slots), pins) && HasFree(bc.slots)
                && Untouched(old(bc.slots), bc.slots)
                && bc.disk == Apply(old(bc.disk), Write(l.start, EncodeHead(old(bc.disk)[l.start], lh)))
                && bc.writes == old(bc.writes) + [Write(l.start, EncodeHead(old(bc.disk)[l.start], lh))]
    {
      ghost var s := bc.slots;
      var i := ReadClean(l.start, lst);
      ok := i != -1;
      if ok {
        var x := bc.Get(i);
        var hb := FillHead(x.data, lh);
        bc.SetSlot(i, x.(data := hb));
        bc.Bwrite(i);
        bc.Brelse(i);
        assert Reused(s, bc.slots, i, dev, l.start, hb);
        ReuseKeeps(l, dev, s, bc.slots, i, l.start, hb, old(bc.disk), lst, pins);
        if Cached(s, dev, l.start) { LogBufferFree(l, dev, s, l.start); }
        FreeKept(s, bc.slots);
      }
    }

    /** The first half of `commit`, up to and including "the real commit". */
    method Seal() returns (ok: bool)
      requires Ok(lh, pin, {}) && Clean(l, bc.disk) && lh != []
      modifies bc.buf, bc
      ensures ok <==> HasFree(old(bc.slots))
      ensures ok ==>
                && Ok(lh, pin, {}) && HasFree(bc.slots) && Pending() == old(Pending()) && Copied(l, bc.disk, Pending())
                && Untouched(old(bc.slots), bc.slots)
                && bc.disk == Sealed(l, old(bc.disk), Pending())
                && bc.writes == old(bc.writes) + LogWrites(l, Pending())
                                + [Write(l.start, EncodeHead(old(bc.disk)[l.start], lh))]
    {
      CommitPhases(l, bc.disk, Pending());
      ok := WriteLog();
      if ok {
        ok := WriteHead(lh, pin);
      }
    }

    /** The second half of `commit`: install, then erase the transaction from the log. */
    method InstallAndErase()
      requires Ok(lh, pin, {}) && HasFree(bc.slots) && Copied(l, bc.disk, Pending())
      modifies this`lh, this`pin, bc.buf, bc
      ensures Ok(lh, pin, {}) && lh == [] && Unpinned(old(bc.slots), bc.slots, old(pin))
      ensures var d := ApplyAll(old(bc.disk), InstallWrites(old(Pending())));
              && |d| == l.nblocks && AllSized(l, d)
              && bc.disk == Apply(d, Write(l.start, EncodeHead(d[l.start], [])))
              && bc.writes == old(bc.writes) + InstallWrites(old(Pending()))
                              + [Write(l.start, EncodeHead(d[l.start], []))]
    {
      InstallTrans();
      lh, pin := [], [];
      var ok := WriteHead([], []);
    }

    /** `commit`. It gets through exactly when the log is empty or some buffer
        is unreferenced; then the disk sees precisely the writes of CommitWrites,
        the logged blocks lose their pins and the log is empty again. */
    method Commit() returns (ok: bool)
      requires Ok(lh, pin, {}) && Clean(l, bc.disk)
      modifies this`lh, this`pin, bc.buf, bc
      ensures ok <==> old(lh) == [] || HasFree(old(bc.slots))
      ensures ok ==>
                && Ok(lh, pin, {}) && lh == [] && Clean(l, bc.disk)
                && Unpinned(old(bc.slots), bc.slots, old(pin))
                && bc.disk == ApplyAll(old(bc.disk), CommitWrites(l, old(bc.disk), old(Pending())))
                && bc.writes == old(bc.writes) + CommitWrites(l, old(bc.disk), old(Pending()))
    {
      ok := true;
      if |lh| > 0 {
        ghost var t, d0, w0 := Pending(), bc.disk, bc.writes;
        CommitPhases(l, d0, t);
        ok := Seal();
        if ok {
          ghost var s, pins := bc.slots, pin;
          InstallAndErase();
          UnpinnedAfter(old(bc.slots), s, bc.slots, pins);
          CommitAssembled(l, d0, t, w0, bc.disk, bc.writes);
        }
      }
    }

    /** The loop of `log_write`: where the block is in the log, or its length. */
    method Position(blockno: nat) returns (i: nat)
      ensures i <= |lh| && (i == |lh| <==> blockno !in lh) && (i < |lh| ==> lh[i] == blockno)
    {
      i := 0;
      while i < |lh| && lh[i] != blockno
        invariant 0 <= i <= |lh| && blockno !in lh[..i]
      {
        i := i + 1;
      }
    }

    /** `log_write`, called with the held buffer `b` after its data changed; false is a
        panic. A block already in the log is absorbed, a new one is pinned. */
    method LogWrite(b: nat, ghost held: set<int>) returns (ok: bool)
      requires Ok(lh, pin, held) && b < bc.n && b in held
      requires bc.slots[b].dev == dev && bc.slots[b].valid && bc.slots[b].refcnt > 0 && l.Home(bc.slots[b].blockno)
      modifies this`lh, this`pin, bc.buf, bc`slots
      ensures bc.Valid() && (ok <==> |old(lh)| < l.cap && outstanding >= 1)
      ensures !ok ==> lh == old(lh) && bc.slots == old(bc.slots)
      ensures ok ==> Ok(lh, pin, held - {b})
      ensures ok ==> pin == if old(bc.slots)[b].blockno in old(lh) then old(pin) else old(pin) + [b as int]
      ensures ok && old(bc.slots)[b].blockno in old(lh) ==> lh == old(lh) && bc.slots == old(bc.slots)
      ensures ok && old(bc.slots)[b].blockno !in old(lh) ==>
                && lh == old(lh) + [old(bc.slots)[b].blockno]
                && bc.slots == old(bc.slots)[b := old(bc.slots)[b].(refcnt := old(bc.slots)[b].refcnt + 1)]
    {
      if |lh| >= l.cap || outstanding < 1 { return false; }
      var x := bc.Get(b);
      var i := Position(x.blockno);
      ok := true;
      if i == |lh| {
        LogKeeps(l, dev, bc.slots, b, bc.disk, lh, pin, held);
        bc.Bpin(b);
        lh, pin := lh + [x.blockno], pin + [b];
      }
    }

    /** `begin_op` admits the operation, or makes the caller sleep and try again. */
    method BeginOp() returns (admitted: bool)
      modifies this`outstanding
      ensures admitted <==> !committing && |lh| + (old(outstanding) + 1) * maxOp <= l.cap
      ensures outstanding == old(outstanding) + (if admitted then 1 else 0)
    {
      if committing {
        admitted := false;
      } else if |lh| + (outstanding + 1) * maxOp > l.cap {
        admitted := false;
      } else {
        outstanding := outstanding + 1;
        admitted := true;
      }
    }

    /** `end_op`: the last outstanding operation commits everything logged so far. Other operations may
        hold changed buffers, which they have yet to log. */
    method EndOp(ghost held: set<int>) returns (ok: bool)
      requires Ok(lh, pin, held) && Clean(l, bc.disk) && outstanding > 0 && (outstanding == 1 ==> held == {})
      modifies this`outstanding, this`committing, this`lh, this`pin, bc.buf, bc
      ensures outstanding == old(outstanding) - 1
      ensures ok <==> !old(committing) && (outstanding > 0 || old(lh) == [] || HasFree(old(bc.slots)))
      ensures ok ==> Ok(lh, pin, held) && Clean(l, bc.disk) && !committing
      ensures ok && outstanding > 0 ==>
                lh == old(lh) && pin == old(pin) && bc.disk == old(bc.disk) && bc.slots == old(bc.slots)
      ensures ok && outstanding == 0 ==>
                && lh == [] && Unpinned(old(bc.slots), bc.slots, old(pin))
                && bc.disk == ApplyAll(old(bc.disk), CommitWrites(l, old(bc.disk), old(Pending())))
                && bc.writes == old(bc.writes) + CommitWrites(l, old(bc.disk), old(Pending()))
    {
      outstanding := outstanding - 1;
      if committing { return false; }
      ok := true;
      if outstanding == 0 {
        committing := true;
        ok := Commit();
        committing := !ok;
      }
    }

    /** One round of `install_trans(1)`, when nothing is referenced yet. */
    method RecoverOne(tail: nat, lst: seq<int>)
      requires Ok([], [], {}) && AllIdle(bc.slots) && bc.n >= 2 && tail < |lst| <= l.cap && AllHome(l, lst)
      modifies bc.buf, bc
      ensures Ok([], [], {}) && AllIdle(bc.slots)
      ensures bc.disk == Apply(old(bc.disk), Write(lst[tail], old(bc.disk)[l.start + tail + 1]))
      ensures bc.writes == old(bc.writes) + [Write(lst[tail], old(bc.disk)[l.start + tail + 1])]
    {
      ghost var s := bc.slots;
      assert l.Home(lst[tail]);
      var lbuf, dbuf := RecoverCopy(l.start + tail + 1, lst[tail]);
      RecoverKeeps(l, dev, s, bc.slots, lbuf, dbuf, l.start + tail + 1, lst[tail], old(bc.disk));
    }

    /** The buffers of that round: one block is read from the log and written home. */
    method RecoverCopy(log: nat, home: nat) returns (lbuf: nat, dbuf: nat)
      requires bc.Valid() && dev != 0 && AllIdle(bc.slots) && bc.n >= 2 && log < |bc.disk| && home < |bc.disk|
      requires log != home
      requires |bc.disk[log]| == l.words
      requires Coherent(l, dev, bc.slots, bc.disk, [], {})
      modifies bc.buf, bc
      ensures bc.Valid() && lbuf < bc.n && dbuf < bc.n && lbuf != dbuf
      ensures bc.slots == old(bc.slots)[lbuf := Slot(true, dev, log, 0, old(bc.disk)[log])]
                                       [dbuf := Slot(true, dev, home, 0, old(bc.disk)[log])]
      ensures bc.disk == Apply(old(bc.disk), Write(home, old(bc.disk)[log]))
      ensures bc.writes == old(bc.writes) + [Write(home, old(bc.disk)[log])]
    {
      ghost var s := bc.slots;
      assert s[0].refcnt == 0;
      var i := ReadClean(log, []);
      assert bc.slots[if i == 0 then 1 else 0].refcnt == 0;
      var j := ReadClean(home, []);
      CopyAndWrite(j, i);
      Release(i, j);
      lbuf, dbuf := i, j;
    }

    /** `recover_from_log` on a cache where nothing is referenced: it always
        completes, and the disk sees precisely the writes of RecoverWrites. */
    method Recover()
      requires Ok([], [], {}) && AllIdle(bc.slots) && bc.n >= 2 && DiskWf(l, bc.disk)
      modifies this`lh, this`pin, bc.buf, bc
      ensures Ok(lh, pin, {}) && lh == [] && AllIdle(bc.slots) && Clean(l, bc.disk)
      ensures bc.disk == ApplyAll(old(bc.disk), RecoverWrites(l, old(bc.disk)))
      ensures bc.writes == old(bc.writes) + RecoverWrites(l, old(bc.disk))
    {
      ghost var d0, w0 := bc.disk, bc.writes;
      RecoverPhases(l, d0);
      ReadHead();
      RecoverTrans();
      lh, pin := [], [];
      assert bc.slots[0].refcnt == 0;
      ghost var s := bc.slots;
      var ok := WriteHead([], []);
      assert AllIdle(bc.slots);
      RecoverAssembled(l, d0, w0, bc.disk, bc.writes);
    }

    /** `read_head` */
    method ReadHead()
      requires Ok([], [], {}) && AllIdle(bc.slots) && bc.n >= 1 && DiskWf(l, bc.disk)
      modifies this`lh, bc.buf, bc
      ensures Ok([], [], {}) && AllIdle(bc.slots) && bc.disk == old(bc.disk) && bc.writes == old(bc.writes)
      ensures lh == DecodeHead(l, bc.disk[l.start])
    {
      ghost var s := bc.slots;
      assert s[0].refcnt == 0;
      var i := ReadClean(l.start, []);
      var x := bc.Get(i);
      lh := ParseHead(l, x.data);
      bc.Brelse(i);
      assert bc.slots == s[i := Slot(true, dev, l.start, 0, bc.disk[l.start])];
    }

    /** `install_trans(1)` */
    method RecoverTrans()
      requires Ok([], [], {}) && AllIdle(bc.slots) && bc.n >= 2 && DiskWf(l, bc.disk)
      requires lh == DecodeHead(l, bc.disk[l.start])
      modifies bc.buf, bc
      ensures Ok([], [], {}) && AllIdle(bc.slots)
      ensures bc.disk == ApplyAll(old(bc.disk), InstallWrites(LoggedTxn(l, old(bc.disk))))
      ensures bc.writes == old(bc.writes) + InstallWrites(LoggedTxn(l, old(bc.disk)))
    {
      ghost var t, d0, w0 := LoggedTxn(l, bc.disk), bc.disk, bc.writes;
      ghost var ws := InstallWrites(t);
      assert Copied(l, d0, t);
      var tail := 0;
      while tail < |lh|
        invariant 0 <= tail <= |lh|
        invariant Ok([], [], {}) && AllIdle(bc.slots) && Copied(l, bc.disk, t)
        invariant Issued(d0, w0, ws, tail, bc.disk, bc.writes)
      {
        ghost var d, w := bc.disk, bc.writes;
        assert d[l.start + 1 + tail] == t.data[tail];
        RecoverOne(tail, lh);
        IssueOneMore(d0, w0, ws, tail, d, w, Write(lh[tail], t.data[tail]));
        CopiedKept(l, d, lh[tail], t.data[tail], t);
        tail := tail + 1;
      }
      assert ws[..tail] == ws;
    }
  }

  /** Logging a held buffer: it is pinned, and no longer anybody's private change. */
  lemma LogKeeps(l: Layout, dev: nat, s: seq<Slot>, b: nat, d: Disk, lh: seq<int>, pin: seq<int>, held: set<int>)
    requires b < |s| && s[b].dev == dev && s[b].valid && s[b].refcnt > 0 && l.Home(s[b].blockno) && s[b].blockno !in lh
    requires Coherent(l, dev, s, d, lh, held) && Pinned(dev, s, lh, pin) && LogIdle(l, dev, s)
    requires Distinct(lh) && AllHome(l, lh)
    ensures var s' := s[b := s[b].(refcnt := s[b].refcnt + 1)];
            var lh', pin' := lh + [s[b].blockno], pin + [b as int];
            && Coherent(l, dev, s', d, lh', held - {b}) && Pinned(dev, s', lh', pin') && LogIdle(l, dev, s')
            && Distinct(lh') && AllHome(l, lh')
  {
  }

  ghost predicate AllIdle(s: seq<Slot>) {
    forall i :: 0 <= i < |s| ==> s[i].refcnt == 0
  }

  lemma RecoverKeeps(l: Layout, dev: nat, s: seq<Slot>, s': seq<Slot>, i: int, j: int, log: nat, home: nat, d: Disk)
    requires Coherent(l, dev, s, d, [], {}) && AllIdle(s) && Unique(s')
    requires 0 <= i < |s| && 0 <= j < |s| && i != j && dev != 0
    requires log < |d| && home < |d| && log != home && |d[log]| == l.words
    requires s' == s[i := Slot(true, dev, log, 0, d[log])][j := Slot(true, dev, home, 0, d[log])]
    ensures Coherent(l, dev, s', Apply(d, Write(home, d[log])), [], {}) && AllIdle(s')
  {
    assert forall k :: 0 <= k < |s| && k != j && s'[k].dev == dev ==> s'[k].blockno != home by {
      assert s'[j].Tagged(dev, home);
    }
  }

  lemma RecoverPhases(l: Layout, d0: Disk)
    requires DiskWf(l, d0)
    ensures var d1 := ApplyAll(d0, InstallWrites(LoggedTxn(l, d0)));
            |d1| == l.nblocks && d1[l.start] == d0[l.start]
  {
    var t := LoggedTxn(l, d0);
    LoggedTxnWf(l, d0);
    UpdateAt(l, d0, t, |t.blocks|);
    assert InstallWrites(t)[..|t.blocks|] == InstallWrites(t) && t.blocks[..|t.blocks|] == t.blocks;
  }

  lemma RecoverAssembled(l: Layout, d0: Disk, w0: seq<Write>, d: Disk, w: seq<Write>)
    requires DiskWf(l, d0)
    requires var iw, y := InstallWrites(LoggedTxn(l, d0)), Write(l.start, EncodeHead(d0[l.start], []));
             d == Apply(ApplyAll(d0, iw), y) && w == w0 + iw + [y]
    ensures d == ApplyAll(d0, RecoverWrites(l, d0)) && w == w0 + RecoverWrites(l, d0) && Clean(l, d)
  {
    var iw, y := InstallWrites(LoggedTxn(l, d0)), Write(l.start, EncodeHead(d0[l.start], []));
    var t := LoggedTxn(l, d0);
    LoggedTxnWf(l, d0);
    ApplyTail(d0, iw, y);
    UpdateIsOverlay(l, d0, d0, t);
    CrashInRecovery(l, d0, Update(d0, t), |RecoverWrites(l, d0)|);
    assert RecoverWrites(l, d0)[..|RecoverWrites(l, d0)|] == RecoverWrites(l, d0);
  }

  /** The cache and the log have the same capacity in kernel/param.h, so a full
      log leaves no buffer for commit: every buffer then pins a logged block. */
  lemma FullLogStarvesCommit(dev: nat, s: seq<Slot>, lh: seq<int>, pin: seq<int>)
    requires Pinned(dev, s, lh, pin) && Distinct(lh) && |lh| == |s|
    ensures !HasFree(s)
  {
    PinsDistinct(dev, s, lh, pin);
    Pigeonhole(pin, |s|);
    forall i | 0 <= i < |s| ensures s[i].refcnt > 0 {
      assert i in pin;
      var t :| 0 <= t < |pin| && pin[t] == i;
    }
  }

  /** The disk right after the header write. */
  ghost function Sealed(l: Layout, d: Disk, t: Txn): Disk
    requires DiskWf(l, d) && TxnWf(l, t)
  {
    Apply(ApplyAll(d, LogWrites(l, t)), Write(l.start, EncodeHead(d[l.start], t.blocks)))
  }

  /** What each phase of a commit finds on the disk. */
  lemma CommitPhases(l: Layout, d0: Disk, t: Txn)
    requires Clean(l, d0) && TxnWf(l, t)
    ensures var d1 := ApplyAll(d0, LogWrites(l, t));
            var d2 := Sealed(l, d0, t);
            var d3 := ApplyAll(d2, InstallWrites(t));
            && |d1| == |d2| == |d3| == l.nblocks
            && d1[l.start] == d0[l.start] && Copied(l, d2, t)
            && d3[l.start] == EncodeHead(d0[l.start], t.blocks)
  {
    var n := |t.blocks|;
    DuringLogging(l, d0, d0, t, n);
    assert LogWrites(l, t)[..n] == LogWrites(l, t) && t.data[..n] == t.data;
    var d1 := ApplyAll(d0, LogWrites(l, t));
    forall i | 0 <= i < n ensures d1[l.start + 1 + i] == t.data[i] {
      assert d1[l.start + 1..l.start + 1 + n][i] == t.data[i];
    }
    var d2 := Apply(d1, Write(l.start, EncodeHead(d0[l.start], t.blocks)));
    UpdateAt(l, d2, t, n);
    assert InstallWrites(t)[..n] == InstallWrites(t) && t.blocks[..n] == t.blocks;
  }

  /** The phases put together. */
  lemma CommitAssembled(l: Layout, d0: Disk, t: Txn, w0: seq<Write>, d: Disk, w: seq<Write>)
    requires Clean(l, d0) && TxnWf(l, t) && t.blocks != []
    requires var head := EncodeHead(d0[l.start], t.blocks);
             && d == Apply(ApplyAll(Sealed(l, d0, t), InstallWrites(t)), Write(l.start, EncodeHead(head, [])))
             && w == w0 + LogWrites(l, t) + [Write(l.start, head)] + InstallWrites(t)
                     + [Write(l.start, EncodeHead(head, []))]
    ensures d == ApplyAll(d0, CommitWrites(l, d0, t)) && w == w0 + CommitWrites(l, d0, t) && Clean(l, d)
  {
    var head := EncodeHead(d0[l.start], t.blocks);
    var x, y := Write(l.start, head), Write(l.start, EncodeHead(head, []));
    FourPhases(d0, LogWrites(l, t), x, InstallWrites(t), y);
    WritesJoin(w0, LogWrites(l, t), x, InstallWrites(t), y);
    WholeCommit(l, d0, d0, t);
  }

  lemma FourPhases(d: Disk, a: seq<Write>, x: Write, b: seq<Write>, y: Write)
    ensures ApplyAll(d, a + [x] + b + [y]) == Apply(ApplyAll(Apply(ApplyAll(d, a), x), b), y)
  {
    ApplyTail(d, a, x);
    ApplyConcat(d, a + [x], b);
    ApplyTail(d, a + [x] + b, y);
  }

  lemma WritesJoin(w: seq<Write>, a: seq<Write>, x: Write, b: seq<Write>, y: Write)
    ensures w + a + [x] + b + [y] == w + (a + [x] + b + [y])
  {
  }

  /** The loop of `write_head`, on the header block's words. */
  method FillHead(stale: Block, blocks: seq<int>) returns (hb: Block)
    requires |blocks| + 1 <= |stale|
    ensures hb == EncodeHead(stale, blocks)
  {
    hb := stale[0 := |blocks|];
    var i := 0;
    while i < |blocks|
      invariant 0 <= i <= |blocks| && |hb| == |stale| && hb[0] == |blocks|
      invariant hb[1..i + 1] == blocks[..i] && hb[i + 1..] == stale[i + 1..]
    {
      hb := hb[i + 1 := blocks[i]];
      assert hb[1..i + 2] == hb[1..i + 1] + [blocks[i]];
      i := i + 1;
    }
    assert hb == [hb[0]] + hb[1..i + 1] + hb[i + 1..];
  }

  /** The loop of `read_head`. */
  method ParseHead(l: Layout, hb: Block) returns (blocks: seq<int>)
    requires HeadWf(l, hb)
    ensures blocks == DecodeHead(l, hb)
  {
    blocks := [];
    while |blocks| < hb[0]
      invariant |blocks| <= hb[0] && blocks == hb[1..|blocks| + 1]
      decreases hb[0] - |blocks|
    {
      blocks := blocks + [hb[|blocks| + 1]];
    }
  }

  /** Each of the buffers `pins` has lost one reference; no other count changed. Buffers still in use have
      their blocks. */
  ghost predicate Unpinned(s: seq<Slot>, s': seq<Slot>, pins: seq<int>) {
    && |s| == |s'| && (forall j :: 0 <= j < |s| ==> s'[j].refcnt == s[j].refcnt - (if j in pins then 1 else 0))
    && (forall j :: 0 <= j < |s| && s'[j].refcnt > 0 ==> SameBlock(s[j], s'[j]))
  }

  lemma UnpinnedAfter(s: seq<Slot>, s1: seq<Slot>, s2: seq<Slot>, pins: seq<int>)
    requires Untouched(s, s1) && Unpinned(s1, s2, pins)
    ensures Unpinned(s, s2, pins)
  {
  }

  lemma UnpinOneMore(s0: seq<Slot>, s: seq<Slot>, s': seq<Slot>, pin: seq<int>, k: nat)
    requires k < |pin| && Distinct(pin) && Unpinned(s0, s, pin[..k]) && |s'| == |s|
    requires Unpinned(s, s', [pin[k]])
    ensures Unpinned(s0, s', pin[..k + 1])
  {
  }

  /** The log region holds the contents of `t`. */
  ghost predicate Copied(l: Layout, d: Disk, t: Txn) {
    && l.Wf() && |d| == l.nblocks && |t.data| <= l.cap
    && forall i :: 0 <= i < |t.data| ==> d[l.start + 1 + i] == t.data[i]
  }

  lemma CopiedKept(l: Layout, d: Disk, b: int, x: Block, t: Txn)
    requires Copied(l, d, t) && l.Home(b)
    ensures Copied(l, Apply(d, Write(b, x)), t)
  {
  }

  /** Distinct blocks are pinned by distinct buffers. */
  lemma PinsDistinct(dev: nat, s: seq<Slot>, lh: seq<int>, pin: seq<int>)
    requires Pinned(dev, s, lh, pin) && Distinct(lh)
    ensures Distinct(pin)
  {
  }

  ghost predicate InstalledOne(s: seq<Slot>, s': seq<Slot>, i: int, dev: nat, b: nat, data: Block, p: int) {
    && 0 <= i < |s| && 0 <= p < |s| && s[p].refcnt > 0
    && (s[i].Tagged(dev, b) || (s[i].refcnt == 0 && !Cached(s, dev, b)))
    && s' == s[i := Slot(true, dev, b, s[i].refcnt, data)][p := s[p].(data := data, refcnt := s[p].refcnt - 1)]
  }

  lemma TailHome(l: Layout, lst: seq<int>)
    requires lst != [] && Distinct(lst) && AllHome(l, lst)
    ensures Distinct(lst[1..]) && AllHome(l, lst[1..])
  {
  }

  lemma InstalledCounts(s: seq<Slot>, s': seq<Slot>, i: int, dev: nat, b: nat, data: Block, p: int)
    requires InstalledOne(s, s', i, dev, b, data, p) && HasFree(s)
    ensures Unpinned(s, s', [p]) && HasFree(s')
  {
    var f :| 0 <= f < |s| && s[f].refcnt == 0;
    assert s'[f].refcnt == 0;
  }

  lemma LogBufferFree(l: Layout, dev: nat, s: seq<Slot>, b: nat)
    requires LogIdle(l, dev, s) && l.start <= b <= l.start + l.cap && Cached(s, dev, b)
    ensures HasFree(s)
  {
  }
}
