/** What the redo log of kernel/log.c promises about the disk: the exact
    sequence of block writes issued by `commit` and by `recover_from_log`, and
    the proof that a crash between any two of them is harmless. */
module CrashRecovery {
  import opened Disks
  import opened Counting

  /** Where the log lives. The header is block `start`, the copies are the
      `cap` blocks after it, and every other block is a home block. */
  datatype Layout = Layout(start: nat, cap: nat, nblocks: nat, words: nat) {

    /** `initlog` refuses a header that does not fit into one block. */
    predicate Wf() {
      start + cap < nblocks && cap + 1 < words
    }

    predicate Home(b: int) {
      0 <= b < nblocks && !(start <= b <= start + cap)
    }
  }

  /** A committed group of operations: distinct home blocks and their new contents. */
  datatype Txn = Txn(blocks: seq<int>, data: seq<Block>)

  ghost predicate AllHome(l: Layout, bs: seq<int>) {
    forall i :: 0 <= i < |bs| ==> l.Home(bs[i])
  }

  ghost predicate AllSized(l: Layout, bs: seq<Block>) {
    forall i :: 0 <= i < |bs| ==> |bs[i]| == l.words
  }

  ghost predicate TxnWf(l: Layout, t: Txn) {
    && |t.blocks| == |t.data| <= l.cap
    && Distinct(t.blocks) && AllHome(l, t.blocks) && AllSized(l, t.data)
  }

  ghost predicate HeadWf(l: Layout, h: Block) {
    && |h| == l.words
    && l.Wf()
    && 0 <= h[0] <= l.cap
    && Distinct(DecodeHead(l, h)) && AllHome(l, DecodeHead(l, h))
  }

  ghost predicate DiskWf(l: Layout, d: Disk) {
    && l.Wf()
    && |d| == l.nblocks && AllSized(l, d)
    && HeadWf(l, d[l.start])
  }

  /** The header block holds no transaction. */
  ghost predicate Clean(l: Layout, d: Disk) {
    DiskWf(l, d) && d[l.start][0] == 0
  }

  /** `write_head`: the count and the block numbers; words beyond them are left as they were. */
  function EncodeHead(stale: Block, blocks: seq<int>): Block
    requires |blocks| + 1 <= |stale|
  {
    [|blocks|] + blocks + stale[|blocks| + 1..]
  }

  /** The block numbers `read_head` finds. */
  function DecodeHead(l: Layout, h: Block): seq<int>
    requires l.Wf() && |h| == l.words && 0 <= h[0] <= l.cap
  {
    h[1..h[0] + 1]
  }

  /** `write_log`. */
  function LogWrites(l: Layout, t: Txn): seq<Write> {
    seq(|t.data|, i requires 0 <= i < |t.data| => Write(l.start + 1 + i, t.data[i]))
  }

  /** `install_trans`. */
  function InstallWrites(t: Txn): seq<Write>
    requires |t.blocks| == |t.data|
  {
    seq(|t.data|, i requires 0 <= i < |t.data| => Write(t.blocks[i], t.data[i]))
  }

  /** The transaction recorded in the log region. */
  function LoggedTxn(l: Layout, d: Disk): Txn
    requires DiskWf(l, d)
  {
    Txn(DecodeHead(l, d[l.start]), d[l.start + 1..l.start + 1 + d[l.start][0]])
  }

  /** Every disk write of `commit`, in order. The second header write leaves
      the stale block numbers of the first in place. */
  function CommitWrites(l: Layout, d: Disk, t: Txn): seq<Write>
    requires DiskWf(l, d) && TxnWf(l, t)
  {
    if t.blocks == [] then [] else
      var head := EncodeHead(d[l.start], t.blocks);
      LogWrites(l, t) + [Write(l.start, head)] + InstallWrites(t) + [Write(l.start, EncodeHead(head, []))]
  }

  /** Every disk write of `recover_from_log`, in order. */
  function RecoverWrites(l: Layout, d: Disk): seq<Write>
    requires DiskWf(l, d)
  {
    InstallWrites(LoggedTxn(l, d)) + [Write(l.start, EncodeHead(d[l.start], []))]
  }

  // -------- What a disk means: the home image that recovery would produce --------

  /** `h` is the image `d` with transaction `t` installed, as far as home blocks go. */
  ghost predicate Overlay(l: Layout, d: Disk, t: Txn, h: Disk) {
    && |h| == |d| == l.nblocks
    && |t.blocks| == |t.data| && AllHome(l, t.blocks)
    && (forall i :: 0 <= i < |t.blocks| ==> h[t.blocks[i]] == t.data[i])
    && (forall b :: l.Home(b) && b !in t.blocks ==> h[b] == d[b])
  }

  /** `h` gives each home block the value it has once the log is installed. */
  ghost predicate Denotes(l: Layout, d: Disk, h: Disk) {
    DiskWf(l, d) && Overlay(l, d, LoggedTxn(l, d), h)
  }

  ghost predicate SameHome(l: Layout, d: Disk, h: Disk) {
    |d| == |h| == l.nblocks && forall b :: l.Home(b) ==> d[b] == h[b]
  }

  /** The home image after transaction `t`. */
  function Update(h: Disk, t: Txn): Disk
    requires |t.blocks| == |t.data|
  {
    ApplyAll(h, InstallWrites(t))
  }

  lemma CleanDenotes(l: Layout, d: Disk, h: Disk)
    requires Clean(l, d)
    ensures Denotes(l, d, h) <==> SameHome(l, d, h)
  {
  }

  lemma {:induction false} UpdateAt(l: Layout, h: Disk, t: Txn, k: nat)
    requires l.Wf() && |h| == l.nblocks && TxnWf(l, t) && k <= |t.blocks|
    ensures var u := ApplyAll(h, InstallWrites(t)[..k]);
            && |u| == |h|
            && (forall i :: 0 <= i < k ==> u[t.blocks[i]] == t.data[i])
            && (forall b :: 0 <= b < |h| && b !in t.blocks[..k] ==> u[b] == h[b])
            && (AllSized(l, h) ==> AllSized(l, u))
  {
    if k > 0 {
      UpdateAt(l, h, t, k - 1);
      ApplyOneMore(h, InstallWrites(t), k - 1);
      assert t.blocks[..k] == t.blocks[..k - 1] + [t.blocks[k - 1]];
    }
  }

  lemma UpdateIsOverlay(l: Layout, d: Disk, h: Disk, t: Txn)
    requires l.Wf() && TxnWf(l, t) && SameHome(l, d, h)
    ensures Overlay(l, d, t, Update(h, t))
  {
    UpdateAt(l, h, t, |t.blocks|);
    assert InstallWrites(t)[..|t.blocks|] == InstallWrites(t);
    assert t.blocks[..|t.blocks|] == t.blocks;
  }

  // -------- One write at a time --------

  /** The first `k` blocks of `t` are in the log region. */
  ghost predicate InLog(l: Layout, e: Disk, t: Txn, k: nat) {
    k <= |t.data| && l.start + k < |e| && forall i :: 0 <= i < k ==> e[l.start + 1 + i] == t.data[i]
  }

  lemma InLogSlice(l: Layout, e: Disk, t: Txn, k: nat)
    requires InLog(l, e, t, k)
    ensures e[l.start + 1..l.start + 1 + k] == t.data[..k]
  {
  }

  lemma CopyOne(l: Layout, e: Disk, h: Disk, t: Txn, k: nat)
    requires Clean(l, e) && SameHome(l, e, h) && TxnWf(l, t) && InLog(l, e, t, k) && k < |t.data|
    ensures var e' := Apply(e, Write(l.start + 1 + k, t.data[k]));
            Clean(l, e') && SameHome(l, e', h) && e'[l.start] == e[l.start] && InLog(l, e', t, k + 1)
  {
  }

  lemma {:induction false} LoggingSoFar(l: Layout, d: Disk, h: Disk, t: Txn, k: nat)
    requires Clean(l, d) && SameHome(l, d, h) && TxnWf(l, t) && k <= |t.blocks|
    ensures var e := ApplyAll(d, LogWrites(l, t)[..k]);
            Clean(l, e) && SameHome(l, e, h) && e[l.start] == d[l.start] && InLog(l, e, t, k)
  {
    if k > 0 {
      LoggingSoFar(l, d, h, t, k - 1);
      ApplyOneMore(d, LogWrites(l, t), k - 1);
      CopyOne(l, ApplyAll(d, LogWrites(l, t)[..k - 1]), h, t, k - 1);
    }
  }

  /** Copying into the log region means nothing while the header is empty. */
  lemma DuringLogging(l: Layout, d: Disk, h: Disk, t: Txn, k: nat)
    requires Clean(l, d) && SameHome(l, d, h) && TxnWf(l, t) && k <= |t.blocks|
    ensures var e := ApplyAll(d, LogWrites(l, t)[..k]);
            && Clean(l, e) && SameHome(l, e, h)
            && e[l.start] == d[l.start]
            && e[l.start + 1..l.start + 1 + k] == t.data[..k]
  {
    LoggingSoFar(l, d, h, t, k);
    InLogSlice(l, ApplyAll(d, LogWrites(l, t)[..k]), t, k);
  }

  lemma EncodedHead(l: Layout, stale: Block, blocks: seq<int>)
    requires l.Wf() && |stale| == l.words && |blocks| <= l.cap && Distinct(blocks) && AllHome(l, blocks)
    ensures HeadWf(l, EncodeHead(stale, blocks))
    ensures DecodeHead(l, EncodeHead(stale, blocks)) == blocks
    ensures IsHead(EncodeHead(stale, blocks), blocks) && |EncodeHead(stale, blocks)| == |stale|
  {
    assert EncodeHead(stale, blocks)[1..|blocks| + 1] == blocks;
  }

  /** A header block: the number of logged blocks in its first word, their numbers in the next. */
  predicate IsHead(h: Block, blocks: seq<int>) {
    |h| > |blocks| && h[0] == |blocks| && forall i :: 0 <= i < |blocks| ==> h[i + 1] == blocks[i]
  }

  /** The writes of `commit`, one by one: the new contents into the log, in order; the header that lists the
      blocks; the new contents to their homes; a header that lists nothing. */
  lemma CommitOrder(l: Layout, d: Disk, t: Txn, i: nat)
    requires DiskWf(l, d) && TxnWf(l, t)
    ensures |CommitWrites(l, d, t)| == if t.blocks == [] then 0 else 2 * |t.blocks| + 2
    ensures i < |CommitWrites(l, d, t)| ==>
              var n, w := |t.blocks|, CommitWrites(l, d, t)[i];
              if i < n then w == Write(l.start + 1 + i, t.data[i])
              else if i == n then w.addr == l.start && IsHead(w.data, t.blocks)
              else if i <= 2 * n then w == Write(t.blocks[i - n - 1], t.data[i - n - 1])
              else w.addr == l.start && IsHead(w.data, [])
  {
    EncodedHead(l, d[l.start], t.blocks);
    EncodedHead(l, EncodeHead(d[l.start], t.blocks), []);
  }

  /** The writes of recovery: what the log holds for each block that the header lists goes to its home, and
      then the header lists nothing. */
  lemma RecoverOrder(l: Layout, d: Disk)
    requires DiskWf(l, d)
    ensures var n, ws := d[l.start][0], RecoverWrites(l, d);
            && 0 <= n <= l.cap && |ws| == n + 1
            && (forall i :: 0 <= i < n ==> ws[i] == Write(d[l.start][i + 1], d[l.start + 1 + i]))
            && ws[n].addr == l.start && IsHead(ws[n].data, [])
  {
    EncodedHead(l, d[l.start], []);
  }

  /** The commit point: the header write switches the meaning of the disk. */
  lemma CommitPoint(l: Layout, d: Disk, h: Disk, t: Txn)
    requires Clean(l, d) && SameHome(l, d, h) && TxnWf(l, t)
    requires d[l.start + 1..l.start + 1 + |t.data|] == t.data
    ensures var e := Apply(d, Write(l.start, EncodeHead(d[l.start], t.blocks)));
            && Denotes(l, e, Update(h, t))
            && LoggedTxn(l, e) == t
            && e[l.start] == EncodeHead(d[l.start], t.blocks)
  {
    HeadWritten(l, d, t);
    UpdateIsOverlay(l, Apply(d, Write(l.start, EncodeHead(d[l.start], t.blocks))), h, t);
  }

  lemma HeadWritten(l: Layout, d: Disk, t: Txn)
    requires Clean(l, d) && TxnWf(l, t) && d[l.start + 1..l.start + 1 + |t.data|] == t.data
    ensures var e := Apply(d, Write(l.start, EncodeHead(d[l.start], t.blocks)));
            DiskWf(l, e) && LoggedTxn(l, e) == t && SameHome(l, e, d)
  {
    var e := Apply(d, Write(l.start, EncodeHead(d[l.start], t.blocks)));
    EncodedHead(l, d[l.start], t.blocks);
    assert e[l.start + 1..l.start + 1 + |t.data|] == d[l.start + 1..l.start + 1 + |t.data|];
  }

  lemma LoggedTxnWf(l: Layout, d: Disk)
    requires DiskWf(l, d)
    ensures TxnWf(l, LoggedTxn(l, d))
  {
  }

  /** Writing some of a transaction's blocks underneath its overlay. */
  lemma OverlayStable(l: Layout, d: Disk, t: Txn, h: Disk, k: nat)
    requires l.Wf() && TxnWf(l, t) && Overlay(l, d, t, h) && k <= |t.blocks|
    ensures var e := ApplyAll(d, InstallWrites(t)[..k]);
            Overlay(l, e, t, h) && (k == |t.blocks| ==> SameHome(l, e, h))
  {
    UpdateAt(l, d, t, k);
    assert forall b :: b in t.blocks[..k] ==> b in t.blocks;
    if k == |t.blocks| {
      assert t.blocks[..k] == t.blocks;
    }
  }

  /** Installing, in part or completely, never changes what the disk means;
      installing everything makes the home blocks themselves correct. */
  lemma DuringInstall(l: Layout, d: Disk, h: Disk, k: nat)
    requires Denotes(l, d, h) && k <= d[l.start][0]
    ensures var e := ApplyAll(d, InstallWrites(LoggedTxn(l, d))[..k]);
            && Denotes(l, e, h)
            && (k == d[l.start][0] ==> SameHome(l, e, h))
  {
    var t := LoggedTxn(l, d);
    LoggedTxnWf(l, d);
    var e := ApplyAll(d, InstallWrites(t)[..k]);
    OverlayStable(l, d, t, h, k);
    UpdateAt(l, d, t, k);
    SameLog(l, d, e);
  }

  /** A disk with the same log region records the same transaction. */
  lemma SameLog(l: Layout, d: Disk, e: Disk)
    requires DiskWf(l, d) && |e| == |d| && AllSized(l, e)
    requires forall b :: l.start <= b <= l.start + l.cap ==> e[b] == d[b]
    ensures DiskWf(l, e) && LoggedTxn(l, e) == LoggedTxn(l, d)
  {
    var n := d[l.start][0];
    assert e[l.start] == d[l.start];
    assert e[l.start + 1..l.start + 1 + n] == d[l.start + 1..l.start + 1 + n];
  }

  /** Clearing the header once the home blocks are correct. */
  lemma ClearHead(l: Layout, d: Disk, h: Disk, stale: Block)
    requires DiskWf(l, d) && SameHome(l, d, h) && |stale| == l.words
    ensures var e := Apply(d, Write(l.start, EncodeHead(stale, [])));
            Clean(l, e) && SameHome(l, e, h)
  {
  }

  // -------- A crash at any point --------

  /** Whether a crash after the first `k` writes of committing `t` keeps the transaction. */
  predicate Reached(t: Txn, k: nat) {
    t.blocks != [] && k > |t.blocks|
  }

  lemma Phases<T>(a: seq<T>, x: T, b: seq<T>, y: T, j: nat)
    requires j <= |b|
    ensures var s := a + [x] + b + [y];
            && s[..|a|] == a && s[..|a| + 1] == a + [x]
            && s[..|a| + 1 + j] == a + [x] + b[..j]
            && s[..|s| - 1] == a + [x] + b
  {
  }

  lemma LoggingPhase(l: Layout, d: Disk, h: Disk, t: Txn, k: nat)
    requires Clean(l, d) && SameHome(l, d, h) && TxnWf(l, t) && t.blocks != [] && k <= |t.blocks|
    ensures Denotes(l, ApplyAll(d, CommitWrites(l, d, t)[..k]), h)
  {
    assert CommitWrites(l, d, t)[..k] == LogWrites(l, t)[..k];
    DuringLogging(l, d, h, t, k);
    CleanDenotes(l, ApplyAll(d, LogWrites(l, t)[..k]), h);
  }

  lemma UpToCommitPoint(l: Layout, d: Disk, h: Disk, t: Txn)
    requires Clean(l, d) && SameHome(l, d, h) && TxnWf(l, t)
    ensures var e := ApplyAll(d, LogWrites(l, t) + [Write(l.start, EncodeHead(d[l.start], t.blocks))]);
            Denotes(l, e, Update(h, t)) && LoggedTxn(l, e) == t
  {
    var n := |t.blocks|;
    DuringLogging(l, d, h, t, n);
    assert LogWrites(l, t)[..n] == LogWrites(l, t);
    assert t.data[..n] == t.data;
    var d1 := ApplyAll(d, LogWrites(l, t));
    CommitPoint(l, d1, h, t);
    var w := Write(l.start, EncodeHead(d[l.start], t.blocks));
    ApplyTail(d, LogWrites(l, t), w);
  }

  lemma Installing(l: Layout, d: Disk, h: Disk, t: Txn, j: nat)
    requires Clean(l, d) && SameHome(l, d, h) && TxnWf(l, t) && j <= |t.blocks|
    ensures var ws := LogWrites(l, t) + [Write(l.start, EncodeHead(d[l.start], t.blocks))];
            var e := ApplyAll(d, ws + InstallWrites(t)[..j]);
            && Denotes(l, e, Update(h, t))
            && (j == |t.blocks| ==> SameHome(l, e, Update(h, t)))
  {
    var ws := LogWrites(l, t) + [Write(l.start, EncodeHead(d[l.start], t.blocks))];
    UpToCommitPoint(l, d, h, t);
    ApplyConcat(d, ws, InstallWrites(t)[..j]);
    DuringInstall(l, ApplyAll(d, ws), Update(h, t), j);
  }

  lemma InstallPhase(l: Layout, d: Disk, h: Disk, t: Txn, j: nat)
    requires Clean(l, d) && SameHome(l, d, h) && TxnWf(l, t) && t.blocks != [] && j <= |t.blocks|
    ensures Denotes(l, ApplyAll(d, CommitWrites(l, d, t)[..|t.blocks| + 1 + j]), Update(h, t))
  {
    var head := EncodeHead(d[l.start], t.blocks);
    var first := LogWrites(l, t) + [Write(l.start, head)];
    assert CommitWrites(l, d, t)[..|t.blocks| + 1 + j] == first + InstallWrites(t)[..j] by {
      Phases(LogWrites(l, t), Write(l.start, head), InstallWrites(t), Write(l.start, EncodeHead(head, [])), j);
    }
    Installing(l, d, h, t, j);
  }

  lemma WholeCommit(l: Layout, d: Disk, h: Disk, t: Txn)
    requires Clean(l, d) && SameHome(l, d, h) && TxnWf(l, t) && t.blocks != []
    ensures var e := ApplyAll(d, CommitWrites(l, d, t));
            Clean(l, e) && SameHome(l, e, Update(h, t))
  {
    var head := EncodeHead(d[l.start], t.blocks);
    var clear := Write(l.start, EncodeHead(head, []));
    Phases(LogWrites(l, t), Write(l.start, head), InstallWrites(t), clear, |t.blocks|);
    Installing(l, d, h, t, |t.blocks|);
    assert InstallWrites(t)[..|t.blocks|] == InstallWrites(t);
    ClearHead(l, ApplyAll(d, LogWrites(l, t) + [Write(l.start, head)] + InstallWrites(t)), Update(h, t), head);
  }

  /** A crash after any number of `commit`'s writes leaves a disk that means
      either the state before or the state after, decided by the header write alone. */
  lemma CrashInCommit(l: Layout, d: Disk, h: Disk, t: Txn, k: nat)
    requires Clean(l, d) && SameHome(l, d, h) && TxnWf(l, t)
    requires k <= |CommitWrites(l, d, t)|
    ensures var e := ApplyAll(d, CommitWrites(l, d, t)[..k]);
            && Denotes(l, e, if Reached(t, k) then Update(h, t) else h)
            && (k == |CommitWrites(l, d, t)| ==> Clean(l, e))
  {
    var n := |t.blocks|;
    var ws := CommitWrites(l, d, t);
    assert |ws| == if n == 0 then 0 else 2 * n + 2;
    if n == 0 {
      CleanDenotes(l, d, h);
    } else if k <= n {
      LoggingPhase(l, d, h, t, k);
    } else if k <= 2 * n + 1 {
      InstallPhase(l, d, h, t, k - n - 1);
    } else {
      assert ws[..k] == ws;
      WholeCommit(l, d, h, t);
      CleanDenotes(l, ApplyAll(d, ws), Update(h, t));
    }
  }

  /** A crash after any number of recovery's own writes changes nothing, and a
      recovery that completes leaves the meaning in the home blocks and an empty log. */
  lemma CrashInRecovery(l: Layout, d: Disk, h: Disk, k: nat)
    requires Denotes(l, d, h) && k <= |RecoverWrites(l, d)|
    ensures var e := ApplyAll(d, RecoverWrites(l, d)[..k]);
            && Denotes(l, e, h)
            && (k == |RecoverWrites(l, d)| ==> Clean(l, e) && SameHome(l, e, h))
  {
    var iw := InstallWrites(LoggedTxn(l, d));
    var ws := RecoverWrites(l, d);
    if k <= |iw| {
      assert ws[..k] == iw[..k];
      DuringInstall(l, d, h, k);
    } else {
      assert ws[..k - 1] == iw[..k - 1];
      DuringInstall(l, d, h, k - 1);
      ApplyOneMore(d, ws, k - 1);
      var e := ApplyAll(d, ws[..k - 1]);
      ClearHead(l, e, h, d[l.start]);
      CleanDenotes(l, ApplyAll(d, ws[..k]), h);
    }
  }

  // -------- Whole runs --------

  /** A run is a sequence of these. `Crashed(t, k, reboots)`: power fails after
      `k` writes of committing `t`; each reboot starts recovery again and fails
      after the given number of its writes, and then one recovery completes. */
  datatype Event =
    | Committed(t: Txn)
    | Crashed(t: Txn, k: nat, reboots: seq<nat>)

  function Prefix(ws: seq<Write>, k: nat): seq<Write> {
    if k <= |ws| then ws[..k] else ws
  }

  /** The disk after the reboots of `ks` (each interrupted) and a final, complete recovery. */
  ghost function Reboot(l: Layout, d: Disk, ks: seq<nat>): Disk
    requires DiskWf(l, d)
    decreases |ks|
  {
    if ks == [] then ApplyAll(d, RecoverWrites(l, d)) else
      var e := ApplyAll(d, Prefix(RecoverWrites(l, d), ks[0]));
      if DiskWf(l, e) then Reboot(l, e, ks[1..]) else e
  }

  ghost function Step(l: Layout, d: Disk, ev: Event): Disk
    requires DiskWf(l, d) && TxnWf(l, ev.t)
  {
    match ev
    case Committed(t) => ApplyAll(d, CommitWrites(l, d, t))
    case Crashed(t, k, reboots) =>
      var e := ApplyAll(d, Prefix(CommitWrites(l, d, t), k));
      if DiskWf(l, e) then Reboot(l, e, reboots) else e
  }

  ghost function Run(l: Layout, d: Disk, evs: seq<Event>): Disk
    requires DiskWf(l, d)
    requires forall i :: 0 <= i < |evs| ==> TxnWf(l, evs[i].t)
    decreases |evs|
  {
    if evs == [] then d else
      var e := Step(l, d, evs[0]);
      if DiskWf(l, e) then Run(l, e, evs[1..]) else e
  }

  /** Whether an event's transaction takes effect. */
  predicate Survives(ev: Event) {
    ev.Committed? || Reached(ev.t, ev.k)
  }

  /** The specification: apply, in order, the transactions that take effect. */
  ghost function Replay(h: Disk, evs: seq<Event>): Disk
    requires forall i :: 0 <= i < |evs| ==> |evs[i].t.blocks| == |evs[i].t.data|
    decreases |evs|
  {
    if evs == [] then h
    else Replay(if Survives(evs[0]) then Update(h, evs[0].t) else h, evs[1..])
  }

  lemma {:induction false} RebootsConverge(l: Layout, d: Disk, h: Disk, ks: seq<nat>)
    requires Denotes(l, d, h)
    ensures Clean(l, Reboot(l, d, ks)) && SameHome(l, Reboot(l, d, ks), h)
    decreases |ks|
  {
    var ws := RecoverWrites(l, d);
    assert ws[..|ws|] == ws;
    if ks == [] {
      CrashInRecovery(l, d, h, |ws|);
    } else {
      var k := if ks[0] <= |ws| then ks[0] else |ws|;
      assert Prefix(ws, ks[0]) == ws[..k];
      CrashInRecovery(l, d, h, k);
      RebootsConverge(l, ApplyAll(d, ws[..k]), h, ks[1..]);
    }
  }

  lemma UpdateEmpty(h: Disk, t: Txn)
    requires |t.data| == |t.blocks| == 0
    ensures Update(h, t) == h
  {
  }

  lemma EventIsAtomic(l: Layout, d: Disk, h: Disk, ev: Event)
    requires Clean(l, d) && SameHome(l, d, h) && TxnWf(l, ev.t)
    ensures var e := Step(l, d, ev);
            Clean(l, e) && SameHome(l, e, if Survives(ev) then Update(h, ev.t) else h)
  {
    var ws := CommitWrites(l, d, ev.t);
    assert ws[..|ws|] == ws;
    var k := if ev.Committed? || ev.k > |ws| then |ws| else ev.k;
    CrashInCommit(l, d, h, ev.t, k);
    if ev.t.blocks == [] { UpdateEmpty(h, ev.t); }
    var e := ApplyAll(d, ws[..k]);
    var h' := if Survives(ev) then Update(h, ev.t) else h;
    assert Denotes(l, e, h');
    if ev.Committed? {
      CleanDenotes(l, e, h');
    } else {
      RebootsConverge(l, e, h', ev.reboots);
    }
  }

  /** Crash atomicity over whole runs: whatever was interrupted, and however
      often recovery itself was interrupted, the home blocks end up as if exactly
      the transactions that reached their commit point had been applied in order. */
  lemma {:induction false} CrashAtomicity(l: Layout, d: Disk, h: Disk, evs: seq<Event>)
    requires Clean(l, d) && SameHome(l, d, h)
    requires forall i :: 0 <= i < |evs| ==> TxnWf(l, evs[i].t)
    ensures Clean(l, Run(l, d, evs))
    ensures SameHome(l, Run(l, d, evs), Replay(h, evs))
    decreases |evs|
  {
    if evs != [] {
      EventIsAtomic(l, d, h, evs[0]);
      CrashAtomicity(l, Step(l, d, evs[0]), if Survives(evs[0]) then Update(h, evs[0].t) else h, evs[1..]);
    }
  }
}
