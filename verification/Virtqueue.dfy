/** The split virtqueue driver of kernel/virtio_disk.c against a device that takes requests from
    the available ring and reports them finished in any order (VIRTIO 1.1, sections 2.6 and 5.2).
    Code that runs with vdisk_lock held is one step; so is each move of the device. */
module Virtqueues {
  import opened Counting
  import opened Wrapping

  const NUM: nat := 8
  const W16 := 65536
  const W32 := 0x1_0000_0000
  const BSIZE := 1024
  const HEADER := 16
  const NOBODY := -1

  /** What a descriptor points at: a command header, a buffer's data, or a status byte. */
  datatype Addr = Null | Op(i: nat) | Data(b: nat) | StatusByte(i: nat)

  datatype Desc = Desc(addr: Addr, len: nat, more: bool, writes: bool, next: nat)

  datatype Info = Info(buf: int, status: int)

  datatype Header = Header(write: bool, sector: nat)

  const CLEARED := Desc(Null, 0, false, false, 0)

  /** The memory shared by driver and device, with the driver's own bookkeeping. `busy` are the
      buffers whose b->disk is 1; `tookIdx` is how far the device has read the available ring. */
  datatype Queue = Queue(
    free: seq<bool>, desc: seq<Desc>, info: seq<Info>, ops: seq<Header>, busy: set<nat>,
    availRing: seq<nat>, availIdx: nat, tookIdx: nat,
    usedRing: seq<nat>, usedIdx: nat, seenIdx: nat)

  /** A request as `virtio_disk_rw` was given it, and the descriptors after its head. */
  datatype Request = Request(buf: nat, write: bool, block: nat, mid: nat, tail: nat)

  /** Where a request is: in the available ring at position `k` of all ever posted, inside the
      device, in the used ring at position `k`, or seen finished but not yet released. */
  datatype Stage = Unused | Posted(k: nat) | InDevice | Reported(k: nat) | Finished

  /** What has happened so far: heads ever posted and reported, the latter with their status bytes, and
      how many have been taken by the device and seen by the driver; per head its request; per
      descriptor its owner. */
  datatype History = History(
    posted: seq<nat>, taken: nat, reported: seq<nat>, verdict: seq<int>, seen: nat,
    stage: seq<Stage>, req: seq<Request>, owner: seq<int>)

  /** The sector number of a block, a product of 32-bit numbers. */
  function Sector(block: nat): nat {
    block * (BSIZE / 512) % W32
  }

  /** A block is two sectors. The number is that of the block's first sector if and only if the block number
      is below 2^31; otherwise it is the first sector of the block that is 2^31 lower. */
  lemma SectorIff(block: nat)
    requires block < 0x1_0000_0000
    ensures Sector(block) == 2 * block <==> block < 0x8000_0000
    ensures block >= 0x8000_0000 ==> Sector(block) == 2 * (block - 0x8000_0000)
  {
    if block < 0x8000_0000 {
      Small(2 * block, 0x1_0000_0000);
    } else {
      Residue(1, 2 * (block - 0x8000_0000), 0x1_0000_0000);
    }
  }

  // -------- The invariant --------

  predicate Shape(v: Queue, h: History) {
    && |v.free| == |v.desc| == |v.info| == |v.ops| == |v.availRing| == |v.usedRing| == NUM
    && |h.stage| == |h.req| == |h.owner| == NUM
    && h.taken <= |h.posted| && h.seen <= |h.reported| == |h.verdict|
    && v.availIdx == |h.posted| % W16 && v.tookIdx == h.taken % W16
    && v.usedIdx == |h.reported| % W16 && v.seenIdx == h.seen % W16
  }

  /** The chain that the device will follow from head `i` is request `r`. */
  predicate Encodes(v: Queue, i: nat, r: Request)
    requires |v.desc| == |v.ops| == NUM && i < NUM
  {
    && r.mid < NUM && r.tail < NUM && i != r.mid && i != r.tail && r.mid != r.tail
    && v.ops[i] == Header(r.write, Sector(r.block))
    && v.desc[i] == Desc(Op(i), HEADER, true, false, r.mid)
    && v.desc[r.mid] == Desc(Data(r.buf), BSIZE, true, !r.write, r.tail)
    && v.desc[r.tail] == Desc(StatusByte(i), 1, false, true, 0)
  }

  predicate OwnerOk(v: Queue, h: History, i: nat)
    requires Shape(v, h) && i < NUM
  {
    var o := h.owner[i];
    && (v.free[i] <==> o == NOBODY)
    && (o == NOBODY || (0 <= o < NUM && h.stage[o] != Unused && (i == o || i == h.req[o].mid || i == h.req[o].tail)))
  }

  predicate HeadOk(v: Queue, h: History, i: nat)
    requires Shape(v, h) && i < NUM
  {
    h.stage[i] != Unused ==>
      && var r := h.req[i];
      && Encodes(v, i, r)
      && h.owner[i] == i && h.owner[r.mid] == i && h.owner[r.tail] == i
      && v.info[i].buf == r.buf
      && (r.buf in v.busy <==> h.stage[i] != Finished)
      && match h.stage[i]
         case Posted(k) => h.taken <= k < |h.posted| && h.posted[k] == i
         case InDevice => true
         case Reported(k) => h.seen <= k < |h.reported| && h.reported[k] == i
         case Finished => true
  }

  predicate PostedOk(v: Queue, h: History, k: nat)
    requires Shape(v, h) && k < |h.posted|
  {
    h.posted[k] < NUM && h.stage[h.posted[k]] == Posted(k) && v.availRing[k % NUM] == h.posted[k]
  }

  predicate ReportedOk(v: Queue, h: History, k: nat)
    requires Shape(v, h) && k < |h.reported|
  {
    && h.reported[k] < NUM && h.stage[h.reported[k]] == Reported(k) && v.usedRing[k % NUM] == h.reported[k]
    && v.info[h.reported[k]].status == h.verdict[k]
  }

  /** Different live requests are for different buffers: a buffer is locked while it is read or written. */
  predicate Apart(h: History, i: nat, j: nat)
    requires |h.stage| == |h.req| == NUM && i < NUM && j < NUM
  {
    i != j && h.stage[i] != Unused && h.stage[j] != Unused ==> h.req[i].buf != h.req[j].buf
  }

  ghost predicate Inv(v: Queue, h: History) {
    && Shape(v, h)
    && (forall i :: 0 <= i < NUM ==> OwnerOk(v, h, i))
    && (forall i :: 0 <= i < NUM ==> HeadOk(v, h, i))
    && (forall k :: h.taken <= k < |h.posted| ==> PostedOk(v, h, k))
    && (forall k :: h.seen <= k < |h.reported| ==> ReportedOk(v, h, k))
    && (forall i, j :: 0 <= i < NUM && 0 <= j < NUM ==> Apart(h, i, j))
  }

  // -------- Conservation --------

  /** The heads of unreleased requests. */
  ghost function Live(h: History): (s: set<int>)
    requires |h.stage| == NUM
    ensures forall i :: i in s <==> 0 <= i < NUM && h.stage[i] != Unused
  {
    set i | 0 <= i < NUM && h.stage[i] != Unused
  }

  ghost function FreeSet(v: Queue): (s: set<int>)
    requires |v.free| == NUM
    ensures forall i :: i in s <==> 0 <= i < NUM && v.free[i]
  {
    set i | 0 <= i < NUM && v.free[i]
  }

  /** The descriptors of the requests with heads in `s`. */
  ghost function OwnedBy(h: History, s: set<int>): (r: set<int>)
    requires |h.owner| == NUM
    ensures forall i :: i in r <==> 0 <= i < NUM && h.owner[i] in s
  {
    set i | 0 <= i < NUM && h.owner[i] in s
  }

  lemma {:induction false} ThreeEach(v: Queue, h: History, s: set<int>)
    requires Inv(v, h) && s <= Live(h)
    ensures |OwnedBy(h, s)| == 3 * |s|
    decreases |s|
  {
    if s == {} {
      assert OwnedBy(h, s) == {};
    } else {
      var i :| i in s;
      ThreeEach(v, h, s - {i});
      assert HeadOk(v, h, i);
      var r := h.req[i];
      forall x | 0 <= x < NUM && h.owner[x] == i ensures x in {i, r.mid, r.tail} {
        assert OwnerOk(v, h, x);
      }
      assert OwnedBy(h, s) == OwnedBy(h, s - {i}) + {i, r.mid, r.tail};
    }
  }

  /** A descriptor is free or belongs to one unreleased request. */
  lemma FreeOrOwned(v: Queue, h: History)
    requires Inv(v, h)
    ensures FreeSet(v) !! OwnedBy(h, Live(h))
    ensures forall i :: 0 <= i < NUM <==> i in FreeSet(v) + OwnedBy(h, Live(h))
  {
    forall i | 0 <= i < NUM ensures i in FreeSet(v) <==> i !in OwnedBy(h, Live(h)) {
      assert OwnerOk(v, h, i);
    }
  }

  lemma SplitSize(a: set<int>, b: set<int>, n: nat)
    requires a !! b && forall i :: 0 <= i < n <==> i in a + b
    ensures |a| + |b| == n
  {
    assert a + b == Below(n);
  }

  /** Free descriptors plus three for each unreleased request make up the table. */
  lemma Conservation(v: Queue, h: History)
    requires Inv(v, h)
    ensures |FreeSet(v)| + 3 * |Live(h)| == NUM
  {
    ThreeEach(v, h, Live(h));
    FreeOrOwned(v, h);
    SplitSize(FreeSet(v), OwnedBy(h, Live(h)), NUM);
  }

  /** Entries not yet read are fewer than the ring has places, so none is overwritten. */
  lemma RingsHaveRoom(v: Queue, h: History)
    requires Inv(v, h)
    ensures 3 * (|h.posted| - h.taken) <= NUM && 3 * (|h.reported| - h.seen) <= NUM
    ensures FreeSet(v) != {} ==> 3 * (|h.posted| - h.taken) < NUM
  {
    Conservation(v, h);
    var p, r := h.posted[h.taken..], h.reported[h.seen..];
    forall k | 0 <= k < |p| ensures p[k] in Live(h) && p[k] < NUM && h.stage[p[k]] == Posted(h.taken + k) {
      assert PostedOk(v, h, h.taken + k);
    }
    forall k | 0 <= k < |r| ensures r[k] in Live(h) && r[k] < NUM && h.stage[r[k]] == Reported(h.seen + k) {
      assert ReportedOk(v, h, h.seen + k);
    }
    Fits(p, Live(h));
    Fits(r, Live(h));
    if FreeSet(v) != {} {
      assert |FreeSet(v)| > 0;
    }
  }

  lemma Fits(p: seq<nat>, s: set<int>)
    requires Distinct(p) && forall k :: 0 <= k < |p| ==> p[k] in s
    ensures |p| <= |s|
  {
    DistinctElements(p);
    ghost var e: set<int> := set x | x in p;
    assert e == Elements(p);
    SubsetSize(e, s);
  }

  // -------- 16-bit indices --------

  /** NUM divides 2^16, so reducing an index modulo 2^16 first does not move its place. */
  lemma PlaceOfIndex(total: nat)
    ensures (total % W16) % NUM == total % NUM
  {
    PlaceOfCounter(total, W16, 8192, NUM);
  }

  lemma IndexStep(total: nat)
    ensures (total % W16 + 1) % W16 == (total + 1) % W16
  {
    AddWraps(total, 1, W16);
    AddWraps(total % W16, 1, W16);
    Small(total % W16, W16);
  }

  /** Indices at most NUM apart are equal modulo 2^16 only if they are equal. */
  lemma IndicesMeet(a: nat, b: nat)
    requires a <= b <= a + NUM
    ensures a % W16 == b % W16 <==> a == b
  {
    CountersMeet(a, b, W16);
  }

  lemma PlacesApart(k: nat, n: nat)
    requires k < n < k + NUM
    ensures k % NUM != n % NUM
  {
    CountersMeet(k, n, NUM);
  }

  // -------- Steps --------

  /** The request with head `i` is formatted, recorded and put into the available ring. */
  function PostQueue(v: Queue, i: nat, r: Request): Queue
    requires |v.free| == |v.desc| == |v.info| == |v.ops| == |v.availRing| == NUM
    requires i < NUM && r.mid < NUM && r.tail < NUM
  {
    v.(free := v.free[i := false][r.mid := false][r.tail := false],
       ops := v.ops[i := Header(r.write, Sector(r.block))],
       desc := v.desc[i := Desc(Op(i), HEADER, true, false, r.mid)]
                     [r.mid := Desc(Data(r.buf), BSIZE, true, !r.write, r.tail)]
                     [r.tail := Desc(StatusByte(i), 1, false, true, 0)],
       info := v.info[i := Info(r.buf, 0xff)],
       busy := v.busy + {r.buf},
       availRing := v.availRing[v.availIdx % NUM := i],
       availIdx := (v.availIdx + 1) % W16)
  }

  lemma PostedMeans(v: Queue, i: nat, r: Request)
    requires |v.free| == |v.desc| == |v.info| == |v.ops| == |v.availRing| == NUM
    requires i < NUM && r.mid < NUM && r.tail < NUM && i != r.mid && i != r.tail && r.mid != r.tail
    ensures var v' := PostQueue(v, i, r);
            && !v'.free[i] && !v'.free[r.mid] && !v'.free[r.tail]
            && v'.ops[i].write == r.write && (r.block < 0x8000_0000 ==> v'.ops[i].sector == 2 * r.block)
            && v'.desc[i] == Desc(Op(i), 16, true, false, r.mid)
            && v'.desc[r.mid] == Desc(Data(r.buf), 1024, true, !r.write, r.tail)
            && v'.desc[r.tail] == Desc(StatusByte(i), 1, false, true, 0)
            && v'.info[i] == Info(r.buf, 255)
            && v'.availRing[v.availIdx % 8] == i && v'.availIdx == (v.availIdx + 1) % 65536
  {
    if r.block < 0x8000_0000 {
      SectorIff(r.block);
    }
  }

  function PostHistory(h: History, i: nat, r: Request): History
    requires |h.stage| == |h.req| == |h.owner| == NUM && i < NUM && r.mid < NUM && r.tail < NUM
  {
    h.(posted := h.posted + [i], stage := h.stage[i := Posted(|h.posted|)], req := h.req[i := r],
       owner := h.owner[i := i][r.mid := i][r.tail := i])
  }

  /** No unreleased request is for buffer `b`. */
  ghost predicate Idle(h: History, b: nat)
    requires |h.stage| == |h.req| == NUM
  {
    forall j :: 0 <= j < NUM && h.stage[j] != Unused ==> h.req[j].buf != b
  }

  /** Three free descriptors, and a buffer that no unreleased request is for. */
  ghost predicate CanPost(v: Queue, h: History, i: nat, r: Request)
    requires Shape(v, h)
  {
    && i < NUM && r.mid < NUM && r.tail < NUM && i != r.mid && i != r.tail && r.mid != r.tail
    && v.free[i] && v.free[r.mid] && v.free[r.tail]
    && Idle(h, r.buf)
  }

  lemma PostShape(v: Queue, h: History, i: nat, r: Request)
    requires Inv(v, h) && CanPost(v, h, i, r)
    ensures Shape(PostQueue(v, i, r), PostHistory(h, i, r))
    ensures h.stage[i] == Unused
  {
    IndexStep(|h.posted|);
    assert OwnerOk(v, h, i) && HeadOk(v, h, i);
  }

  /** The descriptors of a live request are not free, so posting another leaves them alone. */
  lemma PostElsewhere(v: Queue, h: History, i: nat, r: Request, j: nat)
    requires Inv(v, h) && CanPost(v, h, i, r) && j < NUM && h.stage[j] != Unused
    ensures HeadOk(v, h, j) && h.req[j].mid < NUM && h.req[j].tail < NUM
    ensures {j, h.req[j].mid, h.req[j].tail} !! {i, r.mid, r.tail}
  {
    assert HeadOk(v, h, j);
    assert OwnerOk(v, h, i) && OwnerOk(v, h, r.mid) && OwnerOk(v, h, r.tail);
  }

  lemma PostKeepsHeads(v: Queue, h: History, i: nat, r: Request, j: nat)
    requires Inv(v, h) && CanPost(v, h, i, r) && j < NUM
    ensures Shape(PostQueue(v, i, r), PostHistory(h, i, r))
    ensures HeadOk(PostQueue(v, i, r), PostHistory(h, i, r), j)
  {
    PostShape(v, h, i, r);
    if h.stage[j] != Unused {
      PostElsewhere(v, h, i, r, j);
    }
  }

  lemma PostKeepsOwners(v: Queue, h: History, i: nat, r: Request, j: nat)
    requires Inv(v, h) && CanPost(v, h, i, r) && j < NUM
    ensures Shape(PostQueue(v, i, r), PostHistory(h, i, r))
    ensures OwnerOk(PostQueue(v, i, r), PostHistory(h, i, r), j)
  {
    PostShape(v, h, i, r);
    assert OwnerOk(v, h, j);
  }

  lemma PostKeepsRing(v: Queue, h: History, i: nat, r: Request, k: nat)
    requires Inv(v, h) && CanPost(v, h, i, r) && h.taken <= k <= |h.posted|
    ensures Shape(PostQueue(v, i, r), PostHistory(h, i, r))
    ensures PostedOk(PostQueue(v, i, r), PostHistory(h, i, r), k)
  {
    PostShape(v, h, i, r);
    PlaceOfIndex(|h.posted|);
    if k < |h.posted| {
      RingsHaveRoom(v, h);
      PlacesApart(k, |h.posted|);
      assert PostedOk(v, h, k);
    }
  }

  lemma PostKeeps(v: Queue, h: History, i: nat, r: Request)
    requires Inv(v, h) && CanPost(v, h, i, r)
    ensures Inv(PostQueue(v, i, r), PostHistory(h, i, r))
  {
    var v', h' := PostQueue(v, i, r), PostHistory(h, i, r);
    PostShape(v, h, i, r);
    forall j | 0 <= j < NUM ensures OwnerOk(v', h', j) && HeadOk(v', h', j) {
      PostKeepsOwners(v, h, i, r, j);
      PostKeepsHeads(v, h, i, r, j);
    }
    forall k | h'.taken <= k < |h'.posted| ensures PostedOk(v', h', k) {
      PostKeepsRing(v, h, i, r, k);
    }
    forall k | h'.seen <= k < |h'.reported| ensures ReportedOk(v', h', k) {
      assert ReportedOk(v, h, k);
    }
    forall x, y | 0 <= x < NUM && 0 <= y < NUM ensures Apart(h', x, y) {
      assert Apart(h, x, y);
    }
  }

  /** The device reads the next entry of the available ring. */
  function TakeHistory(h: History): History
    requires h.taken < |h.posted| && h.posted[h.taken] < |h.stage|
  {
    h.(taken := h.taken + 1, stage := h.stage[h.posted[h.taken] := InDevice])
  }

  lemma TakeKeeps(v: Queue, h: History)
    requires Inv(v, h) && h.taken < |h.posted|
    ensures PostedOk(v, h, h.taken) && Inv(v.(tookIdx := (v.tookIdx + 1) % W16), TakeHistory(h))
  {
    assert PostedOk(v, h, h.taken);
    var i := h.posted[h.taken];
    var v', h' := v.(tookIdx := (v.tookIdx + 1) % W16), TakeHistory(h);
    IndexStep(h.taken);
    forall j | 0 <= j < NUM ensures OwnerOk(v', h', j) && HeadOk(v', h', j) {
      assert OwnerOk(v, h, j) && HeadOk(v, h, j);
    }
    forall k | h'.taken <= k < |h'.posted| ensures PostedOk(v', h', k) {
      assert PostedOk(v, h, k);
    }
    forall k | h'.seen <= k < |h'.reported| ensures ReportedOk(v', h', k) {
      assert ReportedOk(v, h, k);
    }
    forall x, y | 0 <= x < NUM && 0 <= y < NUM ensures Apart(h', x, y) {
      assert Apart(h, x, y) && HeadOk(v, h, i);
    }
  }

  /** The device reports request `i` finished, having written its status byte: 0 for success. */
  function ReportQueue(v: Queue, i: nat, status: int): Queue
    requires |v.info| == |v.usedRing| == NUM && i < NUM
  {
    v.(info := v.info[i := v.info[i].(status := status)],
       usedRing := v.usedRing[v.usedIdx % NUM := i], usedIdx := (v.usedIdx + 1) % W16)
  }

  function ReportHistory(h: History, i: nat, status: int): History
    requires i < |h.stage|
  {
    h.(reported := h.reported + [i], verdict := h.verdict + [status], stage := h.stage[i := Reported(|h.reported|)])
  }

  /** A request still inside the device leaves room in the used ring. */
  lemma UsedHasRoom(v: Queue, h: History, i: nat)
    requires Inv(v, h) && i < NUM && h.stage[i] == InDevice
    ensures |h.reported| - h.seen < NUM
  {
    RingsHaveRoom(v, h);
  }

  lemma ReportKeeps(v: Queue, h: History, i: nat, status: int)
    requires Inv(v, h) && i < NUM && h.stage[i] == InDevice
    ensures Inv(ReportQueue(v, i, status), ReportHistory(h, i, status))
  {
    var v', h' := ReportQueue(v, i, status), ReportHistory(h, i, status);
    IndexStep(|h.reported|);
    forall j | 0 <= j < NUM ensures OwnerOk(v', h', j) && HeadOk(v', h', j) {
      assert OwnerOk(v, h, j) && HeadOk(v, h, j) && HeadOk(v, h, i);
    }
    forall k | h'.taken <= k < |h'.posted| ensures PostedOk(v', h', k) {
      assert PostedOk(v, h, k);
    }
    forall k | h'.seen <= k < |h'.reported| ensures ReportedOk(v', h', k) {
      ReportKeepsRing(v, h, i, status, k);
    }
    forall x, y | 0 <= x < NUM && 0 <= y < NUM ensures Apart(h', x, y) {
      assert Apart(h, x, y);
    }
  }

  lemma ReportKeepsRing(v: Queue, h: History, i: nat, status: int, k: nat)
    requires Inv(v, h) && i < NUM && h.stage[i] == InDevice && h.seen <= k <= |h.reported|
    ensures Shape(ReportQueue(v, i, status), ReportHistory(h, i, status))
    ensures ReportedOk(ReportQueue(v, i, status), ReportHistory(h, i, status), k)
  {
    IndexStep(|h.reported|);
    PlaceOfIndex(|h.reported|);
    if k < |h.reported| {
      UsedHasRoom(v, h, i);
      PlacesApart(k, |h.reported|);
      assert ReportedOk(v, h, k);
    }
  }

  /** The interrupt handler marks the buffer of the next reported request as done. */
  function SeeQueue(v: Queue, b: nat): Queue {
    v.(busy := v.busy - {b}, seenIdx := (v.seenIdx + 1) % W16)
  }

  function SeeHistory(h: History): History
    requires h.seen < |h.reported| && h.reported[h.seen] < |h.stage|
  {
    h.(seen := h.seen + 1, stage := h.stage[h.reported[h.seen] := Finished])
  }

  lemma SeeKeeps(v: Queue, h: History)
    requires Inv(v, h) && h.seen < |h.reported|
    ensures ReportedOk(v, h, h.seen) && Inv(SeeQueue(v, h.req[h.reported[h.seen]].buf), SeeHistory(h))
  {
    assert ReportedOk(v, h, h.seen);
    var i := h.reported[h.seen];
    var v', h' := SeeQueue(v, h.req[i].buf), SeeHistory(h);
    IndexStep(h.seen);
    forall j | 0 <= j < NUM ensures OwnerOk(v', h', j) && HeadOk(v', h', j) {
      assert OwnerOk(v, h, j) && HeadOk(v, h, j) && Apart(h, i, j);
    }
    forall k | h'.taken <= k < |h'.posted| ensures PostedOk(v', h', k) {
      assert PostedOk(v, h, k);
    }
    forall k | h'.seen <= k < |h'.reported| ensures ReportedOk(v', h', k) {
      assert ReportedOk(v, h, k);
    }
    forall x, y | 0 <= x < NUM && 0 <= y < NUM ensures Apart(h', x, y) {
      assert Apart(h, x, y);
    }
  }

  /** One descriptor is cleared and marked free. */
  function FreeOne(v: Queue, i: nat): Queue
    requires |v.free| == |v.desc| == NUM && i < NUM
  {
    v.(free := v.free[i := true], desc := v.desc[i := CLEARED])
  }

  /** The finished request with head `i` gives its chain back. */
  function ReleaseQueue(v: Queue, i: nat, r: Request): Queue
    requires |v.free| == |v.desc| == |v.info| == NUM && i < NUM && r.mid < NUM && r.tail < NUM
  {
    FreeOne(FreeOne(FreeOne(v.(info := v.info[i := v.info[i].(buf := NOBODY)]), i), r.mid), r.tail)
  }

  function ReleaseHistory(h: History, i: nat): History
    requires |h.stage| == |h.req| == |h.owner| == NUM && i < NUM && h.req[i].mid < NUM && h.req[i].tail < NUM
  {
    h.(stage := h.stage[i := Unused], owner := h.owner[i := NOBODY][h.req[i].mid := NOBODY][h.req[i].tail := NOBODY])
  }

  lemma ReleaseElsewhere(v: Queue, h: History, i: nat, j: nat)
    requires Shape(v, h) && i < NUM && h.stage[i] == Finished && j < NUM
    requires HeadOk(v, h, i) && OwnerOk(v, h, j) && HeadOk(v, h, j)
    ensures Shape(ReleaseQueue(v, i, h.req[i]), ReleaseHistory(h, i))
    ensures OwnerOk(ReleaseQueue(v, i, h.req[i]), ReleaseHistory(h, i), j)
    ensures HeadOk(ReleaseQueue(v, i, h.req[i]), ReleaseHistory(h, i), j)
  {
    var r, h' := h.req[i], ReleaseHistory(h, i);
    assert forall x :: 0 <= x < NUM && x != i && x != r.mid && x != r.tail ==> h'.owner[x] == h.owner[x];
  }

  lemma ReleaseKeeps(v: Queue, h: History, i: nat)
    requires Inv(v, h) && i < NUM && h.stage[i] == Finished
    ensures HeadOk(v, h, i) && Inv(ReleaseQueue(v, i, h.req[i]), ReleaseHistory(h, i))
  {
    assert HeadOk(v, h, i);
    var v', h' := ReleaseQueue(v, i, h.req[i]), ReleaseHistory(h, i);
    forall j | 0 <= j < NUM ensures OwnerOk(v', h', j) && HeadOk(v', h', j) {
      assert OwnerOk(v, h, j) && HeadOk(v, h, j);
      ReleaseElsewhere(v, h, i, j);
    }
    forall k | h'.taken <= k < |h'.posted| ensures PostedOk(v', h', k) {
      assert PostedOk(v, h, k);
    }
    forall k | h'.seen <= k < |h'.reported| ensures ReportedOk(v', h', k) {
      assert ReportedOk(v, h, k);
    }
    forall x, y | 0 <= x < NUM && 0 <= y < NUM ensures Apart(h', x, y) {
      assert Apart(h, x, y);
    }
  }

  /** What descriptors that are free anyway hold does not matter. */
  lemma ClearKeeps(v: Queue, h: History, d: seq<Desc>)
    requires Inv(v, h) && |d| == NUM && forall j :: 0 <= j < NUM && !v.free[j] ==> d[j] == v.desc[j]
    ensures Inv(v.(desc := d), h)
  {
    var v' := v.(desc := d);
    forall j | 0 <= j < NUM ensures OwnerOk(v', h, j) && HeadOk(v', h, j) {
      assert OwnerOk(v, h, j) && HeadOk(v, h, j);
      if h.stage[j] != Unused {
        assert OwnerOk(v, h, h.req[j].mid) && OwnerOk(v, h, h.req[j].tail);
      }
    }
    forall k | h.taken <= k < |h.posted| ensures PostedOk(v', h, k) {
      assert PostedOk(v, h, k);
    }
    forall k | h.seen <= k < |h.reported| ensures ReportedOk(v', h, k) {
      assert ReportedOk(v, h, k);
    }
  }

  // -------- The driver --------

  ghost predicate Inside(z: int) { true }

  /** `Inv`, to be opened by mentioning `Inside`. */
  ghost predicate Sound(v: Queue, h: History) {
    forall z :: Inside(z) ==> Inv(v, h)
  }

  ghost function NoHistory(): History {
    History([], 0, [], [], 0, seq(NUM, _ => Unused), seq(NUM, _ => Request(0, false, 0, 0, 0)), seq(NUM, _ => NOBODY))
  }

  lemma StartSound(v: Queue)
    requires |v.desc| == |v.info| == |v.ops| == |v.availRing| == |v.usedRing| == NUM
    requires |v.free| == NUM && forall i :: 0 <= i < NUM ==> v.free[i]
    requires v.busy == {} && v.availIdx == v.tookIdx == v.usedIdx == v.seenIdx == 0
    ensures Sound(v, NoHistory()) && Live(NoHistory()) == {}
  {
    var h := NoHistory();
    assert Shape(v, h) && forall i :: 0 <= i < NUM ==> OwnerOk(v, h, i) && HeadOk(v, h, i);
  }

  lemma PostSound(v: Queue, h: History, i: nat, r: Request)
    requires Sound(v, h) && |h.stage| == |h.req| == |h.owner| == NUM && Idle(h, r.buf)
    requires |v.free| == |v.desc| == |v.info| == |v.ops| == |v.availRing| == NUM
    requires i < NUM && r.mid < NUM && r.tail < NUM && i != r.mid && i != r.tail && r.mid != r.tail
    requires v.free[i] && v.free[r.mid] && v.free[r.tail]
    ensures Sound(PostQueue(v, i, r), PostHistory(h, i, r)) && h.stage[i] == Unused
  {
    assert Inside(0);
    PostShape(v, h, i, r);
    PostKeeps(v, h, i, r);
  }

  class Driver {
    const free: array<bool>
    const desc: array<Desc>
    const info: array<Info>
    const ops: array<Header>
    const availRing: array<nat>
    const usedRing: array<nat>
    var busy: set<nat>
    var availIdx: nat
    var tookIdx: nat
    var usedIdx: nat
    var seenIdx: nat
    ghost var h: History

    ghost function Frame(): set<object>
      reads this
    {
      {this, free, desc, info, ops, availRing, usedRing}
    }

    ghost function Now(): Queue
      reads this, free, desc, info, ops, availRing, usedRing
    {
      Queue(free[..], desc[..], info[..], ops[..], busy,
            availRing[..], availIdx, tookIdx, usedRing[..], usedIdx, seenIdx)
    }

    ghost predicate Sized()
      reads this
    {
      && free.Length == desc.Length == info.Length == ops.Length == availRing.Length == usedRing.Length == NUM
      && availRing != usedRing
    }

    ghost predicate Valid()
      reads this, free, desc, info, ops, availRing, usedRing
    {
      Sized() && Sound(Now(), h)
    }

    /** `virtio_disk_init`: the rings are empty and every descriptor is free. */
    constructor ()
      ensures Valid() && fresh(Frame() - {this}) && |h.stage| == NUM && Live(h) == {}
    {
      free := new bool[NUM](_ => true);
      desc := new Desc[NUM](_ => CLEARED);
      info := new Info[NUM](_ => Info(NOBODY, 0));
      ops := new Header[NUM](_ => Header(false, 0));
      availRing := new nat[NUM](_ => 0);
      usedRing := new nat[NUM](_ => 0);
      busy, availIdx, tookIdx, usedIdx, seenIdx := {}, 0, 0, 0, 0;
      h := NoHistory();
      new;
      StartSound(Now());
    }

    /** `alloc_desc`: the first free descriptor, now taken, or -1. */
    method AllocDesc() returns (i: int)
      requires Sized()
      modifies free
      ensures -1 <= i < NUM
      ensures i < 0 ==> Now() == old(Now()) && FreeSet(Now()) == {}
      ensures i >= 0 ==> old(free[i]) && Now() == old(Now()).(free := old(free[..])[i := false])
      ensures forall k :: 0 <= k < i ==> !old(free[k])
    {
      i := 0;
      while i < NUM
        invariant 0 <= i <= NUM && free[..] == old(free[..])
        invariant forall k :: 0 <= k < i ==> !old(free[k])
      {
        if free[i] {
          free[i] := false;
          return;
        }
        i := i + 1;
      }
      i := -1;
    }

    /** `free_desc`; its second panic is the case that the precondition excludes. */
    method FreeDesc(i: nat)
      requires Sized() && i < NUM && !free[i]
      modifies free, desc
      ensures Now() == FreeOne(old(Now()), i)
      ensures free[i] && desc[i] == Desc(Null, 0, false, false, 0)
    {
      desc[i] := CLEARED;
      free[i] := true;
    }

    /** `free_chain`, on a chain of three. */
    method FreeChain(head: nat, ghost r: Request)
      requires Sized() && head < NUM && Encodes(Now(), head, r)
      requires !free[head] && !free[r.mid] && !free[r.tail]
      modifies free, desc
      ensures Now() == FreeOne(FreeOne(FreeOne(old(Now()), head), r.mid), r.tail)
    {
      var i := head;
      ghost var left := 3;
      ghost var v := Now();
      while true
        invariant 1 <= left <= 3
        invariant left == 3 ==> i == head && Now() == v
        invariant left == 2 ==> i == r.mid && Now() == FreeOne(v, head)
        invariant left == 1 ==> i == r.tail && Now() == FreeOne(FreeOne(v, head), r.mid)
        decreases left
      {
        var flag, nxt := desc[i].more, desc[i].next;
        assert desc[i] == v.desc[i] && !v.free[i] && Now().free[i] == v.free[i];
        FreeDesc(i);
        if !flag { break; }
        i := nxt;
        left := left - 1;
      }
    }

    /** `alloc3_desc`: three free descriptors, now taken, or none at all if there are not three. */
    method Alloc3() returns (idx: seq<nat>)
      requires Valid()
      modifies free, desc
      ensures |idx| == 0 || |idx| == 3
      ensures idx == [] ==>
                Valid() && |FreeSet(Now())| < 3 && free[..] == old(free[..]) && Now() == old(Now()).(desc := desc[..])
      ensures idx != [] ==>
        && (forall k :: 0 <= k < 3 ==> idx[k] < NUM && old(free[idx[k]])) && Distinct(idx)
        && Now() == old(Now()).(free := old(free[..])[idx[0] := false][idx[1] := false][idx[2] := false])
    {
      ghost var v := Now();
      idx := [];
      while |idx| < 3
        invariant |idx| <= 3 && (forall k :: 0 <= k < |idx| ==> idx[k] < NUM && v.free[idx[k]]) && Distinct(idx)
        invariant Now() == v.(free := Marked(v.free, idx))
      {
        var i := AllocDesc();
        if i < 0 {
          NoneLeft(v, idx);
          Undo(idx, v);
          idx := [];
          return;
        }
        MarkedAt(v.free, idx, i);
        idx := idx + [i];
      }
      MarkedThree(v.free, idx);
    }

    /** The clean-up loop of `alloc3_desc`. */
    method Undo(idx: seq<nat>, ghost v: Queue)
      requires Sized() && Sound(v, h) && Distinct(idx)
      requires |v.free| == NUM && forall k :: 0 <= k < |idx| ==> idx[k] < NUM && v.free[idx[k]]
      requires Now() == v.(free := Marked(v.free, idx))
      modifies free, desc
      ensures Valid() && free[..] == v.free && Now() == v.(desc := desc[..])
    {
      var j := 0;
      while j < |idx|
        invariant 0 <= j <= |idx|
        invariant forall x :: 0 <= x < NUM ==> free[x] == (v.free[x] && x !in idx[j..])
        invariant forall x :: 0 <= x < NUM && !v.free[x] ==> desc[x] == v.desc[x]
        invariant Now() == v.(free := free[..], desc := desc[..])
      {
        FreeDesc(idx[j]);
        j := j + 1;
      }
      assert free[..] == v.free;
      assert Inside(0);
      ClearKeeps(v, h, desc[..]);
      assert Now() == v.(desc := desc[..]);
    }

    /** `virtio_disk_rw` up to its first wait for the device: `head` is the head of the posted
        chain, or -1 if it sleeps because there are not three free descriptors. */
    method Submit(b: nat, write: bool, block: nat) returns (head: int, ghost r: Request)
      requires Valid() && |h.stage| == |h.req| == |h.owner| == NUM && Idle(h, b)
      modifies Frame()
      ensures Valid()
      ensures head < 0 ==> h == old(h) && busy == old(busy) && |FreeSet(Now())| < 3
      ensures r.buf == b && r.write == write && r.block == block && r.mid < NUM && r.tail < NUM
      ensures head >= 0 ==> head < NUM && old(h).stage[head] == Unused
      ensures head >= 0 ==> h == PostHistory(old(h), head, r) && busy == old(busy) + {b}
      ensures head >= 0 ==>
                && desc.Length == ops.Length == info.Length == availRing.Length == 8
                && !free[head] && !free[r.mid] && !free[r.tail]
                && ops[head].write == write && (block < 0x8000_0000 ==> ops[head].sector == 2 * block)
                && desc[head] == Desc(Op(head), 16, true, false, r.mid)
                && desc[r.mid] == Desc(Data(b), 1024, true, !write, r.tail)
                && desc[r.tail] == Desc(StatusByte(head), 1, false, true, 0)
                && info[head] == Info(b, 255)
                && availRing[old(availIdx) % 8] == head && availIdx == (old(availIdx) + 1) % 65536
                && h.posted == old(h).posted + [head] && h.req[head] == r
    {
      ghost var v := Now();
      var idx := Alloc3();
      if idx == [] {
        head, r := -1, Request(b, write, block, 0, 0);
        return;
      }
      head := idx[0];
      r := Request(b, write, block, idx[1], idx[2]);
      PostSound(v, h, head, r);
      Format(head, idx[1], idx[2], b, write, block);
      Announce(head, b);
      h := PostHistory(h, head, r);
      assert Now() == PostQueue(v, head, r);
      PostedMeans(v, head, r);
    }

    /** The three descriptors: command header, data, status. */
    method Format(i: nat, m: nat, t: nat, b: nat, write: bool, block: nat)
      requires Sized() && i < NUM && m < NUM && t < NUM && i != m && i != t && m != t
      modifies desc, ops, info
      ensures Now() == old(Now()).(
        ops := old(ops[..])[i := Header(write, Sector(block))],
        desc := old(desc[..])[i := Desc(Op(i), HEADER, true, false, m)]
                             [m := Desc(Data(b), BSIZE, true, !write, t)][t := Desc(StatusByte(i), 1, false, true, 0)],
        info := old(info[..])[i := old(info[i]).(status := 0xff)])
    {
      var sector := block * (BSIZE / 512) % W32;
      ops[i] := Header(write, sector);
      desc[i] := Desc(Op(i), HEADER, true, false, m);
      desc[m] := Desc(Data(b), BSIZE, true, !write, t);
      info[i] := info[i].(status := 0xff);
      desc[t] := Desc(StatusByte(i), 1, false, true, 0);
    }

    /** Records the buffer and puts the head into the available ring. */
    method Announce(i: nat, b: nat)
      requires Sized() && i < NUM
      modifies this, info, availRing
      ensures h == old(h) && Now() == old(Now()).(
        busy := old(busy) + {b}, info := old(info[..])[i := old(info[i]).(buf := b)],
        availRing := old(availRing[..])[old(availIdx) % NUM := i], availIdx := (old(availIdx) + 1) % W16)
    {
      busy := busy + {b};
      info[i] := info[i].(buf := b);
      availRing[availIdx % NUM] := i;
      availIdx := (availIdx + 1) % W16;
    }

    /** The device reads the next available entry and follows its chain; what it finds is the
        request that was submitted. */
    method DeviceTake() returns (head: nat, op: Header, data: Addr, fills: bool, status: Addr)
      requires Valid() && availIdx != tookIdx
      modifies this
      ensures Valid() && old(h).taken < |old(h).posted| && head == old(h).posted[old(h).taken] && head < NUM
      ensures |h.stage| == |old(h).stage| == |h.req| == NUM && h == TakeHistory(old(h)) && busy == old(busy)
      ensures op == Header(h.req[head].write, Sector(h.req[head].block))
      ensures h.req[head].block < 0x8000_0000 ==> op.sector == 2 * h.req[head].block
      ensures data == Data(h.req[head].buf) && fills == !h.req[head].write && status == StatusByte(head)
      ensures h.taken == old(h).taken + 1 && h.stage == old(h).stage[head := InDevice] && h.req == old(h).req
    {
      assert Inside(0);
      Summary();
      TakeKeeps(Now(), h);
      PlaceOfIndex(h.taken);
      head := availRing[tookIdx % NUM];
      assert HeadOk(Now(), h, head);
      op := ops[desc[head].addr.i];
      var m := desc[head].next;
      data, fills := desc[m].addr, desc[m].writes;
      status := desc[desc[m].next].addr;
      if h.req[head].block < 0x8000_0000 {
        SectorIff(h.req[head].block);
      }
      tookIdx := (tookIdx + 1) % W16;
      h := TakeHistory(h);
      assert Now() == old(Now()).(tookIdx := (old(tookIdx) + 1) % W16);
    }

    /** The device writes the status byte of a request it has taken and puts it into the used ring. */
    method DeviceReport(head: nat, status: int)
      requires Valid() && head < NUM == |h.stage| && h.stage[head] == InDevice
      modifies this, info, usedRing
      ensures Valid() && h == ReportHistory(old(h), head, status) && busy == old(busy)
      ensures h.reported == old(h).reported + [head] && h.verdict == old(h).verdict + [status]
      ensures old(usedIdx) < 65536 && usedRing.Length == 8 && usedRing[old(usedIdx) % 8] == head
      ensures usedIdx == (old(usedIdx) + 1) % 65536
    {
      assert Inside(0);
      ReportKeeps(Now(), h, head, status);
      info[head] := info[head].(status := status);
      usedRing[usedIdx % NUM] := head;
      usedIdx := (usedIdx + 1) % W16;
      h := ReportHistory(h, head, status);
      assert Now() == ReportQueue(old(Now()), head, status);
    }

    /** One round of the loop in `virtio_disk_intr`: a panic if and only if the oldest unread report
        has a non-zero status; otherwise exactly the buffer of that report is marked done. */
    method SeeOne() returns (panicked: bool)
      requires Valid() && seenIdx != usedIdx
      modifies `busy, `seenIdx, `h
      ensures Valid() && old(h).seen < |old(h).reported| == |old(h).verdict|
      ensures old(h).reported[old(h).seen] < NUM == |old(h).stage| == |old(h).req|
      ensures panicked <==> old(h).verdict[old(h).seen] != 0
      ensures panicked ==> h == old(h) && busy == old(busy)
      ensures !panicked ==>
        && h == SeeHistory(old(h)) && busy == old(busy) - {old(h).req[old(h).reported[old(h).seen]].buf}
        && h.seen == old(h).seen + 1 && h.stage == old(h).stage[old(h).reported[old(h).seen] := Finished]
    {
      assert Inside(0);
      Summary();
      SeeKeeps(Now(), h);
      PlaceOfIndex(h.seen);
      var id := usedRing[seenIdx % NUM];
      assert HeadOk(Now(), h, id);
      if info[id].status != 0 { return true; }
      var b := info[id].buf;
      busy := busy - {b};
      seenIdx := (seenIdx + 1) % W16;
      h := SeeHistory(h);
      assert Now() == SeeQueue(old(Now()), b);
      panicked := false;
    }

    /** `virtio_disk_intr`: the reports so far are seen in order, up to the first with a non-zero status,
        which is a panic; exactly the buffers of the reports seen are marked done. */
    method Intr() returns (panicked: bool)
      requires Valid()
      modifies `busy, `seenIdx, `h
      ensures Valid() && h.reported == old(h).reported && h.verdict == old(h).verdict && |h.verdict| == |h.reported|
      ensures h.posted == old(h).posted && h.taken == old(h).taken && h.req == old(h).req && h.owner == old(h).owner
      ensures |h.req| == NUM && old(h).seen <= h.seen <= |h.reported|
      ensures forall k :: old(h).seen <= k < h.seen ==> h.reported[k] < NUM && h.verdict[k] == 0
      ensures if panicked then h.seen < |h.reported| && h.verdict[h.seen] != 0 else h.seen == |h.reported|
      ensures forall b :: b in busy <==>
                b in old(busy) && forall k :: old(h).seen <= k < h.seen ==> h.req[h.reported[k]].buf != b
    {
      Summary();
      while seenIdx != usedIdx
        invariant Valid() && h.reported == old(h).reported && h.verdict == old(h).verdict && |h.verdict| == |h.reported|
        invariant old(h).seen <= h.seen <= |h.reported| && |h.req| == NUM
        invariant h.posted == old(h).posted && h.taken == old(h).taken && h.req == old(h).req && h.owner == old(h).owner
        invariant forall k :: old(h).seen <= k < h.seen ==> h.reported[k] < NUM && h.verdict[k] == 0
        invariant forall b :: b in busy <==>
                  b in old(busy) && forall k :: old(h).seen <= k < h.seen ==> h.req[h.reported[k]].buf != b
        decreases |h.reported| - h.seen
      {
        panicked := SeeOne();
        if panicked { return; }
      }
      Summary();
      panicked := false;
    }

    /** What the invariant says about the indices. */
    lemma Summary()
      requires Valid()
      ensures h.seen <= |h.reported| == |h.verdict| && h.taken <= |h.posted| && |h.req| == |h.stage| == |h.owner| == NUM
      ensures seenIdx == usedIdx <==> h.seen == |h.reported|
      ensures availIdx == tookIdx <==> h.taken == |h.posted|
      ensures |FreeSet(Now())| + 3 * |Live(h)| == NUM
    {
      assert Inside(0);
      RingsHaveRoom(Now(), h);
      Conservation(Now(), h);
      IndicesMeet(h.seen, |h.reported|);
      IndicesMeet(h.taken, |h.posted|);
    }

    /** `virtio_disk_rw` after its wait: the buffer of the request is marked done, so its chain can be
        freed. The panics of `free_desc` are unreachable. */
    method Finish(head: nat)
      requires Valid() && head < NUM == |h.stage| == |h.req| && h.stage[head] != Unused
      requires h.req[head].buf !in busy
      modifies info, free, desc, this`h
      ensures Valid() && old(h).stage[head] == Finished
      ensures |old(h).owner| == NUM && old(h).req[head].mid < NUM && old(h).req[head].tail < NUM
      ensures h == ReleaseHistory(old(h), head) && h.stage == old(h).stage[head := Unused]
      ensures free.Length == info.Length == 8 && info[head].buf == -1
      ensures free[head] && free[old(h).req[head].mid] && free[old(h).req[head].tail]
    {
      assert Inside(0);
      ghost var v, r := Now(), h.req[head];
      assert HeadOk(v, h, head);
      ReleaseKeeps(v, h, head);
      assert OwnerOk(v, h, head) && OwnerOk(v, h, r.mid) && OwnerOk(v, h, r.tail);
      info[head] := info[head].(buf := NOBODY);
      assert Now() == v.(info := v.info[head := v.info[head].(buf := NOBODY)]);
      FreeChain(head, r);
      h := ReleaseHistory(h, head);
      assert Now() == ReleaseQueue(v, head, r);
    }
  }

  /** `f` with the places in `idx` set to false. */
  function Marked(f: seq<bool>, idx: seq<nat>): (r: seq<bool>)
    ensures |r| == |f|
    ensures forall x :: 0 <= x < |f| ==> r[x] == (f[x] && x !in idx)
  {
    seq(|f|, x requires 0 <= x < |f| => f[x] && x !in idx)
  }

  lemma MarkedAt(f: seq<bool>, idx: seq<nat>, i: nat)
    requires i < |f|
    ensures Marked(f, idx + [i]) == Marked(f, idx)[i := false]
  {
  }

  lemma MarkedThree(f: seq<bool>, idx: seq<nat>)
    requires |idx| == 3 && idx[0] < |f| && idx[1] < |f| && idx[2] < |f|
    ensures Marked(f, idx) == f[idx[0] := false][idx[1] := false][idx[2] := false]
  {
  }

  /** When nothing is free besides the fewer than three already taken, there were fewer than three. */
  lemma NoneLeft(v: Queue, idx: seq<nat>)
    requires |v.free| == NUM && |idx| < 3
    requires FreeSet(v.(free := Marked(v.free, idx))) == {}
    ensures |FreeSet(v)| < 3
  {
    forall x | x in FreeSet(v) ensures x in idx {
      assert x !in FreeSet(v.(free := Marked(v.free, idx)));
    }
    FewElements(idx, FreeSet(v));
  }

  lemma FewElements(idx: seq<nat>, s: set<int>)
    requires |idx| < 3 && forall x :: x in s ==> 0 <= x && x in idx
    ensures |s| < 3
  {
    ghost var e: set<int> := if |idx| == 0 then {} else if |idx| == 1 then {idx[0]} else {idx[0], idx[1]};
    forall x | x in s ensures x in e {
      var k :| 0 <= k < |idx| && idx[k] == x;
    }
    SubsetSize(s, e);
  }

  // -------- Runs --------

  /** A request is posted, the device takes or reports one, the interrupt handler sees a report,
      a finished request is released, or free descriptors are cleared. */
  datatype Step =
    | Post(i: nat, r: Request)
    | Take
    | Report(i: nat, status: int)
    | See
    | Release(i: nat)
    | Clear(d: seq<Desc>)

  ghost predicate Enabled(v: Queue, h: History, t: Step)
    requires Inv(v, h)
  {
    match t
    case Post(i, r) => CanPost(v, h, i, r)
    case Take => h.taken < |h.posted|
    case Report(i, _) => i < NUM && h.stage[i] == InDevice
    case See => h.seen < |h.reported| && h.verdict[h.seen] == 0
    case Release(i) => i < NUM && h.stage[i] == Finished
    case Clear(d) => |d| == NUM && forall j :: 0 <= j < NUM && !v.free[j] ==> d[j] == v.desc[j]
  }

  /** Step `t` takes `v`, `h` to `v'`, `h'`. */
  ghost predicate Steps(v: Queue, h: History, t: Step, v': Queue, h': History)
    requires Inv(v, h) && Enabled(v, h, t)
  {
    match t
    case Post(i, r) => v' == PostQueue(v, i, r) && h' == PostHistory(h, i, r)
    case Take => TakeKeeps(v, h); v' == v.(tookIdx := (v.tookIdx + 1) % W16) && h' == TakeHistory(h)
    case Report(i, status) => v' == ReportQueue(v, i, status) && h' == ReportHistory(h, i, status)
    case See => SeeKeeps(v, h); v' == SeeQueue(v, h.req[h.reported[h.seen]].buf) && h' == SeeHistory(h)
    case Release(i) => ReleaseKeeps(v, h, i); v' == ReleaseQueue(v, i, h.req[i]) && h' == ReleaseHistory(h, i)
    case Clear(d) => v' == v.(desc := d) && h' == h
  }

  lemma StepKeeps(v: Queue, h: History, t: Step, v': Queue, h': History)
    requires Inv(v, h) && Enabled(v, h, t) && Steps(v, h, t, v', h')
    ensures Inv(v', h')
  {
    match t {
      case Post(i, r) => PostKeeps(v, h, i, r);
      case Take => TakeKeeps(v, h);
      case Report(i, status) => ReportKeeps(v, h, i, status);
      case See => SeeKeeps(v, h);
      case Release(i) => ReleaseKeeps(v, h, i);
      case Clear(d) => ClearKeeps(v, h, d);
    }
  }

  /** The states `vs`, `hs` are those of a run of the steps `ts`. */
  ghost predicate Run(vs: seq<Queue>, hs: seq<History>, ts: seq<Step>) {
    && |vs| == |hs| == |ts| + 1 && Inv(vs[0], hs[0])
    && forall k :: 0 <= k < |ts| ==> Inv(vs[k], hs[k]) ==>
         Enabled(vs[k], hs[k], ts[k]) && Steps(vs[k], hs[k], ts[k], vs[k + 1], hs[k + 1])
  }

  lemma {:induction false} RunInv(vs: seq<Queue>, hs: seq<History>, ts: seq<Step>, n: nat)
    requires Run(vs, hs, ts) && n < |vs|
    ensures Inv(vs[n], hs[n])
  {
    if n > 0 {
      RunInv(vs, hs, ts, n - 1);
      StepKeeps(vs[n - 1], hs[n - 1], ts[n - 1], vs[n], hs[n]);
    }
  }

  lemma ChainsDisjoint(v: Queue, h: History, i: nat, j: nat)
    requires Inv(v, h) && i in Live(h) && j in Live(h) && i != j
    ensures {i, h.req[i].mid, h.req[i].tail} !! {j, h.req[j].mid, h.req[j].tail}
  {
    assert HeadOk(v, h, i) && HeadOk(v, h, j);
  }

  /** Over every interleaving of requests with completions in any order: descriptors are conserved,
      different requests have disjoint chains, and no unread ring entry has been overwritten. */
  lemma RunIsSafe(vs: seq<Queue>, hs: seq<History>, ts: seq<Step>, n: nat)
    requires Run(vs, hs, ts) && n < |vs|
    ensures Inv(vs[n], hs[n]) && |FreeSet(vs[n])| + 3 * |Live(hs[n])| == 8
    ensures forall i, j :: i in Live(hs[n]) && j in Live(hs[n]) && i != j ==>
      {i, hs[n].req[i].mid, hs[n].req[i].tail} !! {j, hs[n].req[j].mid, hs[n].req[j].tail}
    ensures forall k :: hs[n].taken <= k < |hs[n].posted| ==> PostedOk(vs[n], hs[n], k)
    ensures forall k :: hs[n].seen <= k < |hs[n].reported| ==> ReportedOk(vs[n], hs[n], k)
  {
    RunInv(vs, hs, ts, n);
    var v, h := vs[n], hs[n];
    Conservation(v, h);
    forall i, j | i in Live(h) && j in Live(h) && i != j
      ensures {i, h.req[i].mid, h.req[i].tail} !! {j, h.req[j].mid, h.req[j].tail}
    {
      ChainsDisjoint(v, h, i, j);
    }
  }
}
