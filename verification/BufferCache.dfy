/** The buffer cache of kernel/bio.c. Buffers live in one array; `prev` and
    `next` are indices into it, and the last element is `bcache.head`. */
module BufferCaches {
  import opened Disks
  import opened Counting

  /** A `struct buf` without its links. */
  datatype Slot = Slot(valid: bool, dev: nat, blockno: nat, refcnt: nat, data: Block) {
    predicate Tagged(dev: nat, blockno: nat) {
      this.dev == dev && this.blockno == blockno
    }
  }

  datatype Buf = Buf(slot: Slot, prev: nat, next: nat)

  // -------- The doubly linked ring, on a snapshot of the array --------

  /** Position `i` of the closed ring: the head at 0 and again after the last buffer. */
  function At(h: nat, order: seq<nat>, i: nat): nat {
    if 1 <= i <= |order| then order[i - 1] else h
  }

  /** Following `next` from head `h` visits exactly `order`, most recently used
      first, and following `prev` visits it backwards. */
  ghost predicate Ring(s: seq<Buf>, h: nat, order: seq<nat>) {
    && h < |s|
    && Distinct(order)
    && (forall i :: 0 <= i < |order| ==> order[i] < |s| && order[i] != h)
    && (forall i :: 0 <= i <= |order| ==>
          s[At(h, order, i)].next == At(h, order, i + 1)
          && s[At(h, order, i + 1)].prev == At(h, order, i))
  }

  ghost function Walk(s: seq<Buf>, b: nat, k: nat, forward: bool): nat
    decreases k
  {
    if k == 0 || b >= |s| then b
    else Walk(s, if forward then s[b].next else s[b].prev, k - 1, forward)
  }

  lemma {:induction false} WalkFrom(s: seq<Buf>, h: nat, order: seq<nat>, i: nat, k: nat)
    requires Ring(s, h, order)
    ensures i + k <= |order| + 1 ==> Walk(s, At(h, order, i), k, true) == At(h, order, i + k)
    ensures k <= i <= |order| + 1 ==> Walk(s, At(h, order, i), k, false) == At(h, order, i - k)
    decreases k
  {
    if k > 0 {
      if i + k <= |order| + 1 { WalkFrom(s, h, order, i + 1, k - 1); }
      if k <= i <= |order| + 1 {
        WalkFrom(s, h, order, i - 1, k - 1);
        assert s[At(h, order, i)].prev == At(h, order, i - 1);
      }
    }
  }

  /** One ring: both walks come back to the head after meeting every listed
      buffer once, and one is the reverse of the other. */
  lemma WalksAreReverses(s: seq<Buf>, h: nat, order: seq<nat>, k: nat)
    requires Ring(s, h, order) && 1 <= k <= |order|
    ensures Walk(s, h, k, true) == order[k - 1] == Walk(s, h, |order| + 1 - k, false)
    ensures Walk(s, h, |order| + 1, true) == h == Walk(s, h, |order| + 1, false)
  {
    WalkFrom(s, h, order, 0, k);
    WalkFrom(s, h, order, 0, |order| + 1);
    WalkFrom(s, h, order, |order| + 1, |order| + 1 - k);
    WalkFrom(s, h, order, |order| + 1, |order| + 1);
  }

  function Without(order: seq<nat>, k: nat): seq<nat>
    requires k < |order|
  {
    order[..k] + order[k + 1..]
  }

  /** `b->next->prev = b->prev; b->prev->next = b->next` */
  function Unlinked(s: seq<Buf>, b: nat): seq<Buf>
    requires b < |s| && s[b].next < |s| && s[b].prev < |s|
  {
    var t := s[s[b].next := s[s[b].next].(prev := s[b].prev)];
    t[t[b].prev := t[t[b].prev].(next := t[b].next)]
  }

  /** `b->next = head.next; b->prev = &head; head.next->prev = b; head.next = b` */
  function Pushed(s: seq<Buf>, h: nat, b: nat): seq<Buf>
    requires h < |s| && b < |s| && s[h].next < |s| && h != b
  {
    var t := s[b := s[b].(next := s[h].next, prev := h)];
    var u := t[t[h].next := t[t[h].next].(prev := b)];
    u[h := u[h].(next := b)]
  }

  lemma RingUnlink(s: seq<Buf>, h: nat, order: seq<nat>, k: nat)
    requires Ring(s, h, order) && k < |order|
    ensures var b := order[k];
            && s[b].next == At(h, order, k + 2) < |s|
            && s[b].prev == At(h, order, k) < |s|
            && Ring(Unlinked(s, b), h, Without(order, k))
  {
    var b := order[k];
    assert At(h, order, k + 1) == b;
    var p, q := At(h, order, k), At(h, order, k + 2);
    var t, rest := Unlinked(s, b), Without(order, k);
    assert forall x :: 0 <= x < |s| ==>
      && t[x].next == (if x == p then q else s[x].next)
      && t[x].prev == (if x == q then p else s[x].prev);
    forall i | 0 <= i <= |rest|
      ensures t[At(h, rest, i)].next == At(h, rest, i + 1) && t[At(h, rest, i + 1)].prev == At(h, rest, i)
    {
      var j := if i <= k then i else i + 1;
      assert At(h, rest, i) == At(h, order, j);
      assert At(h, rest, i + 1) == At(h, order, if i < k then i + 1 else i + 2);
      assert s[At(h, order, j)].next == At(h, order, j + 1) && s[At(h, order, j + 1)].prev == At(h, order, j);
    }
  }

  lemma RingPush(s: seq<Buf>, h: nat, order: seq<nat>, b: nat)
    requires Ring(s, h, order) && b < |s| && b != h && b !in order
    ensures s[h].next < |s| && Ring(Pushed(s, h, b), h, [b] + order)
  {
    assert s[At(h, order, 0)].next == At(h, order, 1);
    var t, more := Pushed(s, h, b), [b] + order;
    forall i | 0 <= i <= |more|
      ensures t[At(h, more, i)].next == At(h, more, i + 1) && t[At(h, more, i + 1)].prev == At(h, more, i)
    {
      assert At(h, more, i + 1) == if i == 0 then b else At(h, order, i);
      if i >= 2 {
        assert At(h, more, i) == At(h, order, i - 1);
        assert s[At(h, order, i - 1)].next == At(h, order, i) && s[At(h, order, i)].prev == At(h, order, i - 1);
      }
    }
  }

  // -------- The cache --------

  function SlotsOf(s: seq<Buf>, n: nat): (r: seq<Slot>)
    requires n <= |s|
    ensures |r| == n && forall i :: 0 <= i < n ==> r[i] == s[i].slot
  {
    seq(n, i requires 0 <= i < n => s[i].slot)
  }

  ghost predicate Cached(s: seq<Slot>, dev: nat, blockno: nat) {
    exists i :: 0 <= i < |s| && s[i].Tagged(dev, blockno)
  }

  ghost predicate HasFree(s: seq<Slot>) {
    exists i :: 0 <= i < |s| && s[i].refcnt == 0
  }

  /** At most one buffer per block. Device 0 is exempt: every buffer starts with tag (0, 0). */
  ghost predicate Unique(s: seq<Slot>) {
    forall i, j :: 0 <= i < |s| && 0 <= j < |s| && s[i].dev != 0 && s[j].Tagged(s[i].dev, s[i].blockno) ==> i == j
  }

  /** The buffer after `bget`: referenced once more, or recycled for the new block. */
  function Taken(s: Slot, dev: nat, blockno: nat): Slot {
    if s.Tagged(dev, blockno) then s.(refcnt := s.refcnt + 1)
    else s.(valid := false, dev := dev, blockno := blockno, refcnt := 1)
  }

  /** The buffer after `bread` has read the block if it had to. */
  function Filled(s: Slot, onDisk: Block): Slot {
    if s.valid then s else s.(valid := true, data := onDisk)
  }

  /** `order` lists the `n` buffers from the latest to the earliest release time. */
  ghost predicate Sorted(n: nat, order: seq<nat>, stamp: seq<nat>, now: nat) {
    && |stamp| == n
    && (forall i :: 0 <= i < |order| ==> order[i] < n)
    && (forall b: nat :: b < n ==> b in order)
    && (forall b :: 0 <= b < n ==> stamp[b] < now)
    && (forall i, j :: 0 <= i < j < |order| ==> stamp[order[j]] < stamp[order[i]])
  }

  ghost predicate Recency(s: seq<Buf>, n: nat, order: seq<nat>, stamp: seq<nat>, now: nat) {
    |s| == n + 1 && Ring(s, n, order) && Sorted(n, order, stamp, now)
  }

  lemma RecencyFrame(s: seq<Buf>, b: nat, x: Slot, n: nat, order: seq<nat>, stamp: seq<nat>, now: nat)
    requires Recency(s, n, order, stamp, now) && b < n
    ensures Recency(s[b := s[b].(slot := x)], n, order, stamp, now)
    ensures SlotsOf(s[b := s[b].(slot := x)], n) == SlotsOf(s, n)[b := x]
  {
  }

  lemma SortedRelease(k: nat, n: nat, order: seq<nat>, stamp: seq<nat>, now: nat)
    requires Sorted(n, order, stamp, now) && Distinct(order) && k < |order|
    ensures Sorted(n, [order[k]] + Without(order, k), stamp[order[k] := now], now + 1)
  {
    var more := [order[k]] + Without(order, k);
    forall x: nat | x < n ensures x in more {
      assert x in order;
      assert order == order[..k] + [order[k]] + order[k + 1..];
    }
  }

  lemma SlotsKept(s: seq<Buf>, n: nat, b: nat)
    requires |s| == n + 1 && b < n && s[b].next <= n && s[b].prev <= n && Unlinked(s, b)[n].next <= n
    ensures SlotsOf(Pushed(Unlinked(s, b), n, b), n) == SlotsOf(s, n)
  {
  }

  /** Releasing the last reference: unlink, and relink at the front. */
  lemma RecencyRelease(s: seq<Buf>, b: nat, k: nat, n: nat, order: seq<nat>, stamp: seq<nat>, now: nat)
    requires Recency(s, n, order, stamp, now) && k < |order| && order[k] == b
    ensures s[b].next <= n && s[b].prev <= n && Unlinked(s, b)[n].next <= n
    ensures Recency(Pushed(Unlinked(s, b), n, b), n, [b] + Without(order, k), stamp[b := now], now + 1)
    ensures SlotsOf(Pushed(Unlinked(s, b), n, b), n) == SlotsOf(s, n)
  {
    RingUnlink(s, n, order, k);
    RingPush(Unlinked(s, b), n, Without(order, k), b);
    SortedRelease(k, n, order, stamp, now);
    SlotsKept(s, n, b);
  }

  /** One round of `binit`. */
  lemma RingInit(s: seq<Buf>, b: nat, n: nat, order: seq<nat>)
    requires |s| == n + 1 && b < n && Ring(s, n, order) && |order| == b
    requires forall i :: 0 <= i < b ==> order[i] == b - 1 - i
    ensures s[n].next <= n && Ring(Pushed(s, n, b), n, [b] + order)
    ensures forall i :: 0 <= i <= b ==> ([b] + order)[i] == b - i
    ensures SlotsOf(Pushed(s, n, b), n) == SlotsOf(s, n)
  {
    RingPush(s, n, order, b);
  }

  ghost function IndexOf(order: seq<nat>, b: nat): (k: nat)
    requires b in order
    ensures k < |order| && order[k] == b
  {
    var k: nat :| k < |order| && order[k] == b;
    k
  }

  /** A marker: the links are looked at only where this is mentioned, so that
      proofs about users of the cache are not burdened with them. */
  ghost predicate Inside(z: int) {
    true
  }

  class BufferCache {
    const n: nat
    const buf: array<Buf>
    var disk: Disk
    /** Buffers from most to least recently released. */
    ghost var order: seq<nat>
    /** When each buffer last became unreferenced. */
    ghost var stamp: seq<nat>
    ghost var now: nat
    /** The buffers without their links. */
    ghost var slots: seq<Slot>
    /** Every block write so far. */
    ghost var writes: seq<Write>

    ghost predicate Valid()
      reads this, buf
    {
      && buf.Length == n + 1 && |slots| == |stamp| == n
      && Unique(slots)
      && (forall z :: Inside(z) ==> Linked())
    }

    ghost predicate Linked()
      requires buf.Length == n + 1
      reads this, buf
    {
      Recency(buf[..], n, order, stamp, now) && slots == SlotsOf(buf[..], n)
    }

    lemma LookInside()
      requires Valid()
      ensures Linked()
    {
      assert Inside(0);
    }

    /** `binit` */
    constructor (n: nat, disk: Disk)
      ensures Valid() && fresh(buf)
      ensures this.n == n && this.disk == disk && writes == []
      ensures forall i :: 0 <= i < n ==> slots[i] == Slot(false, 0, 0, 0, [])
      ensures |stamp| == n && forall i, j :: 0 <= i < j < n ==> stamp[i] < stamp[j]
    {
      this.n := n;
      this.disk := disk;
      writes := [];
      buf := new Buf[n + 1](_ => Buf(Slot(false, 0, 0, 0, []), n, n));
      new;
      var b := 0;
      ghost var list: seq<nat> := [];
      ghost var all := SlotsOf(buf[..], n);
      while b < n
        invariant 0 <= b <= n && buf.Length == n + 1
        invariant Ring(buf[..], n, list) && |list| == b
        invariant forall i :: 0 <= i < b ==> list[i] == b - 1 - i
        invariant SlotsOf(buf[..], n) == all && this.disk == disk && writes == []
      {
        RingInit(buf[..], b, n, list);
        PushFront(b);
        list := [b] + list;
        b := b + 1;
      }
      order, now, stamp, slots := list, n, seq(n, i => i), all;
      forall i: nat | i < n ensures i in order {
        assert order[n - 1 - i] == i;
      }
    }

    method PushFront(b: nat)
      requires buf.Length == n + 1 && b < n && buf[n].next <= n
      modifies buf
      ensures buf[..] == Pushed(old(buf[..]), n, b)
    {
      buf[b] := buf[b].(next := buf[n].next, prev := n);
      buf[buf[n].next] := buf[buf[n].next].(prev := b);
      buf[n] := buf[n].(next := b);
    }

    method Unlink(b: nat)
      requires buf.Length == n + 1 && b < n && buf[b].next <= n && buf[b].prev <= n
      modifies buf
      ensures buf[..] == Unlinked(old(buf[..]), b)
    {
      buf[buf[b].next] := buf[buf[b].next].(prev := buf[b].prev);
      buf[buf[b].prev] := buf[buf[b].prev].(next := buf[b].next);
    }

    /** The first loop of `bget`. */
    method Find(dev: nat, blockno: nat) returns (r: int)
      requires Valid()
      ensures r == -1 <==> !Cached(slots, dev, blockno)
      ensures r != -1 ==> 0 <= r < n && slots[r].Tagged(dev, blockno)
    {
      LookInside();
      ghost var k := 0;
      r := buf[n].next;
      assert buf[At(n, order, 0)].next == At(n, order, 1);
      while r != n
        invariant 0 <= k <= |order| && r == At(n, order, k + 1)
        invariant forall i :: 0 <= i < k ==> !buf[order[i]].slot.Tagged(dev, blockno)
        decreases |order| - k
      {
        if buf[r].slot.dev == dev && buf[r].slot.blockno == blockno {
          assert slots[r].Tagged(dev, blockno);
          return;
        }
        assert buf[At(n, order, k + 1)].next == At(n, order, k + 2);
        r, k := buf[r].next, k + 1;
      }
      forall b: nat | b < n ensures !slots[b].Tagged(dev, blockno) {
        assert order[IndexOf(order, b)] == b;
      }
      r := -1;
    }

    /** The second loop of `bget`: among the unreferenced buffers, the one released longest ago. */
    method Oldest() returns (r: int)
      requires Valid()
      ensures r == -1 <==> !HasFree(slots)
      ensures r != -1 ==>
                && 0 <= r < n && slots[r].refcnt == 0
                && forall j :: 0 <= j < n && slots[j].refcnt == 0 ==> stamp[r] <= stamp[j]
    {
      LookInside();
      ghost var k := |order|;
      r := buf[n].prev;
      assert buf[At(n, order, |order| + 1)].prev == At(n, order, |order|);
      while r != n
        invariant 0 <= k <= |order| && r == At(n, order, k)
        invariant forall i :: k <= i < |order| ==> buf[order[i]].slot.refcnt != 0
        decreases k
      {
        if buf[r].slot.refcnt == 0 {
          assert slots[r].refcnt == 0;
          forall j: nat | j < n && slots[j].refcnt == 0 ensures stamp[r] <= stamp[j] {
            assert order[IndexOf(order, j)] == j;
          }
          return;
        }
        assert buf[At(n, order, k)].prev == At(n, order, k - 1);
        r, k := buf[r].prev, k - 1;
      }
      forall b: nat | b < n ensures slots[b].refcnt != 0 {
        assert order[IndexOf(order, b)] == b;
      }
      r := -1;
    }

    /** The critical section of `bget`; -1 is the "no buffers" panic. A miss
        recycles the unreferenced buffer that was released longest ago. */
    method Bget(dev: nat, blockno: nat) returns (r: int)
      requires Valid()
      modifies buf, `slots
      ensures Valid()
      ensures r == -1 <==> !Cached(old(slots), dev, blockno) && !HasFree(old(slots))
      ensures r == -1 ==> slots == old(slots)
      ensures r != -1 ==>
                && 0 <= r < n
                && slots == old(slots)[r := Taken(old(slots)[r], dev, blockno)]
      ensures Cached(old(slots), dev, blockno) ==> old(slots)[r].dev == dev && old(slots)[r].blockno == blockno
      ensures Cached(old(slots), dev, blockno) ==> slots[r] == old(slots)[r].(refcnt := old(slots)[r].refcnt + 1)
      ensures r != -1 && !Cached(old(slots), dev, blockno) ==>
                && old(slots)[r].refcnt == 0 && slots[r] == Slot(false, dev, blockno, 1, old(slots)[r].data)
                && forall j :: 0 <= j < n && old(slots)[j].refcnt == 0 ==> stamp[r] <= stamp[j]
    {
      r := Find(dev, blockno);
      if r != -1 {
        var s := Get(r);
        SetSlot(r, s.(refcnt := s.refcnt + 1));
        return;
      }
      r := Oldest();
      if r != -1 {
        var s := Get(r);
        SetSlot(r, s.(dev := dev, blockno := blockno, valid := false, refcnt := 1));
      }
    }

    /** `bread`: the block as it is in the cache, or as it is on disk when nobody caches it. */
    method Bread(dev: nat, blockno: nat) returns (r: int)
      requires Valid() && blockno < |disk|
      modifies buf, `slots
      ensures Valid()
      ensures r == -1 <==> !Cached(old(slots), dev, blockno) && !HasFree(old(slots))
      ensures r == -1 ==> slots == old(slots)
      ensures r != -1 ==>
                && 0 <= r < n
                && slots == old(slots)[r := Filled(Taken(old(slots)[r], dev, blockno), disk[blockno])]
      ensures Cached(old(slots), dev, blockno) ==> old(slots)[r].Tagged(dev, blockno)
      ensures r != -1 ==> var s := old(slots)[r];
                slots[r] == if !(s.dev == dev && s.blockno == blockno) then Slot(true, dev, blockno, 1, disk[blockno])
                            else if s.valid then s.(refcnt := s.refcnt + 1)
                            else Slot(true, dev, blockno, s.refcnt + 1, disk[blockno])
      ensures r != -1 && !Cached(old(slots), dev, blockno) ==>
                && old(slots)[r].refcnt == 0
                && forall j :: 0 <= j < n && old(slots)[j].refcnt == 0 ==> stamp[r] <= stamp[j]
    {
      r := Bget(dev, blockno);
      if r != -1 {
        var s := Get(r);
        if !s.valid {
          SetSlot(r, s.(data := disk[blockno], valid := true));
        }
      }
    }

    /** An update of a buffer's own fields; the holder of the buffer lock does this to its data. */
    method SetSlot(b: nat, s: Slot)
      requires Valid() && b < n && Unique(slots[b := s])
      modifies buf, `slots
      ensures Valid()
      ensures slots == old(slots)[b := s]
    {
      LookInside();
      RecencyFrame(buf[..], b, s, n, order, stamp, now);
      buf[b] := buf[b].(slot := s);
      slots := slots[b := s];
      assert buf[..] == old(buf[..])[b := old(buf[b]).(slot := s)];
    }

    method Get(b: nat) returns (s: Slot)
      requires Valid() && b < n
      ensures s == slots[b]
    {
      LookInside();
      s := buf[b].slot;
    }

    /** `bwrite` */
    method Bwrite(b: nat)
      requires Valid() && b < n && slots[b].blockno < |disk|
      modifies `disk, `writes
      ensures Valid() && slots == old(slots)
      ensures disk == Apply(old(disk), Write(slots[b].blockno, slots[b].data))
      ensures writes == old(writes) + [Write(slots[b].blockno, slots[b].data)]
    {
      LookInside();
      disk := disk[buf[b].slot.blockno := buf[b].slot.data];
      writes := writes + [Write(buf[b].slot.blockno, buf[b].slot.data)];
    }

    /** `brelse`: the last reference moves the buffer to the most recently used end. */
    method Brelse(b: nat)
      requires Valid() && b < n && slots[b].refcnt > 0
      modifies buf, `slots, `order, `stamp, `now
      ensures Valid()
      ensures slots == old(slots)[b := old(slots)[b].(refcnt := old(slots)[b].refcnt - 1)]
      ensures slots[b].refcnt > 0 ==> stamp == old(stamp) && order == old(order)
      ensures slots[b].refcnt == 0 ==>
                && stamp == old(stamp)[b := stamp[b]]
                && forall j :: 0 <= j < n && j != b ==> stamp[j] < stamp[b]
    {
      LookInside();
      SetSlot(b, buf[b].slot.(refcnt := buf[b].slot.refcnt - 1));
      LookInside();
      if buf[b].slot.refcnt == 0 {
        RecencyRelease(buf[..], b, IndexOf(order, b), n, order, stamp, now);
        Unlink(b);
        PushFront(b);
        order, stamp, now := [b] + Without(order, IndexOf(order, b)), stamp[b := now], now + 1;
      }
    }

    /** `bpin` */
    method Bpin(b: nat)
      requires Valid() && b < n
      modifies buf, `slots
      ensures Valid()
      ensures slots == old(slots)[b := old(slots)[b].(refcnt := old(slots)[b].refcnt + 1)]
    {
      var s := Get(b);
      SetSlot(b, s.(refcnt := s.refcnt + 1));
    }

    /** `bunpin`, called while the buffer is held, so a reference remains. */
    method Bunpin(b: nat)
      requires Valid() && b < n && slots[b].refcnt >= 2
      modifies buf, `slots
      ensures Valid()
      ensures slots == old(slots)[b := old(slots)[b].(refcnt := old(slots)[b].refcnt - 1)]
    {
      var s := Get(b);
      SetSlot(b, s.(refcnt := s.refcnt - 1));
    }
  }
}
