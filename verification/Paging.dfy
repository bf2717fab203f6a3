/** Demand paging: kernel/vm.c (vmfault, kalloc_or_evict, uvmunmap) over the
    frame table, the swap area of kernel/swap.c and the free list of
    kernel/kalloc.c. Virtual addresses are page numbers here, and page tables
    are finite maps; module PagedTables shows which three-level tables they are. */
module Paging {
  import opened Counting
  import opened FrameTables
  import opened Memory

  type Page = seq<int>

  /** A process and a virtual page number. */
  datatype Key = Key(pid: int, vpn: nat)

  /** A leaf PTE that is not zero: PTE_V with a frame, or PTE_SWAPPED with a slot. */
  datatype Pte = Mapped(pa: nat) | Swapped(slot: nat)

  datatype SwapSlot = SwapSlot(used: bool, pid: int, va: nat, data: Page)

  /** A page-table page below the root of process `pid`. */
  datatype Table = Level1(pid: int, i: nat) | Level0(pid: int, i: nat)

  function Fill(b: int): (r: Page)
    ensures |r| == 4096 && forall i :: 0 <= i < 4096 ==> r[i] == b
  {
    seq(4096, _ => b)
  }

  datatype Vm = Vm(
    frames: seq<Frame>,
    slots: seq<SwapSlot>,
    free: seq<nat>,
    mem: map<nat, Page>,
    pt: map<Key, Pte>,
    /** The page-table pages below the roots, and where they are in physical memory. */
    tables: map<Table, nat>,
    levels: map<int, nat>,
    /** Pages that `uvmalloc` mapped eagerly, which never enter the frame table. */
    eager: set<Key>)

  // -------- What must hold between any two steps --------

  ghost predicate FramesOk(v: Vm) {
    && (forall i :: 0 <= i < |v.frames| && v.frames[i].used ==>
          && KeyOf(v.frames[i]) in v.pt && v.pt[KeyOf(v.frames[i])] == Mapped(v.frames[i].pa)
          && v.frames[i].pid in v.levels)
    && (forall i, j :: 0 <= i < j < |v.frames| && v.frames[i].used && v.frames[j].used ==>
         v.frames[i].pa != v.frames[j].pa)
  }

  ghost predicate Tracked(v: Vm, k: Key) {
    exists i :: 0 <= i < |v.frames| && v.frames[i].used && KeyOf(v.frames[i]) == k
  }

  /** With FramesOk, used frame entries and the valid PTEs of faulted-in pages match one to one. */
  ghost predicate TrackOk(v: Vm) {
    && (forall k :: k in v.pt && v.pt[k].Mapped? && k !in v.eager ==> Tracked(v, k))
    && (forall k :: k in v.eager ==> k in v.pt && v.pt[k].Mapped? && !Tracked(v, k))
  }

  function KeyOf(f: Frame): Key {
    Key(f.pid, f.va)
  }

  /** Used swap slots and PTE_SWAPPED entries match one to one. */
  ghost predicate SwapOk(v: Vm) {
    && (forall k :: k in v.pt && v.pt[k].Swapped? ==>
          && v.pt[k].slot < |v.slots| && v.slots[v.pt[k].slot].used
          && v.slots[v.pt[k].slot].pid == k.pid && v.slots[v.pt[k].slot].va == k.vpn)
    && (forall s :: 0 <= s < |v.slots| && v.slots[s].used ==>
          var k := Key(v.slots[s].pid, v.slots[s].va); k in v.pt && v.pt[k] == Swapped(s))
  }

  /** No physical page serves two purposes. */
  ghost predicate PhysOk(v: Vm) {
    && Distinct(v.free)
    && (forall i :: 0 <= i < |v.free| ==> v.free[i] in v.mem)
    && (forall k :: k in v.pt && v.pt[k].Mapped? ==> v.pt[k].pa in v.mem && v.pt[k].pa !in v.free)
    && (forall k, m :: k in v.pt && m in v.pt && v.pt[k].Mapped? && v.pt[k] == v.pt[m] ==> k == m)
  }

  /** Page-table pages are pages that serve nothing else, each one table. The pages of leaves lie below
      middle pages, of which there are at most 256 per process, up to MAXVA. To be opened by mentioning `Tabling`. */
  ghost predicate TablesOk(v: Vm) {
    forall z :: Tabling(z, v) ==>
      && |v.slots| <= SLOTS && (forall p :: p in v.mem ==> GoodPage(p))
      && (forall t :: t in v.tables ==> v.tables[t] in v.mem && v.tables[t] !in v.free)
      && (forall t, k :: t in v.tables && k in v.pt ==> v.pt[k] != Mapped(v.tables[t]))
      && (forall t, u :: t in v.tables && u in v.tables && v.tables[t] == v.tables[u] ==> t == u)
      && (forall t :: t in v.tables ==> Fits(v.tables, t))
  }

  ghost predicate Tabling(z: int, v: Vm) { true }

  /** There is a place for table `t`. */
  ghost predicate Fits(tables: map<Table, nat>, t: Table) {
    if t.Level1? then t.i < 256 else Level1(t.pid, t.i / 512) in tables
  }

  /** The page is not a page-table page. */
  ghost predicate Untabled(v: Vm, pa: nat) {
    forall t :: t in v.tables ==> v.tables[t] != pa
  }

  lemma MappedUntabled(v: Vm, k: Key)
    requires TablesOk(v) && k in v.pt && v.pt[k].Mapped?
    ensures Untabled(v, v.pt[k].pa)
  {
    assert Tabling(0, v);
  }

  lemma FreeUntabled(v: Vm, pa: nat)
    requires TablesOk(v) && pa in v.free
    ensures Untabled(v, pa)
  {
    assert Tabling(0, v);
  }

  /** Other pages may move between the free list and the processes. */
  lemma TablesKept(v: Vm, w: Vm)
    requires TablesOk(v) && w.tables == v.tables && |w.slots| == |v.slots| && w.mem.Keys == v.mem.Keys
    requires forall x :: x in w.free ==> x in v.free || Untabled(v, x)
    requires forall k :: k in w.pt && w.pt[k].Mapped? ==> (k in v.pt && v.pt[k] == w.pt[k]) || Untabled(v, w.pt[k].pa)
    ensures TablesOk(w)
  {
    assert Tabling(0, v);
  }

  predicate HasTables(v: Vm, k: Key) {
    Level1(k.pid, k.vpn / 262144) in v.tables && Level0(k.pid, k.vpn / 512) in v.tables
  }

  ghost predicate Inv(v: Vm) {
    FramesOk(v) && TrackOk(v) && SwapOk(v) && PhysOk(v) && TablesOk(v) && forall k :: k in v.pt ==> HasTables(v, k)
  }

  /** The contents of a page, wherever it is. */
  ghost function Content(v: Vm, k: Key): Page
    requires k in v.pt
  {
    match v.pt[k]
    case Mapped(pa) => if pa in v.mem then v.mem[pa] else []
    case Swapped(s) => if s < |v.slots| then v.slots[s].data else []
  }

  /** The logical memory of all processes. */
  ghost function Logical(v: Vm): map<Key, Page> {
    map k | k in v.pt :: Content(v, k)
  }

  /** A step that no process can notice: the same pages with the same contents;
      pages already swapped out stay where they are. */
  ghost predicate Invisible(v: Vm, w: Vm) {
    && Logical(w) == Logical(v) && w.pt.Keys == v.pt.Keys
    && w.tables == v.tables && w.levels == v.levels && w.eager == v.eager
    && (forall k :: k in v.pt && v.pt[k].Swapped? ==> w.pt[k] == v.pt[k])
  }

  /** The frame table has an unused entry. */
  ghost predicate HasRoom(v: Vm) {
    exists i :: 0 <= i < |v.frames| && !v.frames[i].used
  }

  /** A marker: `Sound` is looked into only where this is mentioned. */
  ghost predicate Inside(z: int, v: Vm) {
    true
  }

  ghost predicate Sound(v: Vm) {
    forall z :: Inside(z, v) ==> Inv(v)
  }

  // -------- Eviction and swap-in, as value transformations --------

  /** TrackOk looks only at which pages have a used entry. */
  lemma SameTracking(v: Vm, w: Vm)
    requires TrackOk(v) && w.pt == v.pt && w.eager == v.eager && |w.frames| == |v.frames|
    requires forall i :: 0 <= i < |v.frames| ==>
               w.frames[i].used == v.frames[i].used && (v.frames[i].used ==> KeyOf(w.frames[i]) == KeyOf(v.frames[i]))
    ensures TrackOk(w)
  {
  }

  lemma SameLogical(v: Vm, w: Vm)
    requires w.pt == v.pt && w.mem == v.mem && w.slots == v.slots
    ensures Logical(w) == Logical(v)
  {
    assert forall k :: k in v.pt ==> Content(w, k) == Content(v, k);
  }

  lemma ClearRefsFrames(v: Vm)
    requires FramesOk(v)
    ensures FramesOk(v.(frames := ClearRefs(v.frames)))
  {
    assert forall i :: 0 <= i < |v.frames| ==>
      ClearRefs(v.frames)[i].used == v.frames[i].used && ClearRefs(v.frames)[i].pa == v.frames[i].pa;
  }

  lemma ClearRefsKeeps(v: Vm)
    requires Inv(v)
    ensures Inv(v.(frames := ClearRefs(v.frames))) && Logical(v.(frames := ClearRefs(v.frames))) == Logical(v)
  {
    var w := v.(frames := ClearRefs(v.frames));
    SameTracking(v, w);
    ClearRefsFrames(v);
    TablesKept(v, w);
    SameLogical(v, w);
    assert SwapOk(w) && PhysOk(w);
    assert forall k :: k in v.pt ==> HasTables(w, k);
  }

  /** `clock_evict` after the selection of frame `i` and swap slot `s`. */
  ghost function Evicted(v: Vm, i: nat, s: nat): Vm
    requires i < |v.frames| && s < |v.slots|
  {
    var f := v.frames[i];
    v.(frames := v.frames[i := UNUSED],
       slots := v.slots[s := SwapSlot(true, f.pid, f.va, if f.pa in v.mem then v.mem[f.pa] else [])],
       pt := v.pt[KeyOf(f) := Swapped(s)],
       mem := v.mem[f.pa := Fill(1)],
       free := [f.pa] + v.free)
  }

  lemma EvictFrames(v: Vm, i: nat, s: nat)
    requires Inv(v) && i < |v.frames| && v.frames[i].used && s < |v.slots| && !v.slots[s].used
    ensures FramesOk(Evicted(v, i, s))
  {
  }

  lemma EvictSwap(v: Vm, i: nat, s: nat)
    requires Inv(v) && i < |v.frames| && v.frames[i].used && s < |v.slots| && !v.slots[s].used
    ensures SwapOk(Evicted(v, i, s))
  {
  }

  lemma EvictPhys(v: Vm, i: nat, s: nat)
    requires Inv(v) && i < |v.frames| && v.frames[i].used && s < |v.slots| && !v.slots[s].used
    ensures PhysOk(Evicted(v, i, s))
  {
  }

  lemma EvictTrack(v: Vm, i: nat, s: nat)
    requires Inv(v) && i < |v.frames| && v.frames[i].used && s < |v.slots|
    ensures TrackOk(Evicted(v, i, s))
  {
    var w := Evicted(v, i, s);
    OthersTracked(v, w, i, UNUSED);
    assert Tracked(v, KeyOf(v.frames[i]));
  }

  /** Changing one entry of the frame table affects only the pages it names. */
  lemma OthersTracked(v: Vm, w: Vm, i: nat, f: Frame)
    requires i < |v.frames| && w.frames == v.frames[i := f]
    ensures forall k :: (v.frames[i].used ==> k != KeyOf(v.frames[i])) && (f.used ==> k != KeyOf(f)) ==>
              (Tracked(w, k) <==> Tracked(v, k))
    ensures f.used ==> Tracked(w, KeyOf(f))
  {
    forall k | (v.frames[i].used ==> k != KeyOf(v.frames[i])) && (f.used ==> k != KeyOf(f))
      ensures Tracked(w, k) <==> Tracked(v, k)
    {
      if Tracked(v, k) {
        var j :| 0 <= j < |v.frames| && v.frames[j].used && KeyOf(v.frames[j]) == k;
        assert w.frames[j].used && KeyOf(w.frames[j]) == k;
      }
      if Tracked(w, k) {
        var j :| 0 <= j < |v.frames| && w.frames[j].used && KeyOf(w.frames[j]) == k;
        assert v.frames[j].used && KeyOf(v.frames[j]) == k;
      }
    }
    if f.used { assert w.frames[i].used && KeyOf(w.frames[i]) == KeyOf(f); }
  }

  /** An eviction moves one page to swap and changes no page's contents. */
  lemma EvictKeeps(v: Vm, i: nat, s: nat)
    requires Inv(v) && i < |v.frames| && v.frames[i].used && s < |v.slots| && !v.slots[s].used
    ensures Inv(Evicted(v, i, s)) && Logical(Evicted(v, i, s)) == Logical(v)
  {
    EvictFrames(v, i, s);
    EvictSwap(v, i, s);
    EvictPhys(v, i, s);
    EvictTrack(v, i, s);
    var w := Evicted(v, i, s);
    assert v.pt[KeyOf(v.frames[i])] == Mapped(v.frames[i].pa);
    MappedUntabled(v, KeyOf(v.frames[i]));
    TablesKept(v, w);
    EvictContent(v, i, s);
  }

  lemma EvictContent(v: Vm, i: nat, s: nat)
    requires SwapOk(v) && PhysOk(v) && i < |v.frames| && s < |v.slots| && !v.slots[s].used
    requires KeyOf(v.frames[i]) in v.pt && v.pt[KeyOf(v.frames[i])] == Mapped(v.frames[i].pa)
    ensures Logical(Evicted(v, i, s)) == Logical(v)
  {
    var w := Evicted(v, i, s);
    forall k | k in v.pt ensures Content(w, k) == Content(v, k) {
      if k != KeyOf(v.frames[i]) && v.pt[k].Swapped? {
        assert v.pt[k].slot != s;
      }
    }
  }

  /** The page of frame `i` has gone to slot `s`, with its contents. */
  ghost predicate SwapsOut(v: Vm, w: Vm, i: nat, s: nat) {
    && i < |v.frames| == |w.frames| && !w.frames[i].used && s < |v.slots| == |w.slots| && !v.slots[s].used
    && var f := v.frames[i];
    && f.pa in v.mem && w.slots == v.slots[s := SwapSlot(true, f.pid, f.va, v.mem[f.pa])]
    && w.pt == v.pt[Key(f.pid, f.va) := Swapped(s)]
  }

  ghost predicate Evicting(z: int, w: Vm) { true }

  /** The page of the chosen frame has gone to some slot. To be opened by mentioning `Evicting`. */
  ghost predicate EvictsChosen(v: Vm, w: Vm, hand: nat) {
    forall z :: Evicting(z, w) ==> exists i: nat, s: nat :: Chosen(v.frames, hand, v.levels, i) && SwapsOut(v, w, i, s)
  }

  /** `vmfault` maps page `k` to the popped frame `pa` holding `page`; `at` is
      its entry in the frame table. A swapped page gives up its slot. */
  ghost function Loaded(v: Vm, k: Key, pa: nat, page: Page, at: nat): Vm
    requires at < |v.frames| && (k in v.pt && v.pt[k].Swapped? ==> v.pt[k].slot < |v.slots|)
  {
    v.(frames := v.frames[at := Frame(true, k.pid, k.vpn, pa, true)],
       slots := if k in v.pt && v.pt[k].Swapped? then FreeSlot(v.slots, v.pt[k].slot) else v.slots,
       pt := v.pt[k := Mapped(pa)],
       mem := v.mem[pa := page])
  }

  /** `swap_free` leaves the data behind. */
  function FreeSlot(slots: seq<SwapSlot>, s: nat): seq<SwapSlot>
    requires s < |slots|
  {
    slots[s := SwapSlot(false, -1, 0, slots[s].data)]
  }

  /** A page popped from the free list and not used for anything yet. */
  ghost predicate Spare(v: Vm, pa: nat) {
    pa in v.mem && pa !in v.free && (forall k :: k in v.pt ==> v.pt[k] != Mapped(pa)) && Untabled(v, pa)
  }

  /** The pages that serve nothing: neither free, nor mapped, nor part of the page tables. */
  ghost function Spares(v: Vm): set<nat> {
    set p | p in v.mem && Spare(v, p)
  }

  /** The frame table knows page `k` at frame `pa`, just touched. */
  ghost predicate Registered(frames: seq<Frame>, k: Key, pa: nat) {
    exists i :: 0 <= i < |frames| && frames[i] == Frame(true, k.pid, k.vpn, pa, true)
  }

  lemma SameSpares(v: Vm, w: Vm)
    requires w.mem.Keys == v.mem.Keys && w.tables == v.tables && w.pt == v.pt && w.free == v.free
    ensures Spares(w) == Spares(v)
  {
  }

  lemma EvictSpares(v: Vm, i: nat, s: nat)
    requires Inv(v) && i < |v.frames| && v.frames[i].used && s < |v.slots|
    ensures Spares(Evicted(v, i, s)) == Spares(v)
  {
    var w, k := Evicted(v, i, s), KeyOf(v.frames[i]);
    assert v.pt[k] == Mapped(v.frames[i].pa) && w.free[0] == v.frames[i].pa;
    forall p ensures p in Spares(w) <==> p in Spares(v) {
      assert forall m :: m in v.pt && v.pt[m] == Mapped(p) && m != k ==> m in w.pt && w.pt[m] == Mapped(p);
    }
  }

  lemma PopSpares(v: Vm, junk: Page)
    requires Inv(v) && v.free != []
    ensures Spares(Popped(v, junk)) == Spares(v) + {v.free[0]}
  {
    var w := Popped(v, junk);
    PopKeeps(v, junk);
    forall p | p in w.mem ensures p in Spares(w) <==> p in Spares(v) + {v.free[0]} {
      assert p != v.free[0] ==> (p in w.free <==> p in v.free);
    }
    assert w.mem.Keys == v.mem.Keys;
  }

  /** A spare page is mapped. */
  lemma MapSpares(v: Vm, w: Vm, k: Key, pa: nat)
    requires Spare(v, pa) && (k in v.pt ==> v.pt[k].Swapped?) && w.pt == v.pt[k := Mapped(pa)]
    requires w.mem.Keys == v.mem.Keys && w.free == v.free && w.tables == v.tables
    ensures Spares(w) == Spares(v) - {pa}
  {
    forall p ensures p in Spares(w) <==> p in Spares(v) - {pa} {
      if p == pa {
        assert w.pt[k] == Mapped(p);
      } else {
        assert forall m :: m in v.pt && v.pt[m] == Mapped(p) ==> m in w.pt && w.pt[m] == Mapped(p);
      }
    }
  }

  lemma DropSpares(v: Vm, k: Key, at: int)
    requires Inv(v) && k in v.pt && -1 <= at < |v.frames|
    ensures v.pt[k].Swapped? ==> v.pt[k].slot < |v.slots|
    ensures Spares(Dropped(v, k, at)) == Spares(v)
  {
    var w := Dropped(v, k, at);
    forall p ensures p in Spares(w) <==> p in Spares(v) {
      assert forall m :: m in v.pt && v.pt[m] == Mapped(p) && m != k ==> m in w.pt && w.pt[m] == Mapped(p);
    }
  }

  lemma TableSpares(v: Vm, t: Table, pa: nat)
    requires Spare(v, pa) && t !in v.tables
    ensures Spares(v.(tables := v.tables[t := pa])) == Spares(v) - {pa}
  {
    var w := v.(tables := v.tables[t := pa]);
    forall p ensures p in Spares(w) <==> p in Spares(v) - {pa} {
      if p == pa {
        assert w.tables[t] == p;
      } else {
        assert forall u :: u in v.tables && v.tables[u] == p ==> u in w.tables && w.tables[u] == p;
      }
    }
  }

  lemma LoadFrames(v: Vm, k: Key, pa: nat, page: Page, at: nat)
    requires Inv(v) && Spare(v, pa) && at < |v.frames| && !v.frames[at].used && k.pid in v.levels
    requires k in v.pt ==> v.pt[k].Swapped?
    ensures FramesOk(Loaded(v, k, pa, page, at))
  {
  }

  lemma LoadTrack(v: Vm, k: Key, pa: nat, page: Page, at: nat)
    requires Inv(v) && at < |v.frames| && !v.frames[at].used && (k in v.pt ==> v.pt[k].Swapped?)
    ensures TrackOk(Loaded(v, k, pa, page, at))
  {
    OthersTracked(v, Loaded(v, k, pa, page, at), at, Frame(true, k.pid, k.vpn, pa, true));
  }

  lemma LoadSwap(v: Vm, k: Key, pa: nat, page: Page, at: nat)
    requires Inv(v) && Spare(v, pa) && at < |v.frames| && (k in v.pt ==> v.pt[k].Swapped?)
    ensures SwapOk(Loaded(v, k, pa, page, at))
  {
  }

  lemma LoadPhys(v: Vm, k: Key, pa: nat, page: Page, at: nat)
    requires Inv(v) && Spare(v, pa) && at < |v.frames| && (k in v.pt ==> v.pt[k].Swapped?)
    ensures PhysOk(Loaded(v, k, pa, page, at))
  {
  }

  lemma LoadContent(v: Vm, k: Key, pa: nat, page: Page, at: nat)
    requires SwapOk(v) && Spare(v, pa) && at < |v.frames| && (k in v.pt ==> v.pt[k].Swapped?)
    ensures Logical(Loaded(v, k, pa, page, at)) == Logical(v)[k := page]
  {
  }

  /** Bringing a page in changes at most that page, to what was brought in. */
  lemma LoadKeeps(v: Vm, k: Key, pa: nat, page: Page, at: nat)
    requires Inv(v) && Spare(v, pa) && HasTables(v, k) && at < |v.frames| && !v.frames[at].used && k.pid in v.levels
    requires k in v.pt ==> v.pt[k].Swapped?
    ensures Inv(Loaded(v, k, pa, page, at)) && Logical(Loaded(v, k, pa, page, at)) == Logical(v)[k := page]
  {
    LoadFrames(v, k, pa, page, at);
    LoadSwap(v, k, pa, page, at);
    LoadPhys(v, k, pa, page, at);
    LoadTrack(v, k, pa, page, at);
    LoadContent(v, k, pa, page, at);
    TablesKept(v, Loaded(v, k, pa, page, at));
  }

  /** `uvmunmap` of one page: its slot or its frame becomes free again. `at` is
      the frame-table entry that named the frame, or -1. */
  ghost function Dropped(v: Vm, k: Key, at: int): Vm
    requires k in v.pt && -1 <= at < |v.frames| && (v.pt[k].Swapped? ==> v.pt[k].slot < |v.slots|)
  {
    match v.pt[k]
    case Swapped(s) => v.(slots := FreeSlot(v.slots, s), pt := v.pt - {k})
    case Mapped(pa) =>
      v.(frames := if at == -1 then v.frames else v.frames[at := UNUSED],
         mem := v.mem[pa := Fill(1)], free := [pa] + v.free, pt := v.pt - {k}, eager := v.eager - {k})
  }

  /** `frametable_remove` found entry `at` for `pa`, or there is none. */
  ghost predicate Removes(frames: seq<Frame>, pa: nat, at: int) {
    if at == -1 then forall i :: 0 <= i < |frames| ==> !(frames[i].used && frames[i].pa == pa)
    else 0 <= at < |frames| && frames[at].used && frames[at].pa == pa
  }

  lemma DropFrames(v: Vm, k: Key, at: int)
    requires Inv(v) && k in v.pt && (v.pt[k].Mapped? ==> Removes(v.frames, v.pt[k].pa, at)) && -1 <= at < |v.frames|
    ensures FramesOk(Dropped(v, k, at))
  {
  }

  lemma DropTrack(v: Vm, k: Key, at: int)
    requires Inv(v) && k in v.pt && (v.pt[k].Mapped? ==> Removes(v.frames, v.pt[k].pa, at)) && -1 <= at < |v.frames|
    ensures TrackOk(Dropped(v, k, at))
  {
    var w := Dropped(v, k, at);
    if v.pt[k].Swapped? || at == -1 {
      assert w.frames == v.frames;
      assert forall m :: Tracked(w, m) <==> Tracked(v, m);
    } else {
      assert KeyOf(v.frames[at]) == k;
      OthersTracked(v, w, at, UNUSED);
    }
  }

  lemma DropSwap(v: Vm, k: Key, at: int)
    requires SwapOk(v) && k in v.pt && -1 <= at < |v.frames|
    ensures SwapOk(Dropped(v, k, at))
  {
  }

  lemma DropPhys(v: Vm, k: Key, at: int)
    requires Inv(v) && k in v.pt && -1 <= at < |v.frames|
    ensures PhysOk(Dropped(v, k, at))
  {
  }

  lemma DropOther(v: Vm, k: Key, at: int, m: Key)
    requires SwapOk(v) && PhysOk(v) && k in v.pt && -1 <= at < |v.frames| && m in v.pt && m != k
    ensures Content(Dropped(v, k, at), m) == Content(v, m)
  {
  }

  lemma DropContent(v: Vm, k: Key, at: int)
    requires SwapOk(v) && PhysOk(v) && k in v.pt && -1 <= at < |v.frames|
    ensures Logical(Dropped(v, k, at)) == Logical(v) - {k}
  {
    var w := Dropped(v, k, at);
    forall m | m in v.pt && m != k ensures Content(w, m) == Content(v, m) {
      DropOther(v, k, at, m);
    }
    assert w.pt.Keys == v.pt.Keys - {k};
  }

  /** Unmapping a page removes it and touches no other. */
  lemma DropKeeps(v: Vm, k: Key, at: int)
    requires Inv(v) && k in v.pt && (v.pt[k].Mapped? ==> Removes(v.frames, v.pt[k].pa, at)) && -1 <= at < |v.frames|
    ensures Inv(Dropped(v, k, at)) && Logical(Dropped(v, k, at)) == Logical(v) - {k}
  {
    DropFrames(v, k, at);
    DropSwap(v, k, at);
    DropPhys(v, k, at);
    DropTrack(v, k, at);
    DropContent(v, k, at);
    if v.pt[k].Mapped? { MappedUntabled(v, k); }
    TablesKept(v, Dropped(v, k, at));
  }

  /** `kalloc`: the first free page, filled with junk. */
  ghost function Popped(v: Vm, junk: Page): Vm
    requires v.free != []
  {
    v.(free := v.free[1..], mem := v.mem[v.free[0] := junk])
  }

  /** A page that serves nothing has no influence on the logical memory. */
  lemma SpareContent(v: Vm, w: Vm, pa: nat, page: Page)
    requires w.pt == v.pt && w.slots == v.slots && w.mem == v.mem[pa := page]
    requires forall k :: k in v.pt ==> v.pt[k] != Mapped(pa)
    ensures Logical(w) == Logical(v)
  {
  }

  lemma PopKeeps(v: Vm, junk: Page)
    requires Inv(v) && v.free != []
    ensures Inv(Popped(v, junk)) && Logical(Popped(v, junk)) == Logical(v)
    ensures Spare(Popped(v, junk), v.free[0])
  {
    var w := Popped(v, junk);
    assert v.free[0] in v.free;
    assert forall x :: x in w.free ==> x in v.free;
    SameTracking(v, w);
    assert PhysOk(w);
    SpareContent(v, w, v.free[0], junk);
    FreeUntabled(v, v.free[0]);
    TablesKept(v, w);
  }

  /** `kfree` of a page that serves nothing: `memset` to 1 and push. */
  lemma PushKeeps(v: Vm, pa: nat)
    requires Inv(v) && Spare(v, pa)
    ensures Inv(v.(free := [pa] + v.free, mem := v.mem[pa := Fill(1)]))
    ensures Logical(v.(free := [pa] + v.free, mem := v.mem[pa := Fill(1)])) == Logical(v)
  {
    var w := v.(free := [pa] + v.free, mem := v.mem[pa := Fill(1)]);
    SameTracking(v, w);
    assert PhysOk(w);
    SpareContent(v, w, pa, Fill(1));
    TablesKept(v, w);
  }

  /** Nothing depends on a spare page's contents. */
  lemma SpareKeeps(v: Vm, pa: nat, page: Page)
    requires Inv(v) && Spare(v, pa)
    ensures Inv(v.(mem := v.mem[pa := page])) && Logical(v.(mem := v.mem[pa := page])) == Logical(v)
    ensures Spare(v.(mem := v.mem[pa := page]), pa)
  {
    var w := v.(mem := v.mem[pa := page]);
    SameTracking(v, w);
    assert PhysOk(w);
    SpareContent(v, w, pa, page);
    TablesKept(v, w);
  }

  lemma TableAdded(v: Vm, t: Table, pa: nat)
    requires TablesOk(v) && Spare(v, pa) && t !in v.tables && Fits(v.tables, t)
    ensures TablesOk(v.(tables := v.tables[t := pa]))
  {
    assert Tabling(0, v);
  }

  lemma TablesStay(v: Vm, t: Table, pa: nat)
    requires forall k :: k in v.pt ==> HasTables(v, k)
    ensures forall k :: k in v.pt ==> HasTables(v.(tables := v.tables[t := pa]), k)
    ensures Logical(v.(tables := v.tables[t := pa])) == Logical(v)
  {
    SameLogical(v, v.(tables := v.tables[t := pa]));
  }

  /** A spare page becomes a page-table page. */
  lemma TableKeeps(v: Vm, t: Table, pa: nat)
    requires Inv(v) && Spare(v, pa) && t !in v.tables && Fits(v.tables, t)
    ensures Inv(v.(tables := v.tables[t := pa])) && Logical(v.(tables := v.tables[t := pa])) == Logical(v)
  {
    var w := v.(tables := v.tables[t := pa]);
    SameTracking(v, w);
    TableAdded(v, t, pa);
    TablesStay(v, t, pa);
    assert FramesOk(w) && SwapOk(w) && PhysOk(w);
  }

  datatype Op =
    | Fault(pid: int, vpn: nat, sz: nat)
    | Evict
    | Eager(pid: int, vpn: nat)
    | Unmap(pid: int, vpn: nat, n: nat)
    | Write(k: Key, page: Page)
    | Reschedule(pid: int, level: nat)
  {
    /** Processes lie below MAXVA. */
    predicate Ok() {
      (Fault? ==> sz <= VPNS) && (Eager? ==> vpn < VPNS)
    }
  }

  datatype Outcome = Done | NotDone | Halted

  /** The specification of a run: pages are just entries of a map. */
  ghost function After(m: map<Key, Page>, op: Op, out: Outcome): map<Key, Page> {
    match op
    case Fault(pid, vpn, _) => if out == Done && Key(pid, vpn) !in m then m[Key(pid, vpn) := Fill(0)] else m
    case Evict => m
    case Eager(pid, vpn) => if out == Done then m[Key(pid, vpn) := Fill(0)] else m
    case Unmap(pid, vpn, n) => m - KeysFrom(pid, vpn, n)
    case Write(k, page) => if out == Done then m[k := page] else m
    case Reschedule(_, _) => m
  }

  ghost function Replay(m: map<Key, Page>, ops: seq<Op>, outs: seq<Outcome>): map<Key, Page>
    requires |ops| == |outs|
  {
    if ops == [] then m
    else After(Replay(m, ops[..|ops| - 1], outs[..|outs| - 1]), ops[|ops| - 1], outs[|outs| - 1])
  }

  ghost predicate Tracing(z: int, at: seq<Vm>) { true }

  /** The steps `outs`, from the states `at`, led from the logical memory `m` to `now`. Looked into only
      where `Tracing` is mentioned. */
  ghost predicate Traced(m: map<Key, Page>, ops: seq<Op>, outs: seq<Outcome>, at: seq<Vm>, now: map<Key, Page>) {
    forall z :: Tracing(z, at) ==>
      && |at| == |outs| <= |ops|
      && (forall k :: 0 <= k < |outs| ==> Sound(at[k]) && Answered(at[k], ops[k], outs[k]))
      && (forall k :: 0 <= k < |outs| ==> Logical(at[k]) == Replay(m, ops[..k], outs[..k]))
      && now == Replay(m, ops[..|outs|], outs)
  }

  lemma TracedMeans(m: map<Key, Page>, ops: seq<Op>, outs: seq<Outcome>, at: seq<Vm>, now: map<Key, Page>)
    requires Traced(m, ops, outs, at, now)
    ensures |at| == |outs| <= |ops| && forall k :: 0 <= k < |outs| ==> Sound(at[k]) && Answered(at[k], ops[k], outs[k])
    ensures forall k :: 0 <= k < |outs| ==> Logical(at[k]) == Replay(m, ops[..k], outs[..k])
    ensures now == Replay(m, ops[..|outs|], outs)
  {
    assert Tracing(0, at);
  }

  lemma ReplayMore(m: map<Key, Page>, ops: seq<Op>, outs: seq<Outcome>, out: Outcome)
    requires |outs| < |ops|
    ensures Replay(m, ops[..|outs| + 1], outs + [out]) == After(Replay(m, ops[..|outs|], outs), ops[|outs|], out)
  {
    var n := |outs|;
    assert ops[..n + 1][..n] == ops[..n] && (outs + [out])[..n] == outs;
  }

  lemma TracedMore(m: map<Key, Page>, ops: seq<Op>, outs: seq<Outcome>, at: seq<Vm>, now: map<Key, Page>, v: Vm,
      out: Outcome)
    requires Traced(m, ops, outs, at, now) && |outs| < |ops|
    requires Sound(v) && Logical(v) == now && Answered(v, ops[|outs|], out)
    ensures Traced(m, ops, outs + [out], at + [v], After(now, ops[|outs|], out))
  {
    TracedMeans(m, ops, outs, at, now);
    ReplayMore(m, ops, outs, out);
    var n, outs', at' := |outs|, outs + [out], at + [v];
    forall k | 0 <= k <= n ensures Sound(at'[k]) && Answered(at'[k], ops[k], outs'[k]) {
      if k < n { assert Answered(at[k], ops[k], outs[k]); }
    }
    forall k | 0 <= k <= n ensures Logical(at'[k]) == Replay(m, ops[..k], outs'[..k]) {
      assert outs'[..k] == outs[..k];
    }
  }

  // -------- When memory cannot be had --------

  /** How many page-table pages a mapping of `k` still needs. */
  function Missing(tables: map<Table, nat>, k: Key): nat {
    (if Level1(k.pid, k.vpn / 262144) in tables then 0 else 1) + (if Level0(k.pid, k.vpn / 512) in tables then 0 else 1)
  }

  ghost predicate TableFull(v: Vm) {
    forall i :: 0 <= i < |v.frames| ==> v.frames[i].used
  }

  /** `kalloc_or_evict` has to evict: the frame table is full, or no page is free. */
  ghost predicate MustEvict(v: Vm) {
    TableFull(v) || v.free == []
  }

  ghost predicate SwapUsedUp(v: Vm) {
    forall i :: 0 <= i < |v.slots| ==> v.slots[i].used
  }

  /** It has to evict, and there is nothing to evict. */
  ghost predicate NoFrameFor(v: Vm) {
    MustEvict(v) && !NonEmpty(v.frames)
  }

  /** The pages that are free after it. */
  ghost function FreeLeft(v: Vm): int {
    if TableFull(v) then |v.free| else if v.free == [] then 0 else |v.free| - 1
  }

  /** `vmfault` refuses: the address is beyond the process, no frame can be had, or a page never
      mapped before needs page-table pages that cannot be had. */
  ghost predicate FaultRefused(v: Vm, pid: int, vpn: nat, sz: nat) {
    vpn >= sz || NoFrameFor(v) || (Key(pid, vpn) !in v.pt && Missing(v.tables, Key(pid, vpn)) > FreeLeft(v))
  }

  /** The kernel panics for want of a swap slot. */
  ghost predicate MustPanic(v: Vm) {
    NonEmpty(v.frames) && SwapUsedUp(v)
  }

  /** Hardware faults on a page that is absent or, for want of a permission, on one that `uvmalloc` mapped:
      pages brought in by faults have all permissions. */
  ghost predicate CanFault(v: Vm, pid: int, vpn: nat) {
    pid in v.levels && (Key(pid, vpn) in v.pt && v.pt[Key(pid, vpn)].Mapped? ==> Key(pid, vpn) in v.eager)
  }

  /** The step ends in a panic: of `clock_evict`, or of `mappages` on a page that is there already. */
  ghost predicate Halts(v: Vm, op: Op) {
    match op
    case Fault(pid, vpn, sz) =>
      && CanFault(v, pid, vpn) && vpn < sz
      && ((MustEvict(v) && MustPanic(v)) || (Key(pid, vpn) in v.eager && !NoFrameFor(v)))
    case Evict => MustPanic(v)
    case _ => false
  }

  /** The step does not happen. */
  ghost predicate Declined(v: Vm, op: Op) {
    match op
    case Fault(pid, vpn, sz) => !CanFault(v, pid, vpn) || FaultRefused(v, pid, vpn, sz)
    case Eager(pid, vpn) =>
      pid !in v.levels || Key(pid, vpn) in v.pt || |v.free| < 1 + Missing(v.tables, Key(pid, vpn))
    case Write(k, _) => k !in v.pt || v.pt[k].Swapped?
    case _ => false
  }

  ghost predicate Asking(z: int, op: Op, out: Outcome) { true }

  /** The answer to `op` in state `v` is the right one. To be opened by mentioning `Asking`. */
  ghost predicate Answered(v: Vm, op: Op, out: Outcome) {
    forall z :: Asking(z, op, out) ==>
      && (out == Halted <==> Halts(v, op))
      && (out == NotDone <==> Declined(v, op) && !Halts(v, op))
  }

  datatype FaultResult = Handled | Refused | Panic | Remap

  datatype SwapResult = NoData | Data(data: Page)

  datatype EvictResult = Freed(pa: nat) | NoFrame | SwapFull

  datatype AllocResult = Got(pa: nat) | OutOfMemory | Panicked

  class Pager {
    const ft: FrameTable
    const swap: array<SwapSlot>
    var freelist: seq<nat>
    var mem: map<nat, Page>
    var pt: map<Key, Pte>
    var tables: map<Table, nat>
    /** The live processes and their MLFQ levels. */
    var levels: map<int, nat>
    var eager: set<Key>

    ghost function State(): Vm
      reads this, ft.table, swap
    {
      Vm(ft.table[..], swap[..], freelist, mem, pt, tables, levels, eager)
    }

    ghost predicate Valid()
      reads this, ft, ft.table, swap
    {
      ft.Valid() && Sound(State())
    }

    constructor (ft: FrameTable, slots: nat, pages: map<nat, Page>, free: seq<nat>)
      requires slots <= SLOTS && forall p :: p in pages ==> GoodPage(p)
      requires ft.Valid() && (forall i :: 0 <= i < ft.table.Length ==> !ft.table[i].used)
      requires Distinct(free) && forall i :: 0 <= i < |free| ==> free[i] in pages
      ensures Valid() && Logical(State()) == map[] && fresh(swap) && this.ft == ft
      ensures forall p :: p in Spares(State()) <==> p in pages && p !in free
      ensures forall i :: 0 <= i < swap.Length ==> swap[i] == SwapSlot(false, -1, 0, [])
    {
      this.ft := ft;
      swap := new SwapSlot[slots](_ => SwapSlot(false, -1, 0, []));
      freelist, mem, pt, tables, levels, eager := free, pages, map[], map[], map[], {};
    }

    /** `swap_out`: first fit; -1 when every slot is taken. */
    method SwapOut(page: Page, pid: int, va: nat) returns (slot: int)
      modifies swap
      ensures slot == -1 <==> forall i :: 0 <= i < swap.Length ==> old(swap[i]).used
      ensures slot == -1 ==> swap[..] == old(swap[..])
      ensures slot != -1 ==>
                && 0 <= slot < swap.Length && !old(swap[slot]).used
                && (forall i :: 0 <= i < slot ==> old(swap[i]).used)
                && swap[..] == old(swap[..])[slot := SwapSlot(true, pid, va, page)]
    {
      slot := 0;
      while slot < swap.Length
        invariant 0 <= slot <= swap.Length && swap[..] == old(swap[..])
        invariant forall i :: 0 <= i < slot ==> swap[i].used
      {
        if !swap[slot].used {
          swap[slot] := SwapSlot(true, pid, va, page);
          return;
        }
        slot := slot + 1;
      }
      slot := -1;
    }

    /** `swap_free` */
    method SwapFree(slot: int)
      modifies swap
      ensures swap[..] == if 0 <= slot < swap.Length then FreeSlot(old(swap[..]), slot) else old(swap[..])
      ensures forall i :: 0 <= i < swap.Length ==>
                swap[i] == if i == slot then SwapSlot(false, -1, 0, old(swap[i]).data) else old(swap[i])
    {
      if slot < 0 || slot >= swap.Length { return; }
      swap[slot] := SwapSlot(false, -1, 0, swap[slot].data);
    }

    method Kalloc() returns (pa: int)
      modifies `freelist, `mem
      ensures old(freelist) == [] ==> pa == -1 && freelist == [] && mem == old(mem)
      ensures old(freelist) != [] ==>
                pa == old(freelist)[0] && freelist == old(freelist)[1..] && mem == old(mem)[pa := Fill(5)]
    {
      if freelist == [] { return -1; }
      pa := freelist[0];
      freelist, mem := freelist[1..], mem[freelist[0] := Fill(5)];
    }

    method Kfree(pa: nat)
      modifies `freelist, `mem
      ensures freelist == [pa] + old(freelist) && mem == old(mem)[pa := Fill(1)]
    {
      freelist, mem := [pa] + freelist, mem[pa := Fill(1)];
    }

    /** `clock_evict`: one page goes to swap and its frame to the free list, and
        no page's contents change. `SwapFull` is the panic. */
    method ClockEvict() returns (r: EvictResult)
      requires Valid()
      modifies this, ft, ft.table, swap
      ensures r.NoFrame? <==> !NonEmpty(old(ft.table[..]))
      ensures r.SwapFull? <==> NonEmpty(old(ft.table[..])) && forall i :: 0 <= i < swap.Length ==> old(swap[i]).used
      ensures r.NoFrame? ==> Valid() && State() == old(State())
      ensures r.SwapFull? ==> swap[..] == old(swap[..])
      ensures r.Freed? ==>
                && Valid() && Invisible(old(State()), State()) && HasRoom(State())
                && freelist == [r.pa] + old(freelist)
                && exists v: nat ::
                     Chosen(old(ft.table[..]), old(ft.hand), levels, v) && old(ft.table[..])[v].pa == r.pa
      ensures r.Freed? ==> EvictsChosen(old(State()), State(), old(ft.hand))
      ensures !r.SwapFull? ==> Spares(State()) == old(Spares(State()))
    {
      ghost var v := State();
      var i, f := TakeVictim();
      if i == -1 { return NoFrame; }
      EvictSummary(v, i);
      var slot := SwapOut(mem[f.pa], f.pid, f.va);
      if slot < 0 { return SwapFull; }
      if f.pid in levels {
        var k := KeyOf(f);
        if k in pt && pt[k].Mapped? {
          pt := pt[k := Swapped(slot)];
        }
      }
      Kfree(f.pa);
      assert State() == Evicted(v.(frames := ClearRefs(v.frames)), i, slot);
      assert SwapsOut(v, State(), i, slot);
      r := Freed(f.pa);
    }

    /** `kalloc_or_evict`: a page that serves nothing, and room in the frame table for it. */
    method KallocOrEvict() returns (r: AllocResult)
      requires Valid()
      modifies this, ft, ft.table, swap
      ensures r.Panicked? <==> MustEvict(old(State())) && NonEmpty(old(ft.table[..])) && SwapUsedUp(old(State()))
      ensures r.Panicked? ==> swap[..] == old(swap[..])
      ensures !r.Panicked? ==> Valid() && Invisible(old(State()), State())
      ensures r.OutOfMemory? <==> NoFrameFor(old(State()))
      ensures r.OutOfMemory? ==> Spares(State()) == old(Spares(State()))
      ensures r.Got? ==> Spares(State()) == old(Spares(State())) + {r.pa} && r.pa !in old(Spares(State()))
      ensures r.Got? ==> Spare(State(), r.pa) && HasRoom(State()) && |freelist| == FreeLeft(old(State()))
    {
      var used := ft.Used();
      CountFull(ft.table[..]);
      if used >= ft.table.Length {
        var e := ClockEvict();
        match e {
          case NoFrame => return OutOfMemory;
          case SwapFull => return Panicked;
          case Freed(_) =>
        }
      }
      assert HasRoom(State());
      var m := Pop();
      if m != -1 { return Got(m); }
      var e := ClockEvict();
      match e {
        case NoFrame => return OutOfMemory;
        case SwapFull => return Panicked;
        case Freed(_) =>
          m := Pop();
          return Got(m);
      }
    }

    /** `kalloc` seen by the processes. */
    method Pop() returns (pa: int)
      requires Valid()
      modifies `freelist, `mem
      ensures Valid() && Invisible(old(State()), State()) && (pa == -1 <==> old(freelist) == [])
      ensures pa == -1 ==> State() == old(State())
      ensures pa != -1 ==> 0 <= pa && Spare(State(), pa) && freelist == old(freelist)[1..]
      ensures pa != -1 ==> Spares(State()) == old(Spares(State())) + {pa} && pa !in old(Spares(State()))
    {
      ghost var v := State();
      pa := Kalloc();
      if pa != -1 {
        PopSummary(v);
        assert State() == Popped(v, Fill(5));
      }
    }

    /** `walk(pagetable, va, 1)` for the page-table pages above `k`; false when one cannot be allocated. */
    method WalkAlloc(k: Key) returns (ok: bool)
      requires Valid() && k.vpn < VPNS
      modifies `freelist, `mem, `tables
      ensures Valid() && Logical(State()) == old(Logical(State())) && Spares(State()) == old(Spares(State()))
      ensures forall pa :: old(Spare(State(), pa)) ==> Spare(State(), pa) && mem[pa] == old(mem)[pa]
      ensures ok ==> HasTables(State(), k)
      ensures ok <==> Missing(old(tables), k) <= |old(freelist)|
      ensures old(HasTables(State(), k)) ==> ok && State() == old(State())
    {
      assert k.vpn / 262144 < 256 && k.vpn / 512 / 512 == k.vpn / 262144;
      if Level1(k.pid, k.vpn / 262144) !in tables {
        ok := NewTable(Level1(k.pid, k.vpn / 262144));
        if !ok { return; }
      }
      if Level0(k.pid, k.vpn / 512) !in tables {
        ok := NewTable(Level0(k.pid, k.vpn / 512));
        if !ok { return; }
      }
      ok := true;
    }

    method NewTable(t: Table) returns (ok: bool)
      requires Valid() && t !in tables && Fits(tables, t)
      modifies `freelist, `mem, `tables
      ensures Valid() && Logical(State()) == old(Logical(State())) && Spares(State()) == old(Spares(State()))
      ensures forall pa :: old(Spare(State(), pa)) ==> Spare(State(), pa) && mem[pa] == old(mem)[pa]
      ensures ok <==> old(freelist) != []
      ensures ok ==> freelist == old(freelist)[1..]
      ensures tables == if ok then old(tables)[t := old(freelist)[0]] else old(tables)
    {
      ghost var v := State();
      var m := Kalloc();
      ok := m != -1;
      if ok {
        mem := mem[m := Fill(0)];
        assert mem == v.mem[v.free[0] := Fill(0)];
        tables := tables[t := m];
        TableSummary(v, t);
        assert State() == Popped(v, Fill(0)).(tables := v.tables[t := v.free[0]]);
      }
    }

    /** `vmfault`, in a process of `sz` pages. Bringing a page back from swap is invisible; a page never
        touched before appears as zeroes. A page that is there already is a panic of `mappages`. */
    method VmFault(pid: int, vpn: nat, sz: nat) returns (r: FaultResult)
      requires Valid() && CanFault(State(), pid, vpn) && sz <= VPNS
      modifies this, ft, ft.table, swap
      ensures r == Refused ==> Valid() && levels == old(levels) && Logical(State()) == old(Logical(State()))
      ensures r == Handled ==>
                && Valid() && levels == old(levels) && vpn < sz && Key(pid, vpn) in pt && pt[Key(pid, vpn)].Mapped?
                && Logical(State()) == if Key(pid, vpn) in old(pt) then old(Logical(State()))
                                       else old(Logical(State()))[Key(pid, vpn) := Fill(0)]
      ensures r == Handled ==>
                eager == old(eager) && Registered(ft.table[..], Key(pid, vpn), pt[Key(pid, vpn)].pa)
      ensures r == Handled || r == Refused ==> Spares(State()) == old(Spares(State()))
      ensures r == Handled && Key(pid, vpn) !in old(pt) ==>
                && Key(pid, vpn) in Logical(State()) && |Logical(State())[Key(pid, vpn)]| == 4096
                && forall i :: 0 <= i < 4096 ==> Logical(State())[Key(pid, vpn)][i] == 0
      ensures r == Panic <==> vpn < sz && MustEvict(old(State())) && MustPanic(old(State()))
      ensures r == Panic ==> swap[..] == old(swap[..])
      ensures r == Remap <==> vpn < sz && Key(pid, vpn) in old(eager) && !NoFrameFor(old(State())) && r != Panic
      ensures r == Refused <==> FaultRefused(old(State()), pid, vpn, sz) && r != Panic
    {
      var k := Key(pid, vpn);
      if vpn >= sz { return Refused; }
      EagerMapped(State(), k);
      var swappedOut := k in pt && pt[k].Swapped?;
      var a := KallocOrEvict();
      match a {
        case OutOfMemory => return Refused;
        case Panicked => return Panic;
        case Got(pa) =>
          if swappedOut {
            SwapInPage(k, pa);
            r := Handled;
          } else if k in pt {
            r := Remap;
          } else {
            r := ZeroPage(k, pa, true);
          }
      }
    }

    /** Case 1 of `vmfault`, with the frame at hand: the page comes back unchanged.
        Neither `swap_in` nor `mappages` can fail here. */
    method SwapInPage(k: Key, pa: nat)
      requires Valid() && k.pid in levels && k in pt && pt[k].Swapped? && Spare(State(), pa) && HasRoom(State())
      modifies this, ft.table, swap
      ensures Valid() && levels == old(levels) && pt == old(pt)[k := Mapped(pa)]
      ensures Logical(State()) == old(Logical(State())) && Spares(State()) == old(Spares(State())) - {pa}
      ensures eager == old(eager) && Registered(ft.table[..], k, pa)
    {
      ghost var v := State();
      LoadSummary(v, k, pa, Content(v, k));
      var slot := pt[k].slot;
      var page := SwapIn(slot);
      mem := mem[pa := page.data];
      SwapFree(slot);
      pt := pt[k := Mapped(pa)];
      var at := ft.Add(pa, k.pid, k.vpn);
      assert State() == Loaded(v, k, pa, Content(v, k), at);
      assert Logical(v)[k := Content(v, k)] == Logical(v);
      assert ft.table[..][at] == Frame(true, k.pid, k.vpn, pa, true);
    }

    /** `swap_in` */
    method SwapIn(slot: int) returns (r: SwapResult)
      ensures r.NoData? <==> slot < 0 || slot >= swap.Length || !swap[slot].used
      ensures r.Data? ==> r.data == swap[slot].data
    {
      if slot < 0 || slot >= swap.Length { return NoData; }
      if !swap[slot].used { return NoData; }
      return Data(swap[slot].data);
    }

    /** Case 2 of `vmfault`: a zeroed page, unless a page-table page is missing and
        cannot be had. `uvmalloc` does the same but does not register the frame. */
    method ZeroPage(k: Key, pa: nat, register: bool) returns (r: FaultResult)
      requires Valid() && k.pid in levels && k !in pt && k.vpn < VPNS && Spare(State(), pa)
      requires (register ==> HasRoom(State()))
      modifies this, ft.table
      ensures r == Refused || r == Handled
      ensures Valid() && levels == old(levels)
      ensures r == Refused <==> Missing(old(tables), k) > |old(freelist)|
      ensures r == Refused ==> pt == old(pt) && Logical(State()) == old(Logical(State()))
      ensures r == Handled ==> pt == old(pt)[k := Mapped(pa)] && Logical(State()) == old(Logical(State()))[k := Fill(0)]
      ensures Spares(State()) == old(Spares(State())) - {pa}
      ensures eager == if register || r == Refused then old(eager) else old(eager) + {k}
      ensures r == Handled && register ==> Registered(ft.table[..], k, pa)
    {
      ghost var v := State();
      SpareSummary(v, pa, Fill(0));
      mem := mem[pa := Fill(0)];
      assert State() == v.(mem := v.mem[pa := Fill(0)]);
      var ok := WalkAlloc(k);
      if !ok {
        SpareSummary(State(), pa, Fill(1));
        Kfree(pa);
        return Refused;
      }
      EnterPage(k, pa, register);
      r := Handled;
    }

    /** `mappages` of a zeroed page with its page-table pages in place, and `frametable_add`. */
    method EnterPage(k: Key, pa: nat, register: bool)
      requires Valid() && k.pid in levels && k !in pt && HasTables(State(), k) && Spare(State(), pa)
      requires mem[pa] == Fill(0)
      requires register ==> HasRoom(State())
      modifies `pt, `eager, ft.table
      ensures Valid() && pt == old(pt)[k := Mapped(pa)] && Logical(State()) == old(Logical(State()))[k := Fill(0)]
      ensures Spares(State()) == old(Spares(State())) - {pa}
      ensures eager == if register then old(eager) else old(eager) + {k}
      ensures register ==> Registered(ft.table[..], k, pa)
    {
      ghost var w := State();
      LoadSummary(w, k, pa, Fill(0));
      pt := pt[k := Mapped(pa)];
      if register {
        var at := ft.Add(pa, k.pid, k.vpn);
        assert State() == Loaded(w, k, pa, Fill(0), at);
        assert ft.table[..][at] == Frame(true, k.pid, k.vpn, pa, true);
      } else {
        eager := eager + {k};
        assert State() == Untracked(w, k, pa, Fill(0));
      }
    }

    /** One round of `uvmalloc`: an eagerly allocated page, which the clock never sees. */
    method AllocEager(pid: int, vpn: nat) returns (r: FaultResult)
      requires Valid() && pid in levels && Key(pid, vpn) !in pt && vpn < VPNS
      modifies this, ft.table
      ensures r == Refused || r == Handled
      ensures Valid() && levels == old(levels)
      ensures r == Refused <==> |old(freelist)| < 1 + Missing(old(tables), Key(pid, vpn))
      ensures Logical(State()) ==
              if r == Handled then old(Logical(State()))[Key(pid, vpn) := Fill(0)] else old(Logical(State()))
      ensures Spares(State()) == old(Spares(State()))
      ensures eager == if r == Handled then old(eager) + {Key(pid, vpn)} else old(eager)
    {
      var m := Pop();
      if m == -1 { return Refused; }
      r := ZeroPage(Key(pid, vpn), m, false);
    }

    /** `uvmunmap`: the pages are gone, every other page is untouched. Without `do_free` the frame table
        does not hear of it, so frames and pages stay matched if and only if no page of the range is in it:
        the callers unmap only pages that never are. */
    method UvmUnmap(pid: int, vpn: nat, npages: nat, doFree: bool)
      requires Valid()
      modifies this, ft.table, swap
      ensures levels == old(levels) && (Valid() <==> doFree || NoneTracked(old(State()), KeysFrom(pid, vpn, npages)))
      ensures Valid() ==> Logical(State()) == old(Logical(State())) - KeysFrom(pid, vpn, npages)
      ensures doFree ==> Spares(State()) == old(Spares(State()))
    {
      ghost var v := State();
      var i := 0;
      while i < npages
        invariant 0 <= i <= npages && levels == old(levels) && ft.Valid() && (doFree ==> Valid())
        invariant !doFree ==> Unlinked(v, State(), KeysFrom(pid, vpn, i))
        invariant doFree ==> Spares(State()) == Spares(v)
        invariant doFree || NoneTracked(v, KeysFrom(pid, vpn, i)) ==>
                    Valid() && Logical(State()) == Logical(v) - KeysFrom(pid, vpn, i)
      {
        UnmapRound(Key(pid, vpn + i), doFree, v, KeysFrom(pid, vpn, i));
        i := i + 1;
      }
      if !doFree { StillTracked(v, State(), KeysFrom(pid, vpn, npages)); }
    }

    /** One round of `uvmunmap`, when the pages `ks` are gone. */
    method UnmapRound(k: Key, doFree: bool, ghost v: Vm, ghost ks: set<Key>)
      requires ft.Valid() && (doFree ==> Valid()) && (!doFree ==> Unlinked(v, State(), ks))
      requires doFree || NoneTracked(v, ks) ==> Valid() && Logical(State()) == Logical(v) - ks
      modifies this, ft.table, swap
      ensures ft.Valid() && levels == old(levels) && (doFree ==> Valid())
      ensures (!doFree ==> Unlinked(v, State(), ks + {k})) && (doFree ==> Spares(State()) == old(Spares(State())))
      ensures doFree || NoneTracked(v, ks + {k}) ==> Valid() && Logical(State()) == Logical(v) - (ks + {k})
    {
      ghost var w := State();
      if k in pt { UnmapPage(k, doFree); }
      if !doFree { UnlinkedMore(v, w, State(), ks, k); }
    }

    /** One round of `uvmunmap` on a page that exists. */
    method UnmapPage(k: Key, doFree: bool)
      requires ft.Valid() && k in pt && (doFree ==> Valid())
      modifies this, ft.table, swap
      ensures ft.Valid() && levels == old(levels) && (doFree ==> Valid())
      ensures !doFree ==> State() == Unlink(old(State()), k)
      ensures doFree ==> Spares(State()) == old(Spares(State()))
      ensures old(Valid()) && (doFree || NoneTracked(old(State()), {k})) ==>
                Valid() && Logical(State()) == old(Logical(State())) - {k}
    {
      ghost var v := State();
      if Sound(v) { DropSummary(v, k); }
      match pt[k] {
        case Swapped(slot) =>
          SwapFree(slot);
          pt := pt - {k};
          assert Sound(v) ==> State() == Dropped(v, k, -1);
        case Mapped(pa) =>
          if doFree {
            var at := ft.Remove(pa);
            Kfree(pa);
            pt, eager := pt - {k}, eager - {k};
            assert State() == Dropped(v, k, at);
          } else {
            if Sound(v) { UnlinkSummary(v, k); }
            pt, eager := pt - {k}, eager - {k};
          }
      }
    }

    /** A user store: the process replaces the contents of one of its resident pages. */
    method Store(k: Key, page: Page)
      requires Valid() && k in pt && pt[k].Mapped?
      modifies `mem
      ensures Valid() && Logical(State()) == old(Logical(State()))[k := page] && Spares(State()) == old(Spares(State()))
    {
      StoreSummary(State(), k, page);
      mem := mem[pt[k].pa := page];
    }

    /** The scheduler moves a process to another level, or a process appears. */
    method SetLevel(pid: int, level: nat)
      requires Valid()
      modifies `levels
      ensures Valid() && levels == old(levels)[pid := level] && Logical(State()) == old(Logical(State()))
      ensures Spares(State()) == old(Spares(State()))
    {
      LevelKeeps(State(), pid, level);
      levels := levels[pid := level];
    }

    /** One step of a run. Accesses that the hardware would turn into a fault
        first, and faults it would not take, are not steps. */
    method Step(op: Op) returns (out: Outcome)
      requires Valid() && op.Ok()
      modifies this, ft, ft.table, swap
      ensures out != Halted ==> Valid() && Logical(State()) == After(old(Logical(State())), op, out)
      ensures out != Halted ==> Spares(State()) == old(Spares(State()))
      ensures Answered(old(State()), op, out)
    {
      out := Done;
      match op {
        case Fault(pid, vpn, sz) =>
          var k := Key(pid, vpn);
          if pid !in levels || (k in pt && pt[k].Mapped? && k !in eager) { return NotDone; }
          var r := VmFault(pid, vpn, sz);
          out := match r case Handled => Done case Refused => NotDone case Panic => Halted case Remap => Halted;
        case Evict =>
          var r := ClockEvict();
          out := if r.SwapFull? then Halted else Done;
        case Eager(pid, vpn) =>
          if pid !in levels || Key(pid, vpn) in pt { return NotDone; }
          var r := AllocEager(pid, vpn);
          out := if r == Handled then Done else NotDone;
        case Unmap(pid, vpn, n) =>
          UvmUnmap(pid, vpn, n, true);
        case Write(k, page) =>
          if k !in pt || pt[k].Swapped? { return NotDone; }
          Store(k, page);
        case Reschedule(pid, level) =>
          SetLevel(pid, level);
      }
    }

    /** Paging transparency over whole runs: after any sequence of faults, evictions,
        eager allocations, unmappings, stores and level changes, the logical memory is
        what the same sequence does to a plain map of pages, where evictions and
        swap-ins do nothing at all. Each answer is the one that the state at that moment (in `at`)
        calls for: nothing is refused without cause, and only a full swap area ends a run early. */
    method Run(ops: seq<Op>) returns (outs: seq<Outcome>, ghost at: seq<Vm>)
      requires Valid() && forall op :: op in ops ==> op.Ok()
      modifies this, ft, ft.table, swap
      ensures |at| == |outs| <= |ops|
      ensures forall k :: 0 <= k < |outs| ==> Sound(at[k]) && Answered(at[k], ops[k], outs[k])
      ensures Halted !in outs ==>
                |outs| == |ops| && Valid() && Logical(State()) == Replay(old(Logical(State())), ops, outs)
      ensures forall k :: 0 <= k < |outs| ==> Logical(at[k]) == Replay(old(Logical(State())), ops[..k], outs[..k])
      ensures Halted !in outs ==> Spares(State()) == old(Spares(State()))
      ensures |outs| < |ops| ==> outs != [] && outs[|outs| - 1] == Halted
    {
      ghost var m, now := Logical(State()), Logical(State());
      outs, at, now := RunOn(ops, m);
      TracedMeans(m, ops, outs, at, now);
      assert ops[..|ops|] == ops;
    }

    method RunOn(ops: seq<Op>, ghost m: map<Key, Page>)
      returns (outs: seq<Outcome>, ghost at: seq<Vm>, ghost now: map<Key, Page>)
      requires Valid() && m == Logical(State()) && forall op :: op in ops ==> op.Ok()
      modifies this, ft, ft.table, swap
      ensures Traced(m, ops, outs, at, now)
      ensures if Halted in outs then outs[|outs| - 1] == Halted
              else |outs| == |ops| && Valid() && Logical(State()) == now && Spares(State()) == old(Spares(State()))
    {
      now, outs, at := m, [], [];
      while |outs| < |ops|
        invariant |outs| <= |ops| && Traced(m, ops, outs, at, now)
        invariant if Halted in outs then outs[|outs| - 1] == Halted
                  else Valid() && Logical(State()) == now && Spares(State()) == old(Spares(State()))
        decreases |ops| - |outs|
      {
        if outs != [] && outs[|outs| - 1] == Halted { break; }
        ghost var v := State();
        assert ops[|outs|] in ops;
        var out := Step(ops[|outs|]);
        TracedMore(m, ops, outs, at, now, v, out);
        now := After(now, ops[|outs|], out);
        outs, at := outs + [out], at + [v];
      }
    }

    /** The part of `clock_evict` under the frame-table lock. */
    method TakeVictim() returns (i: int, f: Frame)
      requires ft.Valid()
      modifies ft, ft.table
      ensures ft.Valid()
      ensures i == -1 ==> ft.table[..] == old(ft.table[..]) && ft.hand < ft.table.Length && !NonEmpty(ft.table[..])
      ensures i != -1 ==>
                && 0 <= i < ft.table.Length && old(ft.table[i]).used
                && Chosen(old(ft.table[..]), old(ft.hand), levels, i)
                && f == ClearRefs(old(ft.table[..]))[i]
                && ft.table[..] == ClearRefs(old(ft.table[..]))[i := UNUSED]
    {
      ghost var t := ft.table[..];
      i := ft.Scan(levels);
      f := UNUSED;
      if i != -1 {
        ChosenMeans(t, old(ft.hand), levels, i);
        f := ft.table[i];
        ft.table[i] := UNUSED;
      }
    }
  }

  /** Everything a caller needs to know about the eviction of frame `i`, for any free slot. */
  lemma EvictSummary(v: Vm, i: nat)
    requires Sound(v) && i < |v.frames| && v.frames[i].used
    ensures var c := v.(frames := ClearRefs(v.frames));
            && KeyOf(v.frames[i]) in v.pt && v.pt[KeyOf(v.frames[i])] == Mapped(v.frames[i].pa)
            && KeyOf(ClearRefs(v.frames)[i]) == KeyOf(v.frames[i]) && ClearRefs(v.frames)[i].pa == v.frames[i].pa
            && v.frames[i].pa in v.mem && v.frames[i].pid in v.levels
            && forall s :: 0 <= s < |v.slots| && !v.slots[s].used ==>
                 && Sound(Evicted(c, i, s)) && Logical(Evicted(c, i, s)) == Logical(v)
                 && !Evicted(c, i, s).frames[i].used && Spares(Evicted(c, i, s)) == Spares(v)
  {
    assert Inside(0, v);
    ClearRefsKeeps(v);
    var c := v.(frames := ClearRefs(v.frames));
    forall s | 0 <= s < |v.slots| && !v.slots[s].used
      ensures Inv(Evicted(c, i, s)) && Logical(Evicted(c, i, s)) == Logical(v) && Spares(Evicted(c, i, s)) == Spares(v)
    {
      EvictKeeps(c, i, s);
      EvictSpares(c, i, s);
      SameSpares(v, c);
    }
  }

  lemma LevelKeeps(v: Vm, pid: int, level: nat)
    requires Sound(v)
    ensures var w := v.(levels := v.levels[pid := level]);
            Sound(w) && Logical(w) == Logical(v) && Spares(w) == Spares(v)
  {
    assert Inside(0, v);
    var w := v.(levels := v.levels[pid := level]);
    SameTracking(v, w);
    TablesKept(v, w);
    assert FramesOk(w) && SwapOk(w) && PhysOk(w);
    SameLogical(v, w);
    SameSpares(v, w);
  }

  lemma EagerMapped(v: Vm, k: Key)
    requires Sound(v)
    ensures k in v.eager ==> k in v.pt && v.pt[k].Mapped?
  {
    assert Inside(0, v);
  }

  lemma PopSummary(v: Vm)
    requires Sound(v)
    ensures v.free != [] ==>
              && Sound(Popped(v, Fill(5))) && Invisible(v, Popped(v, Fill(5))) && Spare(Popped(v, Fill(5)), v.free[0])
              && Spares(Popped(v, Fill(5))) == Spares(v) + {v.free[0]}
  {
    assert Inside(0, v);
    if v.free != [] {
      PopKeeps(v, Fill(5));
      PopSpares(v, Fill(5));
    }
  }

  /** The pages `vpn`, ..., `vpn + n - 1` of process `pid`. */
  ghost function KeysFrom(pid: int, vpn: nat, n: nat): set<Key> {
    if n == 0 then {} else KeysFrom(pid, vpn, n - 1) + {Key(pid, vpn + n - 1)}
  }

  lemma DropSummary(v: Vm, k: Key)
    requires Sound(v) && k in v.pt
    ensures v.pt[k].Swapped? ==> v.pt[k].slot < |v.slots|
    ensures forall at :: -1 <= at < |v.frames| && (v.pt[k].Mapped? ==> Removes(v.frames, v.pt[k].pa, at)) ==>
              && Sound(Dropped(v, k, at)) && Logical(Dropped(v, k, at)) == Logical(v) - {k}
              && Spares(Dropped(v, k, at)) == Spares(v)
  {
    assert Inside(0, v);
    forall at | -1 <= at < |v.frames| && (v.pt[k].Mapped? ==> Removes(v.frames, v.pt[k].pa, at))
      ensures Inv(Dropped(v, k, at)) && Logical(Dropped(v, k, at)) == Logical(v) - {k}
      ensures Spares(Dropped(v, k, at)) == Spares(v)
    {
      DropKeeps(v, k, at);
      DropSpares(v, k, at);
    }
  }

  /** No page of `ks` has an entry in the frame table. */
  ghost predicate NoneTracked(v: Vm, ks: set<Key>) {
    forall k :: k in ks && k in v.pt && v.pt[k].Mapped? ==> k in v.eager
  }

  /** `uvmunmap` of one page without `do_free`. */
  ghost function Unlink(v: Vm, k: Key): Vm
    requires k in v.pt
  {
    match v.pt[k]
    case Swapped(s) => v.(slots := if s < |v.slots| then FreeSlot(v.slots, s) else v.slots, pt := v.pt - {k})
    case Mapped(pa) => v.(pt := v.pt - {k}, eager := v.eager - {k})
  }

  /** What that leaves of `v`, whatever it does to swap slots. */
  ghost predicate Unlinked(v: Vm, w: Vm, ks: set<Key>) {
    w.frames == v.frames && w.pt == v.pt - ks && (forall k :: k in v.eager && k !in ks ==> k in w.eager)
  }

  lemma UnlinkedMore(v: Vm, w: Vm, w': Vm, ks: set<Key>, k: Key)
    requires Unlinked(v, w, ks) && w' == if k in w.pt then Unlink(w, k) else w
    ensures Unlinked(v, w', ks + {k})
  {
  }

  lemma UnlinkSummary(v: Vm, k: Key)
    requires Sound(v) && k in v.pt && v.pt[k].Mapped?
    ensures k in v.eager ==> Sound(Unlink(v, k)) && Logical(Unlink(v, k)) == Logical(v) - {k}
  {
    assert Inside(0, v);
    if k in v.eager {
      var w := Unlink(v, k);
      UnlinkFrames(v, k);
      assert SwapOk(w) && PhysOk(w);
      UnlinkContent(v, k);
      TablesKept(v, w);
    }
  }

  lemma UnlinkFrames(v: Vm, k: Key)
    requires FramesOk(v) && TrackOk(v) && k in v.eager
    ensures FramesOk(Unlink(v, k)) && TrackOk(Unlink(v, k))
  {
    var w := Unlink(v, k);
    assert forall m :: Tracked(w, m) <==> Tracked(v, m);
    forall i | 0 <= i < |v.frames| && v.frames[i].used ensures KeyOf(v.frames[i]) in w.pt {
      assert Tracked(v, KeyOf(v.frames[i]));
    }
  }

  lemma UnlinkContent(v: Vm, k: Key)
    requires k in v.pt && v.pt[k].Mapped?
    ensures Logical(Unlink(v, k)) == Logical(v) - {k}
  {
  }

  /** A frame that is still in the table although its page is gone. */
  lemma StillTracked(v: Vm, w: Vm, ks: set<Key>)
    requires Sound(v) && Unlinked(v, w, ks)
    ensures !NoneTracked(v, ks) ==> !Sound(w)
  {
    assert Inside(0, v) && Inside(0, w);
    if !NoneTracked(v, ks) {
      var k :| k in ks && k in v.pt && v.pt[k].Mapped? && k !in v.eager;
      assert Tracked(v, k);
      var i :| 0 <= i < |v.frames| && v.frames[i].used && KeyOf(v.frames[i]) == k;
      assert w.frames[i].used && KeyOf(w.frames[i]) !in w.pt;
    }
  }

  lemma StoreContent(v: Vm, k: Key, page: Page)
    requires PhysOk(v) && k in v.pt && v.pt[k].Mapped?
    ensures var w := v.(mem := v.mem[v.pt[k].pa := page]); PhysOk(w) && Logical(w) == Logical(v)[k := page]
  {
  }

  lemma StoreSummary(v: Vm, k: Key, page: Page)
    requires Sound(v) && k in v.pt && v.pt[k].Mapped?
    ensures var w := v.(mem := v.mem[v.pt[k].pa := page]);
            Sound(w) && Logical(w) == Logical(v)[k := page] && Spares(w) == Spares(v)
  {
    assert Inside(0, v);
    StoreContent(v, k, page);
    SameSpares(v, v.(mem := v.mem[v.pt[k].pa := page]));
    SameTracking(v, v.(mem := v.mem[v.pt[k].pa := page]));
    TablesKept(v, v.(mem := v.mem[v.pt[k].pa := page]));
  }

  lemma TableSummary(v: Vm, t: Table)
    requires Sound(v) && v.free != [] && t !in v.tables && Fits(v.tables, t)
    ensures var w := Popped(v, Fill(0)).(tables := v.tables[t := v.free[0]]);
            && Sound(w) && Logical(w) == Logical(v) && Spares(w) == Spares(v)
            && forall pa :: Spare(v, pa) ==> Spare(w, pa) && w.mem[pa] == v.mem[pa]
  {
    assert Inside(0, v);
    PopKeeps(v, Fill(0));
    PopSpares(v, Fill(0));
    TableSpares(Popped(v, Fill(0)), t, v.free[0]);
    TableKeeps(Popped(v, Fill(0)), t, v.free[0]);
    assert forall x :: x in v.free[1..] ==> x in v.free;
    assert v.free[0] in v.free;
  }

  lemma SpareSummary(v: Vm, pa: nat, page: Page)
    requires Sound(v) && Spare(v, pa)
    ensures var w := v.(mem := v.mem[pa := page]);
            Sound(w) && Logical(w) == Logical(v) && Spare(w, pa) && Spares(w) == Spares(v)
    ensures var w := v.(free := [pa] + v.free, mem := v.mem[pa := Fill(1)]);
            Sound(w) && Logical(w) == Logical(v) && Spares(w) == Spares(v) - {pa}
  {
    assert Inside(0, v);
    SpareKeeps(v, pa, page);
    PushKeeps(v, pa);
    SameSpares(v, v.(mem := v.mem[pa := page]));
  }

  lemma LoadSummary(v: Vm, k: Key, pa: nat, page: Page)
    requires Sound(v) && Spare(v, pa) && k.pid in v.levels
    requires if k in v.pt then v.pt[k].Swapped? else HasTables(v, k)
    ensures k in v.pt ==> v.pt[k].slot < |v.slots| && v.slots[v.pt[k].slot].used && HasTables(v, k)
    ensures k !in v.pt ==>
              var w := Untracked(v, k, pa, page);
              Sound(w) && Logical(w) == Logical(v)[k := page] && Spares(w) == Spares(v) - {pa}
    ensures forall at :: 0 <= at < |v.frames| && !v.frames[at].used ==>
              && Sound(Loaded(v, k, pa, page, at))
              && Logical(Loaded(v, k, pa, page, at)) == Logical(v)[k := page]
              && Spares(Loaded(v, k, pa, page, at)) == Spares(v) - {pa}
  {
    assert Inside(0, v);
    forall at | 0 <= at < |v.frames| && !v.frames[at].used
      ensures Inv(Loaded(v, k, pa, page, at)) && Logical(Loaded(v, k, pa, page, at)) == Logical(v)[k := page]
      ensures Spares(Loaded(v, k, pa, page, at)) == Spares(v) - {pa}
    {
      LoadKeeps(v, k, pa, page, at);
      MapSpares(v, Loaded(v, k, pa, page, at), k, pa);
    }
    if k !in v.pt {
      UntrackedOk(v, k, pa, page);
      UntrackedContent(v, k, pa, page);
      MapSpares(v, Untracked(v, k, pa, page), k, pa);
    }
  }

  /** A page mapped without entering the frame table. */
  ghost function Untracked(v: Vm, k: Key, pa: nat, page: Page): Vm {
    v.(pt := v.pt[k := Mapped(pa)], mem := v.mem[pa := page], eager := v.eager + {k})
  }

  lemma UntrackedOk(v: Vm, k: Key, pa: nat, page: Page)
    requires Inv(v) && Spare(v, pa) && k !in v.pt && HasTables(v, k)
    ensures Inv(Untracked(v, k, pa, page))
  {
    UntrackedTrack(v, k, pa, page);
    UntrackedPhys(v, k, pa, page);
    var w := Untracked(v, k, pa, page);
    UntrackedSwap(v, k, pa, page);
    assert forall m :: m in w.pt ==> HasTables(v, m) && HasTables(w, m);
    TablesKept(v, w);
  }

  lemma UntrackedTrack(v: Vm, k: Key, pa: nat, page: Page)
    requires FramesOk(v) && TrackOk(v) && k !in v.pt
    ensures TrackOk(Untracked(v, k, pa, page))
  {
    assert forall m :: Tracked(Untracked(v, k, pa, page), m) <==> Tracked(v, m);
    assert !Tracked(v, k);
  }

  lemma UntrackedSwap(v: Vm, k: Key, pa: nat, page: Page)
    requires SwapOk(v) && FramesOk(v) && k !in v.pt
    ensures SwapOk(Untracked(v, k, pa, page)) && FramesOk(Untracked(v, k, pa, page))
  {
  }

  lemma UntrackedPhys(v: Vm, k: Key, pa: nat, page: Page)
    requires PhysOk(v) && Spare(v, pa) && k !in v.pt
    ensures PhysOk(Untracked(v, k, pa, page))
  {
  }

  lemma UntrackedContent(v: Vm, k: Key, pa: nat, page: Page)
    requires Spare(v, pa) && k !in v.pt
    ensures Logical(Untracked(v, k, pa, page)) == Logical(v)[k := page]
  {
  }
}
