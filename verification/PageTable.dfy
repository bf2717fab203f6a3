/** Sv39 page tables (kernel/vm.c, kernel/riscv.h): a three-level radix tree of page-table pages in
    physical memory, which denotes a finite map from virtual page numbers to leaf PTEs. */
module PageTables {
  import opened Counting
  import opened Memory
  import opened TableCosts

  const WORD := 0x1_0000_0000_0000_0000

  // -------- Bit arithmetic of kernel/riscv.h --------

  const PTE_V := 1
  const PTE_R := 2
  const PTE_U := 16

  function PgRoundUp(sz: nat): nat { (sz + PGSIZE - 1) / PGSIZE * PGSIZE }

  /** The three 9-bit indices of an address. */
  function Px(level: nat, va: nat): nat
    requires level < 3
  {
    if level == 2 then va / 0x4000_0000 % 512 else if level == 1 then va / 0x20_0000 % 512 else va / PGSIZE % 512
  }

  function Pa2Pte(pa: nat): nat { pa / 4096 * 1024 }

  function Pte2Pa(pte: nat): nat { pte / 1024 * 4096 % WORD }

  function PteFlags(pte: nat): nat { pte % 1024 }

  function PteSwapSlot(pte: nat): nat { pte / 1024 % SLOTS }

  predicate IsValid(pte: nat) { pte % 2 == 1 }

  predicate SwappedOut(pte: nat) { pte / 256 % 2 == 1 }

  /** `x | PTE_V` */
  function WithV(x: nat): (r: nat)
    ensures IsValid(r)
  {
    if x % 2 == 1 then x else x + 1
  }

  /** A PTE gives back the page and the permission bits it was made from. */
  lemma PteRoundTrip(pa: nat, flags: nat)
    requires pa % 4096 == 0 && pa < WORD && flags < 1024
    ensures Pte2Pa(Pa2Pte(pa) + flags) == pa && PteFlags(Pa2Pte(pa) + flags) == flags
    ensures Pa2Pte(pa) == pa / 4
  {
    var q := pa / 4096;
    assert (q * 1024 + flags) / 1024 == q && q * 4096 == pa < WORD;
  }

  /** A swapped-out PTE gives back its slot and flags. */
  lemma SwapRoundTrip(slot: nat, flags: nat)
    requires slot < SLOTS && flags < 1024
    ensures PteSwapSlot(slot * 1024 + flags) == slot && PteFlags(slot * 1024 + flags) == flags
  {
  }

  /** The indices of an address spell its page number. */
  lemma PxOfPage(va: nat)
    requires va < MAXVA
    ensures Px(2, va) == va / PGSIZE / 262144 && Px(1, va) == va / PGSIZE / 512 % 512 && Px(0, va) == va / PGSIZE % 512
    ensures Px(2, va) * 512 + Px(1, va) == va / PGSIZE / 512
    ensures (Px(2, va) * 512 + Px(1, va)) * 512 + Px(0, va) == va / PGSIZE < VPNS
  {
  }

  lemma RoundUpLeast(sz: nat)
    ensures PgRoundUp(sz) % PGSIZE == 0 && sz <= PgRoundUp(sz) < sz + PGSIZE
    ensures forall a: nat :: a % PGSIZE == 0 && sz <= a ==> PgRoundUp(sz) <= a
  {
  }

  // -------- The tree --------

  /** Which part of the tree a page-table page is. */
  datatype Node = Root | Mid(i: nat) | Low(k: nat)

  /** Page-table pages, with the shape they are meant to have: `mid[i]` is the page under root entry
      `i`, `low[k]` the page that holds the leaves of pages 512k up to 512k + 511. */
  datatype Tree = Tree(mem: map<nat, seq<nat>>, root: nat, mid: map<nat, nat>, low: map<nat, nat>, node: map<nat, Node>)

  function Zeros(): seq<nat> { seq(512, _ => 0) }

  /** The entry that links to what `t` has at `k`. */
  function Link(t: map<nat, nat>, k: nat): nat {
    if k in t then WithV(Pa2Pte(t[k])) else 0
  }

  predicate PageOk(s: Tree, p: nat) {
    && p in s.mem && |s.mem[p]| == 512 && GoodPage(p) && p in s.node
    && match s.node[p]
       case Root => p == s.root
       case Mid(i) => i in s.mid && s.mid[i] == p
       case Low(k) => k in s.low && s.low[k] == p
  }

  predicate RootOk(s: Tree, i: nat)
    requires s.root in s.mem && |s.mem[s.root]| == 512
  {
    i < 512 ==> s.mem[s.root][i] == Link(s.mid, i)
  }

  predicate MidOk(s: Tree, i: nat) {
    i in s.mid ==>
      && i < 512 && s.mid[i] in s.mem && |s.mem[s.mid[i]]| == 512 && s.mid[i] in s.node && s.node[s.mid[i]] == Mid(i)
  }

  predicate EntryOk(s: Tree, k: nat) {
    && (k / 512 in s.mid && s.mid[k / 512] in s.mem && |s.mem[s.mid[k / 512]]| == 512 ==>
          s.mem[s.mid[k / 512]][k % 512] == Link(s.low, k))
    && (k in s.low ==>
          && k / 512 in s.mid
          && s.low[k] in s.mem && |s.mem[s.low[k]]| == 512 && s.low[k] in s.node && s.node[s.low[k]] == Low(k))
  }

  ghost predicate Inv(s: Tree) {
    && s.root in s.mem && |s.mem[s.root]| == 512 && s.root in s.node && s.node[s.root] == Root
    && s.node.Keys == s.mem.Keys
    && (forall p :: p in s.mem ==> PageOk(s, p))
    && (forall i: nat :: RootOk(s, i))
    && (forall i: nat :: MidOk(s, i))
    && (forall k: nat :: EntryOk(s, k))
  }

  /** The leaf PTE of page `v`; 0 if there is none. */
  function Leaf(s: Tree, v: nat): nat {
    if v / 512 in s.low && s.low[v / 512] in s.mem && |s.mem[s.low[v / 512]]| == 512
    then s.mem[s.low[v / 512]][v % 512] else 0
  }

  /** The finite map that the tree denotes. */
  ghost function Denotes(s: Tree): map<nat, nat> {
    map v: nat | v < VPNS && Leaf(s, v) != 0 :: Leaf(s, v)
  }

  // -------- Changing the tree --------

  function Put(t: seq<nat>, i: nat, pte: nat): seq<nat>
    requires i < |t|
  {
    t[i := pte]
  }

  function AddMid(s: Tree, i: nat, p: nat): Tree
    requires i < 512 && s.root in s.mem && |s.mem[s.root]| == 512
  {
    s.(mem := s.mem[s.root := Put(s.mem[s.root], i, WithV(Pa2Pte(p)))][p := Zeros()],
       mid := s.mid[i := p], node := s.node[p := Mid(i)])
  }

  function AddLow(s: Tree, k: nat, p: nat): Tree
    requires k / 512 in s.mid && s.mid[k / 512] in s.mem && |s.mem[s.mid[k / 512]]| == 512
  {
    var m := s.mid[k / 512];
    s.(mem := s.mem[m := Put(s.mem[m], k % 512, WithV(Pa2Pte(p)))][p := Zeros()],
       low := s.low[k := p], node := s.node[p := Low(k)])
  }

  function SetLeaf(s: Tree, v: nat, pte: nat): Tree
    requires v / 512 in s.low && s.low[v / 512] in s.mem && |s.mem[s.low[v / 512]]| == 512
  {
    var t := s.low[v / 512];
    s.(mem := s.mem[t := Put(s.mem[t], v % 512, pte)])
  }

  /** A new middle page: no translation changes. */
  lemma AddMidKeeps(s: Tree, i: nat, p: nat)
    requires Inv(s) && i < 512 && i !in s.mid && p !in s.mem && GoodPage(p)
    ensures Inv(AddMid(s, i, p)) && forall v: nat :: Leaf(AddMid(s, i, p), v) == Leaf(s, v)
  {
    var t := AddMid(s, i, p);
    forall q | q in t.mem ensures PageOk(t, q) {
      if q != p { assert PageOk(s, q); }
    }
    forall j: nat ensures RootOk(t, j) && MidOk(t, j) {
      assert RootOk(s, j) && MidOk(s, j);
    }
    forall k: nat ensures EntryOk(t, k) {
      assert EntryOk(s, k);
      assert MidOk(s, k / 512);
    }
    forall v: nat ensures Leaf(t, v) == Leaf(s, v) {
      assert EntryOk(s, v / 512);
    }
  }

  /** A new page of leaves: no translation changes. */
  lemma AddLowKeeps(s: Tree, k: nat, p: nat)
    requires Inv(s) && k / 512 in s.mid && k !in s.low && p !in s.mem && GoodPage(p)
    ensures MidOk(s, k / 512) && Inv(AddLow(s, k, p)) && forall v: nat :: Leaf(AddLow(s, k, p), v) == Leaf(s, v)
  {
    assert MidOk(s, k / 512);
    var t := AddLow(s, k, p);
    forall q | q in t.mem ensures PageOk(t, q) {
      if q != p { assert PageOk(s, q); }
    }
    forall j: nat ensures RootOk(t, j) && MidOk(t, j) {
      assert RootOk(s, j) && MidOk(s, j);
    }
    forall j: nat ensures EntryOk(t, j) {
      assert EntryOk(s, j);
      assert MidOk(s, j / 512);
    }
    forall v: nat ensures Leaf(t, v) == Leaf(s, v) {
      assert EntryOk(s, v / 512);
    }
  }

  /** Writing a leaf changes that translation and no other. */
  lemma SetLeafKeeps(s: Tree, v: nat, pte: nat)
    requires Inv(s) && v / 512 in s.low
    ensures EntryOk(s, v / 512) && Inv(SetLeaf(s, v, pte))
    ensures forall w: nat :: Leaf(SetLeaf(s, v, pte), w) == if w == v then pte else Leaf(s, w)
  {
    assert EntryOk(s, v / 512);
    var t := SetLeaf(s, v, pte);
    forall q | q in t.mem ensures PageOk(t, q) {
      assert PageOk(s, q);
    }
    forall j: nat ensures RootOk(t, j) && MidOk(t, j) {
      assert RootOk(s, j) && MidOk(s, j);
    }
    forall j: nat ensures EntryOk(t, j) {
      assert EntryOk(s, j);
      assert MidOk(s, j / 512);
    }
    forall w: nat ensures Leaf(t, w) == if w == v then pte else Leaf(s, w) {
      assert EntryOk(s, w / 512);
    }
  }

  // -------- Maps from page numbers to leaf PTEs --------

  /** The PTE of page `v`, 0 if there is none. */
  function At(m: map<nat, nat>, v: nat): nat {
    if v in m then m[v] else 0
  }

  function Updated(m: map<nat, nat>, v: nat, pte: nat): map<nat, nat> {
    if pte == 0 then m - {v} else m[v := pte]
  }

  /** `PA2PTE(pa) | perm | PTE_V` */
  function PteFor(pa: nat, perm: nat): (pte: nat)
    ensures IsValid(pte)
  {
    WithV(Pa2Pte(pa) + perm)
  }

  /** `m` with the `n` pages from `lo` mapped to the physical pages from `pa`. */
  ghost function WithRange(m: map<nat, nat>, lo: nat, n: nat, pa: nat, perm: nat): map<nat, nat> {
    if n == 0 then m else WithRange(m, lo, n - 1, pa, perm)[lo + n - 1 := PteFor(pa + (n - 1) * PGSIZE, perm)]
  }

  /** `m` without the `n` pages from `lo`. */
  ghost function Without(m: map<nat, nat>, lo: nat, n: nat): map<nat, nat> {
    if n == 0 then m else Without(m, lo, n - 1) - {lo + n - 1}
  }

  lemma {:induction false} WithRangeAt(m: map<nat, nat>, lo: nat, n: nat, pa: nat, perm: nat, v: nat)
    ensures At(WithRange(m, lo, n, pa, perm), v) ==
            if lo <= v < lo + n then PteFor(pa + (v - lo) * PGSIZE, perm) else At(m, v)
  {
    if n > 0 {
      WithRangeAt(m, lo, n - 1, pa, perm, v);
    }
  }

  ghost predicate Ranging(z: int) { true }

  /** `m'` is `m` with that range added, none of which had a valid leaf before. To be opened by
      mentioning `Ranging`. */
  ghost predicate Ranged(m: map<nat, nat>, m': map<nat, nat>, lo: nat, n: nat, pa: nat, perm: nat) {
    forall z :: Ranging(z) ==>
      m' == WithRange(m, lo, n, pa, perm) && forall v :: lo <= v < lo + n ==> !IsValid(At(m, v))
  }

  lemma RangedNext(m: map<nat, nat>, m': map<nat, nat>, lo: nat, n: nat, pa: nat, perm: nat)
    requires Ranged(m, m', lo, n, pa, perm)
    ensures At(m', lo + n) == At(m, lo + n)
  {
    assert Ranging(0);
    WithRangeAt(m, lo, n, pa, perm, lo + n);
  }

  lemma RangedMore(m: map<nat, nat>, m': map<nat, nat>, m'': map<nat, nat>, lo: nat, n: nat, pa: nat, perm: nat)
    requires Ranged(m, m', lo, n, pa, perm) && m'' == m'[lo + n := PteFor(pa + n * PGSIZE, perm)]
    requires !IsValid(At(m, lo + n))
    ensures Ranged(m, m'', lo, n + 1, pa, perm)
  {
  }

  lemma {:induction false} WithoutAt(m: map<nat, nat>, lo: nat, n: nat, v: nat)
    ensures At(Without(m, lo, n), v) == if lo <= v < lo + n then 0 else At(m, v)
  {
    if n > 0 {
      WithoutAt(m, lo, n - 1, v);
    }
  }

  /** The physical page behind a PTE, if it is valid. */
  function PageAt(pte: nat): seq<nat> {
    if IsValid(pte) then [Pte2Pa(pte)] else []
  }

  /** The swap slot behind a PTE, if its page is swapped out. */
  function SlotAt(pte: nat): seq<nat> {
    if !IsValid(pte) && SwappedOut(pte) then [PteSwapSlot(pte)] else []
  }

  /** The physical pages of the `n` pages from `lo`, latest first. */
  ghost function PagesOf(m: map<nat, nat>, lo: nat, n: nat): seq<nat> {
    if n == 0 then [] else PageAt(At(m, lo + n - 1)) + PagesOf(m, lo, n - 1)
  }

  /** Their swap slots, latest first. */
  ghost function SlotsOf(m: map<nat, nat>, lo: nat, n: nat): seq<nat> {
    if n == 0 then [] else SlotAt(At(m, lo + n - 1)) + SlotsOf(m, lo, n - 1)
  }

  /** Without the range, nothing else changes. */
  lemma RemovedMeans(m: map<nat, nat>, lo: nat, n: nat)
    ensures forall v: nat :: v in Without(m, lo, n) <==> v in m && !(lo <= v < lo + n)
    ensures forall v: nat :: v in Without(m, lo, n) ==> Without(m, lo, n)[v] == m[v]
  {
    forall v: nat ensures v in Without(m, lo, n) <==> v in m && !(lo <= v < lo + n) {
      WithoutKeys(m, lo, n, v);
    }
    forall v: nat | v in Without(m, lo, n) ensures Without(m, lo, n)[v] == m[v] {
      WithoutAt(m, lo, n, v);
    }
  }

  /** Page `v` is swapped out, to slot `x`. */
  predicate InSlot(m: map<nat, nat>, v: nat, x: nat) {
    v in m && m[v] % 2 == 0 && m[v] / 0x100 % 2 == 1 && m[v] / 0x400 % 0x4_0000 == x
  }

  /** The slots handed back are those of the swapped-out pages of the range. */
  lemma {:induction false} SlotsMean(m: map<nat, nat>, lo: nat, n: nat)
    ensures forall x :: x in SlotsOf(m, lo, n) <==> exists v :: lo <= v < lo + n && InSlot(m, v, x)
  {
    if n > 0 {
      SlotsMean(m, lo, n - 1);
      SlotMeans(m, lo + n - 1);
      var v := lo + n - 1;
      forall x ensures x in SlotsOf(m, lo, n) <==> exists v :: lo <= v < lo + n && InSlot(m, v, x) {
        assert x in SlotsOf(m, lo, n) <==> x in SlotAt(At(m, v)) || x in SlotsOf(m, lo, n - 1);
      }
    }
  }

  lemma SlotMeans(m: map<nat, nat>, v: nat)
    ensures |SlotAt(At(m, v))| <= 1 && forall x :: x in SlotAt(At(m, v)) <==> InSlot(m, v, x)
  {
  }

  /** Page `v` is mapped to the physical page `p`. */
  predicate OnPage(m: map<nat, nat>, v: nat, p: nat) {
    v in m && m[v] % 2 == 1 && m[v] / 0x400 * 0x1000 % 0x1_0000_0000_0000_0000 == p
  }

  /** The physical pages given back are those of the valid pages of the range. */
  lemma {:induction false} PagesOfMean(m: map<nat, nat>, lo: nat, n: nat)
    ensures forall p :: p in PagesOf(m, lo, n) <==> exists v :: lo <= v < lo + n && OnPage(m, v, p)
  {
    if n > 0 {
      PagesOfMean(m, lo, n - 1);
      PageMeans(m, lo + n - 1);
      var v := lo + n - 1;
      forall p ensures p in PagesOf(m, lo, n) <==> exists v :: lo <= v < lo + n && OnPage(m, v, p) {
        assert p in PagesOf(m, lo, n) <==> p in PageAt(At(m, v)) || p in PagesOf(m, lo, n - 1);
      }
    }
  }

  lemma PageMeans(m: map<nat, nat>, v: nat)
    ensures |PageAt(At(m, v))| <= 1 && forall p :: p in PageAt(At(m, v)) <==> OnPage(m, v, p)
  {
  }

  /** `uvmunmap` does not panic on this PTE. */
  predicate Removable(pte: nat) {
    if IsValid(pte) then PteFlags(pte) != PTE_V else SwappedOut(pte) || pte == 0
  }

  ghost predicate AllRemovable(m: map<nat, nat>, lo: nat, n: nat) {
    forall v :: lo <= v < lo + n ==> Removable(At(m, v))
  }

  lemma AllRemovableMeans(m: map<nat, nat>, lo: nat, n: nat)
    ensures AllRemovable(m, lo, n) <==> forall v: nat :: lo <= v < lo + n && v in m ==>
              if m[v] % 2 == 1 then m[v] % 1024 != 1 else m[v] / 256 % 2 == 1 || m[v] == 0
  {
    if forall v: nat :: lo <= v < lo + n && v in m ==>
         if m[v] % 2 == 1 then m[v] % 1024 != 1 else m[v] / 256 % 2 == 1 || m[v] == 0 {
      forall v | lo <= v < lo + n ensures Removable(At(m, v)) {
        assert v in m ==> At(m, v) == m[v];
      }
    } else {
      var v: nat :| lo <= v < lo + n && v in m &&
        !(if m[v] % 2 == 1 then m[v] % 1024 != 1 else m[v] / 256 % 2 == 1 || m[v] == 0);
      assert !Removable(At(m, v));
    }
  }

  ghost predicate Sparing(z: int) { true }

  /** The physical pages behind valid leaves are used for nothing else, so they can be freed. To be
      opened by mentioning `Sparing`. */
  ghost predicate Freeable(m: map<nat, nat>, lo: nat, n: nat, free: seq<nat>, tables: set<nat>) {
    forall z :: Sparing(z) ==>
    && (forall v: nat :: lo <= v < lo + n && IsValid(At(m, v)) ==> Spare(Pte2Pa(At(m, v)), free, tables))
    && (forall v: nat, w: nat :: lo <= v < w < lo + n && IsValid(At(m, v)) && IsValid(At(m, w)) ==>
          Pte2Pa(At(m, v)) != Pte2Pa(At(m, w)))
  }

  /** A page that is neither free nor a page table. */
  ghost predicate Spare(p: nat, free: seq<nat>, tables: set<nat>) {
    GoodPage(p) && p !in free && p !in tables
  }

  // -------- The operations --------

  ghost predicate Inside(z: int) { true }

  /** The tree is well formed and `m` is what it denotes. To be opened by mentioning `Inside`. */
  ghost predicate Sound(s: Tree, m: map<nat, nat>) {
    forall z :: Inside(z) ==> Inv(s) && Agree(s, m)
  }

  ghost predicate Agree(s: Tree, m: map<nat, nat>) {
    && (forall v: nat :: Leaf(s, v) == At(m, v))
    && (forall v :: v in m ==> v < VPNS && m[v] != 0)
  }

  lemma AgreeDenotes(s: Tree, m: map<nat, nat>)
    requires Agree(s, m)
    ensures m == Denotes(s)
  {
  }

  lemma AgreeSame(s: Tree, t: Tree, m: map<nat, nat>)
    requires Agree(s, m) && forall v: nat :: Leaf(t, v) == Leaf(s, v)
    ensures Agree(t, m)
  {
  }

  lemma GrownMid(s: Tree, m: map<nat, nat>, i: nat, p: nat)
    requires Sound(s, m) && i < 512 && s.root in s.mem && |s.mem[s.root]| == 512
    requires i !in s.mid && p !in s.mem && GoodPage(p)
    ensures Sound(AddMid(s, i, p), m)
  {
    assert Inside(0);
    AddMidKeeps(s, i, p);
    AgreeSame(s, AddMid(s, i, p), m);
  }

  lemma GrownLow(s: Tree, m: map<nat, nat>, k: nat, p: nat)
    requires Sound(s, m) && k / 512 in s.mid && s.mid[k / 512] in s.mem && |s.mem[s.mid[k / 512]]| == 512
    requires k !in s.low && p !in s.mem && GoodPage(p)
    ensures Sound(AddLow(s, k, p), m)
  {
    assert Inside(0);
    AddLowKeeps(s, k, p);
    AgreeSame(s, AddLow(s, k, p), m);
  }

  /** Free pages are distinct and are not page tables. */
  ghost predicate FreeOk(free: seq<nat>, tables: set<nat>) {
    Distinct(free) && forall p :: p in free ==> GoodPage(p) && p !in tables
  }

  ghost predicate Drawing(z: int) { true }

  /** Pages have moved from the free list to the page tables and nowhere else. To be opened by
      mentioning `Drawing`. */
  ghost predicate Drawn(free: seq<nat>, tables: set<nat>, free': seq<nat>, tables': set<nat>) {
    forall z :: Drawing(z) ==>
      Elements(free') + tables' == Elements(free) + tables && Elements(free') <= Elements(free) && tables <= tables'
  }

  lemma DrawnOn(f: seq<nat>, t: set<nat>, f': seq<nat>, t': set<nat>, f'': seq<nat>, t'': set<nat>)
    requires Drawn(f, t, f', t') && Drawn(f', t', f'', t'')
    ensures Drawn(f, t, f'', t'')
  {
  }

  lemma FreePops(free: seq<nat>, tables: set<nat>)
    requires FreeOk(free, tables) && free != []
    ensures FreeOk(free[1..], tables + {free[0]})
    ensures Drawn(free, tables, free[1..], tables + {free[0]})
  {
  }

  lemma FreePushes(free: seq<nat>, tables: set<nat>, p: nat)
    requires FreeOk(free, tables) && Spare(p, free, tables)
    ensures FreeOk([p] + free, tables)
  {
  }

  /** Following a link gives back the page it was made for. */
  lemma LinkMeans(p: nat)
    requires GoodPage(p)
    ensures IsValid(WithV(Pa2Pte(p))) && Pte2Pa(WithV(Pa2Pte(p))) == p
  {
    EvenPte(p);
    assert WithV(Pa2Pte(p)) == Pa2Pte(p) + 1;
    PteRoundTrip(p, 1);
  }

  lemma EvenPte(p: nat)
    ensures Pa2Pte(p) % 2 == 0
  {
    var q := p / 4096 * 512;
    Doubled(q);
  }

  lemma Doubled(q: nat)
    ensures (q + q) % 2 == 0
  {
  }

  datatype MapResult = Mapped | NoMemory | Remap
  datatype GrowResult = Size(sz: nat) | Failed | Remapped
  datatype UnmapResult = Unmapped | NotMapped | NotLeaf

  class AddressSpace {
    const root: nat
    var mem: map<nat, seq<nat>>
    var freelist: seq<nat>
    ghost var mid: map<nat, nat>
    ghost var low: map<nat, nat>
    ghost var node: map<nat, Node>
    ghost var leaves: map<nat, nat>

    ghost function Now(): Tree
      reads this
    {
      Tree(mem, root, mid, low, node)
    }

    ghost predicate Valid()
      reads this
    {
      Sound(Now(), leaves) && FreeOk(freelist, mem.Keys)
    }

    ghost function Stock(): Supply
      reads this
    {
      Supply(mid.Keys, low.Keys, |freelist|)
    }

    /** `uvmcreate`, given a page for the root and the pages that remain free. */
    constructor (page: nat, free: seq<nat>)
      requires FreeOk(free, {page}) && GoodPage(page)
      ensures Valid() && leaves == map[] && freelist == free && mem.Keys == {page} && Stock() == Supply({}, {}, |free|)
    {
      root, mem, freelist := page, map[page := Zeros()], free;
      mid, low, node, leaves := map[], map[], map[page := Root], map[];
    }

    /** The three-level table denotes exactly the finite map `leaves`. */
    lemma Denotation()
      requires Valid()
      ensures leaves == Denotes(Now())
    {
      assert Inside(0);
      AgreeDenotes(Now(), leaves);
    }

    /** Where the walk for page `v` should be when `level` levels are left. */
    ghost predicate Reached(level: nat, v: nat, table: nat)
      reads this
    {
      if level == 2 then table == root
      else if level == 1 then v / 262144 in mid && table == mid[v / 262144]
      else v / 512 in low && table == low[v / 512]
    }

    /** One round of the loop of `walk`; -1 is the null pointer. */
    method Descend(level: nat, va: nat, table: nat, alloc: bool) returns (next: int)
      requires Valid() && va < MAXVA && 1 <= level <= 2 && Reached(level, va / PGSIZE, table)
      modifies `mem, `freelist, `mid, `low, `node
      ensures Valid() && Drawn(old(freelist), old(mem.Keys), freelist, mem.Keys)
      ensures next >= 0 ==> Reached(level - 1, va / PGSIZE, next)
      ensures next < 0 ==> va / PGSIZE !in leaves && Now() == old(Now()) && freelist == old(freelist)
      ensures next < 0 && alloc ==> freelist == []
      ensures !alloc ==> Now() == old(Now()) && freelist == old(freelist)
      ensures alloc ==>
        var there := if level == 2 then va / PGSIZE / 262144 in old(mid) else va / PGSIZE / 512 in old(low);
        && (next >= 0 <==> there || old(freelist) != [])
        && |freelist| == |old(freelist)| - (if next >= 0 && !there then 1 else 0)
      ensures alloc && next >= 0 ==>
        && mid.Keys == old(mid.Keys) + (if level == 2 then {va / PGSIZE / 262144} else {})
        && low.Keys == old(low.Keys) + (if level == 1 then {va / PGSIZE / 512} else {})
    {
      EntryMeans(level, va, table);
      var pte := mem[table][Px(level, va)];
      if IsValid(pte) {
        next := Pte2Pa(pte);
        return;
      }
      if !alloc || freelist == [] { return -1; }
      next := Grow(level, va, table);
    }

    /** The entry a walk reads says whether the next table exists, and where. */
    lemma EntryMeans(level: nat, va: nat, table: nat)
      requires Valid() && va < MAXVA && 1 <= level <= 2 && Reached(level, va / PGSIZE, table)
      ensures table in mem && |mem[table]| == 512 && Px(level, va) < 512
      ensures var pte, v := mem[table][Px(level, va)], va / PGSIZE;
        && (IsValid(pte) <==> if level == 2 then v / 262144 in mid else v / 512 in low)
        && (IsValid(pte) ==> Pte2Pa(pte) == if level == 2 then mid[v / 262144] else low[v / 512])
        && (!IsValid(pte) ==> v / 512 !in low && v !in leaves)
    {
      assert Inside(0);
      PxOfPage(va);
      ghost var s, v := Now(), va / PGSIZE;
      assert RootOk(s, v / 262144) && MidOk(s, v / 262144) && EntryOk(s, v / 512);
      assert Leaf(s, v) == At(leaves, v);
      if level == 2 && v / 262144 in mid {
        assert PageOk(s, mid[v / 262144]);
        LinkMeans(mid[v / 262144]);
      } else if level == 1 && v / 512 in low {
        assert PageOk(s, low[v / 512]);
        LinkMeans(low[v / 512]);
      }
    }

    /** A zeroed page from the free list becomes the missing table. */
    method Grow(level: nat, va: nat, table: nat) returns (p: nat)
      requires Valid() && va < MAXVA && 1 <= level <= 2 && Reached(level, va / PGSIZE, table)
      requires freelist != [] && table in mem && |mem[table]| == 512
      requires if level == 2 then va / PGSIZE / 262144 !in mid else va / PGSIZE / 512 !in low
      modifies `mem, `freelist, `mid, `low, `node
      ensures Valid() && Drawn(old(freelist), old(mem.Keys), freelist, mem.Keys)
      ensures Reached(level - 1, va / PGSIZE, p) && freelist == old(freelist)[1..]
      ensures mid.Keys == old(mid.Keys) + (if level == 2 then {va / PGSIZE / 262144} else {})
      ensures low.Keys == old(low.Keys) + (if level == 1 then {va / PGSIZE / 512} else {})
    {
      PxOfPage(va);
      ghost var s := Now();
      var i := Px(level, va);
      FreePops(freelist, mem.Keys);
      p := freelist[0];
      freelist := freelist[1..];
      mem := mem[table := Put(mem[table], i, WithV(Pa2Pte(p)))][p := Zeros()];
      assert mem.Keys == s.mem.Keys + {p};
      if level == 2 {
        mid, node := mid[i := p], node[p := Mid(i)];
        GrownMid(s, leaves, i, p);
        assert Now() == AddMid(s, i, p);
      } else {
        ghost var k := va / PGSIZE / 512;
        low, node := low[k := p], node[p := Low(k)];
        GrownLow(s, leaves, k, p);
        assert Now() == AddLow(s, k, p);
      }
    }

    /** `walk`: the page and index of the leaf PTE of `va`, or -1. An allocating walk changes no
        translation, whether or not it succeeds. It takes exactly the tables that are missing, and fails
        if and only if there are not that many free pages. */
    method Walk(va: nat, alloc: bool) returns (table: int, i: nat)
      requires Valid() && va < MAXVA
      modifies `mem, `freelist, `mid, `low, `node
      ensures Valid() && Drawn(old(freelist), old(mem.Keys), freelist, mem.Keys)
      ensures table >= 0 ==> Reached(0, va / PGSIZE, table) && i == va / PGSIZE % 512
      ensures table >= 0 ==> table in mem && |mem[table]| == 512 && mem[table][i] == At(leaves, va / PGSIZE)
      ensures table < 0 ==> va / PGSIZE !in leaves
      ensures table < 0 && alloc ==> freelist == []
      ensures !alloc ==> Now() == old(Now()) && freelist == old(freelist)
      ensures alloc ==> (table >= 0 <==> CanPay(false, old(Stock()), va / PGSIZE))
      ensures alloc && table >= 0 ==> Bought(false, old(Stock()), va / PGSIZE, Stock())
    {
      assert Priced(0);
      table, i := root, 0;
      var level: nat := 2;
      while level > 0
        invariant Valid() && 0 <= level <= 2 && table >= 0 && Reached(level, va / PGSIZE, table)
        invariant Drawn(old(freelist), old(mem.Keys), freelist, mem.Keys)
        invariant !alloc ==> Now() == old(Now()) && freelist == old(freelist)
        invariant alloc ==>
          && mid.Keys == old(mid.Keys) + (if level < 2 then {va / PGSIZE / 262144} else {})
          && low.Keys == old(low.Keys) + (if level < 1 then {va / PGSIZE / 512} else {})
          && |freelist| == |old(freelist)| - (if level < 2 && va / PGSIZE / 262144 !in old(mid) then 1 else 0)
                                           - (if level < 1 && va / PGSIZE / 512 !in old(low) then 1 else 0)
      {
        ghost var f, ks := freelist, mem.Keys;
        table := Descend(level, va, table, alloc);
        DrawnOn(old(freelist), old(mem.Keys), f, ks, freelist, mem.Keys);
        if table < 0 { return; }
        level := level - 1;
      }
      PxOfPage(va);
      i := Px(0, va);
      LeafAt(va / PGSIZE, table);
    }

    /** What is stored where a walk ends is the leaf. */
    lemma LeafAt(v: nat, table: nat)
      requires Valid() && Reached(0, v, table)
      ensures table in mem && |mem[table]| == 512 && mem[table][v % 512] == At(leaves, v)
    {
      assert Inside(0);
      assert EntryOk(Now(), v / 512);
      assert Leaf(Now(), v) == At(leaves, v);
    }

    /** Writes the leaf PTE that a walk for `va` found. */
    method SetEntry(va: nat, table: nat, i: nat, pte: nat)
      requires Valid() && va < MAXVA && Reached(0, va / PGSIZE, table) && i == va / PGSIZE % 512
      requires table in mem && |mem[table]| == 512
      modifies `mem, `leaves
      ensures Valid() && mem.Keys == old(mem.Keys) && leaves == Updated(old(leaves), va / PGSIZE, pte)
    {
      assert Inside(0);
      ghost var s, v := Now(), va / PGSIZE;
      SetLeafKeeps(s, v, pte);
      PxOfPage(va);
      mem := mem[table := Put(mem[table], i, pte)];
      leaves := Updated(leaves, v, pte);
      assert Now() == SetLeaf(s, v, pte);
      AgreeSet(s, Now(), old(leaves), v, pte);
    }

    /** One round of the loop of `mappages`. */
    method MapOne(a: nat, pte: nat) returns (r: MapResult)
      requires Valid() && a < MAXVA && pte != 0
      modifies `mem, `freelist, `mid, `low, `node, `leaves
      ensures Valid() && Drawn(old(freelist), old(mem.Keys), freelist, mem.Keys)
      ensures r.Mapped? ==> leaves == old(leaves)[a / PGSIZE := pte] && !IsValid(At(old(leaves), a / PGSIZE))
      ensures !r.Mapped? ==> leaves == old(leaves)
      ensures r.NoMemory? ==> freelist == []
      ensures r.Remap? ==> IsValid(At(old(leaves), a / PGSIZE))
      ensures r.NoMemory? <==> !CanPay(false, old(Stock()), a / PGSIZE)
      ensures !r.NoMemory? ==> Bought(false, old(Stock()), a / PGSIZE, Stock())
    {
      var table, i := Walk(a, true);
      if table < 0 { return NoMemory; }
      if IsValid(mem[table][i]) { return Remap; }
      SetEntry(a, table, i, pte);
      r := Mapped;
    }

    /** `mappages`: `n` pages are mapped before it returns or panics. With the pages it can have tables
        for, it runs out of memory if and only if they are too few and none of them is valid already, and
        panics if and only if one is. */
    method MapPages(va: nat, size: nat, pa: nat, perm: nat) returns (r: MapResult, ghost n: nat)
      requires Valid() && va % PGSIZE == 0 && size % PGSIZE == 0 && size > 0 && va + size <= MAXVA && perm < 1024
      modifies `mem, `freelist, `mid, `low, `node, `leaves
      ensures Valid() && Drawn(old(freelist), old(mem.Keys), freelist, mem.Keys)
      ensures n <= size / PGSIZE && (r.Mapped? <==> n == size / PGSIZE)
      ensures leaves == WithRange(old(leaves), va / PGSIZE, n, pa, perm)
      ensures pa % 4096 == 0 && pa + size <= WORD ==>
                RangeAdded(old(leaves), leaves, va / 4096, n, pa, perm)
      ensures forall v :: va / PGSIZE <= v < va / PGSIZE + n ==> !IsValid(At(old(leaves), v))
      ensures r.NoMemory? ==> freelist == []
      ensures r.Remap? ==> IsValid(At(old(leaves), va / PGSIZE + n))
      ensures var k := Affordable(false, old(Stock()), va / PGSIZE, size / PGSIZE);
        && (r.NoMemory? <==> k < size / PGSIZE && NoneValid(old(leaves), va / PGSIZE, k))
        && (r.Remap? <==> !NoneValid(old(leaves), va / PGSIZE, k))
        && (r.NoMemory? ==> n == k)
      ensures r.Remap? ==> Spent(false, old(Stock()), va / PGSIZE, n + 1, Stock())
      ensures r.Mapped? ==> Spent(false, old(Stock()), va / PGSIZE, n, Stock())
    {
      ghost var pages := WholePages(size);
      ghost var s, lo := Stock(), va / PGSIZE;
      r, n := MapLoop(va, va + size - PGSIZE, pa, perm, lo, pages, s, Affordable(false, s, lo, pages));
      assert Ranging(0);
      if pa % 4096 == 0 && pa + size <= WORD { RangeMeans(old(leaves), lo, n, pa, perm); }
    }

    /** One round, in terms of the state before the first. */
    method MapStep(a: nat, p: nat, perm: nat, ghost m: map<nat, nat>, ghost free: seq<nat>, ghost tables: set<nat>,
                   ghost lo: nat, ghost n: nat, ghost pa: nat, ghost s: Supply, ghost pages: nat, ghost k: nat)
      returns (r: MapResult)
      requires Valid() && a < MAXVA && a / PGSIZE == lo + n && p == pa + n * PGSIZE
      requires n < pages && Spent(false, s, lo, n, Stock()) && Reaches(false, s, lo, pages, k)
      requires Ranged(m, leaves, lo, n, pa, perm) && Drawn(free, tables, freelist, mem.Keys)
      modifies `mem, `freelist, `mid, `low, `node, `leaves
      ensures Valid() && Drawn(free, tables, freelist, mem.Keys)
      ensures Ranged(m, leaves, lo, if r.Mapped? then n + 1 else n, pa, perm)
      ensures r.NoMemory? ==> freelist == []
      ensures r.Remap? ==> IsValid(At(m, lo + n))
      ensures !r.NoMemory? ==> Spent(false, s, lo, n + 1, Stock())
      ensures if r.NoMemory? then n == k else n < k <= pages
    {
      NextAffordable(false, s, lo, n, Stock(), pages, k);
      SoFarAffordable(false, s, lo, n, Stock(), pages, k);
      RangedNext(m, leaves, lo, n, pa, perm);
      r := MapOne(a, PteFor(p, perm));
      if !r.NoMemory? { SpentMore(false, s, lo, n, old(Stock()), Stock()); }
      DrawnOn(free, tables, old(freelist), old(mem.Keys), freelist, mem.Keys);
      if r.Mapped? {
        RangedMore(m, old(leaves), leaves, lo, n, pa, perm);
      }
    }

    /** The loop of `mappages`, whose last page is at `last`. */
    method MapLoop(va: nat, last: nat, pa: nat, perm: nat, ghost lo: nat, ghost pages: nat, ghost s: Supply,
        ghost k: nat)
      returns (r: MapResult, ghost n: nat)
      requires lo == va / PGSIZE && s == Stock() && Reaches(false, s, lo, pages, k)
      requires Valid() && pages > 0 && last == va + (pages - 1) * PGSIZE < MAXVA && perm < 1024
      modifies `mem, `freelist, `mid, `low, `node, `leaves
      ensures Valid() && Drawn(old(freelist), old(mem.Keys), freelist, mem.Keys)
      ensures n <= pages && (r.Mapped? <==> n == pages)
      ensures Ranged(old(leaves), leaves, lo, n, pa, perm)
      ensures r.NoMemory? ==> freelist == []
      ensures r.Remap? ==> IsValid(At(old(leaves), lo + n))
      ensures r.Remap? ==> Spent(false, s, lo, n + 1, Stock())
      ensures r.Mapped? ==> Spent(false, s, lo, n, Stock())
      ensures if r.NoMemory? then n == k else if r.Remap? then n < k <= pages else n == k
    {
      var a, p := va, pa;
      SpentNothing(false, s, lo);
      n := 0;
      while true
        invariant Valid() && Drawn(old(freelist), old(mem.Keys), freelist, mem.Keys)
        invariant a == va + n * PGSIZE && p == pa + n * PGSIZE && n < pages && n <= k
        invariant Ranged(old(leaves), leaves, lo, n, pa, perm) && Spent(false, s, lo, n, Stock())
        decreases pages - n
      {
        PageNumber(va, n);
        r := MapStep(a, p, perm, old(leaves), old(freelist), old(mem.Keys), lo, n, pa, s, pages, k);
        if !r.Mapped? { return; }
        n := n + 1;
        if a == last { break; }
        a := a + PGSIZE;
        p := p + PGSIZE;
      }
      r := Mapped;
    }

    /** One round of the loop of `uvmunmap`. */
    method UnmapOne(a: nat, doFree: bool) returns (r: UnmapResult, slots: seq<nat>)
      requires Valid() && a < MAXVA
      requires doFree && IsValid(At(leaves, a / PGSIZE)) ==> Spare(Pte2Pa(At(leaves, a / PGSIZE)), freelist, mem.Keys)
      modifies `mem, `freelist, `mid, `low, `node, `leaves
      ensures r.Unmapped? <==> Removable(At(old(leaves), a / PGSIZE))
      ensures Valid() && leaves == if r.Unmapped? then old(leaves) - {a / PGSIZE} else old(leaves)
      ensures mem.Keys == old(mem.Keys)
      ensures r.Unmapped? ==> slots == SlotAt(At(old(leaves), a / PGSIZE))
      ensures r.Unmapped? ==> freelist == (if doFree then PageAt(At(old(leaves), a / PGSIZE)) else []) + old(freelist)
    {
      slots := [];
      var table, i := Walk(a, false);
      if table < 0 { return Unmapped, []; }
      var pte := mem[table][i];
      if !IsValid(pte) {
        if SwappedOut(pte) {
          SetEntry(a, table, i, 0);
          return Unmapped, [PteSwapSlot(pte)];
        }
        if pte == 0 {
          assert Inside(0);
          return Unmapped, [];
        }
        return NotMapped, [];
      }
      if PteFlags(pte) == PTE_V { return NotLeaf, []; }
      if doFree {
        FreePushes(freelist, mem.Keys, Pte2Pa(pte));
        freelist := [Pte2Pa(pte)] + freelist;
      }
      SetEntry(a, table, i, 0);
      r := Unmapped;
    }

    /** `uvmunmap`: the `npages` pages from `va` are removed from the map. Swap slots of pages that
        are swapped out are handed back, and with `doFree` so are the physical pages. */
    method UvmUnmap(va: nat, npages: nat, doFree: bool) returns (r: UnmapResult, slots: seq<nat>)
      requires Valid() && va % PGSIZE == 0 && va + npages * PGSIZE <= MAXVA
      requires doFree ==> Freeable(leaves, va / PGSIZE, npages, freelist, mem.Keys)
      modifies `mem, `freelist, `mid, `low, `node, `leaves
      ensures Valid() && mem.Keys == old(mem.Keys)
      ensures r.Unmapped? <==> AllRemovable(old(leaves), va / PGSIZE, npages)
      ensures r.Unmapped? <==> forall v: nat :: va / 4096 <= v < va / 4096 + npages && v in old(leaves) ==>
                var pte := old(leaves)[v];
                if pte % 2 == 1 then pte % 1024 != 1 else pte / 256 % 2 == 1 || pte == 0
      ensures r.Unmapped? ==> leaves == Without(old(leaves), va / PGSIZE, npages)
      ensures r.Unmapped? ==> forall v: nat ::
                v in leaves <==> v in old(leaves) && !(va / 4096 <= v < va / 4096 + npages)
      ensures r.Unmapped? ==> forall v: nat :: v in leaves ==> leaves[v] == old(leaves)[v]
      ensures r.Unmapped? ==> slots == SlotsOf(old(leaves), va / PGSIZE, npages)
      ensures r.Unmapped? ==>
                freelist == (if doFree then PagesOf(old(leaves), va / PGSIZE, npages) else []) + old(freelist)
    {
      ghost var m, lo := leaves, va / PGSIZE;
      AllRemovableMeans(m, lo, npages);
      var a := va;
      ghost var n: nat, pages := 0, [];
      slots := [];
      while a < va + npages * PGSIZE
        invariant Valid() && a == va + n * PGSIZE && n <= npages && mem.Keys == old(mem.Keys)
        invariant Removed(m, leaves, lo, n, pages, slots)
        invariant freelist == (if doFree then pages else []) + old(freelist)
        invariant doFree ==> Freeable(m, lo + n, npages - n, freelist, mem.Keys)
        decreases npages - n
      {
        PageNumber(va, n);
        r, slots, pages := UnmapStep(a, doFree, slots, m, old(freelist), lo, n, npages, pages);
        if !r.Unmapped? { return; }
        n := n + 1;
        a := a + PGSIZE;
      }
      assert Removing(0);
      RemovedMeans(m, lo, npages);
      r := Unmapped;
    }

    /** One round, in terms of the state before the first. */
    method UnmapStep(a: nat, doFree: bool, slots: seq<nat>, ghost m: map<nat, nat>, ghost free: seq<nat>,
                     ghost lo: nat, ghost n: nat, ghost npages: nat, ghost pages: seq<nat>)
      returns (r: UnmapResult, slots': seq<nat>, ghost pages': seq<nat>)
      requires Valid() && a < MAXVA && a / PGSIZE == lo + n && n < npages
      requires Removed(m, leaves, lo, n, pages, slots) && freelist == (if doFree then pages else []) + free
      requires doFree ==> Freeable(m, lo + n, npages - n, freelist, mem.Keys)
      modifies `mem, `freelist, `mid, `low, `node, `leaves
      ensures Valid() && mem.Keys == old(mem.Keys)
      ensures !r.Unmapped? ==> !AllRemovable(m, lo, npages)
      ensures r.Unmapped? ==>
                Removed(m, leaves, lo, n + 1, pages', slots') && freelist == (if doFree then pages' else []) + free
      ensures r.Unmapped? && doFree ==> Freeable(m, lo + n + 1, npages - n - 1, freelist, mem.Keys)
    {
      ghost var pte := At(leaves, lo + n);
      RemovedNext(m, leaves, lo, n, pages, slots);
      if doFree { FreeableFirst(m, lo + n, npages - n, freelist, mem.Keys); }
      var more;
      r, more := UnmapOne(a, doFree);
      slots', pages' := more + slots, PageAt(pte) + pages;
      if r.Unmapped? {
        RemovedMore(m, old(leaves), leaves, lo, n, pages, slots, pages', slots');
        PushAssoc(PageAt(pte), pages, free);
        if doFree { FreeableRest(m, lo + n, npages - n, old(freelist), freelist, mem.Keys); }
      }
    }

    /** `uvmdealloc`: the pages from the rounded-up `newsz` to the rounded-up `oldsz` are removed
        and given back; nothing happens if that is not a shrinking. */
    method UvmDealloc(oldsz: nat, newsz: nat) returns (sz: nat, r: UnmapResult, slots: seq<nat>)
      requires Valid() && PgRoundUp(oldsz) <= MAXVA
      requires newsz < oldsz ==> Freeable(leaves, PgRoundUp(newsz) / PGSIZE, Pages(newsz, oldsz), freelist, mem.Keys)
      modifies `mem, `freelist, `mid, `low, `node, `leaves
      ensures Valid() && mem.Keys == old(mem.Keys) && sz == if newsz < oldsz then newsz else oldsz
      ensures r.Unmapped? <==>
                (newsz < oldsz ==> AllRemovable(old(leaves), PgRoundUp(newsz) / PGSIZE, Pages(newsz, oldsz)))
      ensures r.Unmapped? && newsz < oldsz ==>
                leaves == Without(old(leaves), PgRoundUp(newsz) / PGSIZE, Pages(newsz, oldsz))
      ensures r.Unmapped? && newsz < oldsz ==>
        && slots == SlotsOf(old(leaves), PgRoundUp(newsz) / PGSIZE, Pages(newsz, oldsz))
        && freelist == PagesOf(old(leaves), PgRoundUp(newsz) / PGSIZE, Pages(newsz, oldsz)) + old(freelist)
      ensures r.Unmapped? && newsz < oldsz ==> forall v: nat ::
                v in leaves <==> v in old(leaves) && !((newsz + 4095) / 4096 <= v < (oldsz + 4095) / 4096)
      ensures newsz >= oldsz ==> leaves == old(leaves) && freelist == old(freelist) && slots == []
    {
      if newsz >= oldsz { return oldsz, Unmapped, []; }
      sz, r, slots := newsz, Unmapped, [];
      PagesBetween(newsz, oldsz);
      RoundsUp(newsz);
      RoundsUp(oldsz);
      if PgRoundUp(newsz) < PgRoundUp(oldsz) {
        var npages := (PgRoundUp(oldsz) - PgRoundUp(newsz)) / PGSIZE;
        r, slots := UvmUnmap(PgRoundUp(newsz), npages, true);
      } else {
        assert PagesOf(leaves, PgRoundUp(newsz) / PGSIZE, 0) == [];
      }
    }

    /** `uvmalloc`. On success every page from the rounded-up `oldsz` to `newsz` is mapped, each to a
        page of its own. Of the pages that memory suffices for, with the tables they need, it panics if and
        only if one is valid already. Otherwise it fails if and only if they are too few; then every page taken
        has been given back, and the map has lost what it had for exactly these pages, so it is as it was if
        and only if that was nothing. */
    method UvmAlloc(oldsz: nat, newsz: nat, xperm: nat) returns (r: GrowResult, ghost taken: seq<nat>)
      requires Valid() && newsz <= MAXVA && xperm in {0, 4, 8, 12}
      modifies `mem, `freelist, `mid, `low, `node, `leaves
      ensures newsz < oldsz ==>
                Valid() && r == Size(oldsz) && leaves == old(leaves) && freelist == old(freelist) && mem == old(mem)
      ensures newsz >= oldsz ==>
                |taken| <= PagesFor(oldsz, newsz) && NoneValid(old(leaves), PgRoundUp(oldsz) / PGSIZE, |taken|)
      ensures newsz >= oldsz && r.Size? ==>
        && Valid() && r == Size(newsz) && |taken| == PagesFor(oldsz, newsz)
        && Grown(old(leaves), old(freelist), old(mem.Keys), PgRoundUp(oldsz) / PGSIZE, taken,
                 PTE_R + PTE_U + xperm, leaves, freelist, mem.Keys)
      ensures newsz >= oldsz && r.Size? ==>
        && |taken| == (newsz + 4095) / 4096 - (oldsz + 4095) / 4096 && Distinct(taken)
        && (forall p :: p in taken ==> p in old(freelist))
        && PagesAdded(old(leaves), leaves, (oldsz + 4095) / 4096, taken, 18 + xperm)
      ensures r.Remapped? ==> newsz >= oldsz && IsValid(At(old(leaves), PgRoundUp(oldsz) / PGSIZE + |taken|))
      ensures r.Failed? ==>
        && newsz >= oldsz && Valid() && Elements(freelist) + mem.Keys == old(Elements(freelist) + mem.Keys)
        && UsedUp(old(freelist), mem.Keys, taken)
        && leaves == Without(old(leaves), PgRoundUp(oldsz) / PGSIZE, |taken|)
      ensures newsz >= oldsz ==>
        var lo, pages := PgRoundUp(oldsz) / PGSIZE, PagesFor(oldsz, newsz);
        var k := Affordable(true, old(Stock()), lo, pages);
        && (r.Size? <==> k == pages && NoneValid(old(leaves), lo, k))
        && (r.Failed? <==> k < pages && NoneValid(old(leaves), lo, k))
        && (r.Remapped? <==> !NoneValid(old(leaves), lo, k))
        && (r.Failed? ==> |taken| == k && (leaves == old(leaves) <==> Vacant(old(leaves), lo, k)))
      ensures r.Failed? && Vacant(old(leaves), PgRoundUp(oldsz) / PGSIZE, PagesFor(oldsz, newsz)) ==>
                leaves == old(leaves)
    {
      taken := [];
      if newsz < oldsz { return Size(oldsz), []; }
      RoundUpLeast(oldsz);
      var start := PgRoundUp(oldsz);
      var perm := PTE_R + PTE_U + xperm;
      ghost var m, free, tables, lo := leaves, freelist, mem.Keys, start / PGSIZE;
      GrownNothing(m, free, tables, lo, perm);
      ghost var s, pages := Stock(), PagesFor(oldsz, newsz);
      ghost var k := Affordable(true, s, lo, pages);
      SpentNothing(true, s, lo);
      var a := start;
      while a < newsz
        invariant Valid() && a == start + |taken| * PGSIZE && |taken| <= PagesFor(oldsz, newsz)
        invariant Grown(m, free, tables, lo, taken, perm, leaves, freelist, mem.Keys)
        invariant NoneValid(m, lo, |taken|) && Spent(true, s, lo, |taken|, Stock())
        decreases newsz - a
      {
        OnePageMore(oldsz, newsz, |taken|);
        PageNumber(start, |taken|);
        var ok;
        ok, taken := AllocStep(a, perm, m, free, tables, lo, taken, s, pages, k);
        if ok.Remap? { return Remapped, taken; }
        if ok.NoMemory? {
          Rollback(a, start, perm, m, free, tables, lo, taken);
          UnchangedIff(m, lo, |taken|);
          return Failed, taken;
        }
        a := a + PGSIZE;
      }
      AllPages(oldsz, newsz, |taken|);
      SoFarAffordable(true, s, lo, |taken|, Stock(), pages, k);
      GrownMeans(m, free, tables, lo, taken, perm, leaves, freelist, mem.Keys);
      GrowthCovers(oldsz, newsz, 0);
      r := Size(newsz);
    }

    /** `mappages` of one page. */
    method MapFresh(a: nat, p: nat, perm: nat) returns (r: MapResult)
      requires Valid() && a + PGSIZE <= MAXVA && a % PGSIZE == 0 && perm < 1024
      modifies `mem, `freelist, `mid, `low, `node, `leaves
      ensures Valid() && Drawn(old(freelist), old(mem.Keys), freelist, mem.Keys)
      ensures leaves == if r.Mapped? then old(leaves)[a / PGSIZE := PteFor(p, perm)] else old(leaves)
      ensures r.NoMemory? ==> freelist == []
      ensures r.Remap? ==> IsValid(At(old(leaves), a / PGSIZE))
      ensures r.Mapped? ==> !IsValid(At(old(leaves), a / PGSIZE))
      ensures r.NoMemory? <==> !CanPay(false, old(Stock()), a / PGSIZE)
      ensures !r.NoMemory? ==> Bought(false, old(Stock()), a / PGSIZE, Stock())
    {
      ghost var s := Stock();
      ghost var n;
      r, n := MapPages(a, PGSIZE, p, perm);
      OnePage(s, a / PGSIZE);
      if !r.NoMemory? { SpentOne(false, s, a / PGSIZE, Stock()); }
    }

    /** One round of the loop of `uvmalloc`, up to its two failures and the panic of `mappages`. */
    method AllocOne(a: nat, perm: nat, ghost m: map<nat, nat>, ghost free: seq<nat>, ghost tables: set<nat>,
                    ghost lo: nat, ghost taken: seq<nat>) returns (ok: MapResult, ghost taken': seq<nat>)
      requires Valid() && a + PGSIZE <= MAXVA && a % PGSIZE == 0 && perm < 1024 && a / PGSIZE == lo + |taken|
      requires Grown(m, free, tables, lo, taken, perm, leaves, freelist, mem.Keys)
      modifies `mem, `freelist, `mid, `low, `node, `leaves
      ensures !ok.Remap? ==> Valid() && Grown(m, free, tables, lo, taken', perm, leaves, freelist, mem.Keys)
      ensures if ok.Mapped? then |taken'| == |taken| + 1 && taken'[..|taken|] == taken else taken' == taken
      ensures ok.Remap? ==> IsValid(At(m, lo + |taken|))
      ensures ok.Mapped? ==> !IsValid(At(m, lo + |taken|))
      ensures ok.NoMemory? ==> |freelist| <= 1
      ensures ok.NoMemory? <==> !CanPay(true, old(Stock()), a / PGSIZE)
      ensures !ok.NoMemory? ==> Bought(true, old(Stock()), a / PGSIZE, Stock())
    {
      taken' := taken;
      GrownNext(m, free, tables, lo, taken, perm, leaves, freelist, mem.Keys);
      if freelist == [] {
        CannotPay(Stock(), a / PGSIZE);
        return NoMemory, taken;
      }
      PageAndTables(Stock(), a / PGSIZE);
      FreePops(freelist, mem.Keys);
      ghost var m1, free1, tables1 := leaves, freelist, mem.Keys;
      var p := freelist[0];
      freelist := freelist[1..];
      ok := MapFresh(a, p, perm);
      if ok.Remap? { return; }
      if ok.NoMemory? {
        GrownBack(m, free, tables, lo, taken, perm, m1, free1, tables1, freelist, mem.Keys);
        freelist := [p] + freelist;
        return;
      }
      GrownMore(m, free, tables, lo, taken, perm, m1, free1, tables1, leaves, freelist, mem.Keys);
      taken' := taken + [p];
    }

    /** The same round, in terms of what can be mapped in all. */
    method AllocStep(a: nat, perm: nat, ghost m: map<nat, nat>, ghost free: seq<nat>, ghost tables: set<nat>,
                     ghost lo: nat, ghost taken: seq<nat>, ghost s: Supply, ghost pages: nat, ghost k: nat)
      returns (ok: MapResult, ghost taken': seq<nat>)
      requires Valid() && a + PGSIZE <= MAXVA && a % PGSIZE == 0 && perm < 1024 && a / PGSIZE == lo + |taken|
      requires Grown(m, free, tables, lo, taken, perm, leaves, freelist, mem.Keys) && |taken| < pages
      requires Spent(true, s, lo, |taken|, Stock()) && Reaches(true, s, lo, pages, k)
      modifies `mem, `freelist, `mid, `low, `node, `leaves
      ensures !ok.Remap? ==> Valid() && Grown(m, free, tables, lo, taken', perm, leaves, freelist, mem.Keys)
      ensures if ok.Mapped? then |taken'| == |taken| + 1 else taken' == taken
      ensures ok.Remap? ==> IsValid(At(m, lo + |taken|))
      ensures ok.Mapped? ==> !IsValid(At(m, lo + |taken|)) && Spent(true, s, lo, |taken'|, Stock())
      ensures ok.NoMemory? ==> |freelist| <= 1
      ensures if ok.NoMemory? then |taken| == k else |taken| < k <= pages
    {
      NextAffordable(true, s, lo, |taken|, Stock(), pages, k);
      SoFarAffordable(true, s, lo, |taken|, Stock(), pages, k);
      ok, taken' := AllocOne(a, perm, m, free, tables, lo, taken);
      if ok.Mapped? { SpentMore(true, s, lo, |taken|, old(Stock()), Stock()); }
    }

    /** The failure path of `uvmalloc`. */
    method Rollback(a: nat, start: nat, perm: nat, ghost m: map<nat, nat>, ghost free: seq<nat>, ghost tables: set<nat>,
                    ghost lo: nat, ghost taken: seq<nat>)
      requires Valid() && start % PGSIZE == 0 && lo == start / PGSIZE && a == start + |taken| * PGSIZE <= MAXVA
      requires Grown(m, free, tables, lo, taken, perm, leaves, freelist, mem.Keys) && 0 < perm < 1024 && perm % 2 == 0
      requires |freelist| <= 1
      modifies `mem, `freelist, `mid, `low, `node, `leaves
      ensures Valid() && leaves == Without(m, lo, |taken|) && Elements(freelist) + mem.Keys == Elements(free) + tables
      ensures UsedUp(free, mem.Keys, taken)
    {
      GrownUndone(m, free, tables, lo, taken, perm, leaves, freelist, mem.Keys);
      GrownUsesUp(m, free, tables, lo, taken, perm, leaves, freelist, mem.Keys);
      AlignedRoundUp(start);
      PageNumber(start, |taken|);
      AlignedRoundUp(a);
      var _, _, _ := UvmDealloc(a, start);
    }

    /** `freewalk` on the page-table page for `idx` at `level`, in the tree `s` as it was when the
        walk began: every page of its subtree goes to the free list once, and no other page changes.
        The leaf panic is unreachable once no leaf is valid. */
    method FreeWalk(p: nat, ghost s: Tree, ghost level: nat, ghost idx: nat)
      requires Emptied(s) && level <= 2 && p in s.mem && p in s.node && IsAt(s.node[p], level, idx)
      requires FreeOk(freelist, mem.Keys) && forall q :: q in Sub(s, level, idx) ==> q in mem && mem[q] == s.mem[q]
      modifies `mem, `freelist
      ensures mem == old(mem) - Sub(s, level, idx)
      ensures FreeOk(freelist, mem.Keys) && Elements(freelist) == old(Elements(freelist)) + Sub(s, level, idx)
      decreases level, 1
    {
      SelfInSub(s, p, level, idx);
      ghost var m := mem;
      var i: nat := 0;
      while i < 512
        invariant 0 <= i <= 512 && p in mem && |mem[p]| == 512
        invariant forall j :: i <= j < 512 ==> mem[p][j] == s.mem[p][j]
        invariant Freed(m, mem, p, Before(s, level, idx, i))
        invariant FreeOk(freelist, mem.Keys) && Elements(freelist) == old(Elements(freelist)) + Before(s, level, idx, i)
      {
        FreeEntry(p, i, s, level, idx, m);
        i := i + 1;
      }
      SubIsBefore(s, p, level, idx);
      FreePushes(freelist, mem.Keys - {p}, p);
      assert Elements([p] + freelist) == {p} + Elements(freelist);
      freelist := [p] + freelist;
      mem := mem - {p};
    }

    /** One round of the loop of `freewalk`. */
    method FreeEntry(p: nat, i: nat, ghost s: Tree, ghost level: nat, ghost idx: nat, ghost m: map<nat, seq<nat>>)
      requires Emptied(s) && level <= 2 && p in s.mem && p in s.node && IsAt(s.node[p], level, idx) && |s.mem[p]| == 512
      requires forall q :: q in Sub(s, level, idx) ==> q in m && m[q] == s.mem[q]
      requires i < 512 && p in mem && |mem[p]| == 512 && mem[p][i] == s.mem[p][i]
      requires Freed(m, mem, p, Before(s, level, idx, i)) && FreeOk(freelist, mem.Keys)
      modifies `mem, `freelist
      ensures p in mem && |mem[p]| == 512 && forall j :: i < j < 512 ==> mem[p][j] == old(mem)[p][j]
      ensures Freed(m, mem, p, Before(s, level, idx, i + 1)) && FreeOk(freelist, mem.Keys)
      ensures Elements(freelist) == old(Elements(freelist)) + (Before(s, level, idx, i + 1) - Before(s, level, idx, i))
      ensures Before(s, level, idx, i) <= Before(s, level, idx, i + 1)
      decreases level, 0
    {
      ChildMeans(s, p, level, idx, i);
      BeforeGrows(s, level, idx, i);
      var pte := mem[p][i];
      if IsValid(pte) && !Leafy(pte) {
        SubStillThere(s, m, mem, p, level, idx, i);
        FreeWalk(Pte2Pa(pte), s, level - 1, Child(level, idx, i));
        mem := mem[p := Put(mem[p], i, 0)];
      } else if IsValid(pte) {
        assert false;
      }
    }

    /** `uvmfree`: the user pages and then every page of the tree are given back, each once. */
    method UvmFree(sz: nat) returns (slots: seq<nat>)
      requires Valid() && PgRoundUp(sz) <= MAXVA
      requires Freeable(leaves, 0, PgRoundUp(sz) / PGSIZE, freelist, mem.Keys)
      requires AllRemovable(leaves, 0, PgRoundUp(sz) / PGSIZE)
      requires forall v :: v in leaves && IsValid(leaves[v]) ==> v < PgRoundUp(sz) / PGSIZE
      modifies `mem, `freelist, `mid, `low, `node, `leaves
      ensures mem == map[] && FreeOk(freelist, {}) && slots == SlotsOf(old(leaves), 0, PgRoundUp(sz) / PGSIZE)
      ensures Elements(freelist) ==
              old(Elements(freelist) + mem.Keys) + Elements(PagesOf(old(leaves), 0, PgRoundUp(sz) / PGSIZE))
    {
      RoundUpLeast(sz);
      ghost var n := PgRoundUp(sz) / PGSIZE;
      slots := [];
      if sz > 0 {
        var r;
        r, slots := UvmUnmap(0, PgRoundUp(sz) / PGSIZE, true);
        assert Elements(freelist) == old(Elements(freelist)) + Elements(PagesOf(old(leaves), 0, n));
      }
      NothingValid(old(leaves), n, Now(), leaves);
      FreeWalk(root, Now(), 2, 0);
    }
  }

  /** A failed `uvmalloc` that leaves the map poorer: page 0 is swapped out, there is one free page, and
      the process grows from 0 to two pages. Afterwards the entry with the swap slot is gone. */
  method LostSwapEntry(page: nat, free: seq<nat>, slot: nat)
      returns (s: AddressSpace, r: GrowResult, ghost before: map<nat, nat>)
    requires FreeOk(free, {page}) && GoodPage(page) && |free| == 3 && slot < SLOTS
    ensures 0 in before && SwappedOut(before[0]) && PteSwapSlot(before[0]) == slot
    ensures r.Failed? && s.Valid() && s.leaves == map[]
  {
    var pte := SwapEntry(slot);
    s := OneSwapped(page, free, pte);
    before := s.leaves;
    AffordOne(s.Stock());
    r := GrowByTwo(s);
    assert before - {0} == map[];
  }

  /** `(slot << 10) | PTE_SWAPPED` */
  function SwapEntry(slot: nat): (pte: nat)
    requires slot < SLOTS
    ensures SwappedOut(pte) && PteSwapSlot(pte) == slot && !IsValid(pte) && pte > 0
  {
    SwapRoundTrip(slot, 256);
    SwapBits(slot, slot * 1024 + 256);
    slot * 1024 + 256
  }

  lemma SwapBits(slot: nat, pte: nat)
    requires pte == slot * 1024 + 256
    ensures SwappedOut(pte) && !IsValid(pte)
  {
    var q := 4 * slot + 1;
    assert pte / 256 == q;
    Doubled(q * 128);
    Doubled(2 * slot);
    assert q == 2 * slot + 2 * slot + 1;
  }

  method GrowByTwo(s: AddressSpace) returns (r: GrowResult)
    requires s.Valid() && Affordable(true, s.Stock(), 0, 2) == 1 && !IsValid(At(s.leaves, 0))
    modifies s
    ensures s.Valid() && r.Failed? && s.leaves == old(s.leaves) - {0}
  {
    assert PgRoundUp(0) == 0 && PagesFor(0, 2 * PGSIZE) == 2;
    ghost var taken;
    r, taken := s.UvmAlloc(0, 2 * PGSIZE, 4);
    assert Without(old(s.leaves), 0, 1) == Without(old(s.leaves), 0, 0) - {0};
  }

  /** A new address space whose page 0 has the entry `pte`, with one free page left. */
  method OneSwapped(page: nat, free: seq<nat>, pte: nat) returns (s: AddressSpace)
    requires FreeOk(free, {page}) && GoodPage(page) && |free| == 3 && pte > 0
    ensures fresh(s) && s.Valid() && s.leaves == map[0 := pte]
    ensures 0 in s.mid && 0 in s.low && |s.freelist| == 1
  {
    s := new AddressSpace(page, free);
    TwoTables(s.Stock());
    var table, i := s.Walk(0, true);
    s.SetEntry(0, table, i, pte);
  }

  lemma TwoTables(t: Supply)
    requires t == Supply({}, {}, 3)
    ensures CanPay(false, t, 0) && forall t' :: Bought(false, t, 0, t') ==> 0 in t'.mids && 0 in t'.lows && t'.free == 1
  {
    assert Priced(0) && Buying(0);
  }

  /** With one free page and the tables in place, one page out of two. */
  lemma AffordOne(t: Supply)
    requires 0 in t.mids && 0 in t.lows && t.free == 1
    ensures Affordable(true, t, 0, 2) == 1
  {
    AffordableIff(true, t, 0, 2, 0);
    AffordableIff(true, t, 0, 2, 1);
    AffordableIff(true, t, 0, 2, 2);
    assert MidsOver(0, 1) - t.mids == {} && LowsOver(0, 1) - t.lows == {};
  }

  /** After the user pages are unmapped, no leaf is valid and the whole tree is the root's subtree. */
  lemma NothingValid(m: map<nat, nat>, n: nat, s: Tree, m': map<nat, nat>)
    requires Sound(s, m') && m' == Without(m, 0, n) && forall v :: v in m && IsValid(m[v]) ==> v < n
    ensures Emptied(s) && s.root in s.mem && s.root in s.node && IsAt(s.node[s.root], 2, 0)
    ensures Sub(s, 2, 0) == s.mem.Keys
  {
    assert Inside(0);
    forall v: nat ensures !IsValid(Leaf(s, v)) {
      assert Leaf(s, v) == At(m', v);
      WithoutAt(m, 0, n, v);
    }
  }

  // -------- Growing and shrinking --------

  /** `m` with the pages from `lo` mapped to the physical pages `taken`. */
  ghost function WithPages(m: map<nat, nat>, lo: nat, taken: seq<nat>, perm: nat): map<nat, nat> {
    if taken == [] then m
    else
      var n := |taken| - 1;
      WithPages(m, lo, taken[..n], perm)[lo + n := PteFor(taken[n], perm)]
  }

  lemma {:induction false} WithPagesAt(m: map<nat, nat>, lo: nat, taken: seq<nat>, perm: nat, v: nat)
    ensures At(WithPages(m, lo, taken, perm), v) ==
            if lo <= v < lo + |taken| then PteFor(taken[v - lo], perm) else At(m, v)
    decreases |taken|
  {
    if taken != [] {
      WithPagesAt(m, lo, taken[..|taken| - 1], perm, v);
    }
  }

  /** A leaf made for a page leads back to it and has the permissions asked for, and PTE_V. */
  lemma PteForMeans(p: nat, perm: nat)
    requires p % 4096 == 0 && p < WORD && perm < 1024
    ensures Pte2Pa(PteFor(p, perm)) == p && PteFlags(PteFor(p, perm)) == if perm % 2 == 0 then perm + 1 else perm
  {
    EvenPte(p);
    EvenPlus(Pa2Pte(p), perm);
    PteRoundTrip(p, if perm % 2 == 0 then perm + 1 else perm);
  }

  lemma EvenPlus(x: nat, y: nat)
    requires x % 2 == 0
    ensures WithV(x + y) == x + if y % 2 == 0 then y + 1 else y
  {
  }

  /** What `mappages` adds, leaf by leaf. */
  lemma RangeMeans(m: map<nat, nat>, lo: nat, n: nat, pa: nat, perm: nat)
    requires pa % 4096 == 0 && pa + n * 4096 <= WORD && perm < 1024
    ensures RangeAdded(m, WithRange(m, lo, n, pa, perm), lo, n, pa, perm)
  {
    forall v: nat ensures RangeLeaf(m, WithRange(m, lo, n, pa, perm), lo, n, pa, perm, v) {
      RangeLeafAt(m, lo, n, pa, perm, v);
    }
  }

  lemma RangeLeafAt(m: map<nat, nat>, lo: nat, n: nat, pa: nat, perm: nat, v: nat)
    requires pa % 4096 == 0 && pa + n * 4096 <= WORD && perm < 1024
    ensures RangeLeaf(m, WithRange(m, lo, n, pa, perm), lo, n, pa, perm, v)
  {
    WithRangeAt(m, lo, n, pa, perm, v);
    if lo <= v < lo + n {
      PageAligned(pa, v - lo);
      PteForMeans(pa + (v - lo) * 4096, perm);
    }
  }

  /** Page `v` of the range leads to its frame with the permissions given, and PTE_V; other leaves stay. */
  ghost predicate RangeLeaf(m: map<nat, nat>, r: map<nat, nat>, lo: nat, n: nat, pa: nat, perm: nat, v: nat) {
    if lo <= v < lo + n
    then v in r && Pte2Pa(r[v]) == pa + (v - lo) * 4096 && PteFlags(r[v]) == if perm % 2 == 0 then perm + 1 else perm
    else At(r, v) == At(m, v)
  }

  ghost predicate RangeAdded(m: map<nat, nat>, r: map<nat, nat>, lo: nat, n: nat, pa: nat, perm: nat) {
    forall v: nat :: RangeLeaf(m, r, lo, n, pa, perm, v)
  }

  lemma PageAligned(pa: nat, i: nat)
    requires pa % 4096 == 0
    ensures (pa + i * 4096) % 4096 == 0
  {
  }

  /** What `uvmalloc` adds, leaf by leaf. */
  lemma PagesMean(m: map<nat, nat>, lo: nat, taken: seq<nat>, perm: nat)
    requires perm < 1024 && forall p :: p in taken ==> GoodPage(p)
    ensures PagesAdded(m, WithPages(m, lo, taken, perm), lo, taken, perm)
  {
    forall v: nat ensures PagesLeaf(m, WithPages(m, lo, taken, perm), lo, taken, perm, v) {
      WithPagesAt(m, lo, taken, perm, v);
      if lo <= v < lo + |taken| {
        assert taken[v - lo] in taken;
        PteForMeans(taken[v - lo], perm);
      }
    }
  }

  /** The same, for frames that need not be neighbours. */
  ghost predicate PagesLeaf(m: map<nat, nat>, r: map<nat, nat>, lo: nat, taken: seq<nat>, perm: nat, v: nat) {
    if lo <= v < lo + |taken|
    then v in r && Pte2Pa(r[v]) == taken[v - lo] && PteFlags(r[v]) == if perm % 2 == 0 then perm + 1 else perm
    else At(r, v) == At(m, v)
  }

  ghost predicate PagesAdded(m: map<nat, nat>, r: map<nat, nat>, lo: nat, taken: seq<nat>, perm: nat) {
    forall v: nat :: PagesLeaf(m, r, lo, taken, perm, v)
  }

  /** Growing from `oldsz` to `newsz` takes the pages of exactly the addresses in between. */
  lemma GrowthCovers(oldsz: nat, newsz: nat, a: nat)
    requires oldsz <= newsz
    ensures (oldsz + 4095) / 4096 * 4096 <= a < newsz ==>
              (oldsz + 4095) / 4096 <= a / 4096 < (oldsz + 4095) / 4096 + PagesFor(oldsz, newsz)
    ensures PagesFor(oldsz, newsz) == (newsz + 4095) / 4096 - (oldsz + 4095) / 4096
  {
  }

  /** How many pages lie between two sizes. */
  function Pages(newsz: nat, oldsz: nat): (n: nat)
    requires newsz <= oldsz
  {
    PagesBetween(newsz, oldsz);
    (PgRoundUp(oldsz) - PgRoundUp(newsz)) / PGSIZE
  }

  /** How many pages `uvmalloc` adds. */
  function PagesFor(oldsz: nat, newsz: nat): nat {
    if newsz <= PgRoundUp(oldsz) then 0 else (newsz - PgRoundUp(oldsz) + PGSIZE - 1) / PGSIZE
  }

  lemma OnePageMore(oldsz: nat, newsz: nat, n: nat)
    requires PgRoundUp(oldsz) + n * PGSIZE < newsz <= MAXVA
    ensures n < PagesFor(oldsz, newsz) && (PgRoundUp(oldsz) + n * PGSIZE) % PGSIZE == 0
    ensures PgRoundUp(oldsz) + (n + 1) * PGSIZE <= MAXVA
  {
  }

  lemma AllPages(oldsz: nat, newsz: nat, n: nat)
    requires n <= PagesFor(oldsz, newsz) && PgRoundUp(oldsz) + n * PGSIZE >= newsz
    ensures n == PagesFor(oldsz, newsz)
  {
  }

  lemma AlignedRoundUp(sz: nat)
    requires sz % PGSIZE == 0
    ensures PgRoundUp(sz) == sz
  {
  }

  lemma RoundsUp(sz: nat)
    ensures PgRoundUp(sz) / 4096 == (sz + 4095) / 4096 && PgRoundUp(sz) == (sz + 4095) / 4096 * 4096
  {
  }

  lemma PagesBetween(newsz: nat, oldsz: nat)
    requires newsz <= oldsz
    ensures PgRoundUp(newsz) <= PgRoundUp(oldsz) && PgRoundUp(newsz) % PGSIZE == 0
    ensures PgRoundUp(newsz) + (PgRoundUp(oldsz) - PgRoundUp(newsz)) / PGSIZE * PGSIZE == PgRoundUp(oldsz)
  {
    var a, b := (newsz + PGSIZE - 1) / PGSIZE, (oldsz + PGSIZE - 1) / PGSIZE;
    assert a <= b && PgRoundUp(newsz) == a * PGSIZE && PgRoundUp(oldsz) == b * PGSIZE;
    assert (b * PGSIZE - a * PGSIZE) / PGSIZE == b - a;
  }

  ghost predicate Growing(z: int) { true }

  /** Starting from `m`, `free` and `tables`, the pages `taken` have been mapped from `lo` on; all
      other pages are still free or have become page tables. To be opened by mentioning `Growing`. */
  ghost predicate Grown(m: map<nat, nat>, free: seq<nat>, tables: set<nat>, lo: nat, taken: seq<nat>, perm: nat,
                        m': map<nat, nat>, free': seq<nat>, tables': set<nat>) {
    forall z :: Growing(z) ==>
      && m' == WithPages(m, lo, taken, perm)
      && Distinct(taken) && (forall p :: p in taken ==> Spare(p, free', tables'))
      && Elements(free') + tables' + Elements(taken) == Elements(free) + tables && tables <= tables'
  }

  lemma GrownNothing(m: map<nat, nat>, free: seq<nat>, tables: set<nat>, lo: nat, perm: nat)
    ensures Grown(m, free, tables, lo, [], perm, m, free, tables)
  {
  }

  lemma GrownNext(m: map<nat, nat>, free: seq<nat>, tables: set<nat>, lo: nat, taken: seq<nat>, perm: nat,
                  m': map<nat, nat>, free': seq<nat>, tables': set<nat>)
    requires Grown(m, free, tables, lo, taken, perm, m', free', tables')
    ensures At(m', lo + |taken|) == At(m, lo + |taken|)
  {
    assert Growing(0);
    WithPagesAt(m, lo, taken, perm, lo + |taken|);
  }

  lemma GrownMeans(m: map<nat, nat>, free: seq<nat>, tables: set<nat>, lo: nat, taken: seq<nat>, perm: nat,
                   m': map<nat, nat>, free': seq<nat>, tables': set<nat>)
    requires Grown(m, free, tables, lo, taken, perm, m', free', tables') && perm < 1024
    ensures Distinct(taken) && forall p :: p in taken ==> p in free
    ensures PagesAdded(m, m', lo, taken, perm)
  {
    assert Growing(0);
    forall p | p in taken ensures p in free {
      assert p in Elements(free) + tables && p !in tables';
    }
    PagesMean(m, lo, taken, perm);
  }

  /** Another page is taken off the free list and mapped; page tables may be needed for it. */
  lemma GrownMore(m: map<nat, nat>, free: seq<nat>, tables: set<nat>, lo: nat, taken: seq<nat>, perm: nat,
                  m1: map<nat, nat>, free1: seq<nat>, tables1: set<nat>,
                  m2: map<nat, nat>, free2: seq<nat>, tables2: set<nat>)
    requires Grown(m, free, tables, lo, taken, perm, m1, free1, tables1)
    requires free1 != [] && FreeOk(free1, tables1) && Drawn(free1[1..], tables1, free2, tables2)
    requires m2 == m1[lo + |taken| := PteFor(free1[0], perm)]
    ensures Grown(m, free, tables, lo, taken + [free1[0]], perm, m2, free2, tables2)
  {
    assert Growing(0);
    assert Drawing(0);
    var p := free1[0];
    assert free1 == [p] + free1[1..];
    assert Elements(free1) == {p} + Elements(free1[1..]);
    assert Elements(taken + [p]) == Elements(taken) + {p};
    assert (taken + [p])[..|taken|] == taken;
    forall q | q in taken + [p] ensures Spare(q, free2, tables2) {
      if q in taken {
        assert q !in free1 && q !in tables1;
        assert q !in Elements(free1[1..]) + tables1;
      } else {
        assert p !in free1[1..];
        assert p !in Elements(free1[1..]) + tables1;
      }
      assert q !in Elements(free2) + tables2;
    }
  }

  /** A page is taken off the free list but cannot be mapped, and goes back. */
  lemma GrownBack(m: map<nat, nat>, free: seq<nat>, tables: set<nat>, lo: nat, taken: seq<nat>, perm: nat,
                  m1: map<nat, nat>, free1: seq<nat>, tables1: set<nat>, free2: seq<nat>, tables2: set<nat>)
    requires Grown(m, free, tables, lo, taken, perm, m1, free1, tables1)
    requires free1 != [] && FreeOk(free1, tables1) && Drawn(free1[1..], tables1, free2, tables2)
    requires FreeOk(free2, tables2)
    ensures Grown(m, free, tables, lo, taken, perm, m1, [free1[0]] + free2, tables2)
    ensures FreeOk([free1[0]] + free2, tables2)
  {
    assert Growing(0);
    assert Drawing(0);
    var p := free1[0];
    assert free1 == [p] + free1[1..];
    assert Elements(free1) == {p} + Elements(free1[1..]);
    assert Elements([p] + free2) == {p} + Elements(free2);
    assert p !in free1[1..] && p !in Elements(free1[1..]) + tables1;
    assert p !in Elements(free2) + tables2;
    FreePushes(free2, tables2, p);
    forall q | q in taken ensures Spare(q, [p] + free2, tables2) {
      assert q !in Elements(free1) + tables1;
      assert q !in Elements(free2) + tables2;
    }
  }

  /** What has been mapped can be unmapped and freed, and that undoes everything. */
  lemma GrownUndone(m: map<nat, nat>, free: seq<nat>, tables: set<nat>, lo: nat, taken: seq<nat>, perm: nat,
                    m': map<nat, nat>, free': seq<nat>, tables': set<nat>)
    requires Grown(m, free, tables, lo, taken, perm, m', free', tables') && 0 < perm < 1024 && perm % 2 == 0
    ensures Freeable(m', lo, |taken|, free', tables') && AllRemovable(m', lo, |taken|)
    ensures Without(m', lo, |taken|) == Without(m, lo, |taken|)
    ensures Elements(PagesOf(m', lo, |taken|) + free') + tables' == Elements(free) + tables
  {
    assert Growing(0);
    forall v | lo <= v < lo + |taken| ensures At(m', v) == PteFor(taken[v - lo], perm)
                                           && Pte2Pa(At(m', v)) == taken[v - lo] && Removable(At(m', v)) {
      assert taken[v - lo] in taken;
      WithPagesAt(m, lo, taken, perm, v);
      PteForMeans(taken[v - lo], perm);
    }
    WithoutWith(m, lo, taken, perm);
    PagesOfTaken(m', lo, taken);
  }

  lemma WithoutWith(m: map<nat, nat>, lo: nat, taken: seq<nat>, perm: nat)
    ensures Without(WithPages(m, lo, taken, perm), lo, |taken|) == Without(m, lo, |taken|)
  {
    var w := WithPages(m, lo, taken, perm);
    forall v ensures v in Without(w, lo, |taken|) <==> v in Without(m, lo, |taken|) {
      WithoutKeys(w, lo, |taken|, v);
      WithoutKeys(m, lo, |taken|, v);
      WithPagesKeys(m, lo, taken, perm, v);
    }
    forall v | v in Without(m, lo, |taken|) ensures Without(w, lo, |taken|)[v] == Without(m, lo, |taken|)[v] {
      WithoutAt(w, lo, |taken|, v);
      WithoutAt(m, lo, |taken|, v);
      WithPagesAt(m, lo, taken, perm, v);
      WithoutKeys(w, lo, |taken|, v);
    }
  }

  /** None of the `n` pages from `lo` is valid. */
  ghost predicate NoneValid(m: map<nat, nat>, lo: nat, n: nat) {
    forall v: nat :: lo <= v < lo + n ==> !IsValid(At(m, v))
  }

  /** None of them has a leaf at all. */
  ghost predicate Vacant(m: map<nat, nat>, lo: nat, n: nat) {
    forall v: nat :: lo <= v < lo + n ==> v !in m
  }

  /** Removing a range changes nothing exactly when nothing is in it. */
  lemma UnchangedIff(m: map<nat, nat>, lo: nat, n: nat)
    ensures Without(m, lo, n) == m <==> Vacant(m, lo, n)
  {
    RemovedMeans(m, lo, n);
  }

  /** Of the pages that were free, all but at most one are mapped or have become page tables. */
  ghost predicate UsedUp(free: seq<nat>, tables: set<nat>, taken: seq<nat>) {
    forall p, q :: p in free && q in free && p !in tables && q !in tables && p !in taken && q !in taken ==> p == q
  }

  lemma GrownUsesUp(m: map<nat, nat>, free: seq<nat>, tables: set<nat>, lo: nat, taken: seq<nat>, perm: nat,
                    m': map<nat, nat>, free': seq<nat>, tables': set<nat>)
    requires Grown(m, free, tables, lo, taken, perm, m', free', tables') && |free'| <= 1
    ensures UsedUp(free, tables', taken)
  {
    assert Growing(0);
    forall p | p in free && p !in tables' && p !in taken ensures p in free' {
      assert p in Elements(free) + tables;
    }
  }

  lemma {:induction false} WithoutKeys(m: map<nat, nat>, lo: nat, n: nat, v: nat)
    ensures v in Without(m, lo, n) <==> v in m && !(lo <= v < lo + n)
  {
    if n > 0 {
      WithoutKeys(m, lo, n - 1, v);
    }
  }

  lemma {:induction false} WithPagesKeys(m: map<nat, nat>, lo: nat, taken: seq<nat>, perm: nat, v: nat)
    ensures v in WithPages(m, lo, taken, perm) <==> v in m || lo <= v < lo + |taken|
    decreases |taken|
  {
    if taken != [] {
      WithPagesKeys(m, lo, taken[..|taken| - 1], perm, v);
    }
  }

  lemma {:induction false} PagesOfTaken(m: map<nat, nat>, lo: nat, taken: seq<nat>)
    requires forall v :: lo <= v < lo + |taken| ==> IsValid(At(m, v)) && Pte2Pa(At(m, v)) == taken[v - lo]
    ensures Elements(PagesOf(m, lo, |taken|)) == Elements(taken)
    decreases |taken|
  {
    if taken != [] {
      var n := |taken| - 1;
      PagesOfTaken(m, lo, taken[..n]);
      assert Elements(taken) == Elements(taken[..n]) + {taken[n]};
      assert PagesOf(m, lo, n + 1) == [taken[n]] + PagesOf(m, lo, n);
    }
  }

  ghost predicate Removing(z: int) { true }

  /** `m'` is `m` without the `n` pages from `lo`, whose pages and slots are as given. To be opened by
      mentioning `Removing`. */
  ghost predicate Removed(m: map<nat, nat>, m': map<nat, nat>, lo: nat, n: nat, pages: seq<nat>, slots: seq<nat>) {
    forall z :: Removing(z) ==>
      m' == Without(m, lo, n) && pages == PagesOf(m, lo, n) && slots == SlotsOf(m, lo, n) && AllRemovable(m, lo, n)
  }

  lemma RemovedNext(m: map<nat, nat>, m': map<nat, nat>, lo: nat, n: nat, pages: seq<nat>, slots: seq<nat>)
    requires Removed(m, m', lo, n, pages, slots)
    ensures At(m', lo + n) == At(m, lo + n)
  {
    assert Removing(0);
    WithoutAt(m, lo, n, lo + n);
  }

  lemma RemovedMore(m: map<nat, nat>, m': map<nat, nat>, m'': map<nat, nat>, lo: nat, n: nat,
                    pages: seq<nat>, slots: seq<nat>, pages': seq<nat>, slots': seq<nat>)
    requires Removed(m, m', lo, n, pages, slots) && m'' == m' - {lo + n} && Removable(At(m, lo + n))
    requires pages' == PageAt(At(m, lo + n)) + pages && slots' == SlotAt(At(m, lo + n)) + slots
    ensures Removed(m, m'', lo, n + 1, pages', slots')
  {
  }

  lemma AgreeSet(s: Tree, t: Tree, m: map<nat, nat>, v: nat, pte: nat)
    requires Agree(s, m) && v < VPNS && forall w: nat :: Leaf(t, w) == if w == v then pte else Leaf(s, w)
    ensures Agree(t, Updated(m, v, pte))
  {
  }

  lemma FreeableFirst(m: map<nat, nat>, lo: nat, n: nat, free: seq<nat>, tables: set<nat>)
    requires n > 0 && Freeable(m, lo, n, free, tables)
    ensures IsValid(At(m, lo)) ==> Spare(Pte2Pa(At(m, lo)), free, tables)
  {
    assert Sparing(0);
  }

  lemma FreeableRest(m: map<nat, nat>, lo: nat, n: nat, free: seq<nat>, free': seq<nat>, tables: set<nat>)
    requires n > 0 && Freeable(m, lo, n, free, tables) && free' == PageAt(At(m, lo)) + free
    ensures Freeable(m, lo + 1, n - 1, free', tables)
  {
  }

  lemma PushAssoc(a: seq<nat>, b: seq<nat>, c: seq<nat>)
    ensures a + (b + c) == (a + b) + c
  {
  }

  lemma PageNumber(va: nat, n: nat)
    ensures (va + n * PGSIZE) / PGSIZE == va / PGSIZE + n
  {
  }

  ghost function WholePages(size: nat): (n: nat)
    requires size % PGSIZE == 0
    ensures size == n * PGSIZE && n == size / PGSIZE
  {
    size / PGSIZE
  }

  // -------- Freeing the tree --------

  /** One of PTE_R, PTE_W, PTE_X is set. */
  predicate Leafy(pte: nat) { pte / 2 % 8 != 0 }

  /** A well-formed tree with no valid leaf left. To be opened by mentioning `Inside`. */
  ghost predicate Emptied(s: Tree) {
    forall z :: Inside(z) ==> Inv(s) && forall v: nat :: !IsValid(Leaf(s, v))
  }

  predicate IsAt(n: Node, level: nat, idx: nat) {
    n == if level == 2 then Root else if level == 1 then Mid(idx) else Low(idx)
  }

  /** Node `n` is in the subtree for `idx` at `level`. */
  predicate Under(n: Node, level: nat, idx: nat) {
    match n
    case Root => level >= 2
    case Mid(i) => level >= 2 || (level == 1 && i == idx)
    case Low(k) => level >= 2 || (level == 1 && k / 512 == idx) || (level == 0 && k == idx)
  }

  function Child(level: nat, idx: nat, i: nat): nat {
    if level == 2 then i else idx * 512 + i
  }

  /** The page-table pages of a subtree. */
  ghost function Sub(s: Tree, level: nat, idx: nat): (r: set<nat>)
    ensures forall p :: p in r <==> p in s.mem && p in s.node && Under(s.node[p], level, idx)
  {
    set p | p in s.mem && p in s.node && Under(s.node[p], level, idx)
  }

  /** The entry of the page for `level` that leads to node `n` below it. */
  function EntryOf(n: Node, level: nat): nat {
    match n
    case Root => 0
    case Mid(i) => i
    case Low(k) => if level == 2 then k / 512 else k % 512
  }

  /** Those under its first `i` entries. */
  ghost function Before(s: Tree, level: nat, idx: nat, i: nat): (r: set<nat>)
    ensures forall p :: p in r <==>
              p in Sub(s, level, idx) && !IsAt(s.node[p], level, idx) && EntryOf(s.node[p], level) < i
  {
    set p | p in Sub(s, level, idx) && !IsAt(s.node[p], level, idx) && EntryOf(s.node[p], level) < i
  }

  /** The pages in `gone` have left `m`; of the others only `p` may have changed. */
  ghost predicate Freed(m: map<nat, seq<nat>>, m': map<nat, seq<nat>>, p: nat, gone: set<nat>) {
    m'.Keys == m.Keys - gone && forall q :: q in m' && q != p ==> m'[q] == m[q]
  }

  lemma SelfInSub(s: Tree, p: nat, level: nat, idx: nat)
    requires Emptied(s) && level <= 2 && p in s.mem && p in s.node && IsAt(s.node[p], level, idx)
    ensures p in Sub(s, level, idx) && |s.mem[p]| == 512 && GoodPage(p) && Before(s, level, idx, 0) == {}
    ensures forall q :: q in s.mem && q in s.node && IsAt(s.node[q], level, idx) ==> q == p
  {
    assert Inside(0);
    assert PageOk(s, p);
    forall q | q in s.mem && q in s.node && IsAt(s.node[q], level, idx) ensures q == p {
      assert PageOk(s, q);
    }
  }

  /** A valid entry of a page above the leaves is a link to the page below it, and an invalid one
      has nothing below it. */
  lemma ChildMeans(s: Tree, p: nat, level: nat, idx: nat, i: nat)
    requires Emptied(s) && level <= 2 && p in s.mem && p in s.node && IsAt(s.node[p], level, idx)
    requires i < 512 && |s.mem[p]| == 512
    ensures var pte := s.mem[p][i];
      && (level == 0 ==> !IsValid(pte))
      && (IsValid(pte) ==> !Leafy(pte) && Pte2Pa(pte) in s.mem && Pte2Pa(pte) in s.node && level > 0
                           && IsAt(s.node[Pte2Pa(pte)], level - 1, Child(level, idx, i)))
      && (!IsValid(pte) && level > 0 ==> Sub(s, level - 1, Child(level, idx, i)) == {})
  {
    assert Inside(0);
    assert PageOk(s, p);
    if level == 0 {
      LeafEntry(s, idx, i);
    } else if level == 2 {
      assert RootOk(s, i) && MidOk(s, i);
      if i in s.mid {
        assert PageOk(s, s.mid[i]);
        LinkMeans(s.mid[i]);
        LinkIsLink(s.mid[i]);
      } else {
        forall q | q in s.mem && q in s.node ensures !Under(s.node[q], 1, i) {
          assert PageOk(s, q);
          if s.node[q].Low? { assert EntryOk(s, s.node[q].k); }
        }
      }
    } else {
      var k := idx * 512 + i;
      assert MidOk(s, idx) && EntryOk(s, k);
      if k in s.low {
        assert PageOk(s, s.low[k]);
        LinkMeans(s.low[k]);
        LinkIsLink(s.low[k]);
      } else {
        forall q | q in s.mem && q in s.node ensures !Under(s.node[q], 0, k) {
          assert PageOk(s, q);
        }
      }
    }
  }

  lemma LeafEntry(s: Tree, k: nat, i: nat)
    requires Emptied(s) && i < 512 && k in s.low && s.low[k] in s.mem && |s.mem[s.low[k]]| == 512
    ensures !IsValid(s.mem[s.low[k]][i])
  {
    assert Inside(0);
    var v := k * 512 + i;
    assert v / 512 == k && v % 512 == i;
    assert !IsValid(Leaf(s, v));
  }

  lemma LinkIsLink(p: nat)
    ensures !Leafy(WithV(Pa2Pte(p)))
  {
    EvenPte(p);
    var q := p / 4096 * 64;
    assert WithV(Pa2Pte(p)) == 16 * q + 1;
    assert (16 * q + 1) / 2 == 8 * q;
  }

  lemma BeforeGrows(s: Tree, level: nat, idx: nat, i: nat)
    requires level <= 2
    ensures level == 0 ==> Before(s, level, idx, i + 1) == Before(s, level, idx, i)
    ensures level > 0 && i < 512 ==>
              Before(s, level, idx, i + 1) == Before(s, level, idx, i) + Sub(s, level - 1, Child(level, idx, i))
    ensures level > 0 && i < 512 ==> Before(s, level, idx, i) !! Sub(s, level - 1, Child(level, idx, i))
  {
    forall p | level > 0 && i < 512 && p in s.mem && p in s.node
      ensures Under(s.node[p], level - 1, Child(level, idx, i)) <==>
              Under(s.node[p], level, idx) && !IsAt(s.node[p], level, idx) && EntryOf(s.node[p], level) == i {
    }
  }

  lemma SubStillThere(s: Tree, m: map<nat, seq<nat>>, m': map<nat, seq<nat>>, p: nat, level: nat, idx: nat, i: nat)
    requires 0 < level <= 2 && i < 512 && p in s.node && IsAt(s.node[p], level, idx)
    requires Freed(m, m', p, Before(s, level, idx, i))
    requires forall q :: q in Sub(s, level, idx) ==> q in m && m[q] == s.mem[q]
    ensures forall q :: q in Sub(s, level - 1, Child(level, idx, i)) ==> q in m' && m'[q] == s.mem[q]
  {
    forall q | q in Sub(s, level - 1, Child(level, idx, i)) ensures q in m' && m'[q] == s.mem[q] {
      assert q in Sub(s, level, idx) && EntryOf(s.node[q], level) == i && q != p;
    }
  }

  lemma SubIsBefore(s: Tree, p: nat, level: nat, idx: nat)
    requires Emptied(s) && level <= 2 && p in s.mem && p in s.node && IsAt(s.node[p], level, idx)
    ensures Sub(s, level, idx) == Before(s, level, idx, 512) + {p} && p !in Before(s, level, idx, 512)
  {
    SelfInSub(s, p, level, idx);
    assert Inside(0);
    forall q | q in Sub(s, level, idx) && q != p ensures q in Before(s, level, idx, 512) {
      assert PageOk(s, q);
      match s.node[q] {
        case Root =>
        case Mid(i) => assert MidOk(s, i);
        case Low(k) => assert EntryOk(s, k) && MidOk(s, k / 512);
      }
    }
  }
}
