/** The K&R allocator of user/umalloc.c. Addresses count units of
    `sizeof(Header)`; a block is named by the address of its header. */
module Umalloc {
  import opened Counting

  datatype Header = Header(ptr: int, size: int)

  type Memory = map<int, Header>

  /** The static header `base` lies below everything `sbrk` returns. */
  const BASE: int := 0

  // -------- The free list --------

  function Next(ring: seq<int>, i: nat): int
    requires i < |ring|
  {
    if i + 1 < |ring| then ring[i + 1] else ring[0]
  }

  /** `ring` is the free list from `base` on: one cycle in address order, each
      block ending strictly before the next begins, so no two touch. */
  ghost predicate FreeList(m: Memory, ring: seq<int>) {
    Linked(m, ring) && Spaced(m, ring)
  }

  ghost predicate Linked(m: Memory, ring: seq<int>) {
    && |ring| > 0 && ring[0] == BASE
    && (forall i :: 0 <= i < |ring| ==> ring[i] in m)
    && (forall i :: 0 <= i < |ring| ==> LinkAt(m, ring, i))
  }

  ghost predicate LinkAt(m: Memory, ring: seq<int>, i: nat)
    requires i < |ring| && ring[i] in m
  {
    m[ring[i]].ptr == Next(ring, i)
  }

  ghost predicate Spaced(m: Memory, ring: seq<int>)
    requires Linked(m, ring)
  {
    && m[BASE].size == 0
    && (forall i :: 1 <= i < |ring| ==> m[ring[i]].size > 0)
    && (forall i, j :: 0 <= i < j < |ring| ==> ring[i] + m[ring[i]].size < ring[j])
  }

  /** The list position after which block `b` belongs. */
  ghost predicate Place(ring: seq<int>, b: int, t: nat) {
    t < |ring| && ring[t] < b && (t + 1 < |ring| ==> b < ring[t + 1])
  }

  lemma {:induction false} PlaceExists(ring: seq<int>, b: int, n: nat) returns (t: nat)
    requires 0 < n <= |ring| && ring[0] < b && b !in ring
    requires forall i, j :: 0 <= i < j < |ring| ==> ring[i] < ring[j]
    requires n < |ring| ==> b < ring[n]
    ensures Place(ring, b, t)
  {
    if ring[n - 1] < b { t := n - 1; } else { t := PlaceExists(ring, b, n - 1); }
  }

  lemma FreeListFrame(m: Memory, m': Memory, ring: seq<int>)
    requires FreeList(m, ring)
    requires forall i :: 0 <= i < |ring| ==> ring[i] in m' && m'[ring[i]] == m[ring[i]]
    ensures FreeList(m', ring)
  {
    forall i | 0 <= i < |ring| ensures LinkAt(m', ring, i) {
      assert LinkAt(m, ring, i);
    }
  }

  function Without(ring: seq<int>, k: nat): seq<int>
    requires k < |ring|
  {
    ring[..k] + ring[k + 1..]
  }

  function Inserted(ring: seq<int>, k: nat, b: int): seq<int>
    requires k <= |ring|
  {
    ring[..k] + [b] + ring[k..]
  }

  lemma Ascending(m: Memory, ring: seq<int>, i: nat, j: nat)
    requires FreeList(m, ring) && i < |ring| && j < |ring|
    ensures i < j ==> ring[i] < ring[j]
    ensures ring[i] == ring[j] ==> i == j
  {
  }

  lemma SpacedAt(m: Memory, ring: seq<int>, i: nat, j: nat)
    requires FreeList(m, ring) && i < |ring| && j < |ring|
    ensures i < j ==> ring[i] + m[ring[i]].size < ring[j]
    ensures i > 0 ==> m[ring[i]].size > 0
  {
  }

  function After(k: nat, i: nat): nat {
    if i < k then i else i + 1
  }

  lemma WithoutAt(ring: seq<int>, k: nat)
    requires k < |ring|
    ensures |Without(ring, k)| == |ring| - 1
    ensures forall i :: 0 <= i < |ring| - 1 ==> Without(ring, k)[i] == ring[After(k, i)]
  {
  }

  lemma LinkedRemove(m: Memory, ring: seq<int>, t: nat)
    requires FreeList(m, ring) && t + 1 < |ring|
    ensures m[ring[t + 1]].ptr == Next(Without(ring, t + 1), t)
    ensures Linked(m[ring[t] := Header(m[ring[t + 1]].ptr, m[ring[t]].size)], Without(ring, t + 1))
  {
    var r, k := Without(ring, t + 1), t + 1;
    WithoutAt(ring, k);
    var m' := m[ring[t] := Header(m[ring[k]].ptr, m[ring[t]].size)];
    assert LinkAt(m, ring, t + 1);
    forall i | 0 <= i < |r| ensures r[i] in m' && LinkAt(m', r, i) {
      Ascending(m, ring, After(k, i), t);
      assert LinkAt(m, ring, After(k, i));
    }
  }

  /** Unlinking the block behind `ring[t]`. */
  lemma ListRemove(m: Memory, ring: seq<int>, t: nat)
    requires FreeList(m, ring) && t + 1 < |ring|
    ensures m[ring[t + 1]].ptr == Next(Without(ring, t + 1), t)
    ensures FreeList(m[ring[t] := Header(m[ring[t + 1]].ptr, m[ring[t]].size)], Without(ring, t + 1))
  {
    LinkedRemove(m, ring, t);
    WithoutAt(ring, t + 1);
    var r, m' := Without(ring, t + 1), m[ring[t] := Header(m[ring[t + 1]].ptr, m[ring[t]].size)];
    assert forall x :: x in m ==> m'[x].size == m[x].size;
    forall i, j | 0 <= i < j < |r| ensures r[i] + m'[r[i]].size < r[j] {
      SpacedAt(m, ring, After(t + 1, i), After(t + 1, j));
    }
    forall i | 1 <= i < |r| ensures m'[r[i]].size > 0 {
      SpacedAt(m, ring, After(t + 1, i), After(t + 1, i));
    }
  }

  lemma InsertedAt(ring: seq<int>, k: nat, b: int)
    requires k <= |ring|
    ensures |Inserted(ring, k, b)| == |ring| + 1 && Inserted(ring, k, b)[k] == b
    ensures forall i :: 0 <= i <= |ring| && i != k ==> Inserted(ring, k, b)[i] == ring[if i < k then i else i - 1]
  {
  }

  lemma LinkedInsert(m: Memory, ring: seq<int>, t: nat, b: int, size: int)
    requires FreeList(m, ring) && Place(ring, b, t) && b !in ring
    ensures Linked(m[b := Header(Next(ring, t), size)][ring[t] := Header(b, m[ring[t]].size)], Inserted(ring, t + 1, b))
  {
    var r, k := Inserted(ring, t + 1, b), t + 1;
    InsertedAt(ring, k, b);
    var m' := m[b := Header(Next(ring, t), size)][ring[t] := Header(b, m[ring[t]].size)];
    forall i | 0 <= i < |r| ensures r[i] in m' && LinkAt(m', r, i) {
      if i != k {
        var j := if i < k then i else i - 1;
        Ascending(m, ring, j, t);
        assert LinkAt(m, ring, j);
      }
    }
  }

  /** Two neighbours-to-be on either side of `b`, or `b` and one of them. */
  lemma SpacedInsert(m: Memory, ring: seq<int>, t: nat, b: int, size: int, i: nat, j: nat)
    requires FreeList(m, ring) && t < |ring| && i < |ring| && j < |ring|
    requires ring[t] + m[ring[t]].size < b && (t + 1 < |ring| ==> b + size < ring[t + 1])
    ensures i <= t ==> ring[i] + m[ring[i]].size < b
    ensures t < j ==> b + size < ring[j]
    ensures i < j ==> ring[i] + m[ring[i]].size < ring[j]
  {
  }

  /** Linking block `b` in behind `ring[t]`, without touching a neighbour. */
  lemma ListInsert(m: Memory, ring: seq<int>, t: nat, b: int, size: int)
    requires FreeList(m, ring) && Place(ring, b, t) && b !in ring && size > 0
    requires ring[t] + m[ring[t]].size < b && (t + 1 < |ring| ==> b + size < ring[t + 1])
    ensures FreeList(m[b := Header(Next(ring, t), size)][ring[t] := Header(b, m[ring[t]].size)],
                     Inserted(ring, t + 1, b))
  {
    var r := Inserted(ring, t + 1, b);
    LinkedInsert(m, ring, t, b, size);
    var m' := m[b := Header(Next(ring, t), size)][ring[t] := Header(b, m[ring[t]].size)];
    forall i, j | 0 <= i < j < |r| ensures r[i] + m'[r[i]].size < r[j] {
      InsertSpaced(m, ring, t, b, size, i, j);
    }
    forall i | 1 <= i < |r| ensures m'[r[i]].size > 0 {
      InsertSpaced(m, ring, t, b, size, i, i);
    }
    InsertSpaced(m, ring, t, b, size, 0, 0);
  }

  /** Blocks `i` and `j` of the new list. */
  lemma InsertSpaced(m: Memory, ring: seq<int>, t: nat, b: int, size: int, i: nat, j: nat)
    requires FreeList(m, ring) && Place(ring, b, t) && b !in ring && size > 0
    requires ring[t] + m[ring[t]].size < b && (t + 1 < |ring| ==> b + size < ring[t + 1])
    requires i < |Inserted(ring, t + 1, b)| && j < |Inserted(ring, t + 1, b)|
    ensures var r := Inserted(ring, t + 1, b);
            var m' := m[b := Header(Next(ring, t), size)][ring[t] := Header(b, m[ring[t]].size)];
            && r[i] in m' && (i < j ==> r[i] + m'[r[i]].size < r[j])
            && (if i == 0 then r[i] == BASE && m'[r[i]].size == 0 else m'[r[i]].size > 0)
  {
    InsertedAt(ring, t + 1, b);
    var i' := if i <= t then i else if i == t + 1 then t else i - 1;
    var j' := if j <= t then j else if j == t + 1 then t else j - 1;
    SpacedInsert(m, ring, t, b, size, i', j');
    SpacedAt(m, ring, i', i');
    assert ring[i'] in ring && ring[i'] != b;
  }

  /** Growing or shrinking a free block. */
  lemma ListResize(m: Memory, ring: seq<int>, t: nat, size: int)
    requires FreeList(m, ring) && 1 <= t < |ring| && size > 0
    requires t + 1 < |ring| ==> ring[t] + size < ring[t + 1]
    ensures FreeList(m[ring[t] := Header(m[ring[t]].ptr, size)], ring)
  {
    assert forall i :: t + 1 <= i < |ring| ==> ring[t] + size < ring[i];
    var m' := m[ring[t] := Header(m[ring[t]].ptr, size)];
    forall i | 0 <= i < |ring| ensures LinkAt(m', ring, i) {
      Ascending(m, ring, i, t);
      assert LinkAt(m, ring, i);
    }
  }

  // -------- Blocks tile the heap --------

  /** Which block each unit of the heap belongs to. Every unit lies in the block it
      is assigned to, and every block has exactly the units assigned to it. */
  ghost predicate Tiles(blocks: map<int, int>, owner: map<int, int>) {
    && (forall h :: h in blocks ==> blocks[h] > 0)
    && (forall x :: x in owner ==> owner[x] in blocks && owner[x] <= x < owner[x] + blocks[owner[x]])
    && (forall h, x :: h in blocks && h <= x < h + blocks[h] ==> x in owner && owner[x] == h)
  }

  /** A marker: tilings are looked into only where this is mentioned. */
  ghost predicate Inside(z: int) {
    true
  }

  ghost predicate Tiled(blocks: map<int, int>, owner: map<int, int>) {
    forall z :: Inside(z) ==> Tiles(blocks, owner)
  }

  /** The units from `lo` up to `hi` now belong to block `h`. */
  ghost function Relabel(owner: map<int, int>, lo: int, hi: int, h: int): map<int, int> {
    map x | x in owner :: if lo <= x < hi then h else owner[x]
  }

  lemma Apart(blocks: map<int, int>, owner: map<int, int>, g: int, h: int)
    requires Tiled(blocks, owner) && g in blocks && h in blocks && g < h
    ensures g + blocks[g] <= h
  {
    assert Inside(0);
    assert owner[h] == h;
  }

  /** What tiling means, without the bookkeeping: the heap is the disjoint union of the blocks. */
  lemma TilesMeans(blocks: map<int, int>, owner: map<int, int>)
    requires Tiled(blocks, owner)
    ensures forall x :: x in owner <==> exists h :: h in blocks && h <= x < h + blocks[h]
    ensures forall g, h :: g in blocks && h in blocks && g < h ==> g + blocks[g] <= h
  {
    assert Inside(0);
    forall g, h | g in blocks && h in blocks && g < h ensures g + blocks[g] <= h {
      Apart(blocks, owner, g, h);
    }
  }

  /** The block at `a` is cut in two. */
  lemma TilesSplit(blocks: map<int, int>, owner: map<int, int>, a: int, rest: int, n: int)
    requires Tiled(blocks, owner) && a in blocks && rest > 0 && n > 0 && rest + n == blocks[a]
    ensures Tiled(blocks[a := rest][a + rest := n], Relabel(owner, a + rest, a + rest + n, a + rest))
  {
    var b, o := blocks[a := rest][a + rest := n], Relabel(owner, a + rest, a + rest + n, a + rest);
    forall h | h in b ensures b[h] > 0 {
      if h in blocks { SplitBlock(blocks, owner, a, rest, n, h, h); }
    }
    forall x | x in o ensures o[x] in b && o[x] <= x < o[x] + b[o[x]] {
      SplitUnit(blocks, owner, a, rest, n, x);
    }
    forall h, x | h in b && h <= x < h + b[h] ensures x in o && o[x] == h {
      SplitBlock(blocks, owner, a, rest, n, h, x);
    }
    IsTiled(b, o);
  }

  lemma IsTiled(blocks: map<int, int>, owner: map<int, int>)
    requires Tiles(blocks, owner)
    ensures Tiled(blocks, owner)
  {
  }

  /** Every unit is in the part it is assigned to. */
  lemma SplitUnit(blocks: map<int, int>, owner: map<int, int>, a: int, rest: int, n: int, x: int)
    requires Tiled(blocks, owner) && a in blocks && rest > 0 && n > 0 && rest + n == blocks[a] && x in owner
    ensures var b, o := blocks[a := rest][a + rest := n], Relabel(owner, a + rest, a + rest + n, a + rest);
            o[x] in b && o[x] <= x < o[x] + b[o[x]]
  {
    assert Inside(0);
    assert a + rest in owner && owner[a + rest] == a;
    assert owner[x] in blocks;
  }

  /** Every unit of a part is assigned to it. */
  lemma SplitBlock(blocks: map<int, int>, owner: map<int, int>, a: int, rest: int, n: int, h: int, x: int)
    requires Tiled(blocks, owner) && a in blocks && rest > 0 && n > 0 && rest + n == blocks[a]
    requires h in blocks || h == a + rest
    ensures h in blocks ==> blocks[h] > 0
    ensures h <= x < h + blocks[a := rest][a + rest := n][h] ==>
              x in owner && Relabel(owner, a + rest, a + rest + n, a + rest)[x] == h
  {
    assert Inside(0);
    assert a + rest in owner && owner[a + rest] == a;
    if h <= x < h + blocks[a := rest][a + rest := n][h] {
      assert x in owner && owner[x] == if h == a + rest then a else h;
    }
  }

  /** `n` units from `x` on, all in block `h`. */
  ghost function Units(x: int, n: nat, h: int): (r: map<int, int>)
    ensures forall y :: y in r <==> x <= y < x + n
    ensures forall y :: y in r ==> r[y] == h
  {
    if n == 0 then map[] else Units(x, n - 1, h)[x + n - 1 := h]
  }

  /** `sbrk` hands out a new block beyond the heap. */
  lemma TilesGrow(blocks: map<int, int>, owner: map<int, int>, h: int, size: int)
    requires Tiled(blocks, owner) && size > 0 && forall x :: x in owner ==> x < h
    ensures Tiled(blocks[h := size], owner + Units(h, size, h))
  {
  }

  // -------- The heap as a whole --------

  datatype Heap = Heap(
    m: Memory,
    /** The free list. */
    ring: seq<int>,
    /** The blocks handed out and not yet freed, with their sizes. */
    live: map<int, int>,
    /** All blocks with their sizes. */
    blocks: map<int, int>,
    owner: map<int, int>)

  /** The blocks are the free ones (all of the list but `base`) and the live ones. */
  ghost predicate Matches(h: Heap) {
    && (forall b :: b in h.blocks ==> b in h.m && h.m[b].size == h.blocks[b] > 0 && b > BASE)
    && (forall b :: b in h.live ==> b in h.blocks && h.live[b] == h.blocks[b] && b !in h.ring)
    && (forall b :: b in h.ring ==> b == BASE || b in h.blocks)
    && (forall b :: b in h.blocks ==> b in h.live || b in h.ring)
  }

  ghost predicate Inv(h: Heap) {
    FreeList(h.m, h.ring) && Tiled(h.blocks, h.owner) && Matches(h)
  }

  /** A live block and its would-be neighbours in the list do not overlap. */
  lemma Fits(h: Heap, bp: int, t: nat)
    requires Inv(h) && bp in h.live && Place(h.ring, bp, t)
    ensures h.ring[t] + h.m[h.ring[t]].size <= bp
    ensures t + 1 < |h.ring| ==> bp + h.m[bp].size <= h.ring[t + 1]
    ensures h.ring[t] + h.m[h.ring[t]].size == bp ==> t > 0
  {
    assert h.ring[t] in h.ring;
    if h.ring[t] != BASE { Apart(h.blocks, h.owner, h.ring[t], bp); }
    if t + 1 < |h.ring| {
      assert h.ring[t + 1] in h.ring;
      Ascending(h.m, h.ring, 0, t + 1);
      Apart(h.blocks, h.owner, bp, h.ring[t + 1]);
    }
  }

  /** `bp` swallows the free block right behind it; it is still live. */
  ghost function SwallowedNext(h: Heap, bp: int, t: nat): Heap
    requires t + 1 < |h.ring| && h.ring[t] in h.m && h.ring[t + 1] in h.m && bp in h.m
  {
    var next := h.ring[t + 1];
    var size := h.m[bp].size + h.m[next].size;
    Heap(h.m[h.ring[t] := Header(h.m[next].ptr, h.m[h.ring[t]].size)][bp := Header(h.m[next].ptr, size)],
         Without(h.ring, t + 1),
         h.live[bp := size],
         (h.blocks - {next})[bp := size],
         Relabel(h.owner, next, next + h.m[next].size, bp))
  }

  lemma MembersWithout(ring: seq<int>, k: nat)
    requires k < |ring| && forall i, j :: 0 <= i < j < |ring| ==> ring[i] != ring[j]
    ensures forall b :: b in Without(ring, k) <==> b in ring && b != ring[k]
  {
  }

  lemma SwallowNextList(h: Heap, bp: int, t: nat)
    requires Inv(h) && bp in h.live && Place(h.ring, bp, t) && t + 1 < |h.ring|
    ensures FreeList(SwallowedNext(h, bp, t).m, Without(h.ring, t + 1)) && Place(Without(h.ring, t + 1), bp, t)
    ensures h.m[h.ring[t + 1]].ptr == Next(Without(h.ring, t + 1), t)
  {
    ListRemove(h.m, h.ring, t);
    WithoutAt(h.ring, t + 1);
    if t + 2 < |h.ring| { Ascending(h.m, h.ring, t + 1, t + 2); }
    var m1 := h.m[h.ring[t] := Header(h.m[h.ring[t + 1]].ptr, h.m[h.ring[t]].size)];
    assert bp !in h.ring;
    FreeListFrame(m1, SwallowedNext(h, bp, t).m, Without(h.ring, t + 1));
  }

  lemma SwallowNextMatches(h: Heap, bp: int, t: nat)
    requires Matches(h) && bp in h.live && t + 1 < |h.ring| && h.ring[t] in h.m && h.ring[t + 1] in h.m && bp in h.m
    requires h.ring[t + 1] != BASE && forall b :: b in Without(h.ring, t + 1) <==> b in h.ring && b != h.ring[t + 1]
    ensures Matches(SwallowedNext(h, bp, t))
  {
    assert h.ring[t + 1] in h.ring && h.ring[t] in h.ring;
  }

  /** The members of the list without one of them, which is not `base`. */
  lemma OneLess(h: Heap, k: nat)
    requires FreeList(h.m, h.ring) && 0 < k < |h.ring|
    ensures h.ring[k] in h.ring && h.ring[k] != BASE && h.ring[k - 1] != h.ring[k]
    ensures forall b :: b in Without(h.ring, k) <==> b in h.ring && b != h.ring[k]
  {
    Ascending(h.m, h.ring, 0, k);
    Ascending(h.m, h.ring, k - 1, k);
    forall i, j | 0 <= i < j < |h.ring| ensures h.ring[i] != h.ring[j] { Ascending(h.m, h.ring, i, j); }
    MembersWithout(h.ring, k);
  }

  lemma SwallowNextTiled(h: Heap, bp: int, t: nat)
    requires Tiled(h.blocks, h.owner) && t + 1 < |h.ring| && h.ring[t] in h.m && h.ring[t + 1] in h.m && bp in h.m
    requires bp in h.blocks && h.m[bp].size == h.blocks[bp] && bp + h.m[bp].size == h.ring[t + 1]
    requires h.ring[t + 1] in h.blocks && h.m[h.ring[t + 1]].size == h.blocks[h.ring[t + 1]]
    ensures Tiled(SwallowedNext(h, bp, t).blocks, SwallowedNext(h, bp, t).owner)
  {
  }

  lemma SwallowNext(h: Heap, bp: int, t: nat)
    requires Inv(h) && bp in h.live && Place(h.ring, bp, t)
    requires t + 1 < |h.ring| && bp + h.m[bp].size == h.ring[t + 1]
    ensures Inv(SwallowedNext(h, bp, t)) && Place(Without(h.ring, t + 1), bp, t)
    ensures h.m[h.ring[t + 1]].ptr == Next(Without(h.ring, t + 1), t)
  {
    SwallowNextList(h, bp, t);
    OneLess(h, t + 1);
    SwallowNextMatches(h, bp, t);
    assert h.ring[t + 1] in h.ring && h.ring[t + 1] in h.blocks;
    SwallowNextTiled(h, bp, t);
  }

  /** `bp` joins the list between two blocks it does not touch. */
  ghost function LinkedIn(h: Heap, bp: int, t: nat): Heap
    requires t < |h.ring| && h.ring[t] in h.m && bp in h.m
  {
    h.(m := h.m[bp := Header(Next(h.ring, t), h.m[bp].size)][h.ring[t] := Header(bp, h.m[h.ring[t]].size)],
       ring := Inserted(h.ring, t + 1, bp),
       live := h.live - {bp})
  }

  lemma LinkInMatches(h: Heap, bp: int, t: nat)
    requires Matches(h) && bp in h.live && t < |h.ring| && h.ring[t] in h.m && bp in h.m
    ensures Matches(LinkedIn(h, bp, t))
  {
  }

  lemma LinkIn(h: Heap, bp: int, t: nat)
    requires Inv(h) && bp in h.live && Place(h.ring, bp, t)
    requires h.ring[t] + h.m[h.ring[t]].size != bp && (t + 1 < |h.ring| ==> bp + h.m[bp].size != h.ring[t + 1])
    ensures Inv(LinkedIn(h, bp, t))
  {
    Fits(h, bp, t);
    ListInsert(h.m, h.ring, t, bp, h.m[bp].size);
    LinkInMatches(h, bp, t);
  }

  /** `bp` is swallowed by the free block right before it. */
  ghost function SwallowedByPrev(h: Heap, bp: int, t: nat): Heap
    requires t < |h.ring| && h.ring[t] in h.m && bp in h.m
  {
    var p := h.ring[t];
    var size := h.m[p].size + h.m[bp].size;
    Heap(h.m[p := Header(h.m[p].ptr, size)], h.ring, h.live - {bp}, (h.blocks - {bp})[p := size],
         Relabel(h.owner, bp, bp + h.m[bp].size, p))
  }

  lemma SwallowByPrevMatches(h: Heap, bp: int, t: nat)
    requires Inv(h) && bp in h.live && 0 < t < |h.ring|
    ensures h.ring[t] in h.blocks
    ensures Matches(SwallowedByPrev(h, bp, t))
  {
  }

  lemma SwallowByPrevTiled(h: Heap, bp: int, t: nat)
    requires Tiled(h.blocks, h.owner) && t < |h.ring| && h.ring[t] in h.m && bp in h.m
    requires h.ring[t] in h.blocks && h.m[h.ring[t]].size == h.blocks[h.ring[t]]
    requires h.ring[t] + h.m[h.ring[t]].size == bp
    requires bp in h.blocks && h.m[bp].size == h.blocks[bp]
    ensures Tiled(SwallowedByPrev(h, bp, t).blocks, SwallowedByPrev(h, bp, t).owner)
  {
  }

  lemma SwallowByPrevList(h: Heap, bp: int, t: nat)
    requires FreeList(h.m, h.ring) && 0 < t < |h.ring| && bp in h.m && h.m[bp].size > 0
    requires h.ring[t] + h.m[h.ring[t]].size == bp && (t + 1 < |h.ring| ==> bp + h.m[bp].size < h.ring[t + 1])
    ensures FreeList(SwallowedByPrev(h, bp, t).m, h.ring)
  {
    assert h.m[h.ring[t]].size > 0;
    ListResize(h.m, h.ring, t, h.m[h.ring[t]].size + h.m[bp].size);
  }

  lemma SwallowByPrev(h: Heap, bp: int, t: nat)
    requires Inv(h) && bp in h.live && Place(h.ring, bp, t)
    requires h.ring[t] + h.m[h.ring[t]].size == bp && (t + 1 < |h.ring| ==> bp + h.m[bp].size != h.ring[t + 1])
    ensures Inv(SwallowedByPrev(h, bp, t))
  {
    Fits(h, bp, t);
    SwallowByPrevMatches(h, bp, t);
    SwallowByPrevTiled(h, bp, t);
    SwallowByPrevList(h, bp, t);
  }

  lemma LivePtr(h: Heap, bp: int, ptr: int)
    requires Inv(h) && bp in h.live
    ensures Inv(h.(m := h.m[bp := Header(ptr, h.m[bp].size)]))
  {
    FreeListFrame(h.m, h.m[bp := Header(ptr, h.m[bp].size)], h.ring);
  }

  /** `free`: first look behind the block, then before it. */
  ghost function BehindDone(h: Heap, bp: int, t: nat): Heap
    requires t < |h.ring| && h.ring[t] in h.m && bp in h.m
    requires t + 1 < |h.ring| ==> h.ring[t + 1] in h.m
  {
    if t + 1 < |h.ring| && bp + h.m[bp].size == h.ring[t + 1] then SwallowedNext(h, bp, t)
    else h.(m := h.m[bp := Header(Next(h.ring, t), h.m[bp].size)])
  }

  ghost function Freed(h: Heap, bp: int, t: nat): Heap
    requires t < |h.ring| && h.ring[t] in h.m && bp in h.m && bp !in h.ring
    requires t + 1 < |h.ring| ==> h.ring[t + 1] in h.m
  {
    var g := BehindDone(h, bp, t);
    if g.ring[t] + g.m[g.ring[t]].size == bp then SwallowedByPrev(g, bp, t) else LinkedIn(g, bp, t)
  }

  ghost predicate BehindOutcome(h: Heap, bp: int, t: nat, g: Heap) {
    && Inv(g) && bp in g.live && Place(g.ring, bp, t) && t < |h.ring| && g.ring[t] == h.ring[t]
    && (t + 1 < |g.ring| ==> bp + g.m[bp].size != g.ring[t + 1])
    && g.live == h.live[bp := g.m[bp].size] && g.owner.Keys == h.owner.Keys
    && bp in h.m && g.m[bp].size >= h.m[bp].size && g.m[bp].ptr == Next(g.ring, t)
  }

  lemma BehindKeeps(h: Heap, bp: int, t: nat)
    requires Inv(h) && bp in h.live && Place(h.ring, bp, t)
    ensures BehindOutcome(h, bp, t, BehindDone(h, bp, t))
  {
    if t + 1 < |h.ring| && bp + h.m[bp].size == h.ring[t + 1] {
      BehindMerged(h, bp, t);
    } else {
      LivePtr(h, bp, Next(h.ring, t));
    }
  }

  lemma BehindMerged(h: Heap, bp: int, t: nat)
    requires Inv(h) && bp in h.live && Place(h.ring, bp, t) && t + 1 < |h.ring| && bp + h.m[bp].size == h.ring[t + 1]
    ensures BehindOutcome(h, bp, t, SwallowedNext(h, bp, t))
  {
    SwallowNext(h, bp, t);
    WithoutAt(h.ring, t + 1);
    assert t + 2 < |h.ring| ==> h.ring[t + 1] + h.m[h.ring[t + 1]].size < h.ring[t + 2];
    assert h.m[h.ring[t + 1]].size > 0;
  }

  /** What `free` computes from block `bp` and its place `t` in the list. */
  ghost predicate FreeOutcome(h: Heap, bp: int, t: nat, g: Heap) {
    && Inv(g) && g.live == h.live - {bp} && g.owner.Keys == h.owner.Keys
    && t < |g.ring| && t < |h.ring| && g.ring[t] == h.ring[t] && bp in h.m
    && BigEnough(g.m, g.ring[t], h.m[bp].size)
  }

  /** The free block at `p`, or the one right behind it in the list, has at least `n` units. */
  ghost predicate BigEnough(m: Memory, p: int, n: int) {
    p in m && (m[p].size >= n || (m[p].ptr in m && m[m[p].ptr].size >= n))
  }

  lemma FreeByMerge(h: Heap, b: Heap, bp: int, t: nat)
    requires Inv(b) && bp in b.live && Place(b.ring, bp, t) && (t + 1 < |b.ring| ==> bp + b.m[bp].size != b.ring[t + 1])
    requires b.ring[t] + b.m[b.ring[t]].size == bp
    requires b.live.Keys == h.live.Keys && b.live - {bp} == h.live - {bp} && b.owner.Keys == h.owner.Keys
    requires t < |h.ring| && b.ring[t] == h.ring[t] && bp in h.m && b.m[bp].size >= h.m[bp].size
    ensures FreeOutcome(h, bp, t, SwallowedByPrev(b, bp, t))
  {
    SwallowByPrev(b, bp, t);
    Fits(b, bp, t);
    assert b.m[b.ring[t]].size > 0;
  }

  lemma FreeByLink(h: Heap, b: Heap, bp: int, t: nat)
    requires Inv(b) && bp in b.live && Place(b.ring, bp, t) && (t + 1 < |b.ring| ==> bp + b.m[bp].size != b.ring[t + 1])
    requires b.ring[t] + b.m[b.ring[t]].size != bp
    requires b.live.Keys == h.live.Keys && b.live - {bp} == h.live - {bp} && b.owner.Keys == h.owner.Keys
    requires t < |h.ring| && b.ring[t] == h.ring[t] && bp in h.m && b.m[bp].size >= h.m[bp].size
    ensures FreeOutcome(h, bp, t, LinkedIn(b, bp, t))
  {
    LinkIn(b, bp, t);
    InsertedAt(b.ring, t + 1, bp);
    assert LinkedIn(b, bp, t).m[b.ring[t]].ptr == bp;
  }

  lemma FreeKeeps(h: Heap, bp: int, t: nat)
    requires Inv(h) && bp in h.live && Place(h.ring, bp, t)
    ensures FreeOutcome(h, bp, t, Freed(h, bp, t))
  {
    BehindKeeps(h, bp, t);
    var b := BehindDone(h, bp, t);
    if b.ring[t] + b.m[b.ring[t]].size == bp {
      FreeByMerge(h, b, bp, t);
    } else {
      FreeByLink(h, b, bp, t);
    }
  }

  /** The header updates of `free`, between `p` and what follows it. */
  function Behind(m: Memory, p: int, bp: int): Memory
    requires p in m && bp in m && m[p].ptr in m
  {
    var next := m[p].ptr;
    if bp + m[bp].size == next then m[bp := Header(m[next].ptr, m[bp].size + m[next].size)]
    else m[bp := Header(next, m[bp].size)]
  }

  function Before(m: Memory, p: int, bp: int): Memory
    requires p in m && bp in m
  {
    if p + m[p].size == bp then m[p := Header(m[bp].ptr, m[p].size + m[bp].size)]
    else m[p := Header(bp, m[p].size)]
  }

  lemma UpdatesAgree(h: Heap, bp: int, t: nat)
    requires Inv(h) && bp in h.live && Place(h.ring, bp, t)
    ensures h.ring[t] in h.m && h.m[h.ring[t]].ptr in h.m && bp in h.m && bp !in h.ring
    ensures Before(Behind(h.m, h.ring[t], bp), h.ring[t], bp) == Freed(h, bp, t).m
  {
    BehindKeeps(h, bp, t);
    BehindAgrees(h, bp, t);
    var b, p := BehindDone(h, bp, t), h.ring[t];
    assert p in h.ring;
    BeforeAgrees(Behind(h.m, p, bp), b.m, p, bp, Next(b.ring, t));
  }

  lemma BeforeAgrees(m: Memory, b: Memory, p: int, bp: int, next: int)
    requires p in m && bp in m && p != bp && m[bp].ptr == next && b == m[p := Header(next, m[p].size)]
    ensures Before(m, p, bp) == if p + b[p].size == bp then b[p := Header(b[p].ptr, b[p].size + b[bp].size)]
                                else b[bp := Header(next, b[bp].size)][p := Header(bp, b[p].size)]
  {
  }

  lemma BehindAgrees(h: Heap, bp: int, t: nat)
    requires Inv(h) && bp in h.live && Place(h.ring, bp, t)
    ensures h.ring[t] in h.m && h.m[h.ring[t]].ptr in h.m && bp in h.m && bp !in h.ring
    ensures BehindDone(h, bp, t).m ==
              Behind(h.m, h.ring[t], bp)[h.ring[t] := Header(Next(BehindDone(h, bp, t).ring, t), h.m[h.ring[t]].size)]
  {
    assert LinkAt(h.m, h.ring, t);
    assert h.ring[t] in h.ring;
    if t + 1 < |h.ring| && bp + h.m[bp].size == h.ring[t + 1] {
      SwallowNext(h, bp, t);
    }
  }

  /** The search of `free` stops exactly at the block's place. */
  lemma SearchStep(m: Memory, ring: seq<int>, bp: int, i: nat, t: nat)
    requires FreeList(m, ring) && Place(ring, bp, t) && bp !in ring && i < |ring|
    ensures var p, q := ring[i], Next(ring, i);
            && p in m && m[p].ptr == q && q in m
            && (i == t <==> (bp > p && bp < q) || (p >= q && (bp > p || bp < q)))
  {
    assert LinkAt(m, ring, i);
    Ascending(m, ring, i, t);
    Ascending(m, ring, 0, i);
    if i + 1 < |ring| { Ascending(m, ring, i, i + 1); }
    if i < t { Ascending(m, ring, i + 1, t); }
    if t + 1 < |ring| && t + 1 <= i { Ascending(m, ring, t + 1, i); }
    assert BASE < bp by { Ascending(m, ring, 0, t); }
  }

  // -------- malloc --------

  /** The free block behind `ring[t]` is handed out whole. */
  ghost function TookWhole(h: Heap, t: nat): Heap
    requires t + 1 < |h.ring| && h.ring[t] in h.m && h.ring[t + 1] in h.m
  {
    var b := h.ring[t + 1];
    h.(m := h.m[h.ring[t] := Header(h.m[b].ptr, h.m[h.ring[t]].size)],
       ring := Without(h.ring, t + 1),
       live := h.live[b := h.m[b].size])
  }

  lemma TakeWholeMatches(h: Heap, t: nat)
    requires Matches(h) && t + 1 < |h.ring| && h.ring[t] in h.m && h.ring[t + 1] in h.m
    requires h.ring[t + 1] != BASE && forall b :: b in Without(h.ring, t + 1) <==> b in h.ring && b != h.ring[t + 1]
    ensures Matches(TookWhole(h, t)) && h.ring[t + 1] !in h.live
  {
    assert h.ring[t + 1] in h.ring;
  }

  lemma TakeWhole(h: Heap, t: nat)
    requires Inv(h) && t + 1 < |h.ring|
    ensures Inv(TookWhole(h, t)) && h.ring[t + 1] !in h.live
  {
    OneLess(h, t + 1);
    TakeWholeMatches(h, t);
    assert FreeList(TookWhole(h, t).m, TookWhole(h, t).ring) by { ListRemove(h.m, h.ring, t); }
  }

  /** The last `n` units of free block `ring[k]` are handed out. */
  ghost function TookTail(h: Heap, k: nat, n: int): Heap
    requires k < |h.ring| && h.ring[k] in h.m
  {
    var p, rest := h.ring[k], h.m[h.ring[k]].size - n;
    Heap(h.m[p := Header(h.m[p].ptr, rest)][p + rest := Header(0, n)],
         h.ring,
         h.live[p + rest := n],
         h.blocks[p := rest][p + rest := n],
         Relabel(h.owner, p + rest, p + rest + n, p + rest))
  }

  lemma TailIsNew(h: Heap, k: nat, n: int)
    requires Inv(h) && 1 <= k < |h.ring| && 0 < n < h.m[h.ring[k]].size
    ensures var q := h.ring[k] + h.m[h.ring[k]].size - n;
            q !in h.blocks && q !in h.ring && h.ring[k] in h.blocks
  {
    var p, q := h.ring[k], h.ring[k] + h.m[h.ring[k]].size - n;
    assert p in h.ring;
    Ascending(h.m, h.ring, 0, k);
    if q in h.blocks { Apart(h.blocks, h.owner, p, q); }
  }

  lemma TakeTailList(h: Heap, k: nat, n: int)
    requires Inv(h) && 1 <= k < |h.ring| && 0 < n < h.m[h.ring[k]].size
    ensures FreeList(TookTail(h, k, n).m, h.ring)
  {
    TailIsNew(h, k, n);
    var p, rest := h.ring[k], h.m[h.ring[k]].size - n;
    assert k + 1 < |h.ring| ==> h.ring[k] + h.m[h.ring[k]].size < h.ring[k + 1];
    ListResize(h.m, h.ring, k, rest);
    FreeListFrame(h.m[p := Header(h.m[p].ptr, rest)], TookTail(h, k, n).m, h.ring);
  }

  lemma TakeTailTiled(h: Heap, k: nat, n: int)
    requires Tiled(h.blocks, h.owner) && k < |h.ring| && h.ring[k] in h.m && h.ring[k] in h.blocks
    requires h.m[h.ring[k]].size == h.blocks[h.ring[k]] && 0 < n < h.m[h.ring[k]].size
    ensures Tiled(TookTail(h, k, n).blocks, TookTail(h, k, n).owner)
  {
    var p, rest := h.ring[k], h.m[h.ring[k]].size - n;
    TilesSplit(h.blocks, h.owner, p, rest, n);
    var g := TookTail(h, k, n);
    assert g.blocks == h.blocks[p := rest][p + rest := n];
    assert g.owner == Relabel(h.owner, p + rest, p + rest + n, p + rest);
  }

  lemma TakeTailMatches(h: Heap, k: nat, n: int)
    requires Matches(h) && k < |h.ring| && h.ring[k] in h.m && h.ring[k] != BASE && 0 < n < h.m[h.ring[k]].size
    requires h.ring[k] + h.m[h.ring[k]].size - n !in h.blocks && h.ring[k] + h.m[h.ring[k]].size - n !in h.ring
    ensures Matches(TookTail(h, k, n))
  {
    assert h.ring[k] in h.ring;
  }

  lemma TakeTail(h: Heap, k: nat, n: int)
    requires Inv(h) && 1 <= k < |h.ring| && 0 < n < h.m[h.ring[k]].size
    ensures Inv(TookTail(h, k, n))
    ensures h.ring[k] + h.m[h.ring[k]].size - n !in h.live
  {
    TailIsNew(h, k, n);
    TakeTailList(h, k, n);
    TakeTailTiled(h, k, n);
    Ascending(h.m, h.ring, 0, k);
    TakeTailMatches(h, k, n);
  }

  /** `sbrk` added `size` units at `b`; they form a live block for now. */
  ghost function Grown(h: Heap, b: int, size: nat): Heap {
    Heap(h.m[b := Header(0, size)], h.ring, h.live[b := size], h.blocks[b := size], h.owner + Units(b, size, b))
  }

  lemma BeyondIsNew(h: Heap, b: int)
    requires Inv(h) && b > BASE && forall x :: x in h.owner ==> x < b
    ensures b !in h.blocks && b !in h.ring
  {
    assert Inside(0);
    assert forall g :: g in h.blocks ==> g in h.owner;
  }

  lemma Grow(h: Heap, b: int, size: nat)
    requires Inv(h) && size > 0 && b > BASE && forall x :: x in h.owner ==> x < b
    ensures Inv(Grown(h, b, size)) && b !in h.live
  {
    BeyondIsNew(h, b);
    TilesGrow(h.blocks, h.owner, b, size);
    GrowList(h, b, size);
    GrowMatches(h, b, size);
  }

  lemma GrowList(h: Heap, b: int, size: nat)
    requires FreeList(h.m, h.ring) && b !in h.ring
    ensures FreeList(Grown(h, b, size).m, h.ring)
  {
    FreeListFrame(h.m, h.m[b := Header(0, size)], h.ring);
  }

  lemma GrowMatches(h: Heap, b: int, size: nat)
    requires Matches(h) && b !in h.ring && b !in h.blocks && size > 0 && b > BASE
    ensures Matches(Grown(h, b, size))
  {
  }

  lemma PlaceOf(h: Heap, bp: int) returns (t: nat)
    requires Inv(h) && bp in h.live
    ensures Place(h.ring, bp, t) && bp !in h.ring
  {
    forall i, j | 0 <= i < j < |h.ring| ensures h.ring[i] < h.ring[j] {
      Ascending(h.m, h.ring, i, j);
    }
    t := PlaceExists(h.ring, bp, |h.ring|);
  }

  /** A marker: the allocator's invariant is looked into only where this is mentioned. */
  ghost predicate Looking(z: int) {
    true
  }

  ghost predicate Sound(h: Heap) {
    forall z :: Looking(z) ==> Inv(h)
  }

  lemma FreeSummary(h: Heap, bp: int, t: nat)
    requires Sound(h) && bp in h.live && Place(h.ring, bp, t)
    ensures h.ring[t] in h.m && h.m[h.ring[t]].ptr in h.m && bp in h.m && bp !in h.ring && h.ring[t] >= BASE
    ensures t + 1 < |h.ring| ==> h.ring[t + 1] in h.m
    ensures var g := Freed(h, bp, t);
            && Sound(g) && g.live == h.live - {bp} && g.owner.Keys == h.owner.Keys
            && h.ring[t] in g.ring && BigEnough(g.m, h.ring[t], h.m[bp].size)
            && g.m == Before(Behind(h.m, h.ring[t], bp), h.ring[t], bp)
  {
    assert Looking(0);
    FreeKeeps(h, bp, t);
    UpdatesAgree(h, bp, t);
    Ascending(h.m, h.ring, 0, t);
  }

  lemma GrowSummary(h: Heap, b: int, size: nat)
    requires Sound(h) && size > 0 && b > BASE && forall x :: x in h.owner ==> x < b
    ensures Sound(Grown(h, b, size)) && b !in h.live
    ensures Grown(h, b, size).owner.Keys == h.owner.Keys + Units(b, size, b).Keys
    ensures forall x :: x in Grown(h, b, size).owner ==> x < b + size
  {
    assert Looking(0);
    Grow(h, b, size);
  }

  /** Walking the list: each block links to the next, and only `base` is empty. */
  lemma WalkSummary(h: Heap, i: nat)
    requires Sound(h) && i < |h.ring|
    ensures h.ring[i] in h.m && h.m[h.ring[i]].ptr == Next(h.ring, i) && Next(h.ring, i) in h.m && h.ring[i] >= BASE
    ensures Next(h.ring, i) == h.ring[NextIndex(i, |h.ring|)]
    ensures h.m[Next(h.ring, i)].size > 0 ==> i + 1 < |h.ring|
    ensures forall j :: 0 <= j < |h.ring| && h.ring[j] == h.ring[i] ==> j == i
  {
    assert Looking(0);
    assert LinkAt(h.m, h.ring, i);
    Ascending(h.m, h.ring, 0, i);
    forall j | 0 <= j < |h.ring| && h.ring[j] == h.ring[i] ensures j == i { Ascending(h.m, h.ring, i, j); }
  }

  lemma TakeSummary(h: Heap, i: nat, n: int)
    requires Sound(h) && i + 1 < |h.ring| && h.ring[i] in h.m && h.ring[i + 1] in h.m
    requires 0 < n <= h.m[h.ring[i + 1]].size
    ensures n == h.m[h.ring[i + 1]].size ==>
              Sound(TookWhole(h, i)) && h.ring[i + 1] !in h.live && h.ring[i] in TookWhole(h, i).ring
    ensures n < h.m[h.ring[i + 1]].size ==>
              Sound(TookTail(h, i + 1, n)) && h.ring[i + 1] + h.m[h.ring[i + 1]].size - n !in h.live
    ensures h.ring[i + 1] > BASE
  {
    assert Looking(0);
    Ascending(h.m, h.ring, 0, i + 1);
    if n == h.m[h.ring[i + 1]].size {
      TakeWhole(h, i);
      assert Without(h.ring, i + 1)[i] == h.ring[i];
    } else {
      TakeTail(h, i + 1, n);
    }
  }

  const NULL: int := -1

  /** How far list position `j` is from position `i`, going round. */
  function Cyclic(i: nat, j: nat, n: nat): int {
    if i <= j then j - i else j - i + n
  }

  // -------- What sbrk is asked for, and what it does --------

  const WORD: nat := 0x1_0000_0000
  const INT_MAX: int := 0x7FFF_FFFF
  /** kernel/memlayout.h: the address space a process may grow to, in bytes. */
  const TRAPFRAME: int := 0x3F_FFFF_E000
  /** Units in a page. */
  const PAGE: int := 256

  /** A C `int` made from a wider number. */
  function ToInt(x: nat): int {
    if x % WORD > INT_MAX then x % WORD - WORD else x % WORD
  }

  /** The units `malloc` looks for. */
  function UnitsFor(nbytes: nat): nat {
    (nbytes + 15) / 16 + 1
  }

  /** One unit is the header; the others are as many as the bytes need, and no more. */
  lemma UnitsMean(nbytes: nat)
    ensures nbytes <= (UnitsFor(nbytes) - 1) * 16 < nbytes + 16
  {
  }

  /** The units `morecore` asks for. */
  function Asked(nunits: nat): nat {
    if nunits < 4096 then 4096 else nunits
  }

  /** The argument `sbrk` receives for them. */
  function Request(nunits: nat): int {
    ToInt(Asked(nunits) * 16)
  }

  /** The request no longer fits an `int`. */
  predicate Overflows(nunits: nat) {
    nunits * 16 > INT_MAX
  }

  /** `growproc` fails: the break would pass the trapframe, or there is no memory. */
  predicate Refused(brk: int, n: int, room: bool) {
    n > 0 && (brk * 16 + n > TRAPFRAME || !room)
  }

  /** `sys_sbrk` fails. A lazy request only moves the break, and memory comes with the faults. */
  predicate Denied(brk: int, n: int, lazy: bool, room: bool) {
    if lazy && n >= 0 then brk * 16 + n > TRAPFRAME else Refused(brk, n, room)
  }

  /** The break after an `sbrk(n)` that is not refused. A negative `n` shrinks the process,
      unless it is larger than the process. */
  function BreakAfter(brk: int, n: int): int {
    if n < 0 && brk * 16 + n < 0 then brk else brk + n / 16
  }

  /** A store to unit `x` does not kill the process: its page begins below the break. */
  predicate Accessible(x: int, brk: int) {
    x / PAGE * PAGE < brk
  }

  /** The request is what was meant exactly when it fits an `int`; otherwise it is for at most
      one unit, or for none, or takes memory away. */
  lemma RequestMeans(nunits: nat)
    requires 0 < nunits <= UnitsFor(WORD - 1)
    ensures Request(nunits) % 16 == 0
    ensures Overflows(nunits) <==> nunits >= 0x800_0000
    ensures !Overflows(nunits) ==> Request(nunits) == (if nunits < 4096 then 0x1_0000 else nunits * 16) > 0
    ensures Overflows(nunits) ==> Request(nunits) == nunits * 16 - 0x1_0000_0000 <= 16 && Asked(nunits) == nunits
    ensures Asked(nunits) == if nunits < 4096 then 4096 else nunits
  {
    var x := Asked(nunits) * 16;
    if x < WORD {
      assert x % WORD == x;
    } else {
      assert x % WORD == x - WORD;
    }
  }

  /** In bytes: the page of the store begins below the break. */
  lemma AccessibleMeans(x: nat, brk: int)
    ensures Accessible(x, brk) <==> x * 16 / 4096 * 4096 < brk * 16
  {
    assert x * 16 / 4096 == x / PAGE;
  }

  /** How far `morecore` moves the break. */
  lemma BreakMoves(brk: int, nunits: nat)
    requires 0 < nunits < 0x800_0000
    ensures BreakAfter(brk, Request(nunits)) == brk + if nunits < 4096 then 4096 else nunits
  {
    RequestMeans(nunits);
  }

  /** The units obtained so far, after an `sbrk(n)` at break `brk`. */
  ghost function GotAfter(got: set<int>, brk: int, n: int): set<int>
    requires n % 16 == 0
  {
    if n >= 0 then got + Units(brk, n / 16, brk).Keys else set x | x in got && x < BreakAfter(brk, n)
  }

  /** Adding what was asked for to what was obtained is right exactly when the request fits an `int`. */
  lemma BackedIff(got: set<int>, brk: int, nunits: nat)
    requires brk > BASE && (forall x :: x in got ==> x < brk) && 0 < nunits <= UnitsFor(WORD - 1)
    ensures Request(nunits) % 16 == 0
    ensures var n, own := Request(nunits), got + Units(brk, Asked(nunits), brk).Keys;
      !Overflows(nunits) <==>
        && BreakAfter(brk, n) > BASE && own == GotAfter(got, brk, n)
        && forall x :: x in GotAfter(got, brk, n) ==> x < BreakAfter(brk, n)
  {
    RequestMeans(nunits);
    var n := Request(nunits);
    if Overflows(nunits) {
      var x := brk + nunits - 1;
      assert x in Units(brk, Asked(nunits), brk).Keys && x !in GotAfter(got, brk, n);
    }
  }

  /** The blocks of `h` tile exactly the units obtained, all of them below the break. */
  ghost predicate BackedBy(h: Heap, brk: int, got: set<int>) {
    brk > BASE && h.owner.Keys == got && forall x :: x in got ==> x < brk
  }

  lemma LiveInside(h: Heap, b: int)
    requires Sound(h) && b in h.live
    ensures h.live[b] > 0 && b in h.owner && b + h.live[b] - 1 in h.owner
  {
    assert Looking(0);
    assert Inside(0);
  }

  datatype MallocResult = Block(b: int) | Null | Killed

  /** The place of a block is just after the nearest free block below it. */
  lemma PlaceMeans(h: Heap, b: int, t: nat)
    requires Sound(h) && Place(h.ring, b, t)
    ensures h.ring[t] in h.ring && h.ring[t] < b && forall q :: q in h.ring && q < b ==> q <= h.ring[t]
  {
    assert Looking(0);
    forall q | q in h.ring && q < b ensures q <= h.ring[t] {
      var j :| 0 <= j < |h.ring| && h.ring[j] == q;
      assert j <= t;
    }
  }

  class Allocator {
    var m: Memory
    var freep: int
    /** The break of the process. */
    var brk: int
    ghost var heap: Heap
    /** The units that this allocator's `sbrk` calls have obtained. */
    ghost var got: set<int>

    /** The free list and the live blocks are well formed and tile `heap.owner`. */
    ghost predicate Valid()
      reads this
    {
      && brk >= 0
      && (if freep == NULL then heap == Heap(m, [], map[], map[], map[])
          else heap.m == m && freep in heap.ring && freep in m && Sound(heap))
    }

    /** What the blocks tile is exactly the memory obtained. */
    ghost predicate Backed()
      reads this
    {
      BackedBy(heap, brk, got)
    }

    constructor (brk: int)
      requires brk > BASE
      ensures Valid() && Backed() && heap.live == map[] && got == {} && this.brk == brk && freep == NULL
    {
      m, freep, this.brk, heap, got := map[], NULL, brk, Heap(map[], [], map[], map[], map[]), {};
    }

    /** The search loop of `free`. It goes round the list at most once. */
    method FindPlace(bp: int) returns (p: int, ghost t: nat)
      requires Valid() && freep != NULL && bp in heap.live
      ensures Place(heap.ring, bp, t) && p == heap.ring[t]
    {
      assert Looking(0);
      ghost var ring := heap.ring;
      t := PlaceOf(heap, bp);
      ghost var i: nat :| i < |ring| && ring[i] == freep;
      p := freep;
      SearchStep(m, ring, bp, i, t);
      while !(bp > p && bp < m[p].ptr)
        invariant i < |ring| && p == ring[i] && p in m && m[p].ptr == Next(ring, i)
        invariant i == t <==> (bp > p && bp < m[p].ptr) || (p >= m[p].ptr && (bp > p || bp < m[p].ptr))
        decreases Cyclic(i, t, |ring|)
      {
        if p >= m[p].ptr && (bp > p || bp < m[p].ptr) {
          break;
        }
        p := m[p].ptr;
        i := if i + 1 < |ring| then i + 1 else 0;
        SearchStep(m, ring, bp, i, t);
      }
    }

    /** `free`. The block goes back to the list, merged with the free blocks it touches. */
    method Free(bp: int)
      requires Valid() && bp in heap.live
      modifies `m, `freep, `heap
      ensures Valid() && freep != NULL
      ensures heap.live == old(heap.live) - {bp} && heap.owner.Keys == old(heap.owner).Keys
      ensures bp in old(m) && BigEnough(m, freep, old(m[bp].size))
      ensures freep in old(heap.ring) && freep < bp && forall q :: q in old(heap.ring) && q < bp ==> q <= freep
    {
      var p;
      ghost var t;
      p, t := FindPlace(bp);
      ghost var h := heap;
      PlaceMeans(h, bp, t);
      FreeSummary(h, bp, t);
      m := Behind(m, p, bp);
      m := Before(m, p, bp);
      freep := p;
      heap := Freed(h, bp, t);
    }

    /** `sbrk` as the kernel does it, eagerly or not; `room` tells whether it has the memory. The answer
        is the break before the call, or -1. */
    method Sbrk(n: int, lazy: bool, room: bool) returns (addr: int)
      requires n % 16 == 0 && brk >= 0
      modifies `brk
      ensures addr == if Denied(old(brk), n, lazy, room) then -1 else old(brk)
      ensures brk == (if Denied(old(brk), n, lazy, room) then old(brk) else BreakAfter(old(brk), n)) && brk >= 0
      ensures addr == -1 <==>
                && n >= 0 && (lazy || n > 0) && (old(brk) * 16 + n > 0x40_0000_0000 - 8192 || (!lazy && !room))
      ensures addr != -1 && old(brk) * 16 + n >= 0 ==> brk * 16 == old(brk) * 16 + n
      ensures addr == -1 || old(brk) * 16 + n < 0 ==> brk == old(brk)
      ensures (old(Valid()) ==> Valid()) && (n >= 0 && old(Backed()) ==> Backed())
    {
      addr := brk;
      if lazy && n >= 0 {
        if brk * 16 + n > TRAPFRAME { return -1; }
        brk := brk + n / 16;
      } else if n > 0 {
        if brk * 16 + n > TRAPFRAME { return -1; }
        if !room { return -1; }
        brk := brk + n / 16;
      } else if n < 0 {
        // uvmdealloc on unsigned sizes: a new size below zero wraps around and is no shrinking
        if brk * 16 + n >= 0 {
          brk := brk + n / 16;
        }
      }
    }

    /** `morecore`. The new memory becomes one free block. The blocks still tile exactly the memory
        obtained if and only if the request fitted an `int`; if it did not, the process may also be
        killed on its first store. */
    method Morecore(nunits: nat, room: bool) returns (r: MallocResult)
      requires Valid() && Backed() && freep != NULL && 0 < nunits <= UnitsFor(WORD - 1)
      modifies this
      ensures r.Null? <==> Refused(old(brk), Request(nunits), room)
      ensures r.Null? ==> brk == old(brk) && m == old(m) && freep == old(freep) && heap == old(heap) && got == old(got)
      ensures !r.Null? ==> brk == BreakAfter(old(brk), Request(nunits))
      ensures r.Killed? <==> !r.Null? && !Accessible(old(brk), brk)
      ensures r.Killed? <==> !r.Null? && brk * 16 <= old(brk) * 16 / 4096 * 4096
      ensures !r.Null? && nunits < 0x800_0000 ==> brk == old(brk) + if nunits < 4096 then 4096 else nunits
      ensures r.Killed? ==> Overflows(nunits)
      ensures !r.Killed? ==> Valid() && freep != NULL && heap.live == old(heap.live)
      ensures r.Block? ==> BigEnough(m, freep, nunits) && (Backed() <==> !Overflows(nunits))
      ensures r.Block? ==> heap.owner.Keys == old(heap.owner).Keys + Units(old(brk), Asked(nunits), old(brk)).Keys
    {
      var nu := nunits;
      if nu < 4096 { nu := 4096; }
      RequestMeans(nunits);
      BackedIff(got, brk, nunits);
      AccessibleMeans(brk, BreakAfter(brk, Request(nunits)));
      if nunits < 0x800_0000 { BreakMoves(brk, nunits); }
      ghost var got' := GotAfter(got, brk, Request(nunits));
      var p := Sbrk(ToInt(nu * 16), false, room);
      if p == -1 { return Null; }
      got := got';
      // the store to the new block's header
      if !(p / PAGE * PAGE < brk) { return Killed; }
      AddBlock(p, nu);
      r := Block(freep);
    }

    /** The second half of `morecore`: the memory at `p` becomes a block and is freed. */
    method AddBlock(p: int, nu: nat)
      requires Valid() && freep != NULL && p > BASE && nu > 0 && forall x :: x in heap.owner ==> x < p
      modifies `m, `freep, `heap
      ensures Valid() && freep != NULL && heap.live == old(heap.live) && BigEnough(m, freep, nu)
      ensures heap.owner.Keys == old(heap.owner).Keys + Units(p, nu, p).Keys
    {
      GrowSummary(heap, p, nu);
      ghost var live := heap.live;
      heap := Grown(heap, p, nu);
      m := m[p := Header(0, nu)];
      Free(p);
      assert live[p := nu] - {p} == live;
    }

    /** `malloc` of a 32-bit number of bytes: a live block of exactly the right number of units, cut
        from the end of the first free block with room, or NULL. `sbrk` is asked at most once, and
        exactly when no free block fits. If no free block fits, the blocks go on tiling exactly the
        memory obtained if and only if the request is refused or its size fits an `int`. */
    method Malloc(nbytes: nat, room: bool) returns (r: MallocResult)
      requires Valid() && Backed() && nbytes < WORD
      modifies this
      ensures r.Null? <==> NoneFits(old(heap), UnitsFor(nbytes)) && Refused(old(brk), Request(UnitsFor(nbytes)), room)
      ensures r.Null? ==> Valid() && Backed() && heap.live == old(heap.live) && got == old(got) && brk == old(brk)
      ensures r.Killed? <==>
                && NoneFits(old(heap), UnitsFor(nbytes)) && !Refused(old(brk), Request(UnitsFor(nbytes)), room)
                && !Accessible(old(brk), BreakAfter(old(brk), Request(UnitsFor(nbytes))))
      ensures r.Killed? ==> Overflows(UnitsFor(nbytes))
      ensures r.Block? ==> Valid() && r.b !in old(heap.live) && heap.live == old(heap.live)[r.b := UnitsFor(nbytes)]
      ensures r.Block? ==> nbytes <= (heap.live[r.b] - 1) * 16 < nbytes + 16
      ensures r.Block? ==> (Backed() <==> !(NoneFits(old(heap), UnitsFor(nbytes)) && Overflows(UnitsFor(nbytes))))
      ensures r.Block? && !NoneFits(old(heap), UnitsFor(nbytes)) ==> got == old(got) && brk == old(brk)
      ensures r.Block? && !NoneFits(old(heap), UnitsFor(nbytes)) ==>
                CutFirst(old(m), old(freep), UnitsFor(nbytes), r.b, freep)
      ensures r.Block? && NoneFits(old(heap), UnitsFor(nbytes)) ==>
                && brk == BreakAfter(old(brk), Request(UnitsFor(nbytes)))
                && heap.owner.Keys == old(heap.owner).Keys + Units(old(brk), Asked(UnitsFor(nbytes)), old(brk)).Keys
    {
      var nunits := (nbytes + 15) / 16 + 1;
      UnitsMean(nbytes);
      if freep == NULL {
        InitList(nunits);
      }
      r := Search(nunits, room);
      assert Serving(0);
    }

    /** The first call makes a list of `base` alone. */
    method InitList(nunits: nat)
      requires Valid() && freep == NULL && nunits > 0
      modifies `m, `freep, `heap
      ensures Valid() && freep != NULL && heap.live == old(heap.live) && heap.owner == old(heap.owner)
      ensures NoneFits(old(heap), nunits) && NoneFits(heap, nunits)
    {
      m, freep := m[BASE := Header(BASE, 0)], BASE;
      heap := Heap(m, [BASE], map[], map[], map[]);
      assert LinkAt(m, [BASE], 0) && Inv(heap);
    }

    /** The loop of `malloc`. */
    method Search(nunits: nat, room: bool) returns (r: MallocResult)
      requires Valid() && Backed() && freep != NULL && 0 < nunits <= UnitsFor(WORD - 1)
      modifies this
      ensures !r.Killed? ==> Valid()
      ensures Served(r, nunits, room, old(heap), old(brk), old(got), heap, brk, got)
      ensures r.Block? && !NoneFits(old(heap), nunits) ==> CutFirst(old(m), old(freep), nunits, r.b, freep)
    {
      ghost var i: nat :| i < |heap.ring| && heap.ring[i] == freep;
      ghost var f: nat := i;
      WalkSummary(heap, i);
      var prevp := freep;
      var p := m[prevp].ptr;
      var asked := false;
      ghost var k: nat := 1;
      PassedNone(m, freep, nunits);
      LapBegins(heap, f, nunits);
      while true
        invariant Valid() && freep != NULL
        invariant i < |heap.ring| && prevp == heap.ring[i] && p == Next(heap.ring, i) && p in m
        invariant f < |heap.ring| && heap.ring[f] == freep
        invariant !asked ==> Passed(heap, i, f, nunits)
        invariant !asked ==> brk == old(brk) && got == old(got) && heap == old(heap) && m == old(m)
        invariant asked ==> NoneFits(old(heap), nunits)
        invariant !asked ==> freep == old(freep) && PassedTo(m, freep, nunits, k, prevp, p)
        invariant asked ==> Supplied(nunits, room, old(heap), old(brk), heap, brk, got)
        invariant asked ==> m[freep].size >= nunits || (p == m[freep].ptr && m[p].size >= nunits)
        decreases !asked, Cyclic(NextIndex(i, |heap.ring|), f, |heap.ring|)
      {
        if m[p].size >= nunits {
          if !asked { FitFound(m, freep, nunits, k, prevp, p); }
          r := Serve(prevp, p, nunits, i, asked, room, old(heap), old(brk), old(got));
          return;
        }
        if p == freep {
          assert !asked;
          r, i := More(nunits, room, i, f);
          if !r.Block? { return; }
          asked := true;
          p := freep;
          f := i;
        } else {
          Closer(heap, i, f);
          if !asked {
            PassOne(heap, i, f, nunits);
            PassedMore(m, freep, nunits, k, prevp, p);
          }
          k := k + 1;
          i := NextIndex(i, |heap.ring|);
        }
        WalkSummary(heap, i);
        prevp := p;
        p := m[p].ptr;
      }
    }

    /** `morecore`, for a `malloc` that found no block on its way round from `f` to `i`. */
    method More(nunits: nat, room: bool, ghost i: nat, ghost f: nat) returns (r: MallocResult, ghost j: nat)
      requires Valid() && Backed() && freep != NULL && 0 < nunits <= UnitsFor(WORD - 1)
      requires i < |heap.ring| && f < |heap.ring| && Passed(heap, i, f, nunits)
      requires Next(heap.ring, i) == freep == heap.ring[f] && freep in m && m[freep].size < nunits
      modifies this
      ensures !r.Killed? ==> Valid() && freep != NULL
      ensures r.Block? ==> BigEnough(m, freep, nunits) && Supplied(nunits, room, old(heap), old(brk), heap, brk, got)
      ensures r.Block? ==> NoneFits(old(heap), nunits) && j < |heap.ring| && heap.ring[j] == freep
      ensures !r.Block? ==> Served(r, nunits, room, old(heap), old(brk), old(got), heap, brk, got)
    {
      LapDone(heap, i, f, nunits);
      r := Morecore(nunits, room);
      j := 0;
      if r.Block? {
        j :| 0 <= j < |heap.ring| && heap.ring[j] == freep;
      }
    }

    /** A block that fits, found at once or after asking for memory. */
    method Serve(prevp: int, p: int, nunits: nat, ghost i: nat, ghost asked: bool, ghost room: bool, ghost h: Heap,
        ghost brk0: int, ghost got0: set<int>) returns (r: MallocResult)
      requires Valid() && freep != NULL && i < |heap.ring| && prevp == heap.ring[i] && p == Next(heap.ring, i)
      requires nunits > 0 && p in m && m[p].size >= nunits && BackedBy(h, brk0, got0)
      requires if asked then Supplied(nunits, room, h, brk0, heap, brk, got)
               else heap == h && brk == brk0 && got == got0
      modifies `m, `freep, `heap
      ensures Valid() && Served(r, nunits, room, h, brk0, got0, heap, brk, got)
      ensures r.Block? && r.b == p + old(m)[p].size - nunits && freep == prevp
      ensures !asked ==> !NoneFits(h, nunits)
    {
      ghost var h1 := heap;
      if !asked { OneFits(heap, i, nunits); }
      r := Take(prevp, p, nunits, i);
      TakenServed(asked, r, nunits, room, h, brk0, got0, h1, heap, brk, got);
    }

    /** Cut `nunits` from block `p`, which follows `prevp` in the list. */
    method Take(prevp: int, p: int, nunits: int, ghost i: nat) returns (r: MallocResult)
      requires Valid() && freep != NULL && i < |heap.ring| && prevp == heap.ring[i] && p == Next(heap.ring, i)
      requires nunits > 0 && p in m && m[p].size >= nunits
      modifies `m, `freep, `heap
      ensures Valid() && r.Block? && r.b !in old(heap.live) && heap.live == old(heap.live)[r.b := nunits]
      ensures heap.owner.Keys == old(heap.owner).Keys
      ensures r.b == p + old(m)[p].size - nunits && freep == prevp
    {
      ghost var h := heap;
      WalkSummary(h, i);
      TakeSummary(h, i, nunits);
      var b;
      if m[p].size == nunits {
        m := m[prevp := Header(m[p].ptr, m[prevp].size)];
        b := p;
        heap := TookWhole(h, i);
      } else {
        m := m[p := Header(m[p].ptr, m[p].size - nunits)];
        b := p + m[p].size;
        m := m[b := Header(0, nunits)];
        heap := TookTail(h, i + 1, nunits);
      }
      freep := prevp;
      r := Block(b);
    }
  }

  /** The `k`-th block after `fp`, following the pointers. */
  function Nth(m: Memory, fp: int, k: nat): int {
    if k == 0 then fp else
      var q := Nth(m, fp, k - 1);
      if q in m then m[q].ptr else NULL
  }

  /** Block `k` after `fp` is the first with room for `n` units. */
  ghost predicate FirstFit(m: Memory, fp: int, n: int, k: nat) {
    && 0 < k && Nth(m, fp, k) in m && m[Nth(m, fp, k)].size >= n
    && forall j: nat :: 0 < j < k ==> Nth(m, fp, j) in m && m[Nth(m, fp, j)].size < n
  }

  /** `b` was cut from the end of the first block with room, and the search goes on behind it next time. */
  ghost predicate CutFirst(m: Memory, fp: int, n: int, b: int, fp': int) {
    exists k: nat ::
      FirstFit(m, fp, n, k) && b == Nth(m, fp, k) + m[Nth(m, fp, k)].size - n && fp' == Nth(m, fp, k - 1)
  }

  ghost predicate Passing(z: int, k: nat) { true }

  /** The search has passed `k - 1` blocks, all too small, and looks at `p`. To be opened by mentioning
      `Passing`. */
  ghost predicate PassedTo(m: Memory, fp: int, n: int, k: nat, prevp: int, p: int) {
    forall z :: Passing(z, k) ==>
      && 0 < k && prevp == Nth(m, fp, k - 1) && p == Nth(m, fp, k)
      && forall j: nat :: 0 < j < k ==> Nth(m, fp, j) in m && m[Nth(m, fp, j)].size < n
  }

  lemma PassedNone(m: Memory, fp: int, n: int)
    requires fp in m
    ensures PassedTo(m, fp, n, 1, fp, m[fp].ptr)
  {
    assert Nth(m, fp, 0) == fp;
  }

  lemma PassedMore(m: Memory, fp: int, n: int, k: nat, prevp: int, p: int)
    requires PassedTo(m, fp, n, k, prevp, p) && p in m && m[p].size < n
    ensures PassedTo(m, fp, n, k + 1, p, m[p].ptr)
  {
    assert Passing(0, k);
  }

  lemma FitFound(m: Memory, fp: int, n: int, k: nat, prevp: int, p: int)
    requires PassedTo(m, fp, n, k, prevp, p) && p in m && m[p].size >= n
    ensures CutFirst(m, fp, n, p + m[p].size - n, prevp)
  {
    assert Passing(0, k);
    assert FirstFit(m, fp, n, k);
  }

  ghost predicate Serving(z: int) { true }

  /** `malloc` had to ask for memory and got the break moved. To be opened by mentioning `Serving`. */
  ghost predicate Supplied(nunits: nat, room: bool, h: Heap, brk: int, h': Heap, brk': int, got': set<int>) {
    forall z :: Serving(z) ==>
      && NoneFits(h, nunits) && !Refused(brk, Request(nunits), room)
      && brk' == BreakAfter(brk, Request(nunits)) && Accessible(brk, brk')
      && h'.live == h.live && h'.owner.Keys == h.owner.Keys + Units(brk, Asked(nunits), brk).Keys
      && (BackedBy(h', brk', got') <==> !Overflows(nunits))
  }

  /** What `malloc` makes of the heap, the break and the units obtained. To be opened by mentioning
      `Serving`. */
  ghost predicate Served(r: MallocResult, nunits: nat, room: bool, h: Heap, brk: int, got: set<int>, h': Heap,
      brk': int, got': set<int>) {
    forall z :: Serving(z) ==>
      var n := Request(nunits);
      && (r.Null? <==> NoneFits(h, nunits) && Refused(brk, n, room))
      && (r.Killed? <==> NoneFits(h, nunits) && !Refused(brk, n, room) && !Accessible(brk, BreakAfter(brk, n)))
      && (r.Null? ==> h' == h && brk' == brk && got' == got)
      && (r.Killed? ==> Overflows(nunits))
      && (r.Block? ==> r.b !in h.live && h'.live == h.live[r.b := nunits])
      && (r.Block? ==> (BackedBy(h', brk', got') <==> !(NoneFits(h, nunits) && Overflows(nunits))))
      && (r.Block? && !NoneFits(h, nunits) ==> h'.owner.Keys == h.owner.Keys && brk' == brk && got' == got)
      && (r.Block? && NoneFits(h, nunits) ==>
            && brk' == BreakAfter(brk, n)
            && h'.owner.Keys == h.owner.Keys + Units(brk, Asked(nunits), brk).Keys)
  }

  lemma TakenServed(asked: bool, r: MallocResult, nunits: nat, room: bool, h: Heap, brk: int, got: set<int>,
                    h1: Heap, h': Heap, brk': int, got': set<int>)
    requires BackedBy(h, brk, got) && r.Block?
    requires if asked then Supplied(nunits, room, h, brk, h1, brk', got')
             else h1 == h && brk' == brk && got' == got && !NoneFits(h, nunits)
    requires r.b !in h1.live && h'.live == h1.live[r.b := nunits] && h'.owner.Keys == h1.owner.Keys
    ensures Served(r, nunits, room, h, brk, got, h', brk', got')
  {
    assert Serving(0);
  }

  lemma OneFits(h: Heap, i: nat, n: int)
    requires Sound(h) && i < |h.ring| && Next(h.ring, i) in h.m && h.m[Next(h.ring, i)].size >= n
    ensures !NoneFits(h, n)
  {
    WalkSummary(h, i);
    assert !TooSmall(h, NextIndex(i, |h.ring|), n);
  }

  /** A call of the program; `Release(k)` frees the `k`-th of the blocks it still holds, and `Other` is
      memory that it takes from `sbrk` for itself. */
  datatype Call = Allocate(nbytes: nat, room: bool) | Release(k: nat) | Other(n: nat, lazy: bool, room: bool)
  {
    /** The size fits an `int` once it is rounded up. */
    predicate Ok() {
      match this
      case Allocate(nbytes, _) => nbytes < WORD && !Overflows(UnitsFor(nbytes))
      case Release(_) => true
      case Other(n, _, _) => n % 16 == 0
    }
  }

  /** `held` lists the live blocks, each once. */
  ghost predicate Holds(held: seq<int>, live: map<int, int>) {
    Distinct(held) && forall b :: b in held <==> b in live
  }

  /** The program asked for a block of `nbytes` bytes. */
  ghost predicate AskedFor(calls: seq<Call>, nbytes: nat) {
    exists c :: c in calls && c.Allocate? && c.nbytes == nbytes
  }

  /** The `k`-th block it holds has room for the `asked[k]` bytes asked for, and less than a unit more. */
  ghost predicate Roomy(calls: seq<Call>, held: seq<int>, asked: seq<nat>, live: map<int, int>) {
    && |asked| == |held|
    && forall k :: 0 <= k < |held| ==>
         && held[k] in live && asked[k] <= (live[held[k]] - 1) * 16 < asked[k] + 16
         && AskedFor(calls, asked[k])
  }

  lemma HoldsLess(held: seq<int>, live: map<int, int>, k: nat)
    requires Holds(held, live) && k < |held|
    ensures Holds(held[..k] + held[k + 1..], live - {held[k]})
  {
    var h := held[..k] + held[k + 1..];
    forall b ensures b in h <==> b in live && b != held[k] {
      if b in live && b != held[k] {
        var i :| 0 <= i < |held| && held[i] == b;
        assert h[if i < k then i else i - 1] == b;
      }
    }
  }

  /** After any sequence of `malloc` and `free` of live blocks, with requests that fit an `int` and
      refusals anywhere, the free list is one address-ordered cycle without touching blocks, and free
      and live blocks are disjoint and together exactly the memory obtained. Each block the program holds
      has room for the bytes it asked for. */
  method Run(a: Allocator, calls: seq<Call>) returns (held: seq<int>, asked: seq<nat>)
    requires a.Valid() && a.Backed() && a.heap.live == map[] && forall c :: c in calls ==> c.Ok()
    modifies a
    ensures a.Valid() && a.Backed() && Holds(held, a.heap.live)
    ensures |asked| == |held| && forall k :: 0 <= k < |held| ==> held[k] in a.heap.live && AskedFor(calls, asked[k])
    ensures forall k :: 0 <= k < |held| ==> asked[k] <= (a.heap.live[held[k]] - 1) * 16 < asked[k] + 16
    ensures a.freep != NULL ==> FreeList(a.m, a.heap.ring) && Matches(a.heap)
    ensures forall x :: x in a.got <==> exists b :: b in a.heap.blocks && b <= x < b + a.heap.blocks[b]
    ensures forall b, c :: b in a.heap.blocks && c in a.heap.blocks && b < c ==> b + a.heap.blocks[b] <= c
  {
    held, asked := [], [];
    for i := 0 to |calls|
      invariant a.Valid() && a.Backed() && Holds(held, a.heap.live) && Roomy(calls, held, asked, a.heap.live)
    {
      assert calls[i] in calls;
      match calls[i] {
        case Allocate(nbytes, room) =>
          var r := a.Malloc(nbytes, room);
          if r.Block? { held, asked := held + [r.b], asked + [nbytes]; }
        case Release(k) =>
          if k < |held| {
            HoldsLess(held, a.heap.live, k);
            assert held[k] in held;
            a.Free(held[k]);
            held, asked := held[..k] + held[k + 1..], asked[..k] + asked[k + 1..];
          }
        case Other(n, lazy, room) =>
          var _ := a.Sbrk(n, lazy, room);
      }
    }
    if a.freep != NULL {
      assert Looking(0);
      TilesMeans(a.heap.blocks, a.heap.owner);
    }
  }

  /** The request that goes wrong by most: the largest `malloc` is handed a block of 2^28 + 1 units
      after obtaining a single one, and the next `sbrk` answers with an address inside that block. */
  method HugeMalloc(brk: int) returns (a: Allocator, b: int, next: int)
    requires 0 < brk && brk * 16 + 32 <= TRAPFRAME
    ensures a.Valid() && !a.Backed() && b in a.heap.live && a.heap.live[b] == 0x1000_0001
    ensures b == brk && next == b + 1 && b < next < b + a.heap.live[b]
  {
    a := new Allocator(brk);
    assert NoneFits(a.heap, UnitsFor(WORD - 1));
    assert Request(UnitsFor(WORD - 1)) == 16;
    var r := a.Malloc(WORD - 1, true);
    b := r.b;
    LiveInside(a.heap, b);
    next := a.Sbrk(16, false, true);
  }

  /** List position `j` lies between the one after `i` and `f`, going round. */
  predicate Ahead(i: nat, f: nat, j: nat, n: nat) {
    Cyclic(NextIndex(i, n), j, n) <= Cyclic(NextIndex(i, n), f, n)
  }

  predicate TooSmall(h: Heap, j: nat, n: int) {
    j < |h.ring| && h.ring[j] in h.m && h.m[h.ring[j]].size < n
  }

  ghost predicate NoneFits(h: Heap, n: int) {
    forall j: nat :: j < |h.ring| ==> TooSmall(h, j, n)
  }

  ghost predicate Lapping(z: int, i: nat) { true }

  /** Everything from the block after `f` up to `i` was too small. To be opened by mentioning `Lapping`. */
  ghost predicate Passed(h: Heap, i: nat, f: nat, n: int) {
    forall z :: Lapping(z, i) ==> forall j: nat :: j < |h.ring| ==> TooSmall(h, j, n) || Ahead(i, f, j, |h.ring|)
  }

  lemma LapBegins(h: Heap, f: nat, n: int)
    requires f < |h.ring|
    ensures Passed(h, f, f, n)
  {
  }

  lemma PassOne(h: Heap, i: nat, f: nat, n: int)
    requires i < |h.ring| && f < |h.ring| && Passed(h, i, f, n)
    requires TooSmall(h, NextIndex(i, |h.ring|), n) && NextIndex(i, |h.ring|) != f
    ensures Passed(h, NextIndex(i, |h.ring|), f, n)
  {
    assert Lapping(0, i);
  }

  /** One step nearer to block `f`, unless it is there. */
  lemma Closer(h: Heap, i: nat, f: nat)
    requires Sound(h) && i < |h.ring| && f < |h.ring|
    ensures var n, k := |h.ring|, NextIndex(i, |h.ring|);
            && k < n && Next(h.ring, i) == h.ring[k] && h.ring[k] in h.m && h.m[h.ring[k]].ptr == Next(h.ring, k)
            && (h.ring[k] != h.ring[f] ==> 0 <= Cyclic(NextIndex(k, n), f, n) < Cyclic(k, f, n))
  {
    WalkSummary(h, i);
    WalkSummary(h, NextIndex(i, |h.ring|));
  }

  lemma LapDone(h: Heap, i: nat, f: nat, n: int)
    requires Sound(h) && i < |h.ring| && f < |h.ring| && Passed(h, i, f, n)
    requires Next(h.ring, i) == h.ring[f] && Next(h.ring, i) in h.m && h.m[Next(h.ring, i)].size < n
    ensures NoneFits(h, n)
  {
    WalkSummary(h, i);
    WalkSummary(h, f);
    assert NextIndex(i, |h.ring|) == f;
    assert TooSmall(h, f, n) && Lapping(0, i);
  }

  function NextIndex(i: nat, n: nat): nat {
    if i + 1 < n then i + 1 else 0
  }
}
