/** The file layer of kernel/fs.c: free bitmap, direct and indirect block
    addresses, truncation, and reading and writing byte ranges. */
module FileSystem {

  const BSIZE: nat := 1024
  const NDIRECT: nat := 12
  const NINDIRECT: nat := 256
  const MAXFILE: nat := NDIRECT + NINDIRECT
  const WORD: nat := 0x1_0000_0000

  /** A block is BSIZE bytes. */
  type Block = seq<int>

  function ZeroBlock(): (r: Block)
    ensures |r| == BSIZE && forall j :: 0 <= j < BSIZE ==> r[j] == 0
  {
    seq(BSIZE, _ => 0)
  }

  /** Entry `k` of an indirect block, four bytes in little-endian order. */
  function Entry(b: Block, k: nat): int
    requires |b| == BSIZE && k < NINDIRECT
  {
    b[4 * k] + 0x100 * b[4 * k + 1] + 0x1_0000 * b[4 * k + 2] + 0x100_0000 * b[4 * k + 3]
  }

  function WithEntry(b: Block, k: nat, v: nat): (r: Block)
    requires |b| == BSIZE && k < NINDIRECT
    ensures |r| == BSIZE
  {
    b[4 * k := v % 0x100][4 * k + 1 := v / 0x100 % 0x100]
     [4 * k + 2 := v / 0x100 / 0x100 % 0x100][4 * k + 3 := v / 0x100 / 0x100 / 0x100]
  }

  lemma EntryRoundTrip(b: Block, k: nat, v: nat, j: nat)
    requires |b| == BSIZE && k < NINDIRECT && j < NINDIRECT
    ensures Entry(WithEntry(b, k, v), j) == if j == k then v else Entry(b, j)
  {
    var r := WithEntry(b, k, v);
    if j == k {
      assert r[4 * k] == v % 0x100 && r[4 * k + 1] == v / 0x100 % 0x100;
      assert r[4 * k + 2] == v / 0x100 / 0x100 % 0x100 && r[4 * k + 3] == v / 0x100 / 0x100 / 0x100;
    }
  }

  // -------- The disk as a value --------

  /** `addrs` holds NDIRECT direct addresses and the address of the indirect block. */
  datatype Inode = Inode(addrs: seq<int>, size: nat)

  datatype Fs = Fs(bitmap: seq<bool>, blocks: seq<Block>, inodes: seq<Inode>, nmeta: nat)

  /** Where a block address is stored: in inode `i` itself (NDIRECT is its
      indirect block), or in that indirect block. */
  datatype Ref = InInode(i: nat, k: nat) | InBlock(i: nat, k: nat)

  predicate IsRef(f: Fs, r: Ref) {
    r.i < |f.inodes| && (if r.InInode? then r.k <= NDIRECT else r.k < NINDIRECT)
  }

  predicate Shaped(f: Fs) {
    && |f.bitmap| == |f.blocks| <= WORD && 0 < f.nmeta <= |f.bitmap|
    && (forall b :: 0 <= b < |f.blocks| ==> |f.blocks[b]| == BSIZE)
    && (forall i :: 0 <= i < |f.inodes| ==> |f.inodes[i].addrs| == NDIRECT + 1)
  }

  /** The address stored at `r`; 0 means none. */
  function Addr(f: Fs, r: Ref): int
    requires Shaped(f) && IsRef(f, r)
  {
    match r
    case InInode(i, k) => f.inodes[i].addrs[k]
    case InBlock(i, k) =>
      var ind := f.inodes[i].addrs[NDIRECT];
      if 0 < ind < |f.blocks| then Entry(f.blocks[ind], k) else 0
  }

  /** Which stored address names each block in use beyond the metadata. */
  type Owners = map<int, Ref>

  /** Each owned block is named by its owner, and each stored address is owned by
      the place that stores it: so no block is named twice. The bitmap is set
      for exactly the metadata blocks and the owned ones. */
  ghost predicate Owned(f: Fs, own: Owners) {
    && Shaped(f)
    && (forall b :: b in own ==> f.nmeta <= b < |f.bitmap| && IsRef(f, own[b]) && Addr(f, own[b]) == b)
    && (forall r :: IsRef(f, r) && Addr(f, r) != 0 ==> Addr(f, r) in own && own[Addr(f, r)] == r)
    && (forall b :: 0 <= b < |f.bitmap| ==> (f.bitmap[b] <==> b < f.nmeta || b in own))
  }

  /** What ownership means, without the bookkeeping. */
  lemma OwnedMeans(f: Fs, own: Owners)
    requires Owned(f, own)
    ensures forall r, q :: IsRef(f, r) && IsRef(f, q) && Addr(f, r) != 0 && Addr(f, r) == Addr(f, q) ==> r == q
    ensures forall b :: 0 <= b < |f.bitmap| ==>
              (f.bitmap[b] <==> b < f.nmeta || exists r :: IsRef(f, r) && Addr(f, r) == b)
    ensures forall r :: IsRef(f, r) && Addr(f, r) != 0 ==> f.nmeta <= Addr(f, r) < |f.bitmap|
  {
    forall b | 0 <= b < |f.bitmap|
      ensures f.bitmap[b] <==> b < f.nmeta || exists r :: IsRef(f, r) && Addr(f, r) == b
    {
      if b in own { assert IsRef(f, own[b]) && Addr(f, own[b]) == b; }
    }
  }

  // -------- Allocation --------

  /** `balloc` of block `b`, stored at inode address `k`. */
  function GiveInode(f: Fs, i: nat, k: nat, b: nat): Fs
    requires Shaped(f) && i < |f.inodes| && k <= NDIRECT && b < |f.bitmap|
  {
    f.(bitmap := f.bitmap[b := true], blocks := f.blocks[b := ZeroBlock()],
       inodes := f.inodes[i := f.inodes[i].(addrs := f.inodes[i].addrs[k := b])])
  }

  lemma GiveInodeAddr(f: Fs, own: Owners, i: nat, k: nat, b: nat, r: Ref)
    requires Owned(f, own) && i < |f.inodes| && k <= NDIRECT && b < |f.bitmap| && !f.bitmap[b]
    requires Addr(f, InInode(i, k)) == 0 && IsRef(f, r)
    ensures Addr(GiveInode(f, i, k, b), r) == if r == InInode(i, k) then b else Addr(f, r)
  {
    var g := GiveInode(f, i, k, b);
    if r.InBlock? {
      var ind := f.inodes[r.i].addrs[NDIRECT];
      assert Addr(f, InInode(r.i, NDIRECT)) == ind;
      if r.i == i && k == NDIRECT {
        assert b > 0;
        assert g.blocks[b] == ZeroBlock();
      }
    }
  }

  lemma GiveInodeKeeps(f: Fs, own: Owners, i: nat, k: nat, b: nat)
    requires Owned(f, own) && i < |f.inodes| && k <= NDIRECT && b < |f.bitmap| && !f.bitmap[b]
    requires Addr(f, InInode(i, k)) == 0
    ensures Owned(GiveInode(f, i, k, b), own[b := InInode(i, k)])
  {
    forall r | IsRef(f, r) ensures Addr(GiveInode(f, i, k, b), r) == if r == InInode(i, k) then b else Addr(f, r) {
      GiveInodeAddr(f, own, i, k, b, r);
    }
  }

  /** `balloc` of block `b`, stored in entry `k` of the inode's indirect block. */
  function GiveBlock(f: Fs, i: nat, k: nat, b: nat): Fs
    requires Shaped(f) && i < |f.inodes| && k < NINDIRECT && b < |f.bitmap|
    requires 0 < f.inodes[i].addrs[NDIRECT] < |f.blocks|
  {
    var ind := f.inodes[i].addrs[NDIRECT];
    var blocks := f.blocks[b := ZeroBlock()];
    f.(bitmap := f.bitmap[b := true], blocks := blocks[ind := WithEntry(blocks[ind], k, b)])
  }

  lemma GiveBlockAddr(f: Fs, own: Owners, i: nat, k: nat, b: nat, r: Ref)
    requires Owned(f, own) && i < |f.inodes| && k < NINDIRECT && b < |f.bitmap| && !f.bitmap[b]
    requires f.inodes[i].addrs[NDIRECT] != 0 && IsRef(f, r)
    ensures 0 < f.inodes[i].addrs[NDIRECT] < |f.blocks|
    ensures Addr(GiveBlock(f, i, k, b), r) == if r == InBlock(i, k) then b else Addr(f, r)
  {
    var ind := f.inodes[i].addrs[NDIRECT];
    assert Addr(f, InInode(i, NDIRECT)) == ind && own[ind] == InInode(i, NDIRECT);
    var g := GiveBlock(f, i, k, b);
    if r.InBlock? {
      var ind' := f.inodes[r.i].addrs[NDIRECT];
      if ind' != 0 {
        assert Addr(f, InInode(r.i, NDIRECT)) == ind' && own[ind'] == InInode(r.i, NDIRECT);
        if r.i == i { EntryRoundTrip(f.blocks[ind], k, b, r.k); }
      }
    }
  }

  lemma GiveBlockKeeps(f: Fs, own: Owners, i: nat, k: nat, b: nat)
    requires Owned(f, own) && i < |f.inodes| && k < NINDIRECT && b < |f.bitmap| && !f.bitmap[b]
    requires f.inodes[i].addrs[NDIRECT] != 0 && Addr(f, InBlock(i, k)) == 0
    ensures 0 < f.inodes[i].addrs[NDIRECT] < |f.blocks|
    ensures Owned(GiveBlock(f, i, k, b), own[b := InBlock(i, k)])
  {
    GiveBlockAddr(f, own, i, k, b, InBlock(i, k));
    forall r | IsRef(f, r) ensures Addr(GiveBlock(f, i, k, b), r) == if r == InBlock(i, k) then b else Addr(f, r) {
      GiveBlockAddr(f, own, i, k, b, r);
    }
  }

  // -------- File contents --------

  /** Where the address of a file's `bn`th block is stored. */
  function DataRef(i: nat, bn: nat): Ref {
    if bn < NDIRECT then InInode(i, bn) else InBlock(i, bn - NDIRECT)
  }

  /** The address of block `bn` of file `i` is `a`: the first twelve addresses are in the inode, the others
      in the block that its thirteenth address names, as 32-bit little-endian numbers. */
  predicate BlockAt(f: Fs, i: nat, bn: nat, a: int) {
    && i < |f.inodes| && |f.inodes[i].addrs| == 13
    && if bn < 12 then f.inodes[i].addrs[bn] == a
       else
         var ind, at := f.inodes[i].addrs[12], 4 * (bn - 12);
         && 0 < ind < |f.blocks| && at + 3 < |f.blocks[ind]|
         && var b := f.blocks[ind];
            b[at] + b[at + 1] * 0x100 + b[at + 2] * 0x1_0000 + b[at + 3] * 0x100_0000 == a
  }

  lemma StoredAt(f: Fs, i: nat, bn: nat, a: int)
    requires Shaped(f) && i < |f.inodes| && bn < MAXFILE && Addr(f, DataRef(i, bn)) == a != 0
    ensures BlockAt(f, i, bn, a)
  {
  }

  /** Byte `p` of file `i` is `x`, in block `p / 1024` of the file. */
  ghost predicate ByteAt(f: Fs, i: nat, p: nat, x: int) {
    exists a ::
      && BlockAt(f, i, p / 1024, a) && 0 < a < |f.blocks|
      && p % 1024 < |f.blocks[a]| && f.blocks[a][p % 1024] == x
  }

  /** The bytes of a file are where the block map says. */
  lemma ContentsAt(f: Fs, own: Owners, i: nat, p: nat)
    requires Inv(f, own) && i < |f.inodes| && p < f.inodes[i].size
    ensures f.inodes[i].size <= MAXFILE * BSIZE && ByteAt(f, i, p, Contents(f, i)[p])
  {
    assert NoHole(f, i);
    var bn := p / BSIZE;
    assert bn * BSIZE <= p;
    var r := DataRef(i, bn);
    assert IsRef(f, r) && Addr(f, r) != 0;
    StoredAt(f, i, bn, Addr(f, r));
  }

  /** Byte `j` of the space of inode `i`; a block that does not exist reads as zeroes. */
  function Byte(f: Fs, i: nat, j: nat): int
    requires Shaped(f) && i < |f.inodes| && j < MAXFILE * BSIZE
  {
    var a := Addr(f, DataRef(i, j / BSIZE));
    if 0 < a < |f.blocks| then f.blocks[a][j % BSIZE] else 0
  }

  /** No block below the size is missing. */
  ghost predicate NoHole(f: Fs, i: nat)
    requires Shaped(f) && i < |f.inodes|
  {
    && f.inodes[i].size <= MAXFILE * BSIZE
    && forall bn: nat :: bn < MAXFILE && bn * BSIZE < f.inodes[i].size ==> Addr(f, DataRef(i, bn)) != 0
  }

  ghost predicate Inv(f: Fs, own: Owners) {
    Owned(f, own) && forall i :: 0 <= i < |f.inodes| ==> NoHole(f, i)
  }

  /** The file as a sequence of bytes. */
  ghost function Contents(f: Fs, i: nat): seq<int>
    requires Shaped(f) && i < |f.inodes| && f.inodes[i].size <= MAXFILE * BSIZE
  {
    seq(f.inodes[i].size, j requires 0 <= j < f.inodes[i].size => Byte(f, i, j))
  }

  /** Two disks with the same files, byte for byte. */
  ghost predicate SameBytes(f: Fs, g: Fs) {
    && Shaped(f) && Shaped(g) && |f.inodes| == |g.inodes| && |f.bitmap| == |g.bitmap| && f.nmeta == g.nmeta
    && (forall i :: 0 <= i < |f.inodes| ==> f.inodes[i].size == g.inodes[i].size)
    && forall i, j :: 0 <= i < |f.inodes| && 0 <= j < MAXFILE * BSIZE ==> Byte(f, i, j) == Byte(g, i, j)
  }

  lemma GiveInodeBytes(f: Fs, own: Owners, i: nat, k: nat, b: nat)
    requires Owned(f, own) && i < |f.inodes| && k <= NDIRECT && b < |f.bitmap| && !f.bitmap[b]
    requires Addr(f, InInode(i, k)) == 0
    ensures SameBytes(f, GiveInode(f, i, k, b))
  {
    var g := GiveInode(f, i, k, b);
    forall i', j | 0 <= i' < |f.inodes| && 0 <= j < MAXFILE * BSIZE ensures Byte(f, i', j) == Byte(g, i', j) {
      GiveInodeAddr(f, own, i, k, b, DataRef(i', j / BSIZE));
    }
  }

  lemma GiveBlockBytes(f: Fs, own: Owners, i: nat, k: nat, b: nat)
    requires Owned(f, own) && i < |f.inodes| && k < NINDIRECT && b < |f.bitmap| && !f.bitmap[b]
    requires f.inodes[i].addrs[NDIRECT] != 0 && Addr(f, InBlock(i, k)) == 0
    ensures 0 < f.inodes[i].addrs[NDIRECT] < |f.blocks|
    ensures SameBytes(f, GiveBlock(f, i, k, b))
  {
    GiveBlockAddr(f, own, i, k, b, InBlock(i, k));
    var g, ind := GiveBlock(f, i, k, b), f.inodes[i].addrs[NDIRECT];
    assert Addr(f, InInode(i, NDIRECT)) == ind && own[ind] == InInode(i, NDIRECT);
    forall i', j | 0 <= i' < |f.inodes| && 0 <= j < MAXFILE * BSIZE ensures Byte(f, i', j) == Byte(g, i', j) {
      GiveBlockAddr(f, own, i, k, b, DataRef(i', j / BSIZE));
      assert Addr(f, DataRef(i', j / BSIZE)) != ind;
    }
  }

  // -------- Writing into a file's block --------

  function Patch(b: Block, off: nat, data: seq<int>): (r: Block)
    requires off + |data| <= |b|
    ensures |r| == |b| && forall j :: 0 <= j < |b| ==> r[j] == if off <= j < off + |data| then data[j - off] else b[j]
  {
    b[..off] + data + b[off + |data|..]
  }

  function Patched(f: Fs, a: nat, off: nat, data: seq<int>): Fs
    requires Shaped(f) && a < |f.blocks| && off + |data| <= BSIZE
  {
    f.(blocks := f.blocks[a := Patch(f.blocks[a], off, data)])
  }

  lemma PatchedAddr(f: Fs, own: Owners, i: nat, bn: nat, off: nat, data: seq<int>, r: Ref)
    requires Owned(f, own) && i < |f.inodes| && bn < MAXFILE && off + |data| <= BSIZE
    requires Addr(f, DataRef(i, bn)) != 0 && IsRef(f, r)
    ensures 0 < Addr(f, DataRef(i, bn)) < |f.blocks|
    ensures Addr(Patched(f, Addr(f, DataRef(i, bn)), off, data), r) == Addr(f, r)
  {
    var a := Addr(f, DataRef(i, bn));
    assert own[a] == DataRef(i, bn);
    if r.InBlock? {
      var ind := f.inodes[r.i].addrs[NDIRECT];
      assert Addr(f, InInode(r.i, NDIRECT)) == ind;
      assert ind != a;
    }
  }

  /** The file's bytes after writing `data` at byte `at`, within one block. */
  lemma PatchedByte(f: Fs, own: Owners, i: nat, at: nat, data: seq<int>, i': nat, j: nat)
    requires Owned(f, own) && i < |f.inodes| && at / BSIZE < MAXFILE && at % BSIZE + |data| <= BSIZE
    requires Addr(f, DataRef(i, at / BSIZE)) != 0 && i' < |f.inodes| && j < MAXFILE * BSIZE
    ensures 0 < Addr(f, DataRef(i, at / BSIZE)) < |f.blocks|
    ensures Byte(Patched(f, Addr(f, DataRef(i, at / BSIZE)), at % BSIZE, data), i', j) ==
              if i' == i && at <= j < at + |data| then data[j - at] else Byte(f, i', j)
  {
    PatchedAddr(f, own, i, at / BSIZE, at % BSIZE, data, DataRef(i', j / BSIZE));
    var a := Addr(f, DataRef(i, at / BSIZE));
    assert own[a] == DataRef(i, at / BSIZE);
    if Addr(f, DataRef(i', j / BSIZE)) == a {
      assert DataRef(i', j / BSIZE) == DataRef(i, at / BSIZE);
      assert j / BSIZE == at / BSIZE;
    }
  }

  // -------- Truncation --------

  /** Files other than `i` are untouched. */
  ghost predicate SameOthers(f: Fs, g: Fs, i: nat) {
    && Shaped(f) && Shaped(g) && |f.inodes| == |g.inodes| && |f.bitmap| == |g.bitmap| && f.nmeta == g.nmeta
    && (forall i' :: 0 <= i' < |f.inodes| && i' != i ==> f.inodes[i'] == g.inodes[i'])
    && (forall r :: IsRef(f, r) && r.i != i ==> Addr(g, r) == Addr(f, r))
    && forall i', j :: 0 <= i' < |f.inodes| && i' != i && 0 <= j < MAXFILE * BSIZE ==> Byte(g, i', j) == Byte(f, i', j)
  }

  /** `bfree` of the block at direct address `k`, and clearing the address. */
  function TakeInode(f: Fs, i: nat, k: nat): Fs
    requires Shaped(f) && i < |f.inodes| && k < NDIRECT && 0 <= f.inodes[i].addrs[k] < |f.bitmap|
  {
    f.(bitmap := f.bitmap[f.inodes[i].addrs[k] := false],
       inodes := f.inodes[i := f.inodes[i].(addrs := f.inodes[i].addrs[k := 0])])
  }

  lemma TakeInodeKeeps(f: Fs, own: Owners, i: nat, k: nat)
    requires Owned(f, own) && i < |f.inodes| && k < NDIRECT && f.inodes[i].addrs[k] != 0
    ensures 0 < f.inodes[i].addrs[k] < |f.bitmap| && f.bitmap[f.inodes[i].addrs[k]]
    ensures Owned(TakeInode(f, i, k), own - {f.inodes[i].addrs[k]})
    ensures SameOthers(f, TakeInode(f, i, k), i)
    ensures forall r :: IsRef(f, r) && r != InInode(i, k) ==> Addr(TakeInode(f, i, k), r) == Addr(f, r)
  {
    var b := f.inodes[i].addrs[k];
    assert Addr(f, InInode(i, k)) == b && own[b] == InInode(i, k);
    var g := TakeInode(f, i, k);
    assert forall r :: IsRef(f, r) && r != InInode(i, k) ==> Addr(g, r) == Addr(f, r);
  }

  /** The bitmap after freeing the first `n` entries of indirect block `blk`. */
  function FreeEntries(bitmap: seq<bool>, blk: Block, n: nat): (r: seq<bool>)
    requires |blk| == BSIZE && n <= NINDIRECT
    ensures |r| == |bitmap|
  {
    if n == 0 then bitmap else
      var r := FreeEntries(bitmap, blk, n - 1);
      var e := Entry(blk, n - 1);
      if 0 < e < |bitmap| then r[e := false] else r
  }

  lemma {:induction false} FreeEntriesAt(bitmap: seq<bool>, blk: Block, n: nat, b: nat)
    requires |blk| == BSIZE && n <= NINDIRECT && 0 < b < |bitmap|
    ensures FreeEntries(bitmap, blk, n)[b] <==> bitmap[b] && forall k :: 0 <= k < n ==> Entry(blk, k) != b
  {
    if n > 0 { FreeEntriesAt(bitmap, blk, n - 1, b); }
  }

  /** The second half of `itrunc`: all entries, and the indirect block itself. */
  function TakeIndirect(f: Fs, i: nat): Fs
    requires Shaped(f) && i < |f.inodes| && 0 < f.inodes[i].addrs[NDIRECT] < |f.blocks|
  {
    var ind := f.inodes[i].addrs[NDIRECT];
    f.(bitmap := FreeEntries(f.bitmap, f.blocks[ind], NINDIRECT)[ind := false],
       inodes := f.inodes[i := f.inodes[i].(addrs := f.inodes[i].addrs[NDIRECT := 0])])
  }

  ghost function WithoutIndirect(own: Owners, i: nat): Owners {
    map b | b in own && !(own[b].i == i && (own[b].InBlock? || own[b].k == NDIRECT)) :: own[b]
  }

  /** Entry `n`, if there is one, names a block that is still in use once the entries before it are freed. */
  ghost predicate StillUsed(bitmap: seq<bool>, blk: Block, n: nat)
    requires |blk| == BSIZE && n < NINDIRECT
  {
    Entry(blk, n) != 0 ==> 0 < Entry(blk, n) < |bitmap| && FreeEntries(bitmap, blk, n)[Entry(blk, n)]
  }

  /** Freeing the entries in order never frees a free block. */
  lemma EntryStillUsed(f: Fs, own: Owners, i: nat, n: nat)
    requires Owned(f, own) && i < |f.inodes| && f.inodes[i].addrs[NDIRECT] != 0 && n < NINDIRECT
    ensures 0 < f.inodes[i].addrs[NDIRECT] < |f.blocks|
    ensures StillUsed(f.bitmap, f.blocks[f.inodes[i].addrs[NDIRECT]], n)
  {
    var ind := f.inodes[i].addrs[NDIRECT];
    assert Addr(f, InInode(i, NDIRECT)) == ind && own[ind] == InInode(i, NDIRECT);
    var blk := f.blocks[ind];
    var e := Entry(blk, n);
    assert Addr(f, InBlock(i, n)) == e;
    if e != 0 {
      assert own[e] == InBlock(i, n);
      FreeEntriesAt(f.bitmap, blk, n, e);
      forall k | 0 <= k < n ensures Entry(blk, k) != e {
        assert Addr(f, InBlock(i, k)) == Entry(blk, k);
      }
    }
  }

  lemma IndirectStillUsed(f: Fs, own: Owners, i: nat)
    requires Owned(f, own) && i < |f.inodes| && f.inodes[i].addrs[NDIRECT] != 0
    ensures 0 < f.inodes[i].addrs[NDIRECT] < |f.blocks|
    ensures FreeEntries(f.bitmap, f.blocks[f.inodes[i].addrs[NDIRECT]], NINDIRECT)[f.inodes[i].addrs[NDIRECT]]
  {
    var ind := f.inodes[i].addrs[NDIRECT];
    assert Addr(f, InInode(i, NDIRECT)) == ind && own[ind] == InInode(i, NDIRECT);
    FreeEntriesAt(f.bitmap, f.blocks[ind], NINDIRECT, ind);
    forall k | 0 <= k < NINDIRECT ensures Entry(f.blocks[ind], k) != ind {
      assert Addr(f, InBlock(i, k)) == Entry(f.blocks[ind], k);
    }
  }

  lemma TakeIndirectBitmap(f: Fs, own: Owners, i: nat, b: nat)
    requires Owned(f, own) && i < |f.inodes| && f.inodes[i].addrs[NDIRECT] != 0 && b < |f.bitmap|
    ensures 0 < f.inodes[i].addrs[NDIRECT] < |f.blocks|
    ensures TakeIndirect(f, i).bitmap[b] <==> b < f.nmeta || b in WithoutIndirect(own, i)
  {
    var ind := f.inodes[i].addrs[NDIRECT];
    assert Addr(f, InInode(i, NDIRECT)) == ind && own[ind] == InInode(i, NDIRECT);
    var blk := f.blocks[ind];
    assert forall k :: 0 <= k < NINDIRECT ==> Addr(f, InBlock(i, k)) == Entry(blk, k);
    if b > 0 {
      FreeEntriesAt(f.bitmap, blk, NINDIRECT, b);
      if b in own && own[b].InBlock? && own[b].i == i {
        assert Entry(blk, own[b].k) == b;
      }
      if k :| 0 <= k < NINDIRECT && Entry(blk, k) == b {
        assert own[b] == InBlock(i, k);
      }
    } else {
      FreeEntriesZero(f.bitmap, blk, NINDIRECT);
    }
  }

  lemma {:induction false} FreeEntriesZero(bitmap: seq<bool>, blk: Block, n: nat)
    requires |blk| == BSIZE && n <= NINDIRECT && |bitmap| > 0
    ensures FreeEntries(bitmap, blk, n)[0] == bitmap[0]
  {
    if n > 0 { FreeEntriesZero(bitmap, blk, n - 1); }
  }

  lemma TakeIndirectAddr(f: Fs, own: Owners, i: nat, r: Ref)
    requires Owned(f, own) && i < |f.inodes| && f.inodes[i].addrs[NDIRECT] != 0 && IsRef(f, r)
    ensures 0 < f.inodes[i].addrs[NDIRECT] < |f.blocks|
    ensures Addr(TakeIndirect(f, i), r) ==
              if r.i == i && (r.InBlock? || r.k == NDIRECT) then 0 else Addr(f, r)
  {
    IndirectStillUsed(f, own, i);
  }

  lemma TakeIndirectKeeps(f: Fs, own: Owners, i: nat)
    requires Owned(f, own) && i < |f.inodes| && f.inodes[i].addrs[NDIRECT] != 0
    ensures 0 < f.inodes[i].addrs[NDIRECT] < |f.blocks|
    ensures Owned(TakeIndirect(f, i), WithoutIndirect(own, i)) && SameOthers(f, TakeIndirect(f, i), i)
  {
    IndirectStillUsed(f, own, i);
    var g := TakeIndirect(f, i);
    forall r | IsRef(f, r)
      ensures Addr(g, r) == if r.i == i && (r.InBlock? || r.k == NDIRECT) then 0 else Addr(f, r)
    {
      TakeIndirectAddr(f, own, i, r);
    }
    forall b | 0 <= b < |f.bitmap| ensures g.bitmap[b] <==> b < f.nmeta || b in WithoutIndirect(own, i) {
      TakeIndirectBitmap(f, own, i, b);
    }
    forall r | IsRef(g, r) && Addr(g, r) != 0
      ensures Addr(g, r) in WithoutIndirect(own, i) && WithoutIndirect(own, i)[Addr(g, r)] == r
    {
      assert IsRef(f, r) && Addr(g, r) == Addr(f, r) && own[Addr(f, r)] == r;
    }
  }

  // -------- The operations --------

  /** A marker: ownership is looked into only where this is mentioned. */
  ghost predicate Inside(z: int) {
    true
  }

  ghost predicate Tidy(f: Fs, own: Owners) {
    Shaped(f) && forall z :: Inside(z) ==> Owned(f, own)
  }

  ghost predicate Sound(f: Fs, own: Owners) {
    Shaped(f) && forall z :: Inside(z) ==> Inv(f, own)
  }

  /** What `bmap` may do: allocated addresses stay, and no file changes. */
  ghost predicate Grows(f: Fs, g: Fs) {
    SameBytes(f, g) && forall r :: IsRef(f, r) && Addr(f, r) != 0 ==> Addr(g, r) == Addr(f, r)
  }

  /** A marker like `Inside`, for the relations between two states. */
  ghost predicate Between(z: int) {
    true
  }

  ghost predicate Unfelt(f: Fs, g: Fs) {
    Shaped(f) && Shaped(g) && |f.inodes| == |g.inodes| && forall z :: Between(z) ==> Grows(f, g)
  }

  lemma UnfeltTrans(f: Fs, g: Fs, h: Fs)
    requires Unfelt(f, g) && Unfelt(g, h)
    ensures Unfelt(f, h)
  {
  }

  lemma UnfeltRefl(f: Fs)
    requires Shaped(f)
    ensures Unfelt(f, f)
  {
  }

  lemma GrowsNoHole(f: Fs, g: Fs, i: nat)
    requires Grows(f, g) && i < |f.inodes| && NoHole(f, i)
    ensures NoHole(g, i)
  {
  }

  lemma GiveInodeSummary(f: Fs, own: Owners, i: nat, k: nat, b: nat)
    requires Sound(f, own) && i < |f.inodes| && k <= NDIRECT && b < |f.bitmap| && !f.bitmap[b]
    requires f.inodes[i].addrs[k] == 0
    ensures var g := GiveInode(f, i, k, b);
            Sound(g, own[b := InInode(i, k)]) && Unfelt(f, g) && Addr(g, InInode(i, k)) == b
  {
    assert Inside(0);
    assert Addr(f, InInode(i, k)) == 0;
    var g := GiveInode(f, i, k, b);
    GiveInodeKeeps(f, own, i, k, b);
    GiveInodeBytes(f, own, i, k, b);
    forall r | IsRef(f, r) ensures Addr(g, r) == if r == InInode(i, k) then b else Addr(f, r) {
      GiveInodeAddr(f, own, i, k, b, r);
    }
    forall j | 0 <= j < |g.inodes| ensures NoHole(g, j) { GrowsNoHole(f, g, j); }
  }

  lemma GiveBlockSummary(f: Fs, own: Owners, i: nat, k: nat, b: nat)
    requires Sound(f, own) && i < |f.inodes| && k < NINDIRECT && b < |f.bitmap| && !f.bitmap[b]
    requires f.inodes[i].addrs[NDIRECT] != 0 && Addr(f, InBlock(i, k)) == 0
    ensures 0 < f.inodes[i].addrs[NDIRECT] < |f.blocks|
    ensures var g := GiveBlock(f, i, k, b);
            Sound(g, own[b := InBlock(i, k)]) && Unfelt(f, g) && Addr(g, InBlock(i, k)) == b
  {
    assert Inside(0);
    GiveBlockKeeps(f, own, i, k, b);
    var g := GiveBlock(f, i, k, b);
    GiveBlockBytes(f, own, i, k, b);
    forall r | IsRef(f, r) ensures Addr(g, r) == if r == InBlock(i, k) then b else Addr(f, r) {
      GiveBlockAddr(f, own, i, k, b, r);
    }
    forall j | 0 <= j < |g.inodes| ensures NoHole(g, j) { GrowsNoHole(f, g, j); }
  }

  /** Stored addresses name blocks in use; block 0 is always in use. */
  lemma AddrInUse(f: Fs, own: Owners, r: Ref)
    requires Tidy(f, own) && IsRef(f, r)
    ensures f.bitmap[0]
    ensures Addr(f, r) != 0 ==> 0 < Addr(f, r) < |f.bitmap| && f.bitmap[Addr(f, r)]
  {
    assert Inside(0);
  }

  lemma SliceAt(f: Fs, own: Owners, i: nat, off: nat, n: nat, dst: seq<int>)
    requires Sound(f, own) && i < |f.inodes| && off + n <= f.inodes[i].size <= MAXFILE * BSIZE
    requires dst == Contents(f, i)[off..off + n]
    ensures forall k :: 0 <= k < n ==> ByteAt(f, i, off + k, dst[k])
  {
    assert Inside(0);
    forall k | 0 <= k < n ensures ByteAt(f, i, off + k, dst[k]) {
      ContentsAt(f, own, i, off + k);
    }
  }

  lemma TidyOf(f: Fs, own: Owners)
    requires Sound(f, own)
    ensures Tidy(f, own) && SameOthers(f, f, 0)
    ensures forall i :: 0 <= i < |f.inodes| ==> f.inodes[i].size <= MAXFILE * BSIZE
  {
    assert Inside(0);
    forall i | 0 <= i < |f.inodes| ensures f.inodes[i].size <= MAXFILE * BSIZE {
      assert NoHole(f, i);
    }
  }

  lemma TakeInodeSummary(f: Fs, own: Owners, i: nat, k: nat)
    requires Tidy(f, own) && i < |f.inodes| && k < NDIRECT && f.inodes[i].addrs[k] != 0
    ensures 0 < f.inodes[i].addrs[k] < |f.bitmap| && f.bitmap[f.inodes[i].addrs[k]]
    ensures Tidy(TakeInode(f, i, k), own - {f.inodes[i].addrs[k]}) && SameOthers(f, TakeInode(f, i, k), i)
  {
    assert Inside(0);
    TakeInodeKeeps(f, own, i, k);
  }

  lemma TakeIndirectSummary(f: Fs, own: Owners, i: nat)
    requires Tidy(f, own) && i < |f.inodes| && f.inodes[i].addrs[NDIRECT] != 0
    ensures 0 < f.inodes[i].addrs[NDIRECT] < |f.blocks|
    ensures forall n :: 0 <= n < NINDIRECT ==> StillUsed(f.bitmap, f.blocks[f.inodes[i].addrs[NDIRECT]], n)
    ensures FreeEntries(f.bitmap, f.blocks[f.inodes[i].addrs[NDIRECT]], NINDIRECT)[f.inodes[i].addrs[NDIRECT]]
    ensures Tidy(TakeIndirect(f, i), WithoutIndirect(own, i)) && SameOthers(f, TakeIndirect(f, i), i)
  {
    assert Inside(0);
    IndirectStillUsed(f, own, i);
    TakeIndirectKeeps(f, own, i);
    forall n: nat | n < NINDIRECT ensures StillUsed(f.bitmap, f.blocks[f.inodes[i].addrs[NDIRECT]], n) {
      EntryStillUsed(f, own, i, n);
    }
  }

  lemma SameOthersTrans(f: Fs, g: Fs, h: Fs, i: nat)
    requires SameOthers(f, g, i) && SameOthers(g, h, i)
    ensures SameOthers(f, h, i)
  {
  }

  function Resized(f: Fs, i: nat, size: nat): Fs
    requires i < |f.inodes|
  {
    f.(inodes := f.inodes[i := f.inodes[i].(size := size)])
  }

  /** Changing a size moves no block. */
  lemma ResizedKeeps(f: Fs, own: Owners, i: nat, size: nat)
    requires Shaped(f) && i < |f.inodes|
    ensures Shaped(Resized(f, i, size)) && SameOthers(f, Resized(f, i, size), i)
    ensures forall r :: IsRef(f, r) ==> Addr(Resized(f, i, size), r) == Addr(f, r)
    ensures forall i', j :: 0 <= i' < |f.inodes| && 0 <= j < MAXFILE * BSIZE ==>
              Byte(Resized(f, i, size), i', j) == Byte(f, i', j)
    ensures Owned(f, own) ==> Owned(Resized(f, i, size), own)
  {
    var g := Resized(f, i, size);
    assert forall r :: IsRef(f, r) ==> Addr(g, r) == Addr(f, r);
  }

  /** An emptied inode next to untouched ones. */
  lemma TruncatedSummary(f: Fs, own0: Owners, g: Fs, own: Owners, i: nat)
    requires Sound(f, own0) && Tidy(g, own) && i < |f.inodes| && SameOthers(f, g, i)
    ensures Sound(Resized(g, i, 0), own) && SameOthers(f, Resized(g, i, 0), i)
  {
    assert Inside(0);
    var h := Resized(g, i, 0);
    ResizedKeeps(g, own, i, 0);
    SameOthersTrans(f, g, h, i);
    forall j | 0 <= j < |h.inodes| ensures NoHole(h, j) {
      if j != i {
        assert NoHole(f, j);
        assert forall bn: nat :: bn < MAXFILE ==> IsRef(f, DataRef(j, bn)) && DataRef(j, bn).i != i;
      }
    }
  }

  // -------- Reading and writing --------

  /** Byte by byte, `g` is `f` with `data` at `off` of file `i`. */
  ghost predicate Spliced(f: Fs, g: Fs, i: nat, off: nat, data: seq<int>) {
    && Shaped(f) && Shaped(g) && |f.inodes| == |g.inodes|
    && forall i', j :: 0 <= i' < |f.inodes| && 0 <= j < MAXFILE * BSIZE ==>
         Byte(g, i', j) == if i' == i && off <= j < off + |data| then data[j - off] else Byte(f, i', j)
  }

  lemma SplicedMore(f: Fs, g: Fs, h: Fs, i: nat, off: nat, data: seq<int>, more: seq<int>)
    requires Spliced(f, g, i, off, data) && Spliced(g, h, i, off + |data|, more)
    ensures Spliced(f, h, i, off, data + more)
  {
  }

  lemma NextBlock(bn: nat, at: nat, n: nat)
    requires at % BSIZE + n <= BSIZE && bn * BSIZE < at + n
    ensures bn * BSIZE < at || bn == at / BSIZE
  {
  }

  lemma PatchSummary(f: Fs, own: Owners, i: nat, at: nat, data: seq<int>)
    requires Sound(f, own) && i < |f.inodes| && at < MAXFILE * BSIZE && at % BSIZE + |data| <= BSIZE
    requires Addr(f, DataRef(i, at / BSIZE)) != 0
    ensures 0 < Addr(f, DataRef(i, at / BSIZE)) < |f.blocks|
    ensures var g := Patched(f, Addr(f, DataRef(i, at / BSIZE)), at % BSIZE, data);
            && Sound(g, own)
            && (forall r :: IsRef(f, r) ==> Addr(g, r) == Addr(f, r))
            && Spliced(f, g, i, at, data)
  {
    assert Inside(0);
    PatchedAddr(f, own, i, at / BSIZE, at % BSIZE, data, DataRef(i, at / BSIZE));
    var g := Patched(f, Addr(f, DataRef(i, at / BSIZE)), at % BSIZE, data);
    forall r | IsRef(f, r) ensures Addr(g, r) == Addr(f, r) {
      PatchedAddr(f, own, i, at / BSIZE, at % BSIZE, data, r);
    }
    forall i', j | 0 <= i' < |f.inodes| && 0 <= j < MAXFILE * BSIZE
      ensures Byte(g, i', j) == if i' == i && at <= j < at + |data| then data[j - at] else Byte(f, i', j)
    {
      PatchedByte(f, own, i, at, data, i', j);
    }
    assert Owned(g, own);
    forall j | 0 <= j < |g.inodes| ensures NoHole(g, j) {
      assert NoHole(f, j);
      assert forall bn: nat :: bn < MAXFILE ==> IsRef(f, DataRef(j, bn));
    }
  }

  /** In the middle of `writei`: `g` is `f` with the bytes `data` at `off` of file
      `i`, sizes not yet adjusted, and every block up to there allocated. */
  ghost predicate Wrote(f: Fs, g: Fs, i: nat, off: nat, data: seq<int>) {
    && Shaped(f) && Shaped(g) && |f.inodes| == |g.inodes| && |f.bitmap| == |g.bitmap| && f.nmeta == g.nmeta
    && i < |f.inodes| && off + |data| <= MAXFILE * BSIZE
    && (forall i' :: 0 <= i' < |f.inodes| ==> f.inodes[i'].size == g.inodes[i'].size)
    && Spliced(f, g, i, off, data)
    && (forall bn: nat :: bn < MAXFILE && bn * BSIZE < off + |data| ==> Addr(g, DataRef(i, bn)) != 0)
  }

  ghost predicate Writing(f: Fs, g: Fs, i: nat, off: nat, data: seq<int>) {
    Shaped(f) && Shaped(g) && |f.inodes| == |g.inodes| && forall z :: Between(z) ==> Wrote(f, g, i, off, data)
  }

  lemma WroteNothing(f: Fs, own: Owners, i: nat, off: nat)
    requires Sound(f, own) && i < |f.inodes| && off <= f.inodes[i].size
    ensures Writing(f, f, i, off, [])
  {
    assert Inside(0);
    assert NoHole(f, i);
  }

  lemma WroteGrows(f: Fs, g: Fs, h: Fs, i: nat, off: nat, data: seq<int>)
    requires Writing(f, g, i, off, data) && Unfelt(g, h)
    ensures Writing(f, h, i, off, data)
  {
  }

  lemma WroteMore(f: Fs, g: Fs, own: Owners, i: nat, off: nat, data: seq<int>, more: seq<int>)
    requires Writing(f, g, i, off, data) && Sound(g, own) && off + |data| + |more| <= MAXFILE * BSIZE
    requires off + |data| < MAXFILE * BSIZE && (off + |data|) % BSIZE + |more| <= BSIZE && i < |f.inodes|
    requires Addr(g, DataRef(i, (off + |data|) / BSIZE)) != 0
    ensures 0 < Addr(g, DataRef(i, (off + |data|) / BSIZE)) < |g.blocks|
    ensures var h := Patched(g, Addr(g, DataRef(i, (off + |data|) / BSIZE)), (off + |data|) % BSIZE, more);
            Sound(h, own) && Writing(f, h, i, off, data + more)
  {
    assert Between(0);
    var at := off + |data|;
    PatchSummary(g, own, i, at, more);
    var h := Patched(g, Addr(g, DataRef(i, at / BSIZE)), at % BSIZE, more);
    SplicedMore(f, g, h, i, off, data, more);
    forall bn: nat | bn < MAXFILE && bn * BSIZE < off + |data + more| ensures Addr(h, DataRef(i, bn)) != 0 {
      assert IsRef(g, DataRef(i, bn));
      NextBlock(bn, at, |more|);
    }
  }

  /** The bytes `data` in place of what `c` has from `off` on, extending it if need be. */
  function Splice(c: seq<int>, off: nat, data: seq<int>): (r: seq<int>)
    requires off <= |c|
    ensures |r| == if off + |data| < |c| then |c| else off + |data|
    ensures forall j :: 0 <= j < |r| ==> r[j] == if off <= j < off + |data| then data[j - off] else c[j]
  {
    c[..off] + data + (if off + |data| < |c| then c[off + |data|..] else [])
  }

  lemma WroteSound(f: Fs, g: Fs, own: Owners, i: nat, off: nat, data: seq<int>, size: nat)
    requires Sound(g, own) && Wrote(f, g, i, off, data)
    requires size == if off + |data| > f.inodes[i].size then off + |data| else f.inodes[i].size
    ensures Sound(Resized(g, i, size), own)
  {
    assert Inside(0);
    var h := Resized(g, i, size);
    ResizedKeeps(g, own, i, size);
    forall j | 0 <= j < |h.inodes| ensures NoHole(h, j) {
      assert NoHole(g, j);
      assert forall bn: nat :: bn < MAXFILE ==> IsRef(g, DataRef(j, bn));
    }
  }

  lemma WroteFile(f: Fs, g: Fs, own: Owners, i: nat, off: nat, data: seq<int>, size: nat)
    requires Wrote(f, g, i, off, data) && off <= f.inodes[i].size <= MAXFILE * BSIZE
    requires size == if off + |data| > f.inodes[i].size then off + |data| else f.inodes[i].size
    ensures Shaped(Resized(g, i, size)) && Contents(Resized(g, i, size), i) == Splice(Contents(f, i), off, data)
  {
    var h := Resized(g, i, size);
    ResizedKeeps(g, own, i, size);
    var c, d := Contents(h, i), Splice(Contents(f, i), off, data);
    assert |c| == |d| == size;
    forall j | 0 <= j < size ensures c[j] == d[j] {
      assert c[j] == Byte(g, i, j);
    }
  }

  lemma WroteOther(f: Fs, g: Fs, own: Owners, i: nat, off: nat, data: seq<int>, size: nat, i': nat)
    requires Wrote(f, g, i, off, data) && i' < |f.inodes| && i' != i && f.inodes[i'].size <= MAXFILE * BSIZE
    ensures Shaped(Resized(g, i, size)) && Contents(Resized(g, i, size), i') == Contents(f, i')
  {
  }

  lemma WroteContents(f: Fs, own0: Owners, g: Fs, own: Owners, i: nat, off: nat, data: seq<int>)
    requires Sound(f, own0) && Sound(g, own) && Writing(f, g, i, off, data) && i < |f.inodes| && off <= f.inodes[i].size
    ensures g.inodes[i].size == f.inodes[i].size
    ensures var size := if off + |data| > f.inodes[i].size then off + |data| else f.inodes[i].size;
            var h := Resized(g, i, size);
            && Sound(h, own) && size <= MAXFILE * BSIZE && f.inodes[i].size <= MAXFILE * BSIZE
            && Contents(h, i) == Splice(Contents(f, i), off, data)
            && forall i' :: 0 <= i' < |f.inodes| && i' != i ==>
                 && f.inodes[i'].size == h.inodes[i'].size <= MAXFILE * BSIZE
                 && Contents(h, i') == Contents(f, i')
  {
    assert Between(0);
    var size := if off + |data| > f.inodes[i].size then off + |data| else f.inodes[i].size;
    TidyOf(f, own0);
    WroteSound(f, g, own, i, off, data, size);
    WroteFile(f, g, own, i, off, data, size);
    forall i' | 0 <= i' < |f.inodes| && i' != i
      ensures f.inodes[i'].size == Resized(g, i, size).inodes[i'].size
      ensures Contents(Resized(g, i, size), i') == Contents(f, i')
    {
      WroteOther(f, g, own, i, off, data, size, i');
    }
  }

  /** The size of the next chunk of a copy loop. */
  function Chunk(at: nat, left: nat): (m: nat)
    ensures m <= left && at % 1024 + m <= 1024 && (m == left || (at + m) % 1024 == 0) && (left > 0 ==> m > 0)
  {
    if left < BSIZE - at % BSIZE then left else BSIZE - at % BSIZE
  }

  /** The 32-bit sum `off + n` wraps around exactly when it comes out below `off`. */
  lemma WrapCheck(off: nat, n: nat)
    requires off < WORD && n < WORD
    ensures (off + n) % WORD < off <==> off + n >= WORD
  {
  }

  /** The range checks of `writei`. */
  method RangeOk(off: nat, n: nat, size: nat) returns (ok: bool)
    requires off < WORD && n < WORD
    ensures ok <==> off <= size && off + n < WORD && off + n <= MAXFILE * BSIZE
  {
    WrapCheck(off, n);
    if off > size || (off + n) % WORD < off { return false; }
    if off + n > MAXFILE * BSIZE { return false; }
    ok := true;
  }

  lemma SliceJoin(c: seq<int>, a: nat, b: nat, d: nat)
    requires a <= b <= d <= |c|
    ensures c[a..b] + c[b..d] == c[a..d]
  {
  }

  lemma NoHoleAt(f: Fs, own: Owners, i: nat, j: nat)
    requires Sound(f, own) && i < |f.inodes| && j < f.inodes[i].size
    ensures j / BSIZE < MAXFILE && Addr(f, DataRef(i, j / BSIZE)) != 0
  {
    assert Inside(0);
    assert NoHole(f, i);
  }

  /** `m` bytes within one block are the same `m` bytes of the file. */
  lemma ReadChunk(f: Fs, i: nat, at: nat, m: nat, a: nat)
    requires Shaped(f) && i < |f.inodes| && at + m <= f.inodes[i].size <= MAXFILE * BSIZE
    requires at % BSIZE + m <= BSIZE && 0 < m
    requires 0 < a < |f.blocks| && Addr(f, DataRef(i, at / BSIZE)) == a
    ensures f.blocks[a][at % BSIZE..at % BSIZE + m] == Contents(f, i)[at..at + m]
  {
    forall j | at <= j < at + m ensures Contents(f, i)[j] == f.blocks[a][at % BSIZE + (j - at)] {
      assert j / BSIZE == at / BSIZE;
    }
  }

  class FileStore {
    const nmeta: nat
    const bitmap: array<bool>
    const blocks: array<Block>
    const inodes: array<Inode>
    ghost var own: Owners

    ghost function State(): Fs
      reads bitmap, blocks, inodes
    {
      Fs(bitmap[..], blocks[..], inodes[..], nmeta)
    }

    ghost predicate Valid()
      reads this, bitmap, blocks, inodes
    {
      Sound(State(), own)
    }

    /** A disk as mkfs leaves it: metadata in use and empty inodes. */
    constructor (size: nat, ninodes: nat, nmeta: nat)
      requires 0 < nmeta <= size <= WORD
      ensures Valid() && fresh(bitmap) && fresh(blocks) && fresh(inodes) && this.nmeta == nmeta
      ensures bitmap.Length == size && inodes.Length == ninodes
      ensures forall i :: 0 <= i < ninodes ==> inodes[i].size == 0
    {
      this.nmeta := nmeta;
      bitmap := new bool[size](b => b < nmeta);
      blocks := new Block[size](_ => ZeroBlock());
      inodes := new Inode[ninodes](_ => Inode(seq(NDIRECT + 1, _ => 0), 0));
      own := map[];
      new;
      assert Shaped(State());
      assert Owned(State(), own);
    }

    /** `balloc`: the first free block, zeroed; 0 when the disk is full. */
    method Balloc() returns (b: nat)
      requires bitmap.Length == blocks.Length > 0 && bitmap[0]
      modifies bitmap, blocks
      ensures b == 0 ==> bitmap[..] == old(bitmap[..]) && blocks[..] == old(blocks[..])
      ensures b == 0 ==> forall c :: 0 <= c < bitmap.Length ==> bitmap[c]
      ensures b != 0 ==>
                && b < bitmap.Length && !old(bitmap[b]) && (forall c :: 0 <= c < b ==> old(bitmap[c]))
                && bitmap[..] == old(bitmap[..])[b := true] && blocks[..] == old(blocks[..])[b := ZeroBlock()]
    {
      b := 0;
      while b < bitmap.Length
        invariant 0 <= b <= bitmap.Length
        invariant bitmap[..] == old(bitmap[..]) && blocks[..] == old(blocks[..])
        invariant forall c :: 0 <= c < b ==> bitmap[c]
      {
        if !bitmap[b] {
          bitmap[b] := true;
          blocks[b] := ZeroBlock();
          return;
        }
        b := b + 1;
      }
      b := 0;
    }

    /** `bfree`; freeing a free block would be a panic. */
    method Bfree(b: nat)
      requires b < bitmap.Length && bitmap[b]
      modifies bitmap
      ensures bitmap[..] == old(bitmap[..])[b := false]
    {
      bitmap[b] := false;
    }

    /** `bmap`: the address of block `bn` of file `i`, allocated if need be; 0 when
        the disk is full. No file's bytes and no allocated address ever change. */
    method Bmap(i: nat, bn: nat) returns (a: nat)
      requires Valid() && i < inodes.Length && bn < MAXFILE
      modifies this, bitmap, blocks, inodes
      ensures Valid() && Unfelt(old(State()), State())
      ensures a != 0 ==> Addr(State(), DataRef(i, bn)) == a < blocks.Length
      ensures a != 0 ==> BlockAt(State(), i, bn, a)
      ensures a == 0 ==> forall c :: 0 <= c < bitmap.Length ==> bitmap[c]
      ensures old(Addr(State(), DataRef(i, bn))) != 0 ==> State() == old(State()) && a != 0
    {
      TidyOf(State(), own);
      if bn < NDIRECT {
        a := BmapInode(i, bn);
        if a != 0 { StoredAt(State(), i, bn, a); }
        return;
      }
      ghost var f := State();
      AddrInUse(f, own, InInode(i, NDIRECT));
      var ind := BmapInode(i, NDIRECT);
      if ind == 0 { return 0; }
      ghost var g := State();
      a := BmapBlock(i, bn - NDIRECT);
      UnfeltTrans(f, g, State());
      if a != 0 { StoredAt(State(), i, bn, a); }
    }

    /** The address at `ip->addrs[k]`, allocated if need be. */
    method BmapInode(i: nat, k: nat) returns (a: nat)
      requires Valid() && i < inodes.Length && k <= NDIRECT
      modifies this, bitmap, blocks, inodes
      ensures Valid() && Unfelt(old(State()), State())
      ensures a != 0 ==> Addr(State(), InInode(i, k)) == a < blocks.Length
      ensures a == 0 ==> forall c :: 0 <= c < bitmap.Length ==> bitmap[c]
      ensures old(Addr(State(), InInode(i, k))) != 0 ==> State() == old(State()) && a != 0
    {
      ghost var f := State();
      UnfeltRefl(f);
      AddrInUse(f, own, InInode(i, k));
      a := inodes[i].addrs[k];
      if a == 0 {
        a := Balloc();
        if a != 0 {
          GiveInodeSummary(f, own, i, k, a);
          inodes[i] := inodes[i].(addrs := inodes[i].addrs[k := a]);
          own := own[a := InInode(i, k)];
          assert State() == GiveInode(f, i, k, a);
        } else {
          assert State() == f;
        }
      }
    }

    /** The address in entry `k` of the indirect block, allocated if need be. */
    method BmapBlock(i: nat, k: nat) returns (a: nat)
      requires Valid() && i < inodes.Length && k < NINDIRECT && inodes[i].addrs[NDIRECT] != 0
      modifies this, bitmap, blocks
      ensures Valid() && Unfelt(old(State()), State())
      ensures a != 0 ==> Addr(State(), InBlock(i, k)) == a < blocks.Length
      ensures a == 0 ==> forall c :: 0 <= c < bitmap.Length ==> bitmap[c]
      ensures old(Addr(State(), InBlock(i, k))) != 0 ==> State() == old(State()) && a != 0
    {
      ghost var f := State();
      UnfeltRefl(f);
      AddrInUse(f, own, InInode(i, NDIRECT));
      AddrInUse(f, own, InBlock(i, k));
      var ind := inodes[i].addrs[NDIRECT];
      a := Entry(blocks[ind], k);
      if a == 0 {
        a := Balloc();
        if a != 0 {
          GiveBlockSummary(f, own, i, k, a);
          blocks[ind] := WithEntry(blocks[ind], k, a);
          own := own[a := InBlock(i, k)];
          assert State() == GiveBlock(f, i, k, a);
        } else {
          assert State() == f;
        }
      }
    }

    /** `itrunc`: the file is empty, its blocks are free, nothing else changes. */
    method Itrunc(i: nat)
      requires Valid() && i < inodes.Length
      modifies this, bitmap, inodes
      ensures Valid() && SameOthers(old(State()), State(), i)
      ensures inodes[i].size == 0 && |inodes[i].addrs| == NDIRECT + 1
      ensures forall k :: 0 <= k <= NDIRECT ==> inodes[i].addrs[k] == 0
    {
      ghost var f, own0 := State(), own;
      TidyOf(f, own);
      var k := 0;
      while k < NDIRECT
        invariant 0 <= k <= NDIRECT && Tidy(State(), own) && SameOthers(f, State(), i)
        invariant forall c :: 0 <= c < k ==> inodes[i].addrs[c] == 0
      {
        if inodes[i].addrs[k] != 0 {
          ghost var g := State();
          TakeInodeSummary(g, own, i, k);
          Bfree(inodes[i].addrs[k]);
          own := own - {inodes[i].addrs[k]};
          inodes[i] := inodes[i].(addrs := inodes[i].addrs[k := 0]);
          assert State() == TakeInode(g, i, k);
          SameOthersTrans(f, g, State(), i);
        }
        k := k + 1;
      }
      if inodes[i].addrs[NDIRECT] != 0 {
        ghost var g := State();
        FreeIndirect(i);
        SameOthersTrans(f, g, State(), i);
      }
      TruncatedSummary(f, own0, State(), own, i);
      ghost var g := State();
      inodes[i] := inodes[i].(size := 0);
      assert State() == Resized(g, i, 0);
    }

    /** The loop over an indirect block's entries. */
    method FreeAll(blk: Block)
      requires |blk| == BSIZE
      requires forall n :: 0 <= n < NINDIRECT ==> StillUsed(bitmap[..], blk, n)
      modifies bitmap
      ensures bitmap[..] == FreeEntries(old(bitmap[..]), blk, NINDIRECT)
    {
      ghost var bm := bitmap[..];
      var j := 0;
      while j < NINDIRECT
        invariant 0 <= j <= NINDIRECT && bitmap[..] == FreeEntries(bm, blk, j)
      {
        var e := Entry(blk, j);
        assert StillUsed(bm, blk, j);
        assert FreeEntries(bm, blk, j + 1) ==
               if 0 < e < |bm| then FreeEntries(bm, blk, j)[e := false] else FreeEntries(bm, blk, j);
        if e != 0 {
          Bfree(e);
        }
        j := j + 1;
      }
    }

    /** The indirect part of `itrunc`. */
    method FreeIndirect(i: nat)
      requires Tidy(State(), own) && i < inodes.Length && inodes[i].addrs[NDIRECT] != 0
      modifies this, bitmap, inodes
      ensures Tidy(State(), own) && SameOthers(old(State()), State(), i)
      ensures inodes[i] == old(inodes[i]).(addrs := old(inodes[i]).addrs[NDIRECT := 0])
    {
      ghost var f := State();
      TakeIndirectSummary(f, own, i);
      var ind := inodes[i].addrs[NDIRECT];
      var blk := blocks[ind];
      FreeAll(blk);
      Bfree(ind);
      inodes[i] := inodes[i].(addrs := inodes[i].addrs[NDIRECT := 0]);
      own := WithoutIndirect(own, i);
      assert State() == TakeIndirect(f, i);
    }

    /** One chunk of `writei`: `m` bytes into the block at `a`. */
    method WriteChunk(i: nat, off: nat, src: seq<int>, tot: nat, m: nat, a: nat, ghost f: Fs)
      requires Valid() && i < inodes.Length && tot + m <= |src| && 0 < m && off + |src| <= MAXFILE * BSIZE
      requires Writing(f, State(), i, off, src[..tot]) && (off + tot) % BSIZE + m <= BSIZE
      requires Addr(State(), DataRef(i, (off + tot) / BSIZE)) == a != 0
      modifies blocks
      ensures Valid() && Writing(f, State(), i, off, src[..tot + m])
    {
      ghost var h := State();
      WroteMore(f, h, own, i, off, src[..tot], src[tot..tot + m]);
      blocks[a] := Patch(blocks[a], (off + tot) % BSIZE, src[tot..tot + m]);
      assert State() == Patched(h, a, (off + tot) % BSIZE, src[tot..tot + m]);
      assert src[..tot] + src[tot..tot + m] == src[..tot + m];
    }

    /** `readi`; `bad` is the first destination byte that cannot be written, if below the
        length. Only blocks below the size are looked up, so nothing is ever allocated:
        the result is exactly the clipped slice of the file, or -1 when copying out fails. */
    method Readi(i: nat, off: nat, n: nat, bad: nat) returns (tot: int, dst: seq<int>)
      requires Valid() && i < inodes.Length && off < WORD && n < WORD
      modifies this, bitmap, blocks, inodes
      ensures Valid() && State() == old(State()) && inodes[i].size <= MAXFILE * BSIZE
      ensures off > inodes[i].size || off + n >= WORD ==> tot == 0 && dst == []
      ensures off <= inodes[i].size && off + n < WORD ==>
                var len := if off + n > inodes[i].size then inodes[i].size - off else n;
                if bad >= len then tot == len && dst == Contents(State(), i)[off..off + len]
                else tot == -1
      ensures tot > 0 ==> |dst| == tot && forall k :: 0 <= k < tot ==> ByteAt(State(), i, off + k, dst[k])
    {
      TidyOf(State(), own);
      ghost var f := State();
      tot, dst := 0, [];
      WrapCheck(off, n);
      if off > inodes[i].size || (off + n) % WORD < off { return; }
      var len := if off + n > inodes[i].size then inodes[i].size - off else n;
      tot, dst := ReadLoop(i, off, len, bad);
      if tot > 0 { SliceAt(f, own, i, off, tot, dst); }
    }

    method ReadLoop(i: nat, off: nat, len: nat, bad: nat) returns (tot: int, dst: seq<int>)
      requires Valid() && i < inodes.Length && off + len <= inodes[i].size <= MAXFILE * BSIZE
      modifies this, bitmap, blocks, inodes
      ensures Valid() && State() == old(State())
      ensures if bad >= len then tot == len && dst == Contents(State(), i)[off..off + len] else tot == -1
    {
      ghost var f, c := State(), Contents(State(), i);
      tot, dst := 0, [];
      while tot < len
        invariant 0 <= tot <= len && tot <= bad && Valid() && State() == f && dst == c[off..off + tot]
      {
        var m := Chunk(off + tot, len - tot);
        if tot <= bad < tot + m { return -1, dst; }
        dst := ReadMore(i, off, off + tot, m, dst, c);
        tot := tot + m;
      }
    }

    method ReadMore(i: nat, off: nat, at: nat, m: nat, dst: seq<int>, ghost c: seq<int>) returns (dst': seq<int>)
      requires Valid() && i < inodes.Length && off <= at <= at + m <= inodes[i].size <= MAXFILE * BSIZE
      requires 0 < m && at % BSIZE + m <= BSIZE && c == Contents(State(), i) && dst == c[off..at]
      modifies this, bitmap, blocks, inodes
      ensures Valid() && State() == old(State()) && dst' == c[off..at + m]
    {
      var bytes := ReadBlock(i, at, m, c);
      SliceJoin(c, off, at, at + m);
      dst' := dst + bytes;
    }

    /** One chunk of `readi`. */
    method ReadBlock(i: nat, at: nat, m: nat, ghost c: seq<int>) returns (bytes: seq<int>)
      requires Valid() && i < inodes.Length && at + m <= inodes[i].size <= MAXFILE * BSIZE
      requires 0 < m && at % BSIZE + m <= BSIZE && c == Contents(State(), i)
      modifies this, bitmap, blocks, inodes
      ensures Valid() && State() == old(State()) && bytes == c[at..at + m]
    {
      NoHoleAt(State(), own, i, at);
      var a := Bmap(i, at / BSIZE);
      ReadChunk(State(), i, at, m, a);
      bytes := blocks[a][at % BSIZE..at % BSIZE + m];
    }

    /** `writei`; `bad` is the first source byte that cannot be read, if below the length. A rejected
        range changes nothing; otherwise the file is its old contents with the first
        `tot` bytes of `src` spliced in, and `tot` falls short only if the next chunk has the bad byte or the
        disk is full. No other file changes. */
    method Writei(i: nat, src: seq<int>, off: nat, bad: nat) returns (tot: int)
      requires Valid() && i < inodes.Length && off < WORD && |src| < WORD
      modifies this, bitmap, blocks, inodes
      ensures Valid()
      ensures tot == -1 <==> off > old(inodes[i]).size || off + |src| > 274432
      ensures tot == -1 ==> State() == old(State())
      ensures tot != -1 ==>
                && 0 <= tot <= |src| && tot <= bad
                && old(inodes[i]).size <= MAXFILE * BSIZE && inodes[i].size <= MAXFILE * BSIZE
                && Contents(State(), i) == Splice(old(Contents(State(), i)), off, src[..tot])
      ensures forall i' :: 0 <= i' < inodes.Length && i' != i ==>
                && old(inodes[i']).size == inodes[i'].size <= MAXFILE * BSIZE
                && Contents(State(), i') == old(Contents(State(), i'))
      ensures 0 <= tot < |src| ==>
                || tot <= bad < tot + Chunk(off + tot, |src| - tot)
                || forall c :: 0 <= c < bitmap.Length ==> bitmap[c]
    {
      ghost var f, own0 := State(), own;
      TidyOf(f, own);
      var ok := RangeOk(off, |src|, inodes[i].size);
      if !ok { return -1; }
      WroteNothing(f, own, i, off);
      tot := WriteLoop(i, src, off, bad, f);
      Extend(i, off, src[..tot], f, own0);
    }

    /** The end of `writei`: the size grows to cover what was written. */
    method Extend(i: nat, off: nat, data: seq<int>, ghost f: Fs, ghost own0: Owners)
      requires Valid() && i < inodes.Length && Sound(f, own0) && Writing(f, State(), i, off, data)
      requires off <= f.inodes[i].size
      modifies inodes
      ensures Valid() && f.inodes[i].size <= MAXFILE * BSIZE && inodes[i].size <= MAXFILE * BSIZE
      ensures Contents(State(), i) == Splice(Contents(f, i), off, data)
      ensures forall i' :: 0 <= i' < inodes.Length && i' != i ==>
                f.inodes[i'].size == inodes[i'].size <= MAXFILE * BSIZE && Contents(State(), i') == Contents(f, i')
    {
      WroteContents(f, own0, State(), own, i, off, data);
      ghost var g := State();
      if off + |data| > inodes[i].size {
        inodes[i] := inodes[i].(size := off + |data|);
      }
      assert State() == Resized(g, i, if off + |data| > g.inodes[i].size then off + |data| else g.inodes[i].size);
    }

    method WriteLoop(i: nat, src: seq<int>, off: nat, bad: nat, ghost f: Fs) returns (tot: nat)
      requires Valid() && i < inodes.Length && off + |src| <= MAXFILE * BSIZE && Writing(f, State(), i, off, [])
      modifies this, bitmap, blocks, inodes
      ensures Valid() && tot <= |src| && tot <= bad && Writing(f, State(), i, off, src[..tot])
      ensures tot < |src| ==>
                || tot <= bad < tot + Chunk(off + tot, |src| - tot)
                || forall c :: 0 <= c < bitmap.Length ==> bitmap[c]
    {
      tot := 0;
      var n := |src|;
      while tot < n
        invariant 0 <= tot <= n && Valid() && Writing(f, State(), i, off, src[..tot])
        invariant tot <= bad
      {
        ghost var g := State();
        var a := Bmap(i, (off + tot) / BSIZE);
        WroteGrows(f, g, State(), i, off, src[..tot]);
        if a == 0 { break; }
        var m := Chunk(off + tot, n - tot);
        if tot <= bad < tot + m { break; }
        WriteChunk(i, off, src, tot, m, a, f);
        tot := tot + m;
      }
    }

    /** One operation, against the files as byte sequences. */
    method Step(op: Op, ghost files: seq<seq<int>>) returns (out: Outcome)
      requires Valid() && Holds(State(), files) && op.Ok(|files|)
      modifies this, bitmap, blocks, inodes
      ensures Valid() && Answers(files, op, out, State()) && Holds(State(), After(files, op, out))
    {
      if op.Write? { out := StepWrite(op, files); return; }
      match op {
        case Read(i, off, n, bad) =>
          var tot, dst := Readi(i, off, n, bad);
          out := Got(tot, dst);
        case Truncate(i) =>
          ghost var f := State();
          TidyOf(f, own);
          Itrunc(i);
          TruncatedHolds(f, State(), i, files);
          out := Emptied;
      }
    }

    method StepWrite(op: Op, ghost files: seq<seq<int>>) returns (out: Outcome)
      requires Valid() && Holds(State(), files) && op.Ok(|files|) && op.Write?
      modifies this, bitmap, blocks, inodes
      ensures Valid() && Answers(files, op, out, State()) && Holds(State(), After(files, op, out))
    {
      ghost var f := State();
      var tot := Writei(op.i, op.src, op.off, op.bad);
      out := Wrote(tot);
      if tot != -1 { WrittenHolds(f, State(), op.i, op.off, op.src[..tot], files); }
    }

    /** Whole runs: after any sequence of writes, reads and truncations, with copies and allocations
        failing anywhere, every file is the byte sequence that the answers account for. Every read
        answered with the bytes that sequence held at that moment, and every write that fell short
        has its cause, on the disk as it then was (in `at`). */
    method Run(ops: seq<Op>, ghost files: seq<seq<int>>) returns (outs: seq<Outcome>, ghost at: seq<Fs>)
      requires Valid() && Holds(State(), files) && forall k :: 0 <= k < |ops| ==> ops[k].Ok(|files|)
      modifies this, bitmap, blocks, inodes
      ensures Valid() && |outs| == |ops| == |at| && Holds(State(), Replay(files, ops, outs))
      ensures forall k :: 0 <= k < |ops| ==> Answers(Replay(files, ops[..k], outs[..k]), ops[k], outs[k], at[k])
    {
      outs, at := [], [];
      ghost var now := files;
      while |outs| < |ops|
        invariant Valid() && |outs| <= |ops| && |now| == |files|
        invariant Holds(State(), now) && Traced(files, ops, outs, at, now)
      {
        var out := Step(ops[|outs|], now);
        TracedMore(files, ops, outs, at, now, out, State());
        now := After(now, ops[|outs|], out);
        outs, at := outs + [out], at + [State()];
      }
      TracedMeans(files, ops, outs, at, now);
      assert ops[..|ops|] == ops;
    }
  }

  // -------- Files as byte sequences --------

  datatype Op =
    | Write(i: nat, src: seq<int>, off: nat, bad: nat)
    | Read(i: nat, off: nat, n: nat, bad: nat)
    | Truncate(i: nat)
  {
    /** The inode exists, and offsets and lengths are 32-bit numbers. */
    predicate Ok(ninodes: nat) {
      i < ninodes && (Write? ==> off < WORD && |src| < WORD) && (Read? ==> off < WORD && n < WORD)
    }
  }

  datatype Outcome = Wrote(tot: int) | Got(tot: int, dst: seq<int>) | Emptied

  ghost predicate Holds(f: Fs, files: seq<seq<int>>) {
    && Shaped(f) && |files| == |f.inodes|
    && forall i :: 0 <= i < |files| ==> f.inodes[i].size <= MAXFILE * BSIZE && files[i] == Contents(f, i)
  }

  /** The right answer, given the byte sequences and the disk `g` after the operation: a write falls
      short only if its next chunk has the bad byte or the disk is full. */
  ghost predicate Answers(files: seq<seq<int>>, op: Op, out: Outcome, g: Fs)
    requires op.Ok(|files|)
  {
    match op
    case Write(i, src, off, bad) =>
      && out.Wrote?
      && (out.tot == -1 <==> off > |files[i]| || off + |src| >= WORD || off + |src| > MAXFILE * BSIZE)
      && (out.tot != -1 ==> 0 <= out.tot <= |src| && out.tot <= bad)
      && (0 <= out.tot < |src| ==>
            || out.tot <= bad < out.tot + Chunk(off + out.tot, |src| - out.tot)
            || forall c :: 0 <= c < |g.bitmap| ==> g.bitmap[c])
    case Read(i, off, n, bad) =>
      && out.Got?
      && var len :=
           if off > |files[i]| || off + n >= WORD then 0 else if off + n > |files[i]| then |files[i]| - off else n;
      if len == 0 then out.tot == 0 && out.dst == []
      else if bad >= len then out.tot == len && out.dst == files[i][off..off + len]
      else out.tot == -1
    case Truncate(_) => out.Emptied?
  }

  /** What an operation with that answer makes of the files. */
  ghost function After(files: seq<seq<int>>, op: Op, out: Outcome): (r: seq<seq<int>>)
    requires op.Ok(|files|)
    ensures |r| == |files|
  {
    match op
    case Write(i, src, off, _) =>
      if out.Wrote? && 0 <= out.tot <= |src| && off <= |files[i]|
      then files[i := Splice(files[i], off, src[..out.tot])]
      else files
    case Read(_, _, _, _) => files
    case Truncate(i) => files[i := []]
  }

  ghost function Replay(files: seq<seq<int>>, ops: seq<Op>, outs: seq<Outcome>): (r: seq<seq<int>>)
    ensures |r| == |files|
    decreases |ops|
  {
    if ops == [] || |outs| != |ops| then files
    else
      var n := |ops| - 1;
      var r := Replay(files, ops[..n], outs[..n]);
      if ops[n].Ok(|r|) then After(r, ops[n], outs[n]) else r
  }

  lemma ReplayMore(files: seq<seq<int>>, ops: seq<Op>, outs: seq<Outcome>, out: Outcome)
    requires |outs| < |ops| && ops[|outs|].Ok(|files|)
    ensures Replay(files, ops[..|outs| + 1], outs + [out]) ==
            After(Replay(files, ops[..|outs|], outs), ops[|outs|], out)
  {
    var n := |outs|;
    assert ops[..n + 1][..n] == ops[..n] && (outs + [out])[..n] == outs;
  }

  ghost predicate Tracing(z: int) { true }

  /** Answers `outs` are right one by one, and make `now` of the files. Looked into only where `Tracing`
      is mentioned. */
  ghost predicate Traced(files: seq<seq<int>>, ops: seq<Op>, outs: seq<Outcome>, at: seq<Fs>, now: seq<seq<int>>) {
    forall z :: Tracing(z) ==>
      && |at| == |outs| <= |ops| && (forall k :: 0 <= k < |ops| ==> ops[k].Ok(|files|))
      && now == Replay(files, ops[..|outs|], outs)
      && forall k :: 0 <= k < |outs| ==> Answers(Replay(files, ops[..k], outs[..k]), ops[k], outs[k], at[k])
  }

  lemma TracedMeans(files: seq<seq<int>>, ops: seq<Op>, outs: seq<Outcome>, at: seq<Fs>, now: seq<seq<int>>)
    requires Traced(files, ops, outs, at, now)
    ensures |at| == |outs| <= |ops| && (forall k :: 0 <= k < |ops| ==> ops[k].Ok(|files|))
    ensures now == Replay(files, ops[..|outs|], outs)
    ensures forall k :: 0 <= k < |outs| ==> Answers(Replay(files, ops[..k], outs[..k]), ops[k], outs[k], at[k])
  {
    assert Tracing(0);
  }

  lemma TracedMore(files: seq<seq<int>>, ops: seq<Op>, outs: seq<Outcome>, at: seq<Fs>, now: seq<seq<int>>,
      out: Outcome, g: Fs)
    requires Traced(files, ops, outs, at, now) && |outs| < |ops|
    requires ops[|outs|].Ok(|now|) && Answers(now, ops[|outs|], out, g)
    ensures Traced(files, ops, outs + [out], at + [g], After(now, ops[|outs|], out))
  {
    TracedMeans(files, ops, outs, at, now);
    ReplayMore(files, ops, outs, out);
    var n := |outs|;
    assert (outs + [out])[..n] == outs;
    assert forall k :: 0 <= k < n ==> (outs + [out])[..k] == outs[..k];
  }

  lemma WrittenHolds(f: Fs, g: Fs, i: nat, off: nat, data: seq<int>, files: seq<seq<int>>)
    requires Holds(f, files) && Shaped(g) && |g.inodes| == |f.inodes| && i < |files| && off <= |files[i]|
    requires g.inodes[i].size <= MAXFILE * BSIZE && Contents(g, i) == Splice(Contents(f, i), off, data)
    requires forall j :: 0 <= j < |files| && j != i ==>
               g.inodes[j].size <= MAXFILE * BSIZE && Contents(g, j) == Contents(f, j)
    ensures Holds(g, files[i := Splice(files[i], off, data)])
  {
  }

  lemma TruncatedHolds(f: Fs, g: Fs, i: nat, files: seq<seq<int>>)
    requires Holds(f, files) && SameOthers(f, g, i) && i < |files| && g.inodes[i].size == 0
    ensures Holds(g, files[i := []])
  {
  }
}
