/** Paging on the three-level tables: the finite maps that module Paging works on are Sv39 page tables in
    physical memory, whose pages come from the same allocator as the pages of the processes. Every change that
    paging makes to the maps is one store that `walk` and `mappages` make in the tables. */
module PagedTables {
  import opened Memory
  import opened Paging
  import PT = PageTables

  /** PTE_W|PTE_R|PTE_X|PTE_U, what `vmfault` maps pages with. */
  const ALL := 30

  /** The permission bits of page `k`: `perms` are those that `uvmalloc` was given. */
  function PermOf(v: Vm, perms: map<Key, nat>, k: Key): nat {
    if k in v.eager && k in perms then perms[k] else ALL
  }

  /** A leaf PTE in memory. */
  function Encode(x: Pte, perm: nat): (pte: nat)
    requires x.Swapped? ==> x.slot < SLOTS
  {
    match x
    case Mapped(pa) => PT.PteFor(pa, perm)
    case Swapped(s) => PT.SwapEntry(s)
  }

  function LeafAt(v: Vm, perms: map<Key, nat>, k: Key): nat {
    if k in v.pt && (v.pt[k].Swapped? ==> v.pt[k].slot < SLOTS) then Encode(v.pt[k], PermOf(v, perms, k)) else 0
  }

  // -------- The tables of a process --------

  function NodeOf(t: Table): PT.Node {
    if t.Level1? then PT.Mid(t.i) else PT.Low(t.i)
  }

  /** The middle pages and the pages of leaves of process `pid`. */
  function Mids(tables: map<Table, nat>, pid: int): map<nat, nat> {
    map i: nat | i < 256 && Level1(pid, i) in tables :: tables[Level1(pid, i)]
  }

  function Lows(tables: map<Table, nat>, pid: int): map<nat, nat> {
    map k: nat | k < 131072 && Level0(pid, k) in tables :: tables[Level0(pid, k)]
  }

  /** What a page-table page holds. */
  function Entry(v: Vm, perms: map<Key, nat>, pid: int, n: PT.Node, i: nat): nat {
    match n
    case Root => PT.Link(Mids(v.tables, pid), i)
    case Mid(m) => PT.Link(Lows(v.tables, pid), 512 * m + i)
    case Low(k) => LeafAt(v, perms, Key(pid, 512 * k + i))
  }

  function Contents(v: Vm, perms: map<Key, nat>, pid: int, n: PT.Node): (s: seq<nat>)
    ensures |s| == 512
  {
    seq<nat>(512, i requires 0 <= i < 512 => Entry(v, perms, pid, n, i))
  }

  /** A page whose entries are those of `s`. */
  lemma SameEntries(v: Vm, perms: map<Key, nat>, pid: int, n: PT.Node, s: seq<nat>)
    requires |s| == 512 && forall i: nat :: i < 512 ==> Entry(v, perms, pid, n, i) == s[i]
    ensures Contents(v, perms, pid, n) == s
  {
  }

  lemma EntryAt(v: Vm, perms: map<Key, nat>, pid: int, n: PT.Node, i: nat)
    requires i < 512
    ensures Contents(v, perms, pid, n)[i] == Entry(v, perms, pid, n, i)
  {
  }

  /** What page `p` is to process `pid`. */
  ghost predicate IsTable(tables: map<Table, nat>, pid: int, t: Table, p: nat) {
    t in tables && t.pid == pid && tables[t] == p
  }

  ghost function Pages(tables: map<Table, nat>, pid: int): set<nat> {
    set t | t in tables && t.pid == pid :: tables[t]
  }

  /** The table that page `p` is. */
  ghost function TableAt(tables: map<Table, nat>, pid: int, p: nat): (t: Table)
    requires p in Pages(tables, pid)
    ensures IsTable(tables, pid, t, p)
  {
    var t :| t in tables && t.pid == pid && tables[t] == p;
    t
  }

  ghost function Nodes(tables: map<Table, nat>, pid: int, root: nat): map<nat, PT.Node> {
    map p | p in Pages(tables, pid) + {root} :: if p == root then PT.Root else NodeOf(TableAt(tables, pid, p))
  }

  /** The page tables of process `pid`, whose root is `root`. */
  ghost function TreeOf(v: Vm, perms: map<Key, nat>, pid: int, root: nat): PT.Tree {
    var node := Nodes(v.tables, pid, root);
    PT.Tree(map p | p in node :: Contents(v, perms, pid, node[p]), root,
            Mids(v.tables, pid), Lows(v.tables, pid), node)
  }

  /** The root is a page of its own. */
  ghost predicate Rooted(v: Vm, root: nat) {
    GoodPage(root) && root !in v.mem
  }

  lemma NodeAt(v: Vm, pid: int, root: nat, t: Table)
    requires TablesOk(v) && Rooted(v, root) && t in v.tables && t.pid == pid
    ensures v.tables[t] in Nodes(v.tables, pid, root) && v.tables[t] != root
    ensures Nodes(v.tables, pid, root)[v.tables[t]] == NodeOf(t)
  {
    assert Tabling(0, v);
    assert v.tables[t] in Pages(v.tables, pid);
    assert IsTable(v.tables, pid, TableAt(v.tables, pid, v.tables[t]), v.tables[t]);
  }

  lemma NodeMeans(v: Vm, pid: int, root: nat, p: nat) returns (t: Table)
    requires TablesOk(v) && Rooted(v, root) && p in Nodes(v.tables, pid, root) && p != root
    ensures IsTable(v.tables, pid, t, p) && Nodes(v.tables, pid, root)[p] == NodeOf(t)
  {
    t := TableAt(v.tables, pid, p);
  }

  lemma TableInTree(v: Vm, pid: int, t: Table)
    requires TablesOk(v) && t in v.tables && t.pid == pid
    ensures GoodPage(v.tables[t])
    ensures if t.Level1? then t.i in Mids(v.tables, pid) && Mids(v.tables, pid)[t.i] == v.tables[t]
            else t.i in Lows(v.tables, pid) && Lows(v.tables, pid)[t.i] == v.tables[t]
  {
    assert Tabling(0, v);
    assert Fits(v.tables, t);
    if t.Level0? { LowBelow(v, pid, t.i); }
  }

  lemma TreePage(v: Vm, perms: map<Key, nat>, pid: int, root: nat, p: nat)
    requires TablesOk(v) && Rooted(v, root) && p in TreeOf(v, perms, pid, root).mem
    ensures PT.PageOk(TreeOf(v, perms, pid, root), p)
  {
    var s := TreeOf(v, perms, pid, root);
    assert |s.mem[p]| == 512 && p in s.node;
    if p != root {
      PageNode(v, pid, root, p);
    }
  }

  lemma PageNode(v: Vm, pid: int, root: nat, p: nat)
    requires TablesOk(v) && Rooted(v, root) && p in Nodes(v.tables, pid, root) && p != root
    ensures GoodPage(p)
    ensures match Nodes(v.tables, pid, root)[p]
            case Root => false
            case Mid(i) => i in Mids(v.tables, pid) && Mids(v.tables, pid)[i] == p
            case Low(k) => k in Lows(v.tables, pid) && Lows(v.tables, pid)[k] == p
  {
    var t := NodeMeans(v, pid, root, p);
    TableInTree(v, pid, t);
  }

  lemma TreeMid(v: Vm, perms: map<Key, nat>, pid: int, root: nat, i: nat)
    requires TablesOk(v) && Rooted(v, root)
    ensures PT.MidOk(TreeOf(v, perms, pid, root), i)
  {
    if i in Mids(v.tables, pid) { NodeAt(v, pid, root, Level1(pid, i)); }
  }

  lemma TreeEntry(v: Vm, perms: map<Key, nat>, pid: int, root: nat, k: nat)
    requires TablesOk(v) && Rooted(v, root)
    ensures PT.EntryOk(TreeOf(v, perms, pid, root), k)
  {
    var s := TreeOf(v, perms, pid, root);
    var m: nat := k / 512;
    if m in s.mid {
      NodeAt(v, pid, root, Level1(pid, m));
      assert s.mem[s.mid[m]] == Contents(v, perms, pid, PT.Mid(m));
      assert 512 * m + k % 512 == k;
    }
    if k in s.low {
      LowBelow(v, pid, k);
      NodeAt(v, pid, root, Level0(pid, k));
    }
  }

  /** A page of leaves lies below a middle page. */
  lemma LowBelow(v: Vm, pid: int, k: nat)
    requires TablesOk(v) && Level0(pid, k) in v.tables
    ensures k < 131072 && k / 512 in Mids(v.tables, pid)
  {
    assert Tabling(0, v);
    assert Fits(v.tables, Level0(pid, k)) && Fits(v.tables, Level1(pid, k / 512));
  }

  /** The tables are well formed. */
  lemma TreeInv(v: Vm, perms: map<Key, nat>, pid: int, root: nat)
    requires TablesOk(v) && Rooted(v, root)
    ensures PT.Inv(TreeOf(v, perms, pid, root))
  {
    var s := TreeOf(v, perms, pid, root);
    forall p | p in s.mem ensures PT.PageOk(s, p) {
      TreePage(v, perms, pid, root, p);
    }
    forall i: nat ensures PT.MidOk(s, i) {
      TreeMid(v, perms, pid, root, i);
    }
    forall k: nat ensures PT.EntryOk(s, k) {
      TreeEntry(v, perms, pid, root, k);
    }
  }

  lemma LowPage(v: Vm, perms: map<Key, nat>, pid: int, root: nat, k: nat)
    requires TablesOk(v) && Rooted(v, root) && Level0(pid, k) in v.tables
    ensures k in TreeOf(v, perms, pid, root).low
    ensures TreeOf(v, perms, pid, root).low[k] in TreeOf(v, perms, pid, root).mem
    ensures TreeOf(v, perms, pid, root).mem[TreeOf(v, perms, pid, root).low[k]] == Contents(v, perms, pid, PT.Low(k))
  {
    LowBelow(v, pid, k);
    NodeAt(v, pid, root, Level0(pid, k));
  }

  lemma LowContents(v: Vm, perms: map<Key, nat>, pid: int, vpn: nat)
    ensures Contents(v, perms, pid, PT.Low(vpn / 512))[vpn % 512] == LeafAt(v, perms, Key(pid, vpn))
  {
    EntryAt(v, perms, pid, PT.Low(vpn / 512), vpn % 512);
    assert 512 * (vpn / 512) + vpn % 512 == vpn;
  }

  /** Their leaves are what paging says: a valid PTE with the frame, a PTE with the swap slot, or 0. */
  lemma TreeLeaf(v: Vm, perms: map<Key, nat>, pid: int, root: nat, vpn: nat)
    requires TablesOk(v) && Rooted(v, root) && (forall k :: k in v.pt ==> HasTables(v, k))
    ensures PT.Leaf(TreeOf(v, perms, pid, root), vpn) == LeafAt(v, perms, Key(pid, vpn))
  {
    var k: nat := vpn / 512;
    if Level0(pid, k) in v.tables {
      LowPage(v, perms, pid, root, k);
      LowContents(v, perms, pid, vpn);
    } else {
      NoLow(v, pid, vpn);
      assert k !in Lows(v.tables, pid);
    }
  }

  lemma NoLow(v: Vm, pid: int, vpn: nat)
    requires Level0(pid, vpn / 512) !in v.tables && forall k :: k in v.pt ==> HasTables(v, k)
    ensures Key(pid, vpn) !in v.pt
  {
    assert !HasTables(v, Key(pid, vpn));
  }

  /** A PTE in memory tells the page and its permissions, or the slot. */
  lemma LeafMeans(v: Vm, perms: map<Key, nat>, k: Key)
    requires PhysOk(v) && SwapOk(v) && TablesOk(v)
    requires (k in v.pt ==> 0 < PermOf(v, perms, k) < 1024 && PermOf(v, perms, k) % 2 == 0)
    ensures k !in v.pt <==> LeafAt(v, perms, k) == 0
    ensures k in v.pt ==>
              match v.pt[k]
              case Mapped(pa) => PT.IsValid(LeafAt(v, perms, k)) && PT.Pte2Pa(LeafAt(v, perms, k)) == pa &&
                PT.PteFlags(LeafAt(v, perms, k)) == if k in v.eager && k in perms then perms[k] + 1 else 31
              case Swapped(s) => !PT.IsValid(LeafAt(v, perms, k)) && PT.SwappedOut(LeafAt(v, perms, k))
                                 && PT.PteSwapSlot(LeafAt(v, perms, k)) == s
  {
    assert Tabling(0, v);
    if k in v.pt && v.pt[k].Mapped? {
      PT.PteForMeans(v.pt[k].pa, PermOf(v, perms, k));
    }
  }

  // -------- What each change of paging is in the tables --------

  /** Only the leaf of page `k` differs. */
  ghost predicate OnlyLeaf(v: Vm, w: Vm, perms: map<Key, nat>, k: Key) {
    w.tables == v.tables && forall m :: m != k ==> LeafAt(w, perms, m) == LeafAt(v, perms, m)
  }

  lemma ContentsKept(v: Vm, w: Vm, perms: map<Key, nat>, pid: int, n: PT.Node, k: Key)
    requires OnlyLeaf(v, w, perms, k) && !(n.Low? && k.pid == pid && k.vpn / 512 == n.k)
    ensures Contents(w, perms, pid, n) == Contents(v, perms, pid, n)
  {
    forall i: nat | i < 512 ensures Entry(w, perms, pid, n, i) == Entry(v, perms, pid, n, i) {
      if n.Low? {
        Quotient(n.k, i);
        assert Key(pid, 512 * n.k + i) != k;
      }
    }
    SameContents(v, w, perms, pid, n);
  }

  lemma ContentsChanged(v: Vm, w: Vm, perms: map<Key, nat>, k: Key)
    requires OnlyLeaf(v, w, perms, k)
    ensures Contents(w, perms, k.pid, PT.Low(k.vpn / 512)) ==
            Contents(v, perms, k.pid, PT.Low(k.vpn / 512))[k.vpn % 512 := LeafAt(w, perms, k)]
  {
    var n, x := PT.Low(k.vpn / 512), LeafAt(w, perms, k);
    var s := Contents(v, perms, k.pid, n)[k.vpn % 512 := x];
    forall i: nat | i < 512 ensures Entry(w, perms, k.pid, n, i) == s[i] {
      Quotient(k.vpn / 512, i);
      EntryAt(v, perms, k.pid, n, i);
    }
    SameEntries(w, perms, k.pid, n, s);
  }

  /** A new leaf is one store, and no other process's tables change. */
  lemma OneStore(v: Vm, w: Vm, perms: map<Key, nat>, k: Key, root: nat)
    requires TablesOk(v) && Rooted(v, root) && HasTables(v, k) && OnlyLeaf(v, w, perms, k)
    ensures var s := TreeOf(v, perms, k.pid, root);
            && k.vpn / 512 in s.low && s.low[k.vpn / 512] in s.mem && |s.mem[s.low[k.vpn / 512]]| == 512
            && TreeOf(w, perms, k.pid, root) == PT.SetLeaf(s, k.vpn, LeafAt(w, perms, k))
  {
    var s, r, q: nat := TreeOf(v, perms, k.pid, root), TreeOf(w, perms, k.pid, root), k.vpn / 512;
    LowPage(v, perms, k.pid, root, q);
    LowBelow(v, k.pid, q);
    NodeAt(v, k.pid, root, Level0(k.pid, q));
    ContentsChanged(v, w, perms, k);
    var t := PT.SetLeaf(s, k.vpn, LeafAt(w, perms, k));
    forall p | p in s.mem ensures r.mem[p] == t.mem[p] {
      if p != s.low[q] {
        NotThatPage(v, k.pid, root, p, q);
        ContentsKept(v, w, perms, k.pid, s.node[p], k);
      }
    }
    assert r.mem == t.mem;
  }

  lemma NotThatPage(v: Vm, pid: int, root: nat, p: nat, q: nat)
    requires TablesOk(v) && Rooted(v, root) && p in Nodes(v.tables, pid, root)
    requires Level0(pid, q) in v.tables && p != v.tables[Level0(pid, q)]
    ensures Nodes(v.tables, pid, root)[p] != PT.Low(q)
  {
    if p != root {
      var t := NodeMeans(v, pid, root, p);
    }
  }

  lemma OtherTree(v: Vm, w: Vm, perms: map<Key, nat>, k: Key, pid: int, root: nat)
    requires OnlyLeaf(v, w, perms, k) && pid != k.pid
    ensures TreeOf(w, perms, pid, root) == TreeOf(v, perms, pid, root)
  {
    var s, r := TreeOf(v, perms, pid, root), TreeOf(w, perms, pid, root);
    forall p | p in s.mem ensures r.mem[p] == s.mem[p] {
      ContentsKept(v, w, perms, pid, s.node[p], k);
    }
    assert r.mem == s.mem;
  }

  /** Table `t` is new, at page `p`. */
  ghost predicate NewTable(v: Vm, w: Vm, t: Table, p: nat) {
    && t !in v.tables && Fits(v.tables, t) && Untabled(v, p) && p in v.mem
    && w.tables == v.tables[t := p] && w.pt == v.pt && w.eager == v.eager && w.mem.Keys == v.mem.Keys
  }

  lemma NewNodes(v: Vm, w: Vm, t: Table, p: nat, root: nat)
    requires TablesOk(v) && TablesOk(w) && Rooted(v, root) && NewTable(v, w, t, p)
    ensures Nodes(w.tables, t.pid, root) == Nodes(v.tables, t.pid, root)[p := NodeOf(t)]
    ensures p != root && p !in Nodes(v.tables, t.pid, root)
  {
    var a, b := Nodes(v.tables, t.pid, root), Nodes(w.tables, t.pid, root);
    NodeAt(w, t.pid, root, t);
    forall q ensures q in b <==> q in a || q == p {
      if q in a && q != root {
        var u := NodeMeans(v, t.pid, root, q);
        assert IsTable(w.tables, t.pid, u, q);
      }
      if q in b && q != root {
        var u := NodeMeans(w, t.pid, root, q);
        assert u != t ==> IsTable(v.tables, t.pid, u, q);
      }
    }
    forall q | q in a ensures q != p && b[q] == a[q] {
      if q != root {
        var u := NodeMeans(v, t.pid, root, q);
        NodeAt(w, t.pid, root, u);
      }
    }
  }

  lemma SameContents(v: Vm, w: Vm, perms: map<Key, nat>, pid: int, n: PT.Node)
    requires forall i: nat :: i < 512 ==> Entry(w, perms, pid, n, i) == Entry(v, perms, pid, n, i)
    ensures Contents(w, perms, pid, n) == Contents(v, perms, pid, n)
  {
    forall i: nat | i < 512 ensures Entry(w, perms, pid, n, i) == Contents(v, perms, pid, n)[i] {
      EntryAt(v, perms, pid, n, i);
    }
    SameEntries(w, perms, pid, n, Contents(v, perms, pid, n));
  }

  lemma LinkAt(t: map<nat, nat>, k: nat, p: nat, i: nat)
    ensures PT.Link(t[k := p], i) == if i == k then PT.WithV(PT.Pa2Pte(p)) else PT.Link(t, i)
  {
  }

  ghost predicate Naming(z: int, s: PT.Tree) { true }

  /** `s` are the page tables of process `pid`. To be opened by mentioning `Naming`. */
  ghost predicate IsTree(v: Vm, perms: map<Key, nat>, pid: int, root: nat, s: PT.Tree) {
    forall z :: Naming(z, s) ==> s == TreeOf(v, perms, pid, root)
  }

  /** A new middle page holds nothing yet. */
  lemma NewMid(v: Vm, w: Vm, perms: map<Key, nat>, pid: int, i: nat, p: nat, root: nat, s: PT.Tree, r: PT.Tree)
    requires TablesOk(v) && TablesOk(w) && Rooted(v, root) && NewTable(v, w, Level1(pid, i), p)
    requires IsTree(v, perms, pid, root, s) && IsTree(w, perms, pid, root, r)
    ensures i < 512 && s.root in s.mem && |s.mem[s.root]| == 512 && r == PT.AddMid(s, i, p)
  {
    NewMidMaps(v, w, perms, pid, i, p, root, s, r);
    NewNode(v, w, perms, Level1(pid, i), p, root, s, r);
    NewPage(w, perms, pid, root, p, PT.Mid(i), r);
    EmptyMid(v, w, perms, pid, i);
    NewMidRoot(v, w, perms, pid, i, p, root, s, r);
    NewMidElsewhere(v, w, perms, pid, root, p, s, r);
    IsAddMid(s, r, i, p);
  }

  lemma NewMidMaps(v: Vm, w: Vm, perms: map<Key, nat>, pid: int, i: nat, p: nat, root: nat, s: PT.Tree, r: PT.Tree)
    requires NewTable(v, w, Level1(pid, i), p)
    requires IsTree(v, perms, pid, root, s) && IsTree(w, perms, pid, root, r)
    ensures i < 256 && r.mid == s.mid[i := p] && r.low == s.low && Lows(w.tables, pid) == Lows(v.tables, pid)
  {
    assert Naming(0, s) && Naming(0, r);
    MidsAfter(v, w, pid, i, p);
  }

  lemma NewNode(v: Vm, w: Vm, perms: map<Key, nat>, t: Table, p: nat, root: nat, s: PT.Tree, r: PT.Tree)
    requires TablesOk(v) && TablesOk(w) && Rooted(v, root) && NewTable(v, w, t, p)
    requires IsTree(v, perms, t.pid, root, s) && IsTree(w, perms, t.pid, root, r)
    ensures r.node == s.node[p := NodeOf(t)] && p != root && p !in s.mem && s.root == r.root == root
    ensures r.mem.Keys == s.mem.Keys + {p}
  {
    TreeKeys(v, perms, t.pid, root, s);
    TreeKeys(w, perms, t.pid, root, r);
    NewNodes(v, w, t, p, root);
    assert r.node.Keys == s.node.Keys + {p};
  }

  lemma TreeKeys(v: Vm, perms: map<Key, nat>, pid: int, root: nat, s: PT.Tree)
    requires IsTree(v, perms, pid, root, s)
    ensures s.mem.Keys == s.node.Keys && s.root == root && s.node == Nodes(v.tables, pid, root)
  {
    assert Naming(0, s);
  }

  /** What a page of the tree holds. */
  lemma NewPage(w: Vm, perms: map<Key, nat>, pid: int, root: nat, p: nat, n: PT.Node, r: PT.Tree)
    requires IsTree(w, perms, pid, root, r) && p in r.node && r.node[p] == n
    ensures p in r.mem && r.mem[p] == Contents(w, perms, pid, n)
  {
    assert Naming(0, r);
  }

  lemma NewMidRoot(v: Vm, w: Vm, perms: map<Key, nat>, pid: int, i: nat, p: nat, root: nat, s: PT.Tree, r: PT.Tree)
    requires NewTable(v, w, Level1(pid, i), p)
    requires IsTree(v, perms, pid, root, s) && IsTree(w, perms, pid, root, r)
    ensures i < 512 && root in s.mem && root in r.mem && |s.mem[root]| == 512
    ensures r.mem[root] == PT.Put(s.mem[root], i, PT.WithV(PT.Pa2Pte(p)))
  {
    assert Naming(0, s) && Naming(0, r);
    MidsAfter(v, w, pid, i, p);
    RootEntry(v, w, perms, pid, i, p);
    TreeMem(v, perms, pid, root);
    TreeMem(w, perms, pid, root);
  }

  lemma NewMidElsewhere(v: Vm, w: Vm, perms: map<Key, nat>, pid: int, root: nat, p: nat, s: PT.Tree, r: PT.Tree)
    requires TablesOk(v) && Rooted(v, root) && IsTree(v, perms, pid, root, s) && IsTree(w, perms, pid, root, r)
    requires w.pt == v.pt && w.eager == v.eager && Lows(w.tables, pid) == Lows(v.tables, pid)
    requires p !in s.mem && p in r.node && r.node == s.node[p := r.node[p]]
    ensures forall q :: q in s.mem && q != root ==> q in r.mem && r.mem[q] == s.mem[q]
  {
    forall q | q in s.mem && q != root ensures q in r.mem && r.mem[q] == s.mem[q] {
      PageKept(v, w, perms, pid, root, q, s, r);
    }
  }

  lemma PageKept(v: Vm, w: Vm, perms: map<Key, nat>, pid: int, root: nat, q: nat, s: PT.Tree, r: PT.Tree)
    requires TablesOk(v) && Rooted(v, root) && IsTree(v, perms, pid, root, s) && IsTree(w, perms, pid, root, r)
    requires w.pt == v.pt && w.eager == v.eager && Lows(w.tables, pid) == Lows(v.tables, pid)
    requires q in s.mem && q != root && (q in s.node ==> q in r.node && r.node[q] == s.node[q])
    ensures q in r.mem && r.mem[q] == s.mem[q]
  {
    assert Naming(0, s) && Naming(0, r);
    NotRoot(v, pid, root, q);
    MidContents(v, w, perms, pid, s.node[q]);
  }

  lemma IsAddMid(s: PT.Tree, r: PT.Tree, i: nat, p: nat)
    requires i < 512 && s.root in s.mem && |s.mem[s.root]| == 512 && p !in s.mem
    requires r.root == s.root && r.mid == s.mid[i := p] && r.low == s.low && r.node == s.node[p := PT.Mid(i)]
    requires r.mem.Keys == s.mem.Keys + {p} && r.mem[p] == PT.Zeros()
    requires r.mem[s.root] == PT.Put(s.mem[s.root], i, PT.WithV(PT.Pa2Pte(p)))
    requires forall q :: q in s.mem && q != s.root ==> r.mem[q] == s.mem[q]
    ensures r == PT.AddMid(s, i, p)
  {
    assert r.mem == PT.AddMid(s, i, p).mem;
  }

  lemma IsAddLow(s: PT.Tree, r: PT.Tree, k: nat, p: nat)
    requires k / 512 in s.mid && s.mid[k / 512] in s.mem && |s.mem[s.mid[k / 512]]| == 512 && p !in s.mem
    requires r.root == s.root && r.mid == s.mid && r.low == s.low[k := p] && r.node == s.node[p := PT.Low(k)]
    requires r.mem.Keys == s.mem.Keys + {p} && r.mem[p] == PT.Zeros()
    requires r.mem[s.mid[k / 512]] == PT.Put(s.mem[s.mid[k / 512]], k % 512, PT.WithV(PT.Pa2Pte(p)))
    requires forall q :: q in s.mem && q != s.mid[k / 512] ==> r.mem[q] == s.mem[q]
    ensures r == PT.AddLow(s, k, p)
  {
    assert r.mem == PT.AddLow(s, k, p).mem;
  }

  lemma TreeMem(v: Vm, perms: map<Key, nat>, pid: int, root: nat)
    ensures var s := TreeOf(v, perms, pid, root);
            && s.mem.Keys == s.node.Keys == Nodes(v.tables, pid, root).Keys && root in s.node && s.node[root] == PT.Root
            && s.mem[root] == Contents(v, perms, pid, PT.Root)
  {
  }

  lemma NotRoot(v: Vm, pid: int, root: nat, q: nat)
    requires TablesOk(v) && Rooted(v, root) && q in Nodes(v.tables, pid, root) && q != root
    ensures !Nodes(v.tables, pid, root)[q].Root?
  {
    var t := NodeMeans(v, pid, root, q);
  }

  lemma MidsAfter(v: Vm, w: Vm, pid: int, i: nat, p: nat)
    requires i < 256 && w.tables == v.tables[Level1(pid, i) := p]
    ensures Mids(w.tables, pid) == Mids(v.tables, pid)[i := p] && Lows(w.tables, pid) == Lows(v.tables, pid)
  {
    MidAdded(v.tables, w.tables, pid, i, p);
    LowsKept(v.tables, w.tables, pid);
  }

  lemma MidAdded(t: map<Table, nat>, u: map<Table, nat>, pid: int, i: nat, p: nat)
    requires i < 256 && u == t[Level1(pid, i) := p]
    ensures Mids(u, pid) == Mids(t, pid)[i := p]
  {
  }

  lemma LowsKept(t: map<Table, nat>, u: map<Table, nat>, pid: int)
    requires forall k: nat :: Level0(pid, k) in t <==> Level0(pid, k) in u
    requires forall k: nat :: Level0(pid, k) in t ==> t[Level0(pid, k)] == u[Level0(pid, k)]
    ensures Lows(u, pid) == Lows(t, pid)
  {
  }

  lemma MidContents(v: Vm, w: Vm, perms: map<Key, nat>, pid: int, n: PT.Node)
    requires w.pt == v.pt && w.eager == v.eager && Lows(w.tables, pid) == Lows(v.tables, pid) && !n.Root?
    ensures Contents(w, perms, pid, n) == Contents(v, perms, pid, n)
  {
    forall i: nat | i < 512 ensures Entry(w, perms, pid, n, i) == Entry(v, perms, pid, n, i) {
      if n.Low? { LowEntryKept(v, w, perms, pid, n.k, i); }
    }
    SameContents(v, w, perms, pid, n);
  }

  lemma EmptyMid(v: Vm, w: Vm, perms: map<Key, nat>, pid: int, i: nat)
    requires TablesOk(v) && Level1(pid, i) !in v.tables && Lows(w.tables, pid) == Lows(v.tables, pid)
    ensures Contents(w, perms, pid, PT.Mid(i)) == PT.Zeros()
  {
    forall j: nat | j < 512 ensures Entry(w, perms, pid, PT.Mid(i), j) == 0 {
      NoLowUnder(v, pid, i, 512 * i + j);
    }
    SameEntries(w, perms, pid, PT.Mid(i), PT.Zeros());
  }

  lemma NoLowUnder(v: Vm, pid: int, i: nat, k: nat)
    requires TablesOk(v) && Level1(pid, i) !in v.tables && k / 512 == i
    ensures Level0(pid, k) !in v.tables
  {
    assert Tabling(0, v);
    assert !Fits(v.tables, Level0(pid, k));
  }

  lemma RootEntry(v: Vm, w: Vm, perms: map<Key, nat>, pid: int, i: nat, p: nat)
    requires i < 512 && Mids(w.tables, pid) == Mids(v.tables, pid)[i := p]
    ensures Contents(w, perms, pid, PT.Root) == PT.Put(Contents(v, perms, pid, PT.Root), i, PT.WithV(PT.Pa2Pte(p)))
  {
    var s := PT.Put(Contents(v, perms, pid, PT.Root), i, PT.WithV(PT.Pa2Pte(p)));
    forall j: nat | j < 512 ensures Entry(w, perms, pid, PT.Root, j) == s[j] {
      LinkAt(Mids(v.tables, pid), i, p, j);
      EntryAt(v, perms, pid, PT.Root, j);
    }
    SameEntries(w, perms, pid, PT.Root, s);
  }

  /** A new page of leaves holds nothing yet. */
  lemma NewLow(v: Vm, w: Vm, perms: map<Key, nat>, pid: int, k: nat, p: nat, root: nat, s: PT.Tree, r: PT.Tree)
    requires TablesOk(v) && TablesOk(w) && Rooted(v, root) && NewTable(v, w, Level0(pid, k), p)
    requires IsTree(v, perms, pid, root, s) && IsTree(w, perms, pid, root, r)
    requires forall m :: m in v.pt ==> HasTables(v, m)
    ensures k / 512 in s.mid && s.mid[k / 512] in s.mem && |s.mem[s.mid[k / 512]]| == 512 && r == PT.AddLow(s, k, p)
  {
    NewLowMaps(v, w, perms, pid, k, p, root, s, r);
    NewNode(v, w, perms, Level0(pid, k), p, root, s, r);
    NewPage(w, perms, pid, root, p, PT.Low(k), r);
    EmptyLow(v, w, perms, pid, k);
    MidEntry(v, w, perms, pid, k, p);
    MidPage(v, perms, pid, k / 512, root, s);
    NewPage(v, perms, pid, root, s.mid[k / 512], PT.Mid(k / 512), s);
    NewPage(w, perms, pid, root, s.mid[k / 512], PT.Mid(k / 512), r);
    forall q | q in s.mem && q != s.mid[k / 512] ensures r.mem[q] == s.mem[q] {
      LowKept(v, w, perms, pid, root, q, k, p, s, r);
    }
    IsAddLow(s, r, k, p);
  }

  lemma NewLowMaps(v: Vm, w: Vm, perms: map<Key, nat>, pid: int, k: nat, p: nat, root: nat, s: PT.Tree, r: PT.Tree)
    requires TablesOk(w) && NewTable(v, w, Level0(pid, k), p)
    requires IsTree(v, perms, pid, root, s) && IsTree(w, perms, pid, root, r)
    ensures r.mid == s.mid && r.low == s.low[k := p] && k / 512 in s.mid
    ensures Mids(w.tables, pid) == Mids(v.tables, pid) && Lows(w.tables, pid) == Lows(v.tables, pid)[k := p]
  {
    assert Naming(0, s) && Naming(0, r);
    LowsAfter(v, w, pid, k, p);
  }

  lemma MidPage(v: Vm, perms: map<Key, nat>, pid: int, m: nat, root: nat, s: PT.Tree)
    requires TablesOk(v) && Rooted(v, root) && IsTree(v, perms, pid, root, s) && m in s.mid
    ensures s.mid[m] in s.node && s.node[s.mid[m]] == PT.Mid(m)
  {
    assert Naming(0, s);
    NodeAt(v, pid, root, Level1(pid, m));
  }

  lemma LowKept(v: Vm, w: Vm, perms: map<Key, nat>, pid: int, root: nat, q: nat, k: nat, p: nat, s: PT.Tree, r: PT.Tree)
    requires TablesOk(v) && Rooted(v, root) && IsTree(v, perms, pid, root, s) && IsTree(w, perms, pid, root, r)
    requires w.pt == v.pt && w.eager == v.eager && Mids(w.tables, pid) == Mids(v.tables, pid)
    requires Lows(w.tables, pid) == Lows(v.tables, pid)[k := p] && k / 512 in s.mid
    requires q in s.mem && q != s.mid[k / 512] && (q in s.node ==> q in r.node && r.node[q] == s.node[q])
    ensures q in r.mem && r.mem[q] == s.mem[q]
  {
    assert Naming(0, s) && Naming(0, r);
    OtherMid(v, pid, root, q, k / 512);
    LowContentsKept(v, w, perms, pid, s.node[q], k, p);
  }

  lemma LowsAfter(v: Vm, w: Vm, pid: int, k: nat, p: nat)
    requires TablesOk(w) && w.tables == v.tables[Level0(pid, k) := p]
    ensures Mids(w.tables, pid) == Mids(v.tables, pid) && Lows(w.tables, pid) == Lows(v.tables, pid)[k := p]
    ensures k / 512 in Mids(v.tables, pid)
  {
    LowBelow(w, pid, k);
  }

  lemma LowContentsKept(v: Vm, w: Vm, perms: map<Key, nat>, pid: int, n: PT.Node, k: nat, p: nat)
    requires w.pt == v.pt && w.eager == v.eager && Mids(w.tables, pid) == Mids(v.tables, pid)
    requires Lows(w.tables, pid) == Lows(v.tables, pid)[k := p] && n != PT.Mid(k / 512)
    ensures Contents(w, perms, pid, n) == Contents(v, perms, pid, n)
  {
    forall i: nat | i < 512 ensures Entry(w, perms, pid, n, i) == Entry(v, perms, pid, n, i) {
      match n {
        case Root => assert Entry(w, perms, pid, PT.Root, i) == Entry(v, perms, pid, PT.Root, i);
        case Low(q) => LowEntryKept(v, w, perms, pid, q, i);
        case Mid(m) => MidEntryKept(v, w, perms, pid, k, p, m, i);
      }
    }
    SameContents(v, w, perms, pid, n);
  }

  lemma LowEntryKept(v: Vm, w: Vm, perms: map<Key, nat>, pid: int, q: nat, i: nat)
    requires w.pt == v.pt && w.eager == v.eager
    ensures Entry(w, perms, pid, PT.Low(q), i) == Entry(v, perms, pid, PT.Low(q), i)
  {
    SameLeaf(v, w, perms, Key(pid, 512 * q + i));
  }

  lemma MidEntryKept(v: Vm, w: Vm, perms: map<Key, nat>, pid: int, k: nat, p: nat, m: nat, i: nat)
    requires Lows(w.tables, pid) == Lows(v.tables, pid)[k := p] && i < 512 && m != k / 512
    ensures Entry(w, perms, pid, PT.Mid(m), i) == Entry(v, perms, pid, PT.Mid(m), i)
  {
    OtherLink(Lows(v.tables, pid), k, p, m, i);
  }

  lemma OtherLink(t: map<nat, nat>, k: nat, p: nat, m: nat, i: nat)
    requires i < 512 && m != k / 512
    ensures PT.Link(t[k := p], 512 * m + i) == PT.Link(t, 512 * m + i)
  {
    Quotient(m, i);
    LinkAt(t, k, p, 512 * m + i);
  }

  lemma SameLeaf(v: Vm, w: Vm, perms: map<Key, nat>, k: Key)
    requires w.pt == v.pt && w.eager == v.eager
    ensures LeafAt(w, perms, k) == LeafAt(v, perms, k)
  {
  }

  lemma Quotient(m: nat, i: nat)
    requires i < 512
    ensures (512 * m + i) / 512 == m && (512 * m + i) % 512 == i
  {
  }

  lemma OtherMid(v: Vm, pid: int, root: nat, q: nat, m: nat)
    requires TablesOk(v) && Rooted(v, root) && q in Nodes(v.tables, pid, root)
    requires Level1(pid, m) in v.tables && q != v.tables[Level1(pid, m)]
    ensures Nodes(v.tables, pid, root)[q] != PT.Mid(m)
  {
    if q != root {
      var t := NodeMeans(v, pid, root, q);
    }
  }

  lemma EmptyLow(v: Vm, w: Vm, perms: map<Key, nat>, pid: int, k: nat)
    requires Level0(pid, k) !in v.tables && w.pt == v.pt && forall m :: m in v.pt ==> HasTables(v, m)
    ensures Contents(w, perms, pid, PT.Low(k)) == PT.Zeros()
  {
    forall j: nat | j < 512 ensures Entry(w, perms, pid, PT.Low(k), j) == 0 {
      Quotient(k, j);
      NoLow(v, pid, 512 * k + j);
    }
    SameEntries(w, perms, pid, PT.Low(k), PT.Zeros());
  }

  lemma MidEntry(v: Vm, w: Vm, perms: map<Key, nat>, pid: int, k: nat, p: nat)
    requires Lows(w.tables, pid) == Lows(v.tables, pid)[k := p]
    ensures Contents(w, perms, pid, PT.Mid(k / 512)) ==
            PT.Put(Contents(v, perms, pid, PT.Mid(k / 512)), k % 512, PT.WithV(PT.Pa2Pte(p)))
  {
    var n := PT.Mid(k / 512);
    var s := PT.Put(Contents(v, perms, pid, n), k % 512, PT.WithV(PT.Pa2Pte(p)));
    forall j: nat | j < 512 ensures Entry(w, perms, pid, n, j) == s[j] {
      Quotient(k / 512, j);
      LinkAt(Lows(v.tables, pid), k, p, 512 * (k / 512) + j);
      EntryAt(v, perms, pid, n, j);
    }
    SameEntries(w, perms, pid, n, s);
  }

  /** `clock_evict`: one store, of the swap entry. */
  lemma EvictStores(v: Vm, i: nat, slot: nat, perms: map<Key, nat>, root: nat)
    requires Inv(v) && Rooted(v, root) && i < |v.frames| && v.frames[i].used && slot < |v.slots|
    ensures slot < SLOTS && StoresLeaf(v, Evicted(v, i, slot), perms, KeyOf(v.frames[i]), root, PT.SwapEntry(slot))
  {
    var k, w := KeyOf(v.frames[i]), Evicted(v, i, slot);
    SlotFits(v, slot);
    assert k in v.pt && HasTables(v, k);
    EvictLeaves(v, i, slot, perms);
    OneStore(v, w, perms, k, root);
  }

  lemma SlotFits(v: Vm, slot: nat)
    requires TablesOk(v) && slot < |v.slots|
    ensures slot < SLOTS
  {
    assert Tabling(0, v);
  }

  lemma EvictLeaves(v: Vm, i: nat, slot: nat, perms: map<Key, nat>)
    requires i < |v.frames| && slot < |v.slots| && slot < SLOTS
    ensures OnlyLeaf(v, Evicted(v, i, slot), perms, KeyOf(v.frames[i]))
    ensures LeafAt(Evicted(v, i, slot), perms, KeyOf(v.frames[i])) == PT.SwapEntry(slot)
  {
  }

  /** `mappages` in `vmfault`, and in `uvmalloc`: one store, of a PTE for the page. */
  lemma LoadStores(v: Vm, k: Key, pa: nat, page: Page, at: nat, perms: map<Key, nat>, root: nat)
    requires Inv(v) && Rooted(v, root) && at < |v.frames| && HasTables(v, k) && k !in v.eager
    ensures StoresLeaf(v, Loaded(v, k, pa, page, at), perms, k, root, PT.PteFor(pa, ALL))
  {
    var w := Loaded(v, k, pa, page, at);
    forall m | m != k ensures LeafAt(w, perms, m) == LeafAt(v, perms, m) {}
    OneStore(v, w, perms, k, root);
  }

  lemma UntrackedStores(v: Vm, k: Key, pa: nat, page: Page, perms: map<Key, nat>, root: nat)
    requires Inv(v) && Rooted(v, root) && HasTables(v, k) && k in perms
    ensures StoresLeaf(v, Untracked(v, k, pa, page), perms, k, root, PT.PteFor(pa, perms[k]))
  {
    var w := Untracked(v, k, pa, page);
    forall m | m != k ensures LeafAt(w, perms, m) == LeafAt(v, perms, m) {}
    OneStore(v, w, perms, k, root);
  }

  /** `uvmunmap`: one store, of 0. */
  lemma DropStores(v: Vm, k: Key, at: int, perms: map<Key, nat>, root: nat)
    requires Inv(v) && Rooted(v, root) && k in v.pt && -1 <= at < |v.frames|
    ensures StoresLeaf(v, Dropped(v, k, at), perms, k, root, 0)
  {
    assert HasTables(v, k);
    DropLeaves(v, k, at, perms);
    OneStore(v, Dropped(v, k, at), perms, k, root);
  }

  lemma DropLeaves(v: Vm, k: Key, at: int, perms: map<Key, nat>)
    requires k in v.pt && -1 <= at < |v.frames| && (v.pt[k].Swapped? ==> v.pt[k].slot < |v.slots|)
    ensures OnlyLeaf(v, Dropped(v, k, at), perms, k) && LeafAt(Dropped(v, k, at), perms, k) == 0
  {
  }

  /** The tables of `k`'s process get the leaf `pte` for `k`, and those of other processes stay. */
  ghost predicate StoresLeaf(v: Vm, w: Vm, perms: map<Key, nat>, k: Key, root: nat, pte: nat) {
    var s := TreeOf(v, perms, k.pid, root);
    && k.vpn / 512 in s.low && s.low[k.vpn / 512] in s.mem && |s.mem[s.low[k.vpn / 512]]| == 512
    && TreeOf(w, perms, k.pid, root) == PT.SetLeaf(s, k.vpn, pte)
    && OnlyLeaf(v, w, perms, k)
  }

  // -------- Every state of every run --------

  /** Between any two steps of paging, the page tables of every process are well formed and hold exactly
      its map, and none of their pages is free, mapped, or part of another process's tables. */
  lemma SoundTables(v: Vm, perms: map<Key, nat>, pid: int, root: nat)
    requires Sound(v) && Rooted(v, root)
    ensures PT.Inv(TreeOf(v, perms, pid, root))
    ensures forall vpn: nat :: PT.Leaf(TreeOf(v, perms, pid, root), vpn) == LeafAt(v, perms, Key(pid, vpn))
    ensures forall p :: p in TreeOf(v, perms, pid, root).mem && p != root ==> Reserved(v, pid, p)
  {
    assert Inside(0, v);
    TreeInv(v, perms, pid, root);
    forall vpn: nat ensures PT.Leaf(TreeOf(v, perms, pid, root), vpn) == LeafAt(v, perms, Key(pid, vpn)) {
      TreeLeaf(v, perms, pid, root, vpn);
    }
    forall p | p in TreeOf(v, perms, pid, root).mem && p != root ensures Reserved(v, pid, p) {
      ReservedPage(v, pid, root, p);
    }
  }

  /** Page `p` serves the tables of process `pid` and nothing else. */
  ghost predicate Reserved(v: Vm, pid: int, p: nat) {
    && p !in v.free && (forall k :: k in v.pt ==> v.pt[k] != Mapped(p))
    && forall t :: t in v.tables && v.tables[t] == p ==> t.pid == pid
  }

  lemma ReservedPage(v: Vm, pid: int, root: nat, p: nat)
    requires TablesOk(v) && Rooted(v, root) && p in Nodes(v.tables, pid, root) && p != root
    ensures Reserved(v, pid, p)
  {
    assert Tabling(0, v);
    var t := NodeMeans(v, pid, root, p);
  }
}
