/** What it costs, in free pages, to map a range of pages: the page-table pages that `walk` of
    kernel/vm.c has to allocate for it and, for `uvmalloc`, the pages themselves. */
module TableCosts {
  /** How many of the two tables above page `v` are missing. */
  function Missing(mids: set<nat>, lows: set<nat>, v: nat): nat {
    (if v / 262144 in mids then 0 else 1) + (if v / 512 in lows then 0 else 1)
  }

  /** The middle pages that the `n` pages from `lo` lie under. */
  function MidsOver(lo: nat, n: nat): set<nat> {
    if n == 0 then {} else MidsOver(lo, n - 1) + {(lo + n - 1) / 262144}
  }

  /** The pages of leaves that they lie in. */
  function LowsOver(lo: nat, n: nat): set<nat> {
    if n == 0 then {} else LowsOver(lo, n - 1) + {(lo + n - 1) / 512}
  }

  /** The tables there are, and the number of free pages. */
  datatype Supply = Supply(mids: set<nat>, lows: set<nat>, free: nat)

  /** How many of the middle pages over them are missing: the first page under each makes it. */
  function NewMids(mids: set<nat>, lo: nat, n: nat): nat {
    if n == 0 then 0
    else NewMids(mids, lo, n - 1) + if (lo + n - 1) / 262144 in mids + MidsOver(lo, n - 1) then 0 else 1
  }

  function NewLows(lows: set<nat>, lo: nat, n: nat): nat {
    if n == 0 then 0
    else NewLows(lows, lo, n - 1) + if (lo + n - 1) / 512 in lows + LowsOver(lo, n - 1) then 0 else 1
  }

  /** How many free pages it takes to map the `n` pages from `lo`: the tables that are missing and,
      if `each`, one page for each. */
  function Cost(each: bool, s: Supply, lo: nat, n: nat): nat {
    (if each then n else 0) + NewMids(s.mids, lo, n) + NewLows(s.lows, lo, n)
  }

  /** Every missing table is counted once. */
  lemma CostIs(each: bool, s: Supply, lo: nat, n: nat)
    ensures Cost(each, s, lo, n) == (if each then n else 0) + |MidsOver(lo, n) - s.mids| + |LowsOver(lo, n) - s.lows|
  {
    NewMidsAre(s.mids, lo, n);
    NewLowsAre(s.lows, lo, n);
  }

  lemma {:induction false} NewMidsAre(mids: set<nat>, lo: nat, n: nat)
    ensures NewMids(mids, lo, n) == |MidsOver(lo, n) - mids|
  {
    if n > 0 {
      NewMidsAre(mids, lo, n - 1);
      OneMore(MidsOver(lo, n - 1), mids, (lo + n - 1) / 262144);
    }
  }

  lemma {:induction false} NewLowsAre(lows: set<nat>, lo: nat, n: nat)
    ensures NewLows(lows, lo, n) == |LowsOver(lo, n) - lows|
  {
    if n > 0 {
      NewLowsAre(lows, lo, n - 1);
      OneMore(LowsOver(lo, n - 1), lows, (lo + n - 1) / 512);
    }
  }

  /** How many of the `pages` pages from `lo` can be mapped from the supply `s`: the largest number whose
      cost it covers. */
  ghost function Affordable(each: bool, s: Supply, lo: nat, pages: nat): (k: nat)
    ensures Reaches(each, s, lo, pages, k)
  {
    SomeReach(each, s, lo, pages);
    var k: nat :| Reaches(each, s, lo, pages, k);
    k
  }

  ghost predicate Reaching(z: int) { true }

  ghost predicate Paying(z: int, n: nat, t: Supply) { true }

  /** To be opened by mentioning `Reaching`. */
  ghost predicate Reaches(each: bool, s: Supply, lo: nat, pages: nat, k: nat) {
    forall z :: Reaching(z) ==>
      k <= pages && Cost(each, s, lo, k) <= s.free && (k < pages ==> Cost(each, s, lo, k + 1) > s.free)
  }

  lemma SomeReach(each: bool, s: Supply, lo: nat, pages: nat)
    ensures exists k: nat :: Reaches(each, s, lo, pages, k)
  {
    var k := Largest((n: nat) => Cost(each, s, lo, n), pages, s.free);
    assert Reaches(each, s, lo, pages, k);
  }

  /** The largest number, up to `n`, at which `cost` is within `free`. */
  function Largest(cost: nat -> nat, n: nat, free: nat): (k: nat)
    ensures k <= n && (k == 0 || cost(k) <= free) && (k < n ==> cost(k + 1) > free)
  {
    if n == 0 || cost(n) <= free then n else Largest(cost, n - 1, free)
  }

  lemma OneMore(s: set<nat>, t: set<nat>, x: nat)
    ensures |s + {x} - t| == |s - t| + if x in t + s then 0 else 1
  {
    if x in t + s {
      assert s + {x} - t == s - t;
    } else {
      assert s + {x} - t == (s - t) + {x};
    }
  }

  lemma {:induction false} CostGrows(each: bool, s: Supply, lo: nat, n: nat, n': nat)
    requires n <= n'
    ensures Cost(each, s, lo, n) <= Cost(each, s, lo, n')
  {
    if n < n' {
      CostGrows(each, s, lo, n, n' - 1);
      }
  }

  lemma ReachesIff(each: bool, s: Supply, lo: nat, pages: nat, k: nat, n: nat)
    requires n <= pages && Reaches(each, s, lo, pages, k)
    ensures n <= k <==> Cost(each, s, lo, n) <= s.free
  {
    assert Reaching(0);
    if n <= k {
      CostGrows(each, s, lo, n, k);
    } else {
      CostGrows(each, s, lo, k + 1, n);
    }
  }

  /** `Affordable` in full: `n` pages can be mapped if and only if there are free pages for the tables that
      are missing above them, each counted once, and for the pages. */
  lemma AffordableIff(each: bool, s: Supply, lo: nat, pages: nat, n: nat)
    requires n <= pages
    ensures n <= Affordable(each, s, lo, pages) <==>
            (if each then n else 0) + |MidsOver(lo, n) - s.mids| + |LowsOver(lo, n) - s.lows| <= s.free
  {
    CostIs(each, s, lo, n);
    ReachesIff(each, s, lo, pages, Affordable(each, s, lo, pages), n);
  }

  /** Starting from `s`, the first `n` pages from `lo` have been mapped, and `t` is left. To be opened
      by mentioning `Paying`. */
  ghost predicate Spent(each: bool, s: Supply, lo: nat, n: nat, t: Supply) {
    forall z :: Paying(z, n, t) ==>
      && t.mids == s.mids + MidsOver(lo, n) && t.lows == s.lows + LowsOver(lo, n)
      && s.free == t.free + Cost(each, s, lo, n)
  }

  /** What the next page takes. */
  function Price(each: bool, t: Supply, v: nat): nat {
    (if each then 1 else 0) + Missing(t.mids, t.lows, v)
  }

  ghost predicate Priced(z: int) { true }

  ghost predicate Buying(z: int) { true }

  /** The supply covers the next page. To be opened by mentioning `Priced`. */
  ghost predicate CanPay(each: bool, t: Supply, v: nat) {
    forall z :: Priced(z) ==> Price(each, t, v) <= t.free
  }

  /** It has been paid for. To be opened by mentioning `Buying`. */
  ghost predicate Bought(each: bool, t: Supply, v: nat, t': Supply) {
    forall z :: Buying(z) ==>
      t'.mids == t.mids + {v / 262144} && t'.lows == t.lows + {v / 512} && t.free == t'.free + Price(each, t, v)
  }

  /** Paying for the page itself first, and then for its tables. */
  lemma PageAndTables(t: Supply, v: nat)
    requires t.free > 0
    ensures CanPay(true, t, v) <==> CanPay(false, t.(free := t.free - 1), v)
    ensures forall t' :: Bought(false, t.(free := t.free - 1), v, t') ==> Bought(true, t, v, t')
  {
    assert Priced(0) && Buying(0);
  }

  lemma CannotPay(t: Supply, v: nat)
    requires t.free == 0
    ensures !CanPay(true, t, v)
  {
    assert Priced(0);
  }

  lemma SpentNothing(each: bool, s: Supply, lo: nat)
    ensures Spent(each, s, lo, 0, s)
  {
  }

  lemma SpentPrice(each: bool, s: Supply, lo: nat, n: nat, t: Supply)
    requires Spent(each, s, lo, n, t)
    ensures Cost(each, s, lo, n) == s.free - t.free
    ensures Cost(each, s, lo, n + 1) == s.free - t.free + Price(each, t, lo + n)
  {
    assert Paying(0, n, t);
  }

  lemma SpentMore(each: bool, s: Supply, lo: nat, n: nat, t: Supply, t': Supply)
    requires Spent(each, s, lo, n, t) && Bought(each, t, lo + n, t')
    ensures Spent(each, s, lo, n + 1, t')
  {
    SpentPrice(each, s, lo, n, t);
    assert Buying(0) && Paying(0, n, t);
  }

  lemma OneOver(lo: nat)
    ensures MidsOver(lo, 1) == {lo / 262144} && LowsOver(lo, 1) == {lo / 512}
  {
  }

  lemma SpentOne(each: bool, s: Supply, lo: nat, t: Supply)
    requires Spent(each, s, lo, 1, t)
    ensures Bought(each, s, lo, t)
  {
    SpentNothing(each, s, lo);
    SpentPrice(each, s, lo, 0, s);
    SpentPrice(each, s, lo, 1, t);
    OneOver(lo);
    assert Paying(0, 1, t);
  }

  lemma OnePage(s: Supply, v: nat)
    ensures Affordable(false, s, v, 1) == if CanPay(false, s, v) then 1 else 0
  {
    SpentNothing(false, s, v);
    NextAffordable(false, s, v, 0, s, 1, Affordable(false, s, v, 1));
    SoFarAffordable(false, s, v, 0, s, 1, Affordable(false, s, v, 1));
  }

  /** The next of `pages` pages can be paid for exactly if more than `n` can be mapped in all. */
  lemma NextAffordable(each: bool, s: Supply, lo: nat, n: nat, t: Supply, pages: nat, k: nat)
    requires Spent(each, s, lo, n, t) && Reaches(each, s, lo, pages, k) && n < pages
    ensures n < k <==> CanPay(each, t, lo + n)
  {
    assert Priced(0);
    SpentPrice(each, s, lo, n, t);
    ReachesIff(each, s, lo, pages, k, n + 1);
  }

  lemma SoFarAffordable(each: bool, s: Supply, lo: nat, n: nat, t: Supply, pages: nat, k: nat)
    requires Spent(each, s, lo, n, t) && Reaches(each, s, lo, pages, k) && n <= pages
    ensures n <= k <= pages
  {
    SpentPrice(each, s, lo, n, t);
    ReachesIff(each, s, lo, pages, k, n);
    assert Reaching(0);
  }
}
