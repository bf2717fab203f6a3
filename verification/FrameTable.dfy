/** The frame table of kernel/frametable.c and its scheduler-aware clock. */
module FrameTables {
  import opened Wrapping

  datatype Frame = Frame(used: bool, pid: int, va: nat, pa: nat, refBit: bool)

  const UNUSED := Frame(false, -1, 0, 0, false)

  /** `mlfq_level_of`: unknown processes count as level 0. */
  function LevelOf(levels: map<int, nat>, pid: int): nat {
    if pid in levels then levels[pid] else 0
  }

  /** How far the hand `h` has to move to reach index `i` of `n`. */
  function Dist(h: nat, i: nat, n: nat): int {
    if i >= h then i - h else i - h + n
  }

  ghost predicate NonEmpty(t: seq<Frame>) {
    exists i :: 0 <= i < |t| && t[i].used
  }

  /** `f` is the first used frame at or after the hand. */
  ghost predicate FirstUsed(t: seq<Frame>, h: nat, f: nat) {
    && f < |t| && t[f].used
    && forall i :: 0 <= i < |t| && t[i].used ==> Dist(h, f, |t|) <= Dist(h, i, |t|)
  }

  /** A frame that had its reference bit clear when the scan began. */
  predicate Cold(t: seq<Frame>, i: nat) {
    i < |t| && t[i].used && !t[i].refBit
  }

  /** `c` is the cold frame of highest level, the first such from the hand,
      among those the hand reaches in fewer than `k` moves; -1 if there is none. */
  ghost predicate BestCold(t: seq<Frame>, h: nat, levels: map<int, nat>, k: int, c: int) {
    && (c == -1 || (0 <= c < |t| && Cold(t, c) && Dist(h, c, |t|) < k))
    && (forall i: nat :: Cold(t, i) && Dist(h, i, |t|) < k ==>
          && c != -1
          && LevelOf(levels, t[i].pid) <= LevelOf(levels, t[c].pid)
          && (LevelOf(levels, t[i].pid) == LevelOf(levels, t[c].pid) ==> Dist(h, c, |t|) <= Dist(h, i, |t|)))
  }

  /** The victim of a complete scan: the best cold frame, unless the first used
      frame from the hand belongs to a strictly higher level. */
  ghost predicate Chosen(t: seq<Frame>, h: nat, levels: map<int, nat>, v: nat) {
    exists f: nat, c: int ::
      && FirstUsed(t, h, f) && BestCold(t, h, levels, |t|, c)
      && v == Victim(t, levels, f, c)
  }

  function Victim(t: seq<Frame>, levels: map<int, nat>, f: nat, c: int): nat
    requires f < |t| && -1 <= c < |t|
  {
    if c == -1 || LevelOf(levels, t[f].pid) > LevelOf(levels, t[c].pid) then f else c
  }

  function ClearRefs(t: seq<Frame>): seq<Frame> {
    seq(|t|, i requires 0 <= i < |t| => if t[i].used then t[i].(refBit := false) else t[i])
  }

  /** The specification leaves no freedom, and the victim is as cold and as low
      in priority as promised: no cold frame has a higher level, and a frame that
      was referenced is taken only if it is the first used one and every cold
      frame has a strictly lower level. */
  lemma ChosenMeans(t: seq<Frame>, h: nat, levels: map<int, nat>, v: nat)
    requires h < |t| && Chosen(t, h, levels, v)
    ensures t[v].used
    ensures forall i: nat :: Cold(t, i) ==> LevelOf(levels, t[i].pid) <= LevelOf(levels, t[v].pid)
    ensures (forall i: nat :: !Cold(t, i)) ==> FirstUsed(t, h, v)
    ensures forall w: nat :: Chosen(t, h, levels, w) ==> w == v
  {
  }

  /** The same, spelled out. The level of a frame is that of its process, 0 if the process is gone. A victim
      whose bit was clear has the highest level of those and is the first of that level from the hand. One
      whose bit was set is the first used frame from the hand, and every frame with a clear bit is of a lower
      level. */
  lemma VictimMeans(t: seq<Frame>, h: nat, levels: map<int, nat>, v: nat)
    requires h < |t| && Chosen(t, h, levels, v)
    ensures var level := (i: nat) requires i < |t| => if t[i].pid in levels then levels[t[i].pid] else 0;
            if t[v].refBit
            then forall i: nat :: i < |t| && t[i].used ==>
                   (if v >= h then i < h || v <= i else v <= i < h) && (!t[i].refBit ==> level(i) < level(v))
            else forall i: nat :: i < |t| && t[i].used && !t[i].refBit ==>
                   level(i) <= level(v) && (level(i) == level(v) ==> if v >= h then i < h || v <= i else v <= i < h)
  {
    var f: nat, c: int :| && FirstUsed(t, h, f) && BestCold(t, h, levels, |t|, c) && v == Victim(t, levels, f, c);
    forall i: nat | i < |t| && t[i].used
      ensures t[v].refBit ==> (if v >= h then i < h || v <= i else v <= i < h)
      ensures t[v].refBit && !t[i].refBit ==> LevelOf(levels, t[i].pid) < LevelOf(levels, t[v].pid)
      ensures !t[v].refBit && !t[i].refBit ==> LevelOf(levels, t[i].pid) <= LevelOf(levels, t[v].pid)
      ensures !t[v].refBit && !t[i].refBit && LevelOf(levels, t[i].pid) == LevelOf(levels, t[v].pid) ==>
                if v >= h then i < h || v <= i else v <= i < h
    {
      assert !t[i].refBit ==> Cold(t, i);
    }
  }

  /** The hand has moved from `h` to just behind the first used frame it came to. */
  ghost predicate BehindFirst(t: seq<Frame>, h: nat, hand: nat) {
    var f := if hand == 0 then |t| - 1 else hand - 1;
    && 0 <= f < |t| && t[f].used
    && forall i :: 0 <= i < |t| && t[i].used ==> if f >= h then i < h || f <= i else f <= i < h
  }

  lemma HandMeans(t: seq<Frame>, h: nat, f: nat, hand: nat)
    requires h < |t| && FirstUsed(t, h, f) && hand == (f + 1) % |t|
    ensures BehindFirst(t, h, hand)
  {
    if f + 1 < |t| { Small(f + 1, |t|); }
  }

  /** The README promises a victim whose reference bit was clear. That holds
      exactly when the first used frame from the hand is itself cold, or some
      cold frame has at least its level. */
  lemma VictimIsColdIff(t: seq<Frame>, h: nat, levels: map<int, nat>, f: nat, v: nat)
    requires h < |t| && FirstUsed(t, h, f) && Chosen(t, h, levels, v)
    ensures Cold(t, v) <==> exists i: nat :: Cold(t, i) && LevelOf(levels, t[f].pid) <= LevelOf(levels, t[i].pid)
  {
  }

  /** A table where the promise fails: the hot frame of a lower-priority process goes. */
  lemma HotVictim()
    ensures var t := [Frame(true, 1, 0, 0, true), Frame(true, 2, 0, 4096, false)];
            Chosen(t, 0, map[1 := 1, 2 := 0], 0) && !Cold(t, 0) && Cold(t, 1)
  {
    var t := [Frame(true, 1, 0, 0, true), Frame(true, 2, 0, 4096, false)];
    assert FirstUsed(t, 0, 0) && BestCold(t, 0, map[1 := 1, 2 := 0], |t|, 1);
  }

  function CountUsed(t: seq<Frame>): nat {
    if t == [] then 0 else CountUsed(t[..|t| - 1]) + (if t[|t| - 1].used then 1 else 0)
  }

  /** It is the number of used entries. */
  lemma {:induction false} CountIs(t: seq<Frame>)
    ensures CountUsed(t) == |set i | 0 <= i < |t| && t[i].used|
  {
    var s := set i | 0 <= i < |t| && t[i].used;
    if t != [] {
      var n := |t| - 1;
      CountIs(t[..n]);
      var r := set i | 0 <= i < n && t[..n][i].used;
      assert s == if t[n].used then r + {n} else r;
    }
  }

  /** The count reaches the size of the table exactly when no entry is left. */
  lemma {:induction false} CountFull(t: seq<Frame>)
    ensures CountUsed(t) <= |t|
    ensures CountUsed(t) == |t| <==> forall i :: 0 <= i < |t| ==> t[i].used
  {
    if t != [] {
      var n := |t| - 1;
      CountFull(t[..n]);
      assert forall i :: 0 <= i < n ==> t[..n][i] == t[i];
    }
  }

  class FrameTable {
    const table: array<Frame>
    var hand: nat

    ghost predicate Valid()
      reads this
    {
      hand < table.Length
    }

    /** `frametable_init` */
    constructor (n: nat)
      requires n > 0
      ensures Valid() && fresh(table) && table.Length == n && hand == 0
      ensures forall i :: 0 <= i < n ==> table[i] == Frame(false, -1, 0, 0, false)
    {
      table := new Frame[n](_ => UNUSED);
      hand := 0;
    }

    /** `frametable_add`: the first unused entry; a full table is left alone. */
    method Add(pa: nat, pid: int, va: nat) returns (at: int)
      modifies table
      ensures at == -1 ==> table[..] == old(table[..]) && forall i :: 0 <= i < table.Length ==> table[i].used
      ensures at != -1 ==>
                && 0 <= at < table.Length && !old(table[at]).used && (forall i :: 0 <= i < at ==> old(table[i]).used)
                && table[..] == old(table[..])[at := Frame(true, pid, va, pa, true)]
    {
      at := 0;
      while at < table.Length
        invariant 0 <= at <= table.Length
        invariant forall i :: 0 <= i < at ==> table[i].used
        invariant table[..] == old(table[..])
      {
        if !table[at].used {
          table[at] := Frame(true, pid, va, pa, true);
          return;
        }
        at := at + 1;
      }
      at := -1;
    }

    /** `frametable_remove`: forget the first entry for `pa`, if there is one. */
    method Remove(pa: nat) returns (at: int)
      modifies table
      ensures at == -1 ==>
                && table[..] == old(table[..])
                && forall i :: 0 <= i < table.Length ==> !(table[i].used && table[i].pa == pa)
      ensures at != -1 ==>
                && 0 <= at < table.Length && old(table[at]).used && old(table[at]).pa == pa
                && (forall i :: 0 <= i < at ==> !(old(table[i]).used && old(table[i]).pa == pa))
                && table[..] == old(table[..])[at := Frame(false, -1, 0, 0, false)]
    {
      at := 0;
      while at < table.Length
        invariant 0 <= at <= table.Length
        invariant forall i :: 0 <= i < at ==> !(table[i].used && table[i].pa == pa)
        invariant table[..] == old(table[..])
      {
        if table[at].used && table[at].pa == pa {
          table[at] := UNUSED;
          return;
        }
        at := at + 1;
      }
      at := -1;
    }

    /** `frametable_used` */
    method Used() returns (count: nat)
      ensures count == CountUsed(table[..]) == |set i | 0 <= i < table.Length && table[i].used|
    {
      count := 0;
      for i := 0 to table.Length
        invariant count == CountUsed(table[..i])
      {
        assert table[..i + 1][..i] == table[..i];
        if table[i].used { count := count + 1; }
      }
      assert table[..table.Length] == table[..];
      CountIs(table[..]);
      assert (set i | 0 <= i < |table[..]| && table[..][i].used) == set i | 0 <= i < table.Length && table[i].used;
    }

    /** The two laps of `clock_evict`. */
    method Laps(levels: map<int, nat>) returns (victim: int, ghost f: nat, ghost c: int)
      requires Valid()
      modifies this, table
      ensures Valid()
      ensures victim == -1 ==> !NonEmpty(old(table[..])) && table[..] == old(table[..])
      ensures victim != -1 ==>
                && 0 <= victim < table.Length
                && Found(old(table[..]), old(hand), levels, table[..], hand, victim, c, f)
    {
      ghost var t, h := table[..], hand;
      victim := -1;
      f := 0;
      var victimLevel: int := -1;
      var pass := 0;
      var done := false;
      c := -1;
      while pass < 2 * table.Length && !done
        invariant !done ==> Scanning(t, h, levels, pass, table[..], hand, victim, victimLevel, c)
        invariant done ==> Found(t, h, levels, table[..], hand, victim, c, f)
        decreases 2 * table.Length - pass, !done
      {
        victim, victimLevel, done, c, f := Visit(levels, pass, victim, victimLevel, t, h, c);
        pass := pass + 1;
      }
      if !done {
        ScanEnds(t, h, levels, table[..], hand, victim, victimLevel, c);
      }
    }

    /** One pass of the scan loop. */
    method Visit(levels: map<int, nat>, pass: nat, victim: int, victimLevel: int, ghost t: seq<Frame>,
        ghost h: nat, ghost c: int)
      returns (victim': int, victimLevel': int, done: bool, ghost c': int, ghost f: nat)
      requires Scanning(t, h, levels, pass, table[..], hand, victim, victimLevel, c) && pass < 2 * table.Length
      modifies this, table
      ensures !done ==> Scanning(t, h, levels, pass + 1, table[..], hand, victim', victimLevel', c')
      ensures done ==> Found(t, h, levels, table[..], hand, victim', c', f)
    {
      Wrap(h, pass, |t|);
      SweepStep(t, h, pass);
      BestColdStep(t, h, levels, pass, c);
      if pass >= |t| { SweptAll(t, h, pass + 1); }
      victim', victimLevel', done, c', f := victim, victimLevel, false, c, 0;
      var i := hand % table.Length;
      hand := (hand + 1) % table.Length;
      if !table[i].used { return; }
      if table[i].refBit {
        table[i] := table[i].(refBit := false);
        return;
      }
      var lvl := LevelOf(levels, table[i].pid);
      if lvl > victimLevel {
        victim', victimLevel' := i, lvl;
        c' := if pass < |t| then i else c;
      }
      if victim' >= 0 && pass >= table.Length {
        done, f := true, i;
      }
    }

    /** The selection of `clock_evict`: two laps are always enough, so the
        fallback search only ever finds an empty table. */
    method Scan(levels: map<int, nat>) returns (victim: int)
      requires Valid()
      modifies this, table
      ensures Valid()
      ensures victim == -1 <==> !NonEmpty(old(table[..]))
      ensures victim == -1 ==> table[..] == old(table[..])
      ensures victim != -1 ==>
                && 0 <= victim < table.Length
                && Chosen(old(table[..]), old(hand), levels, victim)
                && table[..] == ClearRefs(old(table[..]))
                && exists f: nat :: FirstUsed(old(table[..]), old(hand), f) && hand == (f + 1) % table.Length
      ensures victim != -1 ==> forall i :: 0 <= i < table.Length ==>
                table[i] == if old(table[i]).used then old(table[i]).(refBit := false) else old(table[i])
      ensures victim != -1 ==> BehindFirst(old(table[..]), old(hand), hand)
    {
      ghost var f, c;
      victim, f, c := Laps(levels);
      if victim >= 0 { HandMeans(old(table[..]), old(hand), f, hand); }
      if victim < 0 {
        for i := 0 to table.Length
          invariant victim == -1 && table[..] == old(table[..])
        {
          if table[i].used {
            victim := i;
            break;
          }
        }
      }
    }
  }

  /** The table after the hand has moved `k` times. */
  function Swept(t: seq<Frame>, h: nat, k: nat): (r: seq<Frame>)
    ensures |r| == |t|
  {
    seq(|t|, i requires 0 <= i < |t| => if t[i].used && Dist(h, i, |t|) < k then t[i].(refBit := false) else t[i])
  }

  function LevelAt(t: seq<Frame>, levels: map<int, nat>, c: int): int {
    if 0 <= c < |t| then LevelOf(levels, t[c].pid) else -1
  }

  ghost predicate NoneBefore(t: seq<Frame>, h: nat, k: int) {
    forall i :: 0 <= i < |t| && Dist(h, i, |t|) < k ==> !t[i].used
  }

  /** The loop of the scan before pass `pass`. */
  ghost predicate Scanning(t: seq<Frame>, h: nat, levels: map<int, nat>, pass: nat, cur: seq<Frame>, hand: nat,
                           victim: int, victimLevel: int, c: int) {
    && h < |t| && pass <= 2 * |t| && hand == Turn(h, pass, |t|)
    && cur == Swept(t, h, pass)
    && BestCold(t, h, levels, if pass < |t| then pass else |t|, c)
    && victim == c && victimLevel == LevelAt(t, levels, c)
    && NoneBefore(t, h, pass - |t|)
  }

  /** The loop after it stopped, at the first used frame of the second lap. */
  ghost predicate Found(t: seq<Frame>, h: nat, levels: map<int, nat>, cur: seq<Frame>, hand: nat,
                        victim: int, c: int, f: nat) {
    && h < |t| && FirstUsed(t, h, f) && hand == (f + 1) % |t|
    && cur == ClearRefs(t)
    && BestCold(t, h, levels, |t|, c)
    && victim == Victim(t, levels, f, c)
  }

  /** Two full laps without stopping: there was nothing to find. */
  lemma ScanEnds(t: seq<Frame>, h: nat, levels: map<int, nat>, cur: seq<Frame>, hand: nat,
                 victim: int, victimLevel: int, c: int)
    requires Scanning(t, h, levels, 2 * |t|, cur, hand, victim, victimLevel, c)
    ensures !NonEmpty(t) && victim == -1 && cur == t && hand < |t|
  {
  }

  lemma SweepStep(t: seq<Frame>, h: nat, k: nat)
    requires h < |t| && k < 2 * |t|
    ensures var i, s := Turn(h, k, |t|), Swept(t, h, k);
            && 0 <= i < |t| && s[i].used == t[i].used && s[i].pid == t[i].pid
            && (t[i].used ==> s[i].refBit == (t[i].refBit && k < |t|))
            && Swept(t, h, k + 1) == if t[i].used then s[i := s[i].(refBit := false)] else s
  {
  }

  lemma SweptAll(t: seq<Frame>, h: nat, k: nat)
    requires h < |t| <= k
    ensures Swept(t, h, k) == ClearRefs(t)
  {
  }

  lemma BestColdStep(t: seq<Frame>, h: nat, levels: map<int, nat>, k: nat, c: int)
    requires h < |t| && k < 2 * |t| && BestCold(t, h, levels, if k < |t| then k else |t|, c)
    ensures var i := Turn(h, k, |t|);
            k < |t| ==>
              BestCold(t, h, levels, k + 1,
                       if Cold(t, i) && LevelOf(levels, t[i].pid) > LevelAt(t, levels, c) then i else c)
  {
  }

  /** The hand after `k` moves from `h`, for up to two laps. */
  ghost function Turn(h: nat, k: nat, n: nat): int {
    if h + k < n then h + k else if h + k < 2 * n then h + k - n else h + k - 2 * n
  }

  lemma Wrap(h: nat, k: nat, n: nat)
    requires h < n && k < 2 * n
    ensures Turn(h, k, n) % n == Turn(h, k, n)
    ensures (Turn(h, k, n) + 1) % n == Turn(h, k + 1, n)
    ensures Dist(h, Turn(h, k, n), n) == if k < n then k else k - n
  {
    var x := Turn(h, k, n);
    Small(x, n);
    if x + 1 < n { Small(x + 1, n); }
  }
}
