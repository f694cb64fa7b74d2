/** Which line makes room for a new one, how long it takes to leave the caches above, and
    what it leaves behind, all told from the state before. */
module CacheVictims {
  import opened CacheLines
  import opened CacheTree
  import opened CacheCopies
  import opened CacheEviction
  import opened CacheInvariant
  import opened CacheAcceptance
  import opened CacheSend

  function MaxOf(x: int, xs: seq<int>): (r: int)
    ensures r >= x && (r == x || r in xs) && forall j :: 0 <= j < |xs| ==> r >= xs[j]
  {
    if xs == [] then x
    else
      var r := MaxOf(x, xs[1..]);
      assert forall j :: 0 < j < |xs| ==> xs[j] == xs[1..][j - 1];
      if xs[0] > r then xs[0] else r
  }

  /** The time cache i takes to give up block b: none where its set is empty, its own
      latency where the block is absent, and otherwise its own latency or that and the
      slowest of the caches above, whose time counts twice if dirty data comes down. */
  ghost function PurgeTime(geos: seq<Geo>, s: Sys, i: int, b: int): int
    requires Fits(geos, s) && ValidId(geos, i)
    decreases geos[i].level
  {
    HigherUp(geos, i);
    var own := [4, 12, 31][geos[i].level];
    var hs := geos[i].higher;
    if SetOf(geos, s, i, b * BLOCK) == [] then 0
    else if !Has(geos, s, i, b) then own
    else MaxOf(own, seq(|hs|, j requires 0 <= j < |hs| =>
      own + PurgeTime(geos, s, hs[j], b) * (if DirtyAbove(geos, s, [hs[j]], b) then 2 else 1)))
  }

  /** The time a victim of cache i takes: the slowest of the caches above, and the
      latency of cache i on top where dirty data comes down. */
  ghost function VictimTime(geos: seq<Geo>, s: Sys, i: int, b: int): int
    requires Fits(geos, s) && ValidId(geos, i)
  {
    HigherUp(geos, i);
    var hs := geos[i].higher;
    MaxOf(0, seq(|hs|, j requires 0 <= j < |hs| =>
      PurgeTime(geos, s, hs[j], b) + (if DirtyAbove(geos, s, [hs[j]], b) then [4, 12, 31][geos[i].level] else 0)))
  }

  // ------------------------------------------------------------------- frames

  lemma PurgeTimeFrame(geos: seq<Geo>, s: Sys, t: Sys, h: int, b: int)
    requires Fits(geos, s) && Fits(geos, t) && ValidId(geos, h)
    requires forall k :: ValidId(geos, k) && Under(geos, k, h) ==> t.caches[k] == s.caches[k]
    ensures PurgeTime(geos, t, h, b) == PurgeTime(geos, s, h, b)
    ensures DirtyAbove(geos, t, [h], b) <==> DirtyAbove(geos, s, [h], b)
    decreases geos[h].level
  {
    HigherUp(geos, h);
    assert Under(geos, h, h);
    var hs := geos[h].higher;
    forall j | 0 <= j < |hs|
      ensures PurgeTime(geos, t, hs[j], b) == PurgeTime(geos, s, hs[j], b)
      ensures DirtyAbove(geos, t, [hs[j]], b) <==> DirtyAbove(geos, s, [hs[j]], b)
    {
      forall k | ValidId(geos, k) && Under(geos, k, hs[j]) ensures t.caches[k] == s.caches[k] {
        UnderHigher(geos, k, h);
      }
      PurgeTimeFrame(geos, s, t, hs[j], b);
    }
    DirtyAboveOne(geos, s, h, b);
    DirtyAboveOne(geos, t, h, b);
    PurgeTimeSame(geos, s, t, h, b);
  }

  lemma PurgeTimeSame(geos: seq<Geo>, s: Sys, t: Sys, h: int, b: int)
    requires Fits(geos, s) && Fits(geos, t) && ValidId(geos, h) && t.caches[h] == s.caches[h]
    requires AllUp(geos, geos[h].higher, geos[h].level)
    requires forall j :: 0 <= j < |geos[h].higher| ==>
      && PurgeTime(geos, t, geos[h].higher[j], b) == PurgeTime(geos, s, geos[h].higher[j], b)
      && (DirtyAbove(geos, t, [geos[h].higher[j]], b) <==> DirtyAbove(geos, s, [geos[h].higher[j]], b))
    ensures PurgeTime(geos, t, h, b) == PurgeTime(geos, s, h, b)
  {
    HigherUp(geos, h);
    hide DirtyAbove, Index, Tag, Find, MaxOf;
    var own := [4, 12, 31][geos[h].level];
    var hs := geos[h].higher;
    assert seq(|hs|, j requires 0 <= j < |hs| =>
        own + PurgeTime(geos, t, hs[j], b) * (if DirtyAbove(geos, t, [hs[j]], b) then 2 else 1))
      == seq(|hs|, j requires 0 <= j < |hs| =>
        own + PurgeTime(geos, s, hs[j], b) * (if DirtyAbove(geos, s, [hs[j]], b) then 2 else 1));
  }

  /** Caches of one level have nothing above them in common. */
  predicate Separate(geos: seq<Geo>, hs: seq<int>) {
    && (forall j :: 0 <= j < |hs| ==> ValidId(geos, hs[j]))
    && forall j, l :: 0 <= j < l < |hs| ==> hs[j] != hs[l] && geos[hs[j]].level == geos[hs[l]].level
  }

  lemma UnderOne(geos: seq<Geo>, k: int, g: int, h: int)
    requires Topo(geos) && ValidId(geos, k) && ValidId(geos, g) && ValidId(geos, h)
    requires geos[g].level == geos[h].level && Under(geos, k, g) && Under(geos, k, h)
    ensures g == h
    decreases 2 - geos[k].level
  {
    HigherUp(geos, k);
    UnderLevel(geos, k, g);
    UnderLevel(geos, k, h);
    if k != g && k != h { UnderOne(geos, geos[k].lower, g, h); }
  }

  // --------------------------------------------------------------- invalidate

  /** What each of the higher caches returned. */
  ghost predicate Returned(geos: seq<Geo>, s: Sys, hs: seq<int>, b: int, rs: seq<(int, bool)>)
    requires Fits(geos, s) && forall j :: 0 <= j < |hs| ==> ValidId(geos, hs[j])
  {
    |rs| == |hs| && forall j :: 0 <= j < |hs| ==>
      rs[j].0 == PurgeTime(geos, s, hs[j], b) && (rs[j].1 <==> DirtyAbove(geos, s, [hs[j]], b))
  }

  /** invalidate returns the time told from the state before it. */
  lemma InvalidateTime(geos: seq<Geo>, s: Sys, i: int, addr: int)
    requires ValidId(geos, i) && Ready(geos, s, [i], Block(addr))
    ensures Invalidate(geos, s, i, addr).delay == PurgeTime(geos, s, i, Block(addr))
    decreases geos[i].level, 1, 0
  {
    HigherUp(geos, i);
    var b := Block(addr);
    var hs := geos[i].higher;
    var ls := SetOf(geos, s, i, addr);
    SameSet(geos, s, i, addr);
    var p := FoundIsCopy(geos, s, i, addr);
    if p < |ls| {
      ReadyHere(geos, s, i, b);
      EraseEffect(geos, s, i, addr, p, s.ok);
      var s1 := PutSet(geos, s, i, addr, Erase(ls, p)).(ok := s.ok);
      AboveTimes(geos, s, s1, i, addr);
      var (s2, rs) := InvalidateEach(geos, s1, hs, addr, geos[i].level);
      assert s1 == PutSet(geos, s, i, addr, Erase(ls, p)).(ok := s.ok && !ls[p].lock);
      assert Invalidate(geos, s, i, addr).delay == SlowestAbove(LatencyEach(geos[i].level), rs);
      hide *;
      PurgeTimeIs(geos, s, i, b, rs);
    }
  }

  lemma SameSet(geos: seq<Geo>, s: Sys, i: int, addr: int)
    requires Fits(geos, s) && ValidId(geos, i)
    ensures SetOf(geos, s, i, Block(addr) * BLOCK) == SetOf(geos, s, i, addr)
  {
    HigherUp(geos, i);
    BlockIndex(geos[i], addr);
  }

  lemma ReadyHere(geos: seq<Geo>, s: Sys, i: int, b: int)
    requires ValidId(geos, i) && Ready(geos, s, [i], b)
    ensures SetsGood(geos, s) && IncludedAbove(geos, s, i, b) && UnlockedAbove(geos, s, i, b)
    ensures !LockedIn(geos, s, i, b)
  {
    assert [i][0] == i && Under(geos, i, i);
  }

  lemma PurgeTimeIs(geos: seq<Geo>, s: Sys, i: int, b: int, rs: seq<(int, bool)>)
    requires Fits(geos, s) && ValidId(geos, i) && AllUp(geos, geos[i].higher, geos[i].level)
    requires SetOf(geos, s, i, b * BLOCK) != [] && Has(geos, s, i, b)
    requires Returned(geos, s, geos[i].higher, b, rs)
    ensures PurgeTime(geos, s, i, b) == SlowestAbove(LatencyEach(geos[i].level), rs)
  {
    HigherUp(geos, i);
    hide DirtyAbove, Has, SetOf, MaxOf, SlowestAbove;
    var own := [4, 12, 31][geos[i].level];
    var hs := geos[i].higher;
    var xs := seq(|hs|, j requires 0 <= j < |hs| =>
      own + PurgeTime(geos, s, hs[j], b) * (if DirtyAbove(geos, s, [hs[j]], b) then 2 else 1));
    SlowestAboveMax(own, rs, xs);
  }

  lemma {:induction false} SlowestAboveMax(own: int, rs: seq<(int, bool)>, xs: seq<int>)
    requires |rs| == |xs| && forall j :: 0 <= j < |rs| ==> xs[j] == own + rs[j].0 * (if rs[j].1 then 2 else 1)
    ensures SlowestAbove(own, rs) == MaxOf(own, xs)
  {
    if rs != [] { SlowestAboveMax(own, rs[1..], xs[1..]); }
  }

  lemma {:induction false} SlowestVictimMax(own: int, rs: seq<(int, bool)>, xs: seq<int>)
    requires |rs| == |xs| && forall j :: 0 <= j < |rs| ==> xs[j] == rs[j].0 + (if rs[j].1 then own else 0)
    ensures SlowestVictim(own, rs) == MaxOf(0, xs)
  {
    if rs != [] { SlowestVictimMax(own, rs[1..], xs[1..]); }
  }

  lemma HigherSeparate(geos: seq<Geo>, i: int)
    requires Topo(geos) && ValidId(geos, i)
    ensures Separate(geos, geos[i].higher)
  {
    assert NodeOk(geos, i);
  }

  /** What the caches above i return once the copy in i is gone. */
  lemma AboveTimes(geos: seq<Geo>, s: Sys, s1: Sys, i: int, addr: int)
    requires ValidId(geos, i) && OneCopy(geos, s, s1, i, Block(addr), None) && s1.(caches := s.caches) == s
    requires IncludedAbove(geos, s, i, Block(addr)) && UnlockedAbove(geos, s, i, Block(addr))
    requires AllUp(geos, geos[i].higher, geos[i].level) && geos[i].level >= 0
    ensures Returned(geos, s, geos[i].higher, Block(addr),
                     InvalidateEach(geos, s1, geos[i].higher, addr, geos[i].level).1)
    decreases geos[i].level, 0, |geos[i].higher| + 1
  {
    var b := Block(addr);
    var hs := geos[i].higher;
    forall j | 0 <= j < |hs| ensures IncludedAbove(geos, s1, hs[j], b) && UnlockedAbove(geos, s1, hs[j], b) {
      AboveHigher(geos, s, i, b, j);
      HigherReady(geos, s, s1, i, j, b);
    }
    HigherSeparate(geos, i);
    InvalidateEachTimes(geos, s1, hs, addr, geos[i].level);
    forall j | 0 <= j < |hs|
      ensures PurgeTime(geos, s1, hs[j], b) == PurgeTime(geos, s, hs[j], b)
      ensures DirtyAbove(geos, s1, [hs[j]], b) <==> DirtyAbove(geos, s, [hs[j]], b)
    {
      UnderApart(geos, i);
      forall k | ValidId(geos, k) && Under(geos, k, hs[j]) ensures s1.caches[k] == s.caches[k] {}
      PurgeTimeFrame(geos, s, s1, hs[j], b);
    }
    hide PurgeTime, DirtyAbove, InvalidateEach;
  }

  lemma {:induction false} InvalidateEachTimes(geos: seq<Geo>, s: Sys, hs: seq<int>, addr: int, level: int)
    requires Ready(geos, s, hs, Block(addr)) && AllUp(geos, hs, level) && level >= 0 && Separate(geos, hs)
    ensures Returned(geos, s, hs, Block(addr), InvalidateEach(geos, s, hs, addr, level).1)
    decreases level, 0, |hs|
  {
    if hs != [] {
      var b := Block(addr);
      HigherUp(geos, hs[0]);
      ReadySplit(geos, s, hs, b);
      hide *;
      InvalidateEffect(geos, s, hs[0], addr);
      InvalidateTime(geos, s, hs[0], addr);
      var r := Invalidate(geos, s, hs[0], addr);
      StillReady(geos, s, r.s, hs[0], hs[1..], b);
      SeparateTail(geos, hs, level);
      InvalidateEachTimes(geos, r.s, hs[1..], addr, level);
      SeparateTimes(geos, s, r.s, hs, b);
      EachTimesStep(geos, s, hs, addr, level);
    }
  }

  lemma SeparateTail(geos: seq<Geo>, hs: seq<int>, level: int)
    requires hs != [] && Separate(geos, hs) && AllUp(geos, hs, level)
    ensures Separate(geos, hs[1..]) && AllUp(geos, hs[1..], level)
  {}

  lemma EachTimesStep(geos: seq<Geo>, s: Sys, hs: seq<int>, addr: int, level: int)
    requires Fits(geos, s) && hs != [] && AllUp(geos, hs, level) && level >= 0 && AllUp(geos, hs[1..], level)
    requires var r := Invalidate(geos, s, hs[0], addr); var b := Block(addr);
      && r.delay == PurgeTime(geos, s, hs[0], b) && (r.dirty <==> DirtyAbove(geos, s, [hs[0]], b))
      && Returned(geos, r.s, hs[1..], b, InvalidateEach(geos, r.s, hs[1..], addr, level).1)
      && forall j :: 0 < j < |hs| ==>
           && PurgeTime(geos, r.s, hs[j], b) == PurgeTime(geos, s, hs[j], b)
           && (DirtyAbove(geos, r.s, [hs[j]], b) <==> DirtyAbove(geos, s, [hs[j]], b))
    ensures Returned(geos, s, hs, Block(addr), InvalidateEach(geos, s, hs, addr, level).1)
  {
    hide DirtyAbove, PurgeTime, Invalidate;
  }

  lemma SeparateTimes(geos: seq<Geo>, s: Sys, t: Sys, hs: seq<int>, b: int)
    requires hs != [] && Separate(geos, hs) && Purged(geos, s, t, [hs[0]], b)
    ensures forall j :: 0 < j < |hs| ==>
      && PurgeTime(geos, t, hs[j], b) == PurgeTime(geos, s, hs[j], b)
      && (DirtyAbove(geos, t, [hs[j]], b) <==> DirtyAbove(geos, s, [hs[j]], b))
  {
    forall j | 0 < j < |hs|
      ensures PurgeTime(geos, t, hs[j], b) == PurgeTime(geos, s, hs[j], b)
      ensures DirtyAbove(geos, t, [hs[j]], b) <==> DirtyAbove(geos, s, [hs[j]], b)
    {
      forall k | ValidId(geos, k) && Under(geos, k, hs[j]) ensures t.caches[k] == s.caches[k] {
        if UnderAny(geos, k, [hs[0]]) { UnderOne(geos, k, hs[0], hs[j]); }
      }
      PurgeTimeFrame(geos, s, t, hs[j], b);
    }
  }

  // -------------------------------------------------------------------- evict

  /** What an eviction from cache i hands on: to the cache below, the youngest copy in
      its set, unlocked; or to memory, if the data is dirty, one write of the victim's
      address once it has left every cache above. */
  ghost predicate HandedOn(geos: seq<Geo>, s: Sys, t: Sys, i: int, l: Line)
    requires Fits(geos, s) && Fits(geos, t) && ValidId(geos, i)
  {
    HigherUp(geos, i);
    var b := Block(l.addr);
    var low := geos[i].lower;
    && t.hits == s.hits && t.clk == s.clk
    && t.written == (if low == -1 && DirtyAbove(geos, s, [i], b) then s.written - {(i, b)} else s.written)
    && t.wait == s.wait + (if low == -1 && DirtyAbove(geos, s, [i], b)
         then [Timed(s.clk + VictimTime(geos, s, i, b) + [4, 16, 47][geos[i].level], Mem(l.addr, true))] else [])
    && (low != -1 ==> Has(geos, t, low, b) && var v := Copy(geos, t, low, b).value;
         && v.addr == l.addr && !v.lock && v.node >= s.nodes
         && (v.dirty <==> DirtyAbove(geos, s, [i], b) || DirtyIn(geos, s, low, b)))
  }

  lemma EvictHands(geos: seq<Geo>, s: Sys, i: int, addr: int, p: nat)
    requires SetsGood(geos, s) && ValidId(geos, i) && p < |SetOf(geos, s, i, addr)|
    requires var b := Block(SetOf(geos, s, i, addr)[p].addr);
      UnlockedAbove(geos, s, i, b) && IncludedAbove(geos, s, i, b) && Included(geos, s, i, b)
    ensures HandedOn(geos, s, Evict(geos, s, i, SetOf(geos, s, i, addr)[p]), i, SetOf(geos, s, i, addr)[p])
  {
    var l := SetOf(geos, s, i, addr)[p];
    var b := Block(l.addr);
    var hs := geos[i].higher;
    HigherUp(geos, i);
    LineIsCopy(geos, s, i, addr, p);
    hide *;
    HigherReadyAll(geos, s, i, b);
    HigherSeparate(geos, i);
    InvalidateEachTimes(geos, s, hs, l.addr, geos[i].level);
    InvalidateEachEffect(geos, s, hs, l.addr, geos[i].level);
    var (s1, rs) := InvalidateEach(geos, s, hs, l.addr, geos[i].level);
    VictimTimeIs(geos, s, i, b, rs);
    DirtySplit(geos, s, i, b);
    HandsOn(geos, s, s1, i, l, rs);
  }

  lemma HigherReadyAll(geos: seq<Geo>, s: Sys, i: int, b: int)
    requires SetsGood(geos, s) && ValidId(geos, i) && UnlockedAbove(geos, s, i, b) && IncludedAbove(geos, s, i, b)
    ensures Ready(geos, s, geos[i].higher, b)
  {
    HigherUp(geos, i);
    forall j | 0 <= j < |geos[i].higher|
      ensures IncludedAbove(geos, s, geos[i].higher[j], b) && UnlockedAbove(geos, s, geos[i].higher[j], b)
    {
      AboveHigher(geos, s, i, b, j);
      UnlockedSplit(geos, s, i, b);
    }
  }

  lemma VictimTimeIs(geos: seq<Geo>, s: Sys, i: int, b: int, rs: seq<(int, bool)>)
    requires Fits(geos, s) && ValidId(geos, i) && AllUp(geos, geos[i].higher, geos[i].level)
    requires Returned(geos, s, geos[i].higher, b, rs)
    ensures VictimTime(geos, s, i, b) == SlowestVictim(LatencyEach(geos[i].level), rs)
  {
    HigherUp(geos, i);
    hide DirtyAbove, MaxOf, SlowestVictim, PurgeTime;
    var own := [4, 12, 31][geos[i].level];
    var hs := geos[i].higher;
    var xs := seq(|hs|, j requires 0 <= j < |hs| =>
      PurgeTime(geos, s, hs[j], b) + (if DirtyAbove(geos, s, [hs[j]], b) then own else 0));
    SlowestVictimMax(own, rs, xs);
  }

  lemma HandsOn(geos: seq<Geo>, s: Sys, s1: Sys, i: int, l: Line, rs: seq<(int, bool)>)
    requires ValidId(geos, i) && Purged(geos, s, s1, geos[i].higher, Block(l.addr))
        && Included(geos, s, i, Block(l.addr))
    requires AllUp(geos, geos[i].higher, geos[i].level)
    requires (s1, rs) == InvalidateEach(geos, s, geos[i].higher, l.addr, geos[i].level)
    requires Copy(geos, s, i, Block(l.addr)) == Some(l)
    requires AnyDirty(rs) <==> DirtyAbove(geos, s, geos[i].higher, Block(l.addr))
    requires DirtyAbove(geos, s, [i], Block(l.addr))
        <==> DirtyIn(geos, s, i, Block(l.addr)) || DirtyAbove(geos, s, geos[i].higher, Block(l.addr))
    requires VictimTime(geos, s, i, Block(l.addr)) == SlowestVictim(LatencyEach(geos[i].level), rs)
    ensures HandedOn(geos, s, Evict(geos, s, i, l), i, l)
  {
    EvictUnfold(geos, s, s1, i, l, rs);
    HigherUp(geos, i);
    hide *;
    FirstDirty(geos, s, i, Block(l.addr), l);
    var dirty := l.dirty || AnyDirty(rs);
    var delay := SlowestVictim(LatencyEach(geos[i].level), rs);
    if geos[i].lower != -1 {
      HandsBelow(geos, s, s1, i, l, dirty, delay);
    } else {
      HandsToMemory(geos, s, s1, i, l, dirty, delay);
    }
  }

  lemma FirstDirty(geos: seq<Geo>, s: Sys, i: int, b: int, l: Line)
    requires Fits(geos, s) && ValidId(geos, i) && Copy(geos, s, i, b) == Some(l)
    ensures DirtyIn(geos, s, i, b) == l.dirty && Has(geos, s, i, b)
  {}

  lemma EvictUnfold(geos: seq<Geo>, s: Sys, s1: Sys, i: int, l: Line, rs: seq<(int, bool)>)
    requires Fits(geos, s) && ValidId(geos, i) && AllUp(geos, geos[i].higher, geos[i].level)
    requires geos[i].level >= 0 && (s1, rs) == InvalidateEach(geos, s, geos[i].higher, l.addr, geos[i].level)
    ensures Fits(geos, s1)
    ensures Evict(geos, s, i, l) == EraseNode(geos, HandDown(geos, s1, i, l.addr, l.dirty || AnyDirty(rs),
        SlowestVictim(LatencyEach(geos[i].level), rs)), i, l)
  {
    HigherUp(geos, i);
    hide EraseNode, HandDown, InvalidateEach;
  }

  lemma HandsToMemory(geos: seq<Geo>, s: Sys, s1: Sys, i: int, l: Line, dirty: bool, delay: int)
    requires ValidId(geos, i) && Purged(geos, s, s1, geos[i].higher, Block(l.addr)) && geos[i].lower == -1
    requires dirty <==> DirtyAbove(geos, s, [i], Block(l.addr))
    requires delay == VictimTime(geos, s, i, Block(l.addr))
    ensures HandedOn(geos, s, EraseNode(geos, HandDown(geos, s1, i, l.addr, dirty, delay), i, l), i, l)
  {
    assert 0 <= i < |geos|;
    hide *;
    PurgedRest(geos, s, s1, geos[i].higher, Block(l.addr));
    MemoryGets(geos, s1, i, l.addr, dirty, delay);
    var s2 := HandDown(geos, s1, i, l.addr, dirty, delay);
    ErasedWait(geos, s2, i, l);
    RootHands(geos, s, s1, s2, EraseNode(geos, s2, i, l), i, l, dirty, delay);
  }

  lemma PurgedRest(geos: seq<Geo>, s: Sys, t: Sys, hs: seq<int>, b: int)
    requires Purged(geos, s, t, hs, b)
    ensures SetsGood(geos, s) && SetsGood(geos, t) && Fits(geos, s) && Fits(geos, t) && s.nodes == t.nodes
    ensures t.wait == s.wait && t.hits == s.hits && t.clk == s.clk && t.written == s.written
  {
    hide Copy, Under, SetsOk;
  }

  lemma MemoryGets(geos: seq<Geo>, s: Sys, i: int, addr: int, dirty: bool, delay: int)
    requires Fits(geos, s) && ValidId(geos, i) && geos[i].lower == -1
    ensures 0 <= geos[i].level <= 2
    ensures var t := HandDown(geos, s, i, addr, dirty, delay);
      && t.hits == s.hits && t.clk == s.clk
      && t.written == (if dirty then s.written - {(i, Block(addr))} else s.written)
      && t.wait == s.wait + (if dirty then [Timed(s.clk + delay + [4, 16, 47][geos[i].level], Mem(addr, true))] else [])
  {
    HigherUp(geos, i);
  }

  lemma RootHands(geos: seq<Geo>, s: Sys, s1: Sys, s2: Sys, t: Sys, i: int, l: Line, dirty: bool, delay: int)
    requires Fits(geos, s) && Fits(geos, t) && ValidId(geos, i) && geos[i].lower == -1 && 0 <= geos[i].level <= 2
    requires s1.hits == s.hits && s1.clk == s.clk && s1.wait == s.wait && s2.hits == s1.hits && s2.clk == s1.clk
    requires t.hits == s2.hits && t.clk == s2.clk && t.wait == s2.wait && t.written == s2.written
    requires s1.written == s.written
    requires s2.written == if dirty then s1.written - {(i, Block(l.addr))} else s1.written
    requires s2.wait
          == s1.wait + (if dirty then [Timed(s1.clk + delay + [4, 16, 47][geos[i].level], Mem(l.addr, true))] else [])
    requires dirty <==> DirtyAbove(geos, s, [i], Block(l.addr))
    requires delay == VictimTime(geos, s, i, Block(l.addr))
    ensures HandedOn(geos, s, t, i, l)
  {
    hide Fits, DirtyAbove, VictimTime, Copy;
  }

  lemma HandsBelow(geos: seq<Geo>, s: Sys, s1: Sys, i: int, l: Line, dirty: bool, delay: int)
    requires ValidId(geos, i) && Purged(geos, s, s1, geos[i].higher, Block(l.addr)) && geos[i].lower != -1
    requires dirty <==> DirtyAbove(geos, s, [i], Block(l.addr))
    requires Has(geos, s, i, Block(l.addr)) && Included(geos, s, i, Block(l.addr))
    ensures HandedOn(geos, s, EraseNode(geos, HandDown(geos, s1, i, l.addr, dirty, delay), i, l), i, l)
  {
    var b := Block(l.addr);
    var low := geos[i].lower;
    hide *;
    PurgedRest(geos, s, s1, geos[i].higher, b);
    BelowHas(geos, s, i, b);
    UnderApart(geos, i);
    PurgedCopy(geos, s, s1, geos[i].higher, b, low);
    HasCopy(geos, s, s1, low, b);
    EvictLineEffect(geos, s1, low, l.addr, dirty);
    var s2 := EvictLine(geos, s1, low, l.addr, dirty);
    BelowGets(geos, s1, s2, i, l, dirty, delay);
    ErasedHere(geos, s2, i, low, l, b);
    LowerHands(geos, s, EraseNode(geos, s2, i, l), i, l, dirty);
  }

  lemma BelowHas(geos: seq<Geo>, s: Sys, i: int, b: int)
    requires Fits(geos, s) && ValidId(geos, i) && geos[i].lower != -1 && Has(geos, s, i, b) && Included(geos, s, i, b)
    ensures Topo(geos) && ValidId(geos, geos[i].lower) && geos[i].lower != i && Has(geos, s, geos[i].lower, b)
    ensures 0 <= geos[i].level <= 2
  {
    HigherUp(geos, i);
    hide Copy;
  }

  lemma HasCopy(geos: seq<Geo>, s: Sys, t: Sys, k: int, b: int)
    requires Fits(geos, s) && Fits(geos, t) && ValidId(geos, k) && Copy(geos, t, k, b) == Copy(geos, s, k, b)
    ensures Has(geos, t, k, b) == Has(geos, s, k, b) && DirtyIn(geos, t, k, b) == DirtyIn(geos, s, k, b)
    ensures Has(geos, t, k, b) ==>
      Copy(geos, t, k, b).Some? && Copy(geos, t, k, b).value.dirty == DirtyIn(geos, t, k, b)
  {
    hide Copy;
  }

  lemma BelowGets(geos: seq<Geo>, s: Sys, t: Sys, i: int, l: Line, dirty: bool, delay: int)
    requires Fits(geos, s) && ValidId(geos, i) && ValidId(geos, geos[i].lower)
    requires t == EvictLine(geos, s, geos[i].lower, l.addr, dirty) && Has(geos, s, geos[i].lower, Block(l.addr))
    requires OneCopy(geos, s, t, geos[i].lower, Block(l.addr), Some(Line(l.addr, TagOf(geos, geos[i].lower, l.addr),
        false, dirty || Copy(geos, s, geos[i].lower, Block(l.addr)).value.dirty, s.nodes)))
    ensures HandDown(geos, s, i, l.addr, dirty, delay) == t && Fits(geos, t) && t.wait == s.wait && t.clk == s.clk
    ensures t.written == s.written
    ensures Copy(geos, t, geos[i].lower, Block(l.addr)) == Some(Line(l.addr, TagOf(geos, geos[i].lower, l.addr), false,
        dirty || Copy(geos, s, geos[i].lower, Block(l.addr)).value.dirty, s.nodes))
  {
    HigherUp(geos, i);
    hide EvictLine, Copy, SetsOk, TagOf;
  }

  lemma LowerHands(geos: seq<Geo>, s: Sys, t: Sys, i: int, l: Line, dirty: bool)
    requires Fits(geos, s) && Fits(geos, t) && ValidId(geos, i) && geos[i].lower != -1 && 0 <= geos[i].level <= 2
    requires ValidId(geos, geos[i].lower) && t.hits == s.hits && t.clk == s.clk && t.wait == s.wait
    requires t.written == s.written
    requires dirty <==> DirtyAbove(geos, s, [i], Block(l.addr))
    requires Copy(geos, t, geos[i].lower, Block(l.addr)) == Some(Line(l.addr, TagOf(geos, geos[i].lower, l.addr), false,
        dirty || DirtyIn(geos, s, geos[i].lower, Block(l.addr)), s.nodes))
    ensures HandedOn(geos, s, t, i, l)
  {
    hide Fits, DirtyAbove, VictimTime, Copy, DirtyIn, TagOf;
  }

  lemma ErasedWait(geos: seq<Geo>, s: Sys, i: int, l: Line)
    requires Fits(geos, s) && ValidId(geos, i)
    ensures var t := EraseNode(geos, s, i, l);
      t.wait == s.wait && t.hits == s.hits && t.clk == s.clk && t.written == s.written
  {}

  lemma ErasedHere(geos: seq<Geo>, s: Sys, i: int, k: int, l: Line, b: int)
    requires Fits(geos, s) && ValidId(geos, i) && ValidId(geos, k) && k != i
    ensures var t := EraseNode(geos, s, i, l);
      && t.wait == s.wait && t.hits == s.hits && t.clk == s.clk && t.written == s.written
      && Copy(geos, t, k, b) == Copy(geos, s, k, b)
  {}

  // ----------------------------------------------------------------- allocate

  /** l is the line of the set that was touched the longest ago among those that are
      unlocked here and in every cache above. */
  ghost predicate Oldest(geos: seq<Geo>, s: Sys, i: int, addr: int, l: Line)
    requires Fits(geos, s) && ValidId(geos, i)
  {
    && Copy(geos, s, i, Block(l.addr)) == Some(l) && CanGo(geos, s, i, addr, Block(l.addr))
    && forall c :: CanGo(geos, s, i, addr, c) ==> l.node <= Copy(geos, s, i, c).value.node
  }

  /** The victim of find_if is the oldest line: the sets are kept in the order of age. */
  lemma VictimOldest(geos: seq<Geo>, s: Sys, i: int, addr: int)
    requires SetsGood(geos, s) && ValidId(geos, i) && IncludedBut(geos, s, Block(addr))
    requires !Has(geos, s, i, Block(addr))
    ensures var ls := SetOf(geos, s, i, addr); var v := Victim(geos, s, i, ls);
      v < |ls| ==> Oldest(geos, s, i, addr, ls[v])
  {
    var ls := SetOf(geos, s, i, addr);
    var v := Victim(geos, s, i, ls);
    if v < |ls| {
      hide Index, Tag, SetsOk, Included, At, UnlockedAbove;
      LineIsCopy(geos, s, i, addr, v);
      EvictableExact(geos, s, i, ls[v]);
      HigherUp(geos, i);
      BlockIndex(geos[i], ls[v].addr);
      forall c | CanGo(geos, s, i, addr, c) ensures ls[v].node <= Copy(geos, s, i, c).value.node {
        NotOlder(geos, s, i, addr, c);
      }
    }
  }

  lemma NotOlder(geos: seq<Geo>, s: Sys, i: int, addr: int, c: int)
    requires SetsGood(geos, s) && ValidId(geos, i) && IncludedBut(geos, s, Block(addr))
    requires !Has(geos, s, i, Block(addr)) && CanGo(geos, s, i, addr, c)
    requires Victim(geos, s, i, SetOf(geos, s, i, addr)) < |SetOf(geos, s, i, addr)|
    ensures Has(geos, s, i, c)
    ensures SetOf(geos, s, i, addr)[Victim(geos, s, i, SetOf(geos, s, i, addr))].node <= Copy(geos, s, i, c).value.node
  {
    hide Index, Tag, Included, UnlockedAbove;
    HigherUp(geos, i);
    var ls := SetOf(geos, s, i, addr);
    var v := Victim(geos, s, i, ls);
    var p := AtSome(geos[i], s.caches[i], c, s.nodes);
    assert IncludedAbove(geos, s, i, c);
    EvictableExact(geos, s, i, ls[p]);
    assert v <= p;
    assert SetOk(geos[i], ls, Index(geos[i], addr), s.nodes);
  }

  /** t is s with line l gone from cache i and everything above it; the cache below, or
      memory, has been handed its data. Block b of cache i is left out. */
  ghost predicate Replaced(geos: seq<Geo>, s: Sys, t: Sys, i: int, b: int, l: Line)
    requires Fits(geos, s) && Fits(geos, t) && ValidId(geos, i)
  {
    HigherUp(geos, i);
    var v := Block(l.addr);
    && v != b && HandedOn(geos, s, t, i, l)
    && (forall k :: ValidId(geos, k) && k != geos[i].lower ==>
          Copy(geos, t, k, v) == if Under(geos, k, i) then None else Copy(geos, s, k, v))
    && forall k, c :: ValidId(geos, k) && c != v && !(k == i && c == b) ==> Copy(geos, t, k, c) == Copy(geos, s, k, c)
  }

  ghost predicate Untouched(geos: seq<Geo>, s: Sys, t: Sys, i: int, b: int)
    requires Fits(geos, s) && Fits(geos, t) && ValidId(geos, i)
  {
    && t.hits == s.hits && t.clk == s.clk && t.wait == s.wait && t.written == s.written
    && forall k, c :: ValidId(geos, k) && !(k == i && c == b) ==> Copy(geos, t, k, c) == Copy(geos, s, k, c)
  }

  /** allocate_line: the new line is locked; where the set was full the oldest line that
      is unlocked in the whole subtree has gone, and nothing else has changed. */
  lemma AllocateExact(geos: seq<Geo>, s: Sys, i: int, addr: int, write: bool, extra: set<(int, int)>)
    returns (l: Line)
    requires Sendable(geos, s, i, Block(addr), extra) && !Has(geos, s, i, Block(addr)) && HasRoom(geos, s, i, addr)
    requires |s.caches[i].mshr| < geos[i].mshrMax
    ensures var (t, room) := Allocate(geos, s, i, addr, write);
      && room && Has(geos, t, i, Block(addr)) && Copy(geos, t, i, Block(addr)).value.addr == addr
      && LockedIn(geos, t, i, Block(addr)) && DirtyIn(geos, t, i, Block(addr)) == write
      && Copy(geos, t, i, Block(addr)).value.node >= s.nodes && s.nodes < t.nodes
      && if |SetOf(geos, s, i, addr)| < geos[i].assoc then Untouched(geos, s, t, i, Block(addr))
         else Oldest(geos, s, i, addr, l) && Replaced(geos, s, t, i, Block(addr), l)
  {
    var ls := SetOf(geos, s, i, addr);
    var v := Victim(geos, s, i, ls);
    l := Line(addr, 0, false, false, 0);
    AllocateUnfold(geos, s, i, addr, write, extra);
    if |ls| < geos[i].assoc {
      hide *;
      PushLineEffect(geos, s, i, addr, write);
      PushRest(geos, s, i, addr, write);
      UntouchedRest(geos, s, PushLine(geos, s, i, addr, write), i, Block(addr));
    } else {
      l := ls[v];
      var u := Evict(geos, s, i, l);
      hide *;
      RoomVictim(geos, s, i, addr, extra);
      PushLineEffect(geos, u, i, addr, write);
      PushRest(geos, u, i, addr, write);
      ReplacedRest(geos, s, u, PushLine(geos, u, i, addr, write), i, Block(addr), l);
    }
  }

  lemma AllocateUnfold(geos: seq<Geo>, s: Sys, i: int, addr: int, write: bool, extra: set<(int, int)>)
    requires Sendable(geos, s, i, Block(addr), extra) && !Has(geos, s, i, Block(addr)) && HasRoom(geos, s, i, addr)
    ensures 0 <= i < |geos| && SetsGood(geos, s) && MshrGood(geos, s)
    ensures var ls := SetOf(geos, s, i, addr); var v := Victim(geos, s, i, ls);
      && (|ls| < geos[i].assoc ==> Allocate(geos, s, i, addr, write) == (PushLine(geos, s, i, addr, write), true))
      && (|ls| >= geos[i].assoc ==>
            && v < |ls|
            && Allocate(geos, s, i, addr, write) == (PushLine(geos, Evict(geos, s, i, ls[v]), i, addr, write), true))
  {
    var p := FoundIsCopy(geos, s, i, addr);
    hide PushLine, Evict, Evictable;
  }

  lemma PushRest(geos: seq<Geo>, s: Sys, i: int, addr: int, dirty: bool)
    requires Fits(geos, s) && ValidId(geos, i)
    ensures var t := PushLine(geos, s, i, addr, dirty);
      && t.hits == s.hits && t.clk == s.clk && t.wait == s.wait && t.written == s.written && t.nodes == s.nodes + 1
  {}

  lemma UntouchedRest(geos: seq<Geo>, s: Sys, t: Sys, i: int, b: int)
    requires Fits(geos, s) && Fits(geos, t) && ValidId(geos, i)
    requires t.hits == s.hits && t.clk == s.clk && t.wait == s.wait && t.written == s.written
    requires forall k, c :: ValidId(geos, k) && !(k == i && c == b) ==> Copy(geos, t, k, c) == Copy(geos, s, k, c)
    ensures Untouched(geos, s, t, i, b)
  {
    hide Copy;
  }

  /** The push after the eviction. */
  lemma ReplacedRest(geos: seq<Geo>, s: Sys, u: Sys, t: Sys, i: int, b: int, l: Line)
    requires Fits(geos, s) && Fits(geos, u) && Fits(geos, t) && ValidId(geos, i) && Block(l.addr) != b
    requires Evicted(geos, s, u, i, Block(l.addr)) && HandedOn(geos, s, u, i, l)
    requires t.hits == u.hits && t.clk == u.clk && t.wait == u.wait && t.written == u.written
    requires forall k, c :: ValidId(geos, k) && !(k == i && c == b) ==> Copy(geos, t, k, c) == Copy(geos, u, k, c)
    ensures Replaced(geos, s, t, i, b, l)
  {
    HigherUp(geos, i);
    hide Copy, Under, DirtyAbove, VictimTime, DirtyIn, TagOf, SameSizes, LowerHas, SetsGood;
    var v := Block(l.addr);
    forall k, c | ValidId(geos, k) && c != v && !(k == i && c == b)
      ensures Copy(geos, t, k, c) == Copy(geos, s, k, c)
    {
      assert Copy(geos, u, k, c) == Copy(geos, s, k, c);
    }
  }

  lemma RoomVictim(geos: seq<Geo>, s: Sys, i: int, addr: int, extra: set<(int, int)>)
    requires Sendable(geos, s, i, Block(addr), extra) && !Has(geos, s, i, Block(addr))
    requires var ls := SetOf(geos, s, i, addr); |ls| >= geos[i].assoc && Victim(geos, s, i, ls) < |ls|
    ensures var ls := SetOf(geos, s, i, addr); var l := ls[Victim(geos, s, i, ls)]; var u := Evict(geos, s, i, l);
      && Evicted(geos, s, u, i, Block(l.addr)) && HandedOn(geos, s, u, i, l) && Oldest(geos, s, i, addr, l)
      && Block(l.addr) != Block(addr) && SetsGood(geos, u) && MshrGood(geos, u) && !Has(geos, u, i, Block(addr))
      && |SetOf(geos, u, i, addr)| < geos[i].assoc && u.caches[i].mshr == s.caches[i].mshr
  {
    var ls := SetOf(geos, s, i, addr);
    var v := Victim(geos, s, i, ls);
    var l := ls[v];
    LineIsCopy(geos, s, i, addr, v);
    assert Block(l.addr) != Block(addr);
    assert forall k :: ValidId(geos, k) ==> Included(geos, s, k, Block(l.addr));
    EvictableExact(geos, s, i, l);
    SendableBut(geos, s, i, addr, extra);
    hide *;
    EvictEffect(geos, s, i, addr, v);
    EvictHands(geos, s, i, addr, v);
    VictimOldest(geos, s, i, addr);
    RoomMade(geos, s, i, addr, v, extra);
  }

  lemma SendableBut(geos: seq<Geo>, s: Sys, i: int, addr: int, extra: set<(int, int)>)
    requires Sendable(geos, s, i, Block(addr), extra)
    ensures IncludedBut(geos, s, Block(addr))
  {
    hide Included, Ledger, MshrGood;
  }
}
