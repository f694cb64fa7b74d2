/** Back-invalidation and eviction: what invalidate, evictline and evict do to every
    copy of the victim's block, and why their asserts hold. */
module CacheEviction {
  import opened CacheLines
  import opened CacheTree
  import opened CacheCopies

  /** t is s without the copies of b in and above the caches hs. */
  ghost predicate Purged(geos: seq<Geo>, s: Sys, t: Sys, hs: seq<int>, b: int) {
    && SetsGood(geos, s) && SetsGood(geos, t) && t.(caches := s.caches) == s
    && forall k :: ValidId(geos, k) ==>
         if UnderAny(geos, k, hs) then WithoutCopy(geos, s, t, k, b) else t.caches[k] == s.caches[k]
  }

  ghost predicate WithoutCopy(geos: seq<Geo>, s: Sys, t: Sys, k: int, b: int)
    requires Fits(geos, s) && Fits(geos, t) && ValidId(geos, k)
  {
    && t.caches[k].mshr == s.caches[k].mshr
    && forall b' :: Copy(geos, t, k, b') == if b' == b then None else Copy(geos, s, k, b')
  }

  /** Some copy of b in or above the caches hs is dirty. */
  ghost predicate DirtyAbove(geos: seq<Geo>, s: Sys, hs: seq<int>, b: int)
    requires Fits(geos, s)
  {
    exists k :: ValidId(geos, k) && UnderAny(geos, k, hs) && DirtyIn(geos, s, k, b)
  }

  ghost predicate Ready(geos: seq<Geo>, s: Sys, hs: seq<int>, b: int) {
    && SetsGood(geos, s)
    && forall j :: 0 <= j < |hs| ==>
      ValidId(geos, hs[j]) && IncludedAbove(geos, s, hs[j], b) && UnlockedAbove(geos, s, hs[j], b)
  }

  /** A copy in t is the copy in s. */
  lemma PurgedCopy(geos: seq<Geo>, s: Sys, t: Sys, hs: seq<int>, b: int, k: int)
    requires Purged(geos, s, t, hs, b) && ValidId(geos, k)
    ensures Copy(geos, t, k, b) == if UnderAny(geos, k, hs) then None else Copy(geos, s, k, b)
    ensures forall b' :: b' != b ==> Copy(geos, t, k, b') == Copy(geos, s, k, b')
    ensures t.caches[k].mshr == s.caches[k].mshr
  {}

  lemma PurgedTwice(geos: seq<Geo>, s: Sys, t: Sys, u: Sys, h: int, hs: seq<int>, b: int)
    requires Purged(geos, s, t, [h], b) && Purged(geos, t, u, hs, b)
    ensures Purged(geos, s, u, [h] + hs, b)
    ensures DirtyAbove(geos, s, [h] + hs, b) <==> DirtyAbove(geos, s, [h], b) || DirtyAbove(geos, t, hs, b)
  {
    forall k | ValidId(geos, k)
      ensures UnderAny(geos, k, [h] + hs) <==> UnderAny(geos, k, [h]) || UnderAny(geos, k, hs)
    {
      UnderConcat(geos, k, h, hs);
    }
    forall k | ValidId(geos, k)
      ensures if UnderAny(geos, k, [h] + hs) then WithoutCopy(geos, s, u, k, b) else u.caches[k] == s.caches[k]
    {
      PurgedCopy(geos, s, t, [h], b, k);
      PurgedCopy(geos, t, u, hs, b, k);
    }
    forall k | ValidId(geos, k)
      ensures DirtyIn(geos, t, k, b) <==> DirtyIn(geos, s, k, b) && !UnderAny(geos, k, [h])
    {
      PurgedCopy(geos, s, t, [h], b, k);
    }
  }

  lemma UnderConcat(geos: seq<Geo>, k: int, h: int, hs: seq<int>)
    requires Topo(geos) && ValidId(geos, k)
    ensures UnderAny(geos, k, [h] + hs) <==> UnderAny(geos, k, [h]) || UnderAny(geos, k, hs)
    ensures UnderAny(geos, k, [h]) <==> Under(geos, k, h)
  {
    hide Under;
    var both := [h] + hs;
    assert both[0] == h && [h][0] == h && forall j :: 0 <= j < |hs| ==> both[j + 1] == hs[j];
    if UnderAny(geos, k, both) {
      var j :| 0 <= j < |both| && Under(geos, k, both[j]);
      if j > 0 { assert Under(geos, k, hs[j - 1]); }
    }
  }

  /** Removing the copies above one cache leaves the rest ready to be invalidated. */
  lemma StillReady(geos: seq<Geo>, s: Sys, t: Sys, h: int, hs: seq<int>, b: int)
    requires Ready(geos, s, hs, b) && Purged(geos, s, t, [h], b)
    ensures Ready(geos, t, hs, b)
  {
    forall j | 0 <= j < |hs| ensures IncludedAbove(geos, t, hs[j], b) && UnlockedAbove(geos, t, hs[j], b) {
      forall k | ValidId(geos, k) && Under(geos, k, hs[j]) && k != hs[j] ensures Included(geos, t, k, b) {
        HigherUp(geos, k);
        assert Included(geos, s, k, b);
        var l := geos[k].lower;
        UnderConcat(geos, k, h, []);
        UnderConcat(geos, l, h, []);
        PurgedCopy(geos, s, t, [h], b, k);
        PurgedCopy(geos, s, t, [h], b, l);
      }
      forall k | ValidId(geos, k) && Under(geos, k, hs[j]) ensures !LockedIn(geos, t, k, b) {
        PurgedCopy(geos, s, t, [h], b, k);
      }
    }
  }

  /** invalidate removes the block from this cache and everything above it, touches
      nothing else, reports whether any of the copies was dirty, and finds none locked. */
  lemma InvalidateEffect(geos: seq<Geo>, s: Sys, i: int, addr: int)
    requires ValidId(geos, i) && Ready(geos, s, [i], Block(addr))
    ensures var r := Invalidate(geos, s, i, addr);
      && Purged(geos, s, r.s, [i], Block(addr))
      && (r.dirty <==> DirtyAbove(geos, s, [i], Block(addr)))
    decreases geos[i].level, 1, 0
  {
    HigherUp(geos, i);
    var b := Block(addr);
    var hs := geos[i].higher;
    assert [i][0] == i && Under(geos, i, i);
    forall k | ValidId(geos, k)
      ensures (UnderAny(geos, k, [i]) <==> Under(geos, k, i))
          && (Under(geos, k, i) <==> k == i || UnderAny(geos, k, hs))
    {
      UnderConcat(geos, k, i, []);
      UnderHigher(geos, k, i);
    }
    var p := FoundIsCopy(geos, s, i, addr);
    var ls := SetOf(geos, s, i, addr);
    if p == |ls| {
      forall k | ValidId(geos, k) && Under(geos, k, i) ensures !Has(geos, s, k, b) { AbsentAbove(geos, s, i, b, k); }
      assert Invalidate(geos, s, i, addr).s == s && !Invalidate(geos, s, i, addr).dirty;
      hide Invalidate, Under, Included;
    } else {
      assert !LockedIn(geos, s, i, b);
      EraseEffect(geos, s, i, addr, p, s.ok);
      var s1 := PutSet(geos, s, i, addr, Erase(ls, p)).(ok := s.ok);
      InvalidateAbove(geos, s, s1, i, addr);
    }
  }

  /** The rest of invalidate, once the copy here is gone. */
  lemma InvalidateAbove(geos: seq<Geo>, s: Sys, s1: Sys, i: int, addr: int)
    requires ValidId(geos, i) && Ready(geos, s, [i], Block(addr)) && Has(geos, s, i, Block(addr))
    requires OneCopy(geos, s, s1, i, Block(addr), None) && s1.(caches := s.caches) == s
    requires AllUp(geos, geos[i].higher, geos[i].level) && geos[i].level >= 0
    ensures var r := InvalidateEach(geos, s1, geos[i].higher, addr, geos[i].level);
      && Purged(geos, s, r.0, [i], Block(addr))
      && (DirtyIn(geos, s, i, Block(addr)) || AnyDirty(r.1) <==> DirtyAbove(geos, s, [i], Block(addr)))
    decreases geos[i].level, 0, |geos[i].higher| + 1
  {
    var b := Block(addr);
    var hs := geos[i].higher;
    assert [i][0] == i;
    forall j | 0 <= j < |hs| ensures IncludedAbove(geos, s1, hs[j], b) && UnlockedAbove(geos, s1, hs[j], b) {
      AboveHigher(geos, s, i, b, j);
      HigherReady(geos, s, s1, i, j, b);
    }
    InvalidateEachEffect(geos, s1, hs, addr, geos[i].level);
    PurgedBelow(geos, s, s1, InvalidateEach(geos, s1, hs, addr, geos[i].level).0, i, b);
  }

  lemma PurgedBelow(geos: seq<Geo>, s: Sys, s1: Sys, t: Sys, i: int, b: int)
    requires ValidId(geos, i) && OneCopy(geos, s, s1, i, b, None) && s1.(caches := s.caches) == s
    requires Purged(geos, s1, t, geos[i].higher, b)
    ensures Purged(geos, s, t, [i], b)
    ensures DirtyIn(geos, s, i, b) || DirtyAbove(geos, s1, geos[i].higher, b) <==> DirtyAbove(geos, s, [i], b)
  {
    var hs := geos[i].higher;
    UnderApart(geos, i);
    forall k | ValidId(geos, k)
      ensures UnderAny(geos, k, [i]) <==> k == i || UnderAny(geos, k, hs)
    {
      UnderConcat(geos, k, i, []);
      UnderHigher(geos, k, i);
    }
    forall k | ValidId(geos, k)
      ensures if UnderAny(geos, k, [i]) then WithoutCopy(geos, s, t, k, b) else t.caches[k] == s.caches[k]
    {
      PurgedCopy(geos, s1, t, hs, b, k);
    }
    hide Copy;
  }

  lemma HigherReady(geos: seq<Geo>, s: Sys, s1: Sys, i: int, j: int, b: int)
    requires ValidId(geos, i) && OneCopy(geos, s, s1, i, b, None) && 0 <= j < |geos[i].higher|
    requires ValidId(geos, geos[i].higher[j]) && IncludedAbove(geos, s, geos[i].higher[j], b)
    requires UnlockedAbove(geos, s, i, b)
    ensures IncludedAbove(geos, s1, geos[i].higher[j], b) && UnlockedAbove(geos, s1, geos[i].higher[j], b)
  {
    var h := geos[i].higher[j];
    UnderApart(geos, i);
    forall k | ValidId(geos, k) && Under(geos, k, h) ensures k != i && Under(geos, k, i) {
      UnderHigher(geos, k, i);
    }
    forall k | ValidId(geos, k) && Under(geos, k, h) && k != h ensures Included(geos, s1, k, b) {
      HigherUp(geos, k);
      assert Included(geos, s, k, b);
    }
  }

  lemma {:induction false} InvalidateEachEffect(geos: seq<Geo>, s: Sys, hs: seq<int>, addr: int, level: int)
    requires Ready(geos, s, hs, Block(addr)) && AllUp(geos, hs, level) && level >= 0
    ensures var r := InvalidateEach(geos, s, hs, addr, level);
      && Purged(geos, s, r.0, hs, Block(addr))
      && (AnyDirty(r.1) <==> DirtyAbove(geos, s, hs, Block(addr)))
    decreases level, 0, |hs|
  {
    if hs == [] {
      NothingPurged(geos, s, Block(addr));
    } else {
      HigherUp(geos, hs[0]);
      ReadySplit(geos, s, hs, Block(addr));
      hide Ready, Purged, DirtyAbove, AnyDirty;
      InvalidateEffect(geos, s, hs[0], addr);
      var r := Invalidate(geos, s, hs[0], addr);
      StillReady(geos, s, r.s, hs[0], hs[1..], Block(addr));
      InvalidateEachEffect(geos, r.s, hs[1..], addr, level);
      var (t, rs) := InvalidateEach(geos, r.s, hs[1..], addr, level);
      PurgedTwice(geos, s, r.s, t, hs[0], hs[1..], Block(addr));
      assert [hs[0]] + hs[1..] == hs;
      AnyDirtyCons((r.delay, r.dirty), rs);
    }
  }

  lemma NothingPurged(geos: seq<Geo>, s: Sys, b: int)
    requires SetsGood(geos, s)
    ensures Purged(geos, s, s, [], b) && !DirtyAbove(geos, s, [], b) && !AnyDirty([])
  {}

  lemma ReadySplit(geos: seq<Geo>, s: Sys, hs: seq<int>, b: int)
    requires Ready(geos, s, hs, b) && hs != []
    ensures Ready(geos, s, [hs[0]], b) && Ready(geos, s, hs[1..], b)
  {
    forall j | 0 <= j < |hs[1..]|
      ensures ValidId(geos, hs[1..][j]) && IncludedAbove(geos, s, hs[1..][j], b)
          && UnlockedAbove(geos, s, hs[1..][j], b)
    {
      assert hs[1..][j] == hs[j + 1];
    }
  }

  lemma AnyDirtyCons(r: (int, bool), rs: seq<(int, bool)>)
    ensures AnyDirty([r] + rs) <==> r.1 || AnyDirty(rs)
  {
    assert ([r] + rs)[0] == r && forall k :: 0 <= k < |rs| ==> ([r] + rs)[k + 1] == rs[k];
  }

  // ------------------------------------------------------------------ evict

  /** t is s after the block b has left i and everything above it; the cache below, or
      memory, has it instead. */
  ghost predicate Evicted(geos: seq<Geo>, s: Sys, t: Sys, i: int, b: int)
    requires ValidId(geos, i)
  {
    && SetsGood(geos, s) && SetsGood(geos, t) && s.nodes <= t.nodes
    && t.ok == s.ok && t.refused == s.refused && t.clk == s.clk && t.hits == s.hits
    && (forall k :: ValidId(geos, k) ==>
          t.caches[k].mshr == s.caches[k].mshr && forall b' :: b' != b ==> Copy(geos, t, k, b') == Copy(geos, s, k, b'))
    && (forall k :: ValidId(geos, k) && k != geos[i].lower ==>
          Copy(geos, t, k, b) == if Under(geos, k, i) then None else Copy(geos, s, k, b))
    && (forall k :: ValidId(geos, k) && !Under(geos, k, i) ==> SameSizes(s.caches[k], t.caches[k]))
    && LowerHas(geos, s, t, i, b)
  }

  ghost predicate SameSizes(c: Cache, d: Cache) { forall idx :: |Lines(d, idx)| == |Lines(c, idx)| }

  /** The copy below is unlocked, and dirty if any of the copies above was; memory gets
      a dirty block as one write on wait_list. */
  ghost predicate LowerHas(geos: seq<Geo>, s: Sys, t: Sys, i: int, b: int)
    requires ValidId(geos, i) && SetsGood(geos, s) && SetsGood(geos, t)
  {
    LowerGets(geos, s, t, i, b, DirtyAbove(geos, s, [i], b))
  }

  /** evictline finds the line: its asserts hold. */
  lemma EvictLineEffect(geos: seq<Geo>, s: Sys, i: int, addr: int, dirty: bool)
    requires SetsGood(geos, s) && ValidId(geos, i) && Has(geos, s, i, Block(addr))
    ensures var t := EvictLine(geos, s, i, addr, dirty); var was := Copy(geos, s, i, Block(addr)).value;
      && OneCopy(geos, s, t, i, Block(addr), Some(Line(addr, TagOf(geos, i, addr), false, dirty || was.dirty, s.nodes)))
      && t.ok == s.ok && t.hits == s.hits && SameSizes(s.caches[i], t.caches[i])
  {
    var p := FoundIsCopy(geos, s, i, addr);
    var ls := SetOf(geos, s, i, addr);
    var l := Line(addr, TagOf(geos, i, addr), false, dirty || ls[p].dirty, s.nodes);
    var t := PutSet(geos, s, i, addr, Touch(ls, p, l)).(nodes := s.nodes + 1, hits := s.hits);
    assert EvictLine(geos, s, i, addr, dirty) == t && t.ok == s.ok;
    assert l.tag == TagOf(geos, i, l.addr);
    TouchSizes(geos, s, i, addr, p, l);
    hide *;
    TouchEffect(geos, s, i, addr, p, l, s.hits);
  }

  lemma TouchSizes(geos: seq<Geo>, s: Sys, i: int, addr: int, p: nat, l: Line)
    requires Fits(geos, s) && ValidId(geos, i) && p < |SetOf(geos, s, i, addr)|
    ensures SameSizes(s.caches[i], PutSet(geos, s, i, addr, Touch(SetOf(geos, s, i, addr), p, l)).caches[i])
  {
    hide Index, Tag;
  }

  /** Evicting an unlocked line: no assert fails, and the block leaves the whole subtree. */
  lemma EvictEffect(geos: seq<Geo>, s: Sys, i: int, addr: int, p: nat)
    requires SetsGood(geos, s) && ValidId(geos, i) && p < |SetOf(geos, s, i, addr)|
    requires var b := Block(SetOf(geos, s, i, addr)[p].addr);
      UnlockedAbove(geos, s, i, b) && IncludedAbove(geos, s, i, b) && Included(geos, s, i, b)
    ensures var l := SetOf(geos, s, i, addr)[p]; var t := Evict(geos, s, i, l);
      Evicted(geos, s, t, i, Block(l.addr)) && |SetOf(geos, t, i, addr)| == |SetOf(geos, s, i, addr)| - 1
  {
    var l := SetOf(geos, s, i, addr)[p];
    var b := Block(l.addr);
    var hs := geos[i].higher;
    HigherUp(geos, i);
    UnderApart(geos, i);
    LineIsCopy(geos, s, i, addr, p);
    forall j | 0 <= j < |hs| ensures IncludedAbove(geos, s, hs[j], b) && UnlockedAbove(geos, s, hs[j], b) {
      AboveHigher(geos, s, i, b, j);
      UnlockedSplit(geos, s, i, b);
    }
    InvalidateEachEffect(geos, s, hs, l.addr, geos[i].level);
    var (s1, rs) := InvalidateEach(geos, s, hs, l.addr, geos[i].level);
    EvictRest(geos, s, s1, i, l, p, addr, l.dirty || AnyDirty(rs), SlowestVictim(LatencyEach(geos[i].level), rs));
  }

  /** evict, from the end of its loop on. */
  lemma EvictRest(geos: seq<Geo>, s: Sys, s1: Sys, i: int, l: Line, p: nat, addr: int, dirty: bool, delay: int)
    requires ValidId(geos, i) && Purged(geos, s, s1, geos[i].higher, Block(l.addr))
        && Included(geos, s, i, Block(l.addr))
    requires Copy(geos, s, i, Block(l.addr)) == Some(l) && Index(geos[i], l.addr) == Index(geos[i], addr)
    requires dirty <==> l.dirty || DirtyAbove(geos, s, geos[i].higher, Block(l.addr))
    ensures var t := EraseNode(geos, HandDown(geos, s1, i, l.addr, dirty, delay), i, l);
      Evicted(geos, s, t, i, Block(l.addr)) && |SetOf(geos, t, i, addr)| == |SetOf(geos, s, i, addr)| - 1
  {
    var b := Block(l.addr);
    var low := geos[i].lower;
    HigherUp(geos, i);
    UnderApart(geos, i);
    assert Has(geos, s, i, b);
    var s2 := HandDown(geos, s1, i, l.addr, dirty, delay);
    if low != -1 {
      PurgedCopy(geos, s, s1, geos[i].higher, b, low);
      EvictLineEffect(geos, s1, low, l.addr, dirty);
    }
    assert SetsGood(geos, s2) && s2.caches[i] == s.caches[i];
    var q := NodeIsCopy(geos, s2, i, l.addr, l.node);
    EraseEffect(geos, s2, i, l.addr, q, s2.ok);
    var t := EraseNode(geos, s2, i, l);
    assert OneCopy(geos, s2, t, i, b, None);
    EvictedFrom(geos, s, s1, s2, t, i, b, dirty);
  }

  lemma EvictedFrom(geos: seq<Geo>, s: Sys, s1: Sys, s2: Sys, t: Sys, i: int, b: int, dirty: bool)
    requires ValidId(geos, i) && Purged(geos, s, s1, geos[i].higher, b) && OneCopy(geos, s2, t, i, b, None)
    requires dirty <==> DirtyIn(geos, s, i, b) || DirtyAbove(geos, s, geos[i].higher, b)
    requires t.ok == s2.ok && t.hits == s2.hits && SetsGood(geos, s2)
    requires s2.ok == s.ok && s2.refused == s.refused && s2.clk == s.clk && s2.hits == s.hits && s1.nodes <= s2.nodes
    requires forall k :: ValidId(geos, k) && k != geos[i].lower ==> s2.caches[k] == s1.caches[k]
    requires forall k :: ValidId(geos, k) && k == geos[i].lower ==>
      && s2.caches[k].mshr == s1.caches[k].mshr && SameSizes(s1.caches[k], s2.caches[k])
      && forall b' :: b' != b ==> Copy(geos, s2, k, b') == Copy(geos, s1, k, b')
    requires LowerGets(geos, s, s2, i, b, dirty)
    ensures Evicted(geos, s, t, i, b)
  {
    HigherUp(geos, i);
    UnderApart(geos, i);
    var hs := geos[i].higher;
    DirtySplit(geos, s, i, b);
    forall k | ValidId(geos, k)
      ensures t.caches[k].mshr == s.caches[k].mshr
          && forall b' :: b' != b ==> Copy(geos, t, k, b') == Copy(geos, s, k, b')
      ensures k != geos[i].lower ==> Copy(geos, t, k, b) == if Under(geos, k, i) then None else Copy(geos, s, k, b)
      ensures !Under(geos, k, i) ==> SameSizes(s.caches[k], t.caches[k])
    {
      assert Under(geos, i, i);
      PurgedCopy(geos, s, s1, hs, b, k);
      UnderHigher(geos, k, i);
    }
  }

  /** The same, with the dirty flag in hand. */
  ghost predicate LowerGets(geos: seq<Geo>, s: Sys, t: Sys, i: int, b: int, dirty: bool)
    requires ValidId(geos, i) && SetsGood(geos, s) && SetsGood(geos, t)
  {
    HigherUp(geos, i);
    var l := geos[i].lower;
    if l != -1 then
      && Has(geos, s, l, b) && Has(geos, t, l, b) && !LockedIn(geos, t, l, b)
      && (DirtyIn(geos, t, l, b) <==> dirty || DirtyIn(geos, s, l, b))
      && t.wait == s.wait && t.written == s.written
    else if dirty then
      && |t.wait| == |s.wait| + 1 && t.wait[..|s.wait|] == s.wait
      && t.wait[|s.wait|].req.write && Block(t.wait[|s.wait|].req.addr) == b
      && t.written == s.written - {(i, b)}
    else t.wait == s.wait && t.written == s.written
  }

  lemma DirtySplit(geos: seq<Geo>, s: Sys, i: int, b: int)
    requires Fits(geos, s) && ValidId(geos, i)
    ensures DirtyAbove(geos, s, [i], b) <==> DirtyIn(geos, s, i, b) || DirtyAbove(geos, s, geos[i].higher, b)
  {
    assert [i][0] == i && Under(geos, i, i);
    forall k | ValidId(geos, k) ensures UnderAny(geos, k, [i]) <==> k == i || UnderAny(geos, k, geos[i].higher) {
      UnderConcat(geos, k, i, []);
      UnderHigher(geos, k, i);
    }
  }
}
