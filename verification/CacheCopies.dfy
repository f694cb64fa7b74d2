/** What the operations of the cache hierarchy do to the copies of blocks. */
module CacheCopies {
  import opened CacheLines
  import opened CacheTree

  /** Every set of every cache: at most `assoc` lines, each in the set of its address,
      with distinct tags. */
  ghost predicate SetsGood(geos: seq<Geo>, s: Sys) {
    Fits(geos, s) && forall i :: ValidId(geos, i) ==> GeoOk(geos[i]) && SetsOk(geos[i], s.caches[i], s.nodes)
  }

  ghost function Copy(geos: seq<Geo>, s: Sys, i: int, b: int): Option<Line>
    requires Fits(geos, s) && ValidId(geos, i)
  {
    HigherUp(geos, i);
    At(geos[i], s.caches[i], b)
  }

  ghost predicate Has(geos: seq<Geo>, s: Sys, i: int, b: int)
    requires Fits(geos, s) && ValidId(geos, i)
  {
    Copy(geos, s, i, b).Some?
  }

  ghost predicate LockedIn(geos: seq<Geo>, s: Sys, i: int, b: int)
    requires Fits(geos, s) && ValidId(geos, i)
  {
    Copy(geos, s, i, b).Some? && Copy(geos, s, i, b).value.lock
  }

  ghost predicate DirtyIn(geos: seq<Geo>, s: Sys, i: int, b: int)
    requires Fits(geos, s) && ValidId(geos, i)
  {
    Copy(geos, s, i, b).Some? && Copy(geos, s, i, b).value.dirty
  }

  /** t is s with one copy of one block changed. */
  ghost predicate OneCopy(geos: seq<Geo>, s: Sys, t: Sys, i: int, b: int, copy: Option<Line>)
    requires ValidId(geos, i)
  {
    && SetsGood(geos, s) && SetsGood(geos, t) && s.nodes <= t.nodes
    && (forall k :: ValidId(geos, k) && k != i ==> t.caches[k] == s.caches[k])
    && t.caches[i].mshr == s.caches[i].mshr
    && (forall b' :: Copy(geos, t, i, b') == if b' == b then copy else Copy(geos, s, i, b'))
    && t.wait == s.wait && t.clk == s.clk && t.refused == s.refused && t.written == s.written
  }

  // ---------------------------------------------------------- list primitives

  lemma MoreNodesAll(geos: seq<Geo>, s: Sys, i: int)
    requires SetsGood(geos, s)
    ensures forall k :: ValidId(geos, k) ==> SetsOk(geos[k], s.caches[k], s.nodes + 1)
  {
    forall k | ValidId(geos, k) ensures SetsOk(geos[k], s.caches[k], s.nodes + 1) {
      MoreNodes(geos[k], s.caches[k], s.nodes);
    }
  }

  /** Finding the tag of an address is finding the copy of its block. */
  lemma FoundIsCopy(geos: seq<Geo>, s: Sys, i: int, addr: int) returns (p: nat)
    requires SetsGood(geos, s) && ValidId(geos, i)
    ensures p == Find(SetOf(geos, s, i, addr), TagOf(geos, i, addr)) && p <= |SetOf(geos, s, i, addr)|
    ensures p < |SetOf(geos, s, i, addr)| <==> Has(geos, s, i, Block(addr))
    ensures p < |SetOf(geos, s, i, addr)| ==>
      Copy(geos, s, i, Block(addr)) == Some(SetOf(geos, s, i, addr)[p])
        && Block(SetOf(geos, s, i, addr)[p].addr) == Block(addr)
  {
    hide Index, Tag, SetsOk;
    p := Find(SetOf(geos, s, i, addr), TagOf(geos, i, addr));
    FindIsAt(geos[i], s.caches[i], addr);
    if p < |SetOf(geos, s, i, addr)| {
      var q := AtSome(geos[i], s.caches[i], Block(addr), s.nodes);
    }
  }

  /** An iterator to a copy still in the cache finds it. */
  lemma NodeIsCopy(geos: seq<Geo>, s: Sys, i: int, addr: int, node: nat) returns (p: nat)
    requires SetsGood(geos, s) && ValidId(geos, i)
    requires Has(geos, s, i, Block(addr)) && Copy(geos, s, i, Block(addr)).value.node == node
    ensures p == FindNode(SetOf(geos, s, i, addr), node) && p < |SetOf(geos, s, i, addr)|
    ensures SetOf(geos, s, i, addr)[p] == Copy(geos, s, i, Block(addr)).value
    ensures Block(SetOf(geos, s, i, addr)[p].addr) == Block(addr)
  {
    hide Index, Tag, SetsOk;
    BlockIndex(geos[i], addr);
    p := AtSome(geos[i], s.caches[i], Block(addr), s.nodes);
    AtPosition(geos[i], s.caches[i], Index(geos[i], addr), p, s.nodes);
  }

  lemma LineIsCopy(geos: seq<Geo>, s: Sys, i: int, addr: int, p: nat)
    requires SetsGood(geos, s) && ValidId(geos, i) && p < |SetOf(geos, s, i, addr)|
    ensures var l := SetOf(geos, s, i, addr)[p];
      && Copy(geos, s, i, Block(l.addr)) == Some(l)
      && SetOf(geos, s, i, l.addr) == SetOf(geos, s, i, addr) && FindNode(SetOf(geos, s, i, addr), l.node) == p
      && Index(geos[i], l.addr) == Index(geos[i], addr)
  {
    hide Index, Tag, SetsOk;
    AtPosition(geos[i], s.caches[i], Index(geos[i], addr), p, s.nodes);
  }

  lemma EraseEffect(geos: seq<Geo>, s: Sys, i: int, addr: int, p: nat, ok: bool)
    requires SetsGood(geos, s) && ValidId(geos, i) && p < |SetOf(geos, s, i, addr)|
    ensures var ls := SetOf(geos, s, i, addr);
      OneCopy(geos, s, PutSet(geos, s, i, addr, Erase(ls, p)).(ok := ok), i, Block(ls[p].addr), None)
  {
    hide Index, Tag, SetsOk, At, Erase;
    EraseAt(geos[i], s.caches[i], Index(geos[i], addr), p, s.nodes);
  }

  lemma TouchEffect(geos: seq<Geo>, s: Sys, i: int, addr: int, p: nat, l: Line, hits: seq<Timed>)
    requires SetsGood(geos, s) && ValidId(geos, i) && p < |SetOf(geos, s, i, addr)|
    requires Block(l.addr) == Block(SetOf(geos, s, i, addr)[p].addr) && l.tag == TagOf(geos, i, l.addr)
        && l.node == s.nodes
    ensures var ls := SetOf(geos, s, i, addr);
      OneCopy(geos, s, PutSet(geos, s, i, addr, Touch(ls, p, l)).(nodes := s.nodes + 1, hits := hits), i,
        Block(l.addr), Some(l))
  {
    MoreNodesAll(geos, s, i);
    hide Index, Tag, SetsOk, At, Touch;
    TouchAt(geos[i], s.caches[i], Index(geos[i], addr), p, l, s.nodes);
  }

  lemma ReplaceEffect(geos: seq<Geo>, s: Sys, i: int, addr: int, p: nat, l: Line)
    requires SetsGood(geos, s) && ValidId(geos, i) && p < |SetOf(geos, s, i, addr)|
    requires var k := SetOf(geos, s, i, addr)[p]; l.addr == k.addr && l.tag == k.tag && l.node == k.node
    ensures var ls := SetOf(geos, s, i, addr);
      OneCopy(geos, s, PutSet(geos, s, i, addr, ls[p := l]), i, Block(l.addr), Some(l))
  {
    hide Index, Tag, SetsOk, At;
    ReplaceAt(geos[i], s.caches[i], Index(geos[i], addr), p, l, s.nodes);
  }

  /** What one cache's lists say of its copies, said of the hierarchy. */
  lemma OneCopyIntro(geos: seq<Geo>, s: Sys, t: Sys, i: int, b: int, copy: Option<Line>)
    requires SetsGood(geos, s) && ValidId(geos, i) && |t.caches| == |s.caches| && s.nodes <= t.nodes
    requires t.caches == s.caches[i := t.caches[i]] && t == s.(caches := t.caches, nodes := t.nodes)
    requires forall k :: ValidId(geos, k) ==> GeoOk(geos[k]) && SetsOk(geos[k], s.caches[k], t.nodes)
    requires SetsOk(geos[i], t.caches[i], t.nodes) && t.caches[i].mshr == s.caches[i].mshr
    requires geos[i].nSets > 0
    requires forall c :: At(geos[i], t.caches[i], c) == if c == b then copy else At(geos[i], s.caches[i], c)
    ensures OneCopy(geos, s, t, i, b, copy)
  {
    hide At, SetsOk, GeoOk;
  }

  lemma PushEffect(geos: seq<Geo>, s: Sys, i: int, addr: int, dirty: bool)
    requires SetsGood(geos, s) && ValidId(geos, i) && |SetOf(geos, s, i, addr)| < geos[i].assoc
    requires !Has(geos, s, i, Block(addr))
    ensures var l := Line(addr, TagOf(geos, i, addr), true, dirty, s.nodes);
      var t := PutSet(geos, s, i, addr, SetOf(geos, s, i, addr) + [l]).(nodes := s.nodes + 1);
      OneCopy(geos, s, t, i, Block(addr), Some(l))
  {
    MoreNodesAll(geos, s, i);
    var l := Line(addr, TagOf(geos, i, addr), true, dirty, s.nodes);
    var t := PutSet(geos, s, i, addr, SetOf(geos, s, i, addr) + [l]).(nodes := s.nodes + 1);
    hide Index, Tag, SetsOk, At, Block, Lines;
    PushAt(geos[i], s.caches[i], Index(geos[i], addr), l, s.nodes);
    assert t.caches == s.caches[i := t.caches[i]] && t.caches[i].mshr == s.caches[i].mshr;
    hide Has, Copy, SetOf, PutSet, TagOf, SetLines, SetsGood;
    OneCopyIntro(geos, s, t, i, Block(addr), Some(l));
  }

  lemma SizeBound(geos: seq<Geo>, s: Sys, i: int, addr: int)
    requires SetsGood(geos, s) && ValidId(geos, i)
    ensures |SetOf(geos, s, i, addr)| <= geos[i].assoc
  {
    SetSize(geos[i], s.caches[i], Index(geos[i], addr), s.nodes);
  }

  // --------------------------------------------------------------- the forest

  /** k is i or lies above it. */
  predicate Under(geos: seq<Geo>, k: int, i: int)
    requires Topo(geos) && ValidId(geos, k)
    decreases 2 - geos[k].level
  {
    HigherUp(geos, k);
    k == i || (geos[k].lower != -1 && Under(geos, geos[k].lower, i))
  }

  predicate UnderAny(geos: seq<Geo>, k: int, hs: seq<int>)
    requires Topo(geos) && ValidId(geos, k)
  {
    exists j :: 0 <= j < |hs| && Under(geos, k, hs[j])
  }

  lemma UnderLevel(geos: seq<Geo>, k: int, i: int)
    requires Topo(geos) && ValidId(geos, k) && ValidId(geos, i) && Under(geos, k, i)
    ensures geos[k].level <= geos[i].level && (k != i ==> geos[k].level < geos[i].level)
    decreases 2 - geos[k].level
  {
    HigherUp(geos, k);
    if k != i { UnderLevel(geos, geos[k].lower, i); }
  }

  /** Above i lie i itself and whatever lies above its higher caches. */
  lemma UnderHigher(geos: seq<Geo>, k: int, i: int)
    requires Topo(geos) && ValidId(geos, k) && ValidId(geos, i)
    ensures Under(geos, k, i) <==> k == i || UnderAny(geos, k, geos[i].higher)
    decreases 2 - geos[k].level
  {
    HigherUp(geos, k);
    assert NodeOk(geos, i);
    if geos[k].lower != -1 {
      UnderHigher(geos, geos[k].lower, i);
      if geos[k].lower == i {
        var j :| 0 <= j < |geos[i].higher| && geos[i].higher[j] == k;
        assert Under(geos, k, geos[i].higher[j]);
      } else if UnderAny(geos, geos[k].lower, geos[i].higher) {
        var j :| 0 <= j < |geos[i].higher| && Under(geos, geos[k].lower, geos[i].higher[j]);
        assert Under(geos, k, geos[i].higher[j]);
      }
    }
    if UnderAny(geos, k, geos[i].higher) {
      var j :| 0 <= j < |geos[i].higher| && Under(geos, k, geos[i].higher[j]);
      if k == geos[i].higher[j] {
        assert Under(geos, geos[k].lower, i);
      } else {
        assert UnderAny(geos, geos[k].lower, geos[i].higher);
      }
    }
  }

  /** Nothing above i is its lower cache, nor i itself above a higher cache. */
  lemma UnderApart(geos: seq<Geo>, i: int)
    requires Topo(geos) && ValidId(geos, i)
    ensures !UnderAny(geos, i, geos[i].higher)
    ensures geos[i].lower != -1 ==> !Under(geos, geos[i].lower, i) && !UnderAny(geos, geos[i].lower, geos[i].higher)
  {
    HigherUp(geos, i);
    if UnderAny(geos, i, geos[i].higher) {
      var j :| 0 <= j < |geos[i].higher| && Under(geos, i, geos[i].higher[j]);
      UnderLevel(geos, i, geos[i].higher[j]);
    }
    var l := geos[i].lower;
    if l != -1 {
      if Under(geos, l, i) { UnderLevel(geos, l, i); }
      UnderHigher(geos, l, i);
    }
  }

  // ---------------------------------------------------------------- inclusion

  /** What cache k holds, the cache below holds; and a copy locked below is locked here. */
  ghost predicate Included(geos: seq<Geo>, s: Sys, k: int, b: int)
    requires Fits(geos, s) && ValidId(geos, k)
  {
    HigherUp(geos, k);
    var l := geos[k].lower;
    l != -1 && Has(geos, s, k, b) ==> Has(geos, s, l, b) && (LockedIn(geos, s, l, b) ==> LockedIn(geos, s, k, b))
  }

  /** Inclusion of one block above cache i. */
  ghost predicate IncludedAbove(geos: seq<Geo>, s: Sys, i: int, b: int)
    requires Fits(geos, s)
  {
    forall k :: ValidId(geos, k) && Under(geos, k, i) && k != i ==> Included(geos, s, k, b)
  }

  ghost predicate UnlockedAbove(geos: seq<Geo>, s: Sys, i: int, b: int)
    requires Fits(geos, s)
  {
    forall k :: ValidId(geos, k) && Under(geos, k, i) ==> !LockedIn(geos, s, k, b)
  }

  /** A block absent from a cache is absent from everything above it. */
  lemma AbsentAbove(geos: seq<Geo>, s: Sys, i: int, b: int, k: int)
    requires Fits(geos, s) && ValidId(geos, i) && IncludedAbove(geos, s, i, b) && !Has(geos, s, i, b)
    requires ValidId(geos, k) && Under(geos, k, i)
    ensures !Has(geos, s, k, b)
    decreases 2 - geos[k].level
  {
    HigherUp(geos, k);
    if k != i {
      assert Included(geos, s, k, b);
      AbsentAbove(geos, s, i, b, geos[k].lower);
    }
  }

  /** check_unlock answers for the whole subtree. */
  lemma CheckUnlockExact(geos: seq<Geo>, s: Sys, i: int, addr: int)
    requires SetsGood(geos, s) && ValidId(geos, i) && IncludedAbove(geos, s, i, Block(addr))
    ensures CheckUnlock(geos, s, i, addr) <==> UnlockedAbove(geos, s, i, Block(addr))
    decreases geos[i].level
  {
    HigherUp(geos, i);
    var b := Block(addr);
    var p := FoundIsCopy(geos, s, i, addr);
    var hs := geos[i].higher;
    if !Has(geos, s, i, b) {
      forall k | ValidId(geos, k) && Under(geos, k, i)
        ensures !LockedIn(geos, s, k, b)
      {
        AbsentAbove(geos, s, i, b, k);
      }
    } else {
      assert Under(geos, i, i);
      forall j | 0 <= j < |hs|
        ensures CheckUnlock(geos, s, hs[j], SetOf(geos, s, i, addr)[p].addr) <==> UnlockedAbove(geos, s, hs[j], b)
      {
        AboveHigher(geos, s, i, b, j);
        CheckUnlockExact(geos, s, hs[j], SetOf(geos, s, i, addr)[p].addr);
      }
      UnlockedSplit(geos, s, i, b);
    }
  }

  lemma AboveHigher(geos: seq<Geo>, s: Sys, i: int, b: int, j: int)
    requires Fits(geos, s) && ValidId(geos, i) && IncludedAbove(geos, s, i, b) && 0 <= j < |geos[i].higher|
    ensures ValidId(geos, geos[i].higher[j]) && IncludedAbove(geos, s, geos[i].higher[j], b)
  {
    HigherUp(geos, i);
    var h := geos[i].higher[j];
    forall k | ValidId(geos, k) && Under(geos, k, h) && k != h ensures Included(geos, s, k, b) {
      UnderHigher(geos, k, i);
      UnderLevel(geos, k, h);
    }
  }

  lemma UnlockedSplit(geos: seq<Geo>, s: Sys, i: int, b: int)
    requires Fits(geos, s) && ValidId(geos, i)
    ensures AllUp(geos, geos[i].higher, geos[i].level)
    ensures UnlockedAbove(geos, s, i, b)
      <==>
        && !LockedIn(geos, s, i, b)
        && forall j :: 0 <= j < |geos[i].higher| ==> UnlockedAbove(geos, s, geos[i].higher[j], b)
  {
    HigherUp(geos, i);
    assert Under(geos, i, i);
    forall k | ValidId(geos, k) ensures Under(geos, k, i) <==> k == i || UnderAny(geos, k, geos[i].higher) {
      UnderHigher(geos, k, i);
    }
    if UnlockedAbove(geos, s, i, b) {
      forall j | 0 <= j < |geos[i].higher| ensures UnlockedAbove(geos, s, geos[i].higher[j], b) {
        assert forall k :: ValidId(geos, k) && Under(geos, k, geos[i].higher[j]) ==> UnderAny(geos, k, geos[i].higher);
      }
    }
  }

  /** The victim test is about the whole subtree of the line's block. */
  lemma EvictableExact(geos: seq<Geo>, s: Sys, i: int, l: Line)
    requires SetsGood(geos, s) && ValidId(geos, i) && IncludedAbove(geos, s, i, Block(l.addr))
    requires Copy(geos, s, i, Block(l.addr)) == Some(l)
    ensures Evictable(geos, s, i, l) <==> UnlockedAbove(geos, s, i, Block(l.addr))
  {
    HigherUp(geos, i);
    var b := Block(l.addr);
    forall j | 0 <= j < |geos[i].higher|
      ensures CheckUnlock(geos, s, geos[i].higher[j], l.addr) <==> UnlockedAbove(geos, s, geos[i].higher[j], b)
    {
      AboveHigher(geos, s, i, b, j);
      CheckUnlockExact(geos, s, geos[i].higher[j], l.addr);
    }
    UnlockedSplit(geos, s, i, b);
  }
}
