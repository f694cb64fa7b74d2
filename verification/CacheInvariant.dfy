/** The invariants of the cache hierarchy, and that every access keeps them exactly when
    no level below refuses it. */
module CacheInvariant {
  import opened CacheLines
  import opened CacheTree
  import opened CacheCopies
  import opened CacheEviction

  /** On every level, outstanding misses and locked lines correspond one to one. */
  ghost predicate MshrGood(geos: seq<Geo>, s: Sys)
    requires SetsGood(geos, s)
  {
    forall i :: ValidId(geos, i) ==> MshrOk(geos[i], s.caches[i])
  }

  ghost predicate Inclusive(geos: seq<Geo>, s: Sys)
    requires Fits(geos, s)
  {
    forall k, b :: ValidId(geos, k) ==> Included(geos, s, k, b)
  }

  predicate IsRoot(geos: seq<Geo>, r: int) { ValidId(geos, r) && geos[r].lower == -1 }

  /** A block is on the ledger exactly when some cached copy of it is dirty. */
  ghost predicate Ledger(geos: seq<Geo>, s: Sys, extra: set<(int, int)>)
    requires Fits(geos, s)
  {
    forall r, b :: IsRoot(geos, r) ==> ((r, b) in s.written + extra <==> DirtyAbove(geos, s, [r], b))
  }

  ghost predicate Inv(geos: seq<Geo>, s: Sys) {
    SetsGood(geos, s) && MshrGood(geos, s) && Inclusive(geos, s) && Ledger(geos, s, {}) && s.ok
  }

  /** Inclusion while block b is on its way down to cache i: caches right above i may
      hold it, locked, before i does. */
  ghost predicate Hole(geos: seq<Geo>, s: Sys, i: int, b: int)
    requires Fits(geos, s)
  {
    && (forall k, b' :: ValidId(geos, k) && b' != b ==> Included(geos, s, k, b'))
    && (forall k :: ValidId(geos, k) ==> Included(geos, s, k, b) || (geos[k].lower == i && LockedIn(geos, s, k, b)))
  }

  // ------------------------------------------------------------------- frames

  lemma MshrFrameIn(geos: seq<Geo>, s: Sys, t: Sys, i: int)
    requires SetsGood(geos, s) && SetsGood(geos, t) && ValidId(geos, i) && MshrOk(geos[i], s.caches[i])
    requires t.caches[i].mshr == s.caches[i].mshr
    requires forall b :: LockedIn(geos, t, i, b) == LockedIn(geos, s, i, b)
    requires forall b :: LockedIn(geos, s, i, b) && LockedIn(geos, t, i, b) ==>
      Copy(geos, t, i, b).value.node == Copy(geos, s, i, b).value.node
    ensures MshrOk(geos[i], t.caches[i])
  {
    hide At;
    forall b ensures Locked(geos[i], s.caches[i], b) == LockedIn(geos, s, i, b)
      && Locked(geos[i], t.caches[i], b) == LockedIn(geos, t, i, b) {}
    MshrFrame(geos[i], s.caches[i], t.caches[i]);
  }

  lemma LedgerFrame(geos: seq<Geo>, s: Sys, t: Sys, extra: set<(int, int)>)
    requires Fits(geos, s) && Fits(geos, t) && Ledger(geos, s, extra) && t.written == s.written
    requires forall k, b :: ValidId(geos, k) ==> DirtyIn(geos, t, k, b) == DirtyIn(geos, s, k, b)
    ensures Ledger(geos, t, extra)
  {
    forall r, b | IsRoot(geos, r) ensures (r, b) in t.written + extra <==> DirtyAbove(geos, t, [r], b) {
      assert (r, b) in s.written + extra <==> DirtyAbove(geos, s, [r], b);
      hide DirtyIn;
    }
  }

  // --------------------------------------------------------------- the forest

  lemma UnderTrans(geos: seq<Geo>, k: int, i: int, r: int)
    requires Topo(geos) && ValidId(geos, k) && ValidId(geos, i) && ValidId(geos, r) && Under(geos, k, i)
        && Under(geos, i, r)
    ensures Under(geos, k, r)
    decreases 2 - geos[k].level
  {
    HigherUp(geos, k);
    if k != i { UnderTrans(geos, geos[k].lower, i, r); }
  }

  /** What lies below a cache is a chain, down to its root. */
  lemma UnderRoot(geos: seq<Geo>, k: int, i: int, r: int)
    requires Topo(geos) && ValidId(geos, k) && ValidId(geos, i) && IsRoot(geos, r) && Under(geos, k, i)
        && Under(geos, k, r)
    ensures Under(geos, i, r)
    decreases 2 - geos[k].level
  {
    HigherUp(geos, k);
    if k != i { UnderRoot(geos, geos[k].lower, i, r); }
  }

  lemma RootUnder(geos: seq<Geo>, i: int, r: int)
    requires Topo(geos) && ValidId(geos, i) && IsRoot(geos, r)
    ensures Under(geos, i, r) <==> Root(geos, i) == r
    decreases 2 - geos[i].level
  {
    HigherUp(geos, i);
    if geos[i].lower != -1 { RootUnder(geos, geos[i].lower, r); }
  }

  // ------------------------------------------------------ an eviction keeps all

  lemma EvictedMshr(geos: seq<Geo>, s: Sys, t: Sys, i: int, b: int)
    requires ValidId(geos, i) && Evicted(geos, s, t, i, b) && MshrGood(geos, s)
    requires UnlockedAbove(geos, s, i, b) && Included(geos, s, i, b) && Has(geos, s, i, b)
    ensures MshrGood(geos, t)
  {
    forall k | ValidId(geos, k) ensures MshrOk(geos[k], t.caches[k]) {
      EvictedMshrAt(geos, s, t, i, b, k);
    }
  }

  lemma EvictedMshrAt(geos: seq<Geo>, s: Sys, t: Sys, i: int, b: int, k: int)
    requires ValidId(geos, i) && Evicted(geos, s, t, i, b) && ValidId(geos, k) && MshrOk(geos[k], s.caches[k])
    requires UnlockedAbove(geos, s, i, b) && Included(geos, s, i, b) && Has(geos, s, i, b)
    ensures MshrOk(geos[k], t.caches[k])
  {
    hide MshrOk, Under, Included, UnlockedAbove, LowerHas;
    EvictedUnlocked(geos, s, t, i, b, k);
    forall c
      ensures LockedIn(geos, t, k, c) == LockedIn(geos, s, k, c)
      ensures LockedIn(geos, s, k, c) ==> Copy(geos, t, k, c) == Copy(geos, s, k, c)
    {
      if c != b { assert Copy(geos, t, k, c) == Copy(geos, s, k, c); }
    }
    hide *;
    MshrFrameIn(geos, s, t, k);
  }

  /** Nowhere was, or is, the victim locked where its copy changes. */
  lemma EvictedUnlocked(geos: seq<Geo>, s: Sys, t: Sys, i: int, b: int, k: int)
    requires ValidId(geos, i) && Evicted(geos, s, t, i, b) && ValidId(geos, k)
    requires UnlockedAbove(geos, s, i, b) && Included(geos, s, i, b) && Has(geos, s, i, b)
    ensures LockedIn(geos, t, k, b) == LockedIn(geos, s, k, b)
    ensures LockedIn(geos, s, k, b) ==> Copy(geos, t, k, b) == Copy(geos, s, k, b)
  {
    HigherUp(geos, i);
    assert Under(geos, i, i);
    hide Copy, Under, DirtyAbove;
  }

  lemma IncludedFrame(geos: seq<Geo>, s: Sys, t: Sys, k: int, b: int)
    requires Fits(geos, s) && Fits(geos, t) && ValidId(geos, k) && Copy(geos, t, k, b) == Copy(geos, s, k, b)
    requires forall l :: l == geos[k].lower && ValidId(geos, l) ==> Copy(geos, t, l, b) == Copy(geos, s, l, b)
    ensures Included(geos, t, k, b) <==> Included(geos, s, k, b)
  {
    HigherUp(geos, k);
    hide Copy;
  }

  /** The victim itself stays included. */
  lemma EvictedIncluded(geos: seq<Geo>, s: Sys, t: Sys, i: int, v: int, k: int)
    requires ValidId(geos, i) && ValidId(geos, k) && Evicted(geos, s, t, i, v)
    requires Included(geos, s, k, v) && Included(geos, s, i, v) && !LockedIn(geos, s, i, v) && Has(geos, s, i, v)
    ensures Included(geos, t, k, v)
  {
    hide Copy, DirtyAbove;
    HigherUp(geos, i);
    HigherUp(geos, k);
    var l := geos[k].lower;
    if l != -1 && Has(geos, t, k, v) {
      if k != geos[i].lower { assert !Under(geos, k, i); }
      assert Has(geos, s, k, v);
    }
  }

  lemma EvictedHole(geos: seq<Geo>, s: Sys, t: Sys, i: int, v: int, b: int)
    requires ValidId(geos, i) && Evicted(geos, s, t, i, v) && Hole(geos, s, i, b) && v != b
    requires UnlockedAbove(geos, s, i, v) && Has(geos, s, i, v)
    ensures Hole(geos, t, i, b)
  {
    assert Under(geos, i, i);
    assert forall k, c :: ValidId(geos, k) && c != v ==> Copy(geos, t, k, c) == Copy(geos, s, k, c);
    hide Copy;
    forall k, c | ValidId(geos, k) && c != b ensures Included(geos, t, k, c) {
      assert Included(geos, s, k, c);
      if c == v {
        EvictedIncluded(geos, s, t, i, v, k);
      } else {
        IncludedFrame(geos, s, t, k, c);
      }
    }
    forall k | ValidId(geos, k) ensures Included(geos, t, k, b) || (geos[k].lower == i && LockedIn(geos, t, k, b)) {
      IncludedFrame(geos, s, t, k, b);
    }
  }

  /** The dirty data of the victim is not lost: the cache below inherits it, or memory
      is asked to write it. */
  lemma EvictedLedger(geos: seq<Geo>, s: Sys, t: Sys, i: int, v: int, extra: set<(int, int)>)
    requires ValidId(geos, i) && Evicted(geos, s, t, i, v) && Ledger(geos, s, extra)
        && forall e :: e in extra ==> e.1 != v
    ensures Ledger(geos, t, extra)
  {
    forall r, b | IsRoot(geos, r) ensures (r, b) in t.written + extra <==> DirtyAbove(geos, t, [r], b) {
      assert (r, b) in s.written + extra <==> DirtyAbove(geos, s, [r], b);
      EvictedWritten(geos, s, t, i, v, extra, r, b);
      if b != v {
        DirtyAboveFrame(geos, s, t, [r], b);
      } else {
        EvictedDirty(geos, s, t, i, v, r);
      }
    }
  }

  lemma EvictedWritten(geos: seq<Geo>, s: Sys, t: Sys, i: int, v: int, extra: set<(int, int)>, r: int, b: int)
    requires ValidId(geos, i) && Evicted(geos, s, t, i, v) && Ledger(geos, s, extra) && IsRoot(geos, r)
    ensures (r, b) in t.written <==> (r, b) in s.written && !(b == v && r == i)
  {
    hide *;
    EvictedWrote(geos, s, t, i, v);
    RootIs(geos, r);
    if r == i && b == v { LedgerAt(geos, s, extra, i, v); }
  }

  lemma EvictedWrote(geos: seq<Geo>, s: Sys, t: Sys, i: int, v: int)
    requires ValidId(geos, i) && Evicted(geos, s, t, i, v)
    ensures Fits(geos, s)
    ensures t.written == if geos[i].lower == -1 && DirtyAbove(geos, s, [i], v) then s.written - {(i, v)} else s.written
  {
    assert LowerHas(geos, s, t, i, v);
    hide Copy, DirtyAbove, Under, Evicted, SetsGood, Has, DirtyIn, LockedIn;
  }

  lemma RootIs(geos: seq<Geo>, r: int)
    requires IsRoot(geos, r)
    ensures ValidId(geos, r) && geos[r].lower == -1
  {}

  lemma LedgerAt(geos: seq<Geo>, s: Sys, extra: set<(int, int)>, r: int, b: int)
    requires Fits(geos, s) && Ledger(geos, s, extra) && IsRoot(geos, r)
    ensures (r, b) in s.written + extra <==> DirtyAbove(geos, s, [r], b)
  {
    hide DirtyAbove;
  }

  /** Which copies of the victim are dirty after its eviction. */
  lemma EvictedCopies(geos: seq<Geo>, s: Sys, t: Sys, i: int, v: int, k: int)
    requires ValidId(geos, i) && Evicted(geos, s, t, i, v) && ValidId(geos, k)
    ensures DirtyIn(geos, t, k, v) <==>
      (DirtyIn(geos, s, k, v) && !Under(geos, k, i)) || (k == geos[i].lower && DirtyAbove(geos, s, [i], v))
  {
    HigherUp(geos, i);
    UnderApart(geos, i);
    hide Copy, Under, DirtyAbove;
  }

  lemma EvictedDirty(geos: seq<Geo>, s: Sys, t: Sys, i: int, v: int, r: int)
    requires ValidId(geos, i) && Evicted(geos, s, t, i, v) && IsRoot(geos, r)
    ensures DirtyAbove(geos, t, [r], v) <==> DirtyAbove(geos, s, [r], v) && r != i
  {
    HigherUp(geos, i);
    DirtyAboveOne(geos, s, i, v);
    DirtyAboveOne(geos, s, r, v);
    DirtyAboveOne(geos, t, r, v);
    if DirtyAbove(geos, t, [r], v) {
      var k :| ValidId(geos, k) && Under(geos, k, r) && DirtyIn(geos, t, k, v);
      StaysDirty(geos, s, t, i, v, r, k);
    }
    if DirtyAbove(geos, s, [r], v) && r != i {
      var k :| ValidId(geos, k) && Under(geos, k, r) && DirtyIn(geos, s, k, v);
      WasDirty(geos, s, t, i, v, r, k);
    }
  }

  lemma StaysDirty(geos: seq<Geo>, s: Sys, t: Sys, i: int, v: int, r: int, k: int)
    requires ValidId(geos, i) && Evicted(geos, s, t, i, v) && IsRoot(geos, r) && ValidId(geos, k)
    requires Under(geos, k, r) && DirtyIn(geos, t, k, v)
    ensures r != i && exists k' :: ValidId(geos, k') && Under(geos, k', r) && DirtyIn(geos, s, k', v)
  {
    EvictedCopies(geos, s, t, i, v, k);
    DirtyAboveOne(geos, s, i, v);
    if !(DirtyIn(geos, s, k, v) && !Under(geos, k, i)) {
      assert Under(geos, i, r);
      var k' :| ValidId(geos, k') && Under(geos, k', i) && DirtyIn(geos, s, k', v);
      UnderTrans(geos, k', i, r);
    }
  }

  lemma WasDirty(geos: seq<Geo>, s: Sys, t: Sys, i: int, v: int, r: int, k: int)
    requires ValidId(geos, i) && Evicted(geos, s, t, i, v) && IsRoot(geos, r) && r != i && ValidId(geos, k)
    requires Under(geos, k, r) && DirtyIn(geos, s, k, v)
    ensures exists k' :: ValidId(geos, k') && Under(geos, k', r) && DirtyIn(geos, t, k', v)
  {
    EvictedCopies(geos, s, t, i, v, k);
    if Under(geos, k, i) {
      DirtyAboveOne(geos, s, i, v);
      UnderRoot(geos, k, i, r);
      assert ValidId(geos, geos[i].lower) && Under(geos, geos[i].lower, r);
      EvictedCopies(geos, s, t, i, v, geos[i].lower);
    }
  }

  lemma DirtyAboveFrame(geos: seq<Geo>, s: Sys, t: Sys, hs: seq<int>, b: int)
    requires Fits(geos, s) && Fits(geos, t)
    requires forall k :: ValidId(geos, k) ==> Copy(geos, t, k, b) == Copy(geos, s, k, b)
    ensures DirtyAbove(geos, t, hs, b) <==> DirtyAbove(geos, s, hs, b)
  {
    hide Copy, UnderAny;
  }

  lemma DirtyAboveOne(geos: seq<Geo>, s: Sys, i: int, b: int)
    requires Fits(geos, s) && ValidId(geos, i)
    ensures DirtyAbove(geos, s, [i], b) <==> exists k :: ValidId(geos, k) && Under(geos, k, i) && DirtyIn(geos, s, k, b)
  {
    hide DirtyIn;
    forall k | ValidId(geos, k) ensures UnderAny(geos, k, [i]) <==> Under(geos, k, i) { UnderConcat(geos, k, i, []); }
  }

  // ------------------------------------------------------------ a hit, a merge

  /** One copy replaced by one that is unlocked if the old one was. */
  lemma RefreshedInv(geos: seq<Geo>, s: Sys, t: Sys, i: int, b: int, l: Line)
    requires ValidId(geos, i) && OneCopy(geos, s, t, i, b, Some(l)) && MshrGood(geos, s) && Has(geos, s, i, b)
    requires l.lock == LockedIn(geos, s, i, b) && (l.lock ==> l.node == Copy(geos, s, i, b).value.node)
    ensures MshrGood(geos, t)
    ensures forall k, c :: ValidId(geos, k) ==> (Included(geos, t, k, c) <==> Included(geos, s, k, c))
  {
    forall k | ValidId(geos, k) ensures MshrOk(geos[k], t.caches[k]) {
      assert MshrOk(geos[k], s.caches[k]);
      if k == i { MshrFrameIn(geos, s, t, k); }
    }
    forall k, c | ValidId(geos, k) ensures Included(geos, t, k, c) <==> Included(geos, s, k, c) {
      SameIncluded(geos, s, t, i, b, l, k, c);
    }
  }

  lemma SameLock(geos: seq<Geo>, s: Sys, t: Sys, i: int, b: int, l: Line, k: int, c: int)
    requires ValidId(geos, i) && ValidId(geos, k) && OneCopy(geos, s, t, i, b, Some(l)) && Has(geos, s, i, b)
    requires l.lock == LockedIn(geos, s, i, b)
    ensures Has(geos, t, k, c) == Has(geos, s, k, c) && LockedIn(geos, t, k, c) == LockedIn(geos, s, k, c)
  {}

  lemma SameIncluded(geos: seq<Geo>, s: Sys, t: Sys, i: int, b: int, l: Line, k: int, c: int)
    requires ValidId(geos, i) && ValidId(geos, k) && OneCopy(geos, s, t, i, b, Some(l)) && Has(geos, s, i, b)
    requires l.lock == LockedIn(geos, s, i, b)
    ensures Included(geos, t, k, c) <==> Included(geos, s, k, c)
  {
    HigherUp(geos, k);
    SameLock(geos, s, t, i, b, l, k, c);
    if geos[k].lower != -1 { SameLock(geos, s, t, i, b, l, geos[k].lower, c); }
    hide Has, LockedIn, OneCopy;
  }

  lemma OneDirty(geos: seq<Geo>, s: Sys, t: Sys, i: int, b: int, l: Line, write: bool, c: int)
    requires ValidId(geos, i) && OneCopy(geos, s, t, i, b, Some(l)) && (l.dirty <==> DirtyIn(geos, s, i, b) || write)
    ensures forall k :: ValidId(geos, k) ==>
      (DirtyIn(geos, t, k, c) <==> DirtyIn(geos, s, k, c) || (k == i && c == b && write))
  {}

  /** The ledger after one copy has been replaced, or created where there was none. */
  lemma RefreshedLedger(geos: seq<Geo>, s: Sys, t: Sys, i: int, b: int, l: Line, write: bool, extra: set<(int, int)>)
    requires ValidId(geos, i) && OneCopy(geos, s, t, i, b, Some(l)) && Ledger(geos, s, extra)
    requires l.dirty <==> DirtyIn(geos, s, i, b) || write
    ensures Ledger(geos, t, extra + Wrote(geos, i, b, write))
  {
    forall r, c | IsRoot(geos, r)
      ensures (r, c) in t.written + (extra + Wrote(geos, i, b, write)) <==> DirtyAbove(geos, t, [r], c)
    {
      hide *;
      LedgerAt(geos, s, extra, r, c);
      OneDirty(geos, s, t, i, b, l, write, c);
      WroteAbove(geos, s, t, i, b, write, r, c);
    }
  }

  /** A written block is dirty below its cache, down to its root. */
  lemma WroteAbove(geos: seq<Geo>, s: Sys, t: Sys, i: int, b: int, write: bool, r: int, c: int)
    requires Fits(geos, s) && Fits(geos, t) && ValidId(geos, i) && IsRoot(geos, r)
    requires forall k :: ValidId(geos, k) ==>
      (DirtyIn(geos, t, k, c) <==> DirtyIn(geos, s, k, c) || (k == i && c == b && write))
    ensures DirtyAbove(geos, t, [r], c) <==> DirtyAbove(geos, s, [r], c) || (r, c) in Wrote(geos, i, b, write)
  {
    RootUnder(geos, i, r);
    DirtyAboveOne(geos, s, r, c);
    DirtyAboveOne(geos, t, r, c);
    hide DirtyIn, Under, DirtyAbove;
  }

  /** What a write adds to the ledger. */
  function Wrote(geos: seq<Geo>, i: int, b: int, write: bool): set<(int, int)>
    requires Topo(geos) && ValidId(geos, i)
  {
    if write then {(Root(geos, i), b)} else {}
  }

  // ---------------------------------------------------------- an allocation

  /** A new locked line and its MSHR entry. */
  lemma PushLineEffect(geos: seq<Geo>, s: Sys, i: int, addr: int, dirty: bool)
    requires SetsGood(geos, s) && MshrGood(geos, s) && ValidId(geos, i) && !Has(geos, s, i, Block(addr))
    requires |SetOf(geos, s, i, addr)| < geos[i].assoc && |s.caches[i].mshr| < geos[i].mshrMax
    ensures var l := Line(addr, TagOf(geos, i, addr), true, dirty, s.nodes); var t := PushLine(geos, s, i, addr, dirty);
      && SetsGood(geos, t) && MshrGood(geos, t)
      && (forall k, c :: ValidId(geos, k) ==>
            Copy(geos, t, k, c) == if k == i && c == Block(addr) then Some(l) else Copy(geos, s, k, c))
  {
    var b := Block(addr);
    PushEffect(geos, s, i, addr, dirty);
    var l := Line(addr, TagOf(geos, i, addr), true, dirty, s.nodes);
    var u := PutSet(geos, s, i, addr, SetOf(geos, s, i, addr) + [l]).(nodes := s.nodes + 1);
    var t := PushLine(geos, s, i, addr, dirty);
    assert t.caches[i].sets == u.caches[i].sets
      && forall k :: ValidId(geos, k) && k != i ==> t.caches[k] == s.caches[k];
    assert forall c :: Copy(geos, t, i, c) == Copy(geos, u, i, c);
    assert SetsGood(geos, t);
    forall k | ValidId(geos, k) ensures MshrOk(geos[k], t.caches[k]) {
      assert MshrOk(geos[k], s.caches[k]);
      if k == i {
        forall c ensures At(geos[i], t.caches[i], c) == Copy(geos, t, i, c) {}
        PushedMshr(geos[i], s.caches[i], t.caches[i], b, Entry(addr, s.nodes), l);
      }
    }
  }
}
