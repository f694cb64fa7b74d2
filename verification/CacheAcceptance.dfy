/** When a cache takes a request: a condition on the state before it is sent, which no
    eviction on the way down changes. */
module CacheAcceptance {
  import opened CacheLines
  import opened CacheTree
  import opened CacheCopies
  import opened CacheEviction
  import opened CacheInvariant

  /** A cache takes a request if it holds the block, or has an MSHR entry and a way for it. */
  predicate Takes(geos: seq<Geo>, s: Sys, i: int, addr: int)
    requires Fits(geos, s) && ValidId(geos, i)
  {
    var ls := SetOf(geos, s, i, addr);
    Find(ls, TagOf(geos, i, addr)) < |ls|
    || (|s.caches[i].mshr| < geos[i].mshrMax && (|ls| < geos[i].assoc || Victim(geos, s, i, ls) < |ls|))
  }

  /** Every level below takes the request as far as it has to go. */
  predicate Sinks(geos: seq<Geo>, s: Sys, i: int, addr: int)
    requires Fits(geos, s) && ValidId(geos, i)
    decreases 2 - geos[i].level
  {
    HigherUp(geos, i);
    var ls := SetOf(geos, s, i, addr);
    Find(ls, TagOf(geos, i, addr)) < |ls| || geos[i].lower == -1
    || (Takes(geos, s, geos[i].lower, addr) && Sinks(geos, s, geos[i].lower, addr))
  }

  /** t is s after cache i has made room for block b and pushed it. */
  ghost predicate Settled(geos: seq<Geo>, s: Sys, t: Sys, i: int, b: int)
    requires Fits(geos, s) && Fits(geos, t)
  {
    && (forall k :: ValidId(geos, k) && !Under(geos, k, i) ==>
          && t.caches[k].mshr == s.caches[k].mshr && SameSizes(s.caches[k], t.caches[k])
          && forall c :: Has(geos, t, k, c) == Has(geos, s, k, c))
    && (forall k, c :: ValidId(geos, k) && c != b ==> LockedIn(geos, t, k, c) == LockedIn(geos, s, k, c))
  }

  ghost predicate IncludedBut(geos: seq<Geo>, s: Sys, b: int)
    requires Fits(geos, s)
  {
    forall k, c :: ValidId(geos, k) && c != b ==> Included(geos, s, k, c)
  }

  ghost predicate CanGo(geos: seq<Geo>, s: Sys, j: int, addr: int, c: int)
    requires Fits(geos, s) && ValidId(geos, j)
  {
    HigherUp(geos, j);
    Index(geos[j], c * BLOCK) == Index(geos[j], addr) && Has(geos, s, j, c) && UnlockedAbove(geos, s, j, c)
  }

  lemma VictimExact(geos: seq<Geo>, s: Sys, j: int, addr: int)
    requires SetsGood(geos, s) && ValidId(geos, j) && IncludedBut(geos, s, Block(addr)) && !Has(geos, s, j, Block(addr))
    ensures var ls := SetOf(geos, s, j, addr);
      Victim(geos, s, j, ls) < |ls| <==> exists c :: CanGo(geos, s, j, addr, c)
  {
    hide Index, Tag, SetsOk, Included;
    HigherUp(geos, j);
    var ls := SetOf(geos, s, j, addr);
    var v := Victim(geos, s, j, ls);
    if v < |ls| {
      LineIsCopy(geos, s, j, addr, v);
      EvictableExact(geos, s, j, ls[v]);
      BlockIndex(geos[j], ls[v].addr);
      assert CanGo(geos, s, j, addr, Block(ls[v].addr));
    }
    if c :| CanGo(geos, s, j, addr, c) {
      var p := AtSome(geos[j], s.caches[j], c, s.nodes);
      EvictableExact(geos, s, j, ls[p]);
    }
  }

  lemma TakesStable(geos: seq<Geo>, s: Sys, t: Sys, i: int, j: int, addr: int)
    requires SetsGood(geos, s) && SetsGood(geos, t) && ValidId(geos, i) && ValidId(geos, j) && !Under(geos, j, i)
    requires Settled(geos, s, t, i, Block(addr)) && IncludedBut(geos, s, Block(addr))
        && IncludedBut(geos, t, Block(addr))
    ensures Takes(geos, t, j, addr) <==> Takes(geos, s, j, addr)
  {
    var p := FoundIsCopy(geos, s, j, addr);
    var q := FoundIsCopy(geos, t, j, addr);
    assert SameSizes(s.caches[j], t.caches[j]);
    assert Has(geos, t, j, Block(addr)) == Has(geos, s, j, Block(addr));
    if !Has(geos, s, j, Block(addr)) {
      VictimExact(geos, s, j, addr);
      VictimExact(geos, t, j, addr);
      hide Index, SetsOk, Under, Included, Copy;
      forall c | c != Block(addr) ensures CanGo(geos, t, j, addr, c) <==> CanGo(geos, s, j, addr, c) {
        assert forall k :: ValidId(geos, k) ==> LockedIn(geos, t, k, c) == LockedIn(geos, s, k, c);
      }
    }
  }

  lemma SinksStable(geos: seq<Geo>, s: Sys, t: Sys, i: int, j: int, addr: int)
    requires SetsGood(geos, s) && SetsGood(geos, t) && ValidId(geos, i) && ValidId(geos, j)
    requires Under(geos, i, j) && i != j
    requires Settled(geos, s, t, i, Block(addr)) && IncludedBut(geos, s, Block(addr))
        && IncludedBut(geos, t, Block(addr))
    ensures Takes(geos, t, j, addr) <==> Takes(geos, s, j, addr)
    ensures Sinks(geos, t, j, addr) <==> Sinks(geos, s, j, addr)
    decreases 2 - geos[j].level
  {
    HigherUp(geos, j);
    UnderLevel(geos, i, j);
    if Under(geos, j, i) { UnderLevel(geos, j, i); }
    TakesStable(geos, s, t, i, j, addr);
    var p := FoundIsCopy(geos, s, j, addr);
    var q := FoundIsCopy(geos, t, j, addr);
    assert Has(geos, t, j, Block(addr)) == Has(geos, s, j, Block(addr));
    if geos[j].lower != -1 {
      assert Under(geos, j, geos[j].lower);
      UnderTrans(geos, i, j, geos[j].lower);
      UnderLevel(geos, i, geos[j].lower);
      SinksStable(geos, s, t, i, geos[j].lower, addr);
    }
  }

  lemma SettledRefl(geos: seq<Geo>, s: Sys, i: int, b: int)
    requires Fits(geos, s)
    ensures Settled(geos, s, s, i, b)
  {}

  lemma EvictedSettled(geos: seq<Geo>, s: Sys, t: Sys, i: int, v: int, b: int)
    requires ValidId(geos, i) && Evicted(geos, s, t, i, v) && UnlockedAbove(geos, s, i, v)
    requires Included(geos, s, i, v) && Has(geos, s, i, v)
    ensures Settled(geos, s, t, i, b)
  {
    forall k, c | ValidId(geos, k)
      ensures !Under(geos, k, i) ==> Has(geos, t, k, c) == Has(geos, s, k, c)
      ensures LockedIn(geos, t, k, c) == LockedIn(geos, s, k, c)
    {
      EvictedAlike(geos, s, t, i, v, k, c);
    }
    hide Has, LockedIn, Under, SameSizes, LowerHas;
  }

  lemma EvictedAlike(geos: seq<Geo>, s: Sys, t: Sys, i: int, v: int, k: int, c: int)
    requires ValidId(geos, i) && Evicted(geos, s, t, i, v) && ValidId(geos, k) && UnlockedAbove(geos, s, i, v)
    requires Included(geos, s, i, v) && Has(geos, s, i, v)
    ensures !Under(geos, k, i) ==> Has(geos, t, k, c) == Has(geos, s, k, c)
    ensures LockedIn(geos, t, k, c) == LockedIn(geos, s, k, c)
  {
    EvictedUnlocked(geos, s, t, i, v, k);
    HigherUp(geos, i);
    if c != v { assert Copy(geos, t, k, c) == Copy(geos, s, k, c); }
    hide Copy, Under, DirtyAbove, SameSizes;
  }

  lemma PushSettled(geos: seq<Geo>, s: Sys, u: Sys, t: Sys, i: int, b: int)
    requires Fits(geos, s) && Fits(geos, t) && ValidId(geos, i) && Fits(geos, u) && Settled(geos, s, u, i, b)
    requires forall k :: ValidId(geos, k) && k != i ==> t.caches[k] == u.caches[k]
    requires forall k, c :: ValidId(geos, k) && c != b ==> Copy(geos, t, k, c) == Copy(geos, u, k, c)
    ensures Settled(geos, s, t, i, b)
  {
    assert Under(geos, i, i);
    forall k, c | ValidId(geos, k) && k != i ensures Has(geos, t, k, c) == Has(geos, u, k, c) {}
    hide Under, SameSizes;
  }
}
