/** Whole runs of the cache hierarchy: requests, callbacks and clock ticks in any order. */
module CacheRuns {
  import opened CacheLines
  import opened CacheTree
  import opened CacheCopies
  import opened CacheEviction
  import opened CacheInvariant
  import opened CacheAcceptance
  import opened CacheSend

  // ------------------------------------------------------------------ access

  lemma InvSendable(geos: seq<Geo>, s: Sys, i: int, b: int)
    requires Inv(geos, s) && !s.refused && ValidId(geos, i)
    ensures Sendable(geos, s, i, b, {})
  {
    assert forall k, c :: ValidId(geos, k) ==> Included(geos, s, k, c);
    hide Included;
  }

  /** A request changes nothing unless the cache takes it. If it does, every invariant is
      kept exactly when every level below takes the request in turn, which can be told
      from the state before the request. */
  lemma AccessExact(geos: seq<Geo>, s: Sys, i: int, addr: int, write: bool)
    requires Inv(geos, s) && !s.refused && ValidId(geos, i)
    ensures var (t, taken) := Access(geos, s, i, addr, write);
      && (taken <==> Takes(geos, s, i, addr))
      && (!taken ==> t == s)
      && (taken ==> (Inv(geos, t) <==> Sinks(geos, s, i, addr)) && (t.refused <==> !Sinks(geos, s, i, addr)))
      && Flushed(s, t)
  {
    InvSendable(geos, s, i, Block(addr));
    SendEffect(geos, s, i, addr, write, {});
    var (t, taken) := Send(geos, s, i, addr, write);
    var (u, _) := Access(geos, s, i, addr, write);
    hide Takes, Sinks, Included, Send;
    if taken {
      assert {} + Wrote(geos, i, Block(addr), write) == Wrote(geos, i, Block(addr), write);
      AccessLedger(geos, t, u, Wrote(geos, i, Block(addr), write));
    }
  }

  lemma AccessLedger(geos: seq<Geo>, t: Sys, u: Sys, more: set<(int, int)>)
    requires Sent(geos, t, more) && u == t.(written := t.written + more)
    ensures Sent(geos, u, {})
  {
    assert t.written + more == u.written + {};
    assert forall k, c :: ValidId(geos, k) ==> Copy(geos, u, k, c) == Copy(geos, t, k, c);
    hide Copy;
    forall r, b | IsRoot(geos, r) ensures DirtyAbove(geos, u, [r], b) <==> DirtyAbove(geos, t, [r], b) {
      DirtyAboveFrame(geos, t, u, [r], b);
    }
    forall k, c | ValidId(geos, k) ensures Included(geos, u, k, c) <==> Included(geos, t, k, c) {
      HigherUp(geos, k);
      IncludedFrame(geos, t, u, k, c);
    }
  }

  // ---------------------------------------------------------------- callback

  /** t is s with block b unlocked in and above the caches hs. */
  ghost predicate Unlocked(geos: seq<Geo>, s: Sys, t: Sys, hs: seq<int>, b: int) {
    && SetsGood(geos, s) && SetsGood(geos, t) && MshrGood(geos, t) && t.(caches := s.caches) == s
    && (forall k, c :: ValidId(geos, k) ==>
         Has(geos, t, k, c) == Has(geos, s, k, c) && DirtyIn(geos, t, k, c) == DirtyIn(geos, s, k, c))
    && (forall k, c :: ValidId(geos, k) ==>
          (LockedIn(geos, t, k, c) <==> LockedIn(geos, s, k, c) && !(c == b && UnderAny(geos, k, hs))))
  }

  /** t is s with block b unlocked in cache i. */
  ghost predicate UnlockedHere(geos: seq<Geo>, s: Sys, t: Sys, i: int, b: int) {
    && SetsGood(geos, s) && SetsGood(geos, t) && MshrGood(geos, t) && t.(caches := s.caches) == s
    && (forall k, c :: ValidId(geos, k) ==>
         Has(geos, t, k, c) == Has(geos, s, k, c) && DirtyIn(geos, t, k, c) == DirtyIn(geos, s, k, c))
    && (forall k, c :: ValidId(geos, k) ==>
         (LockedIn(geos, t, k, c) <==> LockedIn(geos, s, k, c) && !(c == b && k == i)))
  }

  lemma UnlockEffect(geos: seq<Geo>, s: Sys, i: int, k: nat)
    requires SetsGood(geos, s) && MshrGood(geos, s) && ValidId(geos, i) && k < |s.caches[i].mshr|
    ensures UnlockedHere(geos, s, Unlock(geos, s, i, k), i, Block(s.caches[i].mshr[k].addr))
  {
    hide Index, Tag, SetsOk;
    var mshr := s.caches[i].mshr;
    var e := mshr[k];
    var b := Block(e.addr);
    assert MshrOk(geos[i], s.caches[i]);
    assert Refers(geos[i], s.caches[i], e);
    var p := NodeIsCopy(geos, s, i, e.addr, e.node);
    var ls := SetOf(geos, s, i, e.addr);
    var l := ls[p].(lock := false);
    ReplaceEffect(geos, s, i, e.addr, p, l);
    var u := PutSet(geos, s, i, e.addr, ls[p := l]);
    var t := Unlock(geos, s, i, k);
    UnlockRest(geos, s, u, t, i, k, l);
  }

  lemma UnlockRest(geos: seq<Geo>, s: Sys, u: Sys, t: Sys, i: int, k: nat, l: Line)
    requires Tidy(geos, s) && ValidId(geos, i) && k < |s.caches[i].mshr|
    requires var b := Block(s.caches[i].mshr[k].addr);
      OneCopy(geos, s, u, i, b, Some(l)) && Copy(geos, s, i, b) == Some(l.(lock := true)) && !l.lock
    requires u.(caches := s.caches) == s
    requires t == Put(u, i, u.caches[i].(mshr := s.caches[i].mshr[..k] + s.caches[i].mshr[k + 1..]))
    ensures UnlockedHere(geos, s, t, i, Block(s.caches[i].mshr[k].addr))
  {
    var b := Block(s.caches[i].mshr[k].addr);
    assert SetsGood(geos, t);
    assert forall c :: Copy(geos, t, i, c) == if c == b then Some(l) else Copy(geos, s, i, c);
    assert forall j :: ValidId(geos, j) && j != i ==> t.caches[j] == s.caches[j];
    forall j | ValidId(geos, j) ensures MshrOk(geos[j], t.caches[j]) {
      assert MshrOk(geos[j], s.caches[j]);
      if j == i {
        forall c
          ensures At(geos[i], t.caches[i], c) == Copy(geos, t, i, c)
              && At(geos[i], s.caches[i], c) == Copy(geos, s, i, c)
        {}
        UnlockedMshr(geos[i], s.caches[i], t.caches[i], k, l);
      }
    }
    assert forall j, c :: ValidId(geos, j) ==>
      Copy(geos, t, j, c) == if j == i && c == b then Some(l) else Copy(geos, s, j, c);
    hide SetsGood, MshrGood, OneCopy;
    HereFromCopies(geos, s, t, i, b, l);
  }

  lemma HereFromCopies(geos: seq<Geo>, s: Sys, t: Sys, i: int, b: int, l: Line)
    requires SetsGood(geos, s) && SetsGood(geos, t) && MshrGood(geos, t) && t.(caches := s.caches) == s
        && ValidId(geos, i)
    requires forall j, c :: ValidId(geos, j) ==>
        Copy(geos, t, j, c) == if j == i && c == b then Some(l) else Copy(geos, s, j, c)
    requires Copy(geos, s, i, b) == Some(l.(lock := true)) && !l.lock
    ensures UnlockedHere(geos, s, t, i, b)
  {
    hide Copy, MshrGood;
  }

  ghost predicate Tidy(geos: seq<Geo>, s: Sys) { SetsGood(geos, s) && MshrGood(geos, s) }

  lemma UnlockedTrans(geos: seq<Geo>, s: Sys, t: Sys, u: Sys, h: int, hs: seq<int>, b: int)
    requires Unlocked(geos, s, t, [h], b) && Unlocked(geos, t, u, hs, b)
    ensures Unlocked(geos, s, u, [h] + hs, b)
  {
    hide Has, DirtyIn, LockedIn, UnderAny;
    forall k | ValidId(geos, k)
      ensures UnderAny(geos, k, [h] + hs) <==> UnderAny(geos, k, [h]) || UnderAny(geos, k, hs)
    {
      UnderConcat(geos, k, h, hs);
    }
  }

  /** A callback unlocks the block in the cache it is made on and in everything above. */
  lemma CallbackEffect(geos: seq<Geo>, s: Sys, i: int, addr: int)
    requires SetsGood(geos, s) && MshrGood(geos, s) && ValidId(geos, i)
    ensures Unlocked(geos, s, Callback(geos, s, i, addr), [i], Block(addr))
    decreases geos[i].level, 1, 0
  {
    HigherUp(geos, i);
    var b := Block(addr);
    var k := HitMshr(s.caches[i].mshr, addr);
    var s1 := if k < |s.caches[i].mshr| then Unlock(geos, s, i, k) else s;
    if k < |s.caches[i].mshr| {
      UnlockEffect(geos, s, i, k);
    } else {
      NotOutstanding(geos, s, i, addr);
      assert UnlockedHere(geos, s, s, i, b) by { hide Has, DirtyIn, MshrGood; }
    }
    hide Unlocked, UnlockedHere, MshrGood, SetsGood;
    HereGood(geos, s, s1, i, b);
    CallbackEachEffect(geos, s1, geos[i].higher, addr, geos[i].level);
    UnlockedBelow(geos, s, s1, CallbackEach(geos, s1, geos[i].higher, addr, geos[i].level), i, b);
  }

  lemma HereGood(geos: seq<Geo>, s: Sys, t: Sys, i: int, b: int)
    requires UnlockedHere(geos, s, t, i, b)
    ensures SetsGood(geos, t) && MshrGood(geos, t)
  {}

  lemma UnlockedBelow(geos: seq<Geo>, s: Sys, s1: Sys, t: Sys, i: int, b: int)
    requires ValidId(geos, i) && UnlockedHere(geos, s, s1, i, b) && Unlocked(geos, s1, t, geos[i].higher, b)
    ensures Unlocked(geos, s, t, [i], b)
  {
    hide Has, DirtyIn, LockedIn, MshrGood, UnderAny;
    forall j | ValidId(geos, j) ensures UnderAny(geos, j, [i]) <==> j == i || UnderAny(geos, j, geos[i].higher) {
      UnderConcat(geos, j, i, []);
      UnderHigher(geos, j, i);
    }
  }

  lemma NotOutstanding(geos: seq<Geo>, s: Sys, i: int, addr: int)
    requires SetsGood(geos, s) && MshrGood(geos, s) && ValidId(geos, i)
    requires HitMshr(s.caches[i].mshr, addr) == |s.caches[i].mshr|
    ensures !LockedIn(geos, s, i, Block(addr))
  {
    assert MshrOk(geos[i], s.caches[i]);
    assert Locked(geos[i], s.caches[i], Block(addr)) == LockedIn(geos, s, i, Block(addr));
  }

  lemma NoCallback(geos: seq<Geo>, s: Sys, addr: int, level: int)
    requires SetsGood(geos, s) && MshrGood(geos, s) && level >= 0
    ensures Unlocked(geos, s, CallbackEach(geos, s, [], addr, level), [], Block(addr))
  {
    assert CallbackEach(geos, s, [], addr, level) == s;
    hide Has, DirtyIn, LockedIn, MshrGood, SetsGood, CallbackEach;
  }

  lemma CallbackEachStep(geos: seq<Geo>, s: Sys, hs: seq<int>, addr: int, level: int)
    requires SetsGood(geos, s) && AllUp(geos, hs, level) && level >= 0 && hs != []
    ensures Topo(geos) && Fits(geos, s) && ValidId(geos, hs[0]) && geos[hs[0]].level < level
        && AllUp(geos, hs[1..], level)
    ensures Fits(geos, Callback(geos, s, hs[0], addr))
    ensures CallbackEach(geos, s, hs, addr, level)
        == CallbackEach(geos, Callback(geos, s, hs[0], addr), hs[1..], addr, level)
  {
    hide Callback;
  }

  lemma {:induction false} CallbackEachEffect(geos: seq<Geo>, s: Sys, hs: seq<int>, addr: int, level: int)
    requires SetsGood(geos, s) && MshrGood(geos, s) && AllUp(geos, hs, level) && level >= 0
    ensures Unlocked(geos, s, CallbackEach(geos, s, hs, addr, level), hs, Block(addr))
    decreases level, 0, |hs|
  {
    hide *;
    if hs == [] {
      NoCallback(geos, s, addr, level);
    } else {
      CallbackEachStep(geos, s, hs, addr, level);
      var t := Callback(geos, s, hs[0], addr);
      CallbackEffect(geos, s, hs[0], addr);
      UnlockedGood(geos, s, t, [hs[0]], Block(addr));
      CallbackEachEffect(geos, t, hs[1..], addr, level);
      UnlockedTrans(geos, s, t, CallbackEach(geos, t, hs[1..], addr, level), hs[0], hs[1..], Block(addr));
      assert [hs[0]] + hs[1..] == hs;
    }
  }

  lemma UnlockedGood(geos: seq<Geo>, s: Sys, t: Sys, hs: seq<int>, b: int)
    requires Unlocked(geos, s, t, hs, b)
    ensures SetsGood(geos, t) && MshrGood(geos, t)
  {}

  /** A callback on a last-level cache keeps every invariant: it unlocks below first. */
  lemma CallbackInv(geos: seq<Geo>, s: Sys, r: int, addr: int)
    requires Inv(geos, s) && IsRoot(geos, r)
    ensures Inv(geos, Callback(geos, s, r, addr)) && Flushed(s, Callback(geos, s, r, addr))
    ensures Callback(geos, s, r, addr).(caches := s.caches) == s
  {
    CallbackEffect(geos, s, r, addr);
    var t := Callback(geos, s, r, addr);
    hide Has, DirtyIn, LockedIn, MshrGood, Callback;
    LedgerFrame(geos, s, t, {});
    forall k, c | ValidId(geos, k) ensures Included(geos, t, k, c) {
      HigherUp(geos, k);
      assert Included(geos, s, k, c);
      UnderConcat(geos, k, r, []);
      if geos[k].lower != -1 { UnderConcat(geos, geos[k].lower, r, []); }
    }
  }
}
