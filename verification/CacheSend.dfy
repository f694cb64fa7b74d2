/** Cache::send, from the level it enters down to memory. */
module CacheSend {
  import opened CacheLines
  import opened CacheTree
  import opened CacheCopies
  import opened CacheEviction
  import opened CacheInvariant
  import opened CacheAcceptance

  /** Everything a request may rely on while it is on its way down. */
  ghost predicate Sendable(geos: seq<Geo>, s: Sys, i: int, b: int, extra: set<(int, int)>) {
    && SetsGood(geos, s) && ValidId(geos, i) && MshrGood(geos, s) && s.ok && !s.refused
    && Hole(geos, s, i, b) && Ledger(geos, s, extra) && forall e :: e in extra ==> e.1 == b
  }

  /** wait_list has only grown, and whatever left the ledger is on it as a new write. */
  ghost predicate Flushed(s: Sys, t: Sys) {
    && |s.wait| <= |t.wait| && t.wait[..|s.wait|] == s.wait
    && forall r, b :: (r, b) in s.written && (r, b) !in t.written ==> Asked(s, t, b)
  }

  ghost predicate Asked(s: Sys, t: Sys, b: int) {
    exists x :: |s.wait| <= x < |t.wait| && t.wait[x].req.write && Block(t.wait[x].req.addr) == b
  }

  lemma FlushedTrans(s: Sys, t: Sys, u: Sys)
    requires Flushed(s, t) && Flushed(t, u)
    ensures Flushed(s, u)
  {
    assert u.wait[..|s.wait|] == u.wait[..|t.wait|][..|s.wait|];
    forall r, b | (r, b) in s.written && (r, b) !in u.written ensures Asked(s, u, b) {
      if (r, b) in t.written {
        assert Asked(t, u, b);
      } else {
        assert Asked(s, t, b);
        var x :| |s.wait| <= x < |t.wait| && t.wait[x].req.write && Block(t.wait[x].req.addr) == b;
        assert u.wait[..|t.wait|][x] == u.wait[x];
      }
    }
  }

  lemma EvictedFlushed(geos: seq<Geo>, s: Sys, t: Sys, i: int, b: int)
    requires ValidId(geos, i) && Evicted(geos, s, t, i, b)
    ensures Flushed(s, t)
  {
    hide DirtyAbove, Copy, Under, Included;
    assert LowerHas(geos, s, t, i, b);
    if geos[i].lower == -1 && DirtyAbove(geos, s, [i], b) { assert t.wait[|s.wait|].req.write; }
  }

  /** What an accepted request leaves behind: everything is in order again exactly when
      no level below refused it. */
  ghost predicate Sent(geos: seq<Geo>, t: Sys, extra: set<(int, int)>) {
    && SetsGood(geos, t) && MshrGood(geos, t) && t.ok && Ledger(geos, t, extra)
    && (t.refused <==> !Inclusive(geos, t))
  }

  lemma FilledHole(geos: seq<Geo>, s: Sys, i: int, b: int)
    requires Fits(geos, s) && ValidId(geos, i) && Hole(geos, s, i, b) && Has(geos, s, i, b)
    ensures Inclusive(geos, s)
  {
    forall k, c | ValidId(geos, k) ensures Included(geos, s, k, c) {
      if c == b && !Included(geos, s, k, b) {
        HigherUp(geos, k);
        assert geos[k].lower == i && LockedIn(geos, s, k, b);
      }
    }
  }

  lemma HitEffect(geos: seq<Geo>, s: Sys, i: int, addr: int, write: bool, p: nat, extra: set<(int, int)>)
    requires Sendable(geos, s, i, Block(addr), extra)
    requires p == Find(SetOf(geos, s, i, addr), TagOf(geos, i, addr)) && p < |SetOf(geos, s, i, addr)|
    requires !SetOf(geos, s, i, addr)[p].lock
    ensures Sent(geos, Hit(geos, s, i, addr, write, p), extra + Wrote(geos, i, Block(addr), write))
  {
    hide Hole, Ledger, MshrGood, Included, SetsOk, Index, Tag, At, Find;
    var ls := SetOf(geos, s, i, addr);
    var q := FoundIsCopy(geos, s, i, addr);
    var l := Line(addr, TagOf(geos, i, addr), false, ls[p].dirty || write, s.nodes);
    var t := Hit(geos, s, i, addr, write, p);
    TouchEffect(geos, s, i, addr, p, l, t.hits);
    Refreshed(geos, s, t, i, Block(addr), l, write, extra);
  }

  /** A hit and a merged miss both replace the copy here by one with the same lock. */
  lemma Refreshed(geos: seq<Geo>, s: Sys, t: Sys, i: int, b: int, l: Line, write: bool, extra: set<(int, int)>)
    requires Sendable(geos, s, i, b, extra) && OneCopy(geos, s, t, i, b, Some(l)) && Has(geos, s, i, b) && t.ok
    requires l.lock == LockedIn(geos, s, i, b) && (l.lock ==> l.node == Copy(geos, s, i, b).value.node)
    requires l.dirty <==> DirtyIn(geos, s, i, b) || write
    ensures Sent(geos, t, extra + Wrote(geos, i, b, write))
  {
    FilledHole(geos, s, i, b);
    RefreshedInv(geos, s, t, i, b, l);
    RefreshedLedger(geos, s, t, i, b, l, write, extra);
    hide Included, Ledger, Hole, MshrGood, SetsGood;
  }

  lemma MergeEffect(geos: seq<Geo>, s: Sys, i: int, addr: int, write: bool, k: nat, extra: set<(int, int)>)
    requires Sendable(geos, s, i, Block(addr), extra)
    requires k < |s.caches[i].mshr| && Block(s.caches[i].mshr[k].addr) == Block(addr)
    ensures Sent(geos, Merge(geos, s, i, s.caches[i].mshr[k], write), extra + Wrote(geos, i, Block(addr), write))
  {
    var e := s.caches[i].mshr[k];
    assert MshrOk(geos[i], s.caches[i]);
    assert Refers(geos[i], s.caches[i], e);
    var p := NodeIsCopy(geos, s, i, e.addr, e.node);
    var ls := SetOf(geos, s, i, e.addr);
    var l := ls[p].(dirty := write || ls[p].dirty);
    ReplaceEffect(geos, s, i, e.addr, p, l);
    Refreshed(geos, s, Merge(geos, s, i, e, write), i, Block(addr), l, write, extra);
  }

  lemma MshrCopy(geos: seq<Geo>, s: Sys, i: int, k: nat)
    requires SetsGood(geos, s) && ValidId(geos, i) && MshrGood(geos, s) && k < |s.caches[i].mshr|
    ensures Has(geos, s, i, Block(s.caches[i].mshr[k].addr))
  {
    assert MshrOk(geos[i], s.caches[i]);
    assert Refers(geos[i], s.caches[i], s.caches[i].mshr[k]);
  }

  /** A miss that is not outstanding is no copy at all: the assert of need_eviction. */
  lemma TrulyAbsent(geos: seq<Geo>, s: Sys, i: int, addr: int)
    requires SetsGood(geos, s) && ValidId(geos, i) && MshrGood(geos, s)
    requires HitMshr(s.caches[i].mshr, addr) == |s.caches[i].mshr|
    requires var ls := SetOf(geos, s, i, addr); var p := Find(ls, TagOf(geos, i, addr)); p < |ls| ==> ls[p].lock
    ensures !Has(geos, s, i, Block(addr))
  {
    var p := FoundIsCopy(geos, s, i, addr);
    if Has(geos, s, i, Block(addr)) {
      assert MshrOk(geos[i], s.caches[i]);
      assert Locked(geos[i], s.caches[i], Block(addr));
    }
  }

  /** The state in which the new line is pushed: the set has room again, and the victim,
      if there was one, has gone in good order. */
  lemma RoomMade(geos: seq<Geo>, s: Sys, i: int, addr: int, p: nat, extra: set<(int, int)>)
    requires Sendable(geos, s, i, Block(addr), extra) && !Has(geos, s, i, Block(addr))
    requires p < |SetOf(geos, s, i, addr)| && Evictable(geos, s, i, SetOf(geos, s, i, addr)[p])
    ensures var t := Evict(geos, s, i, SetOf(geos, s, i, addr)[p]);
      && Sendable(geos, t, i, Block(addr), extra) && !Has(geos, t, i, Block(addr))
      && |SetOf(geos, t, i, addr)| < geos[i].assoc && t.caches[i].mshr == s.caches[i].mshr && t.clk == s.clk
      && Settled(geos, s, t, i, Block(addr)) && Flushed(s, t)
  {
    var l := SetOf(geos, s, i, addr)[p];
    var v := Block(l.addr);
    LineIsCopy(geos, s, i, addr, p);
    assert v != Block(addr);
    assert forall k :: ValidId(geos, k) ==> Included(geos, s, k, v);
    EvictableExact(geos, s, i, l);
    SizeBound(geos, s, i, addr);
    EvictEffect(geos, s, i, addr, p);
    var t := Evict(geos, s, i, l);
    EvictedMshr(geos, s, t, i, v);
    EvictedHole(geos, s, t, i, v, Block(addr));
    EvictedLedger(geos, s, t, i, v, extra);
    EvictedSettled(geos, s, t, i, v, Block(addr));
    EvictedFlushed(geos, s, t, i, v);
  }

  /** After the push the hole has moved one level down. */
  lemma Pushed(geos: seq<Geo>, s0: Sys, s: Sys, i: int, addr: int, write: bool, extra: set<(int, int)>)
    requires Sendable(geos, s, i, Block(addr), extra) && !Has(geos, s, i, Block(addr))
    requires Fits(geos, s0) && Settled(geos, s0, s, i, Block(addr))
    requires |SetOf(geos, s, i, addr)| < geos[i].assoc && |s.caches[i].mshr| < geos[i].mshrMax
    ensures var t := PushLine(geos, s, i, addr, write);
      && SetsGood(geos, t) && MshrGood(geos, t) && t.ok && !t.refused
      && Hole(geos, t, geos[i].lower, Block(addr)) && Has(geos, t, i, Block(addr))
      && Ledger(geos, t, extra + Wrote(geos, i, Block(addr), write))
      && Settled(geos, s0, t, i, Block(addr))
  {
    var b := Block(addr);
    PushLineEffect(geos, s, i, addr, write);
    var t := PushLine(geos, s, i, addr, write);
    PushSettled(geos, s0, s, t, i, b);
    PushedHole(geos, s, t, i, b);
    PushedLedger(geos, s, t, i, b, write, extra);
  }

  lemma PushedHole(geos: seq<Geo>, s: Sys, t: Sys, i: int, b: int)
    requires Fits(geos, s) && Fits(geos, t) && ValidId(geos, i) && Hole(geos, s, i, b) && !Has(geos, s, i, b)
    requires LockedIn(geos, t, i, b)
    requires forall k, c :: ValidId(geos, k) && !(k == i && c == b) ==> Copy(geos, t, k, c) == Copy(geos, s, k, c)
    ensures Hole(geos, t, geos[i].lower, b)
  {
    hide Copy;
    forall k, c | ValidId(geos, k) && c != b ensures Included(geos, t, k, c) {
      HigherUp(geos, k);
      assert Included(geos, s, k, c);
      IncludedFrame(geos, s, t, k, c);
    }
    forall k | ValidId(geos, k)
      ensures Included(geos, t, k, b) || (geos[k].lower == geos[i].lower && LockedIn(geos, t, k, b))
    {
      HigherUp(geos, k);
      if k != i && geos[k].lower != i { IncludedFrame(geos, s, t, k, b); }
    }
  }

  lemma PushedLedger(geos: seq<Geo>, s: Sys, t: Sys, i: int, b: int, write: bool, extra: set<(int, int)>)
    requires Fits(geos, s) && Fits(geos, t) && ValidId(geos, i) && Ledger(geos, s, extra) && !Has(geos, s, i, b)
    requires t.written == s.written && (DirtyIn(geos, t, i, b) <==> write)
    requires forall k, c :: ValidId(geos, k) && !(k == i && c == b) ==> Copy(geos, t, k, c) == Copy(geos, s, k, c)
    ensures Ledger(geos, t, extra + Wrote(geos, i, b, write))
  {
    forall r, c | IsRoot(geos, r)
      ensures (r, c) in t.written + (extra + Wrote(geos, i, b, write)) <==> DirtyAbove(geos, t, [r], c)
    {
      assert (r, c) in s.written + extra <==> DirtyAbove(geos, s, [r], c);
      assert forall k :: ValidId(geos, k) ==>
        (DirtyIn(geos, t, k, c) <==> DirtyIn(geos, s, k, c) || (k == i && c == b && write));
      WroteAbove(geos, s, t, i, b, write, r, c);
      hide DirtyIn, DirtyAbove;
    }
  }

  /** A request that is not taken changes nothing; one that is taken keeps every
      invariant except, when a level below refuses it, inclusion. */
  lemma {:induction false} SendEffect(geos: seq<Geo>, s: Sys, i: int, addr: int, write: bool, extra: set<(int, int)>)
    requires Sendable(geos, s, i, Block(addr), extra)
    ensures var (t, taken) := Send(geos, s, i, addr, write);
      && (taken <==> Takes(geos, s, i, addr))
      && (if taken then Sent(geos, t, extra + Wrote(geos, i, Block(addr), write))
          else t == s && !Has(geos, s, i, Block(addr)))
      && (taken ==> (t.refused <==> !Sinks(geos, s, i, addr))) && Flushed(s, t)
    decreases 2 - geos[i].level, 2
  {
    hide Hole, Ledger, Sent, Inclusive, SetsOk, Index, Tag, At, Refers;
    HigherUp(geos, i);
    var ls := SetOf(geos, s, i, addr);
    var p := FoundIsCopy(geos, s, i, addr);
    var mshr := s.caches[i].mshr;
    var k := HitMshr(mshr, addr);
    assert MshrOk(geos[i], s.caches[i]);
    if p < |ls| && !ls[p].lock {
      HitEffect(geos, s, i, addr, write, p, extra);
    } else if k < |mshr| {
      MergeEffect(geos, s, i, addr, write, k, extra);
      MshrCopy(geos, s, i, k);
    } else {
      TrulyAbsent(geos, s, i, addr);
      SizeBound(geos, s, i, addr);
      if |mshr| < geos[i].mshrMax && !AllLocked(geos[i], ls) { MissEffect(geos, s, i, addr, write, extra); }
    }
  }

  lemma MissReady(geos: seq<Geo>, s: Sys, i: int, addr: int, extra: set<(int, int)>, write: bool)
    requires Sendable(geos, s, i, Block(addr), extra) && !Has(geos, s, i, Block(addr))
    requires HitMshr(s.caches[i].mshr, addr) == |s.caches[i].mshr| < geos[i].mshrMax
    requires !AllLocked(geos[i], SetOf(geos, s, i, addr))
    ensures Topo(geos) && Fits(geos, s) && ValidId(geos, i) && SetsGood(geos, s)
    ensures IncludedBut(geos, s, Block(addr)) && Missed(geos, s, i, addr)
    ensures forall e :: e in extra + Wrote(geos, i, Block(addr), write) ==> e.1 == Block(addr)
    ensures Flushed(s, s)
  {
    hide Ledger, MshrGood, AllLocked;
    HigherUp(geos, i);
    var p := FoundIsCopy(geos, s, i, addr);
  }

  lemma MissEffect(geos: seq<Geo>, s: Sys, i: int, addr: int, write: bool, extra: set<(int, int)>)
    requires Sendable(geos, s, i, Block(addr), extra) && !Has(geos, s, i, Block(addr))
    requires HitMshr(s.caches[i].mshr, addr) == |s.caches[i].mshr| < geos[i].mshrMax
    requires !AllLocked(geos[i], SetOf(geos, s, i, addr))
    ensures var (t, taken) := Send(geos, s, i, addr, write);
      && (taken <==> Takes(geos, s, i, addr))
      && (if taken then Sent(geos, t, extra + Wrote(geos, i, Block(addr), write)) else t == s)
      && (taken ==> (t.refused <==> !Sinks(geos, s, i, addr))) && Flushed(s, t)
    decreases 2 - geos[i].level, 1
  {
    hide *;
    MissReady(geos, s, i, addr, extra, write);
    if HasRoom(geos, s, i, addr) {
      var s1 := RoomFor(geos, s, i, addr, write, extra);
      PassDown(geos, s, s1, i, addr, write, extra + Wrote(geos, i, Block(addr), write));
    } else {
      NoRoom(geos, s, i, addr, write);
    }
    TakesUnfold(geos, s, i, addr);
  }

  predicate HasRoom(geos: seq<Geo>, s: Sys, i: int, addr: int)
    requires Fits(geos, s) && ValidId(geos, i)
  {
    var ls := SetOf(geos, s, i, addr);
    |ls| < geos[i].assoc || Victim(geos, s, i, ls) < |ls|
  }

  lemma TakesUnfold(geos: seq<Geo>, s: Sys, i: int, addr: int)
    requires SetsGood(geos, s) && ValidId(geos, i) && !Has(geos, s, i, Block(addr))
    ensures Takes(geos, s, i, addr) <==> |s.caches[i].mshr| < geos[i].mshrMax && HasRoom(geos, s, i, addr)
  {
    var p := FoundIsCopy(geos, s, i, addr);
  }

  lemma NoRoom(geos: seq<Geo>, s: Sys, i: int, addr: int, write: bool)
    requires SetsGood(geos, s) && ValidId(geos, i) && !Has(geos, s, i, Block(addr)) && !HasRoom(geos, s, i, addr)
    requires HitMshr(s.caches[i].mshr, addr) == |s.caches[i].mshr| < geos[i].mshrMax
    ensures Send(geos, s, i, addr, write) == (s, false)
  {
    HigherUp(geos, i);
    var p := FoundIsCopy(geos, s, i, addr);
  }

  /** allocate_line with room to be had. */
  lemma RoomFor(geos: seq<Geo>, s: Sys, i: int, addr: int, write: bool, extra: set<(int, int)>) returns (s1: Sys)
    requires Sendable(geos, s, i, Block(addr), extra) && !Has(geos, s, i, Block(addr)) && HasRoom(geos, s, i, addr)
    requires |s.caches[i].mshr| < geos[i].mshrMax
    ensures SetsGood(geos, s1) && MshrGood(geos, s1) && s1.ok && !s1.refused && Flushed(s, s1)
    ensures Hole(geos, s1, geos[i].lower, Block(addr)) && Has(geos, s1, i, Block(addr))
    ensures Ledger(geos, s1, extra + Wrote(geos, i, Block(addr), write)) && Settled(geos, s, s1, i, Block(addr))
    ensures (s1, true) == Allocate(geos, s, i, addr, write)
  {
    hide Hole, Ledger, Included, Settled, SetsOk, Index, Tag, At;
    var ls := SetOf(geos, s, i, addr);
    var p := FoundIsCopy(geos, s, i, addr);
    var v := Victim(geos, s, i, ls);
    var u := s;
    SettledRefl(geos, s, i, Block(addr));
    assert Flushed(s, s);
    if |ls| >= geos[i].assoc {
      RoomMade(geos, s, i, addr, v, extra);
      u := Evict(geos, s, i, ls[v]);
    }
    Pushed(geos, s, u, i, addr, write, extra);
    s1 := PushLine(geos, u, i, addr, write);
    FlushedFrame(s, u, s1);
  }

  /** send gets as far as allocate_line. */
  predicate Missed(geos: seq<Geo>, s: Sys, i: int, addr: int)
    requires Fits(geos, s) && ValidId(geos, i)
  {
    var ls := SetOf(geos, s, i, addr);
    var p := Find(ls, TagOf(geos, i, addr));
    && !(p < |ls| && !ls[p].lock) && !AllLocked(geos[i], ls)
    && HitMshr(s.caches[i].mshr, addr) == |s.caches[i].mshr| < geos[i].mshrMax
  }

  lemma MissUnfold(geos: seq<Geo>, s: Sys, s1: Sys, i: int, addr: int, write: bool)
    requires Fits(geos, s) && Fits(geos, s1) && ValidId(geos, i)
    requires Missed(geos, s, i, addr) && Allocate(geos, s, i, addr, write) == (s1, true)
    ensures geos[i].lower == -1 ==>
      Send(geos, s, i, addr, write)
        == (s1.(wait := s1.wait + [Timed(s1.clk + Latency(geos[i].level), Mem(addr, false))]), true)
    ensures geos[i].lower != -1 ==> ValidId(geos, geos[i].lower)
    ensures geos[i].lower != -1 ==>
      var (s2, taken) := Send(geos, s1, geos[i].lower, addr, false);
      Send(geos, s, i, addr, write) == (s2.(refused := s2.refused || !taken), true)
  {
    HigherUp(geos, i);
    hide Allocate, AllLocked, Find;
  }

  lemma SinksUnfold(geos: seq<Geo>, s: Sys, i: int, addr: int)
    requires SetsGood(geos, s) && ValidId(geos, i) && !Has(geos, s, i, Block(addr))
    ensures geos[i].lower != -1 ==> ValidId(geos, geos[i].lower)
    ensures Sinks(geos, s, i, addr)
      <==> geos[i].lower == -1 || (Takes(geos, s, geos[i].lower, addr) && Sinks(geos, s, geos[i].lower, addr))
  {
    HigherUp(geos, i);
    var q := FoundIsCopy(geos, s, i, addr);
  }

  /** The new line is in place; the request goes on, as a read. */
  lemma PassDown(geos: seq<Geo>, s: Sys, s1: Sys, i: int, addr: int, write: bool, extra: set<(int, int)>)
    requires Fits(geos, s) && ValidId(geos, i) && SetsGood(geos, s1) && MshrGood(geos, s1) && s1.ok && !s1.refused
    requires Hole(geos, s1, geos[i].lower, Block(addr)) && Has(geos, s1, i, Block(addr))
    requires Ledger(geos, s1, extra) && forall e :: e in extra ==> e.1 == Block(addr)
    requires Missed(geos, s, i, addr) && Allocate(geos, s, i, addr, write) == (s1, true)
    requires SetsGood(geos, s) && Settled(geos, s, s1, i, Block(addr)) && !Has(geos, s, i, Block(addr))
    requires IncludedBut(geos, s, Block(addr)) && Flushed(s, s1)
    ensures Flushed(s, Send(geos, s, i, addr, write).0)
    ensures Send(geos, s, i, addr, write).1 && Sent(geos, Send(geos, s, i, addr, write).0, extra)
    ensures Send(geos, s, i, addr, write).0.refused <==> !Sinks(geos, s, i, addr)
    decreases 2 - geos[i].level, 0
  {
    MissUnfold(geos, s, s1, i, addr, write);
    SinksUnfold(geos, s, i, addr);
    var low := geos[i].lower;
    if low == -1 {
      RootFilled(geos, s1, Block(addr));
      FlushedFrame(s, s1, Send(geos, s, i, addr, write).0);
      SameCaches(geos, s1, Send(geos, s, i, addr, write).0, extra);
    } else {
      assert IncludedBut(geos, s1, Block(addr));
      HigherUp(geos, i);
      hide *;
      SendEffect(geos, s1, low, addr, false, extra);
      AboveLower(geos, i);
      SinksStable(geos, s, s1, i, low, addr);
      var (s2, taken) := Send(geos, s1, low, addr, false);
      Passed(geos, s1, s2, taken, i, addr, extra);
      FlushedTrans(s, s1, s2);
      FlushedFrame(s, s2, s2.(refused := s2.refused || !taken));
    }
  }

  lemma FlushedFrame(s: Sys, t: Sys, u: Sys)
    requires Flushed(s, t) && t.wait <= u.wait && u.written == t.written
    ensures Flushed(s, u)
  {
    FlushedTrans(s, t, u);
  }

  lemma AboveLower(geos: seq<Geo>, i: int)
    requires Topo(geos) && ValidId(geos, i) && geos[i].lower != -1
    ensures ValidId(geos, geos[i].lower) && Under(geos, i, geos[i].lower) && geos[i].lower != i
  {
    HigherUp(geos, i);
    assert Under(geos, geos[i].lower, geos[i].lower);
  }

  /** The answer of the level below, which send ignores. */
  lemma Passed(geos: seq<Geo>, s1: Sys, s2: Sys, taken: bool, i: int, addr: int, extra: set<(int, int)>)
    requires SetsGood(geos, s1) && MshrGood(geos, s1) && Ledger(geos, s1, extra) && s1.ok
    requires ValidId(geos, i) && ValidId(geos, geos[i].lower) && Has(geos, s1, i, Block(addr))
    requires taken <==> Takes(geos, s1, geos[i].lower, addr)
    requires if taken then Sent(geos, s2, extra + Wrote(geos, geos[i].lower, Block(addr), false))
             else s2 == s1 && !Has(geos, s1, geos[i].lower, Block(addr))
    requires taken ==> (s2.refused <==> !Sinks(geos, s1, geos[i].lower, addr))
    ensures Sent(geos, s2.(refused := s2.refused || !taken), extra)
    ensures s2.refused || !taken <==> !(Takes(geos, s1, geos[i].lower, addr) && Sinks(geos, s1, geos[i].lower, addr))
  {
    assert extra + Wrote(geos, geos[i].lower, Block(addr), false) == extra;
    if taken {
      assert s2.(refused := s2.refused || !taken) == s2;
    } else {
      hide Has, SetsGood, MshrGood, Ledger, Sent;
      Broken(geos, s1, s1.(refused := true), i, Block(addr), extra);
    }
  }

  /** What the invariants say depends on the caches and the ledger only. */
  lemma SameCaches(geos: seq<Geo>, s: Sys, t: Sys, extra: set<(int, int)>)
    requires SetsGood(geos, s) && MshrGood(geos, s) && Ledger(geos, s, extra)
    requires t.caches == s.caches && t.nodes == s.nodes && t.written == s.written
    ensures SetsGood(geos, t) && MshrGood(geos, t) && Ledger(geos, t, extra)
    ensures Inclusive(geos, t) <==> Inclusive(geos, s)
  {
    assert forall k, c :: ValidId(geos, k) ==> Copy(geos, t, k, c) == Copy(geos, s, k, c);
    hide Copy;
    LedgerFrame(geos, s, t, extra);
    forall k, c | ValidId(geos, k) ensures Included(geos, t, k, c) <==> Included(geos, s, k, c) {
      HigherUp(geos, k);
      IncludedFrame(geos, s, t, k, c);
    }
  }

  /** A refused request leaves a block here that the level below does not have. */
  lemma Broken(geos: seq<Geo>, s: Sys, t: Sys, i: int, b: int, extra: set<(int, int)>)
    requires SetsGood(geos, s) && MshrGood(geos, s) && Ledger(geos, s, extra) && s.ok && t == s.(refused := true)
    requires ValidId(geos, i) && ValidId(geos, geos[i].lower) && Has(geos, s, i, b) && !Has(geos, s, geos[i].lower, b)
    ensures Sent(geos, t, extra)
  {
    SameCaches(geos, s, t, extra);
    assert !Included(geos, s, i, b);
  }

  lemma RootFilled(geos: seq<Geo>, s: Sys, b: int)
    requires Fits(geos, s) && Hole(geos, s, -1, b)
    ensures Inclusive(geos, s)
  {
    forall k, c | ValidId(geos, k) ensures Included(geos, s, k, c) {
      HigherUp(geos, k);
      assert c == b ==> Included(geos, s, k, b) || geos[k].lower == -1;
    }
  }
}
