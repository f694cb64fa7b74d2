/** What a request puts on hit_list and wait_list, and where it leaves the block it asks
    for. */
module CacheTraffic {
  import opened CacheLines
  import opened CacheTree
  import opened CacheCopies
  import opened CacheEviction
  import opened CacheInvariant
  import opened CacheAcceptance
  import opened CacheSend
  import opened CacheRuns
  import opened CacheVictims

  /** The first cache from i down that holds block b; -1 when none does. */
  ghost function Holder(geos: seq<Geo>, s: Sys, i: int, b: int): (j: int)
    requires Fits(geos, s) && ValidId(geos, i)
    ensures j == -1 || (ValidId(geos, j) && 0 <= geos[j].level <= 2 && Has(geos, s, j, b))
    decreases 2 - geos[i].level
  {
    HigherUp(geos, i);
    if Has(geos, s, i, b) then i else if geos[i].lower == -1 then -1 else Holder(geos, s, geos[i].lower, b)
  }

  /** A request for block b that enters at cache i gets as far as cache k, if all take it. */
  ghost predicate Reaches(geos: seq<Geo>, s: Sys, i: int, k: int, b: int)
    requires Fits(geos, s) && ValidId(geos, i)
    decreases 2 - geos[i].level
  {
    HigherUp(geos, i);
    k == i || (!Has(geos, s, i, b) && geos[i].lower != -1 && Reaches(geos, s, geos[i].lower, k, b))
  }

  /** Cache i takes the request, and so does every level below that it goes on to. */
  predicate Arrives(geos: seq<Geo>, s: Sys, i: int, addr: int)
    requires Fits(geos, s) && ValidId(geos, i)
  {
    Takes(geos, s, i, addr) && Sinks(geos, s, i, addr)
  }

  /** The hit a request makes: in the first cache that holds the block, if unlocked,
      after the latencies down to that cache. Only the first level sees a write. */
  ghost function HitFor(geos: seq<Geo>, s: Sys, i: int, addr: int, write: bool): seq<Timed>
    requires Fits(geos, s) && ValidId(geos, i)
  {
    var j := Holder(geos, s, i, Block(addr));
    if Arrives(geos, s, i, addr) && j != -1 && !LockedIn(geos, s, j, Block(addr))
    then [Timed(s.clk + [4, 4 + 12, 4 + 12 + 31][geos[j].level], Mem(addr, write && j == i))] else []
  }

  /** The fetch a request makes: a read of memory when no cache on the way has the block. */
  ghost function FetchFor(geos: seq<Geo>, s: Sys, i: int, addr: int): seq<Timed>
    requires Fits(geos, s) && ValidId(geos, i)
  {
    HigherUp(geos, Root(geos, i));
    if Arrives(geos, s, i, addr) && Holder(geos, s, i, Block(addr)) == -1
    then [Timed(s.clk + [4, 4 + 12, 4 + 12 + 31][geos[Root(geos, i)].level], Mem(addr, false))] else []
  }

  /** What a request for block b writes back: nothing, or one other block that had been
      written and has now left every cache over root r. */
  ghost predicate WroteBack(geos: seq<Geo>, s: Sys, t: Sys, r: int, b: int, ws: seq<Timed>)
    requires Fits(geos, t)
  {
    || (ws == [] && s.written - t.written == {})
    || (|ws| == 1 && ws[0].req.write && s.written - t.written == {(r, Block(ws[0].req.addr))}
        && Block(ws[0].req.addr) != b && GoneFrom(geos, t, r, Block(ws[0].req.addr)))
  }

  ghost predicate GoneFrom(geos: seq<Geo>, t: Sys, r: int, v: int)
    requires Fits(geos, t)
  {
    forall k :: ValidId(geos, k) && Under(geos, k, r) ==> !Has(geos, t, k, v)
  }

  /** wait_list gains what is written back, and then the fetch. */
  ghost predicate WaitGains(geos: seq<Geo>, s: Sys, t: Sys, i: int, b: int, fetch: seq<Timed>)
    requires Fits(geos, t) && ValidId(geos, i)
  {
    exists ws :: WroteBack(geos, s, t, Root(geos, i), b, ws) && t.wait == s.wait + ws + fetch
  }

  /** Where a request leaves its block: every cache it reaches has it now, the ones that
      did not have it as a locked line; the first level is dirty after a write; a copy
      that was hit is the youngest of its set. No other cache's copy changes. */
  ghost predicate Filled(geos: seq<Geo>, s: Sys, t: Sys, i: int, addr: int, write: bool)
    requires Fits(geos, s) && Fits(geos, t) && ValidId(geos, i)
  {
    forall k :: ValidId(geos, k) ==> FilledAt(geos, s, t, i, addr, write, k)
  }

  ghost predicate FilledAt(geos: seq<Geo>, s: Sys, t: Sys, i: int, addr: int, write: bool, k: int)
    requires Fits(geos, s) && Fits(geos, t) && ValidId(geos, i) && ValidId(geos, k)
  {
    var b := Block(addr);
    if Reaches(geos, s, i, k, b) then
      && Has(geos, t, k, b) && (LockedIn(geos, t, k, b) <==> Has(geos, s, k, b) ==> LockedIn(geos, s, k, b))
      && (DirtyIn(geos, t, k, b) <==> DirtyIn(geos, s, k, b) || (write && k == i))
      && (!LockedIn(geos, t, k, b) ==>
            Copy(geos, t, k, b).value.addr == addr && Copy(geos, t, k, b).value.node >= s.nodes)
    else Copy(geos, t, k, b) == Copy(geos, s, k, b)
  }

  /** The traffic of one request. */
  ghost predicate Answered(geos: seq<Geo>, s: Sys, t: Sys, i: int, addr: int, write: bool)
    requires Fits(geos, s) && Fits(geos, t) && ValidId(geos, i)
  {
    && t.hits == s.hits + HitFor(geos, s, i, addr, write) && t.clk == s.clk
    && WaitGains(geos, s, t, i, Block(addr), FetchFor(geos, s, i, addr))
    && (Arrives(geos, s, i, addr) ==> Filled(geos, s, t, i, addr, write))
  }

  // --------------------------------------------------------- a hit, a merge

  lemma HolderHere(geos: seq<Geo>, s: Sys, i: int, addr: int, write: bool)
    requires SetsGood(geos, s) && ValidId(geos, i) && Has(geos, s, i, Block(addr))
    ensures FetchFor(geos, s, i, addr) == [] && 0 <= geos[i].level <= 2
    ensures HitFor(geos, s, i, addr, write) == if LockedIn(geos, s, i, Block(addr)) then []
        else [Timed(s.clk + Latency(geos[i].level), Mem(addr, write))]
    ensures forall k :: Reaches(geos, s, i, k, Block(addr)) <==> k == i
  {
    HigherUp(geos, i);
    var p := FoundIsCopy(geos, s, i, addr);
  }

  /** One copy replaced, and nothing else. */
  lemma OneAnswered(geos: seq<Geo>, s: Sys, t: Sys, i: int, addr: int, write: bool, l: Line)
    requires ValidId(geos, i) && OneCopy(geos, s, t, i, Block(addr), Some(l)) && Has(geos, s, i, Block(addr))
    requires l.lock == LockedIn(geos, s, i, Block(addr)) && (l.dirty <==> DirtyIn(geos, s, i, Block(addr)) || write)
    requires l.lock || (l.addr == addr && l.node >= s.nodes)
    requires t.hits == s.hits + if l.lock then [] else [Timed(s.clk + Latency(geos[i].level), Mem(addr, write))]
    ensures Answered(geos, s, t, i, addr, write)
  {
    HolderHere(geos, s, i, addr, write);
    OneFilled(geos, s, t, i, addr, write, l);
    NoGain(geos, s, t, i, Block(addr));
    hide Fits, Filled, HitFor, FetchFor, WaitGains, Arrives, Has, Copy, LockedIn, DirtyIn;
  }

  lemma NoGain(geos: seq<Geo>, s: Sys, t: Sys, i: int, b: int)
    requires Fits(geos, t) && ValidId(geos, i) && t.wait == s.wait && t.written == s.written
    ensures WaitGains(geos, s, t, i, b, [])
  {
    assert s.written - t.written == {};
    assert WroteBack(geos, s, t, Root(geos, i), b, []);
    assert s.wait + [] + [] == s.wait;
  }

  lemma OneFilled(geos: seq<Geo>, s: Sys, t: Sys, i: int, addr: int, write: bool, l: Line)
    requires ValidId(geos, i) && OneCopy(geos, s, t, i, Block(addr), Some(l)) && Has(geos, s, i, Block(addr))
    requires l.lock == LockedIn(geos, s, i, Block(addr)) && (l.dirty <==> DirtyIn(geos, s, i, Block(addr)) || write)
    requires l.lock || (l.addr == addr && l.node >= s.nodes)
    requires forall k :: Reaches(geos, s, i, k, Block(addr)) <==> k == i
    ensures Filled(geos, s, t, i, addr, write)
  {
    forall k | ValidId(geos, k) ensures FilledAt(geos, s, t, i, addr, write, k) {
      hide Reaches, SetsOk, At;
    }
    hide FilledAt, Fits, OneCopy;
  }

  lemma HitAnswered(geos: seq<Geo>, s: Sys, i: int, addr: int, write: bool, p: nat)
    requires SetsGood(geos, s) && ValidId(geos, i)
    requires p == Find(SetOf(geos, s, i, addr), TagOf(geos, i, addr)) && p < |SetOf(geos, s, i, addr)|
    requires !SetOf(geos, s, i, addr)[p].lock
    ensures Answered(geos, s, Hit(geos, s, i, addr, write, p), i, addr, write)
  {
    hide SetsOk, Index, Tag, At, Find, Answered;
    var ls := SetOf(geos, s, i, addr);
    var q := FoundIsCopy(geos, s, i, addr);
    var l := Line(addr, TagOf(geos, i, addr), false, ls[p].dirty || write, s.nodes);
    var t := Hit(geos, s, i, addr, write, p);
    TouchEffect(geos, s, i, addr, p, l, t.hits);
    OneAnswered(geos, s, t, i, addr, write, l);
  }

  lemma MergeAnswered(geos: seq<Geo>, s: Sys, i: int, addr: int, write: bool, k: nat)
    requires SetsGood(geos, s) && MshrGood(geos, s) && ValidId(geos, i)
    requires k < |s.caches[i].mshr| && Block(s.caches[i].mshr[k].addr) == Block(addr)
    ensures Answered(geos, s, Merge(geos, s, i, s.caches[i].mshr[k], write), i, addr, write)
  {
    hide SetsOk, Index, Tag, At, Find, Answered;
    var e := s.caches[i].mshr[k];
    assert MshrOk(geos[i], s.caches[i]);
    assert Refers(geos[i], s.caches[i], e);
    var p := NodeIsCopy(geos, s, i, e.addr, e.node);
    var ls := SetOf(geos, s, i, e.addr);
    var l := ls[p].(dirty := write || ls[p].dirty);
    ReplaceEffect(geos, s, i, e.addr, p, l);
    var t := Merge(geos, s, i, e, write);
    assert t.hits == s.hits + [];
    OneAnswered(geos, s, t, i, addr, write, l);
  }

  lemma RefusedAnswered(geos: seq<Geo>, s: Sys, i: int, addr: int, write: bool)
    requires Fits(geos, s) && ValidId(geos, i) && !Takes(geos, s, i, addr)
    ensures Answered(geos, s, s, i, addr, write)
  {
    NoGain(geos, s, s, i, Block(addr));
    hide Takes, Filled, WaitGains, Fits;
  }

  // ------------------------------------------------------------------ a miss

  /** What allocate_line has done by the time the request goes on. */
  ghost predicate Made(geos: seq<Geo>, s: Sys, t: Sys, i: int, addr: int, write: bool)
    requires Fits(geos, s) && Fits(geos, t) && ValidId(geos, i)
  {
    var b := Block(addr);
    && Has(geos, t, i, b) && LockedIn(geos, t, i, b) && (DirtyIn(geos, t, i, b) <==> write)
    && (forall k :: ValidId(geos, k) && k != i ==> Copy(geos, t, k, b) == Copy(geos, s, k, b))
    && t.hits == s.hits && t.clk == s.clk && s.nodes <= t.nodes
    && (geos[i].lower != -1 ==> t.wait == s.wait && t.written == s.written)
    && (geos[i].lower == -1 ==> WaitGains(geos, s, t, i, b, []))
  }

  lemma AllocateMade(geos: seq<Geo>, s: Sys, i: int, addr: int, write: bool, extra: set<(int, int)>)
    requires Sendable(geos, s, i, Block(addr), extra) && !Has(geos, s, i, Block(addr)) && HasRoom(geos, s, i, addr)
    requires |s.caches[i].mshr| < geos[i].mshrMax
    ensures Made(geos, s, Allocate(geos, s, i, addr, write).0, i, addr, write)
  {
    assert ValidId(geos, i) && Fits(geos, s) && Ledger(geos, s, extra) && forall e :: e in extra ==> e.1 == Block(addr);
    hide *;
    var l := AllocateExact(geos, s, i, addr, write, extra);
    var t := Allocate(geos, s, i, addr, write).0;
    if |SetOf(geos, s, i, addr)| < geos[i].assoc {
      UntouchedMade(geos, s, t, i, addr, write);
    } else {
      ReplacedMade(geos, s, t, i, addr, write, l, extra);
    }
  }

  lemma UntouchedMade(geos: seq<Geo>, s: Sys, t: Sys, i: int, addr: int, write: bool)
    requires Fits(geos, s) && Fits(geos, t) && ValidId(geos, i) && Untouched(geos, s, t, i, Block(addr))
    requires Has(geos, t, i, Block(addr)) && LockedIn(geos, t, i, Block(addr)) && s.nodes <= t.nodes
    requires DirtyIn(geos, t, i, Block(addr)) == write
    ensures Made(geos, s, t, i, addr, write)
  {
    NoGain(geos, s, t, i, Block(addr));
    hide Has, LockedIn, DirtyIn, Copy, WaitGains;
  }

  lemma ReplacedMade(geos: seq<Geo>, s: Sys, t: Sys, i: int, addr: int, write: bool, l: Line, extra: set<(int, int)>)
    requires Fits(geos, s) && Fits(geos, t) && ValidId(geos, i) && Replaced(geos, s, t, i, Block(addr), l)
    requires Has(geos, t, i, Block(addr)) && LockedIn(geos, t, i, Block(addr)) && s.nodes <= t.nodes
    requires DirtyIn(geos, t, i, Block(addr)) == write
    requires Ledger(geos, s, extra) && forall e :: e in extra ==> e.1 == Block(addr)
    ensures Made(geos, s, t, i, addr, write)
  {
    HigherUp(geos, i);
    if geos[i].lower == -1 { ReplacedGains(geos, s, t, i, Block(addr), l, extra); }
    hide Has, LockedIn, DirtyIn, Copy, WaitGains, DirtyAbove, VictimTime, Under;
  }

  lemma ReplacedGains(geos: seq<Geo>, s: Sys, t: Sys, i: int, b: int, l: Line, extra: set<(int, int)>)
    requires Fits(geos, s) && Fits(geos, t) && ValidId(geos, i) && Replaced(geos, s, t, i, b, l)
    requires geos[i].lower == -1 && Ledger(geos, s, extra) && forall e :: e in extra ==> e.1 == b
    ensures WaitGains(geos, s, t, i, b, [])
  {
    HigherUp(geos, i);
    var v := Block(l.addr);
    LedgerAt(geos, s, extra, i, v);
    assert Root(geos, i) == i;
    hide Copy, DirtyAbove, Under, VictimTime, Ledger;
    var ws := t.wait[|s.wait|..];
    assert t.wait == s.wait + ws + [];
    assert GoneFrom(geos, t, i, v);
    assert WroteBack(geos, s, t, i, b, ws);
  }

  /** Below cache i nothing about block b has changed. */
  lemma HolderFrame(geos: seq<Geo>, s: Sys, t: Sys, i: int, j: int, b: int)
    requires Fits(geos, s) && Fits(geos, t) && ValidId(geos, i) && ValidId(geos, j) && Under(geos, i, j) && i != j
    requires forall k :: ValidId(geos, k) && k != i ==> Copy(geos, t, k, b) == Copy(geos, s, k, b)
    ensures Holder(geos, t, j, b) == Holder(geos, s, j, b) != i
    ensures forall k :: Reaches(geos, t, j, k, b) <==> Reaches(geos, s, j, k, b)
    ensures !Reaches(geos, s, j, i, b)
    decreases 2 - geos[j].level
  {
    HigherUp(geos, j);
    UnderLevel(geos, i, j);
    assert Has(geos, t, j, b) == Has(geos, s, j, b);
    if geos[j].lower != -1 {
      assert Under(geos, j, geos[j].lower);
      UnderTrans(geos, i, j, geos[j].lower);
      UnderLevel(geos, i, geos[j].lower);
      HolderFrame(geos, s, t, i, geos[j].lower, b);
    }
  }

  /** A miss leaves the answer to the level below. */
  lemma TrafficBelow(geos: seq<Geo>, s: Sys, s1: Sys, i: int, addr: int, write: bool)
    requires Fits(geos, s) && Fits(geos, s1) && ValidId(geos, i) && Made(geos, s, s1, i, addr, write)
    requires !Has(geos, s, i, Block(addr)) && ValidId(geos, geos[i].lower) && Takes(geos, s, i, addr)
    requires Sinks(geos, s, i, addr)
        <==> Takes(geos, s, geos[i].lower, addr) && Sinks(geos, s, geos[i].lower, addr)
    requires Takes(geos, s1, geos[i].lower, addr) <==> Takes(geos, s, geos[i].lower, addr)
    requires Sinks(geos, s1, geos[i].lower, addr) <==> Sinks(geos, s, geos[i].lower, addr)
    ensures Arrives(geos, s1, geos[i].lower, addr) <==> Arrives(geos, s, i, addr)
    ensures HitFor(geos, s1, geos[i].lower, addr, false) == HitFor(geos, s, i, addr, write)
    ensures FetchFor(geos, s1, geos[i].lower, addr) == FetchFor(geos, s, i, addr)
    ensures Root(geos, geos[i].lower) == Root(geos, i)
  {
    HigherUp(geos, i);
    AboveLower(geos, i);
    var low := geos[i].lower;
    HolderFrame(geos, s, s1, i, low, Block(addr));
    assert Holder(geos, s, i, Block(addr)) == Holder(geos, s, low, Block(addr));
    var j := Holder(geos, s, low, Block(addr));
    assert s1.clk == s.clk && (j != -1 ==> Copy(geos, s1, j, Block(addr)) == Copy(geos, s, j, Block(addr)));
    hide *;
    SameTraffic(geos, s, s1, i, low, addr, write);
  }

  lemma SameTraffic(geos: seq<Geo>, s: Sys, s1: Sys, i: int, low: int, addr: int, write: bool)
    requires Fits(geos, s) && Fits(geos, s1) && ValidId(geos, i) && ValidId(geos, low) && s1.clk == s.clk
    requires Root(geos, low) == Root(geos, i)
    requires Holder(geos, s1, low, Block(addr)) == Holder(geos, s, i, Block(addr)) != i
    requires Takes(geos, s, i, addr) && (Sinks(geos, s, i, addr)
        <==> Takes(geos, s1, low, addr) && Sinks(geos, s1, low, addr))
    requires var j := Holder(geos, s, i, Block(addr));
        j != -1 ==> Copy(geos, s1, j, Block(addr)) == Copy(geos, s, j, Block(addr))
    ensures Arrives(geos, s1, low, addr) <==> Arrives(geos, s, i, addr)
    ensures HitFor(geos, s1, low, addr, false) == HitFor(geos, s, i, addr, write)
    ensures FetchFor(geos, s1, low, addr) == FetchFor(geos, s, i, addr)
  {
    hide Takes, Sinks, Copy, Fits, Holder;
  }

  lemma FilledBelow(geos: seq<Geo>, s: Sys, s1: Sys, t: Sys, i: int, addr: int, write: bool)
    requires Fits(geos, s) && Fits(geos, s1) && Fits(geos, t) && ValidId(geos, i) && Made(geos, s, s1, i, addr, write)
    requires !Has(geos, s, i, Block(addr)) && ValidId(geos, geos[i].lower)
    requires Filled(geos, s1, t, geos[i].lower, addr, false)
    ensures Filled(geos, s, t, i, addr, write)
  {
    HigherUp(geos, i);
    AboveLower(geos, i);
    HolderFrame(geos, s, s1, i, geos[i].lower, Block(addr));
    forall k | ValidId(geos, k) ensures FilledAt(geos, s, t, i, addr, write, k) {
      assert Reaches(geos, s, i, k, Block(addr)) <==> k == i || Reaches(geos, s, geos[i].lower, k, Block(addr));
      assert FilledAt(geos, s1, t, geos[i].lower, addr, false, k);
      BlockSame(geos, s, s1, t, i, addr, k);
      hide Reaches, Has, LockedIn, DirtyIn, Copy, Fits;
    }
  }

  lemma BlockSame(geos: seq<Geo>, s: Sys, s1: Sys, t: Sys, i: int, addr: int, k: int)
    requires Fits(geos, s) && Fits(geos, s1) && Fits(geos, t) && ValidId(geos, i) && ValidId(geos, k)
    requires k != i ==> Copy(geos, s1, k, Block(addr)) == Copy(geos, s, k, Block(addr))
    ensures k != i ==> Has(geos, s1, k, Block(addr)) == Has(geos, s, k, Block(addr))
    ensures k != i ==> LockedIn(geos, s1, k, Block(addr)) == LockedIn(geos, s, k, Block(addr))
    ensures k != i ==> DirtyIn(geos, s1, k, Block(addr)) == DirtyIn(geos, s, k, Block(addr))
    ensures Copy(geos, t, k, Block(addr)) == Copy(geos, s1, k, Block(addr)) ==>
      && Has(geos, t, k, Block(addr)) == Has(geos, s1, k, Block(addr))
      && LockedIn(geos, t, k, Block(addr)) == LockedIn(geos, s1, k, Block(addr))
      && DirtyIn(geos, t, k, Block(addr)) == DirtyIn(geos, s1, k, Block(addr))
    ensures Has(geos, s, k, Block(addr)) || !DirtyIn(geos, s, k, Block(addr))
  {
    hide Copy;
  }

  lemma GainsBelow(geos: seq<Geo>, s: Sys, s1: Sys, t: Sys, i: int, low: int, b: int, fetch: seq<Timed>)
    requires Fits(geos, t) && ValidId(geos, i) && ValidId(geos, low) && Root(geos, low) == Root(geos, i)
    requires WaitGains(geos, s1, t, low, b, fetch) && s1.wait == s.wait && s1.written == s.written
    ensures WaitGains(geos, s, t, i, b, fetch)
  {
    var ws :| WroteBack(geos, s1, t, Root(geos, low), b, ws) && t.wait == s1.wait + ws + fetch;
    assert WroteBack(geos, s, t, Root(geos, i), b, ws);
  }

  lemma AnsweredBelow(geos: seq<Geo>, s: Sys, s1: Sys, t: Sys, i: int, addr: int, write: bool)
    requires Fits(geos, s) && Fits(geos, s1) && Fits(geos, t) && ValidId(geos, i) && Made(geos, s, s1, i, addr, write)
    requires !Has(geos, s, i, Block(addr)) && ValidId(geos, geos[i].lower) && Takes(geos, s, i, addr)
    requires Sinks(geos, s, i, addr)
        <==> Takes(geos, s, geos[i].lower, addr) && Sinks(geos, s, geos[i].lower, addr)
    requires Takes(geos, s1, geos[i].lower, addr) <==> Takes(geos, s, geos[i].lower, addr)
    requires Sinks(geos, s1, geos[i].lower, addr) <==> Sinks(geos, s, geos[i].lower, addr)
    requires Answered(geos, s1, t, geos[i].lower, addr, false)
    ensures Answered(geos, s, t, i, addr, write)
  {
    TrafficBelow(geos, s, s1, i, addr, write);
    GainsBelow(geos, s, s1, t, i, geos[i].lower, Block(addr), FetchFor(geos, s, i, addr));
    hide Takes, Sinks, Copy, Has, LockedIn, DirtyIn, Under, Fits, Filled, WaitGains, HitFor, FetchFor, Arrives;
    if Arrives(geos, s, i, addr) { FilledBelow(geos, s, s1, t, i, addr, write); }
  }

  /** What a request leaves behind does not depend on the bookkeeping of the block itself. */
  lemma SameAnswered(geos: seq<Geo>, s: Sys, t: Sys, u: Sys, i: int, addr: int, write: bool)
    requires Fits(geos, s) && Fits(geos, t) && ValidId(geos, i) && Answered(geos, s, t, i, addr, write)
    requires u.caches == t.caches && u.wait == t.wait && u.hits == t.hits && u.clk == t.clk && u.written >= t.written
    requires forall e :: e in u.written - t.written ==> e.1 == Block(addr)
    ensures Fits(geos, u) && Answered(geos, s, u, i, addr, write)
  {
    SameGains(geos, s, t, u, i, Block(addr), FetchFor(geos, s, i, addr));
    if Arrives(geos, s, i, addr) { SameFilled(geos, s, t, u, i, addr, write); }
    hide Filled, WaitGains, HitFor, FetchFor, Arrives, Topo;
  }

  lemma SameFilled(geos: seq<Geo>, s: Sys, t: Sys, u: Sys, i: int, addr: int, write: bool)
    requires Fits(geos, s) && Fits(geos, t) && Fits(geos, u) && ValidId(geos, i)
    requires Filled(geos, s, t, i, addr, write) && u.caches == t.caches
    ensures Filled(geos, s, u, i, addr, write)
  {
    forall k | ValidId(geos, k) ensures FilledAt(geos, s, u, i, addr, write, k) {
      assert FilledAt(geos, s, t, i, addr, write, k);
      assert Copy(geos, u, k, Block(addr)) == Copy(geos, t, k, Block(addr));
      hide Copy, Reaches, Fits;
    }
  }

  lemma SameGains(geos: seq<Geo>, s: Sys, t: Sys, u: Sys, i: int, b: int, fetch: seq<Timed>)
    requires Fits(geos, t) && Fits(geos, u) && ValidId(geos, i) && WaitGains(geos, s, t, i, b, fetch)
    requires u.caches == t.caches && u.wait == t.wait && u.written >= t.written
    requires forall e :: e in u.written - t.written ==> e.1 == b
    ensures WaitGains(geos, s, u, i, b, fetch)
  {
    var r := Root(geos, i);
    var ws: seq<Timed> :| WroteBack(geos, s, t, r, b, ws) && t.wait == s.wait + ws + fetch;
    if ws != [] {
      var v := Block(ws[0].req.addr);
      assert (r, v) in s.written - t.written;
      assert s.written - u.written == {(r, v)};
      assert forall k :: ValidId(geos, k) ==> Copy(geos, u, k, v) == Copy(geos, t, k, v);
      hide Copy, Under;
      assert GoneFrom(geos, u, r, v);
    } else {
      assert s.written - u.written == {};
    }
    assert WroteBack(geos, s, u, r, b, ws);
  }

  lemma RootAnswered(geos: seq<Geo>, s: Sys, s1: Sys, t: Sys, i: int, addr: int, write: bool)
    requires SetsGood(geos, s) && Fits(geos, s1) && ValidId(geos, i) && Made(geos, s, s1, i, addr, write)
    requires geos[i].lower == -1 && !Has(geos, s, i, Block(addr)) && Takes(geos, s, i, addr)
    requires Fits(geos, t) && t == s1.(wait := s1.wait + [Timed(s1.clk + Latency(geos[i].level), Mem(addr, false))])
    ensures Answered(geos, s, t, i, addr, write)
  {
    HigherUp(geos, i);
    var b := Block(addr);
    var fetch := [Timed(s.clk + Latency(geos[i].level), Mem(addr, false))];
    RootGains(geos, s, s1, t, i, b, fetch);
    RootTraffic(geos, s, i, addr, write);
    RootLeaves(geos, s, s1, t, i, addr, write);
    hide Holder, Takes, Sinks, Filled, WaitGains, HitFor, FetchFor, Arrives, Topo, Copy;
  }

  lemma RootTraffic(geos: seq<Geo>, s: Sys, i: int, addr: int, write: bool)
    requires Fits(geos, s) && ValidId(geos, i) && geos[i].lower == -1 && !Has(geos, s, i, Block(addr))
    requires Takes(geos, s, i, addr)
    ensures HitFor(geos, s, i, addr, write) == []
    ensures FetchFor(geos, s, i, addr) == [Timed(s.clk + Latency(geos[i].level), Mem(addr, false))]
  {
    HigherUp(geos, i);
    hide Takes, Has;
  }

  lemma RootGains(geos: seq<Geo>, s: Sys, s1: Sys, t: Sys, i: int, b: int, fetch: seq<Timed>)
    requires Fits(geos, s1) && Fits(geos, t) && ValidId(geos, i) && WaitGains(geos, s, s1, i, b, [])
    requires t == s1.(wait := s1.wait + fetch)
    ensures WaitGains(geos, s, t, i, b, fetch)
  {
    var ws :| WroteBack(geos, s, s1, Root(geos, i), b, ws) && s1.wait == s.wait + ws + [];
    assert forall k, v :: ValidId(geos, k) ==> Copy(geos, t, k, v) == Copy(geos, s1, k, v);
    hide Copy, Under, Topo;
    assert WroteBack(geos, s, t, Root(geos, i), b, ws);
    assert t.wait == s.wait + ws + fetch;
  }

  lemma RootLeaves(geos: seq<Geo>, s: Sys, s1: Sys, t: Sys, i: int, addr: int, write: bool)
    requires Fits(geos, s) && Fits(geos, s1) && Fits(geos, t) && ValidId(geos, i) && Made(geos, s, s1, i, addr, write)
    requires geos[i].lower == -1 && !Has(geos, s, i, Block(addr)) && t.caches == s1.caches
    ensures Filled(geos, s, t, i, addr, write)
  {
    HigherUp(geos, i);
    forall k | ValidId(geos, k) ensures FilledAt(geos, s, t, i, addr, write, k) {
      assert Copy(geos, t, k, Block(addr)) == Copy(geos, s1, k, Block(addr));
      hide At, Fits;
    }
  }

  lemma PassAnswered(geos: seq<Geo>, s: Sys, s1: Sys, i: int, addr: int, write: bool, extra: set<(int, int)>)
    requires Fits(geos, s) && ValidId(geos, i) && SetsGood(geos, s1) && MshrGood(geos, s1) && s1.ok && !s1.refused
    requires Hole(geos, s1, geos[i].lower, Block(addr)) && Made(geos, s, s1, i, addr, write)
    requires Ledger(geos, s1, extra) && forall e :: e in extra ==> e.1 == Block(addr)
    requires Missed(geos, s, i, addr) && Allocate(geos, s, i, addr, write) == (s1, true)
    requires SetsGood(geos, s) && Settled(geos, s, s1, i, Block(addr)) && !Has(geos, s, i, Block(addr))
    requires IncludedBut(geos, s, Block(addr)) && Takes(geos, s, i, addr)
    ensures Answered(geos, s, Send(geos, s, i, addr, write).0, i, addr, write)
    decreases 2 - geos[i].level, 0
  {
    MissUnfold(geos, s, s1, i, addr, write);
    SinksUnfold(geos, s, i, addr);
    var low := geos[i].lower;
    if low == -1 {
      hide *;
      RootAnswered(geos, s, s1, Send(geos, s, i, addr, write).0, i, addr, write);
    } else {
      assert IncludedBut(geos, s1, Block(addr)) && Sendable(geos, s1, low, Block(addr), extra);
      HigherUp(geos, i);
      hide *;
      SendAnswered(geos, s1, low, addr, false, extra);
      AboveLower(geos, i);
      SinksStable(geos, s, s1, i, low, addr);
      var (s2, taken) := Send(geos, s1, low, addr, false);
      AnsweredBelow(geos, s, s1, s2, i, addr, write);
      SameAnswered(geos, s, s2, s2.(refused := s2.refused || !taken), i, addr, write);
    }
  }

  lemma MissAnswered(geos: seq<Geo>, s: Sys, i: int, addr: int, write: bool, extra: set<(int, int)>)
    requires Sendable(geos, s, i, Block(addr), extra) && !Has(geos, s, i, Block(addr))
    requires HitMshr(s.caches[i].mshr, addr) == |s.caches[i].mshr| < geos[i].mshrMax
    requires !AllLocked(geos[i], SetOf(geos, s, i, addr))
    ensures Answered(geos, s, Send(geos, s, i, addr, write).0, i, addr, write)
    decreases 2 - geos[i].level, 1
  {
    hide *;
    MissReady(geos, s, i, addr, extra, write);
    TakesUnfold(geos, s, i, addr);
    if HasRoom(geos, s, i, addr) {
      var s1 := RoomFor(geos, s, i, addr, write, extra);
      AllocateMade(geos, s, i, addr, write, extra);
      PassAnswered(geos, s, s1, i, addr, write, extra + Wrote(geos, i, Block(addr), write));
    } else {
      NoRoom(geos, s, i, addr, write);
      RefusedAnswered(geos, s, i, addr, write);
    }
  }

  /** Every request, on any level and however the levels below answer, makes exactly the
      hit, the fetch and the write-back that can be told from the state before it. */
  lemma {:induction false} SendAnswered(geos: seq<Geo>, s: Sys, i: int, addr: int, write: bool, extra: set<(int, int)>)
    requires Sendable(geos, s, i, Block(addr), extra)
    ensures Answered(geos, s, Send(geos, s, i, addr, write).0, i, addr, write)
    decreases 2 - geos[i].level, 2
  {
    hide Hole, Ledger, Answered, Inclusive, SetsOk, Index, Tag, At, Refers;
    HigherUp(geos, i);
    var ls := SetOf(geos, s, i, addr);
    var p := FoundIsCopy(geos, s, i, addr);
    var mshr := s.caches[i].mshr;
    var k := HitMshr(mshr, addr);
    assert MshrOk(geos[i], s.caches[i]);
    if p < |ls| && !ls[p].lock {
      HitAnswered(geos, s, i, addr, write, p);
    } else if k < |mshr| {
      MergeAnswered(geos, s, i, addr, write, k);
    } else {
      TrulyAbsent(geos, s, i, addr);
      SizeBound(geos, s, i, addr);
      if |mshr| < geos[i].mshrMax && !AllLocked(geos[i], ls) {
        MissAnswered(geos, s, i, addr, write, extra);
      } else {
        RefusedAnswered(geos, s, i, addr, write);
      }
    }
  }

  /** The same of a request from a core. */
  lemma AccessAnswered(geos: seq<Geo>, s: Sys, i: int, addr: int, write: bool)
    requires Inv(geos, s) && !s.refused && ValidId(geos, i)
    ensures Answered(geos, s, Access(geos, s, i, addr, write).0, i, addr, write)
  {
    hide *;
    InvSendable(geos, s, i, Block(addr));
    SendAnswered(geos, s, i, addr, write, {});
    AccessUnfold(geos, s, i, addr, write);
    SameAnswered(geos, s, Send(geos, s, i, addr, write).0, Access(geos, s, i, addr, write).0, i, addr, write);
  }

  lemma AccessUnfold(geos: seq<Geo>, s: Sys, i: int, addr: int, write: bool)
    requires Inv(geos, s) && ValidId(geos, i)
    ensures Fits(geos, s)
    ensures var t := Send(geos, s, i, addr, write).0; var u := Access(geos, s, i, addr, write).0;
      && u.caches == t.caches && u.wait == t.wait && u.hits == t.hits && u.clk == t.clk && u.written >= t.written
      && forall e :: e in u.written - t.written ==> e.1 == Block(addr)
  {
    hide Send, SetsOk, MshrGood, Inclusive, Ledger;
  }

  /** With inclusion, a block that no cache on the way holds is one that the last level
      does not hold. */
  lemma HolderOfRoot(geos: seq<Geo>, s: Sys, i: int, b: int)
    requires Fits(geos, s) && ValidId(geos, i) && Inclusive(geos, s)
    ensures Holder(geos, s, i, b) == -1 <==> !Has(geos, s, Root(geos, i), b)
    decreases 2 - geos[i].level
  {
    HigherUp(geos, i);
    assert Included(geos, s, i, b);
    if geos[i].lower != -1 { HolderOfRoot(geos, s, geos[i].lower, b); }
  }

  /** A fetch is made exactly when the last level did not have the block of a request
      that gets there; it has it afterwards. */
  lemma FetchIsMiss(geos: seq<Geo>, s: Sys, i: int, addr: int, write: bool)
    requires Inv(geos, s) && !s.refused && ValidId(geos, i)
    ensures FetchFor(geos, s, i, addr) != []
        <==> Arrives(geos, s, i, addr) && !Has(geos, s, Root(geos, i), Block(addr))
    ensures Arrives(geos, s, i, addr) ==> Has(geos, Access(geos, s, i, addr, write).0, Root(geos, i), Block(addr))
  {
    var b, r := Block(addr), Root(geos, i);
    var t := Access(geos, s, i, addr, write).0;
    HolderOfRoot(geos, s, i, b);
    AccessAnswered(geos, s, i, addr, write);
    if Arrives(geos, s, i, addr) {
      assert FilledAt(geos, s, t, i, addr, write, r);
      if !Has(geos, s, r, b) { ReachesRoot(geos, s, i, b); }
    }
    hide Access, Takes, Sinks, Inclusive, MshrGood, SetsGood, Ledger, Reaches, Holder;
  }

  lemma ReachesRoot(geos: seq<Geo>, s: Sys, i: int, b: int)
    requires Fits(geos, s) && ValidId(geos, i) && Holder(geos, s, i, b) == -1
    ensures Reaches(geos, s, i, Root(geos, i), b)
    decreases 2 - geos[i].level
  {
    HigherUp(geos, i);
    if geos[i].lower != -1 { ReachesRoot(geos, s, geos[i].lower, b); }
  }
}
