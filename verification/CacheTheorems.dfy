/** What holds over every run of the cache hierarchy. */
module CacheTheorems {
  import opened CacheLines
  import opened CacheTree
  import opened CacheCopies
  import opened CacheEviction
  import opened CacheInvariant
  import opened CacheAcceptance
  import opened CacheSend
  import opened CacheRuns

  /** A request from a core, a reply from memory that reaches a last-level cache, or a
      clock tick; `takes` is what memory answers, entry by entry. */
  datatype Event = Request(i: int, addr: int, write: bool) | Reply(r: int, addr: int) | Clock(takes: nat -> bool)

  predicate EventOk(geos: seq<Geo>, e: Event) {
    match e
    case Request(i, _, _) => ValidId(geos, i)
    case Reply(r, _) => IsRoot(geos, r)
    case Clock(_) => true
  }

  function Ticked(s: Sys, takes: nat -> bool): Sys {
    s.(clk := s.clk + 1, wait := Drain(s.wait, s.clk + 1, takes, 0).0, hits := Remaining(s.hits, s.clk + 1))
  }

  function Step(geos: seq<Geo>, s: Sys, e: Event): (t: Sys)
    requires Fits(geos, s) && EventOk(geos, e)
    ensures Fits(geos, t)
  {
    match e
    case Request(i, addr, write) => Access(geos, s, i, addr, write).0
    case Reply(r, addr) => Callback(geos, s, r, addr)
    case Clock(takes) => Ticked(s, takes)
  }

  function Fresh(geos: seq<Geo>): Sys {
    Sys(seq(|geos|, _ => Cache(map[], [])), [], [], 0, 0, true, false, {})
  }

  ghost predicate Run(geos: seq<Geo>, trace: seq<Sys>, events: seq<Event>) {
    && Topo(geos) && |trace| == |events| + 1 && trace[0] == Fresh(geos)
    && forall n :: 0 <= n < |events| ==>
         Fits(geos, trace[n]) && EventOk(geos, events[n]) && trace[n + 1] == Step(geos, trace[n], events[n])
  }

  /** No request is taken by one level and refused further down. */
  ghost predicate Calm(geos: seq<Geo>, s: Sys, e: Event)
    requires Fits(geos, s) && EventOk(geos, e)
  {
    e.Request? && Takes(geos, s, e.i, e.addr) ==> Sinks(geos, s, e.i, e.addr)
  }

  lemma FreshInv(geos: seq<Geo>)
    requires Topo(geos)
    ensures Inv(geos, Fresh(geos))
  {
    var s := Fresh(geos);
    forall i | ValidId(geos, i) ensures GeoOk(geos[i]) && SetsOk(geos[i], s.caches[i], 0) { HigherUp(geos, i); }
    forall i, b | ValidId(geos, i) ensures Copy(geos, s, i, b) == None && At(geos[i], s.caches[i], b) == None {}
    forall i | ValidId(geos, i) ensures MshrOk(geos[i], s.caches[i]) {}
  }

  /** Calm events keep every invariant, and no other request does. */
  lemma StepInv(geos: seq<Geo>, s: Sys, e: Event)
    requires Inv(geos, s) && !s.refused && EventOk(geos, e)
    ensures Inv(geos, Step(geos, s, e)) <==> Calm(geos, s, e)
    ensures Calm(geos, s, e) ==> !Step(geos, s, e).refused
    ensures !e.Clock? ==> Flushed(s, Step(geos, s, e))
  {
    hide Inclusive, Ledger, MshrGood, SetsGood, Takes, Sinks, Access, Callback, Drain, Remaining;
    match e {
      case Request(i, addr, write) => AccessExact(geos, s, i, addr, write);
      case Reply(r, addr) => CallbackInv(geos, s, r, addr);
      case Clock(takes) => InvCaches(geos, s, Ticked(s, takes));
    }
  }

  lemma InvCaches(geos: seq<Geo>, s: Sys, t: Sys)
    requires Inv(geos, s) && t.caches == s.caches && t.nodes == s.nodes && t.written == s.written && t.ok == s.ok
    ensures Inv(geos, t)
  {
    SameCaches(geos, s, t, {});
  }

  /** Inclusion, the MSHR correspondence, the dirty ledger and `ok` hold in every state
      of a run in which no lower level refuses: no assert ever fails and no iterator to
      an erased line is ever followed. */
  lemma {:induction false} RunInv(geos: seq<Geo>, trace: seq<Sys>, events: seq<Event>, n: nat)
    requires Run(geos, trace, events) && n < |trace|
    requires forall m :: 0 <= m < n ==> Calm(geos, trace[m], events[m])
    ensures Inv(geos, trace[n]) && !trace[n].refused
    decreases n
  {
    hide Inv, Calm, Step;
    if n == 0 {
      FreshInv(geos);
    } else {
      RunInv(geos, trace, events, n - 1);
      StepInv(geos, trace[n - 1], events[n - 1]);
    }
  }

  /** With one level there is nothing below to refuse, and the invariants need no guard. */
  lemma SingleLevelRun(geos: seq<Geo>, trace: seq<Sys>, events: seq<Event>, n: nat)
    requires Run(geos, trace, events) && n < |trace| && forall i :: ValidId(geos, i) ==> geos[i].lower == -1
    ensures Inv(geos, trace[n])
  {
    forall m | 0 <= m < n ensures Calm(geos, trace[m], events[m]) {
      assert Fits(geos, trace[m]);
    }
    RunInv(geos, trace, events, n);
  }

  // ------------------------------------------------- the invariants spelled out

  /** In every reachable state: at most `assoc` lines to a set, with distinct tags, the
      one touched the longest ago first. */
  lemma RunSets(geos: seq<Geo>, trace: seq<Sys>, events: seq<Event>, n: nat, i: int, idx: int)
    requires Run(geos, trace, events) && n < |trace| && ValidId(geos, i)
    requires forall m :: 0 <= m < n ==> Calm(geos, trace[m], events[m])
    ensures Fits(geos, trace[n])
    ensures var ls := Lines(trace[n].caches[i], idx);
      && |ls| <= geos[i].assoc && forall p, q :: 0 <= p < q < |ls| ==> ls[p].tag != ls[q].tag && ls[p].node < ls[q].node
  {
    RunInv(geos, trace, events, n);
    var c := trace[n].caches[i];
    assert SetsOk(geos[i], c, trace[n].nodes);
    assert idx in c.sets ==> SetOk(geos[i], c.sets[idx], idx, trace[n].nodes);
  }

  /** In every reachable state: a line is locked exactly when one MSHR entry refers to
      it, and every entry refers to a locked line that is still in the cache. */
  lemma RunMshr(geos: seq<Geo>, trace: seq<Sys>, events: seq<Event>, n: nat, i: int)
    requires Run(geos, trace, events) && n < |trace| && ValidId(geos, i)
    requires forall m :: 0 <= m < n ==> Calm(geos, trace[m], events[m])
    ensures Fits(geos, trace[n]) && |trace[n].caches[i].mshr| <= geos[i].mshrMax
    ensures var mshr := trace[n].caches[i].mshr;
      && (forall b :: LockedIn(geos, trace[n], i, b) <==> exists k :: 0 <= k < |mshr| && Block(mshr[k].addr) == b)
      && (forall k, l :: 0 <= k < l < |mshr| ==> Block(mshr[k].addr) != Block(mshr[l].addr))
      && (forall k :: 0 <= k < |mshr| ==>
            Has(geos, trace[n], i, Block(mshr[k].addr))
              && Copy(geos, trace[n], i, Block(mshr[k].addr)).value.node == mshr[k].node)
  {
    RunInv(geos, trace, events, n);
    var s := trace[n];
    var mshr := s.caches[i].mshr;
    assert MshrOk(geos[i], s.caches[i]);
    forall k | 0 <= k < |mshr|
      ensures LockedIn(geos, s, i, Block(mshr[k].addr))
          && Copy(geos, s, i, Block(mshr[k].addr)).value.node == mshr[k].node
    {
      assert Refers(geos[i], s.caches[i], mshr[k]);
    }
    forall b ensures LockedIn(geos, s, i, b) == Locked(geos[i], s.caches[i], b) {}
    hide At, Copy;
  }

  /** In every reachable state: a block in a cache is in the cache below, and unlocked
      there if it is unlocked here. */
  lemma RunInclusion(geos: seq<Geo>, trace: seq<Sys>, events: seq<Event>, n: nat, i: int, b: int)
    requires Run(geos, trace, events) && n < |trace| && ValidId(geos, i) && geos[i].lower != -1
    requires forall m :: 0 <= m < n ==> Calm(geos, trace[m], events[m])
    ensures Fits(geos, trace[n]) && ValidId(geos, geos[i].lower)
    ensures Has(geos, trace[n], i, b) ==> Has(geos, trace[n], geos[i].lower, b)
    ensures Has(geos, trace[n], i, b) && !LockedIn(geos, trace[n], i, b) ==> !LockedIn(geos, trace[n], geos[i].lower, b)
  {
    RunInv(geos, trace, events, n);
    HigherUp(geos, i);
    assert Included(geos, trace[n], i, b);
  }

  // ------------------------------------------------------- no dirty data lost

  /** The wait_list entries that memory takes in one tick. */
  function Gone(wait: seq<Timed>, clk: int, takes: nat -> bool, k: nat): seq<Timed> {
    if wait == [] || clk < wait[0].at then []
    else if takes(k) then [wait[0]] + Gone(wait[1..], clk, takes, k + 1)
    else Gone(wait[1..], clk, takes, k + 1)
  }

  function Reqs(wait: seq<Timed>): seq<Mem> { if wait == [] then [] else [wait[0].req] + Reqs(wait[1..]) }

  /** What memory takes is sent in order; the rest stays, and nothing else joins. */
  lemma {:induction false} DrainConserves(wait: seq<Timed>, clk: int, takes: nat -> bool, k: nat)
    ensures Drain(wait, clk, takes, k).1 == Reqs(Gone(wait, clk, takes, k))
    ensures multiset(wait) == multiset(Drain(wait, clk, takes, k).0) + multiset(Gone(wait, clk, takes, k))
  {
    if wait != [] && clk >= wait[0].at {
      DrainConserves(wait[1..], clk, takes, k + 1);
      var gone := Gone(wait[1..], clk, takes, k + 1);
      assert wait == [wait[0]] + wait[1..];
      assert ([wait[0]] + gone)[1..] == gone;
    }
  }

  /** Memory takes nothing before its clock, and nothing it refuses. */
  lemma {:induction false} DrainReady(wait: seq<Timed>, clk: int, takes: nat -> bool, k: nat, x: nat)
    requires x < |Drain(wait, clk, takes, k).1|
    ensures exists y: nat ::
        y < |wait| && wait[y].req == Drain(wait, clk, takes, k).1[x] && wait[y].at <= clk && takes(k + y)
  {
    var (rest, sent) := Drain(wait[1..], clk, takes, k + 1);
    if takes(k) && x == 0 {
      assert wait[0].req == Drain(wait, clk, takes, k).1[0] && takes(k + 0);
    } else {
      var x' := if takes(k) then x - 1 else x;
      DrainReady(wait[1..], clk, takes, k + 1, x');
      var y: nat :| y < |wait[1..]| && wait[1..][y].req == sent[x'] && wait[1..][y].at <= clk && takes(k + 1 + y);
      assert wait[1 + y] == wait[1..][y] && k + (1 + y) == k + 1 + y;
    }
  }

  /** hit_list: exactly the ready entries are called back, the rest stay in order. */
  lemma {:induction false} HitsSplit(hits: seq<Timed>, clk: int)
    ensures multiset(hits) == multiset(Arrived(hits, clk)) + multiset(Remaining(hits, clk))
    ensures forall h :: h in Arrived(hits, clk) ==> h.at <= clk
    ensures forall h :: h in Remaining(hits, clk) ==> h.at > clk
  {
    if hits != [] {
      HitsSplit(hits[1..], clk);
      assert hits == [hits[0]] + hits[1..];
    }
  }

  /** A write-back of b put on wait_list at step j. */
  ghost predicate AskedAt(trace: seq<Sys>, j: int, w: Timed, b: int)
    requires 0 <= j < |trace| - 1
  {
    w.req.write && Block(w.req.addr) == b && |trace[j].wait| <= |trace[j + 1].wait|
      && w in trace[j + 1].wait[|trace[j].wait|..]
  }

  /** The entries that memory takes at step l. */
  function TakenAt(trace: seq<Sys>, events: seq<Event>, l: int): seq<Timed>
    requires 0 <= l < |events| && l < |trace|
  {
    match events[l]
    case Clock(takes) => Gone(trace[l].wait, trace[l].clk + 1, takes, 0)
    case _ => []
  }

  /** All entries taken in the steps from n up to m, with their multiplicities. */
  function Taken(trace: seq<Sys>, events: seq<Event>, n: nat, m: nat): multiset<Timed>
    requires n <= m <= |events| && m <= |trace|
  {
    if n == m then multiset{} else Taken(trace, events, n, m - 1) + multiset(TakenAt(trace, events, m - 1))
  }

  /** The entries that step l puts on wait_list: ticks put none, other events only append. */
  function PutAt(trace: seq<Sys>, events: seq<Event>, l: int): seq<Timed>
    requires 0 <= l < |events| && l + 1 < |trace|
  {
    if events[l].Clock? || |trace[l].wait| > |trace[l + 1].wait| then [] else trace[l + 1].wait[|trace[l].wait|..]
  }

  function Put(trace: seq<Sys>, events: seq<Event>, n: nat, m: nat): multiset<Timed>
    requires n <= m <= |events| && m < |trace|
  {
    if n == m then multiset{} else Put(trace, events, n, m - 1) + multiset(PutAt(trace, events, m - 1))
  }

  ghost predicate CalmRun(geos: seq<Geo>, trace: seq<Sys>, events: seq<Event>) {
    Run(geos, trace, events) && forall m :: 0 <= m < |events| ==> Calm(geos, trace[m], events[m])
  }

  lemma CalmState(geos: seq<Geo>, trace: seq<Sys>, events: seq<Event>, n: nat)
    requires CalmRun(geos, trace, events) && n < |events|
    ensures |trace| == |events| + 1 && Fits(geos, trace[n]) && Inv(geos, trace[n]) && !trace[n].refused
    ensures EventOk(geos, events[n])
    ensures trace[n + 1] == Step(geos, trace[n], events[n])
  {
    RunInv(geos, trace, events, n);
  }

  /** Entry by entry, and counting equal ones: what is on wait_list at step m and what
      memory has taken since step n is what was there at step n and what has been put on
      it since. */
  lemma {:induction false} WaitConserved(geos: seq<Geo>, trace: seq<Sys>, events: seq<Event>, n: nat, m: nat)
    requires CalmRun(geos, trace, events) && n <= m < |trace| == |events| + 1
    ensures multiset(trace[m].wait) + Taken(trace, events, n, m) == multiset(trace[n].wait) + Put(trace, events, n, m)
    decreases m
  {
    hide *;
    SumsStep(trace, events, n, m);
    if n < m {
      WaitConserved(geos, trace, events, n, m - 1);
      WaitNext(geos, trace, events, m - 1);
      Balance(multiset(trace[n].wait), multiset(trace[m - 1].wait), multiset(trace[m].wait),
              Taken(trace, events, n, m - 1), multiset(TakenAt(trace, events, m - 1)),
              Put(trace, events, n, m - 1), multiset(PutAt(trace, events, m - 1)));
    }
  }

  lemma SumsStep(trace: seq<Sys>, events: seq<Event>, n: nat, m: nat)
    requires n <= m < |trace| == |events| + 1
    ensures n == m ==> Taken(trace, events, n, m) == multiset{} && Put(trace, events, n, m) == multiset{}
    ensures n < m ==>
      && Taken(trace, events, n, m) == Taken(trace, events, n, m - 1) + multiset(TakenAt(trace, events, m - 1))
      && Put(trace, events, n, m) == Put(trace, events, n, m - 1) + multiset(PutAt(trace, events, m - 1))
  {
    hide TakenAt, PutAt;
  }

  /** What two stretches take and put adds up. */
  lemma Balance<T>(a: multiset<T>, b: multiset<T>, c: multiset<T>, out1: multiset<T>, out2: multiset<T>,
                   in1: multiset<T>, in2: multiset<T>)
    requires b + out1 == a + in1 && c + out2 == b + in2
    ensures c + (out1 + out2) == a + (in1 + in2)
  {
    forall x ensures (c + (out1 + out2))[x] == (a + (in1 + in2))[x] {
      assert (b + out1)[x] == (a + in1)[x] && (c + out2)[x] == (b + in2)[x];
    }
  }

  lemma WaitNext(geos: seq<Geo>, trace: seq<Sys>, events: seq<Event>, n: nat)
    requires CalmRun(geos, trace, events) && n < |events| == |trace| - 1
    ensures multiset(trace[n + 1].wait) + multiset(TakenAt(trace, events, n))
         == multiset(trace[n].wait) + multiset(PutAt(trace, events, n))
  {
    hide *;
    CalmState(geos, trace, events, n);
    var s, t := trace[n], trace[n + 1];
    match events[n] {
      case Clock(takes) =>
        TickWait(geos, s, events[n]);
        TickTakes(trace, events, n);
      case _ =>
        OtherWait(geos, s, events[n]);
        OtherPuts(trace, events, n);
    }
  }

  lemma TickWait(geos: seq<Geo>, s: Sys, e: Event)
    requires Fits(geos, s) && EventOk(geos, e) && e.Clock?
    ensures multiset(Step(geos, s, e).wait) + multiset(Gone(s.wait, s.clk + 1, e.takes, 0)) == multiset(s.wait)
  {
    hide *;
    DrainConserves(s.wait, s.clk + 1, e.takes, 0);
    TickDrains(geos, s, e);
  }

  lemma TickDrains(geos: seq<Geo>, s: Sys, e: Event)
    requires Fits(geos, s) && EventOk(geos, e) && e.Clock?
    ensures Step(geos, s, e).wait == Drain(s.wait, s.clk + 1, e.takes, 0).0
  {
    hide Fits, Drain;
  }

  lemma TickTakes(trace: seq<Sys>, events: seq<Event>, n: nat)
    requires n < |events| == |trace| - 1 && events[n].Clock?
    ensures TakenAt(trace, events, n) == Gone(trace[n].wait, trace[n].clk + 1, events[n].takes, 0)
    ensures PutAt(trace, events, n) == []
  {}

  lemma OtherWait(geos: seq<Geo>, s: Sys, e: Event)
    requires Inv(geos, s) && !s.refused && EventOk(geos, e) && !e.Clock?
    ensures var t := Step(geos, s, e); |s.wait| <= |t.wait| && t.wait[..|s.wait|] == s.wait
  {
    StepInv(geos, s, e);
    hide Inv, Step, Calm, EventOk;
  }

  lemma OtherPuts(trace: seq<Sys>, events: seq<Event>, n: nat)
    requires n < |events| == |trace| - 1 && !events[n].Clock?
    requires var s, t := trace[n], trace[n + 1]; |s.wait| <= |t.wait| && t.wait[..|s.wait|] == s.wait
    ensures multiset(trace[n + 1].wait) == multiset(trace[n].wait) + multiset(PutAt(trace, events, n))
    ensures TakenAt(trace, events, n) == []
  {
    var s, t := trace[n], trace[n + 1];
    assert t.wait == s.wait + t.wait[|s.wait|..];
  }

  /** No entry leaves wait_list except to memory: of the entries equal to w, as many as
      were there at step n are still there at step m or have been taken since. */
  lemma WaitPersists(geos: seq<Geo>, trace: seq<Sys>, events: seq<Event>, n: nat, m: nat, w: Timed)
    requires CalmRun(geos, trace, events) && n <= m < |trace| == |events| + 1
    ensures multiset(trace[m].wait)[w] + Taken(trace, events, n, m)[w] >= multiset(trace[n].wait)[w]
  {
    hide *;
    WaitConserved(geos, trace, events, n, m);
    assert (multiset(trace[m].wait) + Taken(trace, events, n, m))[w]
      == (multiset(trace[n].wait) + Put(trace, events, n, m))[w];
  }

  /** Of the entries equal to w after step j, as many are on wait_list at step m or have
      been taken since. */
  ghost predicate Kept(trace: seq<Sys>, events: seq<Event>, j: int, m: nat, w: Timed) {
    && 0 <= j < m < |trace| == |events| + 1
    && multiset(trace[m].wait)[w] + Taken(trace, events, j + 1, m)[w] >= multiset(trace[j + 1].wait)[w] >= 1
  }

  /** A written block is never lost: at any later time some cached copy is dirty, or a
      write of the block has since been put on wait_list, where it stays until memory
      takes it. */
  lemma {:induction false} NoDirtyLost(geos: seq<Geo>, trace: seq<Sys>, events: seq<Event>, n: nat, m: nat, r: int,
        b: int)
    requires CalmRun(geos, trace, events) && n <= m < |trace| && IsRoot(geos, r) && (r, b) in trace[n].written
    ensures Fits(geos, trace[m])
    ensures DirtyAbove(geos, trace[m], [r], b)
      || exists j, w :: n <= j < m && AskedAt(trace, j, w, b) && Kept(trace, events, j, m, w)
  {
    hide *;
    RunLedger(geos, trace, events, m, r, b);
    if (r, b) !in trace[m].written {
      var j, w := LeftLedger(geos, trace, events, n, m, r, b);
      WaitPersists(geos, trace, events, j + 1, m, w);
      KeptIntro(trace, events, j, m, w);
    }
  }

  lemma RunLedger(geos: seq<Geo>, trace: seq<Sys>, events: seq<Event>, m: nat, r: int, b: int)
    requires CalmRun(geos, trace, events) && m < |trace| && IsRoot(geos, r)
    ensures Fits(geos, trace[m]) && |trace| == |events| + 1
    ensures (r, b) in trace[m].written <==> DirtyAbove(geos, trace[m], [r], b)
  {
    RunInv(geos, trace, events, m);
    assert (r, b) in trace[m].written + {} <==> DirtyAbove(geos, trace[m], [r], b);
  }

  lemma KeptIntro(trace: seq<Sys>, events: seq<Event>, j: int, m: nat, w: Timed)
    requires 0 <= j < m < |trace| == |events| + 1 && w in trace[j + 1].wait
    requires multiset(trace[m].wait)[w] + Taken(trace, events, j + 1, m)[w] >= multiset(trace[j + 1].wait)[w]
    ensures Kept(trace, events, j, m, w)
  {
    hide Taken;
    assert w in multiset(trace[j + 1].wait);
  }

  lemma {:induction false} LeftLedger(geos: seq<Geo>, trace: seq<Sys>, events: seq<Event>, n: nat, m: nat, r: int,
        b: int)
    returns (j: nat, w: Timed)
    requires CalmRun(geos, trace, events) && n <= m < |trace| == |events| + 1
    requires (r, b) in trace[n].written && (r, b) !in trace[m].written
    ensures n <= j < m && AskedAt(trace, j, w, b) && w in trace[j + 1].wait
    decreases m
  {
    hide *;
    if (r, b) !in trace[m - 1].written {
      j, w := LeftLedger(geos, trace, events, n, m - 1, r, b);
    } else {
      j := m - 1;
      w := AskedNext(geos, trace, events, j, r, b);
    }
  }

  lemma AskedNext(geos: seq<Geo>, trace: seq<Sys>, events: seq<Event>, n: nat, r: int, b: int) returns (w: Timed)
    requires CalmRun(geos, trace, events) && n < |events| == |trace| - 1
    requires (r, b) in trace[n].written && (r, b) !in trace[n + 1].written
    ensures AskedAt(trace, n, w, b) && w in trace[n + 1].wait
  {
    CalmState(geos, trace, events, n);
    w := AskedStep(geos, trace[n], events[n], r, b);
    hide CalmRun, Inv, Step, EventOk;
  }

  lemma AskedStep(geos: seq<Geo>, s: Sys, e: Event, r: int, b: int) returns (w: Timed)
    requires Inv(geos, s) && !s.refused && EventOk(geos, e)
    requires (r, b) in s.written && (r, b) !in Step(geos, s, e).written
    ensures var t := Step(geos, s, e);
      w.req.write && Block(w.req.addr) == b && |s.wait| <= |t.wait| && w in t.wait[|s.wait|..] && w in t.wait
  {
    StepInv(geos, s, e);
    assert !e.Clock?;
    hide Inv, Calm, Step;
    var t := Step(geos, s, e);
    assert Asked(s, t, b);
    var x :| |s.wait| <= x < |t.wait| && t.wait[x].req.write && Block(t.wait[x].req.addr) == b;
    w := t.wait[x];
    assert t.wait[|s.wait|..][x - |s.wait|] == w;
  }

  /** A write that the first level accepts is on the ledger, so NoDirtyLost covers it. */
  lemma WriteIsCovered(geos: seq<Geo>, trace: seq<Sys>, events: seq<Event>, n: nat)
    requires CalmRun(geos, trace, events) && n < |events|
    requires events[n].Request? && events[n].write && Takes(geos, trace[n], events[n].i, events[n].addr)
    ensures Topo(geos) && ValidId(geos, events[n].i)
    ensures (Root(geos, events[n].i), Block(events[n].addr)) in trace[n + 1].written
  {
    RunInv(geos, trace, events, n);
    AccessExact(geos, trace[n], events[n].i, events[n].addr, true);
    hide Inv, Takes, Sinks, Send;
  }

  // ------------------------------------------------ inclusion can really break

  /** A two-way L2 with one MSHR entry under a direct-mapped L1 with two. */
  const TINY := [Geo(2, 1, 2, 0, 1, []), Geo(1, 2, 1, 1, -1, [0])]

  lemma TinyTopo()
    ensures Topo(TINY)
  {
    assert NodeOk(TINY, 0) && NodeOk(TINY, 1);
  }

  const TINY_L1 := Cache(map[0 := [Line(0, 0, true, false, 0)]], [Entry(0, 0)])
  const TINY_L2 := Cache(map[0 := [Line(0, 0, true, false, 1)]], [Entry(0, 1)])
  const TINY_NONE := Cache(map[], [])

  /** The first miss goes all the way down. */
  lemma TinyFirst()
    ensures Fits(TINY, Fresh(TINY))
    ensures Access(TINY, Fresh(TINY), 0, 0, false)
         == (Sys([TINY_L1, TINY_L2], [Timed(16, Mem(0, false))], [], 0, 2, true, false, {}), true)
  {
    TinyTopo();
    var f := Fresh(TINY);
    assert f == Sys([TINY_NONE, TINY_NONE], [], [], 0, 0, true, false, {});
    var s1 := Sys([TINY_L1, TINY_NONE], [], [], 0, 1, true, false, {});
    var s2 := Sys([TINY_L1, TINY_L2], [], [], 0, 2, true, false, {});
    TinyPush(f, 0);
    TinyPush(s1, 1);
    assert PushLine(TINY, f, 0, 0, false).caches == s1.caches;
    assert PushLine(TINY, s1, 1, 0, false).caches == s2.caches;
    TinyTop(f, s1);
    TinyBottom(s1, s2);
    assert s2.wait + [Timed(16, Mem(0, false))] == [Timed(16, Mem(0, false))];
  }

  lemma TinyPush(s: Sys, i: int)
    requires Topo(TINY) && |s.caches| == 2 && 0 <= i < 2 && s.caches[i] == TINY_NONE
    ensures var t := PushLine(TINY, s, i, 0, false);
      && t.caches[i] == Cache(map[0 := [Line(0, 0, true, false, s.nodes)]], [Entry(0, s.nodes)])
      && t == s.(caches := t.caches, nodes := s.nodes + 1) && |t.caches| == 2 && t.caches[1 - i] == s.caches[1 - i]
  {
    assert Index(TINY[i], 0) == 0 && TagOf(TINY, i, 0) == 0 && SetOf(TINY, s, i, 0) == [];
    var l := Line(0, 0, true, false, s.nodes);
    var s1 := PutSet(TINY, s, i, 0, SetOf(TINY, s, i, 0) + [l]);
    assert SetOf(TINY, s, i, 0) + [l] == [l];
    assert s1.caches[i].sets == map[0 := [l]];
    assert s.caches[i].mshr + [Entry(0, s.nodes)] == [Entry(0, s.nodes)];
  }

  lemma TinyBottom(s1: Sys, s2: Sys)
    requires Topo(TINY) && s1 == Sys([TINY_L1, TINY_NONE], [], [], 0, 1, true, false, {})
    requires PushLine(TINY, s1, 1, 0, false) == s2 && s2.clk == 0
    ensures Send(TINY, s1, 1, 0, false) == (s2.(wait := s2.wait + [Timed(16, Mem(0, false))]), true)
  {
    hide PushLine;
    assert SetOf(TINY, s1, 1, 0) == [];
    assert Allocate(TINY, s1, 1, 0, false) == (s2, true);
  }

  lemma TinyTop(f: Sys, s1: Sys)
    requires Topo(TINY) && f == Sys([TINY_NONE, TINY_NONE], [], [], 0, 0, true, false, {})
    requires PushLine(TINY, f, 0, 0, false) == s1
    ensures var (s2, taken) := Send(TINY, s1, 1, 0, false);
      Send(TINY, f, 0, 0, false) == (s2.(refused := s2.refused || !taken), true)
  {
    hide PushLine;
    assert SetOf(TINY, f, 0, 0) == [];
    assert Allocate(TINY, f, 0, 0, false) == (s1, true);
    MissUnfold(TINY, f, s1, 0, 0, false);
  }

  /** After a miss to block 0, a second miss to block 1 is taken by the L1 and refused
      by the L2, and the L1 is left with a block that the L2 does not have. */
  lemma RefusalBreaksInclusion()
    ensures Topo(TINY)
    ensures var s := Access(TINY, Fresh(TINY), 0, 0, false).0; var t := Access(TINY, s, 0, 64, false);
      Inv(TINY, s) && !s.refused && t.1 && t.0.refused && !Inv(TINY, t.0)
  {
    TinyTopo();
    FreshInv(TINY);
    TinyFirst();
    AccessExact(TINY, Fresh(TINY), 0, 0, false);
    var s := Sys([TINY_L1, TINY_L2], [Timed(16, Mem(0, false))], [], 0, 2, true, false, {});
    TinyRefuses(s);
    hide *;
    AccessExact(TINY, s, 0, 64, false);
  }

  lemma TinyRefuses(s: Sys)
    requires Topo(TINY) && s == Sys([TINY_L1, TINY_L2], [Timed(16, Mem(0, false))], [], 0, 2, true, false, {})
    ensures Takes(TINY, s, 0, 64) && !Sinks(TINY, s, 0, 64)
  {
    assert SetOf(TINY, s, 0, 64) == [];
    assert SetOf(TINY, s, 1, 64) == [Line(0, 0, true, false, 1)] && TagOf(TINY, 1, 64) == 1;
  }
}
