/** What the requests of a whole run get: every hit is called back, on time, and every
    block that is missing is fetched from memory once. */
module CacheAnswers {
  import opened CacheLines
  import opened CacheTree
  import opened CacheInvariant
  import opened CacheAcceptance
  import opened CacheSend
  import opened CacheRuns
  import opened CacheTraffic
  import opened CacheTheorems

  /** The hit and the fetch that step l makes. */
  ghost function HitAt(geos: seq<Geo>, trace: seq<Sys>, events: seq<Event>, l: int): seq<Timed>
    requires Run(geos, trace, events) && 0 <= l < |events|
  {
    match events[l]
    case Request(i, addr, write) => HitFor(geos, trace[l], i, addr, write)
    case _ => []
  }

  ghost function FetchAt(geos: seq<Geo>, trace: seq<Sys>, events: seq<Event>, l: int): seq<Timed>
    requires Run(geos, trace, events) && 0 <= l < |events|
  {
    match events[l]
    case Request(i, addr, _) => FetchFor(geos, trace[l], i, addr)
    case _ => []
  }

  /** The hits called back at step l. */
  function CalledAt(trace: seq<Sys>, events: seq<Event>, l: int): seq<Timed>
    requires 0 <= l < |events| && l < |trace|
  {
    if events[l].Clock? then Arrived(trace[l].hits, trace[l].clk + 1) else []
  }

  function Called(trace: seq<Sys>, events: seq<Event>, n: nat, m: nat): multiset<Timed>
    requires n <= m <= |events| && m <= |trace|
  {
    if n == m then multiset{} else Called(trace, events, n, m - 1) + multiset(CalledAt(trace, events, m - 1))
  }

  ghost function HitsMade(geos: seq<Geo>, trace: seq<Sys>, events: seq<Event>, n: nat, m: nat): multiset<Timed>
    requires Run(geos, trace, events) && n <= m <= |events|
  {
    if n == m then multiset{}
    else HitsMade(geos, trace, events, n, m - 1) + multiset(HitAt(geos, trace, events, m - 1))
  }

  ghost function Fetched(geos: seq<Geo>, trace: seq<Sys>, events: seq<Event>, n: nat, m: nat): multiset<Timed>
    requires Run(geos, trace, events) && n <= m <= |events|
  {
    if n == m then multiset{}
    else Fetched(geos, trace, events, n, m - 1) + multiset(FetchAt(geos, trace, events, m - 1))
  }

  // ------------------------------------------------------------------ one step

  lemma CalmIsRun(geos: seq<Geo>, trace: seq<Sys>, events: seq<Event>)
    requires CalmRun(geos, trace, events)
    ensures Run(geos, trace, events) && |trace| == |events| + 1 && trace[0].hits == []
  {
    hide Topo, Fits, EventOk, Step, Calm;
  }

  /** hit_list at a step: requests append their hit, ticks call back, replies do nothing. */
  lemma StepHits(geos: seq<Geo>, trace: seq<Sys>, events: seq<Event>, l: nat)
    requires CalmRun(geos, trace, events) && l < |events| == |trace| - 1
    ensures events[l].Clock? ==>
      && trace[l + 1].hits == Remaining(trace[l].hits, trace[l].clk + 1) && trace[l + 1].clk == trace[l].clk + 1
      && HitAt(geos, trace, events, l) == [] && FetchAt(geos, trace, events, l) == []
    ensures !events[l].Clock? ==>
      && trace[l + 1].hits == trace[l].hits + HitAt(geos, trace, events, l) && trace[l + 1].clk == trace[l].clk
    ensures events[l].Reply? ==> trace[l + 1].wait == trace[l].wait && FetchAt(geos, trace, events, l) == []
    ensures events[l].Request? ==>
      && EventOk(geos, events[l]) && Fits(geos, trace[l]) && Fits(geos, trace[l + 1])
      && Answered(geos, trace[l], trace[l + 1], events[l].i, events[l].addr, events[l].write)
  {
    CalmState(geos, trace, events, l);
    var s := trace[l];
    match events[l] {
      case Request(i, addr, write) => AccessAnswered(geos, s, i, addr, write);
      case Reply(r, addr) => CallbackInv(geos, s, r, addr);
      case Clock(takes) =>
    }
    hide Fits, Inv, CalmRun, Access, Callback, Remaining, Drain, WaitGains, Filled, FetchFor, HitFor;
  }

  // ---------------------------------------------------------------------- hits

  /** Entry by entry, and counting equal ones: what is on hit_list at step m and what has
      been called back since step n is what was there at step n and one entry for each
      request since that found its block unlocked. */
  lemma {:induction false} HitsConserved(geos: seq<Geo>, trace: seq<Sys>, events: seq<Event>, n: nat, m: nat)
    requires CalmRun(geos, trace, events) && n <= m < |trace| == |events| + 1
    ensures multiset(trace[m].hits) + Called(trace, events, n, m)
         == multiset(trace[n].hits) + HitsMade(geos, trace, events, n, m)
    decreases m
  {
    hide *;
    CalmIsRun(geos, trace, events);
    HitSums(geos, trace, events, n, m);
    if n < m {
      HitsConserved(geos, trace, events, n, m - 1);
      HitsNext(geos, trace, events, m - 1);
      Balance(multiset(trace[n].hits), multiset(trace[m - 1].hits), multiset(trace[m].hits),
              Called(trace, events, n, m - 1), multiset(CalledAt(trace, events, m - 1)),
              HitsMade(geos, trace, events, n, m - 1), multiset(HitAt(geos, trace, events, m - 1)));
    }
  }

  lemma HitSums(geos: seq<Geo>, trace: seq<Sys>, events: seq<Event>, n: nat, m: nat)
    requires Run(geos, trace, events) && n <= m < |trace| == |events| + 1
    ensures n == m ==> Called(trace, events, n, m) == multiset{} && HitsMade(geos, trace, events, n, m) == multiset{}
    ensures n < m ==>
      && Called(trace, events, n, m) == Called(trace, events, n, m - 1) + multiset(CalledAt(trace, events, m - 1))
      && HitsMade(geos, trace, events, n, m)
           == HitsMade(geos, trace, events, n, m - 1) + multiset(HitAt(geos, trace, events, m - 1))
  {
    hide Run, CalledAt, HitAt;
  }

  lemma HitsNext(geos: seq<Geo>, trace: seq<Sys>, events: seq<Event>, l: nat)
    requires CalmRun(geos, trace, events) && l < |events| == |trace| - 1
    ensures multiset(trace[l + 1].hits) + multiset(CalledAt(trace, events, l))
         == multiset(trace[l].hits) + multiset(HitAt(geos, trace, events, l))
  {
    StepHits(geos, trace, events, l);
    HitsSplit(trace[l].hits, trace[l].clk + 1);
    hide CalmRun, HitAt, Arrived, Remaining, Answered, EventOk, Fits;
  }

  /** No entry on hit_list is ever late. */
  lemma {:induction false} HitsDue(geos: seq<Geo>, trace: seq<Sys>, events: seq<Event>, n: nat)
    requires CalmRun(geos, trace, events) && n < |trace| == |events| + 1
    ensures forall h :: h in trace[n].hits ==> trace[n].clk < h.at
    decreases n
  {
    hide *;
    CalmIsRun(geos, trace, events);
    if n > 0 {
      HitsDue(geos, trace, events, n - 1);
      HitsDueNext(geos, trace, events, n - 1);
    }
  }

  lemma HitsDueNext(geos: seq<Geo>, trace: seq<Sys>, events: seq<Event>, l: nat)
    requires CalmRun(geos, trace, events) && l < |events| == |trace| - 1
    requires forall h :: h in trace[l].hits ==> trace[l].clk < h.at
    ensures forall h :: h in trace[l + 1].hits ==> trace[l + 1].clk < h.at
  {
    CalmIsRun(geos, trace, events);
    HitIsLater(geos, trace, events, l);
    hide *;
    StepHits(geos, trace, events, l);
    HitsSplit(trace[l].hits, trace[l].clk + 1);
  }

  lemma HitIsLater(geos: seq<Geo>, trace: seq<Sys>, events: seq<Event>, l: nat)
    requires Run(geos, trace, events) && l < |events| == |trace| - 1
    ensures forall h :: h in HitAt(geos, trace, events, l) ==> trace[l].clk < h.at
  {
    hide Fits, Topo, Step, Holder, Arrives;
  }

  /** A hit is called back at the tick that reaches its time: never early, never late. */
  lemma CalledOnTime(geos: seq<Geo>, trace: seq<Sys>, events: seq<Event>, l: nat)
    requires CalmRun(geos, trace, events) && l < |events| == |trace| - 1
    ensures forall h :: h in CalledAt(trace, events, l) ==> h.at == trace[l + 1].clk
  {
    HitsDue(geos, trace, events, l);
    StepHits(geos, trace, events, l);
    HitsSplit(trace[l].hits, trace[l].clk + 1);
    forall h | h in CalledAt(trace, events, l) ensures h in trace[l].hits {
      assert h in multiset(Arrived(trace[l].hits, trace[l].clk + 1));
      assert h in multiset(trace[l].hits);
    }
    hide CalmRun, HitAt, Arrived, Remaining, Answered, Fits;
  }

  // ------------------------------------------------------------------- fetches

  /** What a step puts on wait_list: a request its write-back `ws` and then its fetch,
      no other step anything. */
  lemma RunPuts(geos: seq<Geo>, trace: seq<Sys>, events: seq<Event>, l: nat) returns (ws: seq<Timed>)
    requires CalmRun(geos, trace, events) && l < |events| == |trace| - 1
    ensures PutAt(trace, events, l) == ws + FetchAt(geos, trace, events, l)
    ensures forall w :: w in ws ==> w.req.write
    ensures !events[l].Request? ==> ws == [] && FetchAt(geos, trace, events, l) == []
    ensures events[l].Request? ==>
      && EventOk(geos, events[l]) && Fits(geos, trace[l + 1])
      && WroteBack(geos, trace[l], trace[l + 1], Root(geos, events[l].i), Block(events[l].addr), ws)
  {
    StepHits(geos, trace, events, l);
    ws := [];
    if events[l].Request? {
      var i, b := events[l].i, Block(events[l].addr);
      assert FetchAt(geos, trace, events, l) == FetchFor(geos, trace[l], i, events[l].addr);
      assert WaitGains(geos, trace[l], trace[l + 1], i, b, FetchFor(geos, trace[l], i, events[l].addr));
      hide CalmRun, HitFor, FetchFor, Filled, WroteBack, Fits, FetchAt, WaitGains;
      ws := Gained(geos, trace[l], trace[l + 1], i, b, FetchAt(geos, trace, events, l));
    }
  }

  lemma Gained(geos: seq<Geo>, s: Sys, t: Sys, i: int, b: int, fetch: seq<Timed>) returns (ws: seq<Timed>)
    requires Fits(geos, t) && ValidId(geos, i) && WaitGains(geos, s, t, i, b, fetch)
    ensures WroteBack(geos, s, t, Root(geos, i), b, ws) && forall w :: w in ws ==> w.req.write
    ensures |s.wait| <= |t.wait| && t.wait[|s.wait|..] == ws + fetch
  {
    hide GoneFrom, Root;
    ws :| WroteBack(geos, s, t, Root(geos, i), b, ws) && t.wait == s.wait + ws + fetch;
  }

  /** Of the reads equal to w: those on wait_list at step m and those memory has taken
      since step n are those that were there at step n and one for each request since
      that found its block in no cache. */
  lemma {:induction false} FetchesConserved(geos: seq<Geo>, trace: seq<Sys>, events: seq<Event>, n: nat, m: nat,
        w: Timed)
    requires CalmRun(geos, trace, events) && n <= m < |trace| == |events| + 1 && !w.req.write
    ensures multiset(trace[m].wait)[w] + Taken(trace, events, n, m)[w]
         == multiset(trace[n].wait)[w] + Fetched(geos, trace, events, n, m)[w]
  {
    hide *;
    CalmIsRun(geos, trace, events);
    WaitConserved(geos, trace, events, n, m);
    PutReads(geos, trace, events, n, m, w);
    assert (multiset(trace[m].wait) + Taken(trace, events, n, m))[w]
      == (multiset(trace[n].wait) + CacheTheorems.Put(trace, events, n, m))[w];
  }

  lemma {:induction false} PutReads(geos: seq<Geo>, trace: seq<Sys>, events: seq<Event>, n: nat, m: nat, w: Timed)
    requires CalmRun(geos, trace, events) && n <= m < |trace| == |events| + 1 && !w.req.write
    ensures CacheTheorems.Put(trace, events, n, m)[w] == Fetched(geos, trace, events, n, m)[w]
    decreases m
  {
    hide *;
    CalmIsRun(geos, trace, events);
    FetchSums(geos, trace, events, n, m, w);
    if n < m {
      PutReads(geos, trace, events, n, m - 1, w);
      PutRead(geos, trace, events, m - 1, w);
    }
  }

  lemma FetchSums(geos: seq<Geo>, trace: seq<Sys>, events: seq<Event>, n: nat, m: nat, w: Timed)
    requires Run(geos, trace, events) && n <= m < |trace| == |events| + 1
    ensures n == m ==>
      CacheTheorems.Put(trace, events, n, m)[w] == 0 && Fetched(geos, trace, events, n, m)[w] == 0
    ensures n < m ==>
      && CacheTheorems.Put(trace, events, n, m)[w]
           == CacheTheorems.Put(trace, events, n, m - 1)[w] + multiset(PutAt(trace, events, m - 1))[w]
      && Fetched(geos, trace, events, n, m)[w]
           == Fetched(geos, trace, events, n, m - 1)[w] + multiset(FetchAt(geos, trace, events, m - 1))[w]
  {
    hide Run, PutAt, FetchAt;
  }

  lemma TailCount<T>(ws: seq<T>, tail: seq<T>, w: T)
    requires w !in ws
    ensures multiset(ws + tail)[w] == multiset(tail)[w]
  {
    assert multiset(ws + tail) == multiset(ws) + multiset(tail) && multiset(ws)[w] == 0;
  }

  lemma PutRead(geos: seq<Geo>, trace: seq<Sys>, events: seq<Event>, l: nat, w: Timed)
    requires CalmRun(geos, trace, events) && l < |events| == |trace| - 1 && !w.req.write
    ensures multiset(PutAt(trace, events, l))[w] == multiset(FetchAt(geos, trace, events, l))[w]
  {
    hide *;
    CalmIsRun(geos, trace, events);
    var ws := RunPuts(geos, trace, events, l);
    TailCount(ws, FetchAt(geos, trace, events, l), w);
  }
}
