/** The cache hierarchy of ramulator/Cache.cpp: caches on three levels, each naming the
    one below it and the ones above it. */
module CacheTree {
  import opened CacheLines

  datatype Mem = Mem(addr: int, write: bool)

  /** An entry of wait_list or hit_list: not before clock `at`. */
  datatype Timed = Timed(at: int, req: Mem)

  /** The last three fields are bookkeeping the source does not have. `ok` falls when one
      of its asserts fails or an erased line is reached through an iterator; `refused`
      rises when a cache ignores that the level below refused a request; `written` holds
      the blocks written since they were last handed to memory, by last-level cache. */
  datatype Sys = Sys(caches: seq<Cache>, wait: seq<Timed>, hits: seq<Timed>, clk: int, nodes: nat,
                     ok: bool, refused: bool, written: set<(int, int)>)

  /** Accumulated and own latency of a level. */
  function Latency(level: int): int { if level == 0 then 4 else if level == 1 then 16 else 47 }

  function LatencyEach(level: int): int { if level == 0 then 4 else if level == 1 then 12 else 31 }

  predicate ValidId(geos: seq<Geo>, i: int) { 0 <= i < |geos| }

  /** concatlower builds a forest: `higher` lists exactly the caches whose `lower` it is. */
  ghost predicate Topo(geos: seq<Geo>) {
    forall i :: ValidId(geos, i) ==> NodeOk(geos, i)
  }

  ghost predicate NodeOk(geos: seq<Geo>, i: int)
    requires ValidId(geos, i)
  {
    var g := geos[i];
    && GeoOk(g)
    && (g.lower == -1 || (ValidId(geos, g.lower) && geos[g.lower].level == g.level + 1))
    && (forall h :: ValidId(geos, h) && geos[h].lower == i ==> h in g.higher)
    && (forall k :: 0 <= k < |g.higher| ==>
          ValidId(geos, g.higher[k]) && geos[g.higher[k]].lower == i && geos[g.higher[k]].level + 1 == g.level)
    && (forall k, l :: 0 <= k < l < |g.higher| ==> g.higher[k] != g.higher[l])
  }

  ghost predicate Fits(geos: seq<Geo>, s: Sys) { Topo(geos) && |s.caches| == |geos| }

  function Put(s: Sys, i: nat, c: Cache): Sys
    requires i < |s.caches|
  {
    s.(caches := s.caches[i := c])
  }

  /** The set an address belongs to in cache i. */
  function SetOf(geos: seq<Geo>, s: Sys, i: int, addr: int): seq<Line>
    requires Fits(geos, s) && ValidId(geos, i)
  {
    assert NodeOk(geos, i);
    Lines(s.caches[i], Index(geos[i], addr))
  }

  function PutSet(geos: seq<Geo>, s: Sys, i: int, addr: int, ls: seq<Line>): Sys
    requires Fits(geos, s) && ValidId(geos, i)
  {
    assert NodeOk(geos, i);
    Put(s, i, SetLines(s.caches[i], Index(geos[i], addr), ls))
  }

  function TagOf(geos: seq<Geo>, i: int, addr: int): int
    requires Topo(geos) && ValidId(geos, i)
  {
    assert NodeOk(geos, i);
    Tag(geos[i], addr)
  }

  predicate AllUp(geos: seq<Geo>, hs: seq<int>, level: int) {
    forall k :: 0 <= k < |hs| ==> ValidId(geos, hs[k]) && geos[hs[k]].level < level
  }

  lemma HigherUp(geos: seq<Geo>, i: int)
    requires Topo(geos) && ValidId(geos, i)
    ensures AllUp(geos, geos[i].higher, geos[i].level) && GeoOk(geos[i])
    ensures geos[i].lower != -1 ==> ValidId(geos, geos[i].lower) && geos[geos[i].lower].level == geos[i].level + 1 <= 2
  {
    assert NodeOk(geos, i);
    if geos[i].lower != -1 { assert NodeOk(geos, geos[i].lower); }
  }

  // ------------------------------------------------------------- invalidate

  /** What invalidate returns, and the system it leaves. */
  datatype Gone = Gone(s: Sys, delay: int, dirty: bool)

  function Invalidate(geos: seq<Geo>, s: Sys, i: int, addr: int): (r: Gone)
    requires Fits(geos, s) && ValidId(geos, i)
    ensures Fits(geos, r.s)
    decreases geos[i].level, 1, 0
  {
    HigherUp(geos, i);
    var ls := SetOf(geos, s, i, addr);
    var p := Find(ls, TagOf(geos, i, addr));
    var each := LatencyEach(geos[i].level);
    if ls == [] then Gone(s, 0, false)
    else if p == |ls| then Gone(s, each, false)
    else
      var s1 := PutSet(geos, s, i, addr, Erase(ls, p)).(ok := s.ok && !ls[p].lock);
      var (s2, rs) := InvalidateEach(geos, s1, geos[i].higher, addr, geos[i].level);
      Gone(s2, SlowestAbove(each, rs), ls[p].dirty || AnyDirty(rs))
  }

  /** The loop over the higher caches; what each returned. */
  function InvalidateEach(geos: seq<Geo>, s: Sys, hs: seq<int>, addr: int, level: int): (r: (Sys, seq<(int, bool)>))
    requires Fits(geos, s) && AllUp(geos, hs, level) && level >= 0
    ensures Fits(geos, r.0)
    decreases level, 0, |hs|
  {
    if hs == [] then (s, [])
    else
      HigherUp(geos, hs[0]);
      var r := Invalidate(geos, s, hs[0], addr);
      var (s2, rs) := InvalidateEach(geos, r.s, hs[1..], addr, level);
      (s2, [(r.delay, r.dirty)] + rs)
  }

  predicate AnyDirty(rs: seq<(int, bool)>) { exists k :: 0 <= k < |rs| && rs[k].1 }

  function Larger(a: int, b: int): int { if a < b then b else a }

  /** A level waits for the slowest of the caches above it, twice for a dirty one. */
  function SlowestAbove(each: int, rs: seq<(int, bool)>): int {
    if rs == [] then each
    else Larger(each + (if rs[0].1 then rs[0].0 * 2 else rs[0].0), SlowestAbove(each, rs[1..]))
  }

  /** In evict a dirty copy costs the latency of this level on top. */
  function SlowestVictim(each: int, rs: seq<(int, bool)>): int {
    if rs == [] then 0
    else Larger(rs[0].0 + (if rs[0].1 then each else 0), SlowestVictim(each, rs[1..]))
  }

  // ------------------------------------------------------------------ evict

  function EvictLine(geos: seq<Geo>, s: Sys, i: int, addr: int, dirty: bool): (r: Sys)
    requires Fits(geos, s) && ValidId(geos, i)
    ensures Fits(geos, r)
  {
    var ls := SetOf(geos, s, i, addr);
    var p := Find(ls, TagOf(geos, i, addr));
    if p == |ls| then s.(ok := false)
    else PutSet(geos, s, i, addr, Touch(ls, p, Line(addr, TagOf(geos, i, addr), false, dirty || ls[p].dirty, s.nodes)))
      .(nodes := s.nodes + 1)
  }

  function Evict(geos: seq<Geo>, s: Sys, i: int, victim: Line): (r: Sys)
    requires Fits(geos, s) && ValidId(geos, i)
    ensures Fits(geos, r)
  {
    HigherUp(geos, i);
    var (s1, rs) := InvalidateEach(geos, s, geos[i].higher, victim.addr, geos[i].level);
    var slowest := SlowestVictim(LatencyEach(geos[i].level), rs);
    var s2 := HandDown(geos, s1, i, victim.addr, victim.dirty || AnyDirty(rs), slowest);
    EraseNode(geos, s2, i, victim)
  }

  /** To the next level, or when dirty to memory. */
  function HandDown(geos: seq<Geo>, s: Sys, i: int, addr: int, dirty: bool, delay: int): (r: Sys)
    requires Fits(geos, s) && ValidId(geos, i)
    ensures Fits(geos, r)
  {
    HigherUp(geos, i);
    if geos[i].lower != -1 then EvictLine(geos, s, geos[i].lower, addr, dirty)
    else if dirty then
      s.(wait := s.wait + [Timed(s.clk + delay + Latency(geos[i].level), Mem(addr, true))],
         written := s.written - {(i, Block(addr))})
    else s
  }

  function EraseNode(geos: seq<Geo>, s: Sys, i: int, l: Line): (r: Sys)
    requires Fits(geos, s) && ValidId(geos, i)
    ensures Fits(geos, r)
  {
    var ls := SetOf(geos, s, i, l.addr);
    var p := FindNode(ls, l.node);
    if p == |ls| then s.(ok := false) else PutSet(geos, s, i, l.addr, Erase(ls, p))
  }

  // --------------------------------------------------------------- allocate

  predicate CheckUnlock(geos: seq<Geo>, s: Sys, i: int, addr: int)
    requires Fits(geos, s) && ValidId(geos, i)
    decreases geos[i].level
  {
    HigherUp(geos, i);
    var ls := SetOf(geos, s, i, addr);
    var p := Find(ls, TagOf(geos, i, addr));
    p == |ls| || (!ls[p].lock
                  && forall k :: 0 <= k < |geos[i].higher| ==> CheckUnlock(geos, s, geos[i].higher[k], ls[p].addr))
  }

  /** A line that is unlocked here and in every cache above. */
  predicate Evictable(geos: seq<Geo>, s: Sys, i: int, l: Line)
    requires Fits(geos, s) && ValidId(geos, i)
  {
    HigherUp(geos, i);
    !l.lock && forall k :: 0 <= k < |geos[i].higher| ==> CheckUnlock(geos, s, geos[i].higher[k], l.addr)
  }

  /** find_if over the set; |ls| is end(). */
  function Victim(geos: seq<Geo>, s: Sys, i: int, ls: seq<Line>): (p: nat)
    requires Fits(geos, s) && ValidId(geos, i)
    ensures p <= |ls| && (p < |ls| ==> Evictable(geos, s, i, ls[p]))
    ensures forall q :: 0 <= q < p ==> !Evictable(geos, s, i, ls[q])
  {
    if ls == [] || Evictable(geos, s, i, ls[0]) then 0
    else
      var p := Victim(geos, s, i, ls[1..]);
      assert forall q :: 0 < q < 1 + p ==> ls[q] == ls[1..][q - 1];
      1 + p
  }

  predicate AllLocked(g: Geo, ls: seq<Line>) {
    |ls| >= g.assoc && forall p :: 0 <= p < |ls| ==> ls[p].lock
  }

  /** allocate_line, and whether it found room. A tag already present is the assert of
      need_eviction. */
  function Allocate(geos: seq<Geo>, s: Sys, i: int, addr: int, dirty: bool): (r: (Sys, bool))
    requires Fits(geos, s) && ValidId(geos, i)
    ensures Fits(geos, r.0)
  {
    var ls := SetOf(geos, s, i, addr);
    if Find(ls, TagOf(geos, i, addr)) < |ls| then (s.(ok := false), false)
    else if |ls| < geos[i].assoc then (PushLine(geos, s, i, addr, dirty), true)
    else
      var v := Victim(geos, s, i, ls);
      if v == |ls| then (s, false) else (PushLine(geos, Evict(geos, s, i, ls[v]), i, addr, dirty), true)
  }

  /** A new line, locked, and its MSHR entry. */
  function PushLine(geos: seq<Geo>, s: Sys, i: int, addr: int, dirty: bool): (r: Sys)
    requires Fits(geos, s) && ValidId(geos, i)
    ensures Fits(geos, r)
  {
    var s1 := PutSet(geos, s, i, addr,
      SetOf(geos, s, i, addr) + [Line(addr, TagOf(geos, i, addr), true, dirty, s.nodes)]);
    Put(s1, i, s1.caches[i].(mshr := s.caches[i].mshr + [Entry(addr, s.nodes)])).(nodes := s.nodes + 1)
  }

  // ------------------------------------------------------------------- send

  function Hit(geos: seq<Geo>, s: Sys, i: int, addr: int, write: bool, p: nat): (r: Sys)
    requires Fits(geos, s) && ValidId(geos, i) && p < |SetOf(geos, s, i, addr)|
    ensures Fits(geos, r)
  {
    var ls := SetOf(geos, s, i, addr);
    var l := Line(addr, TagOf(geos, i, addr), false, ls[p].dirty || write, s.nodes);
    PutSet(geos, s, i, addr, Touch(ls, p, l))
      .(nodes := s.nodes + 1, hits := s.hits + [Timed(s.clk + Latency(geos[i].level), Mem(addr, write))])
  }

  /** A miss on an outstanding block: the locked line becomes dirty. */
  function Merge(geos: seq<Geo>, s: Sys, i: int, e: Entry, dirty: bool): (r: Sys)
    requires Fits(geos, s) && ValidId(geos, i)
    ensures Fits(geos, r)
  {
    var ls := SetOf(geos, s, i, e.addr);
    var p := FindNode(ls, e.node);
    if p == |ls| then s.(ok := false)
    else PutSet(geos, s, i, e.addr, ls[p := ls[p].(dirty := dirty || ls[p].dirty)])
  }

  function Send(geos: seq<Geo>, s: Sys, i: int, addr: int, write: bool): (r: (Sys, bool))
    requires Fits(geos, s) && ValidId(geos, i)
    ensures Fits(geos, r.0)
    decreases 2 - geos[i].level
  {
    HigherUp(geos, i);
    var ls := SetOf(geos, s, i, addr);
    var p := Find(ls, TagOf(geos, i, addr));
    var c := s.caches[i];
    var k := HitMshr(c.mshr, addr);
    if p < |ls| && !ls[p].lock then (Hit(geos, s, i, addr, write, p), true)
    else if k < |c.mshr| then (Merge(geos, s, i, c.mshr[k], write), true)
    else if |c.mshr| == geos[i].mshrMax || AllLocked(geos[i], ls) then (s, false)
    else
      var (s1, room) := Allocate(geos, s, i, addr, write);
      if !room then (s1, false)
      else if geos[i].lower == -1 then
        (s1.(wait := s1.wait + [Timed(s1.clk + Latency(geos[i].level), Mem(addr, false))]), true)
      else
        var (s2, taken) := Send(geos, s1, geos[i].lower, addr, false);
        (s2.(refused := s2.refused || !taken), true)
  }

  // --------------------------------------------------------------- callback

  function Callback(geos: seq<Geo>, s: Sys, i: int, addr: int): (r: Sys)
    requires Fits(geos, s) && ValidId(geos, i)
    ensures Fits(geos, r)
    decreases geos[i].level, 1, 0
  {
    HigherUp(geos, i);
    var k := HitMshr(s.caches[i].mshr, addr);
    var s1 := if k < |s.caches[i].mshr| then Unlock(geos, s, i, k) else s;
    CallbackEach(geos, s1, geos[i].higher, addr, geos[i].level)
  }

  function CallbackEach(geos: seq<Geo>, s: Sys, hs: seq<int>, addr: int, level: int): (r: Sys)
    requires Fits(geos, s) && AllUp(geos, hs, level) && level >= 0
    ensures Fits(geos, r)
    decreases level, 0, |hs|
  {
    if hs == [] then s
    else
      HigherUp(geos, hs[0]);
      CallbackEach(geos, Callback(geos, s, hs[0], addr), hs[1..], addr, level)
  }

  function Unlock(geos: seq<Geo>, s: Sys, i: int, k: nat): (r: Sys)
    requires Fits(geos, s) && ValidId(geos, i) && k < |s.caches[i].mshr|
    ensures Fits(geos, r)
  {
    var mshr := s.caches[i].mshr;
    var ls := SetOf(geos, s, i, mshr[k].addr);
    var p := FindNode(ls, mshr[k].node);
    if p == |ls| then s.(ok := false)
    else
      var s1 := PutSet(geos, s, i, mshr[k].addr, ls[p := ls[p].(lock := false)]);
      Put(s1, i, s1.caches[i].(mshr := mshr[..k] + mshr[k + 1..]))
  }

  // ------------------------------------------------ requests from the cores

  /** The last-level cache below i. */
  function Root(geos: seq<Geo>, i: int): (r: int)
    requires Topo(geos) && ValidId(geos, i)
    ensures ValidId(geos, r) && geos[r].lower == -1
    decreases 2 - geos[i].level
  {
    HigherUp(geos, i);
    if geos[i].lower == -1 then i else Root(geos, geos[i].lower)
  }

  /** A request from outside: an accepted write is remembered. */
  function Access(geos: seq<Geo>, s: Sys, i: int, addr: int, write: bool): (r: (Sys, bool))
    requires Fits(geos, s) && ValidId(geos, i)
    ensures Fits(geos, r.0)
  {
    var (s1, taken) := Send(geos, s, i, addr, write);
    (if taken && write then s1.(written := s1.written + {(Root(geos, i), Block(addr))}) else s1, taken)
  }

  // ---------------------------------------------------------------- the clock

  /** The loop of CacheSystem::tick over wait_list: it stops at the first entry that is
      not ready, and keeps the ready entries that memory refuses. `takes` says what
      send_memory answers, entry by entry. */
  function Drain(wait: seq<Timed>, clk: int, takes: nat -> bool, k: nat): (r: (seq<Timed>, seq<Mem>)) {
    if wait == [] || clk < wait[0].at then (wait, [])
    else
      var (rest, sent) := Drain(wait[1..], clk, takes, k + 1);
      if takes(k) then (rest, [wait[0].req] + sent) else ([wait[0]] + rest, sent)
  }

  /** The loop over hit_list: every ready entry is called back. */
  function Arrived(hits: seq<Timed>, clk: int): seq<Timed> {
    if hits == [] then []
    else if clk >= hits[0].at then [hits[0]] + Arrived(hits[1..], clk) else Arrived(hits[1..], clk)
  }

  function Remaining(hits: seq<Timed>, clk: int): seq<Timed> {
    if hits == [] then []
    else if clk >= hits[0].at then Remaining(hits[1..], clk) else [hits[0]] + Remaining(hits[1..], clk)
  }
}
