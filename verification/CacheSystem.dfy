/** The caches as they run: sets, MSHR lists and the two request lists updated in place.
    Every method is proved against the value-level operation, asserts included: `ok` is
    still true exactly where the source has not failed. */
module CacheSystem {
  import opened CacheLines
  import opened CacheTree
  import opened CacheCopies
  import opened CacheInvariant
  import opened CacheAcceptance
  import opened CacheSend
  import opened CacheRuns
  import opened CacheTraffic
  import opened CacheTheorems

  class Hierarchy {
    const geos: seq<Geo>
    var caches: seq<Cache>
    var waitList: seq<Timed>
    var hitList: seq<Timed>
    var clk: int
    var nodes: nat
    ghost var ok: bool
    ghost var refused: bool
    ghost var written: set<(int, int)>

    ghost function State(): Sys
      reads this
    {
      Sys(caches, waitList, hitList, clk, nodes, ok, refused, written)
    }

    ghost predicate Shaped()
      reads this
    {
      Fits(geos, State())
    }

    constructor (geos: seq<Geo>)
      requires Topo(geos)
      ensures this.geos == geos && Shaped() && State() == CacheTheorems.Fresh(geos)
    {
      this.geos := geos;
      caches := seq(|geos|, _ => Cache(map[], []));
      waitList, hitList, clk, nodes, ok, refused, written := [], [], 0, 0, true, false, {};
    }

    // ------------------------------------------------------ read-only searches

    /** get_lines, without creating the set. */
    method GetLines(i: int, addr: int) returns (ls: seq<Line>)
      requires Shaped() && ValidId(geos, i)
      ensures ls == SetOf(geos, State(), i, addr)
    {
      HigherUp(geos, i);
      var idx := Index(geos[i], addr);
      ls := if idx in caches[i].sets then caches[i].sets[idx] else [];
    }

    /** find_if by tag. */
    method FindLine(i: int, addr: int, ls: seq<Line>) returns (p: nat)
      requires Topo(geos) && ValidId(geos, i)
      ensures p == Find(ls, TagOf(geos, i, addr))
    {
      HigherUp(geos, i);
      var tag := Tag(geos[i], addr);
      p := 0;
      while p < |ls| && ls[p].tag != tag
        invariant p <= |ls| && forall q :: 0 <= q < p ==> ls[q].tag != tag
      {
        p := p + 1;
      }
      FindFirst(ls, tag, p);
    }

    /** Where an iterator points. */
    method FindByNode(ls: seq<Line>, node: nat) returns (p: nat)
      ensures p == FindNode(ls, node)
    {
      p := 0;
      while p < |ls| && ls[p].node != node
        invariant p <= |ls| && forall q :: 0 <= q < p ==> ls[q].node != node
      {
        p := p + 1;
      }
      FindNodeFirst(ls, node, p);
    }

    method FindMshr(mshr: seq<Entry>, addr: int) returns (k: nat)
      ensures k == HitMshr(mshr, addr)
    {
      k := 0;
      while k < |mshr| && Align(mshr[k].addr) != Align(addr)
        invariant k <= |mshr| && forall j :: 0 <= j < k ==> Block(mshr[j].addr) != Block(addr)
      {
        AlignIsBlock(mshr[k].addr, addr);
        k := k + 1;
      }
      MshrFirst(mshr, addr, k);
    }

    method IsUnlocked(i: int, addr: int) returns (unlocked: bool)
      requires Shaped() && ValidId(geos, i)
      ensures unlocked == CheckUnlock(geos, State(), i, addr)
      decreases geos[i].level, 1
    {
      HigherUp(geos, i);
      var ls := GetLines(i, addr);
      var p := FindLine(i, addr, ls);
      if p == |ls| { return true; }
      if ls[p].lock { return false; }
      unlocked := AllUnlocked(i, ls[p].addr);
    }

    /** The loop over the higher caches. */
    method AllUnlocked(i: int, addr: int) returns (unlocked: bool)
      requires Shaped() && ValidId(geos, i)
      ensures AllUp(geos, geos[i].higher, geos[i].level)
      ensures unlocked <==> forall k :: 0 <= k < |geos[i].higher| ==>
          CheckUnlock(geos, State(), geos[i].higher[k], addr)
      decreases geos[i].level, 0
    {
      HigherUp(geos, i);
      for k := 0 to |geos[i].higher|
        invariant forall j :: 0 <= j < k ==> CheckUnlock(geos, State(), geos[i].higher[j], addr)
      {
        HigherUp(geos, geos[i].higher[k]);
        var one := IsUnlocked(geos[i].higher[k], addr);
        if !one { return false; }
      }
      return true;
    }

    method FindVictim(i: int, ls: seq<Line>) returns (p: nat)
      requires Shaped() && ValidId(geos, i)
      ensures p == Victim(geos, State(), i, ls)
    {
      HigherUp(geos, i);
      p := 0;
      while p < |ls|
        invariant p <= |ls| && forall q :: 0 <= q < p ==> !Evictable(geos, State(), i, ls[q])
        decreases |ls| - p
      {
        if !ls[p].lock {
          var above := AllUnlocked(i, ls[p].addr);
          if above { break; }
        }
        p := p + 1;
      }
      VictimFirst(geos, State(), i, ls, p);
    }

    // ------------------------------------------------------------- invalidate

    method SetLinesOf(i: int, addr: int, ls: seq<Line>)
      requires Shaped() && ValidId(geos, i)
      modifies this`caches
      ensures State() == PutSet(geos, old(State()), i, addr, ls)
    {
      HigherUp(geos, i);
      var c := caches[i];
      caches := caches[i := c.(sets := c.sets[Index(geos[i], addr) := ls])];
    }

    method Invalidate(i: int, addr: int) returns (delay: int, dirty: bool)
      requires Shaped() && ValidId(geos, i)
      modifies this
      ensures Gone(State(), delay, dirty) == CacheTree.Invalidate(geos, old(State()), i, addr)
      decreases geos[i].level, 1, 0
    {
      HigherUp(geos, i);
      delay, dirty := LatencyEach(geos[i].level), false;
      var ls := GetLines(i, addr);
      if |ls| == 0 { return 0, false; }
      var p := FindLine(i, addr, ls);
      if p == |ls| { return; }
      ok := ok && !ls[p].lock;
      SetLinesOf(i, addr, Erase(ls, p));
      var rs := InvalidateAll(geos[i].higher, addr, geos[i].level);
      delay, dirty := Gather(LatencyEach(geos[i].level), ls[p].dirty, rs);
    }

    /** The slowest and the dirtiest of the caches above. */
    static method Gather(each: int, here: bool, rs: seq<(int, bool)>) returns (delay: int, dirty: bool)
      ensures delay == SlowestAbove(each, rs) && (dirty <==> here || AnyDirty(rs))
    {
      delay, dirty := each, here;
      for k := 0 to |rs|
        invariant dirty <==> here || AnyDirty(rs[..k])
        invariant delay == SlowestAbove(each, rs[..k])
      {
        TakeOne(rs, k);
        SlowestAboveAppend(each, rs[..k], rs[k]);
        delay := Larger(delay, each + (if rs[k].1 then rs[k].0 * 2 else rs[k].0));
        dirty := dirty || rs[k].1;
      }
      assert rs[..|rs|] == rs;
    }

    /** invalidate on every higher cache; what each returned. */
    method InvalidateAll(hs: seq<int>, addr: int, ghost level: int) returns (rs: seq<(int, bool)>)
      requires Shaped() && AllUp(geos, hs, level) && level >= 0
      modifies this
      ensures (State(), rs) == InvalidateEach(geos, old(State()), hs, addr, level)
      decreases level, 0, |hs|
    {
      if |hs| == 0 { return []; }
      HigherUp(geos, hs[0]);
      var delay, dirty := Invalidate(hs[0], addr);
      var rest := InvalidateAll(hs[1..], addr, level);
      rs := [(delay, dirty)] + rest;
    }

    // ------------------------------------------------------------------ evict

    method EvictLine(i: int, addr: int, dirty: bool)
      requires Shaped() && ValidId(geos, i)
      modifies this
      ensures State() == CacheTree.EvictLine(geos, old(State()), i, addr, dirty)
    {
      HigherUp(geos, i);
      var ls := GetLines(i, addr);
      var p := FindLine(i, addr, ls);
      if p == |ls| {
        ok := false;
      } else {
        SetLinesOf(i, addr, Touch(ls, p, Line(addr, Tag(geos[i], addr), false, dirty || ls[p].dirty, nodes)));
        nodes := nodes + 1;
      }
    }

    method Evict(i: int, victim: Line)
      requires Shaped() && ValidId(geos, i)
      modifies this
      ensures State() == CacheTree.Evict(geos, old(State()), i, victim)
    {
      HigherUp(geos, i);
      var rs := InvalidateAll(geos[i].higher, victim.addr, geos[i].level);
      var delay, dirty := GatherVictim(LatencyEach(geos[i].level), victim.dirty, rs);
      HandDown(i, victim.addr, dirty, delay);
      EraseLine(i, victim);
    }

    static method GatherVictim(each: int, here: bool, rs: seq<(int, bool)>) returns (delay: int, dirty: bool)
      ensures delay == SlowestVictim(each, rs) && (dirty <==> here || AnyDirty(rs))
    {
      delay, dirty := 0, here;
      for k := 0 to |rs|
        invariant dirty <==> here || AnyDirty(rs[..k])
        invariant delay == SlowestVictim(each, rs[..k])
      {
        TakeOne(rs, k);
        SlowestVictimAppend(each, rs[..k], rs[k]);
        delay := Larger(delay, rs[k].0 + (if rs[k].1 then each else 0));
        dirty := dirty || rs[k].1;
      }
      assert rs[..|rs|] == rs;
    }

    method HandDown(i: int, addr: int, dirty: bool, delay: int)
      requires Shaped() && ValidId(geos, i)
      modifies this
      ensures State() == CacheTree.HandDown(geos, old(State()), i, addr, dirty, delay)
    {
      HigherUp(geos, i);
      if geos[i].lower != -1 {
        EvictLine(geos[i].lower, addr, dirty);
      } else if dirty {
        waitList := waitList + [Timed(clk + delay + Latency(geos[i].level), Mem(addr, true))];
        written := written - {(i, Block(addr))};
      }
    }

    method EraseLine(i: int, l: Line)
      requires Shaped() && ValidId(geos, i)
      modifies this
      ensures State() == EraseNode(geos, old(State()), i, l)
    {
      var ls := GetLines(i, l.addr);
      var p := FindByNode(ls, l.node);
      if p == |ls| { ok := false; } else { SetLinesOf(i, l.addr, Erase(ls, p)); }
    }

    // --------------------------------------------------------------- allocate

    method Allocate(i: int, addr: int, dirty: bool) returns (room: bool)
      requires Shaped() && ValidId(geos, i)
      modifies this
      ensures (State(), room) == CacheTree.Allocate(geos, old(State()), i, addr, dirty)
    {
      var ls := GetLines(i, addr);
      var p := FindLine(i, addr, ls);
      if p < |ls| {
        ok := false;
        return false;
      }
      if |ls| >= geos[i].assoc {
        var v := FindVictim(i, ls);
        if v == |ls| { return false; }
        Evict(i, ls[v]);
      }
      Push(i, addr, dirty);
      room := true;
    }

    method Push(i: int, addr: int, dirty: bool)
      requires Shaped() && ValidId(geos, i)
      modifies this
      ensures State() == PushLine(geos, old(State()), i, addr, dirty)
    {
      HigherUp(geos, i);
      var ls := GetLines(i, addr);
      SetLinesOf(i, addr, ls + [Line(addr, Tag(geos[i], addr), true, dirty, nodes)]);
      caches := caches[i := caches[i].(mshr := caches[i].mshr + [Entry(addr, nodes)])];
      nodes := nodes + 1;
    }

    // ------------------------------------------------------------------- send

    method AllLinesLocked(i: int, ls: seq<Line>) returns (all: bool)
      requires ValidId(geos, i)
      ensures all == AllLocked(geos[i], ls)
    {
      if |ls| < geos[i].assoc { return false; }
      for p := 0 to |ls|
        invariant forall q :: 0 <= q < p ==> ls[q].lock
      {
        if !ls[p].lock { return false; }
      }
      return true;
    }

    method HitLine(i: int, addr: int, write: bool, p: nat)
      requires Shaped() && ValidId(geos, i) && p < |SetOf(geos, State(), i, addr)|
      modifies this
      ensures State() == Hit(geos, old(State()), i, addr, write, p)
    {
      HigherUp(geos, i);
      var ls := GetLines(i, addr);
      SetLinesOf(i, addr, Touch(ls, p, Line(addr, Tag(geos[i], addr), false, ls[p].dirty || write, nodes)));
      nodes := nodes + 1;
      hitList := hitList + [Timed(clk + Latency(geos[i].level), Mem(addr, write))];
    }

    method MergeMiss(i: int, e: Entry, dirty: bool)
      requires Shaped() && ValidId(geos, i)
      modifies this
      ensures State() == Merge(geos, old(State()), i, e, dirty)
    {
      var ls := GetLines(i, e.addr);
      var p := FindByNode(ls, e.node);
      if p == |ls| { ok := false; } else { SetLinesOf(i, e.addr, ls[p := ls[p].(dirty := dirty || ls[p].dirty)]); }
    }

    method Send(i: int, addr: int, write: bool) returns (taken: bool)
      requires Shaped() && ValidId(geos, i)
      modifies this
      ensures (State(), taken) == CacheTree.Send(geos, old(State()), i, addr, write)
      decreases 2 - geos[i].level
    {
      hide CacheTree.Allocate, Hit, Merge, AllLocked, Find, HitMshr;
      HigherUp(geos, i);
      var ls := GetLines(i, addr);
      var p := FindLine(i, addr, ls);
      var k := FindMshr(caches[i].mshr, addr);
      if p < |ls| && !ls[p].lock {
        HitLine(i, addr, write, p);
        return true;
      }
      if k < |caches[i].mshr| {
        MergeMiss(i, caches[i].mshr[k], write);
        return true;
      }
      if |caches[i].mshr| == geos[i].mshrMax { return false; }
      var locked := AllLinesLocked(i, ls);
      if locked { return false; }
      var room := Allocate(i, addr, write);
      if !room { return false; }
      if geos[i].lower == -1 {
        waitList := waitList + [Timed(clk + Latency(geos[i].level), Mem(addr, false))];
      } else {
        var accepted := Send(geos[i].lower, addr, false);
        refused := refused || !accepted;
      }
      taken := true;
    }

    /** A request from a core. Every invariant is kept exactly when every level below
        takes the request too; hit_list and wait_list gain exactly the hit, the write-back
        and the fetch that can be told from the state before it. */
    method Access(i: int, addr: int, write: bool) returns (taken: bool)
      requires Shaped() && ValidId(geos, i) && Inv(geos, State()) && !refused
      modifies this
      ensures (State(), taken) == CacheTree.Access(geos, old(State()), i, addr, write)
      ensures taken <==> Takes(geos, old(State()), i, addr)
      ensures Inv(geos, State()) <==> !taken || Sinks(geos, old(State()), i, addr)
      ensures Shaped() && Answered(geos, old(State()), State(), i, addr, write)
    {
      ghost var s := State();
      AccessFacts(geos, s, i, addr, write);
      hide Answered, Inv, Takes, Sinks, CacheTree.Send, CacheTree.Access, Topo, Root;
      taken := Send(i, addr, write);
      if taken && write { written := written + {(Root(geos, i), Block(addr))}; }
    }

    // --------------------------------------------------------------- callback

    method UnlockLine(i: int, k: nat)
      requires Shaped() && ValidId(geos, i) && k < |caches[i].mshr|
      modifies this
      ensures State() == Unlock(geos, old(State()), i, k)
    {
      var mshr := caches[i].mshr;
      var ls := GetLines(i, mshr[k].addr);
      var p := FindByNode(ls, mshr[k].node);
      if p == |ls| {
        ok := false;
      } else {
        SetLinesOf(i, mshr[k].addr, ls[p := ls[p].(lock := false)]);
        caches := caches[i := caches[i].(mshr := mshr[..k] + mshr[k + 1..])];
      }
    }

    method Callback(i: int, addr: int)
      requires Shaped() && ValidId(geos, i)
      modifies this
      ensures State() == CacheTree.Callback(geos, old(State()), i, addr)
      decreases geos[i].level, 1, 0
    {
      HigherUp(geos, i);
      var k := FindMshr(caches[i].mshr, addr);
      if k < |caches[i].mshr| { UnlockLine(i, k); }
      CallbackAll(geos[i].higher, addr, geos[i].level);
    }

    method CallbackAll(hs: seq<int>, addr: int, ghost level: int)
      requires Shaped() && AllUp(geos, hs, level) && level >= 0
      modifies this
      ensures State() == CallbackEach(geos, old(State()), hs, addr, level)
      decreases level, 0, |hs|
    {
      if |hs| == 0 { return; }
      HigherUp(geos, hs[0]);
      Callback(hs[0], addr);
      CallbackAll(hs[1..], addr, level);
    }

    // -------------------------------------------------------------- the clock

    /** CacheSystem::tick. `takes` stands for what send_memory answers. */
    method Tick(takes: nat -> bool) returns (sent: seq<Mem>, arrived: seq<Timed>)
      requires Shaped()
      modifies this
      ensures State() == Ticked(old(State()), takes)
      ensures sent == Drain(old(waitList), clk, takes, 0).1 && arrived == CacheTree.Arrived(old(hitList), clk)
    {
      clk := clk + 1;
      sent := DrainWait(takes);
      arrived := CallHits();
    }

    method DrainWait(takes: nat -> bool) returns (sent: seq<Mem>)
      modifies this`waitList
      ensures waitList == Drain(old(waitList), clk, takes, 0).0 && sent == Drain(old(waitList), clk, takes, 0).1
    {
      var kept := [];
      var it := 0;
      sent := [];
      assert waitList[0..] == waitList;
      while it < |waitList| && clk >= waitList[it].at
        invariant 0 <= it <= |waitList| && waitList == old(waitList)
        invariant Drain(waitList, clk, takes, 0).0 == kept + Drain(waitList[it..], clk, takes, it).0
        invariant Drain(waitList, clk, takes, 0).1 == sent + Drain(waitList[it..], clk, takes, it).1
      {
        hide Drain;
        DrainOne(waitList, clk, takes, it, kept, sent);
        if takes(it) { sent := sent + [waitList[it].req]; } else { kept := kept + [waitList[it]]; }
        it := it + 1;
      }
      assert Drain(waitList[it..], clk, takes, it) == (waitList[it..], []);
      waitList := kept + waitList[it..];
    }

    method CallHits() returns (arrived: seq<Timed>)
      modifies this`hitList
      ensures arrived == CacheTree.Arrived(old(hitList), clk) && hitList == Remaining(old(hitList), clk)
    {
      var kept := [];
      arrived := [];
      for it := 0 to |hitList|
        invariant hitList == old(hitList)
        invariant CacheTree.Arrived(hitList, clk) == arrived + CacheTree.Arrived(hitList[it..], clk)
        invariant Remaining(hitList, clk) == kept + Remaining(hitList[it..], clk)
      {
        assert hitList[it..][1..] == hitList[it + 1..];
        if clk >= hitList[it].at { arrived := arrived + [hitList[it]]; } else { kept := kept + [hitList[it]]; }
      }
      hitList := kept;
    }
  }

  // ------------------------------------------------- loops against recursion

  lemma AccessFacts(geos: seq<Geo>, s: Sys, i: int, addr: int, write: bool)
    requires Inv(geos, s) && !s.refused && ValidId(geos, i)
    ensures var (t, taken) := CacheTree.Send(geos, s, i, addr, write);
      var (u, also) := CacheTree.Access(geos, s, i, addr, write);
      && also == taken && (taken <==> Takes(geos, s, i, addr))
      && u == (if taken && write then t.(written := t.written + {(Root(geos, i), Block(addr))}) else t)
      && (Inv(geos, u) <==> !taken || Sinks(geos, s, i, addr)) && Answered(geos, s, u, i, addr, write)
  {
    AccessExact(geos, s, i, addr, write);
    AccessAnswered(geos, s, i, addr, write);
    hide Answered, Inv, Takes, Sinks, CacheTree.Send, Topo, Flushed, Root;
  }

  /** One turn of the loop over wait_list. */
  lemma DrainOne(wait: seq<Timed>, clk: int, takes: nat -> bool, it: nat, kept: seq<Timed>, sent: seq<Mem>)
    requires it < |wait| && clk >= wait[it].at
    requires Drain(wait, clk, takes, 0).0 == kept + Drain(wait[it..], clk, takes, it).0
    requires Drain(wait, clk, takes, 0).1 == sent + Drain(wait[it..], clk, takes, it).1
    ensures Drain(wait, clk, takes, 0).0
      == (if takes(it) then kept else kept + [wait[it]]) + Drain(wait[it + 1..], clk, takes, it + 1).0
    ensures Drain(wait, clk, takes, 0).1
      == (if takes(it) then sent + [wait[it].req] else sent) + Drain(wait[it + 1..], clk, takes, it + 1).1
  {
    assert wait[it..][1..] == wait[it + 1..];
  }

  lemma FindFirst(ls: seq<Line>, tag: int, p: nat)
    requires p <= |ls| && (p < |ls| ==> ls[p].tag == tag) && forall q :: 0 <= q < p ==> ls[q].tag != tag
    ensures Find(ls, tag) == p
  {}

  lemma FindNodeFirst(ls: seq<Line>, node: nat, p: nat)
    requires p <= |ls| && (p < |ls| ==> ls[p].node == node) && forall q :: 0 <= q < p ==> ls[q].node != node
    ensures FindNode(ls, node) == p
  {}

  lemma MshrFirst(mshr: seq<Entry>, addr: int, k: nat)
    requires k <= |mshr| && (k < |mshr| ==> Align(mshr[k].addr) == Align(addr))
    requires forall j :: 0 <= j < k ==> Block(mshr[j].addr) != Block(addr)
    ensures HitMshr(mshr, addr) == k
  {
    if k < |mshr| { AlignIsBlock(mshr[k].addr, addr); }
  }

  lemma VictimFirst(geos: seq<Geo>, s: Sys, i: int, ls: seq<Line>, p: nat)
    requires Fits(geos, s) && ValidId(geos, i) && p <= |ls| && (p < |ls| ==> Evictable(geos, s, i, ls[p]))
    requires forall q :: 0 <= q < p ==> !Evictable(geos, s, i, ls[q])
    ensures Victim(geos, s, i, ls) == p
  {
    hide Evictable;
  }

  lemma TakeOne(rs: seq<(int, bool)>, k: nat)
    requires k < |rs|
    ensures rs[..k + 1] == rs[..k] + [rs[k]] && (AnyDirty(rs[..k + 1]) <==> AnyDirty(rs[..k]) || rs[k].1)
  {
    assert rs[..k + 1][k] == rs[k] && forall j :: 0 <= j < k ==> rs[..k + 1][j] == rs[..k][j];
  }

  lemma {:induction false} SlowestAboveAppend(each: int, rs: seq<(int, bool)>, r: (int, bool))
    ensures SlowestAbove(each, rs + [r]) == Larger(SlowestAbove(each, rs), each + (if r.1 then r.0 * 2 else r.0))
  {
    if rs != [] {
      assert (rs + [r])[1..] == rs[1..] + [r];
      SlowestAboveAppend(each, rs[1..], r);
    }
  }

  lemma {:induction false} SlowestVictimAppend(each: int, rs: seq<(int, bool)>, r: (int, bool))
    ensures SlowestVictim(each, rs + [r]) == Larger(SlowestVictim(each, rs), r.0 + (if r.1 then each else 0))
  {
    if rs != [] {
      assert (rs + [r])[1..] == rs[1..] + [r];
      SlowestVictimAppend(each, rs[1..], r);
    }
  }
}
