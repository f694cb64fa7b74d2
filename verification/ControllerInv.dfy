/** What every reachable controller state satisfies, phase by phase. */
module ControllerInv {
  import opened DramTree
  import opened Timing
  import opened TimingRuns
  import opened Ddr3
  import opened Ddr3State
  import opened RowTable
  import opened Scheduler
  import opened Servings
  import opened ControllerSpec
  import opened ControllerWf

  // ------------------------------------------------------------------ timing

  /** The commands issued so far, at strictly increasing clocks, respect every timing
      entry, and the tree knows exactly what they demand. */
  ghost predicate Timed(cfg: Config, c: Ctrl) {
    && Explains(TablesOf(cfg), c.tree, c.log.issued) && Safe(TablesOf(cfg), c.tree, c.log.issued, ROW)
    && (forall i :: 0 <= i < |c.log.issued| ==> 0 <= c.log.issued[i].clk <= c.clk)
    && (forall i, j :: 0 <= i < j < |c.log.issued| ==> c.log.issued[i].clk < c.log.issued[j].clk)
  }

  lemma SafeSameNodes(cfg: Config, a: Tree, b: Tree, run: seq<Issued<Command>>)
    requires SameNodes(b, a) && Shape(b, ROW) && Safe(TablesOf(cfg), a, run, ROW)
    ensures Safe(TablesOf(cfg), b, run, ROW)
  {
    hide Tables;
    forall j | 0 <= j < |run|
      ensures Allowed(TablesOf(cfg), b, run[..j], run[j].cmd, run[j].addr, run[j].clk, ROW)
    {
      SameNodesAllowed(TablesOf(cfg), b, a, run[..j], run[j].cmd, run[j].addr, run[j].clk, ROW);
    }
  }

  lemma ServeCallTimed(cfg: Config, c: Ctrl, req: Request, delta: int)
    requires Wf(cfg, c) && ReqOk(cfg, req) && Timed(cfg, c)
    ensures Timed(cfg, ServeCall(cfg, c, req, delta))
  {
    hide Tables, Mirrors, Channel, View, Explains, Safe, TreeOk;
    ServeCallWf(cfg, c, req, delta);
    var c' := ServeCall(cfg, c, req, delta);
    SameTimingSym(c'.tree, c.tree);
    SameTimingExplains(TablesOf(cfg), c.tree, c'.tree, c.log.issued);
    SameTimingNodes(c'.tree, c.tree);
    SafeSameNodes(cfg, c.tree, c'.tree, c.log.issued);
  }

  /** A ready command respects every timing entry, and the tree remembers it. */
  lemma IssuedForTimed(cfg: Config, c: Ctrl, kind: Kind, i: nat)
    requires Wf(cfg, c) && i < |Queue(c, kind)| && Timed(cfg, c) && QueueOk(cfg, c, kind)
    requires Ready(cfg, c, Queue(c, kind)[i])
    requires forall k :: 0 <= k < |c.log.issued| ==> c.log.issued[k].clk < c.clk
    ensures Timed(cfg, IssuedFor(cfg, c, kind, i))
  {
    hide *;
    QueueReqs(cfg, c, kind);
    var req := Queue(c, kind)[i];
    var x := Issued(FirstCmd(cfg, c, req), req.addrVec, c.clk);
    ReadyFits(cfg, c, req);
    TimedParts(cfg, c);
    SafeUpdate(cfg, c.tree, c.log.issued, x);
    IssuedForIs(cfg, c, kind, i);
    TimedIntro(cfg, IssuedFor(cfg, c, kind, i), c.log.issued, x);
  }

  /** A ready command is one that update can take. */
  lemma ReadyFits(cfg: Config, c: Ctrl, req: Request)
    requires Wf(cfg, c) && ReqOk(cfg, req)
    ensures var x := Issued(FirstCmd(cfg, c, req), req.addrVec, c.clk); var spec := TablesOf(cfg);
      && TableOk(spec) && EffectOk(spec) && TreeOk(spec, c.tree) && Fits(spec, c.tree, x, ROW)
      && x.clk >= 0 && Shape(c.tree, ROW) && ROW < |x.addr| && InRange(c.tree, x.addr, ROW)
      && (Ready(cfg, c, req) <==> Check(spec, c.tree, x.cmd, x.addr, x.clk, ROW))
  {
    TablesOk(cfg.speed);
    FirstCmdFits(cfg, c, req);
    AddrFits(cfg.speed, c.tree, FirstCmd(cfg, c, req), req.addrVec, c.clk, cfg.ch, cfg.nRanks, cfg.nBanks);
    hide Tables, Mirrors, View, TreeOk, TableOk, EffectOk, Fits, QueueOk, PendingOk, FirstCmd, Check, InRange;
  }

  lemma TimedParts(cfg: Config, c: Ctrl)
    requires Timed(cfg, c)
    ensures Explains(TablesOf(cfg), c.tree, c.log.issued) && Safe(TablesOf(cfg), c.tree, c.log.issued, ROW)
    ensures forall i :: 0 <= i < |c.log.issued| ==> 0 <= c.log.issued[i].clk <= c.clk
    ensures forall i, j :: 0 <= i < j < |c.log.issued| ==> c.log.issued[i].clk < c.log.issued[j].clk
  {
    hide Explains, Safe;
  }

  lemma TimedIntro(cfg: Config, d: Ctrl, run: seq<Issued<Command>>, x: Issued<Command>)
    requires Explains(TablesOf(cfg), d.tree, run + [x]) && Safe(TablesOf(cfg), d.tree, run + [x], ROW)
    requires d.log.issued == run + [x] && d.clk == x.clk >= 0
    requires forall i :: 0 <= i < |run| ==> 0 <= run[i].clk < x.clk
    requires forall i, j :: 0 <= i < j < |run| ==> run[i].clk < run[j].clk
    ensures Timed(cfg, d)
  {
    hide Explains, Safe;
  }

  lemma IssuedForIs(cfg: Config, c: Ctrl, kind: Kind, i: nat)
    requires Wf(cfg, c) && i < |Queue(c, kind)| && ReqOk(cfg, Queue(c, kind)[i])
    requires var x := Issued(FirstCmd(cfg, c, Queue(c, kind)[i]), Queue(c, kind)[i].addrVec, c.clk);
      && TableOk(TablesOf(cfg)) && EffectOk(TablesOf(cfg)) && TreeOk(TablesOf(cfg), c.tree)
      && Fits(TablesOf(cfg), c.tree, x, ROW)
    ensures var d := IssuedFor(cfg, c, kind, i);
      var x := Issued(FirstCmd(cfg, c, Queue(c, kind)[i]), Queue(c, kind)[i].addrVec, c.clk);
      && d.tree == Update(TablesOf(cfg), c.tree, x, ROW) && d.log.issued == c.log.issued + [x] && d.clk == c.clk
      && d.log.calls == c.log.calls
  {
    hide Wf, ReqOk, Tables, TableOk, EffectOk, TreeOk, Fits, FirstCmd, Update, NextRows;
  }

  /** What check lets through keeps the run safe, and update remembers it. */
  lemma SafeUpdate(cfg: Config, t: Tree, run: seq<Issued<Command>>, x: Issued<Command>)
    requires var spec := TablesOf(cfg);
      && TableOk(spec) && EffectOk(spec) && TreeOk(spec, t) && Fits(spec, t, x, ROW)
      && Shape(t, ROW) && ROW < |x.addr| && InRange(t, x.addr, ROW) && x.clk >= 0
      && Explains(spec, t, run) && Safe(spec, t, run, ROW) && Check(spec, t, x.cmd, x.addr, x.clk, ROW)
    requires forall i :: 0 <= i < |run| ==> run[i].clk >= 0
    ensures Explains(TablesOf(cfg), Update(TablesOf(cfg), t, x, ROW), run + [x])
    ensures Safe(TablesOf(cfg), Update(TablesOf(cfg), t, x, ROW), run + [x], ROW)
  {
    hide *;
    UpdateKeeps(TablesOf(cfg), t, run, x, ROW);
    CheckExact(TablesOf(cfg), t, run, x.cmd, x.addr, x.clk, ROW);
    SafeExtends(cfg, t, run, x);
    SafeSameNodes(cfg, t, Update(TablesOf(cfg), t, x, ROW), run + [x]);
  }

  lemma SafeExtends(cfg: Config, t: Tree, run: seq<Issued<Command>>, x: Issued<Command>)
    requires Safe(TablesOf(cfg), t, run, ROW) && ROW < |x.addr|
    requires Allowed(TablesOf(cfg), t, run, x.cmd, x.addr, x.clk, ROW)
    ensures Safe(TablesOf(cfg), t, run + [x], ROW)
  {
    hide Tables, Allowed;
    var run' := run + [x];
    forall j | 0 <= j < |run'|
      ensures ROW < |run'[j].addr| && Allowed(TablesOf(cfg), t, run'[..j], run'[j].cmd, run'[j].addr, run'[j].clk, ROW)
    {
      assert run'[..j] == run[..j];
    }
  }

  // -------------------------------------------------------- serving counters

  ghost predicate Tallied(c: Ctrl) {
    && Counted(c.tree, c.log.calls)
    && (forall i :: 0 <= i < |c.log.calls| ==>
          0 <= c.log.calls[i].clk <= c.clk && (c.log.calls[i].delta == 1 || c.log.calls[i].delta == -1))
    && (forall i, j :: 0 <= i < j < |c.log.calls| ==> c.log.calls[i].clk <= c.log.calls[j].clk)
  }

  lemma ServeCallTallied(cfg: Config, c: Ctrl, req: Request, delta: int)
    requires Wf(cfg, c) && ReqOk(cfg, req) && Tallied(c) && (delta == 1 || delta == -1)
    ensures Tallied(ServeCall(cfg, c, req, delta))
  {
    hide Tables, Mirrors, View, TreeOk, Counted;
    AddrFits(cfg.speed, c.tree, RD, req.addrVec, c.clk, cfg.ch, cfg.nRanks, cfg.nBanks);
    ServingStep(c.tree, c.log.calls, req.addrVec, delta, c.clk, BANK, ROW);
  }

  /** Equal serving counters at every node. */
  ghost predicate SameCounters(a: Tree, b: Tree) {
    a.serving == b.serving && |a.children| == |b.children|
    && forall i :: 0 <= i < |a.children| ==> SameCounters(a.children[i], b.children[i])
  }

  lemma {:induction false} SameCountersRefl(a: Tree)
    ensures SameCounters(a, a)
  {
    forall i | 0 <= i < |a.children|
      ensures SameCounters(a.children[i], a.children[i])
    {
      SameCountersRefl(a.children[i]);
    }
  }

  lemma EffectCounters(p: Command, n: Tree, id: int)
    ensures SameCounters(Effect(p, n, id), n)
  {
    SameCountersRefl(n);
    forall i | 0 <= i < |n.children| ensures SameCounters(CloseAll(n.children)[i], n.children[i]) {
      SameCountersRefl(n.children[i]);
    }
  }

  lemma {:induction false} SameCountersSub(a: Tree, b: Tree, p: seq<int>)
    requires SameCounters(a, b)
    ensures At(a, p) <==> At(b, p)
    ensures At(a, p) ==> Sub(a, p).serving == Sub(b, p).serving
    decreases p
  {
    if p != [] && 0 <= p[0] < |a.children| { SameCountersSub(a.children[p[0]], b.children[p[0]], p[1..]); }
  }

  lemma {:induction false} SameCountersTrans(a: Tree, b: Tree, d: Tree)
    requires SameCounters(a, b) && SameCounters(b, d)
    ensures SameCounters(a, d)
    decreases a
  {
    forall i | 0 <= i < |a.children| ensures SameCounters(a.children[i], d.children[i]) {
      SameCountersTrans(a.children[i], b.children[i], d.children[i]);
    }
  }

  lemma {:induction false} UpdateStateCounters(s: Speed, t: Tree, p: Command, addr: seq<int>)
    requires EffectOk(Tables(s)) && Shape(t, ROW) && ROW < |addr| && Descends(Tables(s), t, p, addr, ROW)
    ensures SameCounters(UpdateState(Tables(s), t, p, addr, ROW), t)
    decreases ROW - t.level
  {
    hide Effect, TimingTable, Prereq, RowHit, RowOpen;
    var spec := Tables(s);
    var k := addr[t.level + 1];
    var u := spec.effect(p, t, k);
    EffectCounters(p, t, k);
    SameTimingShape(spec, u, t, addr, ROW);
    SameTimingDescends(spec, u, t, p, addr, ROW);
    if t.level != spec.scope(p) && t.children != [] {
      UpdateStateCounters(s, u.children[k], p, addr);
      var kid := UpdateState(spec, u.children[k], p, addr, ROW);
      assert UpdateState(spec, t, p, addr, ROW) == u.(children := u.children[k := kid]);
      CountersReplace(u, k, kid);
      hide *;
      SameCountersTrans(u.(children := u.children[k := kid]), u, t);
    }
  }

  lemma CountersReplace(u: Tree, k: int, kid: Tree)
    requires 0 <= k < |u.children| && SameCounters(kid, u.children[k])
    ensures SameCounters(u.(children := u.children[k := kid]), u)
  {
    forall i | 0 <= i < |u.children| ensures SameCounters(u.children[k := kid][i], u.children[i]) {
      SameCountersRefl(u.children[i]);
    }
  }

  lemma {:induction false} UpdateTimingCounters(spec: Spec<Command, State>, t: Tree, p: Command, addr: seq<int>,
        clk: int)
    requires TableOk(spec) && TreeOk(spec, t) && Shape(t, ROW) && ROW < |addr|
    ensures SameCounters(UpdateTiming(spec, t, p, addr, clk, ROW), t)
    decreases t
  {
    SameCountersRefl(t);
    forall i | 0 <= i < |t.children|
      ensures SameCounters(UpdateTiming(spec, t.children[i], p, addr, clk, ROW), t.children[i])
    {
      UpdateTimingCounters(spec, t.children[i], p, addr, clk);
    }
  }

  lemma IssuedForTallied(cfg: Config, c: Ctrl, kind: Kind, i: nat)
    requires Wf(cfg, c) && i < |Queue(c, kind)| && Tallied(c) && QueueOk(cfg, c, kind)
    ensures Tallied(IssuedFor(cfg, c, kind, i))
  {
    hide Mirrors, View, Effect, Prereq, TimingTable, Tallied, PendingOk;
    var spec := TablesOf(cfg);
    var req := Queue(c, kind)[i];
    var x := Issued(FirstCmd(cfg, c, req), req.addrVec, c.clk);
    TablesOk(cfg.speed);
    FirstCmdFits(cfg, c, req);
    AddrFits(cfg.speed, c.tree, x.cmd, x.addr, x.clk, cfg.ch, cfg.nRanks, cfg.nBanks);
    var u := UpdateState(spec, c.tree, x.cmd, x.addr, ROW);
    SameTimingShape(spec, u, c.tree, x.addr, ROW);
    UpdateStateCounters(cfg.speed, c.tree, x.cmd, x.addr);
    UpdateTimingCounters(spec, u, x.cmd, x.addr, x.clk);
    var t' := Update(spec, c.tree, x, ROW);
    SameCountersTrans(t', u, c.tree);
    var c' := IssuedFor(cfg, c, kind, i);
    assert c'.tree == t' && c'.log.calls == c.log.calls && c'.clk == c.clk;
    hide *;
    TalliedCounters(c, c');
  }

  lemma TalliedCounters(c: Ctrl, d: Ctrl)
    requires Tallied(c) && SameCounters(d.tree, c.tree) && d.log.calls == c.log.calls && d.clk == c.clk
    ensures Tallied(d)
  {
    forall p | At(d.tree, p) ensures Sub(d.tree, p).serving == Folded(Seen(c.log.calls, p)) {
      SameCountersSub(d.tree, c.tree, p);
    }
  }
}
