/** Every phase of the controller keeps it well formed: the tree keeps its shape, the
    row table mirrors the tree, no queue outgrows its bound. */
module ControllerWf {
  import opened DramTree
  import opened Timing
  import opened TimingRuns
  import opened Ddr3
  import opened Ddr3State
  import opened RowTable
  import opened Scheduler
  import opened Servings
  import opened ControllerSpec

  lemma ServeCallWf(cfg: Config, c: Ctrl, req: Request, delta: int)
    requires Wf(cfg, c) && ReqOk(cfg, req)
    ensures Wf(cfg, ServeCall(cfg, c, req, delta))
    ensures View(ServeCall(cfg, c, req, delta).tree) == View(c.tree)
    ensures SameTiming(ServeCall(cfg, c, req, delta).tree, c.tree)
  {
    ServingKeepsView(c.tree, req.addrVec, delta, c.clk, cfg.ch, cfg.nRanks, cfg.nBanks);
    SameTimingShape(TablesOf(cfg), UpdateServing(c.tree, req.addrVec, delta, c.clk, BANK, ROW), c.tree, req.addrVec,
      ROW);
    var c' := ServeCall(cfg, c, req, delta);
    assert QueueOk(cfg, c', READ) && QueueOk(cfg, c', WRITE) && QueueOk(cfg, c', REFRESH);
  }

  lemma SetQueueWf(cfg: Config, c: Ctrl, kind: Kind, q: seq<Request>)
    requires Wf(cfg, c) && |q| <= QUEUE_MAX
    requires forall i :: 0 <= i < |q| ==> q[i].kind == kind && ReqOk(cfg, q[i]) && q[i].arrive <= c.clk
    ensures Wf(cfg, SetQueue(c, kind, q))
  {
    hide Mirrors, Channel, TreeOk, AddrOk;
    var c' := SetQueue(c, kind, q);
    assert QueueOk(cfg, c, READ) && QueueOk(cfg, c, WRITE) && QueueOk(cfg, c, REFRESH);
    assert QueueOk(cfg, c', READ) && QueueOk(cfg, c', WRITE) && QueueOk(cfg, c', REFRESH);
  }

  /** With the same tree and row table only the requests need looking at. */
  lemma WfIntro(cfg: Config, c: Ctrl, d: Ctrl)
    requires Wf(cfg, c) && d.tree == c.tree && d.rows == c.rows && d.clk >= c.clk
    requires QueueOk(cfg, d, READ) && QueueOk(cfg, d, WRITE) && QueueOk(cfg, d, REFRESH)
    requires forall i :: 0 <= i < |d.pending| ==> PendingOk(cfg, d.pending[i])
    ensures Wf(cfg, d)
  {
    hide Mirrors, Channel, TreeOk, View, QueueOk, PendingOk;
  }

  lemma WfParts(cfg: Config, c: Ctrl)
    requires Wf(cfg, c)
    ensures QueueOk(cfg, c, READ) && QueueOk(cfg, c, WRITE) && QueueOk(cfg, c, REFRESH)
    ensures forall i :: 0 <= i < |c.pending| ==> PendingOk(cfg, c.pending[i])
    ensures forall kind :: |Queue(c, kind)| <= QUEUE_MAX
  {
    hide Mirrors, Channel, TreeOk, View, ReqOk, PendingOk;
    forall kind ensures |Queue(c, kind)| <= QUEUE_MAX {
      match kind { case READ => case WRITE => case REFRESH => }
    }
  }

  lemma KeepOk(cfg: Config, c: Ctrl, d: Ctrl, kind: Kind)
    requires QueueOk(cfg, c, kind) && Queue(d, kind) == Queue(c, kind) && d.clk >= c.clk
    ensures QueueOk(cfg, d, kind)
  {
    hide ReqOk, Queue;
  }

  lemma AppendOk(cfg: Config, c: Ctrl, d: Ctrl, kind: Kind, rs: seq<Request>)
    requires QueueOk(cfg, c, kind) && Queue(d, kind) == Queue(c, kind) + rs && d.clk >= c.clk
    requires |Queue(c, kind)| + |rs| <= QUEUE_MAX
    requires forall i :: 0 <= i < |rs| ==> rs[i].kind == kind && ReqOk(cfg, rs[i]) && rs[i].arrive <= d.clk
    ensures QueueOk(cfg, d, kind)
  {
    hide ReqOk, Queue;
  }

  lemma EnqueuedWf(cfg: Config, c: Ctrl, req: Request)
    requires Wf(cfg, c) && ReqOk(cfg, req) && !Full(c, req)
    ensures Wf(cfg, Enqueued(c, req))
  {
    hide *;
    WfParts(cfg, c);
    var d := Enqueued(c, req);
    var r := Accepted(c, req);
    AcceptedOk(cfg, c, req);
    EnqueuedIs(c, req);
    forall kind ensures QueueOk(cfg, d, kind) {
      match kind { case READ => case WRITE => case REFRESH => }
      if kind == req.kind && !Forwards(c, req) {
        AppendOk(cfg, c, d, kind, [r]);
      } else {
        KeepOk(cfg, c, d, kind);
      }
    }
    WfIntro(cfg, c, d);
  }

  lemma AcceptedOk(cfg: Config, c: Ctrl, req: Request)
    requires ReqOk(cfg, req)
    ensures var r := Accepted(c, req); r.kind == req.kind && ReqOk(cfg, r) && r.arrive == c.clk
    ensures req.kind == READ ==> PendingOk(cfg, Accepted(c, req).(depart := c.clk + 1))
    ensures !Full(c, req) <==> |Queue(c, req.kind)| != QUEUE_MAX
  {
    hide AddrOk;
  }

  lemma EnqueuedIs(c: Ctrl, req: Request)
    ensures var d := Enqueued(c, req); var r := Accepted(c, req);
      && d.tree == c.tree && d.rows == c.rows && d.clk == c.clk
      && (forall k :: k != req.kind || Forwards(c, req) ==> Queue(d, k) == Queue(c, k))
      && (if Forwards(c, req) then req.kind == READ && d.pending == c.pending + [r.(depart := c.clk + 1)]
          else d.pending == c.pending && Queue(d, req.kind) == Queue(c, req.kind) + [r])
  {}

  lemma ClockedWf(cfg: Config, c: Ctrl)
    requires Wf(cfg, c)
    ensures Wf(cfg, Clocked(c))
  {
    hide *;
    WfParts(cfg, c);
    ClockedIs(c);
    SameQueuesOk(cfg, c, Clocked(c));
    WfIntro(cfg, c, Clocked(c));
  }

  lemma ClockedIs(c: Ctrl)
    ensures Clocked(c) == c.(clk := c.clk + 1)
  {}

  lemma ServedWf(cfg: Config, c: Ctrl)
    requires Wf(cfg, c)
    ensures Wf(cfg, Served(cfg, c))
  {
    hide Mirrors, Channel, TreeOk, AddrOk;
    if c.pending != [] && c.pending[0].depart <= c.clk {
      var req := c.pending[0];
      assert PendingOk(cfg, req);
      if req.depart - req.arrive > 1 { ServeCallWf(cfg, c, req, -1); }
      var c' := Served(cfg, c);
      assert QueueOk(cfg, c', READ) && QueueOk(cfg, c', WRITE) && QueueOk(cfg, c', REFRESH);
    }
  }

  lemma RefreshedWf(cfg: Config, c: Ctrl)
    requires Wf(cfg, c) && RefreshFits(cfg, c)
    ensures Wf(cfg, Refreshed(cfg, c))
  {
    hide *;
    WfParts(cfg, c);
    RefreshedIs(cfg, c);
    var d := Refreshed(cfg, c);
    KeepOk(cfg, c, d, READ);
    KeepOk(cfg, c, d, WRITE);
    if RefreshDue(cfg, c) {
      RefreshesOk(cfg, c);
      AppendOk(cfg, c, d, REFRESH, Refreshes(cfg, c.clk));
    } else {
      KeepOk(cfg, c, d, REFRESH);
    }
    WfIntro(cfg, c, d);
  }

  lemma RefreshedIs(cfg: Config, c: Ctrl)
    ensures var d := Refreshed(cfg, c);
      && d.tree == c.tree && d.rows == c.rows && d.clk == c.clk && d.pending == c.pending
      && Queue(d, READ) == Queue(c, READ) && Queue(d, WRITE) == Queue(c, WRITE)
      && (RefreshDue(cfg, c) ==> Queue(d, REFRESH) == Queue(c, REFRESH) + Refreshes(cfg, c.clk))
      && (!RefreshDue(cfg, c) ==> Queue(d, REFRESH) == Queue(c, REFRESH))
    ensures RefreshFits(cfg, c) && RefreshDue(cfg, c) ==> |Queue(c, REFRESH)| + cfg.nRanks <= QUEUE_MAX
  {
    hide Refreshes, RefreshDue;
  }

  lemma RefreshesOk(cfg: Config, c: Ctrl)
    ensures var rs := Refreshes(cfg, c.clk);
      |rs| == cfg.nRanks
      && forall i :: 0 <= i < |rs| ==> rs[i].kind == REFRESH && ReqOk(cfg, rs[i]) && rs[i].arrive <= c.clk
  {}

  lemma ModedWf(cfg: Config, c: Ctrl)
    requires Wf(cfg, c)
    ensures Wf(cfg, Moded(c))
  {
    hide *;
    WfParts(cfg, c);
    ModedIs(c);
    SameQueuesOk(cfg, c, Moded(c));
    WfIntro(cfg, c, Moded(c));
  }

  lemma ModedIs(c: Ctrl)
    ensures Moded(c) == c.(writeMode := Moded(c).writeMode)
  {}

  lemma StartedWf(cfg: Config, c: Ctrl, kind: Kind, i: nat)
    requires Wf(cfg, c) && i < |Queue(c, kind)|
    ensures Wf(cfg, Started(cfg, c, kind, i)) && |Queue(Started(cfg, c, kind, i), kind)| == |Queue(c, kind)|
    ensures View(Started(cfg, c, kind, i).tree) == View(c.tree) && SameTiming(Started(cfg, c, kind, i).tree, c.tree)
    ensures Queue(Started(cfg, c, kind, i), kind)[i] == Queue(c, kind)[i].(first := false)
    ensures Started(cfg, c, kind, i).rows == c.rows && Started(cfg, c, kind, i).clk == c.clk
  {
    hide Mirrors, Channel, TreeOk, AddrOk, View, SameTiming;
    assert QueueOk(cfg, c, kind);
    var q := Queue(c, kind);
    SameTimingRefl(c.tree);
    if q[i].first {
      var c1 := c;
      if kind != REFRESH {
        ServeCallWf(cfg, c, q[i], 1);
        c1 := ServeCall(cfg, c, q[i], 1);
      }
      SetQueueWf(cfg, c1, kind, q[i := q[i].(first := false)]);
    }
  }

  lemma IssuedForWf(cfg: Config, c: Ctrl, kind: Kind, i: nat)
    requires Wf(cfg, c) && i < |Queue(c, kind)|
    ensures Wf(cfg, IssuedFor(cfg, c, kind, i))
    ensures Queue(IssuedFor(cfg, c, kind, i), kind) == Queue(c, kind)
  {
    hide Mirrors, Channel, TreeOk, AddrOk, NextTree, NextRows;
    assert QueueOk(cfg, c, kind);
    NextMirrors(cfg, c, Queue(c, kind)[i]);
    var c' := IssuedFor(cfg, c, kind, i);
    SameQueuesOk(cfg, c, c');
  }

  lemma SameQueuesOk(cfg: Config, c: Ctrl, d: Ctrl)
    requires QueueOk(cfg, c, READ) && QueueOk(cfg, c, WRITE) && QueueOk(cfg, c, REFRESH)
    requires d.readq == c.readq && d.writeq == c.writeq && d.otherq == c.otherq && d.clk >= c.clk
    ensures QueueOk(cfg, d, READ) && QueueOk(cfg, d, WRITE) && QueueOk(cfg, d, REFRESH)
  {
    hide ReqOk;
  }

  lemma FinishedWf(cfg: Config, c: Ctrl, kind: Kind, i: nat)
    requires Wf(cfg, c) && i < |Queue(c, kind)|
    requires kind == READ ==> !Queue(c, kind)[i].first
    ensures Wf(cfg, Finished(cfg, c, kind, i))
  {
    hide Mirrors, Channel, TreeOk, AddrOk;
    assert QueueOk(cfg, c, kind);
    var q := Queue(c, kind);
    var req := q[i];
    var c1 := c;
    if kind == READ {
      c1 := c.(pending := c.pending + [req.(depart := c.clk + ReadLatency(cfg))]);
      assert QueueOk(cfg, c1, READ) && QueueOk(cfg, c1, WRITE) && QueueOk(cfg, c1, REFRESH);
    } else if kind == WRITE {
      ServeCallWf(cfg, c, req, -1);
      var d := ServeCall(cfg, c, req, -1);
      c1 := d.(log := d.log.(finished := d.log.finished + [Done(req, c.clk)]));
      assert QueueOk(cfg, c1, READ) && QueueOk(cfg, c1, WRITE) && QueueOk(cfg, c1, REFRESH);
    }
    SetQueueWf(cfg, c1, kind, q[..i] + q[i + 1..]);
  }

  /** Serving counters do not change which command comes first, nor when it is ready. */
  lemma SameFirstCmd(cfg: Config, c: Ctrl, d: Ctrl, req: Request, req': Request)
    requires Wf(cfg, c) && Wf(cfg, d) && ReqOk(cfg, req) && ReqOk(cfg, req')
    requires View(c.tree) == View(d.tree) && SameTiming(d.tree, c.tree) && c.clk == d.clk
    requires req.kind == req'.kind && req.addrVec == req'.addrVec
    ensures FirstCmd(cfg, c, req) == FirstCmd(cfg, d, req') && Ready(cfg, c, req) == Ready(cfg, d, req')
  {
    DecodeIsView(cfg.speed, c.tree, Translate(req.kind), req.addrVec, cfg.ch, cfg.nRanks, cfg.nBanks);
    DecodeIsView(cfg.speed, d.tree, Translate(req.kind), req.addrVec, cfg.ch, cfg.nRanks, cfg.nBanks);
    var p := FirstCmd(cfg, c, req);
    SameTimingCheck(TablesOf(cfg), d.tree, c.tree, p, req.addrVec, c.clk, ROW);
  }

  lemma {:induction false} SameTimingCheck<C, S>(spec: Spec<C, S>, a: Node<C, S>, b: Node<C, S>, p: C,
        addr: seq<int>, clk: int, rowLevel: int)
    requires SameTiming(a, b) && Shape(a, rowLevel) && Shape(b, rowLevel) && rowLevel < |addr|
    requires InRange(a, addr, rowLevel) && InRange(b, addr, rowLevel)
    ensures Check(spec, a, p, addr, clk, rowLevel) == Check(spec, b, p, addr, clk, rowLevel)
    decreases a
  {
    if !Stops(spec, a, p, addr) {
      SameTimingCheck(spec, a.children[addr[a.level + 1]], b.children[addr[a.level + 1]], p, addr, clk, rowLevel);
    }
  }

  // --------------------------------------------------------- the whole tick

  /** Start the service of a request if need be, issue its first command, and finish it
      when that was its last one. */
  ghost function Executed(cfg: Config, c: Ctrl, kind: Kind, h: nat): (r: Ctrl)
    requires Wf(cfg, c) && h < |Queue(c, kind)|
    ensures SameAccepted(c, r) && SameClocks(c, r)
  {
    QueueReqs(cfg, c, kind);
    var p := FirstCmd(cfg, c, Queue(c, kind)[h]);
    StartedWf(cfg, c, kind, h);
    var c1 := Started(cfg, c, kind, h);
    IssuedForWf(cfg, c1, kind, h);
    var c2 := IssuedFor(cfg, c1, kind, h);
    if p != Translate(kind) then c2 else Finished(cfg, c2, kind, h)
  }

  /** 4. Schedule the best request, at index h of the active queue. */
  ghost function Scheduled(cfg: Config, c: Ctrl, h: nat): (r: Ctrl)
    requires Wf(cfg, c) && h <= |Queue(c, Active(c))|
    ensures SameAccepted(c, r) && SameClocks(c, r)
  {
    QueueReqs(cfg, c, Active(c));
    if h == |Queue(c, Active(c))| || !Ready(cfg, c, Queue(c, Active(c))[h]) then c
    else Executed(cfg, c, Active(c), h)
  }

  /** The state in front of the scheduling phase. */
  ghost function Prepared(cfg: Config, c: Ctrl): (r: Ctrl)
    requires Wf(cfg, c) && RefreshFits(cfg, c)
    ensures Wf(cfg, r) && SameAccepted(c, r)
  {
    hide Wf, Served, Refreshes;
    ClockedWf(cfg, c);
    var c1 := Clocked(c);
    ServedWf(cfg, c1);
    var c2 := Served(cfg, c1);
    RefreshedWf(cfg, c2);
    var c3 := Refreshed(cfg, c2);
    ModedWf(cfg, c3);
    Moded(c3)
  }

  lemma PreparedClocks(cfg: Config, c: Ctrl)
    requires Wf(cfg, c) && RefreshFits(cfg, c)
    ensures var r := Prepared(cfg, c);
      && r.clk == c.clk + 1 && r.refClk == c.refClk + 1
      && r.refreshed == if RefreshDue(cfg, c) then c.refClk + 1 else c.refreshed
  {
    hide Wf, Served, Refreshes, RefreshFits;
  }

  /** One tick takes c to c': the scheduler's head decides the rest. */
  ghost predicate Ticks(cfg: Config, c: Ctrl, c': Ctrl)
    requires Wf(cfg, c) && RefreshFits(cfg, c)
  {
    var b := Prepared(cfg, c);
    exists h: nat :: IsHead(Items(cfg, b, Active(b)), h) && h <= |Queue(b, Active(b))| && c' == Scheduled(cfg, b, h)
  }

  lemma TicksIntro(cfg: Config, c: Ctrl, h: nat)
    requires Wf(cfg, c) && RefreshFits(cfg, c) && h <= |Queue(Prepared(cfg, c), Active(Prepared(cfg, c)))|
    requires IsHead(Items(cfg, Prepared(cfg, c), Active(Prepared(cfg, c))), h)
    ensures Ticks(cfg, c, Scheduled(cfg, Prepared(cfg, c), h))
  {
    hide Wf, IsHead, Items, Scheduled, Prepared, RefreshFits;
  }

  lemma PendingReqs(cfg: Config, c: Ctrl)
    requires Wf(cfg, c)
    ensures forall i :: 0 <= i < |c.pending| ==> ReqOk(cfg, c.pending[i]) && c.pending[i].kind == READ
  {
    forall i | 0 <= i < |c.pending| ensures ReqOk(cfg, c.pending[i]) && c.pending[i].kind == READ {
      assert PendingOk(cfg, c.pending[i]);
    }
  }

  lemma QueueReqs(cfg: Config, c: Ctrl, kind: Kind)
    requires Wf(cfg, c)
    ensures forall i :: 0 <= i < |Queue(c, kind)| ==> ReqOk(cfg, Queue(c, kind)[i]) && Queue(c, kind)[i].kind == kind
  {
    assert QueueOk(cfg, c, kind);
  }

  lemma ItemsAt(cfg: Config, c: Ctrl, kind: Kind)
    requires Wf(cfg, c)
    ensures |Items(cfg, c, kind)| == |Queue(c, kind)|
    ensures forall i :: 0 <= i < |Queue(c, kind)| ==>
      ReqOk(cfg, Queue(c, kind)[i]) && Items(cfg, c, kind)[i] == ItemOf(cfg, c, Queue(c, kind)[i])
  {
    QueueReqs(cfg, c, kind);
  }
}
