/** Runs of the controller: every interleaving of accepted requests and clock ticks. */
module ControllerRuns {
  import opened DramTree
  import opened Timing
  import opened TimingRuns
  import opened Ddr3
  import opened Ddr3State
  import opened RowTable
  import opened Scheduler
  import opened Servings
  import opened ControllerSpec
  import opened ControllerWf
  import opened ControllerInv
  import opened ControllerFlow

  /** The invariant of the controller. */
  ghost predicate Inv(cfg: Config, c: Ctrl) {
    match c
    case Ctrl(_, _, _, _, _, _, _, _, _, _, _) =>
      Wf(cfg, c) && Timed(cfg, c) && Tallied(c) && Loads(c) && Floored(c) && Conserved(c) && Ordered(c)
        && Sourced(cfg, c)
  }

  /** No command has been issued at the current clock. */
  ghost predicate Quiet(c: Ctrl) { forall k :: 0 <= k < |c.log.issued| ==> c.log.issued[k].clk < c.clk }

  lemma TimedFrame(cfg: Config, c: Ctrl, d: Ctrl)
    requires Timed(cfg, c) && d.tree == c.tree && d.log.issued == c.log.issued && c.clk <= d.clk
    ensures Timed(cfg, d)
  {}

  lemma TalliedFrame(c: Ctrl, d: Ctrl)
    requires Tallied(c) && d.tree == c.tree && d.log.calls == c.log.calls && c.clk <= d.clk
    ensures Tallied(d)
  {}

  lemma LoadsFrame(c: Ctrl, d: Ctrl)
    requires Loads(c) && d.log.calls == c.log.calls && d.readq == c.readq && d.writeq == c.writeq
        && d.pending == c.pending
    ensures Loads(d)
  {
    forall p ensures Folded(Seen(d.log.calls, p)).cur == TotalLoad(d, p) {
      assert Folded(Seen(c.log.calls, p)).cur == TotalLoad(c, p);
    }
  }

  /** Conservation and order only look at the read and write queues and their records. */
  lemma FlowFrame(c: Ctrl, d: Ctrl)
    requires Conserved(c) && Ordered(c)
    requires d.readq == c.readq && d.writeq == c.writeq && d.pending == c.pending
    requires d.log.(issued := [], calls := []) == c.log.(issued := [], calls := [])
    ensures Conserved(d) && Ordered(d)
  {}

  lemma SourcedFrame(cfg: Config, c: Ctrl, d: Ctrl)
    requires Sourced(cfg, c) && d.pending == c.pending && d.log.(calls := []) == c.log.(calls := [])
    ensures Sourced(cfg, d)
  {}

  lemma QuietFrame(c: Ctrl, d: Ctrl)
    requires Quiet(c) && d.log.issued == c.log.issued && d.clk == c.clk
    ensures Quiet(d)
  {}

  /** A phase that moves neither reads nor writes keeps everything but well-formedness. */
  lemma InvFrame(cfg: Config, c: Ctrl, d: Ctrl)
    requires Inv(cfg, c) && Wf(cfg, d) && d.tree == c.tree && d.log == c.log && c.clk <= d.clk
    requires d.readq == c.readq && d.writeq == c.writeq && d.pending == c.pending
    ensures Inv(cfg, d)
  {
    hide Wf, Timed, Tallied, Loads, Floored, Conserved, Ordered, Sourced;
    TimedFrame(cfg, c, d);
    TalliedFrame(c, d);
    LoadsFrame(c, d);
    FlooredStep(c, d, Call([], 0, 0));
    FlowFrame(c, d);
    SourcedFrame(cfg, c, d);
  }

  lemma EnqueuedInv(cfg: Config, c: Ctrl, req: Request)
    requires Inv(cfg, c) && ReqOk(cfg, req) && !Full(c, req)
    ensures Inv(cfg, Enqueued(c, req))
  {
    EnqueuedWf(cfg, c, req);
    EnqueuedLoads(cfg, c, req);
    EnqueuedConserved(c, req);
    EnqueuedOrdered(c, req);
    EnqueuedSourced(cfg, c, req);
    var d := Enqueued(c, req);
    FlooredStep(c, d, Call([], 0, 0));
    hide Wf, Loads, Floored, Conserved, Ordered, Sourced, Timed, Tallied;
    TimedFrame(cfg, c, d);
    TalliedFrame(c, d);
  }

  lemma ClockedInv(cfg: Config, c: Ctrl)
    requires Inv(cfg, c)
    ensures Inv(cfg, Clocked(c)) && Quiet(Clocked(c))
  {
    ClockedWf(cfg, c);
    ClockedQuiet(cfg, c);
    hide Wf, Inv;
    InvFrame(cfg, c, Clocked(c));
  }

  lemma ClockedQuiet(cfg: Config, c: Ctrl)
    requires Timed(cfg, c)
    ensures Quiet(Clocked(c))
  {}

  lemma ServedInv(cfg: Config, c: Ctrl)
    requires Inv(cfg, c) && Quiet(c)
    ensures Inv(cfg, Served(cfg, c)) && Quiet(Served(cfg, c)) && Served(cfg, c).otherq == c.otherq
    ensures Served(cfg, c).refClk == c.refClk && Served(cfg, c).refreshed == c.refreshed
  {
    hide Wf, Timed, Tallied, Loads, Floored, Conserved, Ordered, Sourced;
    ServedWf(cfg, c);
    ServedTimed(cfg, c);
    ServedLoads(cfg, c);
    ServedFloored(cfg, c);
    ServedConserved(cfg, c);
    ServedOrdered(cfg, c);
    ServedSourced(cfg, c);
  }

  lemma ServedFloored(cfg: Config, c: Ctrl)
    requires Wf(cfg, c) && Floored(c) && Loads(Served(cfg, c))
    ensures Floored(Served(cfg, c))
  {
    hide Mirrors, Channel, TreeOk, View, AddrOk, QueueOk, Floored, Loads;
    var e := Call([], 0, 0);
    if c.pending != [] {
      assert PendingOk(cfg, c.pending[0]);
      AddrLen(cfg, c.pending[0]);
      e := Call(c.pending[0].addrVec[1..], -1, c.clk);
    }
    FlooredStep(c, Served(cfg, c), e);
  }

  lemma ServedTimed(cfg: Config, c: Ctrl)
    requires Wf(cfg, c) && Timed(cfg, c) && Tallied(c)
    ensures Timed(cfg, Served(cfg, c)) && Tallied(Served(cfg, c))
  {
    if c.pending != [] && c.pending[0].depart <= c.clk {
      var req := c.pending[0];
      assert PendingOk(cfg, req);
      var c1 := c;
      if req.depart - req.arrive > 1 {
        ServeCallTimed(cfg, c, req, -1);
        ServeCallTallied(cfg, c, req, -1);
        c1 := ServeCall(cfg, c, req, -1);
      }
      hide Wf, Timed, Tallied;
      TimedFrame(cfg, c1, Served(cfg, c));
      TalliedFrame(c1, Served(cfg, c));
    }
  }

  lemma RefreshedInv(cfg: Config, c: Ctrl)
    requires Inv(cfg, c) && RefreshFits(cfg, c) && Quiet(c)
    ensures Inv(cfg, Refreshed(cfg, c)) && Quiet(Refreshed(cfg, c))
  {
    RefreshedWf(cfg, c);
    hide Wf, Inv, Quiet;
    InvFrame(cfg, c, Refreshed(cfg, c));
    QuietFrame(c, Refreshed(cfg, c));
  }

  lemma ModedInv(cfg: Config, c: Ctrl)
    requires Inv(cfg, c) && Quiet(c)
    ensures Inv(cfg, Moded(c)) && Quiet(Moded(c))
  {
    ModedWf(cfg, c);
    hide Wf, Inv, Quiet;
    InvFrame(cfg, c, Moded(c));
    QuietFrame(c, Moded(c));
  }

  lemma StartedInv(cfg: Config, c: Ctrl, kind: Kind, i: nat)
    requires Inv(cfg, c) && i < |Queue(c, kind)| && Quiet(c)
    ensures Inv(cfg, Started(cfg, c, kind, i)) && Quiet(Started(cfg, c, kind, i))
  {
    hide Wf, Timed, Tallied, Loads, Floored, Conserved, Ordered, Sourced, Quiet;
    StartedWf(cfg, c, kind, i);
    StartedTimed(cfg, c, kind, i);
    StartedLoads(cfg, c, kind, i);
    StartedFloored(cfg, c, kind, i);
    StartedConserved(cfg, c, kind, i);
    StartedOrdered(cfg, c, kind, i);
    StartedSourced(cfg, c, kind, i);
    QuietFrame(c, Started(cfg, c, kind, i));
  }

  lemma StartedFloored(cfg: Config, c: Ctrl, kind: Kind, i: nat)
    requires Wf(cfg, c) && i < |Queue(c, kind)| && Floored(c) && Loads(Started(cfg, c, kind, i))
    ensures Floored(Started(cfg, c, kind, i))
  {
    hide Mirrors, Channel, TreeOk, View, AddrOk, Floored, Loads;
    assert QueueOk(cfg, c, kind);
    AddrLen(cfg, Queue(c, kind)[i]);
    FlooredStep(c, Started(cfg, c, kind, i), Call(Queue(c, kind)[i].addrVec[1..], 1, c.clk));
  }

  lemma StartedTimed(cfg: Config, c: Ctrl, kind: Kind, i: nat)
    requires Wf(cfg, c) && Timed(cfg, c) && Tallied(c) && i < |Queue(c, kind)|
    ensures Timed(cfg, Started(cfg, c, kind, i)) && Tallied(Started(cfg, c, kind, i))
  {
    assert QueueOk(cfg, c, kind);
    var req := Queue(c, kind)[i];
    var c1 := c;
    if req.first && kind != REFRESH {
      ServeCallTimed(cfg, c, req, 1);
      ServeCallTallied(cfg, c, req, 1);
      c1 := ServeCall(cfg, c, req, 1);
    }
    hide Wf, Timed, Tallied;
    TimedFrame(cfg, c1, Started(cfg, c, kind, i));
    TalliedFrame(c1, Started(cfg, c, kind, i));
  }

  lemma IssuedForInv(cfg: Config, c: Ctrl, kind: Kind, i: nat)
    requires Inv(cfg, c) && i < |Queue(c, kind)| && Quiet(c) && QueueOk(cfg, c, kind)
        && Ready(cfg, c, Queue(c, kind)[i])
    ensures Inv(cfg, IssuedFor(cfg, c, kind, i))
  {
    IssuedForWf(cfg, c, kind, i);
    IssuedForTimed(cfg, c, kind, i);
    IssuedForTallied(cfg, c, kind, i);
    IssuedForSourced(cfg, c, kind, i);
    var d := IssuedFor(cfg, c, kind, i);
    hide Wf, Timed, Tallied, Loads, Floored, Conserved, Ordered, Sourced, NextTree, NextRows;
    LoadsFrame(c, d);
    FlooredStep(c, d, Call([], 0, 0));
    FlowFrame(c, d);
  }

  lemma FinishedInv(cfg: Config, c: Ctrl, kind: Kind, i: nat)
    requires Inv(cfg, c) && i < |Queue(c, kind)| && !Queue(c, kind)[i].first && Queue(c, kind)[i].kind == kind
    requires kind != REFRESH ==> Issued(Translate(kind), Queue(c, kind)[i].addrVec, c.clk) in c.log.issued
    ensures Inv(cfg, Finished(cfg, c, kind, i))
  {
    FinishedWf(cfg, c, kind, i);
    FinishedTimed(cfg, c, kind, i);
    FinishedLoads(cfg, c, kind, i);
    FinishedFloored(cfg, c, kind, i);
    FinishedConserved(cfg, c, kind, i);
    FinishedOrdered(cfg, c, kind, i);
    FinishedSourced(cfg, c, kind, i);
    hide Wf, Timed, Tallied, Loads, Floored, Conserved, Ordered, Sourced;
  }

  lemma FinishedFloored(cfg: Config, c: Ctrl, kind: Kind, i: nat)
    requires Wf(cfg, c) && i < |Queue(c, kind)| && Floored(c) && Loads(Finished(cfg, c, kind, i))
    ensures Floored(Finished(cfg, c, kind, i))
  {
    hide Mirrors, Channel, TreeOk, View, AddrOk, Floored, Loads;
    assert QueueOk(cfg, c, kind);
    AddrLen(cfg, Queue(c, kind)[i]);
    FlooredStep(c, Finished(cfg, c, kind, i), Call(Queue(c, kind)[i].addrVec[1..], -1, c.clk));
  }

  lemma FinishedTimed(cfg: Config, c: Ctrl, kind: Kind, i: nat)
    requires Wf(cfg, c) && Timed(cfg, c) && Tallied(c) && i < |Queue(c, kind)|
    ensures Timed(cfg, Finished(cfg, c, kind, i)) && Tallied(Finished(cfg, c, kind, i))
  {
    assert QueueOk(cfg, c, kind);
    var req := Queue(c, kind)[i];
    var c1 := c;
    if kind == WRITE {
      ServeCallTimed(cfg, c, req, -1);
      ServeCallTallied(cfg, c, req, -1);
      c1 := ServeCall(cfg, c, req, -1);
    }
    hide Wf, Timed, Tallied;
    TimedFrame(cfg, c1, Finished(cfg, c, kind, i));
    TalliedFrame(c1, Finished(cfg, c, kind, i));
  }

  lemma ScheduledInv(cfg: Config, c: Ctrl, h: nat)
    requires Inv(cfg, c) && Quiet(c) && h <= |Queue(c, Active(c))|
    ensures Inv(cfg, Scheduled(cfg, c, h))
  {
    hide Timed, Tallied, Loads, Floored, Conserved, Ordered, Sourced, Mirrors, Channel, TreeOk, View, AddrOk;
    var kind := Active(c);
    var q := Queue(c, kind);
    assert QueueOk(cfg, c, kind);
    if h < |q| && Ready(cfg, c, q[h]) {
      StartedWf(cfg, c, kind, h);
      StartedInv(cfg, c, kind, h);
      var c1 := Started(cfg, c, kind, h);
      assert QueueOk(cfg, c1, kind);
      SameFirstCmd(cfg, c, c1, q[h], Queue(c1, kind)[h]);
      IssuedForInv(cfg, c1, kind, h);
      IssuedForWf(cfg, c1, kind, h);
      var c2 := IssuedFor(cfg, c1, kind, h);
      if FirstCmd(cfg, c, q[h]) == Translate(kind) {
        assert c2.log.issued[|c1.log.issued|] == Issued(Translate(kind), Queue(c2, kind)[h].addrVec, c2.clk);
        FinishedInv(cfg, c2, kind, h);
      }
    }
  }

  lemma PreparedInv(cfg: Config, c: Ctrl)
    requires Inv(cfg, c) && RefreshFits(cfg, c)
    ensures Inv(cfg, Prepared(cfg, c)) && Quiet(Prepared(cfg, c))
  {
    hide Wf, Timed, Tallied, Loads, Floored, Conserved, Ordered, Sourced;
    ClockedInv(cfg, c);
    var c1 := Clocked(c);
    ServedInv(cfg, c1);
    var c2 := Served(cfg, c1);
    RefreshedInv(cfg, c2);
    ModedInv(cfg, Refreshed(cfg, c2));
  }

  /** A tick keeps the invariant, whatever the scheduler picks. */
  lemma TicksInv(cfg: Config, c: Ctrl, c': Ctrl)
    requires Inv(cfg, c) && RefreshFits(cfg, c) && Ticks(cfg, c, c')
    ensures Inv(cfg, c')
  {
    var b := Prepared(cfg, c);
    PreparedInv(cfg, c);
    var h: nat :| IsHead(Items(cfg, b, Active(b)), h) && h <= |Queue(b, Active(b))| && c' == Scheduled(cfg, b, h);
    ScheduledInv(cfg, b, h);
  }

  // ------------------------------------------------------------------- runs

  /** The controller as constructed. */
  function Fresh(cfg: Config): Ctrl
    requires ConfigOk(cfg)
  {
    Ctrl(0, Built(CHANNEL, cfg.ch, [0, cfg.nRanks, cfg.nBanks, 0, 0]), map[], [], [], [], [], false, 0, 0,
         Log([], [], [], [], [], []))
  }

  lemma FreshInv(cfg: Config)
    requires ConfigOk(cfg)
    ensures Inv(cfg, Fresh(cfg))
  {
    FreshTimed(cfg);
    FreshMirrors(cfg);
    FreshTallied(cfg);
    FreshRest(cfg);
    hide Channel, TreeOk, Mirrors, View, QueueOk, Timed, Tallied, Loads, Floored, Conserved, Ordered, Sourced, TablesOf;
  }

  lemma FreshRest(cfg: Config)
    requires ConfigOk(cfg)
    ensures var c := Fresh(cfg);
      && Floored(c) && Conserved(c) && Ordered(c) && Sourced(cfg, c)
      && QueueOk(cfg, c, READ) && QueueOk(cfg, c, WRITE) && QueueOk(cfg, c, REFRESH)
  {
    hide Built;
  }

  lemma FreshChannel(cfg: Config)
    requires ConfigOk(cfg)
    ensures var t := Fresh(cfg).tree;
      && Channel(t, cfg.ch, cfg.nRanks, cfg.nBanks)
      && forall r, b :: 0 <= r < cfg.nRanks && 0 <= b < cfg.nBanks ==>
           t.children[r].state == PowerUp && |t.children[r].children| == cfg.nBanks
           && t.children[r].children[b].state == Closed && t.children[r].children[b].rows == map[]
  {
    var t := Fresh(cfg).tree;
    var counts := [0, cfg.nRanks, cfg.nBanks, 0, 0];
    forall r | 0 <= r < cfg.nRanks
      ensures t.children[r] == Built(RANK, r, counts) && IsRank(t.children[r], r, cfg.nBanks)
    {
      forall b | 0 <= b < cfg.nBanks
        ensures IsBank(t.children[r].children[b], b)
        ensures t.children[r].children[b].state == Closed && t.children[r].children[b].rows == map[]
      {
        assert t.children[r].children[b] == Built(BANK, b, counts);
      }
    }
  }

  lemma FreshTimed(cfg: Config)
    requires ConfigOk(cfg)
    ensures var c := Fresh(cfg);
      Timed(cfg, c) && TreeOk(TablesOf(cfg), c.tree) && Channel(c.tree, cfg.ch, cfg.nRanks, cfg.nBanks)
  {
    FreshChannel(cfg);
    InitialExplains(TablesOf(cfg), Fresh(cfg).tree, ROW);
    hide TablesOf, TreeOk, Explains;
  }

  lemma FreshMirrors(cfg: Config)
    requires ConfigOk(cfg)
    ensures Mirrors(Fresh(cfg).rows, View(Fresh(cfg).tree), cfg.ch, cfg.nBanks)
  {
    FreshChannel(cfg);
    hide Channel, Built;
    var v := View(Fresh(cfg).tree);
    forall r | 0 <= r < |v|
      ensures v[r].state == PowerUp && |v[r].banks| == cfg.nBanks
      ensures forall b :: 0 <= b < cfg.nBanks ==> v[r].banks[b] == Bank(Closed, map[])
    {
      assert Fresh(cfg).tree.children[r].children[0].state == Closed;
    }
  }

  lemma FreshTallied(cfg: Config)
    requires ConfigOk(cfg)
    ensures Tallied(Fresh(cfg)) && Loads(Fresh(cfg))
  {
    var c := Fresh(cfg);
    forall p | At(c.tree, p) ensures Sub(c.tree, p).serving == Folded(Seen([], p)) {
      BuiltIdle(CHANNEL, cfg.ch, [0, cfg.nRanks, cfg.nBanks, 0, 0], p);
    }
  }

  lemma {:induction false} BuiltIdle(level: int, id: int, counts: seq<int>, p: seq<int>)
    requires |counts| == 5 && CHANNEL <= level <= BANK && At(Built(level, id, counts), p)
    ensures Sub(Built(level, id, counts), p).serving == IDLE
    decreases p
  {
    if p != [] { BuiltIdle(level + 1, p[0], counts, p[1..]); }
  }

  /** c' follows from c by accepting a request, refusing one, or a clock tick. */
  ghost predicate Step(cfg: Config, c: Ctrl, c': Ctrl)
    requires Wf(cfg, c)
  {
    || (exists req :: ReqOk(cfg, req) && c' == if Full(c, req) then c else Enqueued(c, req))
    || (RefreshFits(cfg, c) && Ticks(cfg, c, c'))
  }

  ghost predicate Run(cfg: Config, trace: seq<Ctrl>) {
    && ConfigOk(cfg) && trace != [] && trace[0] == Fresh(cfg)
    && forall i :: 0 <= i < |trace| - 1 ==> Wf(cfg, trace[i]) ==> Step(cfg, trace[i], trace[i + 1])
  }

  /** Every state of every run satisfies the invariant. */
  lemma {:induction false} RunInv(cfg: Config, trace: seq<Ctrl>, n: nat)
    requires Run(cfg, trace) && n < |trace|
    ensures Inv(cfg, trace[n])
  {
    hide *;
    if n == 0 {
      RunStarts(cfg, trace);
      FreshInv(cfg);
    } else {
      RunInv(cfg, trace, n - 1);
      InvWf(cfg, trace[n - 1]);
      RunGoesOn(cfg, trace, n - 1);
      StepKeepsInv(cfg, trace[n - 1], trace[n]);
    }
  }

  lemma RunStarts(cfg: Config, trace: seq<Ctrl>)
    requires Run(cfg, trace)
    ensures ConfigOk(cfg) && |trace| > 0 && trace[0] == Fresh(cfg)
  {
    hide Fresh, ConfigOk;
  }

  lemma RunGoesOn(cfg: Config, trace: seq<Ctrl>, n: nat)
    requires Run(cfg, trace) && n + 1 < |trace| && Wf(cfg, trace[n])
    ensures Step(cfg, trace[n], trace[n + 1])
  {
    hide Wf, Step;
  }

  lemma InvWf(cfg: Config, c: Ctrl)
    requires Inv(cfg, c)
    ensures Wf(cfg, c) && c.clk >= 0
  {
    hide Mirrors, Channel, TreeOk, QueueOk, Timed, Tallied, Loads, Floored, Conserved, Ordered, Sourced;
  }

  /** A step keeps the invariant. */
  lemma StepKeepsInv(cfg: Config, c: Ctrl, c': Ctrl)
    requires Inv(cfg, c) && Wf(cfg, c) && Step(cfg, c, c')
    ensures Inv(cfg, c')
  {
    hide Inv, Wf, Ticks, RefreshFits, ReqOk, Enqueued;
    if RefreshFits(cfg, c) && Ticks(cfg, c, c') {
      TicksInv(cfg, c, c');
    } else {
      var req :| ReqOk(cfg, req) && c' == if Full(c, req) then c else Enqueued(c, req);
      if !Full(c, req) { EnqueuedInv(cfg, c, req); }
    }
  }

  lemma RunStep(cfg: Config, trace: seq<Ctrl>, n: nat)
    requires Run(cfg, trace) && n + 1 < |trace|
    ensures Wf(cfg, trace[n]) && Step(cfg, trace[n], trace[n + 1]) && trace[n].clk >= 0
  {
    hide *;
    RunInv(cfg, trace, n);
    InvWf(cfg, trace[n]);
    RunGoesOn(cfg, trace, n);
  }
}
