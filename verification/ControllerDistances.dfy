/** The distances the commands of a run keep, and that nothing else holds a command back. */
module ControllerDistances {
  import opened DramTree
  import opened Timing
  import opened TimingRuns
  import opened Ddr3
  import opened Ddr3State
  import opened Ddr3Distances
  import opened RowTable
  import opened ControllerSpec
  import opened ControllerWf
  import opened ControllerInv
  import opened ControllerFlow
  import opened ControllerRuns
  import opened ControllerBus

  ghost predicate WellAddressed(cfg: Config, run: seq<Issued<Command>>) {
    forall i :: 0 <= i < |run| ==> CmdAddrOk(run[i].cmd, run[i].addr, cfg.ch, cfg.nRanks, cfg.nBanks)
  }

  /** Every command on the bus names a real rank, and a real bank where it needs one. */
  lemma RunWellAddressed(cfg: Config, trace: seq<Ctrl>, n: nat)
    requires Run(cfg, trace) && n < |trace|
    ensures WellAddressed(cfg, trace[n].log.issued) && OnChannel(trace[n].log.issued, cfg.ch)
  {
    forall k | 0 <= k < |trace[n].log.issued|
      ensures CmdAddrOk(trace[n].log.issued[k].cmd, trace[n].log.issued[k].addr, cfg.ch, cfg.nRanks, cfg.nBanks)
    {
      hide *;
      var m := RunIssues(cfg, trace, n, k);
      RunStep(cfg, trace, m);
      Longer(trace[m].log.issued, trace[n].log.issued[k]);
      var h, x := StepIssues(cfg, trace[m], trace[m + 1]);
      Last(trace[m].log.issued, trace[n].log.issued[k], x);
      IssuedFits(cfg, trace[m], trace[m + 1], h, x);
    }
  }

  lemma Longer<T>(s: seq<T>, x: T)
    ensures s + [x] != s
  {
    assert |s + [x]| == |s| + 1;
  }

  lemma IssuedFits(cfg: Config, c: Ctrl, c': Ctrl, h: nat, x: Issued<Command>)
    requires Wf(cfg, c) && RefreshFits(cfg, c) && IssuesAt(cfg, c, c', h, x)
    ensures CmdAddrOk(x.cmd, x.addr, cfg.ch, cfg.nRanks, cfg.nBanks)
  {
    var b := Prepared(cfg, c);
    FirstCmdFits(cfg, b, Queue(b, Active(b))[h]);
    hide Wf, ReqOk, RefreshFits, FirstCmd, CmdAddrOk, Prepared, Goes;
  }

  /** In every run any two commands on the bus keep their distance, at the channel, in
      their rank or across ranks, and in their bank. */
  lemma RunDistances(cfg: Config, trace: seq<Ctrl>, n: nat, i: nat, j: nat)
    requires Run(cfg, trace) && n < |trace| && i < j < |trace[n].log.issued|
    ensures var x, y := trace[n].log.issued[i], trace[n].log.issued[j];
      FullAddr(x) && FullAddr(y) && Apart(cfg.speed, x, y)
  {
    hide *;
    var run := trace[n].log.issued;
    RunWellAddressed(cfg, trace, n);
    RunInv(cfg, trace, n);
    SafeKeeps(cfg, trace[n]);
    DistanceAt(cfg.speed, run[..j], run[j], i);
    assert run[..j][i] == run[i];
  }

  lemma SafeKeeps(cfg: Config, c: Ctrl)
    requires Inv(cfg, c) && WellAddressed(cfg, c.log.issued)
    ensures AllFull(c.log.issued)
    ensures forall j :: 0 <= j < |c.log.issued| ==>
      && AllFull(c.log.issued[..j]) && FullAddr(c.log.issued[j])
      && Distances(cfg.speed, c.log.issued[..j], c.log.issued[j])
  {
    TimedOf(cfg, c);
    hide Inv, Distances, Safe, Channel, Tables;
    SafeIsDistances(cfg.speed, c.tree, c.log.issued, cfg.ch, cfg.nRanks, cfg.nBanks);
  }

  lemma TimedOf(cfg: Config, c: Ctrl)
    requires Inv(cfg, c)
    ensures Safe(Tables(cfg.speed), c.tree, c.log.issued, ROW) && Explains(Tables(cfg.speed), c.tree, c.log.issued)
    ensures Channel(c.tree, cfg.ch, cfg.nRanks, cfg.nBanks) && Wf(cfg, c) && c.clk >= 0
  {
    hide Channel, TreeOk, Mirrors, View, QueueOk, Tallied, Loads, Floored, Conserved, Ordered, Sourced, Safe, Explains;
  }

  lemma DistanceAt(s: Speed, run: seq<Issued<Command>>, y: Issued<Command>, i: nat)
    requires AllFull(run) && FullAddr(y) && Distances(s, run, y) && i < |run|
    ensures FullAddr(run[i]) && Apart(s, run[i], y)
  {
    hide Apart, InWindow;
  }

  /** In every run a request is ready at a tick exactly when its first command keeps its
      distance from everything on the bus so far. */
  lemma RunReady(cfg: Config, trace: seq<Ctrl>, n: nat, req: Request)
    requires Run(cfg, trace) && n < |trace| && ReqOk(cfg, req)
    ensures Wf(cfg, trace[n]) && AllFull(trace[n].log.issued)
    ensures RefreshFits(cfg, trace[n]) ==>
      var b := Prepared(cfg, trace[n]);
      var y := Issued(FirstCmd(cfg, b, req), req.addrVec, b.clk);
      && b.clk == trace[n].clk + 1 && FullAddr(y)
      && (Ready(cfg, b, req) <==> Distances(cfg.speed, trace[n].log.issued, y))
  {
    hide *;
    RunWellAddressed(cfg, trace, n);
    RunInv(cfg, trace, n);
    InvWf(cfg, trace[n]);
    SafeKeeps(cfg, trace[n]);
    if RefreshFits(cfg, trace[n]) {
      PreparedInv(cfg, trace[n]);
      PreparedFrame(cfg, trace[n]);
      PreparedClocks(cfg, trace[n]);
      ReadyIsDistances(cfg, Prepared(cfg, trace[n]), req);
    }
  }

  lemma ReadyIsDistances(cfg: Config, c: Ctrl, req: Request)
    requires Inv(cfg, c) && Wf(cfg, c) && ReqOk(cfg, req) && OnChannel(c.log.issued, cfg.ch)
    ensures var y := Issued(FirstCmd(cfg, c, req), req.addrVec, c.clk);
      && AllFull(c.log.issued) && FullAddr(y)
      && (Ready(cfg, c, req) <==> Distances(cfg.speed, c.log.issued, y))
  {
    TimedOf(cfg, c);
    FirstCmdFits(cfg, c, req);
    ReadyFits(cfg, c, req);
    TablesIs(cfg);
    hide *;
    var y := Issued(FirstCmd(cfg, c, req), req.addrVec, c.clk);
    CheckIsDistances(cfg.speed, c.tree, c.log.issued, y, cfg.ch, cfg.nRanks, cfg.nBanks);
  }

  lemma TablesIs(cfg: Config)
    ensures TablesOf(cfg) == Tables(cfg.speed)
  {}
}
