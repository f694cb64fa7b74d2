/** Choosing between reads and writes: the hysteresis of write mode over runs. */
module ControllerMode {
  import opened DramTree
  import opened Timing
  import opened Ddr3
  import opened Ddr3State
  import opened Scheduler
  import opened ControllerSpec
  import opened ControllerWf
  import opened ControllerInv
  import opened ControllerFlow
  import opened ControllerRuns
  import opened ControllerBus

  /** Reads wait, and the writes are between the two thresholds. */
  predicate InBand(c: Ctrl) { 6 < |c.writeq| < 25 && c.readq != [] }

  /** In every run the mode turns only at a tick: to writes when no read waits or 25
      writes do, back to reads when reads wait and at most six writes do. */
  lemma RunModeTurns(cfg: Config, trace: seq<Ctrl>, n: nat)
    requires Run(cfg, trace) && n + 1 < |trace|
    ensures var c, d := trace[n], trace[n + 1];
      d.writeMode != c.writeMode <==>
        d.clk != c.clk
        && if c.writeMode then |c.writeq| <= 6 && c.readq != [] else |c.writeq| >= 25 || c.readq == []
  {
    hide *;
    RunStep(cfg, trace, n);
    if trace[n + 1].clk == trace[n].clk {
      StayKeepsMode(cfg, trace[n], trace[n + 1]);
    } else {
      TickModes(cfg, trace[n], trace[n + 1]);
      ModedTurns(trace[n]);
    }
  }

  lemma StayKeepsMode(cfg: Config, c: Ctrl, d: Ctrl)
    requires Wf(cfg, c) && Step(cfg, c, d) && d.clk == c.clk
    ensures d.writeMode == c.writeMode && d.log.finished == c.log.finished
    ensures |d.log.writesIn| >= |c.log.writesIn|
  {
    StepStays(cfg, c, d);
    hide *;
    if d != c {
      var req :| ReqOk(cfg, req) && !Full(c, req) && d == Enqueued(c, req);
      EnqueuedKeeps(c, req);
    }
  }

  lemma EnqueuedKeeps(c: Ctrl, req: Request)
    ensures var d := Enqueued(c, req);
      && d.writeMode == c.writeMode && d.log.finished == c.log.finished && |d.log.writesIn| >= |c.log.writesIn|
  {
    hide Forwards;
  }

  lemma TickModes(cfg: Config, c: Ctrl, d: Ctrl)
    requires Wf(cfg, c) && Step(cfg, c, d) && d.clk != c.clk
    ensures d.writeMode == Moded(c).writeMode && |d.log.writesIn| == |c.log.writesIn|
  {
    var h := StepTicks(cfg, c, d);
    PreparedFrame(cfg, c);
    ScheduledEffect(cfg, Prepared(cfg, c), h);
    hide Wf, Step, Prepared, Scheduled, Items, IsHead, RefreshFits, Goes, Active;
  }

  lemma ModedTurns(c: Ctrl)
    ensures Moded(c).writeMode != c.writeMode <==>
      if c.writeMode then |c.writeq| <= 6 && c.readq != [] else |c.writeq| >= 25 || c.readq == []
  {}

  /** While the queues stay in the band, so does the mode. */
  lemma {:induction false} RunModeHolds(cfg: Config, trace: seq<Ctrl>, n: nat, m: nat)
    requires Run(cfg, trace) && n <= m < |trace| && forall i :: n <= i < m ==> InBand(trace[i])
    ensures trace[m].writeMode == trace[n].writeMode
    decreases m
  {
    hide Run;
    if n < m {
      RunModeHolds(cfg, trace, n, m - 1);
      assert InBand(trace[m - 1]);
      RunModeTurns(cfg, trace, m - 1);
    }
  }

  /** A burst of writes that begins with a full queue serves at least 19 of them: that
      many are completed before the mode turns back to reads. */
  lemma RunWriteBurst(cfg: Config, trace: seq<Ctrl>, n: nat, m: nat)
    requires Run(cfg, trace) && n < m && m + 1 < |trace|
    requires !trace[n].writeMode && trace[n + 1].writeMode && |trace[n].writeq| >= 25
    requires trace[m].writeMode && !trace[m + 1].writeMode
    ensures |trace[m].log.finished| >= |trace[n].log.finished| + 19
  {
    RunModeTurns(cfg, trace, m);
    WritesCount(cfg, trace, n);
    WritesCount(cfg, trace, m);
    WritesGrow(cfg, trace, n, m);
    hide Run;
  }

  lemma WritesCount(cfg: Config, trace: seq<Ctrl>, n: nat)
    requires Run(cfg, trace) && n < |trace|
    ensures |trace[n].log.writesIn| == |trace[n].writeq| + |trace[n].log.finished|
  {
    RunInv(cfg, trace, n);
    var c := trace[n];
    assert multiset(Idents(c.log.writesIn)) == multiset(Idents(c.writeq)) + multiset(Idents(DoneReqs(c.log.finished)));
    hide Wf, Timed, Tallied, Loads, Floored, Conserved, Ordered, Sourced, Run;
    assert |multiset(Idents(c.log.writesIn))| == |c.log.writesIn|;
    assert |multiset(Idents(c.writeq))| == |c.writeq|;
    assert |multiset(Idents(DoneReqs(c.log.finished)))| == |c.log.finished|;
  }

  lemma {:induction false} WritesGrow(cfg: Config, trace: seq<Ctrl>, n: nat, m: nat)
    requires Run(cfg, trace) && n <= m < |trace|
    ensures |trace[m].log.writesIn| >= |trace[n].log.writesIn|
    decreases m
  {
    hide *;
    if n < m {
      WritesGrow(cfg, trace, n, m - 1);
      RunStep(cfg, trace, m - 1);
      if trace[m].clk == trace[m - 1].clk {
        StayKeepsMode(cfg, trace[m - 1], trace[m]);
      } else {
        TickModes(cfg, trace[m - 1], trace[m]);
      }
    }
  }
}
