/** How often the controller refreshes: over every run each rank is given one refresh
    request for each whole nREFI, and each is waiting or has been issued. */
module ControllerRefresh {
  import opened Arithmetic
  import opened DramTree
  import opened Timing
  import opened Ddr3
  import opened Ddr3State
  import opened Scheduler
  import opened ControllerSpec
  import opened ControllerWf
  import opened ControllerInv
  import opened ControllerFlow
  import opened ControllerRuns
  import opened ControllerBus

  // ------------------------------------------------------------ the schedule

  /** The last injection was at the last multiple of nREFI. */
  predicate OnSchedule(cfg: Config, c: Ctrl)
    requires cfg.nREFI > 0
  {
    c.refClk == c.clk >= 0 && c.refreshed == cfg.nREFI * (c.clk / cfg.nREFI)
  }

  lemma StartsOnSchedule(cfg: Config, trace: seq<Ctrl>)
    requires Run(cfg, trace) && |trace| > 0 && cfg.nREFI > 0
    ensures OnSchedule(cfg, trace[0])
  {
    DivUnique(0, cfg.nREFI, 0, 0);
  }

  /** A tick comes to a multiple of nREFI exactly when a refresh is due. */
  lemma NextMultiple(cfg: Config, c: Ctrl)
    requires cfg.nREFI > 0 && OnSchedule(cfg, c)
    ensures (c.clk + 1) / cfg.nREFI == c.clk / cfg.nREFI + if RefreshDue(cfg, c) then 1 else 0
    ensures RefreshDue(cfg, c) ==> c.clk + 1 == cfg.nREFI * ((c.clk + 1) / cfg.nREFI)
  {
    var n := cfg.nREFI;
    var q, r := DivMod(c.clk, n);
    if r + 1 == n {
      MulNext(n, q);
      DivUnique(c.clk + 1, n, q + 1, 0);
    } else {
      DivUnique(c.clk + 1, n, q, r + 1);
    }
  }

  lemma TickClocks(cfg: Config, c: Ctrl, h: nat)
    requires Wf(cfg, c) && RefreshFits(cfg, c) && h <= |Queue(Prepared(cfg, c), Active(Prepared(cfg, c)))|
    ensures var d := Scheduled(cfg, Prepared(cfg, c), h);
      && d.clk == c.clk + 1 && d.refClk == c.refClk + 1
      && d.refreshed == if RefreshDue(cfg, c) then c.refClk + 1 else c.refreshed
  {
    PreparedClocks(cfg, c);
    hide Wf, Prepared, Scheduled, Active, RefreshDue, RefreshFits;
  }

  lemma KeepsSchedule(cfg: Config, c: Ctrl, d: Ctrl)
    requires Wf(cfg, c) && Step(cfg, c, d) && cfg.nREFI > 0 && OnSchedule(cfg, c)
    ensures OnSchedule(cfg, d)
  {
    hide Wf, Step, RefreshFits, Prepared, Scheduled, Items, IsHead, ReqOk, Full, RefreshDue;
    if d.clk == c.clk {
      StepStays(cfg, c, d);
    } else {
      var h := StepTicks(cfg, c, d);
      TickClocks(cfg, c, h);
      NextMultiple(cfg, c);
    }
  }

  // ---------------------------------------------- requests given to each rank

  predicate ForRank(addr: seq<int>, r: int) { |addr| > RANK && addr[RANK] == r }

  /** The refreshes of rank r that have been on the bus. */
  function Sent(run: seq<Issued<Command>>, r: int): nat {
    if run == [] then 0
    else
      var x := run[|run| - 1];
      Sent(run[..|run| - 1], r) + if x.cmd == REF && ForRank(x.addr, r) then 1 else 0
  }

  /** The refresh requests for rank r in a queue. */
  function Waiting(q: seq<Request>, r: int): nat {
    if q == [] then 0
    else Waiting(q[..|q| - 1], r) + if ForRank(q[|q| - 1].addrVec, r) then 1 else 0
  }

  /** The refresh requests that rank r has been given: sent or waiting. */
  function Given(c: Ctrl, r: int): nat { Sent(c.log.issued, r) + Waiting(c.otherq, r) }

  /** Those that came from outside, through enqueue, in steps that do not move the clock. */
  function Outside(trace: seq<Ctrl>, n: nat, r: int): int
    requires n < |trace|
  {
    if n == 0 then 0
    else
      Outside(trace, n - 1, r)
      + if trace[n].clk == trace[n - 1].clk then Waiting(trace[n].otherq, r) - Waiting(trace[n - 1].otherq, r) else 0
  }

  lemma SentStep(run: seq<Issued<Command>>, x: Issued<Command>, r: int)
    ensures Sent(run + [x], r) == Sent(run, r) + if x.cmd == REF && ForRank(x.addr, r) then 1 else 0
  {
    assert (run + [x])[..|run|] == run;
  }

  lemma {:induction false} WaitingConcat(a: seq<Request>, b: seq<Request>, r: int)
    ensures Waiting(a + b, r) == Waiting(a, r) + Waiting(b, r)
    decreases b
  {
    if b == [] {
      assert a + b == a;
    } else {
      assert (a + b)[..|a + b| - 1] == a + b[..|b| - 1];
      WaitingConcat(a, b[..|b| - 1], r);
    }
  }

  lemma WaitingOne(q: Request, r: int)
    ensures Waiting([q], r) == if ForRank(q.addrVec, r) then 1 else 0
  {
    assert [q][..0] == [];
    assert Waiting([q][..0], r) == 0;
  }

  /** Serving request i takes it out of the count exactly when its last command goes out. */
  lemma WaitingAfter(q: seq<Request>, i: nat, p: Command, r: int)
    requires i < |q|
    ensures Waiting(After(REFRESH, q, i, p), r) == Waiting(q, r) - if p == REF && ForRank(q[i].addrVec, r) then 1 else 0
  {
    var s := q[i].(first := false);
    assert q == q[..i] + ([q[i]] + q[i + 1..]) && q[i := s] == q[..i] + ([s] + q[i + 1..]);
    hide Waiting;
    WaitingAround(q[..i], q[i], q[i + 1..], r);
    WaitingAround(q[..i], s, q[i + 1..], r);
    WaitingConcat(q[..i], q[i + 1..], r);
  }

  lemma WaitingAround(a: seq<Request>, x: Request, b: seq<Request>, r: int)
    ensures Waiting(a + ([x] + b), r) == Waiting(a, r) + Waiting(b, r) + if ForRank(x.addrVec, r) then 1 else 0
  {
    WaitingConcat(a, [x] + b, r);
    WaitingConcat([x], b, r);
    WaitingOne(x, r);
  }

  /** An injection brings one request to every rank. */
  lemma {:induction false} OneToEach(cfg: Config, clk: int, k: nat, r: nat)
    requires k <= cfg.nRanks
    ensures Waiting(Refreshes(cfg, clk)[..k], r) == if r < k then 1 else 0
  {
    if k > 0 {
      var q := Refreshes(cfg, clk);
      OneToEach(cfg, clk, k - 1, r);
      assert q[..k][..k - 1] == q[..k - 1];
      assert q[..k][k - 1] == RefreshFor(cfg, clk, k - 1);
    }
  }

  lemma PreparedGives(cfg: Config, c: Ctrl, r: nat)
    requires Wf(cfg, c) && RefreshFits(cfg, c) && r < cfg.nRanks
    ensures Given(Prepared(cfg, c), r) == Given(c, r) + if RefreshDue(cfg, c) then 1 else 0
  {
    hide *;
    PreparedFrame(cfg, c);
    GivenIs(c, r);
    GivenIs(Prepared(cfg, c), r);
    if RefreshDue(cfg, c) {
      var q := Refreshes(cfg, c.clk + 1);
      WaitingConcat(c.otherq, q, r);
      OneToEach(cfg, c.clk + 1, cfg.nRanks, r);
      RefreshesSize(cfg, c.clk + 1);
      assert q[..cfg.nRanks] == q;
    } else {
      assert c.otherq + [] == c.otherq;
    }
  }

  lemma GivenIs(c: Ctrl, r: int)
    ensures Given(c, r) == Sent(c.log.issued, r) + Waiting(Queue(c, REFRESH), r)
    ensures Queue(c, REFRESH) == c.otherq
  {}

  lemma RefreshesSize(cfg: Config, clk: int)
    ensures |Refreshes(cfg, clk)| == cfg.nRanks
  {}

  /** Scheduling turns a waiting refresh into a sent one, and nothing else. */
  lemma ScheduledGives(cfg: Config, c: Ctrl, h: nat, r: int)
    requires Wf(cfg, c) && h <= |Queue(c, Active(c))|
    ensures Given(Scheduled(cfg, c, h), r) == Given(c, r)
  {
    hide *;
    var kind := Active(c);
    ScheduledEffect(cfg, c, h);
    QueueReqs(cfg, c, kind);
    GoesIsInside(cfg, c, h);
    GivenIs(c, r);
    GivenIs(Scheduled(cfg, c, h), r);
    if Goes(cfg, c, h) {
      var req := Queue(c, kind)[h];
      SentStep(c.log.issued, Issued(FirstCmd(cfg, c, req), req.addrVec, c.clk), r);
      if kind == REFRESH {
        WaitingAfter(Queue(c, REFRESH), h, FirstCmd(cfg, c, req), r);
      } else {
        AccessNeverRefreshes(cfg, c, req);
      }
    }
  }

  lemma StepGives(cfg: Config, c: Ctrl, d: Ctrl, r: nat)
    requires Wf(cfg, c) && Step(cfg, c, d) && r < cfg.nRanks && cfg.nREFI > 0 && OnSchedule(cfg, c)
    ensures Given(d, r) - Given(c, r) == d.clk / cfg.nREFI - c.clk / cfg.nREFI
      + if d.clk == c.clk then Waiting(d.otherq, r) - Waiting(c.otherq, r) else 0
  {
    hide Wf, Step, RefreshFits, Prepared, Scheduled, Items, IsHead, ReqOk, Full, RefreshDue, Waiting, Sent, OnSchedule;
    if d.clk == c.clk {
      StepStays(cfg, c, d);
    } else {
      var h := StepTicks(cfg, c, d);
      TickClocks(cfg, c, h);
      NextMultiple(cfg, c);
      PreparedGives(cfg, c, r);
      ScheduledGives(cfg, Prepared(cfg, c), h, r);
    }
  }

  /** In every run the last injection was at the last multiple of nREFI, and each rank
      has been given exactly clk / nREFI refresh requests besides those that enqueue
      brought, each of them waiting or sent as a REF. */
  lemma {:induction false} RunRefreshSchedule(cfg: Config, trace: seq<Ctrl>, n: nat, r: nat)
    requires Run(cfg, trace) && n < |trace| && cfg.nREFI > 0 && r < cfg.nRanks
    ensures OnSchedule(cfg, trace[n])
    ensures Given(trace[n], r) == trace[n].clk / cfg.nREFI + Outside(trace, n, r)
    decreases n
  {
    hide *;
    if n == 0 {
      StartsOnSchedule(cfg, trace);
      StartsGiven(cfg, trace, r);
    } else {
      RunStep(cfg, trace, n - 1);
      RunRefreshSchedule(cfg, trace, n - 1, r);
      KeepsSchedule(cfg, trace[n - 1], trace[n]);
      StepGives(cfg, trace[n - 1], trace[n], r);
      OutsideStep(trace, n, r);
    }
  }

  lemma StartsGiven(cfg: Config, trace: seq<Ctrl>, r: nat)
    requires Run(cfg, trace) && |trace| > 0 && cfg.nREFI > 0
    ensures Given(trace[0], r) == trace[0].clk / cfg.nREFI + Outside(trace, 0, r)
  {
    DivUnique(0, cfg.nREFI, 0, 0);
  }

  lemma OutsideStep(trace: seq<Ctrl>, n: nat, r: int)
    requires 0 < n < |trace|
    ensures Outside(trace, n, r) == Outside(trace, n - 1, r)
      + if trace[n].clk == trace[n - 1].clk then Waiting(trace[n].otherq, r) - Waiting(trace[n - 1].otherq, r) else 0
  {
    hide Waiting;
  }
}
