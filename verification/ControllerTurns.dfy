/** Which request a tick serves: whose turn it is, and which request of that queue the
    scheduler picks, in terms of the requests themselves. */
module ControllerTurns {
  import opened DramTree
  import opened Timing
  import opened Ddr3
  import opened Ddr3State
  import opened RowTable
  import opened Scheduler
  import opened ControllerSpec
  import opened ControllerWf
  import opened ControllerInv
  import opened ControllerFlow
  import opened ControllerRuns
  import opened ControllerBus

  // -------------------------------------------------- the request picked

  ghost predicate AllOk(cfg: Config, q: seq<Request>) { forall i :: 0 <= i < |q| ==> ReqOk(cfg, q[i]) }

  /** The bank of a read or write is open. */
  ghost predicate BankOpen(cfg: Config, c: Ctrl, req: Request)
    requires Wf(cfg, c) && ReqOk(cfg, req)
  {
    BankInView(cfg, c, req);
    req.kind != REFRESH && BankFor(c, req).state == Opened
  }

  /** It is open on the row of the request. */
  ghost predicate RowOpen(cfg: Config, c: Ctrl, req: Request)
    requires Wf(cfg, c) && ReqOk(cfg, req)
  {
    BankInView(cfg, c, req);
    BankOpen(cfg, c, req) && req.addrVec[ROW] in BankFor(c, req).rows
  }

  lemma BankInView(cfg: Config, c: Ctrl, req: Request)
    requires Wf(cfg, c) && ReqOk(cfg, req)
    ensures |req.addrVec| == 5 && 0 <= req.addrVec[RANK] < |View(c.tree)|
    ensures req.kind != REFRESH ==> 0 <= req.addrVec[BANK] < |View(c.tree)[req.addrVec[RANK]].banks|
  {
    ViewSize(c.tree, cfg.ch, cfg.nRanks, cfg.nBanks);
    hide Mirrors, TreeOk, QueueOk, PendingOk, View, Channel;
  }

  ghost predicate ReadyHitAt(cfg: Config, c: Ctrl, q: seq<Request>, i: nat)
    requires Wf(cfg, c) && AllOk(cfg, q) && i < |q|
  {
    Ready(cfg, c, q[i]) && RowOpen(cfg, c, q[i])
  }

  /** Serving request i next would close a row that another request of the queue waits for. */
  ghost predicate Spoils(cfg: Config, c: Ctrl, q: seq<Request>, i: nat)
    requires Wf(cfg, c) && AllOk(cfg, q) && i < |q|
  {
    && BankOpen(cfg, c, q[i]) && !RowOpen(cfg, c, q[i])
    && exists j :: 0 <= j < |q| && RowOpen(cfg, c, q[j]) && q[j].addrVec[..ROW] == q[i].addrVec[..ROW]
  }

  /** The oldest ready request to an open row, the first in the queue among equals; failing
      that, of the requests that spoil nothing, the oldest ready one, else the oldest. */
  ghost predicate Picked(cfg: Config, c: Ctrl, q: seq<Request>, h: nat)
    requires Wf(cfg, c) && AllOk(cfg, q) && h < |q|
  {
    if exists i :: 0 <= i < |q| && ReadyHitAt(cfg, c, q, i) then
      && ReadyHitAt(cfg, c, q, h)
      && forall i :: 0 <= i < |q| && ReadyHitAt(cfg, c, q, i) ==>
           q[h].arrive <= q[i].arrive && (i < h ==> q[h].arrive < q[i].arrive)
    else
      && !Spoils(cfg, c, q, h)
      && forall i :: 0 <= i < |q| && !Spoils(cfg, c, q, i) ==>
           && (Ready(cfg, c, q[i]) ==> Ready(cfg, c, q[h]))
           && (Ready(cfg, c, q[i]) == Ready(cfg, c, q[h]) ==>
                 q[h].arrive <= q[i].arrive && (i < h ==> q[h].arrive < q[i].arrive))
  }

  /** What the scheduler is told of a request is what the request and its bank say. */
  lemma ItemSays(cfg: Config, c: Ctrl, req: Request)
    requires Wf(cfg, c) && ReqOk(cfg, req)
    ensures var x := ItemOf(cfg, c, req);
      && x.arrive == req.arrive && x.ready == Ready(cfg, c, req) && x.group == req.addrVec[..ROW]
      && x.open == BankOpen(cfg, c, req) && x.hit == RowOpen(cfg, c, req)
  {
    BankInView(cfg, c, req);
    if req.kind == REFRESH {
      RefreshHitsNothing(cfg, c, req);
    } else {
      HitIsView(cfg, c, req);
    }
    hide Wf, ReqOk, Ready, View, FirstCmd;
  }

  lemma RefreshHitsNothing(cfg: Config, c: Ctrl, req: Request)
    requires Wf(cfg, c) && ReqOk(cfg, req) && req.kind == REFRESH
    ensures !ItemOf(cfg, c, req).hit && !ItemOf(cfg, c, req).open
  {
    hide Mirrors, TreeOk, QueueOk, PendingOk, View, Ready, FirstCmd;
    AskBank(TablesOf(cfg).rowhit, c.tree, REF, req.addrVec, cfg.ch, cfg.nRanks, cfg.nBanks);
    AskBank(TablesOf(cfg).rowopen, c.tree, REF, req.addrVec, cfg.ch, cfg.nRanks, cfg.nBanks);
  }

  /** get_head over the whole queue. */
  lemma HeadIsPicked(cfg: Config, c: Ctrl, kind: Kind, h: nat)
    requires Wf(cfg, c) && IsHead(Items(cfg, c, kind), h) && h < |Queue(c, kind)|
    ensures AllOk(cfg, Queue(c, kind)) && Picked(cfg, c, Queue(c, kind), h)
  {
    hide Wf, ReqOk, ItemOf, Ready, BankOpen, RowOpen, Items;
    var q := Queue(c, kind);
    var items := Items(cfg, c, kind);
    QueueReqs(cfg, c, kind);
    ItemsAt(cfg, c, kind);
    forall i | 0 <= i < |q| ensures |q[i].addrVec| == 5 { AddrLen(cfg, q[i]); }
    forall i | 0 <= i < |q|
      ensures items[i].arrive == q[i].arrive && items[i].ready == Ready(cfg, c, q[i])
      ensures items[i].group == q[i].addrVec[..ROW]
      ensures items[i].open == BankOpen(cfg, c, q[i]) && items[i].hit == RowOpen(cfg, c, q[i])
    {
      ItemSays(cfg, c, q[i]);
      BankInView(cfg, c, q[i]);
    }
    forall i | 0 <= i < |q|
      ensures ReadyHit(items[i]) == ReadyHitAt(cfg, c, q, i)
      ensures Violates(items, i) ==> Spoils(cfg, c, q, i)
      ensures Spoils(cfg, c, q, i) ==> Violates(items, i)
    {
      if Violates(items, i) {
        var j :| 0 <= j < |items| && items[j].hit && items[j].group == items[i].group;
        assert RowOpen(cfg, c, q[j]) && q[j].addrVec[..ROW] == q[i].addrVec[..ROW];
      }
      if Spoils(cfg, c, q, i) {
        var j :| 0 <= j < |q| && RowOpen(cfg, c, q[j]) && q[j].addrVec[..ROW] == q[i].addrVec[..ROW];
        assert items[j].hit && items[j].group == items[i].group;
      }
    }
    hide Violates, Spoils, ReadyHit, ReadyHitAt;
  }

  // --------------------------------------------------------- whose turn it is

  /** The tick from b to d serves queue q and leaves it as q': nothing is issued for an
      empty queue; otherwise the request picked has its first command issued if that is
      ready, and leaves the queue with its last. */
  ghost predicate Serves(cfg: Config, b: Ctrl, d: Ctrl, kind: Kind, q: seq<Request>, q': seq<Request>)
    requires Wf(cfg, b)
  {
    && AllOk(cfg, q)
    && (q == [] ==> d.log.issued == b.log.issued && q' == q)
    && (q != [] ==>
          exists h: nat :: h < |q| && Picked(cfg, b, q, h) && ServedAt(cfg, b, d, kind, q, q', h))
  }

  ghost predicate ServedAt(cfg: Config, b: Ctrl, d: Ctrl, kind: Kind, q: seq<Request>, q': seq<Request>, h: nat)
    requires Wf(cfg, b) && AllOk(cfg, q) && h < |q|
  {
    if Ready(cfg, b, q[h]) then
      var p := FirstCmd(cfg, b, q[h]);
      && d.log.issued == b.log.issued + [Issued(p, q[h].addrVec, b.clk)]
      && q' == if p == Translate(kind) then q[..h] + q[h + 1..] else q[h := q[h].(first := false)]
    else d.log.issued == b.log.issued && q' == q
  }

  lemma ScheduledServes(cfg: Config, b: Ctrl, h: nat, kind: Kind)
    requires Wf(cfg, b) && kind == Active(b) && h <= |Queue(b, kind)| && IsHead(Items(cfg, b, kind), h)
    ensures var d := Scheduled(cfg, b, h);
      && Serves(cfg, b, d, kind, Queue(b, kind), Queue(d, kind))
      && d.writeMode == b.writeMode && d.clk == b.clk && forall k :: k != kind ==> Queue(d, k) == Queue(b, k)
  {
    hide *;
    var q := Queue(b, kind);
    var d := Scheduled(cfg, b, h);
    QueueReqs(cfg, b, kind);
    ItemsAt(cfg, b, kind);
    HeadExists(Items(cfg, b, kind), h);
    ScheduledEffect(cfg, b, h);
    GoesIs(cfg, b, h);
    ScheduledClock(cfg, b, h);
    AllOkIntro(cfg, q);
    if q == [] {
      ServesNone(cfg, b, d, kind, q, Queue(d, kind));
    } else {
      HeadIsPicked(cfg, b, kind, h);
      ServesIntro(cfg, b, d, kind, q, Queue(d, kind), h);
    }
  }

  lemma ScheduledClock(cfg: Config, b: Ctrl, h: nat)
    requires Wf(cfg, b) && h <= |Queue(b, Active(b))|
    ensures Scheduled(cfg, b, h).clk == b.clk
  {
    hide Wf, Queue, Active, Executed;
  }

  lemma AllOkIntro(cfg: Config, q: seq<Request>)
    requires forall i :: 0 <= i < |q| ==> ReqOk(cfg, q[i])
    ensures AllOk(cfg, q)
  {
    hide ReqOk;
  }

  lemma ServesNone(cfg: Config, b: Ctrl, d: Ctrl, kind: Kind, q: seq<Request>, q': seq<Request>)
    requires Wf(cfg, b) && AllOk(cfg, q) && q == [] && d.log.issued == b.log.issued && q' == q
    ensures Serves(cfg, b, d, kind, q, q')
  {
    hide Wf, AllOk;
  }

  lemma ServesIntro(cfg: Config, b: Ctrl, d: Ctrl, kind: Kind, q: seq<Request>, q': seq<Request>, h: nat)
    requires Wf(cfg, b) && AllOk(cfg, q) && h < |q| && ReqOk(cfg, q[h]) && Picked(cfg, b, q, h)
    requires Ready(cfg, b, q[h]) ==>
      && d.log.issued == b.log.issued + [Issued(FirstCmd(cfg, b, q[h]), q[h].addrVec, b.clk)]
      && q' == After(kind, q, h, FirstCmd(cfg, b, q[h]))
    requires !Ready(cfg, b, q[h]) ==> d.log.issued == b.log.issued && q' == q
    ensures Serves(cfg, b, d, kind, q, q')
  {
    hide Wf, AllOk, ReqOk, Ready, FirstCmd, Picked;
    assert ServedAt(cfg, b, d, kind, q, q', h);
  }

  lemma GoesIs(cfg: Config, c: Ctrl, h: nat)
    requires Wf(cfg, c) && h <= |Queue(c, Active(c))|
    ensures h < |Queue(c, Active(c))| ==> ReqOk(cfg, Queue(c, Active(c))[h])
    ensures Goes(cfg, c, h) <==> h < |Queue(c, Active(c))| && Ready(cfg, c, Queue(c, Active(c))[h])
  {
    QueueReqs(cfg, c, Active(c));
    hide Wf, ReqOk, Ready, Active, Queue;
  }

  /** In every run, a tick in write mode with no refresh waiting serves the writes: the
      reads stay as they are, and a command issued is for the write picked. */
  lemma RunServesWrites(cfg: Config, trace: seq<Ctrl>, n: nat)
    requires Run(cfg, trace) && n + 1 < |trace| && trace[n + 1].clk != trace[n].clk && trace[n + 1].writeMode
    ensures Wf(cfg, trace[n]) && RefreshFits(cfg, trace[n])
    ensures var b, d := Prepared(cfg, trace[n]), trace[n + 1];
      b.otherq == [] ==>
        && Serves(cfg, b, d, WRITE, trace[n].writeq, d.writeq)
        && d.readq == trace[n].readq && d.otherq == []
  {
    hide *;
    RunTick(cfg, trace, n);
  }

  /** In read mode, the same of the reads. */
  lemma RunServesReads(cfg: Config, trace: seq<Ctrl>, n: nat)
    requires Run(cfg, trace) && n + 1 < |trace| && trace[n + 1].clk != trace[n].clk && !trace[n + 1].writeMode
    ensures Wf(cfg, trace[n]) && RefreshFits(cfg, trace[n])
    ensures var b, d := Prepared(cfg, trace[n]), trace[n + 1];
      b.otherq == [] ==>
        && Serves(cfg, b, d, READ, trace[n].readq, d.readq)
        && d.writeq == trace[n].writeq && d.otherq == []
  {
    hide *;
    RunTick(cfg, trace, n);
  }

  /** While a refresh waits, neither reads nor writes are served. */
  lemma RunServesRefreshes(cfg: Config, trace: seq<Ctrl>, n: nat)
    requires Run(cfg, trace) && n + 1 < |trace| && trace[n + 1].clk != trace[n].clk
    ensures Wf(cfg, trace[n]) && RefreshFits(cfg, trace[n])
    ensures var b, d := Prepared(cfg, trace[n]), trace[n + 1];
      b.otherq != [] ==>
        && Serves(cfg, b, d, REFRESH, b.otherq, d.otherq)
        && d.readq == trace[n].readq && d.writeq == trace[n].writeq
  {
    hide *;
    RunTick(cfg, trace, n);
  }

  lemma RunTick(cfg: Config, trace: seq<Ctrl>, n: nat)
    requires Run(cfg, trace) && n + 1 < |trace| && trace[n + 1].clk != trace[n].clk
    ensures Wf(cfg, trace[n]) && RefreshFits(cfg, trace[n])
    ensures var b, d := Prepared(cfg, trace[n]), trace[n + 1];
      && b.readq == trace[n].readq && b.writeq == trace[n].writeq
      && (b.otherq != [] ==>
            Serves(cfg, b, d, REFRESH, b.otherq, d.otherq) && d.readq == b.readq && d.writeq == b.writeq)
      && (b.otherq == [] && d.writeMode ==>
            Serves(cfg, b, d, WRITE, b.writeq, d.writeq) && d.readq == b.readq && d.otherq == b.otherq)
      && (b.otherq == [] && !d.writeMode ==>
            Serves(cfg, b, d, READ, b.readq, d.readq) && d.writeq == b.writeq && d.otherq == b.otherq)
  {
    hide *;
    RunStep(cfg, trace, n);
    var h := StepTicks(cfg, trace[n], trace[n + 1]);
    PreparedFrame(cfg, trace[n]);
    var b := Prepared(cfg, trace[n]);
    ScheduledServes(cfg, b, h, Active(b));
    TurnOf(b);
    QueuesOf(b);
    QueuesOf(trace[n + 1]);
  }

  lemma TurnOf(b: Ctrl)
    ensures Active(b) == if b.otherq != [] then REFRESH else if b.writeMode then WRITE else READ
  {}

  lemma QueuesOf(c: Ctrl)
    ensures Queue(c, READ) == c.readq && Queue(c, WRITE) == c.writeq && Queue(c, REFRESH) == c.otherq
  {}

  // ------------------------------------------------------------------ answers

  /** In every run a tick answers the read at the front of pending if its departure has
      come, and no other. */
  lemma RunAnswers(cfg: Config, trace: seq<Ctrl>, n: nat)
    requires Run(cfg, trace) && n + 1 < |trace|
    ensures var c, d := trace[n], trace[n + 1];
      d.log.called ==
        if d.clk != c.clk && c.pending != [] && c.pending[0].depart <= d.clk
        then c.log.called + [Done(c.pending[0], d.clk)] else c.log.called
  {
    hide *;
    RunStep(cfg, trace, n);
    StepAnswers(cfg, trace[n], trace[n + 1]);
  }

  lemma StepAnswers(cfg: Config, c: Ctrl, d: Ctrl)
    requires Wf(cfg, c) && Step(cfg, c, d)
    ensures d.log.called ==
      if d.clk != c.clk && c.pending != [] && c.pending[0].depart <= d.clk
      then c.log.called + [Done(c.pending[0], d.clk)] else c.log.called
  {
    hide *;
    if d.clk == c.clk {
      StepStays(cfg, c, d);
      if d != c {
        var req :| ReqOk(cfg, req) && !Full(c, req) && d == Enqueued(c, req);
        EnqueuedAnswers(c, req);
      }
    } else {
      var h := StepTicks(cfg, c, d);
      var b := Prepared(cfg, c);
      PreparedAnswers(cfg, c);
      ScheduledEffect(cfg, b, h);
      ScheduledClock(cfg, b, h);
    }
  }

  lemma EnqueuedAnswers(c: Ctrl, req: Request)
    ensures Enqueued(c, req).log.called == c.log.called
  {
    hide Forwards;
  }

  lemma PreparedAnswers(cfg: Config, c: Ctrl)
    requires Wf(cfg, c) && RefreshFits(cfg, c)
    ensures Prepared(cfg, c).clk == c.clk + 1
    ensures Prepared(cfg, c).log.called ==
      if c.pending != [] && c.pending[0].depart <= c.clk + 1
      then c.log.called + [Done(c.pending[0], c.clk + 1)] else c.log.called
  {
    hide *;
    PreparedIs(cfg, c);
    PreparedClocks(cfg, c);
    var c1 := Clocked(c);
    ClockedFrame(cfg, c);
    ServedIs(cfg, c1);
    AnswersIs(c1);
    if Answers(c1) { AnsweredIs(c1, Served(cfg, c1)); }
    InjectedFrame(cfg, Served(cfg, c1));
  }

  lemma AnswersIs(c: Ctrl)
    ensures Answers(c) <==> c.pending != [] && c.pending[0].depart <= c.clk
  {}

  lemma AnsweredIs(c: Ctrl, d: Ctrl)
    requires Answered(c, d)
    ensures c.pending != [] && d.log.called == c.log.called + [Done(c.pending[0], c.clk)]
  {}
}
