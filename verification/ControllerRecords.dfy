/** What the controller records, told from the commands on the bus: when services start
    and end, and how often and how recently an open row was accessed. */
module ControllerRecords {
  import opened DramTree
  import opened Timing
  import opened TimingRuns
  import opened Ddr3
  import opened Ddr3State
  import opened RowTable
  import opened Scheduler
  import opened Servings
  import opened ControllerSpec
  import opened ControllerWf
  import opened ControllerInv
  import opened ControllerFlow
  import opened ControllerRuns
  import opened ControllerBus
  import opened ControllerTurns

  // ----------------------------------------------------------- services

  /** The first command of a read or write starts its service. */
  function Starts(req: Request, clk: int): seq<Call>
    requires |req.addrVec| == 5
  {
    if req.first && req.kind != REFRESH then [Call(req.addrVec[1..], 1, clk)] else []
  }

  /** The WR of a write ends its service; that of a read lasts until it is answered. */
  function Ends(req: Request, p: Command, clk: int): seq<Call>
    requires |req.addrVec| == 5
  {
    if req.kind == WRITE && p == WR then [Call(req.addrVec[1..], -1, clk)] else []
  }

  /** The read answered at a tick ends its service, unless it came from the write queue. */
  function Answer(c: Ctrl, clk: int): seq<Call> {
    if c.pending != [] && c.pending[0].depart <= clk && !c.pending[0].first && |c.pending[0].addrVec| == 5
    then [Call(c.pending[0].addrVec[1..], -1, clk)] else []
  }

  /** Request req was served from b to d with command p. */
  ghost predicate Marked(b: Ctrl, d: Ctrl, req: Request, p: Command) {
    && |req.addrVec| == 5 && req in Queue(b, req.kind)
    && d.log.issued == b.log.issued + [Issued(p, req.addrVec, b.clk)]
    && d.log.calls == b.log.calls + Starts(req, b.clk) + Ends(req, p, b.clk)
  }

  lemma ExecutedMarks(cfg: Config, c: Ctrl, kind: Kind, h: nat)
    requires Wf(cfg, c) && h < |Queue(c, kind)|
    ensures ReqOk(cfg, Queue(c, kind)[h]) && Queue(c, kind)[h].kind == kind
    ensures Marked(c, Executed(cfg, c, kind, h), Queue(c, kind)[h], FirstCmd(cfg, c, Queue(c, kind)[h]))
  {
    KindOf(cfg, c, kind, h);
    hide *;
    var req := Queue(c, kind)[h];
    AddrLen(cfg, req);
    ExecutedEffect(cfg, c, kind, h);
    ExecutedCalls(cfg, c, kind, h);
    InQueue(c, kind, h);
    MarksIntro(c, Executed(cfg, c, kind, h), req, FirstCmd(cfg, c, req));
  }

  lemma ExecutedCalls(cfg: Config, c: Ctrl, kind: Kind, h: nat)
    requires Wf(cfg, c) && h < |Queue(c, kind)|
    ensures ReqOk(cfg, Queue(c, kind)[h]) && |Queue(c, kind)[h].addrVec| == 5
    ensures var req := Queue(c, kind)[h];
      Executed(cfg, c, kind, h).log.calls == c.log.calls + Starts(req, c.clk) + Ends(req, FirstCmd(cfg, c, req), c.clk)
  {
    KindOf(cfg, c, kind, h);
    hide *;
    var req := Queue(c, kind)[h];
    AddrLen(cfg, req);
    StartedIs(cfg, c, kind, h);
    StartedWf(cfg, c, kind, h);
    var c1 := Started(cfg, c, kind, h);
    StartedCalls(c, c1, kind, h);
    IssuedForWf(cfg, c1, kind, h);
    IssuedForCalls(cfg, c1, kind, h);
    var c2 := IssuedFor(cfg, c1, kind, h);
    var p := FirstCmd(cfg, c, req);
    ExecutedIs(cfg, c, kind, h, c1, c2);
    if p == Translate(kind) { FinishedCalls(cfg, c2, kind, h); }
    CallsIntro(c, c1, c2, Executed(cfg, c, kind, h), req, Queue(c2, kind)[h], p);
  }

  lemma CallsIntro(c: Ctrl, c1: Ctrl, c2: Ctrl, d: Ctrl, req: Request, req': Request, p: Command)
    requires |req.addrVec| == 5 && req' == req.(first := false)
    requires c1.log.calls == c.log.calls + Starts(req, c.clk) && c1.clk == c.clk
    requires c2.log.calls == c1.log.calls && c2.clk == c1.clk
    requires p != Translate(req.kind) ==> d == c2
    requires p == Translate(req.kind) ==> d.log.calls == c2.log.calls + Ends(req', p, c2.clk)
    ensures d.log.calls == c.log.calls + Starts(req, c.clk) + Ends(req, p, c.clk)
  {
    hide Starts;
  }

  lemma InQueue(c: Ctrl, kind: Kind, h: nat)
    requires h < |Queue(c, kind)|
    ensures Queue(c, kind)[h] in Queue(c, kind)
  {}

  lemma KindOf(cfg: Config, c: Ctrl, kind: Kind, h: nat)
    requires Wf(cfg, c) && h < |Queue(c, kind)|
    ensures ReqOk(cfg, Queue(c, kind)[h]) && Queue(c, kind)[h].kind == kind
  {
    assert QueueOk(cfg, c, kind);
    hide Mirrors, Channel, TreeOk, View, PendingOk;
  }

  lemma StartedCalls(c: Ctrl, d: Ctrl, kind: Kind, i: nat)
    requires i < |Queue(c, kind)| && |Queue(c, kind)[i].addrVec| == 5 && Queue(c, kind)[i].kind == kind
    requires if Queue(c, kind)[i].first then Begun(c, d, kind, i) else d == c
    ensures d.log.calls == c.log.calls + Starts(Queue(c, kind)[i], c.clk) && d.clk == c.clk
    ensures |Queue(d, kind)| == |Queue(c, kind)| && Queue(d, kind)[i] == Queue(c, kind)[i].(first := false)
  {}

  lemma IssuedForCalls(cfg: Config, c: Ctrl, kind: Kind, i: nat)
    requires Wf(cfg, c) && i < |Queue(c, kind)|
    ensures IssuedFor(cfg, c, kind, i).log.calls == c.log.calls && IssuedFor(cfg, c, kind, i).clk == c.clk
  {
    hide Wf, FirstCmd, NextTree, NextRows;
  }

  lemma FinishedCalls(cfg: Config, c: Ctrl, kind: Kind, i: nat)
    requires Wf(cfg, c) && i < |Queue(c, kind)| && |Queue(c, kind)[i].addrVec| == 5 && Queue(c, kind)[i].kind == kind
    ensures Finished(cfg, c, kind, i).log.calls == c.log.calls + Ends(Queue(c, kind)[i], Translate(kind), c.clk)
  {
    QueueReqs(cfg, c, kind);
    hide Wf, ReqOk, UpdateServing;
  }

  lemma ExecutedIs(cfg: Config, c: Ctrl, kind: Kind, h: nat, c1: Ctrl, c2: Ctrl)
    requires Wf(cfg, c) && h < |Queue(c, kind)| && ReqOk(cfg, Queue(c, kind)[h]) && c1 == Started(cfg, c, kind, h)
    requires Wf(cfg, c1) && h < |Queue(c1, kind)| && c2 == IssuedFor(cfg, c1, kind, h)
    requires Wf(cfg, c2) && h < |Queue(c2, kind)|
    ensures Executed(cfg, c, kind, h)
      == if FirstCmd(cfg, c, Queue(c, kind)[h]) != Translate(kind) then c2 else Finished(cfg, c2, kind, h)
  {
    hide Wf, FirstCmd, Started, IssuedFor, Finished;
  }

  lemma MarksIntro(c: Ctrl, d: Ctrl, req: Request, p: Command)
    requires |req.addrVec| == 5 && req in Queue(c, req.kind)
    requires d.log.issued == c.log.issued + [Issued(p, req.addrVec, c.clk)]
    requires d.log.calls == c.log.calls + Starts(req, c.clk) + Ends(req, p, c.clk)
    ensures Marked(c, d, req, p)
  {
    hide Starts, Ends, Queue;
  }

  lemma PreparedCalls(cfg: Config, c: Ctrl)
    requires Wf(cfg, c) && RefreshFits(cfg, c)
    ensures Prepared(cfg, c).clk == c.clk + 1
    ensures Prepared(cfg, c).log.calls == c.log.calls + Answer(c, c.clk + 1)
  {
    hide *;
    PreparedIs(cfg, c);
    PreparedClocks(cfg, c);
    var c1 := Clocked(c);
    ClockedFrame(cfg, c);
    ServedIs(cfg, c1);
    AnswerIs(c, c1, Served(cfg, c1));
    InjectedFrame(cfg, Served(cfg, c1));
  }

  lemma AnswerIs(c: Ctrl, c1: Ctrl, d: Ctrl)
    requires c1 == c.(clk := c.clk + 1) && if Answers(c1) then Answered(c1, d) else d == c1
    ensures d.log.calls == c.log.calls + Answer(c, c.clk + 1)
  {}

  /** The records of a step from c to d: services start with the first command of a read
      or write and end with a write's WR or when a read from the DRAM is answered, at the
      clock of the tick; nothing else starts or ends one. */
  ghost predicate Recorded(c: Ctrl, d: Ctrl) {
    if d.clk == c.clk then d.log.calls == c.log.calls && d.log.issued == c.log.issued
    else if d.log.issued == c.log.issued then d.log.calls == c.log.calls + Answer(c, d.clk)
    else exists req, p :: ServedFor(c, d, req, p)
  }

  ghost predicate ServedFor(c: Ctrl, d: Ctrl, req: Request, p: Command) {
    && |req.addrVec| == 5 && (req.kind != REFRESH ==> req in Queue(c, req.kind))
    && d.log.issued == c.log.issued + [Issued(p, req.addrVec, d.clk)]
    && d.log.calls == c.log.calls + Answer(c, d.clk) + Starts(req, d.clk) + Ends(req, p, d.clk)
  }

  lemma RunRecords(cfg: Config, trace: seq<Ctrl>, n: nat)
    requires Run(cfg, trace) && n + 1 < |trace|
    ensures Recorded(trace[n], trace[n + 1])
  {
    hide *;
    RunStep(cfg, trace, n);
    StepRecords(cfg, trace[n], trace[n + 1]);
  }

  lemma StepRecords(cfg: Config, c: Ctrl, d: Ctrl)
    requires Wf(cfg, c) && Step(cfg, c, d)
    ensures Recorded(c, d)
  {
    hide *;
    if d.clk == c.clk {
      StepStays(cfg, c, d);
      if d != c {
        var req :| ReqOk(cfg, req) && !Full(c, req) && d == Enqueued(c, req);
        EnqueuedRecords(c, req);
      }
      StaysRecorded(c, d);
    } else {
      var h := StepTicks(cfg, c, d);
      var b := Prepared(cfg, c);
      PreparedFrame(cfg, c);
      PreparedCalls(cfg, c);
      ScheduledClock(cfg, b, h);
      QueueReqs(cfg, b, Active(b));
      ScheduledIs(cfg, b, h);
      if Goes(cfg, b, h) {
        GoesIsInside(cfg, b, h);
        ExecutedMarks(cfg, b, Active(b), h);
        QueuesOf(b);
        QueuesOf(c);
        ServedRecorded(c, b, d, Queue(b, Active(b))[h], FirstCmd(cfg, b, Queue(b, Active(b))[h]));
      } else {
        IdleRecorded(c, b);
      }
    }
  }

  lemma EnqueuedRecords(c: Ctrl, req: Request)
    ensures Enqueued(c, req).log.calls == c.log.calls && Enqueued(c, req).log.issued == c.log.issued
  {
    hide Forwards;
  }

  lemma ScheduledIs(cfg: Config, c: Ctrl, h: nat)
    requires Wf(cfg, c) && h <= |Queue(c, Active(c))|
    ensures Goes(cfg, c, h) ==> h < |Queue(c, Active(c))| && Scheduled(cfg, c, h) == Executed(cfg, c, Active(c), h)
    ensures !Goes(cfg, c, h) ==> Scheduled(cfg, c, h) == c
  {
    hide Wf, Executed, Ready, ReqOk, Active, Queue;
  }

  lemma StaysRecorded(c: Ctrl, d: Ctrl)
    requires d.clk == c.clk && d.log.calls == c.log.calls && d.log.issued == c.log.issued
    ensures Recorded(c, d)
  {}

  lemma IdleRecorded(c: Ctrl, d: Ctrl)
    requires d.clk != c.clk && d.log.issued == c.log.issued && d.log.calls == c.log.calls + Answer(c, d.clk)
    ensures Recorded(c, d)
  {
    hide Answer;
  }

  lemma ServedRecorded(c: Ctrl, b: Ctrl, d: Ctrl, req: Request, p: Command)
    requires Marked(b, d, req, p) && b.log.issued == c.log.issued && d.clk == b.clk == c.clk + 1
    requires b.log.calls == c.log.calls + Answer(c, b.clk) && b.readq == c.readq && b.writeq == c.writeq
    ensures Recorded(c, d)
  {
    hide Answer, Starts, Ends;
    assert ServedFor(c, d, req, p);
    assert |d.log.issued| != |c.log.issued|;
  }

  // ----------------------------------------------------------- open rows

  predicate Concerns(x: Issued<Command>, key: seq<int>) { |x.addr| == 5 && x.addr[..ROW] == key }

  /** The reads and writes on the bus to a bank since its last activate. */
  function HitsSince(run: seq<Issued<Command>>, key: seq<int>): nat {
    if run == [] then 0
    else
      var x := run[|run| - 1];
      if x.cmd == ACT && Concerns(x, key) then 0
      else HitsSince(run[..|run| - 1], key) + if (x.cmd == RD || x.cmd == WR) && Concerns(x, key) then 1 else 0
  }

  /** The clock of the last activate, read or write of a bank; -1 without one. */
  function LastUse(run: seq<Issued<Command>>, key: seq<int>): int {
    if run == [] then -1
    else
      var x := run[|run| - 1];
      if (x.cmd == ACT || x.cmd == RD || x.cmd == WR) && Concerns(x, key) then x.clk
      else LastUse(run[..|run| - 1], key)
  }

  ghost predicate RowsTold(rows: Rows, run: seq<Issued<Command>>) {
    forall key :: key in rows ==>
      rows[key].hits == HitsSince(run, key) && rows[key].timestamp == LastUse(run, key)
  }

  lemma UpdatedTold(rows: Rows, run: seq<Issued<Command>>, p: Command, addr: seq<int>, clk: int)
    requires |addr| == 5 && (forall k :: k in rows ==> |k| == ROW) && Demands(rows, p, addr) && RowsTold(rows, run)
    requires p in {ACT, PRE, PREA, RD, WR, REF} && (p == ACT ==> Key(addr) !in rows)
    ensures RowsTold(Updated(rows, p, addr, clk), run + [Issued(p, addr, clk)])
  {
    var run' := run + [Issued(p, addr, clk)];
    assert run'[..|run|] == run;
    forall key | key in Updated(rows, p, addr, clk)
      ensures Updated(rows, p, addr, clk)[key].hits == HitsSince(run', key)
      ensures Updated(rows, p, addr, clk)[key].timestamp == LastUse(run', key)
    {
      assert key != Key(addr) ==> key in rows && Updated(rows, p, addr, clk)[key] == rows[key];
    }
  }

  lemma ExecutedRows(cfg: Config, c: Ctrl, kind: Kind, h: nat)
    requires Wf(cfg, c) && h < |Queue(c, kind)|
    ensures ReqOk(cfg, Queue(c, kind)[h]) && forall k :: k in c.rows ==> |k| == ROW
    ensures var req := Queue(c, kind)[h]; var p := FirstCmd(cfg, c, req);
      && |req.addrVec| == 5 && Demands(c.rows, p, req.addrVec) && p in {ACT, PRE, PREA, RD, WR, REF}
      && (p == ACT ==> Key(req.addrVec) !in c.rows)
      && Executed(cfg, c, kind, h).rows == Updated(c.rows, p, req.addrVec, c.clk)
  {
    KindOf(cfg, c, kind, h);
    hide *;
    var req := Queue(c, kind)[h];
    AddrLen(cfg, req);
    FirstCmdFits(cfg, c, req);
    OpensClosed(cfg, c, req);
    StartedWf(cfg, c, kind, h);
    var c1 := Started(cfg, c, kind, h);
    var req1 := Queue(c1, kind)[h];
    IssuedForWf(cfg, c1, kind, h);
    KindOf(cfg, c1, kind, h);
    SameFirstCmd(cfg, c, c1, req, req1);
    IssuedForRows(cfg, c1, kind, h);
    var c2 := IssuedFor(cfg, c1, kind, h);
    ExecutedIs(cfg, c, kind, h, c1, c2);
    if FirstCmd(cfg, c, req) == Translate(kind) { FinishedRows(cfg, c2, kind, h); }
  }

  lemma OpensClosed(cfg: Config, c: Ctrl, req: Request)
    requires Wf(cfg, c) && ReqOk(cfg, req) && |req.addrVec| == 5
    ensures FirstCmd(cfg, c, req) in {ACT, PRE, PREA, RD, WR, REF}
    ensures FirstCmd(cfg, c, req) == ACT ==> Key(req.addrVec) !in c.rows
  {
    FirstCmdFits(cfg, c, req);
    ViewSize(c.tree, cfg.ch, cfg.nRanks, cfg.nBanks);
    DemandsHold(c.rows, View(c.tree), Translate(req.kind), req.addrVec, cfg.ch, cfg.nBanks);
    KeyOfAddr(req.addrVec);
    var v := View(c.tree);
    hide View, TreeOk, Channel, QueueOk, PendingOk, FirstCmd;
    if FirstCmd(cfg, c, req) == ACT {
      var r, b := req.addrVec[RANK], req.addrVec[BANK];
      assert BankMirrored(c.rows, v[r].banks[b], KeyOf(cfg.ch, r, b));
    }
  }

  lemma IssuedForRows(cfg: Config, c: Ctrl, kind: Kind, i: nat)
    requires Wf(cfg, c) && i < |Queue(c, kind)| && ReqOk(cfg, Queue(c, kind)[i])
    ensures |Queue(c, kind)[i].addrVec| == 5 && forall k :: k in c.rows ==> |k| == ROW
    ensures Demands(c.rows, FirstCmd(cfg, c, Queue(c, kind)[i]), Queue(c, kind)[i].addrVec)
    ensures IssuedFor(cfg, c, kind, i).rows
      == Updated(c.rows, FirstCmd(cfg, c, Queue(c, kind)[i]), Queue(c, kind)[i].addrVec, c.clk)
  {
    FirstCmdFits(cfg, c, Queue(c, kind)[i]);
    AddrLen(cfg, Queue(c, kind)[i]);
    hide Wf, ReqOk, FirstCmd, NextTree, Updated, Demands;
  }

  lemma FinishedRows(cfg: Config, c: Ctrl, kind: Kind, i: nat)
    requires Wf(cfg, c) && i < |Queue(c, kind)|
    ensures Finished(cfg, c, kind, i).rows == c.rows
  {
    QueueReqs(cfg, c, kind);
    hide Wf, ReqOk, UpdateServing;
  }

  /** In every run, an entry of the row table counts the reads and writes to its bank
      since the activate that opened it, and holds the clock of the last of the three. */
  lemma {:induction false} RunRowEntries(cfg: Config, trace: seq<Ctrl>, n: nat)
    requires Run(cfg, trace) && n < |trace|
    ensures RowsTold(trace[n].rows, trace[n].log.issued)
    decreases n
  {
    hide *;
    if n == 0 {
      RunStarts(cfg, trace);
      FreshTold(cfg);
    } else {
      RunRowEntries(cfg, trace, n - 1);
      RunStep(cfg, trace, n - 1);
      StepTold(cfg, trace[n - 1], trace[n]);
    }
  }

  lemma FreshTold(cfg: Config)
    requires ConfigOk(cfg)
    ensures RowsTold(ControllerRuns.Fresh(cfg).rows, ControllerRuns.Fresh(cfg).log.issued)
  {
    assert ControllerRuns.Fresh(cfg).rows == map[];
  }

  lemma StepTold(cfg: Config, c: Ctrl, d: Ctrl)
    requires Wf(cfg, c) && Step(cfg, c, d) && RowsTold(c.rows, c.log.issued)
    ensures RowsTold(d.rows, d.log.issued)
  {
    hide *;
    if d.clk == c.clk {
      StepStays(cfg, c, d);
      if d != c {
        var req :| ReqOk(cfg, req) && !Full(c, req) && d == Enqueued(c, req);
        EnqueuedRows(c, req);
      }
    } else {
      var h := StepTicks(cfg, c, d);
      var b := Prepared(cfg, c);
      PreparedFrame(cfg, c);
      ScheduledIs(cfg, b, h);
      if Goes(cfg, b, h) {
        ExecutedEffect(cfg, b, Active(b), h);
        ExecutedRows(cfg, b, Active(b), h);
        var req := Queue(b, Active(b))[h];
        UpdatedTold(b.rows, b.log.issued, FirstCmd(cfg, b, req), req.addrVec, b.clk);
      }
    }
  }

  lemma EnqueuedRows(c: Ctrl, req: Request)
    ensures Enqueued(c, req).rows == c.rows && Enqueued(c, req).log.issued == c.log.issued
  {
    hide Forwards;
  }
}
