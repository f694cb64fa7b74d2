/** What the controller puts on the bus: one tick issues at most the first command of
    the scheduler's head, and what that command can be. */
module ControllerBus {
  import opened DramTree
  import opened Timing
  import opened TimingRuns
  import opened Ddr3
  import opened Ddr3State
  import opened RowTable
  import opened Scheduler
  import opened ControllerSpec
  import opened ControllerWf
  import opened ControllerInv
  import opened ControllerFlow
  import opened ControllerRuns

  // ------------------------------------------- what the phases do to queues

  /** Answering a read touches neither the queues nor the bus. */
  lemma ServedFrame(cfg: Config, c: Ctrl)
    requires Wf(cfg, c)
    ensures var d := Served(cfg, c);
      && d.log.issued == c.log.issued && d.log.finished == c.log.finished && View(d.tree) == View(c.tree)
      && d.readq == c.readq && d.writeq == c.writeq && d.otherq == c.otherq && d.writeMode == c.writeMode
      && d.rows == c.rows
  {
    hide Mirrors, Channel, TreeOk, AddrOk, View, UpdateServing;
    if c.pending != [] && c.pending[0].depart <= c.clk {
      var req := c.pending[0];
      assert PendingOk(cfg, req);
      if req.depart - req.arrive > 1 { ServeCallWf(cfg, c, req, -1); }
    }
  }

  /** Up to the scheduling phase a tick only counts the clock, answers a read, queues
      refreshes and chooses the mode. */
  lemma PreparedFrame(cfg: Config, c: Ctrl)
    requires Wf(cfg, c) && RefreshFits(cfg, c)
    ensures var b := Prepared(cfg, c);
      && b.log.issued == c.log.issued && b.log.finished == c.log.finished && View(b.tree) == View(c.tree)
      && b.readq == c.readq && b.writeq == c.writeq && b.rows == c.rows && b.writeMode == Moded(c).writeMode
      && b.otherq == c.otherq + if RefreshDue(cfg, c) then Refreshes(cfg, c.clk + 1) else []
  {
    PreparedIs(cfg, c);
    hide *;
    var c2 := Served(cfg, Clocked(c));
    ServedFrame(cfg, Clocked(c));
    InjectedFrame(cfg, c2);
    ClockedFrame(cfg, c);
    ModeLooksAt(c, c2);
    DueLooksAt(cfg, c, c2);
  }

  lemma PreparedIs(cfg: Config, c: Ctrl)
    requires Wf(cfg, c) && RefreshFits(cfg, c)
    ensures Wf(cfg, Clocked(c)) && Prepared(cfg, c) == Moded(Refreshed(cfg, Served(cfg, Clocked(c))))
  {
    ClockedWf(cfg, c);
    hide Wf, RefreshFits, Clocked, Served, Refreshed, Moded;
  }

  lemma ClockedFrame(cfg: Config, c: Ctrl)
    requires Wf(cfg, c) && Wf(cfg, Clocked(c))
    ensures Clocked(c) == c.(clk := c.clk + 1)
    ensures Served(cfg, Clocked(c)).refClk == c.refClk && Served(cfg, Clocked(c)).refreshed == c.refreshed
    ensures Served(cfg, Clocked(c)).clk == c.clk + 1
  {
    hide Wf, Served;
  }

  lemma InjectedFrame(cfg: Config, c: Ctrl)
    ensures var b := Moded(Refreshed(cfg, c));
      && b.log == c.log && b.tree == c.tree && b.rows == c.rows && b.readq == c.readq && b.writeq == c.writeq
      && b.writeMode == Moded(c).writeMode
      && b.otherq == c.otherq + if RefreshDue(cfg, c) then Refreshes(cfg, c.clk) else []
  {
    hide Refreshes;
  }

  lemma ModeLooksAt(c: Ctrl, d: Ctrl)
    requires c.readq == d.readq && c.writeq == d.writeq && c.writeMode == d.writeMode
    ensures Moded(c).writeMode == Moded(d).writeMode
  {}

  lemma DueLooksAt(cfg: Config, c: Ctrl, d: Ctrl)
    requires c.refClk == d.refClk && c.refreshed == d.refreshed
    ensures RefreshDue(cfg, c) == RefreshDue(cfg, d)
  {}

  /** Request h of the active queue has its first command issued. */
  predicate Goes(cfg: Config, c: Ctrl, h: nat)
    requires Wf(cfg, c) && h <= |Queue(c, Active(c))|
  {
    QueueReqs(cfg, c, Active(c));
    h < |Queue(c, Active(c))| && Ready(cfg, c, Queue(c, Active(c))[h])
  }

  /** Request i of a queue once its command p has been issued: it leaves with the last one. */
  function After(kind: Kind, q: seq<Request>, i: nat, p: Command): seq<Request>
    requires i < |q|
  {
    if p == Translate(kind) then q[..i] + q[i + 1..] else q[i := q[i].(first := false)]
  }

  /** The scheduling phase puts at most one command on the bus: the first command of
      the request at h, which is served by it if it was the last one needed. */
  lemma ScheduledEffect(cfg: Config, c: Ctrl, h: nat)
    requires Wf(cfg, c) && h <= |Queue(c, Active(c))|
    ensures !Goes(cfg, c, h) ==> Scheduled(cfg, c, h) == c
    ensures Goes(cfg, c, h) ==>
      var d := Scheduled(cfg, c, h); var kind := Active(c);
      && ReqOk(cfg, Queue(c, kind)[h])
      && var x := Issued(FirstCmd(cfg, c, Queue(c, kind)[h]), Queue(c, kind)[h].addrVec, c.clk);
      && d.log.issued == c.log.issued + [x] && d.log.called == c.log.called && d.writeMode == c.writeMode
      && Queue(d, kind) == After(kind, Queue(c, kind), h, x.cmd)
      && forall k :: k != kind ==> Queue(d, k) == Queue(c, k)
  {
    QueueReqs(cfg, c, Active(c));
    if Goes(cfg, c, h) { ExecutedEffect(cfg, c, Active(c), h); }
    hide Wf, Executed, FirstCmd, Ready, ReqOk;
  }

  lemma ExecutedEffect(cfg: Config, c: Ctrl, kind: Kind, h: nat)
    requires Wf(cfg, c) && h < |Queue(c, kind)|
    ensures ReqOk(cfg, Queue(c, kind)[h])
    ensures var d := Executed(cfg, c, kind, h);
      var x := Issued(FirstCmd(cfg, c, Queue(c, kind)[h]), Queue(c, kind)[h].addrVec, c.clk);
      && d.log.issued == c.log.issued + [x] && d.log.called == c.log.called && d.writeMode == c.writeMode
      && Queue(d, kind) == After(kind, Queue(c, kind), h, x.cmd)
      && forall k :: k != kind ==> Queue(d, k) == Queue(c, k)
  {
    QueueReqs(cfg, c, kind);
    var q := Queue(c, kind);
    StartedWf(cfg, c, kind, h);
    var c1 := Started(cfg, c, kind, h);
    StartedFrame(cfg, c, kind, h);
    QueueReqs(cfg, c1, kind);
    SameFirstCmd(cfg, c, c1, q[h], Queue(c1, kind)[h]);
    IssuedForWf(cfg, c1, kind, h);
    IssuedForFrame(cfg, c1, kind, h);
    var c2 := IssuedFor(cfg, c1, kind, h);
    if FirstCmd(cfg, c, q[h]) == Translate(kind) { FinishedFrame(cfg, c2, kind, h); }
    hide Wf, Started, IssuedFor, Finished, FirstCmd, Ready, ReqOk;
  }

  lemma StartedFrame(cfg: Config, c: Ctrl, kind: Kind, i: nat)
    requires Wf(cfg, c) && i < |Queue(c, kind)|
    ensures var d := Started(cfg, c, kind, i);
      && d.log.issued == c.log.issued && d.log.called == c.log.called && d.writeMode == c.writeMode
      && Queue(d, kind) == Queue(c, kind)[i := Queue(c, kind)[i].(first := false)]
      && forall k :: k != kind ==> Queue(d, k) == Queue(c, k)
  {
    hide *;
    StartedIs(cfg, c, kind, i);
    if Queue(c, kind)[i].first { BegunFrame(c, Started(cfg, c, kind, i), kind, i); }
  }

  lemma BegunFrame(c: Ctrl, d: Ctrl, kind: Kind, i: nat)
    requires i < |Queue(c, kind)| && Begun(c, d, kind, i)
    ensures d.log.issued == c.log.issued && d.log.called == c.log.called && d.writeMode == c.writeMode
    ensures Queue(d, kind) == Queue(c, kind)[i := Queue(c, kind)[i].(first := false)]
    ensures forall k :: k != kind ==> Queue(d, k) == Queue(c, k)
  {}

  lemma IssuedForFrame(cfg: Config, c: Ctrl, kind: Kind, i: nat)
    requires Wf(cfg, c) && i < |Queue(c, kind)| && ReqOk(cfg, Queue(c, kind)[i])
    ensures var d := IssuedFor(cfg, c, kind, i); var req := Queue(c, kind)[i];
      && d.log.issued == c.log.issued + [Issued(FirstCmd(cfg, c, req), req.addrVec, c.clk)]
      && d.log.called == c.log.called && d.writeMode == c.writeMode && forall k :: Queue(d, k) == Queue(c, k)
  {
    hide Wf, ReqOk, FirstCmd, NextTree, NextRows;
  }

  lemma FinishedFrame(cfg: Config, c: Ctrl, kind: Kind, i: nat)
    requires Wf(cfg, c) && i < |Queue(c, kind)|
    ensures var d := Finished(cfg, c, kind, i);
      && d.log.issued == c.log.issued && d.log.called == c.log.called && d.writeMode == c.writeMode
      && Queue(d, kind) == Queue(c, kind)[..i] + Queue(c, kind)[i + 1..]
      && forall k :: k != kind ==> Queue(d, k) == Queue(c, k)
  {
    hide *;
    QueueReqs(cfg, c, kind);
    FinishedIs(cfg, c, kind, i);
    var q := Queue(c, kind);
    CompletedFrame(cfg, c, kind, q[i]);
    SetQueueFrame(Completed(cfg, c, kind, q[i]), kind, q[..i] + q[i + 1..]);
  }

  lemma FinishedIs(cfg: Config, c: Ctrl, kind: Kind, i: nat)
    requires Wf(cfg, c) && i < |Queue(c, kind)| && ReqOk(cfg, Queue(c, kind)[i])
    ensures var q := Queue(c, kind);
      Finished(cfg, c, kind, i) == SetQueue(Completed(cfg, c, kind, q[i]), kind, q[..i] + q[i + 1..])
  {
    hide Wf, ReqOk, SetQueue, Completed;
  }

  lemma CompletedFrame(cfg: Config, c: Ctrl, kind: Kind, req: Request)
    requires Wf(cfg, c) && ReqOk(cfg, req)
    ensures var d := Completed(cfg, c, kind, req);
      && d.log.issued == c.log.issued && d.log.called == c.log.called && d.writeMode == c.writeMode
      && forall k :: Queue(d, k) == Queue(c, k)
  {
    hide Wf, ReqOk, UpdateServing;
  }

  lemma SetQueueFrame(c: Ctrl, kind: Kind, q: seq<Request>)
    ensures var d := SetQueue(c, kind, q);
      && d.log == c.log && d.writeMode == c.writeMode && Queue(d, kind) == q
      && forall k :: k != kind ==> Queue(d, k) == Queue(c, k)
  {}

  // ------------------------------------------------------ one command a tick

  /** x is the command that the step from c puts on the bus, on behalf of the
      scheduler's head, at index h of the active queue. */
  ghost predicate IssuesAt(cfg: Config, c: Ctrl, c': Ctrl, h: nat, x: Issued<Command>)
    requires Wf(cfg, c) && RefreshFits(cfg, c)
  {
    var b := Prepared(cfg, c);
    && IsHead(Items(cfg, b, Active(b)), h) && h < |Queue(b, Active(b))|
    && c' == Scheduled(cfg, b, h) && Goes(cfg, b, h)
    && ReqOk(cfg, Queue(b, Active(b))[h])
    && x == Issued(FirstCmd(cfg, b, Queue(b, Active(b))[h]), Queue(b, Active(b))[h].addrVec, b.clk)
  }

  /** A step in which the clock stands still accepts a request, or refuses one. */
  lemma StepStays(cfg: Config, c: Ctrl, c': Ctrl)
    requires Wf(cfg, c) && Step(cfg, c, c') && c'.clk == c.clk
    ensures c' == c || exists req :: ReqOk(cfg, req) && !Full(c, req) && c' == Enqueued(c, req)
  {
    hide Wf, ReqOk, RefreshFits, Prepared, Scheduled, IsHead, Items, Enqueued;
    if RefreshFits(cfg, c) && Ticks(cfg, c, c') { PreparedClocks(cfg, c); }
  }

  /** Any other step is a tick. */
  lemma StepTicks(cfg: Config, c: Ctrl, c': Ctrl) returns (h: nat)
    requires Wf(cfg, c) && Step(cfg, c, c') && c'.clk != c.clk
    ensures RefreshFits(cfg, c)
    ensures var b := Prepared(cfg, c);
      IsHead(Items(cfg, b, Active(b)), h) && h <= |Queue(b, Active(b))| && c' == Scheduled(cfg, b, h)
  {
    hide Wf, ReqOk, RefreshFits, Prepared, Scheduled, IsHead, Items;
    assert RefreshFits(cfg, c) && Ticks(cfg, c, c');
    var b := Prepared(cfg, c);
    h :| IsHead(Items(cfg, b, Active(b)), h) && h <= |Queue(b, Active(b))| && c' == Scheduled(cfg, b, h);
  }

  /** A step adds a command to the bus only as a tick, and only one. */
  lemma StepIssues(cfg: Config, c: Ctrl, c': Ctrl) returns (h: nat, x: Issued<Command>)
    requires Wf(cfg, c) && Step(cfg, c, c') && c'.log.issued != c.log.issued
    ensures RefreshFits(cfg, c) && IssuesAt(cfg, c, c', h, x) && c'.log.issued == c.log.issued + [x]
  {
    hide Wf, ReqOk, RefreshFits, Prepared, Scheduled, IsHead, Items, Goes, FirstCmd, Step;
    if c'.clk == c.clk { StepStays(cfg, c, c'); }
    h := StepTicks(cfg, c, c');
    PreparedFrame(cfg, c);
    var b := Prepared(cfg, c);
    ScheduledEffect(cfg, b, h);
    GoesIsInside(cfg, b, h);
    x := Issued(FirstCmd(cfg, b, Queue(b, Active(b))[h]), Queue(b, Active(b))[h].addrVec, b.clk);
  }

  lemma GoesIsInside(cfg: Config, c: Ctrl, h: nat)
    requires Wf(cfg, c) && h <= |Queue(c, Active(c))|
    ensures Goes(cfg, c, h) ==> h < |Queue(c, Active(c))|
  {}

  /** Every command ever issued was the one command of some earlier step. */
  lemma {:induction false} RunIssues(cfg: Config, trace: seq<Ctrl>, n: nat, k: nat) returns (m: nat)
    requires Run(cfg, trace) && n < |trace| && k < |trace[n].log.issued|
    ensures m < n && |trace[m].log.issued| == k
    ensures trace[m + 1].log.issued == trace[m].log.issued + [trace[n].log.issued[k]]
    decreases n
  {
    hide *;
    if n == 0 {
      FreshIssues(cfg, trace);
    } else {
      RunStep(cfg, trace, n - 1);
      if trace[n].log.issued == trace[n - 1].log.issued {
        m := RunIssues(cfg, trace, n - 1, k);
      } else {
        var h, x := StepIssues(cfg, trace[n - 1], trace[n]);
        if k < |trace[n - 1].log.issued| { m := RunIssues(cfg, trace, n - 1, k); } else { m := n - 1; }
      }
    }
  }

  lemma FreshIssues(cfg: Config, trace: seq<Ctrl>)
    requires Run(cfg, trace) && |trace| > 0
    ensures trace[0].log.issued == []
  {}

  // ------------------------------------------------- prior-hit scheduling

  /** A question no rank answers goes to the bank. */
  lemma AskBank(ask: (Command, Tree, int) -> Answer, t: Tree, k: Command, addr: seq<int>, ch: int, nRanks: nat,
        nBanks: nat)
    requires Channel(t, ch, nRanks, nBanks) && AddrOk(addr, ch, nRanks, nBanks) && nBanks > 0
    requires forall n: Tree, id :: n.level < BANK ==> ask(k, n, id) == Unasked
    ensures InRange(t, addr, ROW)
    ensures addr[BANK] < 0 ==> Ask(ask, t, k, addr, ROW) == Says(false)
    ensures addr[BANK] >= 0 ==>
      var w := t.children[addr[RANK]].children[addr[BANK]];
      Ask(ask, t, k, addr, ROW) == if ask(k, w, addr[ROW]) == Unasked then Says(false) else ask(k, w, addr[ROW])
  {
    var u := t.children[addr[RANK]];
    assert IsRank(u, addr[RANK], nBanks);
    if addr[BANK] >= 0 {
      var w := u.children[addr[BANK]];
      assert IsBank(w, addr[BANK]) && InRange(w, addr, ROW);
      assert InRange(u, addr, ROW) && Ask(ask, u, k, addr, ROW) == Ask(ask, w, k, addr, ROW);
    }
    assert InRange(u, addr, ROW) && Ask(ask, t, k, addr, ROW) == Ask(ask, u, k, addr, ROW);
  }

  /** The bank a request goes to. */
  function BankFor(c: Ctrl, req: Request): Bank
    requires |req.addrVec| == 5 && 0 <= req.addrVec[RANK] < |View(c.tree)|
    requires 0 <= req.addrVec[BANK] < |View(c.tree)[req.addrVec[RANK]].banks|
  {
    View(c.tree)[req.addrVec[RANK]].banks[req.addrVec[BANK]]
  }

  /** For a read or write, is_row_hit and is_row_open read the state of its bank. */
  lemma HitIsView(cfg: Config, c: Ctrl, req: Request)
    requires Wf(cfg, c) && ReqOk(cfg, req) && req.kind != REFRESH
    ensures |req.addrVec| == 5 && 0 <= req.addrVec[RANK] < |View(c.tree)|
    ensures 0 <= req.addrVec[BANK] < |View(c.tree)[req.addrVec[RANK]].banks|
    ensures ItemOf(cfg, c, req).open <==> BankFor(c, req).state == Opened
    ensures ItemOf(cfg, c, req).hit <==> BankFor(c, req).state == Opened && req.addrVec[ROW] in BankFor(c, req).rows
    ensures FirstCmd(cfg, c, req) == PRE <==>
      BankFor(c, req).state == Opened && req.addrVec[ROW] !in BankFor(c, req).rows
  {
    var k := Translate(req.kind);
    FirstIsPre(cfg, c, req);
    ViewSize(c.tree, cfg.ch, cfg.nRanks, cfg.nBanks);
    assert BankFor(c, req) == BankOf(c.tree.children[req.addrVec[RANK]].children[req.addrVec[BANK]]);
    hide Mirrors, TreeOk, QueueOk, PendingOk, View, Decode, Check, Ready, FirstCmd;
    AskBank(TablesOf(cfg).rowhit, c.tree, k, req.addrVec, cfg.ch, cfg.nRanks, cfg.nBanks);
    AskBank(TablesOf(cfg).rowopen, c.tree, k, req.addrVec, cfg.ch, cfg.nRanks, cfg.nBanks);
  }

  lemma FirstIsPre(cfg: Config, c: Ctrl, req: Request)
    requires Wf(cfg, c) && ReqOk(cfg, req) && req.kind != REFRESH
    ensures |req.addrVec| == 5 && 0 <= req.addrVec[RANK] < |View(c.tree)|
    ensures 0 <= req.addrVec[BANK] < |View(c.tree)[req.addrVec[RANK]].banks|
    ensures FirstCmd(cfg, c, req) == PRE <==>
      BankFor(c, req).state == Opened && req.addrVec[ROW] !in BankFor(c, req).rows
  {
    FirstCmdFits(cfg, c, req);
    ViewSize(c.tree, cfg.ch, cfg.nRanks, cfg.nBanks);
    hide TreeOk, QueueOk, PendingOk, View, Decode, FirstCmd, Tables;
  }

  /** The first command of a read or write: an activate for a closed bank, a precharge
      for a bank open on another row, the access itself for the open row. */
  lemma FirstCmdIs(cfg: Config, c: Ctrl, req: Request)
    requires Wf(cfg, c) && ReqOk(cfg, req) && req.kind != REFRESH
    ensures |req.addrVec| == 5 && 0 <= req.addrVec[RANK] < |View(c.tree)|
    ensures 0 <= req.addrVec[BANK] < |View(c.tree)[req.addrVec[RANK]].banks|
    ensures FirstCmd(cfg, c, req) ==
      if BankFor(c, req).state == Closed then ACT
      else if req.addrVec[ROW] !in BankFor(c, req).rows then PRE
      else if req.kind == READ then RD else WR
  {
    FirstCmdFits(cfg, c, req);
    ViewSize(c.tree, cfg.ch, cfg.nRanks, cfg.nBanks);
    hide TreeOk, QueueOk, PendingOk, View, Decode, FirstCmd, Tables;
  }

  /** No precharge is issued for a read or write while a request of the same queue hits
      the bank's open row. */
  lemma NoPrechargeOfAHit(cfg: Config, c: Ctrl, kind: Kind, h: nat, j: nat)
    requires Wf(cfg, c) && kind != REFRESH && h < |Queue(c, kind)| && j < |Queue(c, kind)| && QueueOk(cfg, c, kind)
    requires IsHead(Items(cfg, c, kind), h)
    requires FirstCmd(cfg, c, Queue(c, kind)[h]) == PRE
    requires Queue(c, kind)[j].addrVec[..ROW] == Queue(c, kind)[h].addrVec[..ROW]
    ensures !ItemOf(cfg, c, Queue(c, kind)[j]).hit
  {
    var q := Queue(c, kind);
    var items := Items(cfg, c, kind);
    HeadExists(items, h);
    HitIsView(cfg, c, q[h]);
    hide Wf, ReqOk;
    assert items[h] == ItemOf(cfg, c, q[h]) && items[j] == ItemOf(cfg, c, q[j]);
    assert items[j].group == items[h].group;
  }

  /** A refresh request needs REF exactly when every bank of its rank is closed, which is
      when the row table has no entry of the rank; until then it needs PREA. */
  lemma RefreshFindsBanksClosed(cfg: Config, c: Ctrl, i: nat)
    requires Wf(cfg, c) && i < |c.otherq| && QueueOk(cfg, c, REFRESH)
    ensures |c.otherq[i].addrVec| == 5 && 0 <= c.otherq[i].addrVec[RANK] < |View(c.tree)| == cfg.nRanks
    ensures FirstCmd(cfg, c, c.otherq[i]) in {REF, PREA}
    ensures |View(c.tree)[c.otherq[i].addrVec[RANK]].banks| == cfg.nBanks
    ensures FirstCmd(cfg, c, c.otherq[i]) == REF <==>
      (forall b :: 0 <= b < cfg.nBanks ==> View(c.tree)[c.otherq[i].addrVec[RANK]].banks[b] == Bank(Closed, map[]))
    ensures FirstCmd(cfg, c, c.otherq[i]) == REF <==>
      (forall k :: k in c.rows ==> |k| == ROW && k[RANK] != c.otherq[i].addrVec[RANK])
  {
    FirstCmdFits(cfg, c, c.otherq[i]);
    ViewSize(c.tree, cfg.ch, cfg.nRanks, cfg.nBanks);
    hide TreeOk, View, PendingOk, FirstCmd, Tables;
    RefreshOnlyClosed(c.rows, View(c.tree), c.otherq[i].addrVec, cfg.ch, cfg.nBanks);
  }

  /** Reads and writes never lead to a refresh. */
  lemma AccessNeverRefreshes(cfg: Config, c: Ctrl, req: Request)
    requires Wf(cfg, c) && ReqOk(cfg, req) && req.kind != REFRESH
    ensures FirstCmd(cfg, c, req) != REF
  {
    FirstCmdFits(cfg, c, req);
    ViewSize(c.tree, cfg.ch, cfg.nRanks, cfg.nBanks);
    hide TreeOk, QueueOk, PendingOk, View, Decode, FirstCmd, Tables;
  }

  /** In every run: when a PRE goes on the bus, no request waiting in the queue being
      served hits the row that it closes. */
  lemma RunNoPrechargeOfAHit(cfg: Config, trace: seq<Ctrl>, n: nat, x: Issued<Command>)
    requires Run(cfg, trace) && n + 1 < |trace| && trace[n + 1].log.issued == trace[n].log.issued + [x] && x.cmd == PRE
    ensures Wf(cfg, trace[n]) && RefreshFits(cfg, trace[n])
    ensures var b := Prepared(cfg, trace[n]);
      && Active(b) != REFRESH && |x.addr| == 5
      && forall j :: 0 <= j < |Queue(b, Active(b))| ==>
           var req := Queue(b, Active(b))[j];
           ReqOk(cfg, req) && (req.addrVec[..ROW] == x.addr[..ROW] ==> !ItemOf(cfg, b, req).hit)
  {
    hide *;
    RunStep(cfg, trace, n);
    var h, y := StepIssues(cfg, trace[n], trace[n + 1]);
    Last(trace[n].log.issued, x, y);
    PrechargeStep(cfg, trace[n], trace[n + 1], h, x);
  }

  lemma Last<T>(s: seq<T>, x: T, y: T)
    requires s + [x] == s + [y]
    ensures x == y
  {
    assert (s + [x])[|s|] == x;
  }

  lemma PrechargeStep(cfg: Config, c: Ctrl, c': Ctrl, h: nat, x: Issued<Command>)
    requires Wf(cfg, c) && RefreshFits(cfg, c) && IssuesAt(cfg, c, c', h, x) && x.cmd == PRE
    ensures var b := Prepared(cfg, c);
      && Active(b) != REFRESH && |x.addr| == 5
      && forall j :: 0 <= j < |Queue(b, Active(b))| ==>
           var req := Queue(b, Active(b))[j];
           ReqOk(cfg, req) && (req.addrVec[..ROW] == x.addr[..ROW] ==> !ItemOf(cfg, b, req).hit)
  {
    var b := Prepared(cfg, c);
    var kind := Active(b);
    QueueReqs(cfg, b, kind);
    QueuesOk(cfg, b, kind);
    AddrLen(cfg, Queue(b, kind)[h]);
    hide Wf, ReqOk, RefreshFits, Prepared, Scheduled, IsHead, Items, ItemOf, Goes, FirstCmd, Active;
    if kind == REFRESH { RefreshFindsBanksClosed(cfg, b, h); }
    forall j | 0 <= j < |Queue(b, kind)| && Queue(b, kind)[j].addrVec[..ROW] == x.addr[..ROW]
      ensures !ItemOf(cfg, b, Queue(b, kind)[j]).hit
    {
      NoPrechargeOfAHit(cfg, b, kind, h, j);
    }
  }

  /** In every run: when a REF goes on the bus, every bank of its rank is closed in the
      tree and none has an entry in the row table. */
  lemma RunRefreshFindsBanksClosed(cfg: Config, trace: seq<Ctrl>, n: nat, x: Issued<Command>)
    requires Run(cfg, trace) && n + 1 < |trace| && trace[n + 1].log.issued == trace[n].log.issued + [x] && x.cmd == REF
    ensures Wf(cfg, trace[n]) && RefreshFits(cfg, trace[n])
    ensures var b := Prepared(cfg, trace[n]); RankClosed(cfg, b, x.addr) && RankClosed(cfg, trace[n], x.addr)
  {
    hide *;
    RunStep(cfg, trace, n);
    var h, y := StepIssues(cfg, trace[n], trace[n + 1]);
    Last(trace[n].log.issued, x, y);
    RefreshStep(cfg, trace[n], trace[n + 1], h, x);
  }

  /** Every bank of the rank is closed, and none is in the row table. */
  ghost predicate RankClosed(cfg: Config, c: Ctrl, addr: seq<int>) {
    && |addr| == 5 && 0 <= addr[RANK] < |View(c.tree)| && |View(c.tree)[addr[RANK]].banks| == cfg.nBanks
    && (forall b :: 0 <= b < cfg.nBanks ==> View(c.tree)[addr[RANK]].banks[b] == Bank(Closed, map[]))
    && (forall k :: k in c.rows ==> |k| == ROW && k[RANK] != addr[RANK])
  }

  lemma RefreshStep(cfg: Config, c: Ctrl, c': Ctrl, h: nat, x: Issued<Command>)
    requires Wf(cfg, c) && RefreshFits(cfg, c) && IssuesAt(cfg, c, c', h, x) && x.cmd == REF
    ensures RankClosed(cfg, Prepared(cfg, c), x.addr) && RankClosed(cfg, c, x.addr)
  {
    var b := Prepared(cfg, c);
    var kind := Active(b);
    var req := Queue(b, kind)[h];
    assert x == Issued(FirstCmd(cfg, b, req), req.addrVec, b.clk);
    PreparedFrame(cfg, c);
    QueueReqs(cfg, b, kind);
    hide *;
    if kind != REFRESH {
      AccessNeverRefreshes(cfg, b, req);
    } else {
      RefreshNeedsClosed(cfg, b, h, req);
      RankClosedFrame(cfg, b, c, x.addr);
    }
  }

  lemma RefreshNeedsClosed(cfg: Config, c: Ctrl, h: nat, req: Request)
    requires Wf(cfg, c) && h < |Queue(c, REFRESH)| && req == Queue(c, REFRESH)[h] && ReqOk(cfg, req)
    requires FirstCmd(cfg, c, req) == REF
    ensures RankClosed(cfg, c, req.addrVec)
  {
    QueuesOk(cfg, c, REFRESH);
    hide Wf, ReqOk, QueueOk, FirstCmd, View;
    RefreshFindsBanksClosed(cfg, c, h);
  }

  lemma RankClosedFrame(cfg: Config, c: Ctrl, d: Ctrl, addr: seq<int>)
    requires RankClosed(cfg, c, addr) && View(d.tree) == View(c.tree) && d.rows == c.rows
    ensures RankClosed(cfg, d, addr)
  {
    hide View;
  }

  lemma QueuesOk(cfg: Config, c: Ctrl, kind: Kind)
    requires Wf(cfg, c)
    ensures QueueOk(cfg, c, kind)
  {}
}
