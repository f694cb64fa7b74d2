/** The memory controller of ramulator/Controller.h as it runs: queues updated in place
    over the in-memory tree and the row table. Each phase is proved against the state
    machine, and the whole invariant is carried through every call. */
module Controller {
  import opened DramTree
  import opened Ddr3
  import opened Ddr3State
  import opened RowTable
  import opened Scheduler
  import opened Timing
  import opened TimingRuns
  import opened Servings
  import opened DramNode
  import opened ControllerSpec
  import opened ControllerWf
  import opened ControllerRuns

  class Controller {
    const cfg: Config
    const channel: Dram
    const rowtable: Table
    var clk: int
    var readq: seq<Request>
    var writeq: seq<Request>
    var otherq: seq<Request>
    var pending: seq<Request>
    var writeMode: bool
    var refClk: int
    var refreshed: int
    var accepted: nat
    ghost var log: Log

    ghost predicate Shaped() {
      && channel.Shaped() && channel.spec == TablesOf(cfg)
      && this as object !in channel.Repr && rowtable as object !in channel.Repr
    }

    /** The abstract state. */
    ghost function State(): Ctrl
      requires Shaped()
      reads this, rowtable, channel.Repr
    {
      Ctrl(clk, channel.Tree(), rowtable.rows, readq, writeq, otherq, pending, writeMode, refClk, refreshed, log)
    }

    ghost predicate Valid()
      reads this, rowtable, channel.Repr
    {
      Shaped() && Inv(cfg, State()) && accepted == |log.readsIn| + |log.writesIn|
    }

    constructor (cfg: Config)
      requires ConfigOk(cfg)
      ensures Valid() && State() == ControllerRuns.Fresh(cfg) && this.cfg == cfg
      ensures fresh(rowtable) && fresh(channel.Repr)
    {
      hide Tables, Inv, Built;
      this.cfg := cfg;
      channel := new Dram(TablesOf(cfg), CHANNEL, cfg.ch, [0, cfg.nRanks, cfg.nBanks, 0, 0]);
      rowtable := new Table();
      clk, readq, writeq, otherq, pending, writeMode, refClk, refreshed := 0, [], [], [], [], false, 0, 0;
      accepted, log := 0, Log([], [], [], [], [], []);
      new;
      FreshInv(cfg);
    }

    /** A full queue refuses; a read whose address waits in the write queue is answered
        from there; anything else is appended. */
    method Enqueue(req: Request) returns (ok: bool)
      requires Valid() && ReqOk(cfg, req)
      modifies this
      ensures Valid()
      ensures ok <==> |Queue(old(State()), req.kind)| < 32
      ensures State() == if ok then Enqueued(old(State()), req) else old(State())
      ensures ok ==> Takes(old(State()), State(), req)
    {
      EnqueuedTakes(State(), req);
      InvWf(cfg, State());
      WfParts(cfg, State());
      hide Inv, Wf, ReqOk, Takes;
      ghost var c := State();
      var size := match req.kind case READ => |readq| case WRITE => |writeq| case REFRESH => |otherq|;
      if size == QUEUE_MAX { return false; }
      EnqueuedInv(cfg, c, req);
      Append(req);
      ok := true;
    }

    /** A read is queued, and taken out again if a queued write to its address can
        forward its data. */
    method AppendRead(req: Request, r: Request)
      requires Shaped() && accepted == |log.readsIn| + |log.writesIn| && req.kind == READ
      requires r == Accepted(State(), req)
      modifies this
      ensures Shaped() && State() == Enqueued(old(State()), req) && accepted == |log.readsIn| + |log.writesIn|
    {
      readq := readq + [r];
      accepted := accepted + 1;
      log := log.(readsIn := log.readsIn + [r]);
      var i := 0;
      while i < |writeq| && writeq[i].addr != req.addr
        invariant 0 <= i <= |writeq|
        invariant forall j :: 0 <= j < i ==> writeq[j].addr != req.addr
      {
        i := i + 1;
      }
      if i < |writeq| {
        pending := pending + [r.(depart := clk + 1)];
        readq := readq[..|readq| - 1];
        assert readq == old(readq);
      }
    }

    method Append(req: Request)
      requires Shaped() && accepted == |log.readsIn| + |log.writesIn|
      modifies this
      ensures Shaped() && State() == Enqueued(old(State()), req) && accepted == |log.readsIn| + |log.writesIn|
    {
      var r := req.(arrive := clk, first := true, token := accepted);
      match req.kind {
        case READ =>
          AppendRead(req, r);
        case WRITE =>
          writeq := writeq + [r];
          accepted := accepted + 1;
          log := log.(writesIn := log.writesIn + [r]);
        case REFRESH =>
          otherq := otherq + [r];
      }
    }

    // ---------------------------------------------------- questions to the tree

    method GetFirstCmd(req: Request, ghost c: Ctrl) returns (cmd: Command)
      requires Shaped() && State() == c && Wf(cfg, c) && ReqOk(cfg, req)
      ensures cmd == FirstCmd(cfg, c, req)
    {
      TablesParts(cfg);
      hide Tables, Mirrors, TreeOk, Decode, DecodeView, Prereq, QueueOk;
      AddrFits(cfg.speed, channel.Tree(), RD, req.addrVec, clk, cfg.ch, cfg.nRanks, cfg.nBanks);
      DecodeIssues(cfg, State(), req);
      hide Channel, AddrOk, Wf, ReqOk;
      var verdict := channel.Decode(Translate(req.kind), req.addrVec);
      cmd := verdict.cmd;
    }

    method IsReady(req: Request, ghost c: Ctrl) returns (ready: bool)
      requires Shaped() && State() == c && Wf(cfg, c) && ReqOk(cfg, req)
      ensures ready == Ready(cfg, c, req)
    {
      hide Tables, Mirrors, TreeOk, FirstCmd, QueueOk;
      var cmd := GetFirstCmd(req, c);
      AddrFits(cfg.speed, channel.Tree(), cmd, req.addrVec, clk, cfg.ch, cfg.nRanks, cfg.nBanks);
      hide Channel, AddrOk, Wf, ReqOk;
      ready := channel.Check(cmd, req.addrVec, clk);
    }

    /** Everything the scheduler asks about a request. */
    method Probe(req: Request, ghost c: Ctrl) returns (item: Item)
      requires Shaped() && State() == c && Wf(cfg, c) && ReqOk(cfg, req)
      ensures item == ItemOf(cfg, c, req)
    {
      TablesParts(cfg);
      hide Tables, Mirrors, TreeOk, FirstCmd, QueueOk, Ready;
      var ready := IsReady(req, c);
      AddrFits(cfg.speed, channel.Tree(), RD, req.addrVec, clk, cfg.ch, cfg.nRanks, cfg.nBanks);
      hide Channel, Wf;
      var hit := channel.RowHit(Translate(req.kind), req.addrVec);
      var open := channel.RowOpen(Translate(req.kind), req.addrVec);
      item := Item(req.arrive, ready, hit == Says(true), open == Says(true), req.addrVec[..Scope(PRE) + 1]);
    }

    // ------------------------------------------------------------ the phases

    method UpdateServing(req: Request, delta: int, ghost c: Ctrl)
      requires Shaped() && State() == c && Wf(cfg, c) && ReqOk(cfg, req)
      modifies this`log, channel.Repr
      ensures Shaped() && State() == ServeCall(cfg, c, req, delta)
    {
      hide Tables, Mirrors, TreeOk, QueueOk;
      AddrFits(cfg.speed, channel.Tree(), RD, req.addrVec, clk, cfg.ch, cfg.nRanks, cfg.nBanks);
      hide Channel, Wf, ReqOk;
      channel.UpdateServing(req.addrVec, delta, clk);
      log := log.(calls := log.calls + [Call(req.addrVec[1..], delta, clk)]);
    }

    /** The oldest pending read is handed back to its sender. */
    method Answer(ghost c: Ctrl)
      requires Shaped() && State() == c && |pending| > 0
      modifies this`pending, this`log
      ensures Shaped() && State() == c.(pending := c.pending[1..],
        log := c.log.(called := c.log.called + [Done(c.pending[0], clk)]))
    {
      log := log.(called := log.called + [Done(pending[0], clk)]);
      pending := pending[1..];
    }

    /** 1. Serve completed reads. */
    method ServeReads(ghost c: Ctrl)
      requires Shaped() && State() == c && Wf(cfg, c)
      modifies this`pending, this`log, channel.Repr
      ensures Shaped() && State() == Served(cfg, c)
    {
      ServedUnfold(cfg, c);
      hide Wf, ReqOk, ServeCall, Served, Dram.Tree, Dram.Shaped;
      if |pending| > 0 {
        var req := pending[0];
        if req.depart <= clk {
          if req.depart - req.arrive > 1 {
            UpdateServing(req, -1, c);
            Answer(ServeCall(cfg, c, req, -1));
          } else {
            Answer(c);
          }
        }
      }
    }

    method AddRefreshes(requests: seq<Request>, ghost c: Ctrl)
      requires Shaped() && State() == c
      modifies this`otherq, this`refreshed
      ensures Shaped() && State() == c.(otherq := c.otherq + requests, refreshed := refClk)
    {
      otherq := otherq + requests;
      refreshed := refClk;
    }

    method AdvanceRefresh(ghost c: Ctrl)
      requires Shaped() && State() == c
      modifies this`refClk
      ensures Shaped() && State() == c.(refClk := c.refClk + 1)
    {
      refClk := refClk + 1;
    }

    /** 2. Refresh scheduler. */
    method TickRefresh(ghost c: Ctrl)
      requires Shaped() && State() == c && Wf(cfg, c) && RefreshFits(cfg, c)
      modifies this`refClk, this`refreshed, this`otherq
      ensures Shaped() && State() == Refreshed(cfg, c)
    {
      hide Wf, Refreshes, Dram.Tree, Dram.Shaped;
      AdvanceRefresh(c);
      if refClk - refreshed >= cfg.nREFI {
        var requests := RefreshRequests();
        AddRefreshes(requests, c.(refClk := c.refClk + 1));
      }
    }

    /** One refresh request per rank. */
    method RefreshRequests() returns (requests: seq<Request>)
      ensures requests == Refreshes(cfg, clk)
    {
      requests := [];
      for r := 0 to cfg.nRanks
        invariant |requests| == r && forall i :: 0 <= i < r ==> requests[i] == RefreshFor(cfg, clk, i)
      {
        requests := requests + [RefreshFor(cfg, clk, r)];
      }
    }

    method SetMode(mode: bool, ghost c: Ctrl)
      requires Shaped() && State() == c
      modifies this`writeMode
      ensures Shaped() && State() == c.(writeMode := mode)
    {
      writeMode := mode;
    }

    /** 3. Should we schedule writes? */
    method ChooseMode(ghost c: Ctrl)
      requires Shaped() && State() == c && Wf(cfg, c)
      modifies this`writeMode
      ensures Shaped() && State() == Moded(c)
    {
      hide Wf;
      if !writeMode {
        if |writeq| >= WRITES_HIGH || |readq| == 0 { SetMode(true, c); }
      } else {
        if |writeq| <= WRITES_LOW && |readq| != 0 { SetMode(false, c); }
      }
    }

    /** Everything the scheduler asks about a queue. */
    method ProbeAll(q: seq<Request>, ghost c: Ctrl) returns (items: seq<Item>)
      requires Shaped() && State() == c && Wf(cfg, c) && forall i :: 0 <= i < |q| ==> ReqOk(cfg, q[i])
      ensures |items| == |q| && forall i :: 0 <= i < |q| ==> items[i] == ItemOf(cfg, c, q[i])
    {
      hide Wf, ItemOf, ReqOk;
      items := [];
      for i := 0 to |q|
        invariant |items| == i && forall j :: 0 <= j < i ==> items[j] == ItemOf(cfg, c, q[j])
      {
        var item := Probe(q[i], c);
        items := items + [item];
      }
    }

    /** get_head on one of the queues. */
    method PickHead(kind: Kind, ghost c: Ctrl) returns (h: nat)
      requires Shaped() && State() == c && Wf(cfg, c)
      ensures IsHead(Items(cfg, c, kind), h)
    {
      ItemsAt(cfg, c, kind);
      hide Wf, ItemOf, Items, ReqOk, IsHead;
      var q := match kind case READ => readq case WRITE => writeq case REFRESH => otherq;
      var items := ProbeAll(q, c);
      assert items == Items(cfg, c, kind);
      h := GetHead(items);
    }

    // ---------------------------------------------------------- scheduling

    method SetFirst(kind: Kind, h: nat, ghost c: Ctrl)
      requires Shaped() && State() == c && h < |Queue(c, kind)|
      modifies this`readq, this`writeq, this`otherq
      ensures Shaped() && State() == SetQueue(c, kind,
        Queue(c, kind)[h := Queue(c, kind)[h].(first := false)])
    {
      match kind {
        case READ => readq := readq[h := readq[h].(first := false)];
        case WRITE => writeq := writeq[h := writeq[h].(first := false)];
        case REFRESH => otherq := otherq[h := otherq[h].(first := false)];
      }
    }

    method Remove(kind: Kind, h: nat, ghost c: Ctrl)
      requires Shaped() && State() == c && h < |Queue(c, kind)|
      modifies this`readq, this`writeq, this`otherq
      ensures Shaped() && State() == SetQueue(c, kind,
        Queue(c, kind)[..h] + Queue(c, kind)[h + 1..])
    {
      match kind {
        case READ => readq := readq[..h] + readq[h + 1..];
        case WRITE => writeq := writeq[..h] + writeq[h + 1..];
        case REFRESH => otherq := otherq[..h] + otherq[h + 1..];
      }
    }

    /** The first command of a request starts its service. */
    method StartService(kind: Kind, h: nat, ghost c: Ctrl)
      requires Shaped() && State() == c && Wf(cfg, c) && h < |Queue(c, kind)|
      modifies this`readq, this`writeq, this`otherq, this`log, channel.Repr
      ensures Shaped() && State() == Started(cfg, c, kind, h)
    {
      QueueReqs(cfg, c, kind);
      hide Wf, ReqOk, ServeCall, Dram.Tree, Dram.Shaped;
      var req := match kind case READ => readq[h] case WRITE => writeq[h] case REFRESH => otherq[h];
      if req.first {
        if kind != REFRESH {
          UpdateServing(req, 1, c);
          SetFirst(kind, h, ServeCall(cfg, c, req, 1));
        } else {
          SetFirst(kind, h, c);
        }
      }
    }

    ghost method Record(x: Issued<Command>, c: Ctrl)
      requires Shaped() && State() == c
      modifies this`log
      ensures Shaped() && State() == c.(log := c.log.(issued := c.log.issued + [x]))
    {
      log := log.(issued := log.issued + [x]);
    }

    method UpdateTree(cmd: Command, req: Request, ghost c: Ctrl)
      requires Shaped() && State() == c && Wf(cfg, c) && ReqOk(cfg, req) && cmd == FirstCmd(cfg, c, req)
      modifies channel.Repr
      ensures Shaped() && State() == c.(tree := NextTree(cfg, c, req))
    {
      TablesParts(cfg);
      FirstCmdFits(cfg, c, req);
      AddrFits(cfg.speed, c.tree, cmd, req.addrVec, clk, cfg.ch, cfg.nRanks, cfg.nBanks);
      hide Tables, Wf, ReqOk, FirstCmd, Demands, Channel, AddrOk, CmdAddrOk, Dram.Tree, Dram.Shaped;
      channel.Update(cmd, req.addrVec, clk);
    }

    /** The three asserts of the row table hold. */
    method UpdateRows(cmd: Command, req: Request, ghost c: Ctrl, ghost d: Ctrl)
      requires Shaped() && State() == d && d.rows == c.rows && d.clk == c.clk
      requires Wf(cfg, c) && ReqOk(cfg, req) && cmd == FirstCmd(cfg, c, req)
      modifies rowtable
      ensures Shaped() && State() == d.(rows := NextRows(cfg, c, req))
    {
      FirstCmdFits(cfg, c, req);
      hide Tables, Wf, ReqOk, FirstCmd, Demands, Channel, AddrOk, CmdAddrOk, Dram.Tree, Dram.Shaped, Updated;
      rowtable.Update(cmd, req.addrVec, clk);
    }

    /** issue_cmd. Its assert is_ready holds on entry. */
    method IssueCmd(kind: Kind, h: nat, cmd: Command, req: Request, ghost c: Ctrl)
      requires Shaped() && State() == c && Wf(cfg, c) && h < |Queue(c, kind)| && ReqOk(cfg, req)
      requires req == Queue(c, kind)[h] && cmd == FirstCmd(cfg, c, req) && Ready(cfg, c, req)
      modifies this`log, rowtable, channel.Repr
      ensures Shaped() && State() == IssuedFor(cfg, c, kind, h)
    {
      hide Wf, ReqOk, FirstCmd, Ready, NextTree, NextRows, Dram.Tree, Dram.Shaped;
      UpdateTree(cmd, req, c);
      ghost var c1 := c.(tree := NextTree(cfg, c, req));
      UpdateRows(cmd, req, c, c1);
      Record(Issued(cmd, req.addrVec, clk), c1.(rows := NextRows(cfg, c, req)));
    }

    /** A read departs one read latency from now. */
    method Depart(req: Request, ghost c: Ctrl)
      requires Shaped() && State() == c
      modifies this`pending
      ensures Shaped() && State() == c.(pending := c.pending + [req.(depart := clk + ReadLatency(cfg))])
    {
      pending := pending + [req.(depart := clk + ReadLatency(cfg))];
    }

    ghost method RecordWrite(req: Request, c: Ctrl)
      requires Shaped() && State() == c
      modifies this`log
      ensures Shaped() && State() == c.(log := c.log.(finished := c.log.finished + [Done(req, clk)]))
    {
      log := log.(finished := log.finished + [Done(req, clk)]);
    }

    /** Hand the request on: a read departs, a write is complete. */
    method Complete(kind: Kind, req: Request, ghost c: Ctrl)
      requires Shaped() && State() == c && Wf(cfg, c) && ReqOk(cfg, req)
      modifies this`pending, this`log, channel.Repr
      ensures Shaped() && State() == Completed(cfg, c, kind, req)
    {
      hide Wf, ReqOk, ServeCall, Dram.Tree, Dram.Shaped;
      match kind {
        case READ => Depart(req, c);
        case WRITE =>
          UpdateServing(req, -1, c);
          RecordWrite(req, ServeCall(cfg, c, req, -1));
        case REFRESH =>
      }
    }

    /** The last command finishes the request. */
    method Finish(kind: Kind, h: nat, ghost c: Ctrl)
      requires Shaped() && State() == c && Wf(cfg, c) && h < |Queue(c, kind)|
          && (kind == READ ==> !Queue(c, kind)[h].first)
      modifies this`readq, this`writeq, this`otherq, this`pending, this`log, channel.Repr
      ensures Shaped() && State() == Finished(cfg, c, kind, h)
    {
      hide Wf, ReqOk, Completed, Dram.Tree, Dram.Shaped;
      QueueReqs(cfg, c, kind);
      var req := RequestAt(kind, h, c);
      Complete(kind, req, c);
      Remove(kind, h, Completed(cfg, c, kind, req));
    }

    /** The queue to schedule from. */
    method ChooseQueue(ghost c: Ctrl) returns (kind: Kind)
      requires Shaped() && State() == c
      ensures kind == Active(c)
    {
      kind := if |otherq| > 0 then REFRESH else if writeMode then WRITE else READ;
    }

    method RequestAt(kind: Kind, h: nat, ghost c: Ctrl) returns (req: Request)
      requires Shaped() && State() == c && h < |Queue(c, kind)|
      ensures req == Queue(c, kind)[h]
    {
      req := match kind case READ => readq[h] case WRITE => writeq[h] case REFRESH => otherq[h];
    }

    /** 4. Find the best command to schedule, if any. */
    method Schedule(ghost c: Ctrl) returns (ghost h: nat)
      requires Shaped() && State() == c && Wf(cfg, c)
      modifies this`readq, this`writeq, this`otherq, this`pending, this`log, rowtable, channel.Repr
      ensures h <= |Queue(c, Active(c))|
      ensures IsHead(Items(cfg, c, Active(c)), h)
      ensures Shaped() && State() == Scheduled(cfg, c, h)
    {
      QueueReqs(cfg, c, Active(c));
      hide Wf, ReqOk, Items, ItemOf, IsHead, FirstCmd, Started, IssuedFor, Finished, Dram.Tree, Dram.Shaped, Active;
      var kind := ChooseQueue(c);
      var k := PickHead(kind, c);
      h := k;
      var size := QueueSize(kind, c);
      if k < size {
        var req := RequestAt(kind, k, c);
        var ready := IsReady(req, c);
        if ready { Execute(kind, k, c); }
      }
    }

    method QueueSize(kind: Kind, ghost c: Ctrl) returns (n: nat)
      requires Shaped() && State() == c
      ensures n == |Queue(c, kind)|
    {
      n := match kind case READ => |readq| case WRITE => |writeq| case REFRESH => |otherq|;
    }

    /** Start the service of a ready request if need be, issue its first command, and
        finish it when that was its last one. */
    method Execute(kind: Kind, h: nat, ghost c: Ctrl)
      requires Shaped() && State() == c && Wf(cfg, c) && h < |Queue(c, kind)|
      requires ReqOk(cfg, Queue(c, kind)[h]) && Ready(cfg, c, Queue(c, kind)[h])
      modifies this`readq, this`writeq, this`otherq, this`pending, this`log, rowtable, channel.Repr
      ensures Shaped() && State() == Executed(cfg, c, kind, h)
    {
      StartedWf(cfg, c, kind, h);
      ghost var c1 := Started(cfg, c, kind, h);
      hide Wf, ReqOk, Ready, FirstCmd, Started, IssuedFor, Finished, Dram.Tree, Dram.Shaped, View, SameTiming, QueueOk;
      QueueReqs(cfg, c1, kind);
      SameFirstCmd(cfg, c, c1, Queue(c, kind)[h], Queue(c1, kind)[h]);
      IssuedForWf(cfg, c1, kind, h);
      ghost var c2 := IssuedFor(cfg, c1, kind, h);
      StartService(kind, h, c);
      var req := RequestAt(kind, h, c1);
      var cmd := GetFirstCmd(req, c1);
      IssueCmd(kind, h, cmd, req, c1);
      if cmd == Translate(kind) {
        Finish(kind, h, c2);
      }
    }

    /** The four phases of a tick, the clock already advanced. */
    method Phases(ghost c: Ctrl) returns (ghost h: nat)
      requires Wf(cfg, c) && RefreshFits(cfg, c)
      requires Shaped() && State() == Clocked(c)
      modifies this`pending, this`refClk, this`refreshed, this`otherq, this`writeMode, this`readq, this`writeq,
               this`log,
        rowtable, channel.Repr
      ensures h <= |Queue(Prepared(cfg, c), Active(Prepared(cfg, c)))|
      ensures IsHead(Items(cfg, Prepared(cfg, c), Active(Prepared(cfg, c))), h)
      ensures Shaped() && State() == Scheduled(cfg, Prepared(cfg, c), h)
    {
      ClockedWf(cfg, c);
      ghost var c1 := Clocked(c);
      ServedWf(cfg, c1);
      ghost var c2 := Served(cfg, c1);
      RefreshedWf(cfg, c2);
      ghost var c3 := Refreshed(cfg, c2);
      ModedWf(cfg, c3);
      hide Wf, Served, Refreshed, Moded, Scheduled, IsHead, Items, Active, Dram.Tree, Dram.Shaped;
      ServeReads(c1);
      TickRefresh(c2);
      ChooseMode(c3);
      h := Schedule(Moded(c3));
    }

    method TickFrom(ghost c: Ctrl) returns (ghost d: Ctrl)
      requires Shaped() && State() == c && Inv(cfg, c) && RefreshFits(cfg, c)
      modifies this`clk, this`pending, this`refClk, this`refreshed, this`otherq, this`writeMode, this`readq,
               this`writeq, this`log,
        rowtable, channel.Repr
      ensures Shaped() && State() == d && SameAccepted(c, d)
      ensures Inv(cfg, d) && Ticks(cfg, c, d)
    {
      hide Wf, Inv, RefreshFits, Dram.Tree, Dram.Shaped, Prepared, Scheduled, IsHead, Items, Active, Ticks;
      InvWf(cfg, c);
      clk := clk + 1;
      ghost var h := Phases(c);
      d := Scheduled(cfg, Prepared(cfg, c), h);
      TicksIntro(cfg, c, h);
      TicksInv(cfg, c, d);
    }

    /** One clock tick. */
    method Tick()
      requires Valid() && RefreshFits(cfg, State())
      modifies this, rowtable, channel.Repr
      ensures Valid() && Ticks(cfg, old(State()), State())
    {
      hide Inv, RefreshFits, Dram.Tree, Dram.Shaped, Ticks;
      ghost var d := TickFrom(State());
    }
  }

  lemma ServedUnfold(cfg: Config, c: Ctrl)
    requires Wf(cfg, c)
    ensures |c.pending| == 0 || c.pending[0].depart > c.clk ==> Served(cfg, c) == c
    ensures |c.pending| > 0 ==> ReqOk(cfg, c.pending[0])
    ensures |c.pending| > 0 && c.pending[0].depart <= c.clk ==>
      var req := c.pending[0];
      var c1 := if req.depart - req.arrive > 1 then ServeCall(cfg, c, req, -1) else c;
      Served(cfg, c) == c1.(pending := c1.pending[1..], log := c1.log.(called := c1.log.called + [Done(req, c.clk)]))
  {
    PendingReqs(cfg, c);
  }

  /** d is c with the request in it, stamped with the clock: a read for whose address a
      write waits goes straight to pending, to depart a clock later; any other request
      goes to the end of its own queue. */
  predicate Takes(c: Ctrl, d: Ctrl, req: Request) {
    var r := req.(arrive := c.clk, first := true, token := |c.log.readsIn| + |c.log.writesIn|);
    var forwarded := req.kind == READ && exists i :: 0 <= i < |c.writeq| && c.writeq[i].addr == req.addr;
    && d.pending == c.pending + (if forwarded then [r.(depart := c.clk + 1)] else [])
    && d.readq == c.readq + (if req.kind == READ && !forwarded then [r] else [])
    && d.writeq == c.writeq + (if req.kind == WRITE then [r] else [])
    && d.otherq == c.otherq + (if req.kind == REFRESH then [r] else [])
  }

  lemma EnqueuedTakes(c: Ctrl, req: Request)
    ensures Takes(c, Enqueued(c, req), req)
  {}

  lemma TablesParts(cfg: Config)
    ensures var spec := TablesOf(cfg);
      && spec.prereq == Prereq && spec.rowhit == Ddr3.RowHit && spec.rowopen == Ddr3.RowOpen && spec.effect == Effect
      && TableOk(spec) && EffectOk(spec)
  {
    TablesOk(cfg.speed);
  }

  /** No assert(false) of a prerequisite function is reached. */
  lemma DecodeIssues(cfg: Config, c: Ctrl, req: Request)
    requires Wf(cfg, c) && ReqOk(cfg, req)
    ensures InRange(c.tree, req.addrVec, ROW)
    ensures Decode(TablesOf(cfg), c.tree, Translate(req.kind), req.addrVec, ROW) == Issue(FirstCmd(cfg, c, req))
  {
    DecodeIsView(cfg.speed, c.tree, Translate(req.kind), req.addrVec, cfg.ch, cfg.nRanks, cfg.nBanks);
    DemandsHold(c.rows, View(c.tree), Translate(req.kind), req.addrVec, cfg.ch, cfg.nBanks);
  }
}
