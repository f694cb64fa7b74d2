/** The memory controller of ramulator/Controller.h over a DDR3 channel, as a state
    machine on values: accept a request, and the phases of one clock tick. */
module ControllerSpec {
  import opened DramTree
  import opened Timing
  import opened TimingRuns
  import opened Ddr3
  import opened Ddr3State
  import opened RowTable
  import opened Scheduler
  import opened Servings

  datatype Kind = READ | WRITE | REFRESH

  /** `token` is the request's place in the order of acceptance; the source has no
      such field, its requests carry a callback closure instead. */
  datatype Request = Request(kind: Kind, addr: int, addrVec: seq<int>, first: bool, arrive: int, depart: int,
        token: nat)

  datatype Config = Config(speed: Speed, ch: int, nRanks: nat, nBanks: nat, nREFI: int)

  const QUEUE_MAX := 32
  const WRITES_HIGH := 25
  const WRITES_LOW := 6

  predicate ConfigOk(cfg: Config) {
    cfg.nRanks > 0 && cfg.nBanks > 0 && ReadLatency(cfg) > 1
  }

  function ReadLatency(cfg: Config): int { cfg.speed.nCL + cfg.speed.nBL }

  function TablesOf(cfg: Config): Spec<Command, State> { Tables(cfg.speed) }

  /** A request handed back to its sender, with the clock of the callback; or a
      write completed at a clock. */
  datatype Done = Done(req: Request, at: int)

  /** Everything that has happened; the source keeps no such record. */
  datatype Log = Log(issued: seq<Issued<Command>>, calls: seq<Call>, readsIn: seq<Request>, writesIn: seq<Request>,
                     called: seq<Done>, finished: seq<Done>)

  datatype Ctrl = Ctrl(
    clk: int, tree: Tree, rows: Rows,
    readq: seq<Request>, writeq: seq<Request>, otherq: seq<Request>, pending: seq<Request>,
    writeMode: bool, refClk: int, refreshed: int, log: Log)

  function Translate(kind: Kind): Command {
    match kind case READ => RD case WRITE => WR case REFRESH => REF
  }

  function Queue(c: Ctrl, kind: Kind): seq<Request> {
    match kind case READ => c.readq case WRITE => c.writeq case REFRESH => c.otherq
  }

  function SetQueue(c: Ctrl, kind: Kind, q: seq<Request>): Ctrl {
    match kind case READ => c.(readq := q) case WRITE => c.(writeq := q) case REFRESH => c.(otherq := q)
  }

  // ---------------------------------------------------------- well-formedness

  predicate ReqOk(cfg: Config, req: Request) {
    && AddrOk(req.addrVec, cfg.ch, cfg.nRanks, cfg.nBanks)
    && (req.kind != REFRESH ==> req.addrVec[BANK] >= 0)
  }

  ghost predicate QueueOk(cfg: Config, c: Ctrl, kind: Kind) {
    var q := Queue(c, kind);
    |q| <= QUEUE_MAX && forall i :: 0 <= i < |q| ==> q[i].kind == kind && ReqOk(cfg, q[i]) && q[i].arrive <= c.clk
  }

  /** A pending read came from the write queue, to leave at the next clock, or from
      the DRAM. */
  predicate PendingOk(cfg: Config, req: Request) {
    && req.kind == READ && ReqOk(cfg, req)
    && (if req.first then req.depart == req.arrive + 1 else req.depart > req.arrive + 1)
  }

  ghost predicate Wf(cfg: Config, c: Ctrl) {
    match c
    case Ctrl(clk, tree, rows, _, _, _, pending, _, _, _, _) =>
      && ConfigOk(cfg) && clk >= 0
      && Channel(tree, cfg.ch, cfg.nRanks, cfg.nBanks) && TreeOk(TablesOf(cfg), tree)
      && Mirrors(rows, View(tree), cfg.ch, cfg.nBanks)
      && QueueOk(cfg, c, READ) && QueueOk(cfg, c, WRITE) && QueueOk(cfg, c, REFRESH)
      && forall i :: 0 <= i < |pending| ==> PendingOk(cfg, pending[i])
  }

  // ------------------------------------------------------------------ enqueue

  predicate Forwards(c: Ctrl, req: Request) {
    req.kind == READ && exists i :: 0 <= i < |c.writeq| && c.writeq[i].addr == req.addr
  }

  function Accepted(c: Ctrl, req: Request): Request {
    req.(arrive := c.clk, first := true, token := |c.log.readsIn| + |c.log.writesIn|)
  }

  predicate Full(c: Ctrl, req: Request) { |Queue(c, req.kind)| == QUEUE_MAX }

  /** enqueue, when the queue has room. */
  function Enqueued(c: Ctrl, req: Request): Ctrl {
    var r := Accepted(c, req);
    var c1 := match req.kind
      case READ => c.(log := c.log.(readsIn := c.log.readsIn + [r]))
      case WRITE => c.(log := c.log.(writesIn := c.log.writesIn + [r]))
      case REFRESH => c;
    if Forwards(c, req) then c1.(pending := c.pending + [r.(depart := c.clk + 1)])
    else SetQueue(c1, req.kind, Queue(c, req.kind) + [r])
  }

  // ------------------------------------------------------- phases of one tick

  /** Only enqueue accepts requests. */
  predicate SameAccepted(c: Ctrl, d: Ctrl) {
    d.log.readsIn == c.log.readsIn && d.log.writesIn == c.log.writesIn
  }

  function Clocked(c: Ctrl): Ctrl { c.(clk := c.clk + 1) }

  function ServeCall(cfg: Config, c: Ctrl, req: Request, delta: int): Ctrl
    requires Wf(cfg, c) && ReqOk(cfg, req)
  {
    ServingKeepsView(c.tree, req.addrVec, delta, c.clk, cfg.ch, cfg.nRanks, cfg.nBanks);
    c.(tree := UpdateServing(c.tree, req.addrVec, delta, c.clk, BANK, ROW),
       log := c.log.(calls := c.log.calls + [Call(req.addrVec[1..], delta, c.clk)]))
  }

  /** Nothing but the tick itself moves the clocks. */
  predicate SameClocks(c: Ctrl, d: Ctrl) { d.clk == c.clk && d.refClk == c.refClk && d.refreshed == c.refreshed }

  /** 1. Serve completed reads. */
  function Served(cfg: Config, c: Ctrl): (r: Ctrl)
    requires Wf(cfg, c)
    ensures SameAccepted(c, r) && SameClocks(c, r) && r.otherq == c.otherq
  {
    if c.pending == [] || c.pending[0].depart > c.clk then c
    else
      var req := c.pending[0];
      var c1 := if req.depart - req.arrive > 1 then ServeCall(cfg, c, req, -1) else c;
      c1.(pending := c.pending[1..], log := c1.log.(called := c.log.called + [Done(req, c.clk)]))
  }

  function RefreshFor(cfg: Config, clk: int, r: int): Request {
    Request(REFRESH, 0, [cfg.ch, r, -1, -1, -1], true, clk, 0, 0)
  }

  /** One request per rank. */
  function Refreshes(cfg: Config, clk: int): seq<Request> {
    seq(cfg.nRanks, r requires 0 <= r < cfg.nRanks => RefreshFor(cfg, clk, r))
  }

  predicate RefreshDue(cfg: Config, c: Ctrl) { c.refClk + 1 - c.refreshed >= cfg.nREFI }

  /** refresh_target asserts that its enqueue succeeds. */
  predicate RefreshFits(cfg: Config, c: Ctrl) { RefreshDue(cfg, c) ==> |c.otherq| + cfg.nRanks <= QUEUE_MAX }

  /** 2. Refresh scheduler: one request for every rank when a refresh is due. */
  function Refreshed(cfg: Config, c: Ctrl): Ctrl {
    var c1 := c.(refClk := c.refClk + 1);
    if RefreshDue(cfg, c) then
      c1.(refreshed := c.refClk + 1, otherq := c.otherq + Refreshes(cfg, c.clk))
    else c1
  }

  /** 3. Should we schedule writes? */
  function Moded(c: Ctrl): Ctrl {
    if !c.writeMode then
      if |c.writeq| >= WRITES_HIGH || |c.readq| == 0 then c.(writeMode := true) else c
    else
      if |c.writeq| <= WRITES_LOW && |c.readq| != 0 then c.(writeMode := false) else c
  }

  /** The queue to schedule from. */
  function Active(c: Ctrl): Kind {
    if c.otherq != [] then REFRESH else if c.writeMode then WRITE else READ
  }

  function FirstCmd(cfg: Config, c: Ctrl, req: Request): Command
    requires Wf(cfg, c) && ReqOk(cfg, req)
  {
    DecodeIsView(cfg.speed, c.tree, Translate(req.kind), req.addrVec, cfg.ch, cfg.nRanks, cfg.nBanks);
    DemandsHold(c.rows, View(c.tree), Translate(req.kind), req.addrVec, cfg.ch, cfg.nBanks);
    Decode(TablesOf(cfg), c.tree, Translate(req.kind), req.addrVec, ROW).cmd
  }

  predicate Ready(cfg: Config, c: Ctrl, req: Request)
    requires Wf(cfg, c) && ReqOk(cfg, req)
  {
    AddrFits(cfg.speed, c.tree, FirstCmd(cfg, c, req), req.addrVec, c.clk, cfg.ch, cfg.nRanks, cfg.nBanks);
    Check(TablesOf(cfg), c.tree, FirstCmd(cfg, c, req), req.addrVec, c.clk, ROW)
  }

  /** What the scheduler sees of a request. */
  function ItemOf(cfg: Config, c: Ctrl, req: Request): Item
    requires Wf(cfg, c) && ReqOk(cfg, req)
  {
    AddrFits(cfg.speed, c.tree, RD, req.addrVec, c.clk, cfg.ch, cfg.nRanks, cfg.nBanks);
    Item(req.arrive, Ready(cfg, c, req),
         Ask(TablesOf(cfg).rowhit, c.tree, Translate(req.kind), req.addrVec, ROW) == Says(true),
         Ask(TablesOf(cfg).rowopen, c.tree, Translate(req.kind), req.addrVec, ROW) == Says(true),
         req.addrVec[..Scope(PRE) + 1])
  }

  function Items(cfg: Config, c: Ctrl, kind: Kind): seq<Item>
    requires Wf(cfg, c)
  {
    var q := Queue(c, kind);
    assert QueueOk(cfg, c, kind);
    seq(|q|, i requires 0 <= i < |q| => ItemOf(cfg, c, q[i]))
  }

  /** The first command of a request starts its service. */
  function Started(cfg: Config, c: Ctrl, kind: Kind, i: nat): (r: Ctrl)
    requires Wf(cfg, c) && i < |Queue(c, kind)|
    ensures SameAccepted(c, r) && SameClocks(c, r)
  {
    assert QueueOk(cfg, c, kind);
    var q := Queue(c, kind);
    if !q[i].first then c
    else
      var c1 := if kind == REFRESH then c else ServeCall(cfg, c, q[i], 1);
      SetQueue(c1, kind, q[i := q[i].(first := false)])
  }

  /** The tree after the first command of a request. */
  function NextTree(cfg: Config, c: Ctrl, req: Request): (t: Tree)
    requires Wf(cfg, c) && ReqOk(cfg, req)
    ensures Channel(t, cfg.ch, cfg.nRanks, cfg.nBanks) && TreeOk(TablesOf(cfg), t)
  {
    var x := Issued(FirstCmd(cfg, c, req), req.addrVec, c.clk);
    FirstCmdFits(cfg, c, req);
    UpdateIsView(cfg.speed, c.tree, x, cfg.ch, cfg.nRanks, cfg.nBanks);
    Update(TablesOf(cfg), c.tree, x, ROW)
  }

  /** The row table after it; its asserts hold. */
  function NextRows(cfg: Config, c: Ctrl, req: Request): Rows
    requires Wf(cfg, c) && ReqOk(cfg, req)
  {
    FirstCmdFits(cfg, c, req);
    Updated(c.rows, FirstCmd(cfg, c, req), req.addrVec, c.clk)
  }

  lemma FirstCmdFits(cfg: Config, c: Ctrl, req: Request)
    requires Wf(cfg, c) && ReqOk(cfg, req)
    ensures FirstCmd(cfg, c, req) == DecodeView(View(c.tree), Translate(req.kind), req.addrVec).cmd
    ensures CmdAddrOk(FirstCmd(cfg, c, req), req.addrVec, cfg.ch, cfg.nRanks, cfg.nBanks)
    ensures (forall k :: k in c.rows ==> |k| == ROW) && Demands(c.rows, FirstCmd(cfg, c, req), req.addrVec)
  {
    DecodeIsView(cfg.speed, c.tree, Translate(req.kind), req.addrVec, cfg.ch, cfg.nRanks, cfg.nBanks);
    DemandsHold(c.rows, View(c.tree), Translate(req.kind), req.addrVec, cfg.ch, cfg.nBanks);
  }

  /** What the command does to the view. */
  function NextView(cfg: Config, c: Ctrl, req: Request): seq<Rank>
    requires Wf(cfg, c) && ReqOk(cfg, req)
  {
    FirstCmdFits(cfg, c, req);
    ViewSize(c.tree, cfg.ch, cfg.nRanks, cfg.nBanks);
    StepView(View(c.tree), FirstCmd(cfg, c, req), req.addrVec)
  }

  lemma ViewSize(t: Tree, ch: int, nRanks: nat, nBanks: nat)
    requires Channel(t, ch, nRanks, nBanks)
    ensures |View(t)| == nRanks && forall r :: 0 <= r < nRanks ==> |View(t)[r].banks| == nBanks
  {}

  lemma NextTreeView(cfg: Config, c: Ctrl, req: Request)
    requires Wf(cfg, c) && ReqOk(cfg, req)
    ensures View(NextTree(cfg, c, req)) == NextView(cfg, c, req)
  {
    hide Mirrors, TreeOk, Decode, DecodeView, Tables, Update, StepView, View;
    FirstCmdFits(cfg, c, req);
    UpdateIsView(cfg.speed, c.tree, Issued(FirstCmd(cfg, c, req), req.addrVec, c.clk), cfg.ch, cfg.nRanks, cfg.nBanks);
  }

  /** After every issued command the row table mirrors the tree again. */
  lemma NextMirrors(cfg: Config, c: Ctrl, req: Request)
    requires Wf(cfg, c) && ReqOk(cfg, req)
    ensures Mirrors(NextRows(cfg, c, req), View(NextTree(cfg, c, req)), cfg.ch, cfg.nBanks)
  {
    hide Mirrors, TreeOk, Decode, DecodeView, Tables, StepView, NextTree;
    FirstCmdFits(cfg, c, req);
    NextTreeView(cfg, c, req);
    ViewSize(c.tree, cfg.ch, cfg.nRanks, cfg.nBanks);
    MirrorStep(c.rows, View(c.tree), Translate(req.kind), req.addrVec, c.clk, cfg.ch, cfg.nBanks);
  }

  /** issue_cmd: the tree, the row table and the record of issued commands. */
  function IssuedFor(cfg: Config, c: Ctrl, kind: Kind, i: nat): (r: Ctrl)
    requires Wf(cfg, c) && i < |Queue(c, kind)|
    ensures SameAccepted(c, r) && SameClocks(c, r)
  {
    assert QueueOk(cfg, c, kind);
    var req := Queue(c, kind)[i];
    c.(tree := NextTree(cfg, c, req), rows := NextRows(cfg, c, req),
       log := c.log.(issued := c.log.issued + [Issued(FirstCmd(cfg, c, req), req.addrVec, c.clk)]))
  }

  /** Hand the request on: a read departs one read latency from now, a write is complete. */
  function Completed(cfg: Config, c: Ctrl, kind: Kind, req: Request): (r: Ctrl)
    requires Wf(cfg, c) && ReqOk(cfg, req)
    ensures SameAccepted(c, r) && SameClocks(c, r) && Queue(r, kind) == Queue(c, kind)
  {
    match kind
    case READ => c.(pending := c.pending + [req.(depart := c.clk + ReadLatency(cfg))])
    case WRITE =>
      var d := ServeCall(cfg, c, req, -1);
      d.(log := d.log.(finished := d.log.finished + [Done(req, c.clk)]))
    case REFRESH => c
  }

  /** The last command finishes the request. */
  function Finished(cfg: Config, c: Ctrl, kind: Kind, i: nat): (r: Ctrl)
    requires Wf(cfg, c) && i < |Queue(c, kind)|
    ensures SameAccepted(c, r) && SameClocks(c, r)
  {
    assert QueueOk(cfg, c, kind);
    var q := Queue(c, kind);
    SetQueue(Completed(cfg, c, kind, q[i]), kind, q[..i] + q[i + 1..])
  }
}
