/** What the invariant means: the properties of every run of the controller. */
module ControllerTheorems {
  import opened DramTree
  import opened Timing
  import opened TimingRuns
  import opened Ddr3
  import opened Ddr3State
  import opened RowTable
  import opened Scheduler
  import opened Servings
  import opened ControllerSpec
  import opened ControllerWf
  import opened ControllerInv
  import opened ControllerFlow
  import opened ControllerRuns

  /** Timing: in every run the commands on the bus, one per clock, respect every entry
      of the DDR3 tables towards all commands before them. */
  lemma RunTiming(cfg: Config, trace: seq<Ctrl>, n: nat)
    requires Run(cfg, trace) && n < |trace|
    ensures Safe(Tables(cfg.speed), trace[n].tree, trace[n].log.issued, ROW)
    ensures var run := trace[n].log.issued; forall i, j :: 0 <= i < j < |run| ==> run[i].clk < run[j].clk
  {
    RunInv(cfg, trace, n);
  }

  /** In every run any five activates of a rank span at least nFAW clocks. */
  lemma RunFourActivates(cfg: Config, trace: seq<Ctrl>, n: nat, r: int, at: seq<int>)
    requires Run(cfg, trace) && n < |trace| && |at| == 5 && 0 <= r < cfg.nRanks
    requires var run := trace[n].log.issued;
      && (forall m :: 0 <= m < 5 ==>
            0 <= at[m] < |run| && run[at[m]].cmd == ACT && |run[at[m]].addr| == 5
            && run[at[m]].addr[CHANNEL] == cfg.ch && run[at[m]].addr[RANK] == r)
      && (forall i, j :: 0 <= i < j < 5 ==> at[i] < at[j])
    ensures trace[n].log.issued[at[0]].clk + cfg.speed.nFAW <= trace[n].log.issued[at[4]].clk
  {
    RunInv(cfg, trace, n);
    FourActivateWindow(cfg.speed, trace[n].tree, trace[n].log.issued, r, at);
  }

  /** Row table: in every state of every run it holds bank (r, b) with row w exactly
      when the bank is open on the single row w. */
  lemma RunRowTable(cfg: Config, trace: seq<Ctrl>, n: nat, r: int, b: int, w: int)
    requires Run(cfg, trace) && n < |trace| && 0 <= r < cfg.nRanks && 0 <= b < cfg.nBanks
    ensures 0 <= r < |trace[n].tree.children| && 0 <= b < |trace[n].tree.children[r].children|
    ensures var bank := trace[n].tree.children[r].children[b];
      var key := KeyOf(cfg.ch, r, b);
      && (bank.state == Opened || bank.state == Closed)
      && (key in trace[n].rows && trace[n].rows[key].row == w <==> bank.state == Opened && bank.rows.Keys == {w})
      && (bank.state == Closed <==> key !in trace[n].rows)
  {
    hide *;
    RunMirrors(cfg, trace, n);
    RowTableAgrees(trace[n].tree, trace[n].rows, cfg.ch, cfg.nRanks, cfg.nBanks, r, b, w);
  }

  lemma RunMirrors(cfg: Config, trace: seq<Ctrl>, n: nat)
    requires Run(cfg, trace) && n < |trace|
    ensures Channel(trace[n].tree, cfg.ch, cfg.nRanks, cfg.nBanks)
    ensures Mirrors(trace[n].rows, View(trace[n].tree), cfg.ch, cfg.nBanks)
  {
    RunInv(cfg, trace, n);
    hide Run, Channel, TreeOk, Mirrors, View, QueueOk, Timed, Tallied, Loads, Floored, Conserved, Ordered, Sourced;
  }

  lemma RowTableAgrees(t: Tree, rows: Rows, ch: int, nRanks: nat, nBanks: nat, r: int, b: int, w: int)
    requires Channel(t, ch, nRanks, nBanks) && Mirrors(rows, View(t), ch, nBanks) && 0 <= r < nRanks && 0 <= b < nBanks
    ensures 0 <= r < |t.children| && 0 <= b < |t.children[r].children|
    ensures var bank := t.children[r].children[b]; var key := KeyOf(ch, r, b);
      && (bank.state == Opened || bank.state == Closed)
      && (key in rows && rows[key].row == w <==> bank.state == Opened && bank.rows.Keys == {w})
      && (bank.state == Closed <==> key !in rows)
  {
    var v := View(t);
    var key := KeyOf(ch, r, b);
    assert BankMirrored(rows, v[r].banks[b], key);
    assert v[r].banks[b] == BankOf(t.children[r].children[b]);
    if key in rows { assert rows[key].row in v[r].banks[b].rows.Keys; }
  }

  /** Conservation: every accepted read is queued, pending or answered, exactly one of
      the three and never early; every accepted write is queued or completed; no queue
      exceeds its bound. */
  lemma RunConservation(cfg: Config, trace: seq<Ctrl>, n: nat)
    requires Run(cfg, trace) && n < |trace|
    ensures var c := trace[n];
      && Conserved(c)
      && |c.readq| <= 32 && |c.writeq| <= 32 && |c.otherq| <= 32
      && (forall d :: d in c.log.called ==> d.req.depart <= d.at)
      && (forall i, j :: 0 <= i < j < |Reads(c)| ==> Reads(c)[i].token != Reads(c)[j].token)
  {
    hide *;
    RunInv(cfg, trace, n);
    InvWf(cfg, trace[n]);
    WfParts(cfg, trace[n]);
    QueuesAre(trace[n]);
    QueueMax();
    FlowParts(cfg, trace[n]);
    ReadsDistinct(trace[n]);
  }

  lemma QueueMax()
    ensures QUEUE_MAX == 32
  {}

  lemma FlowParts(cfg: Config, c: Ctrl)
    requires Inv(cfg, c)
    ensures Conserved(c) && Ordered(c) && forall d :: d in c.log.called ==> d.req.depart <= d.at
  {
    hide Wf, Timed, Tallied, Loads, Floored, Conserved, Ordered, Fed;
  }

  /** The reads the controller holds or has answered. */
  function Reads(c: Ctrl): seq<Request> { Idents(c.readq) + Idents(c.pending) + Idents(DoneReqs(c.log.called)) }

  lemma ReadsDistinct(c: Ctrl)
    requires Conserved(c) && Ordered(c)
    ensures forall i, j :: 0 <= i < j < |Reads(c)| ==> Reads(c)[i].token != Reads(c)[j].token
  {
    assert multiset(Idents(c.log.readsIn)) == multiset(Reads(c));
    TokensDistinct(c.log.readsIn, Reads(c));
  }

  /** Rearranging requests with distinct tokens keeps the tokens distinct. */
  lemma TokensDistinct(a: seq<Request>, b: seq<Request>)
    requires multiset(Idents(a)) == multiset(b)
    requires forall i, j :: 0 <= i < j < |a| ==> a[i].token < a[j].token
    ensures forall i, j :: 0 <= i < j < |b| ==> b[i].token != b[j].token
  {
    forall i, j | 0 <= i < j < |b| ensures b[i].token != b[j].token {
      if b[i].token == b[j].token {
        assert b[i] in multiset(b) && b[j] in multiset(b);
        assert b[i] in Idents(a) && b[j] in Idents(a);
        assert b[i] == b[j];
        TwiceInMultiset(b, i, j);
        OnceInMultiset(Idents(a), b[i]);
      }
    }
  }

  lemma TwiceInMultiset<T>(s: seq<T>, i: nat, j: nat)
    requires i < j < |s| && s[i] == s[j]
    ensures multiset(s)[s[i]] >= 2
  {
    assert s == s[..j] + ([s[j]] + s[j + 1..]);
    assert multiset(s) == multiset(s[..j]) + (multiset{s[j]} + multiset(s[j + 1..]));
    assert s[..j][i] == s[i];
  }

  lemma {:induction false} OnceInMultiset<T>(s: seq<T>, x: T)
    requires forall i, j :: 0 <= i < j < |s| ==> s[i] != s[j]
    ensures multiset(s)[x] <= 1
    decreases s
  {
    if s != [] {
      var r := s[..|s| - 1];
      OnceInMultiset(r, x);
      assert s == r + [s[|s| - 1]];
      if x in multiset(r) { var i :| 0 <= i < |r| && r[i] == x; assert s[i] != s[|s| - 1]; }
    }
  }

  /** In every run a read answered from the DRAM had its RD on the bus at least nCL + nBL
      clocks before, and one forwarded from the write queue departs a clock after it
      came; a write is completed at the clock of its WR. */
  lemma RunLatency(cfg: Config, trace: seq<Ctrl>, n: nat, d: Done)
    requires Run(cfg, trace) && n < |trace|
    ensures var log := trace[n].log;
      && (d in log.called && !d.req.first ==>
            exists i :: 0 <= i < |log.issued| && log.issued[i].cmd == RD && log.issued[i].addr == d.req.addrVec
                        && log.issued[i].clk + cfg.speed.nCL + cfg.speed.nBL == d.req.depart <= d.at)
      && (d in log.called && d.req.first ==> d.req.depart == d.req.arrive + 1 <= d.at)
      && (d in log.finished ==>
            exists i :: 0 <= i < |log.issued| && log.issued[i] == Issued(WR, d.req.addrVec, d.at))
  {
    hide *;
    RunInv(cfg, trace, n);
    InvSourced(cfg, trace[n]);
    SourcedMeans(cfg, trace[n], d);
  }

  lemma InvSourced(cfg: Config, c: Ctrl)
    requires Inv(cfg, c)
    ensures Sourced(cfg, c)
  {
    hide Wf, Timed, Tallied, Loads, Floored, Conserved, Ordered, Sourced;
  }

  lemma SourcedMeans(cfg: Config, c: Ctrl, d: Done)
    requires Sourced(cfg, c)
    ensures d in c.log.called && !d.req.first ==>
      exists i :: 0 <= i < |c.log.issued| && c.log.issued[i].cmd == RD && c.log.issued[i].addr == d.req.addrVec
                  && c.log.issued[i].clk + cfg.speed.nCL + cfg.speed.nBL == d.req.depart <= d.at
    ensures d in c.log.called && d.req.first ==> d.req.depart == d.req.arrive + 1 <= d.at
    ensures d in c.log.finished ==>
      exists i :: 0 <= i < |c.log.issued| && c.log.issued[i] == Issued(WR, d.req.addrVec, d.at)
  {
    if d in c.log.called && !d.req.first { assert Fed(cfg, c, d.req); }
  }

  /** Order: a read waiting for the DRAM is older than every waiting write to its
      address, so it never overtakes an older write. */
  lemma RunOrder(cfg: Config, trace: seq<Ctrl>, n: nat, i: nat, j: nat)
    requires Run(cfg, trace) && n < |trace| && i < |trace[n].readq| && j < |trace[n].writeq|
    requires trace[n].readq[i].addr == trace[n].writeq[j].addr
    ensures trace[n].readq[i].token < trace[n].writeq[j].token
  {
    RunInv(cfg, trace, n);
    hide Wf, Timed, Tallied, Loads, Floored, Conserved, Sourced;
  }

  /** Serving counters: at every node p the count is the number of started, unfinished
      reads and writes through p, never negative; serving_requests and active_cycles
      are its time integrals; begin_of_serving is when it last became busy; the source's
      asserts hold. */
  lemma RunServing(cfg: Config, trace: seq<Ctrl>, n: nat, p: seq<int>)
    requires Run(cfg, trace) && n < |trace| && At(trace[n].tree, p)
    ensures var s := Sub(trace[n].tree, p).serving;
      var seen := Seen(trace[n].log.calls, p);
      && s.cur == TotalLoad(trace[n], p) >= 0
      && (seen != [] ==>
            s.since >= 0 && s.sum == Integral(seen, s.since) && s.active == BusyClocks(seen, s.since)
            && s.begin >= 0 && (s.cur == 0 ==> seen[|seen| - 1].delta == -1)
            && exists i: nat :: LastBegin(seen, i) && s.begin == seen[i].clk)
  {
    RunInv(cfg, trace, n);
    hide Wf, Timed, Conserved, Sourced, Ordered;
    var c := trace[n];
    var seen := Seen(c.log.calls, p);
    assert Folded(seen).cur == TotalLoad(c, p);
    SeenOrderly(c.log.calls, p);
    if seen != [] {
      CountersAreIntegrals(seen);
      ServingAsserts(seen);
      var i := BeginExact(seen);
    }
  }

  lemma {:induction false} SeenOrderly(calls: seq<Call>, p: seq<int>)
    requires forall i :: 0 <= i < |calls| ==> calls[i].clk >= 0 && (calls[i].delta == 1 || calls[i].delta == -1)
    requires forall i, j :: 0 <= i < j < |calls| ==> calls[i].clk <= calls[j].clk
    ensures Orderly(Seen(calls, p))
    ensures forall i :: 0 <= i < |Seen(calls, p)| ==> Seen(calls, p)[i].delta == 1 || Seen(calls, p)[i].delta == -1
    ensures calls != [] ==> forall i :: 0 <= i < |Seen(calls, p)| ==> Seen(calls, p)[i].clk <= calls[|calls| - 1].clk
    decreases calls
  {
    if calls != [] { SeenOrderly(calls[..|calls| - 1], p); }
  }

  /** The counts of a node's children, added up. */
  function CountSum(kids: seq<Tree>): int {
    if kids == [] then 0 else CountSum(kids[..|kids| - 1]) + kids[|kids| - 1].serving.cur
  }

  /** In every reachable state the count of a node with children is the sum of theirs. */
  lemma RunServingSums(cfg: Config, trace: seq<Ctrl>, n: nat, p: seq<int>)
    requires Run(cfg, trace) && n < |trace| && At(trace[n].tree, p)
    ensures var node := Sub(trace[n].tree, p);
      node.children != [] ==> node.serving.cur == CountSum(node.children)
  {
    hide *;
    var kids := Sub(trace[n].tree, p).children;
    if kids != [] {
      RunLoadSums(cfg, trace, n, p);
      RunServing(cfg, trace, n, p);
      CountsAreLoads(cfg, trace, n, p, |kids|);
      assert kids[..|kids|] == kids;
    }
  }

  /** The children of a node hold the loads of the paths one step longer. */
  lemma {:induction false} CountsAreLoads(cfg: Config, trace: seq<Ctrl>, n: nat, p: seq<int>, k: nat)
    requires Run(cfg, trace) && n < |trace| && At(trace[n].tree, p) && k <= |Sub(trace[n].tree, p).children|
    ensures CountSum(Sub(trace[n].tree, p).children[..k]) == TotalChildLoads(trace[n], p, k)
  {
    hide *;
    var kids := Sub(trace[n].tree, p).children;
    CountSumIs(kids, k);
    ChildLoadsAre(trace[n], p, k);
    if k > 0 {
      CountsAreLoads(cfg, trace, n, p, k - 1);
      SubStep(trace[n].tree, p, k - 1);
      RunServing(cfg, trace, n, p + [k - 1]);
    }
  }

  lemma CountSumIs(kids: seq<Tree>, k: nat)
    requires k <= |kids|
    ensures CountSum(kids[..k]) == if k == 0 then 0 else CountSum(kids[..k - 1]) + kids[k - 1].serving.cur
  {
    if k > 0 { assert kids[..k][..k - 1] == kids[..k - 1]; }
  }

  lemma ChildLoadsAre(c: Ctrl, p: seq<int>, k: nat)
    ensures TotalChildLoads(c, p, k) == if k == 0 then 0 else TotalChildLoads(c, p, k - 1) + TotalLoad(c, p + [k - 1])
  {
    hide Load;
  }

  lemma {:induction false} SubStep(t: Tree, p: seq<int>, k: nat)
    requires At(t, p) && k < |Sub(t, p).children|
    ensures At(t, p + [k]) && Sub(t, p + [k]) == Sub(t, p).children[k]
    decreases p
  {
    if p == [] {
      assert p + [k] == [k] && [k][1..] == [];
    } else {
      SubStep(t.children[p[0]], p[1..], k);
      assert (p + [k])[0] == p[0] && (p + [k])[1..] == p[1..] + [k];
    }
  }

  /** The started, unfinished reads and writes below the first k children of a node. */
  function TotalChildLoads(c: Ctrl, p: seq<int>, k: nat): nat {
    ChildLoads(c.readq, p, k) + ChildLoads(c.writeq, p, k) + ChildLoads(c.pending, p, k)
  }

  /** Every request through a node goes on through one of its children. */
  lemma RunLoadSums(cfg: Config, trace: seq<Ctrl>, n: nat, p: seq<int>)
    requires Run(cfg, trace) && n < |trace| && At(trace[n].tree, p) && Sub(trace[n].tree, p).children != []
    ensures TotalLoad(trace[n], p) == TotalChildLoads(trace[n], p, |Sub(trace[n].tree, p).children|)
  {
    hide *;
    var c := trace[n];
    var k := |Sub(c.tree, p).children|;
    RunChannel(cfg, trace, n);
    NodeWidth(c.tree, cfg.ch, cfg.nRanks, cfg.nBanks, p);
    LoadSums(cfg, c.readq, p, k);
    LoadSums(cfg, c.writeq, p, k);
    LoadSums(cfg, c.pending, p, k);
    TotalsAre(c, p, k);
  }

  lemma TotalsAre(c: Ctrl, p: seq<int>, k: nat)
    ensures TotalLoad(c, p) == Load(c.readq, p) + Load(c.writeq, p) + Load(c.pending, p)
    ensures TotalChildLoads(c, p, k)
        == ChildLoads(c.readq, p, k) + ChildLoads(c.writeq, p, k) + ChildLoads(c.pending, p, k)
  {}

  lemma RunChannel(cfg: Config, trace: seq<Ctrl>, n: nat)
    requires Run(cfg, trace) && n < |trace|
    ensures Channel(trace[n].tree, cfg.ch, cfg.nRanks, cfg.nBanks)
    ensures forall r :: r in trace[n].readq || r in trace[n].writeq || r in trace[n].pending ==>
      ReqOk(cfg, r) && r.kind != REFRESH
  {
    hide *;
    RunMirrors(cfg, trace, n);
    RunInv(cfg, trace, n);
    var c := trace[n];
    InvWf(cfg, c);
    QueueReqs(cfg, c, READ);
    QueueReqs(cfg, c, WRITE);
    PendingReqs(cfg, c);
    QueuesAre(c);
  }

  lemma QueuesAre(c: Ctrl)
    ensures Queue(c, READ) == c.readq && Queue(c, WRITE) == c.writeq && Queue(c, REFRESH) == c.otherq
  {}

  /** Only the channel and its ranks have children in the tree. */
  lemma NodeWidth(t: Tree, ch: int, nRanks: nat, nBanks: nat, p: seq<int>)
    requires Channel(t, ch, nRanks, nBanks) && At(t, p) && Sub(t, p).children != []
    ensures (p == [] && |Sub(t, p).children| == nRanks) || (|p| == 1 && |Sub(t, p).children| == nBanks)
  {
    if p != [] {
      var u := t.children[p[0]];
      assert IsRank(u, p[0], nBanks);
      if p[1..] != [] {
        var k := p[1..][0];
        assert IsBank(u.children[k], k) && Sub(t, p) == Sub(u.children[k], p[1..][1..]);
      }
    }
  }

  lemma LoadSums(cfg: Config, q: seq<Request>, p: seq<int>, k: nat)
    requires (p == [] && k == cfg.nRanks) || (|p| == 1 && k == cfg.nBanks)
    requires forall i :: 0 <= i < |q| ==> ReqOk(cfg, q[i]) && q[i].kind != REFRESH
    ensures Load(q, p) == ChildLoads(q, p, k)
  {
    RequestsOnPath(cfg, q, p, k);
    LoadOfChildren(q, p, k);
  }

  lemma RequestsOnPath(cfg: Config, q: seq<Request>, p: seq<int>, k: nat)
    requires (p == [] && k == cfg.nRanks) || (|p| == 1 && k == cfg.nBanks)
    requires forall i :: 0 <= i < |q| ==> ReqOk(cfg, q[i]) && q[i].kind != REFRESH
    ensures forall i :: 0 <= i < |q| ==>
        |q[i].addrVec| > |p| + 1 && (p <= q[i].addrVec[1..] ==> 0 <= q[i].addrVec[|p| + 1] < k)
  {}
}
