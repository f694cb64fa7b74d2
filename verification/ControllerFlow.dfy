/** Where requests are: nothing is lost, nothing is answered twice, reads never
    overtake older writes, and the serving counters count what is in service. */
module ControllerFlow {
  import opened DramTree
  import opened Timing
  import opened Ddr3
  import opened Ddr3State
  import opened RowTable
  import opened Servings
  import opened ControllerSpec
  import opened ControllerWf

  // ------------------------------------------------- requests in service

  predicate Busy(r: Request, p: seq<int>) { !r.first && |r.addrVec| > 0 && p <= r.addrVec[1..] }

  /** The started requests of a queue whose path goes through p. */
  function Load(q: seq<Request>, p: seq<int>): nat {
    if q == [] then 0 else Load(q[..|q| - 1], p) + if Busy(q[|q| - 1], p) then 1 else 0
  }

  lemma {:induction false} LoadConcat(a: seq<Request>, b: seq<Request>, p: seq<int>)
    ensures Load(a + b, p) == Load(a, p) + Load(b, p)
    decreases b
  {
    if b == [] { assert a + b == a; }
    else {
      assert (a + b)[..|a + b| - 1] == a + b[..|b| - 1];
      LoadConcat(a, b[..|b| - 1], p);
    }
  }

  lemma LoadOne(r: Request, p: seq<int>)
    ensures Load([r], p) == if Busy(r, p) then 1 else 0
  {
    assert [r][..0] == [];
    assert Load([r][..0], p) == 0;
  }

  lemma LoadSplit(q: seq<Request>, i: nat, p: seq<int>)
    requires i < |q|
    ensures Load(q, p) == Load(q[..i], p) + (if Busy(q[i], p) then 1 else 0) + Load(q[i + 1..], p)
  {
    assert q == q[..i] + ([q[i]] + q[i + 1..]);
    LoadConcat(q[..i], [q[i]] + q[i + 1..], p);
    LoadConcat([q[i]], q[i + 1..], p);
    LoadOne(q[i], p);
  }

  lemma LoadSet(q: seq<Request>, i: nat, r: Request, p: seq<int>)
    requires i < |q|
    ensures Load(q[i := r], p) == Load(q, p) - (if Busy(q[i], p) then 1 else 0) + (if Busy(r, p) then 1 else 0)
  {
    LoadSplit(q, i, p);
    LoadSplit(q[i := r], i, p);
    assert q[i := r][..i] == q[..i] && q[i := r][i + 1..] == q[i + 1..];
  }

  lemma LoadRemove(q: seq<Request>, i: nat, p: seq<int>)
    requires i < |q|
    ensures Load(q[..i] + q[i + 1..], p) == Load(q, p) - (if Busy(q[i], p) then 1 else 0)
  {
    LoadSplit(q, i, p);
    LoadConcat(q[..i], q[i + 1..], p);
  }

  function TotalLoad(c: Ctrl, p: seq<int>): nat { Load(c.readq, p) + Load(c.writeq, p) + Load(c.pending, p) }

  /** At every node the count is the number of started, unfinished reads and writes
      whose path goes through it. */
  ghost predicate Loads(c: Ctrl) { forall p :: Folded(Seen(c.log.calls, p)).cur == TotalLoad(c, p) }

  lemma ServeCallLoad(cfg: Config, c: Ctrl, req: Request, delta: int, p: seq<int>)
    requires Wf(cfg, c) && ReqOk(cfg, req)
    ensures Folded(Seen(ServeCall(cfg, c, req, delta).log.calls, p)).cur
         == Folded(Seen(c.log.calls, p)).cur + if p <= req.addrVec[1..] then delta else 0
  {
    SeenCount(c.log.calls, Call(req.addrVec[1..], delta, c.clk), p);
    hide Wf, ReqOk, Seen, Folded;
  }

  lemma EnqueuedLoads(cfg: Config, c: Ctrl, req: Request)
    requires Wf(cfg, c) && ReqOk(cfg, req) && Loads(c)
    ensures Loads(Enqueued(c, req))
  {
    hide Wf, ReqOk;
    var c' := Enqueued(c, req);
    var r := Accepted(c, req);
    forall p ensures Folded(Seen(c'.log.calls, p)).cur == TotalLoad(c', p) {
      assert Folded(Seen(c.log.calls, p)).cur == TotalLoad(c, p);
      if Forwards(c, req) {
        LoadConcat(c.pending, [r.(depart := c.clk + 1)], p);
        LoadOne(r.(depart := c.clk + 1), p);
      } else {
        LoadConcat(Queue(c, req.kind), [r], p);
        LoadOne(r, p);
      }
    }
  }

  /** The oldest pending read has reached its departure. */
  predicate Answers(c: Ctrl) { c.pending != [] && c.pending[0].depart <= c.clk }

  /** d is c with its oldest pending read answered. */
  predicate Answered(c: Ctrl, d: Ctrl) {
    && c.pending != [] && c.pending[0].depart <= c.clk && |c.pending[0].addrVec| == 5
    && (c.pending[0].first ==> c.pending[0].depart - c.pending[0].arrive == 1)
    && (!c.pending[0].first ==> c.pending[0].depart - c.pending[0].arrive > 1)
    && d == c.(tree := d.tree, pending := c.pending[1..], log := d.log)
    && d.log == c.log.(called := c.log.called + [Done(c.pending[0], c.clk)], calls := d.log.calls)
    && d.log.calls == c.log.calls
         + if c.pending[0].first then [] else [Call(c.pending[0].addrVec[1..], -1, c.clk)]
  }

  lemma ServedIs(cfg: Config, c: Ctrl)
    requires Wf(cfg, c)
    ensures if Answers(c) then Answered(c, Served(cfg, c)) else Served(cfg, c) == c
  {
    hide Mirrors, Channel, TreeOk, View, QueueOk, UpdateServing;
    if Answers(c) { assert PendingOk(cfg, c.pending[0]); }
  }

  lemma ServedLoads(cfg: Config, c: Ctrl)
    requires Wf(cfg, c) && Loads(c)
    ensures Loads(Served(cfg, c))
  {
    hide *;
    ServedIs(cfg, c);
    if Answers(c) { AnsweredLoads(c, Served(cfg, c)); }
  }

  lemma AnsweredLoads(c: Ctrl, d: Ctrl)
    requires Answered(c, d) && Loads(c)
    ensures Loads(d)
  {
    var req := c.pending[0];
    hide Load, Seen, Folded;
    forall p ensures Folded(Seen(d.log.calls, p)).cur == TotalLoad(d, p) {
      assert Folded(Seen(c.log.calls, p)).cur == TotalLoad(c, p);
      LoadRemove(c.pending, 0, p);
      assert c.pending[..0] + c.pending[1..] == d.pending;
      SeenCount(c.log.calls, Call(req.addrVec[1..], -1, c.clk), p);
      assert c.log.calls + [] == c.log.calls;
    }
  }

  lemma SeenCount(calls: seq<Call>, e: Call, p: seq<int>)
    ensures Folded(Seen(calls + [e], p)).cur == Folded(Seen(calls, p)).cur + if p <= e.path then e.delta else 0
  {
    SeenStep(calls, e, p);
  }

  lemma AddrLen(cfg: Config, req: Request)
    requires ReqOk(cfg, req)
    ensures |req.addrVec| == 5
  {}

  lemma StartedLoads(cfg: Config, c: Ctrl, kind: Kind, i: nat)
    requires Wf(cfg, c) && i < |Queue(c, kind)| && Loads(c)
    ensures Loads(Started(cfg, c, kind, i))
  {
    hide *;
    StartedIs(cfg, c, kind, i);
    if Queue(c, kind)[i].first { BegunLoads(c, Started(cfg, c, kind, i), kind, i); }
  }

  /** d is c with request i of a queue in service, if it was not yet. */
  predicate Begun(c: Ctrl, d: Ctrl, kind: Kind, i: nat)
    requires i < |Queue(c, kind)|
  {
    var q := Queue(c, kind);
    && q[i].first && q[i].kind == kind && |q[i].addrVec| == 5
    && d == SetQueue(c, kind, q[i := q[i].(first := false)]).(tree := d.tree, log := d.log)
    && d.log == c.log.(calls := d.log.calls)
    && d.log.calls == c.log.calls + if kind == REFRESH then [] else [Call(q[i].addrVec[1..], 1, c.clk)]
  }

  lemma StartedIs(cfg: Config, c: Ctrl, kind: Kind, i: nat)
    requires Wf(cfg, c) && i < |Queue(c, kind)|
    ensures if Queue(c, kind)[i].first then Begun(c, Started(cfg, c, kind, i), kind, i)
            else Started(cfg, c, kind, i) == c
  {
    QueueReqs(cfg, c, kind);
    hide Wf, AddrOk, UpdateServing;
    AddrLen(cfg, Queue(c, kind)[i]);
  }

  lemma BegunLoads(c: Ctrl, d: Ctrl, kind: Kind, i: nat)
    requires i < |Queue(c, kind)| && Begun(c, d, kind, i) && Loads(c)
    ensures Loads(d)
  {
    var q := Queue(c, kind);
    hide Load, Seen, Folded;
    forall p ensures Folded(Seen(d.log.calls, p)).cur == TotalLoad(d, p) {
      assert Folded(Seen(c.log.calls, p)).cur == TotalLoad(c, p);
      LoadSet(q, i, q[i].(first := false), p);
      SeenCount(c.log.calls, Call(q[i].addrVec[1..], 1, c.clk), p);
      assert c.log.calls + [] == c.log.calls;
    }
  }

  lemma FinishedLoads(cfg: Config, c: Ctrl, kind: Kind, i: nat)
    requires Wf(cfg, c) && i < |Queue(c, kind)| && Loads(c) && !Queue(c, kind)[i].first
    ensures Loads(Finished(cfg, c, kind, i))
  {
    hide Mirrors, Channel, TreeOk, View, AddrOk;
    QueueReqs(cfg, c, kind);
    var q := Queue(c, kind);
    var c' := Finished(cfg, c, kind, i);
    var rest := q[..i] + q[i + 1..];
    var out := q[i].(depart := c.clk + ReadLatency(cfg));
    assert kind == READ ==> c' == c.(readq := rest, pending := c.pending + [out]);
    assert kind == WRITE ==> c' == ServeCall(cfg, c, q[i], -1).(writeq := rest, log := c'.log);
    assert kind == WRITE ==> c'.log.calls == ServeCall(cfg, c, q[i], -1).log.calls;
    assert kind == WRITE ==> c'.readq == c.readq && c'.pending == c.pending;
    assert kind == REFRESH ==> c' == c.(otherq := rest);
    AddrLen(cfg, q[i]);
    hide Wf, Finished, ServeCall;
    forall p ensures Folded(Seen(c'.log.calls, p)).cur == TotalLoad(c', p) {
      LoadRemove(q, i, p);
      if kind == WRITE { ServeCallLoad(cfg, c, q[i], -1, p); }
      LoadConcat(c.pending, [out], p);
      LoadOne(out, p);
    }
  }

  /** No count was ever negative. */
  ghost predicate Floored(c: Ctrl) {
    forall p, i :: 0 <= i <= |Seen(c.log.calls, p)| ==> Folded(Seen(c.log.calls, p)[..i]).cur >= 0
  }

  lemma FlooredStep(c: Ctrl, d: Ctrl, e: Call)
    requires Floored(c) && Loads(d) && (d.log.calls == c.log.calls || d.log.calls == c.log.calls + [e])
    ensures Floored(d)
  {
    forall p, i | 0 <= i <= |Seen(d.log.calls, p)| ensures Folded(Seen(d.log.calls, p)[..i]).cur >= 0 {
      var seen := Seen(d.log.calls, p);
      SeenStep(c.log.calls, e, p);
      if i == |seen| {
        assert seen[..i] == seen;
        assert Folded(seen).cur == TotalLoad(d, p);
      } else {
        assert seen[..i] == Seen(c.log.calls, p)[..i];
      }
    }
  }

  /** A bank-level or rank-level count is shared out among the children. */
  lemma {:induction false} LoadOfChildren(q: seq<Request>, p: seq<int>, n: nat)
    requires forall i :: 0 <= i < |q| ==>
        |q[i].addrVec| > |p| + 1 && (p <= q[i].addrVec[1..] ==> 0 <= q[i].addrVec[|p| + 1] < n)
    ensures Load(q, p) == ChildLoads(q, p, n)
    decreases q
  {
    if q == [] { NoChildLoads(p, n); }
    else {
      var r := q[|q| - 1];
      LoadOfChildren(q[..|q| - 1], p, n);
      ChildLoadsStep(q[..|q| - 1], r, p, n);
      assert q == q[..|q| - 1] + [r];
    }
  }

  function ChildLoads(q: seq<Request>, p: seq<int>, n: nat): nat {
    if n == 0 then 0 else ChildLoads(q, p, n - 1) + Load(q, p + [n - 1])
  }

  lemma {:induction false} NoChildLoads(p: seq<int>, n: nat)
    ensures ChildLoads([], p, n) == 0
  {
    if n > 0 { NoChildLoads(p, n - 1); }
  }

  lemma {:induction false} ChildLoadsStep(q: seq<Request>, r: Request, p: seq<int>, n: nat)
    requires |r.addrVec| > |p| + 1
    ensures ChildLoads(q + [r], p, n) == ChildLoads(q, p, n)
      + if Busy(r, p) && 0 <= r.addrVec[|p| + 1] < n then 1 else 0
  {
    if n > 0 {
      ChildLoadsStep(q, r, p, n - 1);
      LoadConcat(q, [r], p + [n - 1]);
      LoadOne(r, p + [n - 1]);
      var rest := r.addrVec[1..];
      assert (p + [n - 1] <= rest) <==> (p <= rest && rest[|p|] == n - 1) by {
        if p + [n - 1] <= rest { assert (p + [n - 1])[..|p|] == p; assert rest[|p|] == (p + [n - 1])[|p|]; }
      }
    }
  }

  // ----------------------------------------------------------- conservation

  /** A request without the fields the controller uses for scheduling. */
  function Ident(r: Request): Request { r.(first := true, depart := 0) }

  function Idents(q: seq<Request>): seq<Request> { seq(|q|, i requires 0 <= i < |q| => Ident(q[i])) }

  function DoneReqs(ds: seq<Done>): seq<Request> { seq(|ds|, i requires 0 <= i < |ds| => ds[i].req) }

  /** Accepted reads are queued, pending or answered, accepted writes queued or
      completed, each exactly once. */
  ghost predicate Conserved(c: Ctrl) {
    && multiset(Idents(c.log.readsIn))
       == multiset(Idents(c.readq)) + multiset(Idents(c.pending)) + multiset(Idents(DoneReqs(c.log.called)))
    && multiset(Idents(c.log.writesIn)) == multiset(Idents(c.writeq)) + multiset(Idents(DoneReqs(c.log.finished)))
  }

  lemma IdentsAppend(q: seq<Request>, r: Request)
    ensures Idents(q + [r]) == Idents(q) + [Ident(r)]
    ensures multiset(Idents(q + [r])) == multiset(Idents(q)) + multiset{Ident(r)}
  {}

  lemma IdentsRemove(q: seq<Request>, i: nat)
    requires i < |q|
    ensures multiset(Idents(q)) == multiset(Idents(q[..i] + q[i + 1..])) + multiset{Ident(q[i])}
  {
    assert Idents(q) == Idents(q[..i]) + ([Ident(q[i])] + Idents(q[i + 1..]));
    assert Idents(q[..i] + q[i + 1..]) == Idents(q[..i]) + Idents(q[i + 1..]);
  }

  lemma DoneAppend(ds: seq<Done>, d: Done)
    ensures multiset(Idents(DoneReqs(ds + [d]))) == multiset(Idents(DoneReqs(ds))) + multiset{Ident(d.req)}
  {
    assert DoneReqs(ds + [d]) == DoneReqs(ds) + [d.req];
    IdentsAppend(DoneReqs(ds), d.req);
  }

  lemma EnqueuedConserved(c: Ctrl, req: Request)
    requires Conserved(c)
    ensures Conserved(Enqueued(c, req))
  {
    var r := Accepted(c, req);
    hide Idents, DoneReqs;
    if Forwards(c, req) {
      IdentsAppend(c.log.readsIn, r);
      IdentsAppend(c.pending, r.(depart := c.clk + 1));
    } else if req.kind == READ {
      IdentsAppend(c.log.readsIn, r);
      IdentsAppend(c.readq, r);
    } else if req.kind == WRITE {
      IdentsAppend(c.log.writesIn, r);
      IdentsAppend(c.writeq, r);
    }
  }

  lemma ServedConserved(cfg: Config, c: Ctrl)
    requires Wf(cfg, c) && Conserved(c)
    ensures Conserved(Served(cfg, c))
  {
    hide *;
    ServedIs(cfg, c);
    if Answers(c) { AnsweredConserved(c, Served(cfg, c)); }
  }

  lemma AnsweredConserved(c: Ctrl, d: Ctrl)
    requires Answered(c, d) && Conserved(c)
    ensures Conserved(d)
  {
    hide Idents, DoneReqs;
    IdentsRemove(c.pending, 0);
    assert c.pending[..0] + c.pending[1..] == c.pending[1..];
    DoneAppend(c.log.called, Done(c.pending[0], c.clk));
  }

  lemma StartedConserved(cfg: Config, c: Ctrl, kind: Kind, i: nat)
    requires Wf(cfg, c) && i < |Queue(c, kind)| && Conserved(c)
    ensures Conserved(Started(cfg, c, kind, i))
  {
    hide Mirrors, Channel, TreeOk, View, AddrOk;
    var q := Queue(c, kind);
    assert Idents(q[i := q[i].(first := false)]) == Idents(q);
  }

  lemma FinishedConserved(cfg: Config, c: Ctrl, kind: Kind, i: nat)
    requires Wf(cfg, c) && i < |Queue(c, kind)| && Conserved(c)
    ensures Conserved(Finished(cfg, c, kind, i))
  {
    hide Mirrors, Channel, TreeOk, View, AddrOk, Idents, DoneReqs;
    QueueReqs(cfg, c, kind);
    var q := Queue(c, kind);
    var f := Finished(cfg, c, kind, i);
    var rest := q[..i] + q[i + 1..];
    var out := q[i].(depart := c.clk + ReadLatency(cfg));
    assert kind == READ ==> f == c.(readq := rest, pending := c.pending + [out]);
    assert kind == WRITE ==> f.writeq == rest && f.log.finished == c.log.finished + [Done(q[i], c.clk)];
    assert kind == WRITE ==> f.readq == c.readq && f.pending == c.pending && f.log.called == c.log.called;
    assert kind == REFRESH ==> f == c.(otherq := rest);
    hide Wf, Finished;
    IdentsRemove(q, i);
    IdentsAppend(c.pending, out);
    DoneAppend(c.log.finished, Done(q[i], c.clk));
  }

  // ------------------------------------------------------------------ order

  function Count(c: Ctrl): nat { |c.log.readsIn| + |c.log.writesIn| }

  /** Tokens number the accepted requests, and a queued read was accepted before any
      queued write to its address. */
  ghost predicate Ordered(c: Ctrl) {
    && (forall i, j :: 0 <= i < j < |c.log.readsIn| ==> c.log.readsIn[i].token < c.log.readsIn[j].token)
    && (forall i, j :: 0 <= i < j < |c.log.writesIn| ==> c.log.writesIn[i].token < c.log.writesIn[j].token)
    && (forall i :: 0 <= i < |c.log.readsIn| ==> c.log.readsIn[i].token < Count(c))
    && (forall i :: 0 <= i < |c.log.writesIn| ==> c.log.writesIn[i].token < Count(c))
    && (forall i :: 0 <= i < |c.readq| ==> c.readq[i].token < Count(c))
    && (forall i, j :: 0 <= i < |c.readq| && 0 <= j < |c.writeq| && c.readq[i].addr == c.writeq[j].addr ==>
          c.readq[i].token < c.writeq[j].token)
  }

  lemma EnqueuedOrdered(c: Ctrl, req: Request)
    requires Ordered(c)
    ensures Ordered(Enqueued(c, req))
  {
    hide *;
    match req.kind {
      case READ => ReadOrdered(c, req);
      case WRITE => WriteOrdered(c, req);
      case REFRESH => RefreshOrdered(c, req);
    }
  }

  /** A read that finds a write to its address is not queued. */
  lemma ReadOrdered(c: Ctrl, req: Request)
    requires Ordered(c) && req.kind == READ
    ensures Ordered(Enqueued(c, req))
  {}

  lemma WriteOrdered(c: Ctrl, req: Request)
    requires Ordered(c) && req.kind == WRITE
    ensures Ordered(Enqueued(c, req))
  {}

  lemma RefreshOrdered(c: Ctrl, req: Request)
    requires Ordered(c) && req.kind == REFRESH
    ensures Ordered(Enqueued(c, req))
  {}

  lemma ServedOrdered(cfg: Config, c: Ctrl)
    requires Wf(cfg, c) && Ordered(c)
    ensures Ordered(Served(cfg, c))
  {
    hide *;
    ServedIs(cfg, c);
    if Answers(c) { AnsweredOrdered(c, Served(cfg, c)); }
  }

  lemma AnsweredOrdered(c: Ctrl, d: Ctrl)
    requires Answered(c, d) && Ordered(c)
    ensures Ordered(d)
  {}

  lemma StartedOrdered(cfg: Config, c: Ctrl, kind: Kind, i: nat)
    requires Wf(cfg, c) && i < |Queue(c, kind)| && Ordered(c)
    ensures Ordered(Started(cfg, c, kind, i))
  {
    hide Mirrors, Channel, TreeOk, View, AddrOk;
  }

  lemma FinishedOrdered(cfg: Config, c: Ctrl, kind: Kind, i: nat)
    requires Wf(cfg, c) && i < |Queue(c, kind)| && Ordered(c)
    ensures Ordered(Finished(cfg, c, kind, i))
  {
    hide Mirrors, Channel, TreeOk, View, AddrOk;
  }

  // ---------------------------------------------------------------- sources

  /** A read that was not forwarded from the write queue got its data from a RD to
      its address, one read latency before its departure. */
  predicate Fed(cfg: Config, c: Ctrl, r: Request) {
    !r.first ==> Issued(RD, r.addrVec, r.depart - ReadLatency(cfg)) in c.log.issued
  }

  ghost predicate Sourced(cfg: Config, c: Ctrl) {
    && (forall i :: 0 <= i < |c.pending| ==> Fed(cfg, c, c.pending[i]))
    && (forall d :: d in c.log.called ==>
          Fed(cfg, c, d.req) && d.req.depart <= d.at && (d.req.first ==> d.req.depart == d.req.arrive + 1))
    && (forall d :: d in c.log.finished ==> Issued(WR, d.req.addrVec, d.at) in c.log.issued)
  }

  lemma EnqueuedSourced(cfg: Config, c: Ctrl, req: Request)
    requires Sourced(cfg, c)
    ensures Sourced(cfg, Enqueued(c, req))
  {}

  lemma ServedSourced(cfg: Config, c: Ctrl)
    requires Wf(cfg, c) && Sourced(cfg, c)
    ensures Sourced(cfg, Served(cfg, c))
  {
    hide *;
    ServedIs(cfg, c);
    if Answers(c) { AnsweredSourced(cfg, c, Served(cfg, c)); }
  }

  lemma AnsweredSourced(cfg: Config, c: Ctrl, d: Ctrl)
    requires Answered(c, d) && Sourced(cfg, c)
    ensures Sourced(cfg, d)
  {}

  lemma StartedSourced(cfg: Config, c: Ctrl, kind: Kind, i: nat)
    requires Wf(cfg, c) && i < |Queue(c, kind)| && Sourced(cfg, c)
    ensures Sourced(cfg, Started(cfg, c, kind, i))
  {
    hide Mirrors, Channel, TreeOk, View, AddrOk;
  }

  lemma IssuedForSourced(cfg: Config, c: Ctrl, kind: Kind, i: nat)
    requires Wf(cfg, c) && i < |Queue(c, kind)| && Sourced(cfg, c)
    ensures Sourced(cfg, IssuedFor(cfg, c, kind, i))
  {
    hide Mirrors, Channel, TreeOk, View, AddrOk, NextTree, NextRows;
  }

  lemma FinishedSourced(cfg: Config, c: Ctrl, kind: Kind, i: nat)
    requires Wf(cfg, c) && i < |Queue(c, kind)| && Sourced(cfg, c) && kind == Queue(c, kind)[i].kind
    requires kind != REFRESH ==> Issued(Translate(kind), Queue(c, kind)[i].addrVec, c.clk) in c.log.issued
    ensures Sourced(cfg, Finished(cfg, c, kind, i))
  {
    hide Mirrors, Channel, TreeOk, View, AddrOk;
  }
}
