/** Timing safety of the DRAM tree over whole runs, for any timing table and any
    tree: a command passes `check` exactly when every timing entry is respected
    towards everything issued before it. */
module Timing {
  import opened DramTree

  /** A command issued at a clock. A run is a sequence of them, oldest first. */
  datatype Issued<C> = Issued(cmd: C, addr: seq<int>, clk: int)

  /** How a command at `addr` meets the node with child indices `p` below a node
      with this id and level. */
  datatype Role = Target | Sibling | Off

  function RoleOf(id: int, level: int, p: seq<int>, addr: seq<int>): Role
    requires 0 <= level && level + |p| < |addr|
    decreases p
  {
    if id != addr[level] then (if p == [] then Sibling else Off)
    else if p == [] then Target
    else RoleOf(p[0], level + 1, p[1..], addr)
  }

  ghost predicate At<C, S>(t: Node<C, S>, p: seq<int>) {
    p == [] || (0 <= p[0] < |t.children| && At(t.children[p[0]], p[1..]))
  }

  function Sub<C, S>(t: Node<C, S>, p: seq<int>): Node<C, S>
    requires At(t, p)
  {
    if p == [] then t else Sub(t.children[p[0]], p[1..])
  }

  /** The node p is one of those `check` looks at for command c. */
  ghost predicate OnWalk<C, S>(spec: Spec<C, S>, t: Node<C, S>, c: C, addr: seq<int>, p: seq<int>, rowLevel: int)
    requires Shape(t, rowLevel) && rowLevel < |addr|
    decreases p
  {
    p == [] || (!Stops(spec, t, c, addr) && p[0] == addr[t.level + 1] < |t.children|
                && OnWalk(spec, t.children[p[0]], c, addr, p[1..], rowLevel))
  }

  lemma {:induction false} WalkIsAt<C, S>(spec: Spec<C, S>, t: Node<C, S>, c: C, addr: seq<int>, p: seq<int>,
        rowLevel: int)
    requires Shape(t, rowLevel) && rowLevel < |addr| && OnWalk(spec, t, c, addr, p, rowLevel)
    ensures At(t, p)
    decreases p
  {
    if p != [] { WalkIsAt(spec, t.children[p[0]], c, addr, p[1..], rowLevel); }
  }

  lemma {:induction false} SubShape<C, S>(t: Node<C, S>, p: seq<int>, rowLevel: int)
    requires Shape(t, rowLevel) && At(t, p)
    ensures Shape(Sub(t, p), rowLevel) && Sub(t, p).level == t.level + |p|
    ensures p != [] ==> Sub(t, p).id == p[|p| - 1]
    decreases p
  {
    if p != [] { SubShape(t.children[p[0]], p[1..], rowLevel); }
  }

  /** check holds exactly when no node on the walk is ahead of the clock. */
  lemma {:induction false} CheckMeansAllOnWalk<C, S>(spec: Spec<C, S>, t: Node<C, S>, c: C, addr: seq<int>, clk: int,
        rowLevel: int)
    requires Shape(t, rowLevel) && rowLevel < |addr| && InRange(t, addr, rowLevel) && clk >= 0
    ensures Check(spec, t, c, addr, clk, rowLevel) <==>
      forall p :: OnWalk(spec, t, c, addr, p, rowLevel) && At(t, p) ==> Next(Sub(t, p), c) <= clk
    decreases t
  {
    assert OnWalk(spec, t, c, addr, [], rowLevel) && At(t, []) && Sub(t, []) == t;
    if !Stops(spec, t, c, addr) {
      var k := addr[t.level + 1];
      var u := t.children[k];
      CheckMeansAllOnWalk(spec, u, c, addr, clk, rowLevel);
      forall q | OnWalk(spec, u, c, addr, q, rowLevel) && At(u, q)
        ensures OnWalk(spec, t, c, addr, [k] + q, rowLevel) && At(t, [k] + q) && Sub(t, [k] + q) == Sub(u, q)
      {
        assert ([k] + q)[1..] == q;
      }
      if Check(spec, t, c, addr, clk, rowLevel) {
        forall p | OnWalk(spec, t, c, addr, p, rowLevel) && At(t, p) ensures Next(Sub(t, p), c) <= clk {
          if p != [] { assert Next(Sub(u, p[1..]), c) <= clk; }
        }
      } else if Next(t, c) <= clk {
        var q :| OnWalk(spec, u, c, addr, q, rowLevel) && At(u, q) && Next(Sub(u, q), c) > clk;
        assert Sub(t, [k] + q) == Sub(u, q);
      }
    }
  }

  // ------------------------------------------------ what the history demands

  /** The clocks at which c was issued with this role towards node p, latest first. */
  function Times<C(==)>(run: seq<Issued<C>>, ch: int, p: seq<int>, c: C, role: Role): seq<int> {
    if run == [] then []
    else
      var x := run[|run| - 1];
      (if x.cmd == c && |p| < |x.addr| && RoleOf(ch, 0, p, x.addr) == role then [x.clk] else [])
        + Times(run[..|run| - 1], ch, p, c, role)
  }

  /** Entry e, taken from the table of command a, makes v the earliest clock for
      e.cmd at node p: v lies e.val after an issue of a that has at least e.dist - 1
      younger issues of a, or after any issue of a to a sibling. */
  ghost predicate DemandBy<C>(run: seq<Issued<C>>, ch: int, p: seq<int>, a: C, e: Entry<C>, v: int) {
    exists k :: DemandAt(Times(run, ch, p, a, RoleIn(e)), e, v, k)
  }

  ghost predicate DemandAt<C>(times: seq<int>, e: Entry<C>, v: int, k: int) {
    0 <= k < |times| && (e.sibling || e.dist - 1 <= k) && v == times[k] + e.val
  }

  function RoleIn<C>(e: Entry<C>): Role { if e.sibling then Sibling else Target }

  ghost predicate Demand<C(!new), S(!new)>(spec: Spec<C, S>, run: seq<Issued<C>>, ch: int, p: seq<int>, b: C, v: int) {
    exists a, i :: 0 <= i < |spec.timing(|p|, a)| && spec.timing(|p|, a)[i].cmd == b
                   && DemandBy(run, ch, p, a, spec.timing(|p|, a)[i], v)
  }

  /** Every timing entry, at every node `check` looks at, is respected by c at clk. */
  ghost predicate Allowed<C(!new), S(!new)>(spec: Spec<C, S>, t: Node<C, S>, run: seq<Issued<C>>, c: C, addr: seq<int>,
                                               clk: int, rowLevel: int)
    requires Shape(t, rowLevel) && rowLevel < |addr|
  {
    forall p, v :: OnWalk(spec, t, c, addr, p, rowLevel) && Demand(spec, run, t.id, p, c, v) ==> v <= clk
  }

  // -------------------------------------- the tree holds exactly the demands

  ghost predicate HistoryHolds<C(!new), S(!new)>(spec: Spec<C, S>, n: Node<C, S>, run: seq<Issued<C>>, ch: int,
        p: seq<int>)
  {
    forall a :: HistoryOf(spec, n, run, ch, p, a)
  }

  ghost predicate HistoryOf<C(!new), S(!new)>(spec: Spec<C, S>, n: Node<C, S>, run: seq<Issued<C>>, ch: int,
        p: seq<int>, a: C)
  {
    var h := History(spec, n, a);
    var times := Times(run, ch, p, a, Target);
    |h| == MaxDist(spec.timing(n.level, a))
    && forall k :: 0 <= k < |h| ==> h[k] == if k < |times| then times[k] else -1
  }

  ghost predicate NextHolds<C(!new), S(!new)>(spec: Spec<C, S>, n: Node<C, S>, run: seq<Issued<C>>, ch: int,
        p: seq<int>)
  {
    forall b :: NextOf(spec, n, run, ch, p, b)
  }

  ghost predicate NextOf<C(!new), S(!new)>(spec: Spec<C, S>, n: Node<C, S>, run: seq<Issued<C>>, ch: int, p: seq<int>,
        b: C)
  {
    && Next(n, b) >= -1
    && (forall v :: Demand(spec, run, ch, p, b, v) ==> v <= Next(n, b))
    && (Next(n, b) == -1 || Demand(spec, run, ch, p, b, Next(n, b)))
  }

  /** The timing data of every node is the one its history calls for. */
  ghost predicate Explains<C(!new), S(!new)>(spec: Spec<C, S>, t: Node<C, S>, run: seq<Issued<C>>) {
    forall p :: At(t, p) ==> HistoryHolds(spec, Sub(t, p), run, t.id, p) && NextHolds(spec, Sub(t, p), run, t.id, p)
  }

  // --------------------------------------------------- one node, one command

  /** The loop over table entries raises next to every applicable future, and to
      nothing else. */
  lemma {:induction false} RaiseTargetExact<C>(next: map<C, int>, es: seq<Entry<C>>, past: seq<int>, b: C)
    requires forall i :: 0 <= i < |es| ==> 1 <= es[i].dist <= |past|
    ensures var r := Look(RaiseTarget(next, es, past), b);
      && r >= Look(next, b)
      && (forall i :: 0 <= i < |es| && es[i].cmd == b && !es[i].sibling && past[es[i].dist - 1] >= 0
            ==> past[es[i].dist - 1] + es[i].val <= r)
      && (r == Look(next, b)
          || (exists i :: (0 <= i < |es| && es[i].cmd == b && !es[i].sibling
                           && past[es[i].dist - 1] >= 0 && r == past[es[i].dist - 1] + es[i].val)))
    decreases es
  {
    if es != [] {
      var e := es[0];
      var t := past[e.dist - 1];
      var next' := if e.sibling || t < 0 then next else Raise(next, e.cmd, t + e.val);
      RaiseTargetExact(next', es[1..], past, b);
      forall i | 0 < i < |es| ensures es[i] == es[1..][i - 1] {}
      var r := Look(RaiseTarget(next, es, past), b);
      if r != Look(next', b) {
        var i :| 0 <= i < |es[1..]| && es[1..][i].cmd == b && !es[1..][i].sibling
            && past[es[1..][i].dist - 1] >= 0 && r == past[es[1..][i].dist - 1] + es[1..][i].val;
        assert es[i + 1] == es[1..][i];
      }
    }
  }

  lemma {:induction false} RaiseSiblingExact<C>(next: map<C, int>, es: seq<Entry<C>>, clk: int, b: C)
    ensures var r := Look(RaiseSibling(next, es, clk), b);
      && r >= Look(next, b)
      && (forall i :: 0 <= i < |es| && es[i].cmd == b && es[i].sibling ==> clk + es[i].val <= r)
      && (r == Look(next, b)
          || (exists i :: 0 <= i < |es| && es[i].cmd == b && es[i].sibling && r == clk + es[i].val))
    decreases es
  {
    if es != [] {
      var next' := if es[0].sibling then Raise(next, es[0].cmd, clk + es[0].val) else next;
      RaiseSiblingExact(next', es[1..], clk, b);
      forall i | 0 < i < |es| ensures es[i] == es[1..][i - 1] {}
      var r := Look(RaiseSibling(next, es, clk), b);
      if r != Look(next', b) {
        var i :| 0 <= i < |es[1..]| && es[1..][i].cmd == b && es[1..][i].sibling && r == clk + es[1..][i].val;
        assert es[i + 1] == es[1..][i];
      }
    }
  }

  /** How one more command changes the recorded times. */
  lemma TimesStep<C>(run: seq<Issued<C>>, x: Issued<C>, ch: int, p: seq<int>, a: C, role: Role)
    requires |p| < |x.addr|
    ensures Times(run + [x], ch, p, a, role)
         == (if x.cmd == a && RoleOf(ch, 0, p, x.addr) == role then [x.clk] else []) + Times(run, ch, p, a, role)
  {
    assert (run + [x])[..|run|] == run;
  }

  lemma {:induction false} TimesNonNegative<C>(run: seq<Issued<C>>, ch: int, p: seq<int>, a: C, role: Role)
    requires forall i :: 0 <= i < |run| ==> run[i].clk >= 0
    ensures forall k :: 0 <= k < |Times(run, ch, p, a, role)| ==> Times(run, ch, p, a, role)[k] >= 0
    decreases run
  {
    if run != [] { TimesNonNegative(run[..|run| - 1], ch, p, a, role); }
  }

  lemma DemandGrows<C(!new), S(!new)>(spec: Spec<C, S>, run: seq<Issued<C>>, x: Issued<C>, ch: int, p: seq<int>, b: C,
        v: int)
    requires |p| < |x.addr| && Demand(spec, run, ch, p, b, v)
    ensures Demand(spec, run + [x], ch, p, b, v)
  {
    var a, i :| 0 <= i < |spec.timing(|p|, a)| && spec.timing(|p|, a)[i].cmd == b
                && DemandBy(run, ch, p, a, spec.timing(|p|, a)[i], v);
    var e := spec.timing(|p|, a)[i];
    var role := RoleIn(e);
    TimesStep(run, x, ch, p, a, role);
    var old', new' := Times(run, ch, p, a, role), Times(run + [x], ch, p, a, role);
    var k :| DemandAt(old', e, v, k);
    assert DemandAt(new', e, v, k + |new'| - |old'|);
    assert DemandBy(run + [x], ch, p, a, e, v);
  }

  /** A demand that x adds: from its own entry i towards b. */
  ghost predicate Fresh<C(!new), S(!new)>(spec: Spec<C, S>, run: seq<Issued<C>>, x: Issued<C>, ch: int, p: seq<int>,
                                          b: C, v: int, i: int)
    requires |p| < |x.addr|
  {
    && 0 <= i < |spec.timing(|p|, x.cmd)|
    && var e := spec.timing(|p|, x.cmd)[i];
    && e.cmd == b
    && if e.sibling then RoleOf(ch, 0, p, x.addr) == Sibling && v == x.clk + e.val
       else
         var times := Times(run + [x], ch, p, x.cmd, Target);
         RoleOf(ch, 0, p, x.addr) == Target && 0 <= e.dist - 1 < |times| && v == times[e.dist - 1] + e.val
  }

  lemma FreshIsDemand<C(!new), S(!new)>(spec: Spec<C, S>, run: seq<Issued<C>>, x: Issued<C>, ch: int, p: seq<int>,
                                        b: C, v: int, i: int)
    requires |p| < |x.addr| && Fresh(spec, run, x, ch, p, b, v, i)
    ensures Demand(spec, run + [x], ch, p, b, v)
  {
    TimesStep(run, x, ch, p, x.cmd, Sibling);
    var e := spec.timing(|p|, x.cmd)[i];
    var times := Times(run + [x], ch, p, x.cmd, RoleIn(e));
    var k := if e.sibling then 0 else e.dist - 1;
    assert DemandAt(times, e, v, k);
    assert DemandBy(run + [x], ch, p, x.cmd, e, v);
  }

  lemma DemandSplits<C(!new), S(!new)>(spec: Spec<C, S>, run: seq<Issued<C>>, x: Issued<C>, ch: int, p: seq<int>, b: C,
        v: int)
    requires TableOk(spec) && |p| < |x.addr| && Demand(spec, run + [x], ch, p, b, v)
    ensures Demand(spec, run, ch, p, b, v) || exists i :: Fresh(spec, run, x, ch, p, b, v, i)
  {
    var a, i :| 0 <= i < |spec.timing(|p|, a)| && spec.timing(|p|, a)[i].cmd == b
                && DemandBy(run + [x], ch, p, a, spec.timing(|p|, a)[i], v);
    var e := spec.timing(|p|, a)[i];
    var role := RoleIn(e);
    TimesStep(run, x, ch, p, a, role);
    var old', new' := Times(run, ch, p, a, role), Times(run + [x], ch, p, a, role);
    var k :| DemandAt(new', e, v, k);
    if |new'| == |old'| {
      assert new' == old';
      assert DemandBy(run, ch, p, a, e, v);
    } else if k == if e.sibling then 0 else e.dist - 1 {
      assert Fresh(spec, run, x, ch, p, b, v, i);
    } else {
      assert DemandAt(old', e, v, k - 1);
      assert DemandBy(run, ch, p, a, e, v);
    }
  }

  /** The node's own part of update_timing. */
  function NodeStep<C(!new), S(!new)>(spec: Spec<C, S>, n: Node<C, S>, c: C, clk: int, role: Role): Node<C, S>
    requires TableOk(spec) && PrevOk(spec, n)
  {
    match role
    case Target => TargetUpdate(spec, n, c, clk)
    case Sibling => SiblingUpdate(spec, n, c, clk)
    case Off => n
  }

  lemma HistoryStep<C(!new), S(!new)>(spec: Spec<C, S>, n: Node<C, S>, run: seq<Issued<C>>, x: Issued<C>, ch: int,
        p: seq<int>)
    requires TableOk(spec) && PrevOk(spec, n) && |p| < |x.addr|
    requires HistoryHolds(spec, n, run, ch, p)
    ensures HistoryHolds(spec, NodeStep(spec, n, x.cmd, x.clk, RoleOf(ch, 0, p, x.addr)), run + [x], ch, p)
  {
    var n' := NodeStep(spec, n, x.cmd, x.clk, RoleOf(ch, 0, p, x.addr));
    forall a ensures HistoryOf(spec, n', run + [x], ch, p, a) {
      assert HistoryOf(spec, n, run, ch, p, a);
      TimesStep(run, x, ch, p, a, Target);
    }
  }

  /** If the table loop raised next to every fresh demand and to nothing else,
      next is again exactly what the history demands. */
  lemma NextFromFresh<C(!new), S(!new)>(spec: Spec<C, S>, n: Node<C, S>, n': Node<C, S>, run: seq<Issued<C>>,
        x: Issued<C>, ch: int, p: seq<int>, b: C)
    requires TableOk(spec) && |p| < |x.addr|
    requires NextOf(spec, n, run, ch, p, b) && Next(n, b) <= Next(n', b)
    requires forall v, i :: Fresh(spec, run, x, ch, p, b, v, i) ==> v <= Next(n', b)
    requires Next(n', b) == Next(n, b) || exists i :: Fresh(spec, run, x, ch, p, b, Next(n', b), i)
    ensures NextOf(spec, n', run + [x], ch, p, b)
  {
    var r := Next(n', b);
    forall v | Demand(spec, run + [x], ch, p, b, v) ensures v <= r {
      DemandSplits(spec, run, x, ch, p, b, v);
    }
    if r == Next(n, b) {
      if r != -1 { DemandGrows(spec, run, x, ch, p, b, r); }
    } else {
      var i :| Fresh(spec, run, x, ch, p, b, r, i);
      FreshIsDemand(spec, run, x, ch, p, b, r, i);
    }
  }

  /** What x newly demands at a node it targets, read off the stored history. */
  lemma FreshTarget<C(!new), S(!new)>(spec: Spec<C, S>, n: Node<C, S>, run: seq<Issued<C>>, x: Issued<C>, ch: int,
        p: seq<int>, b: C, v: int, i: int)
    requires TableOk(spec) && |p| < |x.addr| && n.level == |p| && RoleOf(ch, 0, p, x.addr) == Target
    requires forall j :: 0 <= j < |run + [x]| ==> (run + [x])[j].clk >= 0
    requires HistoryOf(spec, n, run + [x], ch, p, x.cmd) && 0 <= i < |spec.timing(|p|, x.cmd)|
    ensures var e := spec.timing(|p|, x.cmd)[i];
      && 1 <= e.dist <= |History(spec, n, x.cmd)|
      && (Fresh(spec, run, x, ch, p, b, v, i) <==>
            e.cmd == b && !e.sibling && History(spec, n, x.cmd)[e.dist - 1] >= 0
            && v == History(spec, n, x.cmd)[e.dist - 1] + e.val)
  {
    TimesNonNegative(run + [x], ch, p, x.cmd, Target);
  }

  lemma NextStepTarget<C(!new), S(!new)>(spec: Spec<C, S>, n: Node<C, S>, run: seq<Issued<C>>, x: Issued<C>, ch: int,
        p: seq<int>, b: C)
    requires TableOk(spec) && PrevOk(spec, n) && |p| < |x.addr| && n.level == |p|
    requires forall i :: 0 <= i < |run + [x]| ==> (run + [x])[i].clk >= 0
    requires HistoryHolds(spec, n, run, ch, p) && NextOf(spec, n, run, ch, p, b)
    requires RoleOf(ch, 0, p, x.addr) == Target
    ensures NextOf(spec, TargetUpdate(spec, n, x.cmd, x.clk), run + [x], ch, p, b)
  {
    hide *;
    var n' := TargetUpdate(spec, n, x.cmd, x.clk);
    var es := spec.timing(|p|, x.cmd);
    var h := History(spec, n', x.cmd);
    TargetStep(spec, n, run, x, ch, p);
    RaiseTargetExact(n.next, es, h, b);
    NextIs(n, b);
    NextIs(n', b);
    forall v, i | Fresh(spec, run, x, ch, p, b, v, i) ensures v <= Next(n', b) {
      FreshInside(spec, run, x, ch, p, b, v, i);
      FreshTarget(spec, n', run, x, ch, p, b, v, i);
    }
    if Next(n', b) != Next(n, b) {
      var i :| 0 <= i < |es| && es[i].cmd == b && !es[i].sibling
               && h[es[i].dist - 1] >= 0 && Next(n', b) == h[es[i].dist - 1] + es[i].val;
      FreshTarget(spec, n', run, x, ch, p, b, Next(n', b), i);
    }
    NextFromFresh(spec, n, n', run, x, ch, p, b);
  }

  lemma FreshInside<C(!new), S(!new)>(spec: Spec<C, S>, run: seq<Issued<C>>, x: Issued<C>, ch: int, p: seq<int>,
        b: C, v: int, i: int)
    requires |p| < |x.addr| && Fresh(spec, run, x, ch, p, b, v, i)
    ensures 0 <= i < |spec.timing(|p|, x.cmd)|
  {}

  lemma NextIs<C, S>(n: Node<C, S>, b: C)
    ensures Next(n, b) == Look(n.next, b)
  {}

  /** The target's own update: the history is pushed, and next raised from it. */
  lemma TargetStep<C(!new), S(!new)>(spec: Spec<C, S>, n: Node<C, S>, run: seq<Issued<C>>, x: Issued<C>, ch: int,
        p: seq<int>)
    requires TableOk(spec) && PrevOk(spec, n) && |p| < |x.addr| && n.level == |p|
    requires HistoryHolds(spec, n, run, ch, p) && RoleOf(ch, 0, p, x.addr) == Target
    ensures var n' := TargetUpdate(spec, n, x.cmd, x.clk); var es := spec.timing(|p|, x.cmd);
      && HistoryOf(spec, n', run + [x], ch, p, x.cmd) && n'.level == |p|
      && (forall i :: 0 <= i < |es| ==> 1 <= es[i].dist <= |History(spec, n', x.cmd)|)
      && n'.next == RaiseTarget(n.next, es, History(spec, n', x.cmd))
  {
    HistoryStep(spec, n, run, x, ch, p);
    hide RaiseTarget, RoleOf;
    assert HistoryOf(spec, TargetUpdate(spec, n, x.cmd, x.clk), run + [x], ch, p, x.cmd);
  }

  lemma NextStepSibling<C(!new), S(!new)>(spec: Spec<C, S>, n: Node<C, S>, run: seq<Issued<C>>, x: Issued<C>,
        ch: int, p: seq<int>, b: C)
    requires TableOk(spec) && |p| < |x.addr| && n.level == |p|
    requires NextOf(spec, n, run, ch, p, b)
    requires RoleOf(ch, 0, p, x.addr) == Sibling
    ensures NextOf(spec, SiblingUpdate(spec, n, x.cmd, x.clk), run + [x], ch, p, b)
  {
    var n' := SiblingUpdate(spec, n, x.cmd, x.clk);
    var es := spec.timing(|p|, x.cmd);
    RaiseSiblingExact(n.next, es, x.clk, b);
    if Next(n', b) != Next(n, b) {
      var i :| 0 <= i < |es| && es[i].cmd == b && es[i].sibling && Next(n', b) == x.clk + es[i].val;
      assert Fresh(spec, run, x, ch, p, b, Next(n', b), i);
    }
    NextFromFresh(spec, n, n', run, x, ch, p, b);
  }

  lemma NextStep<C(!new), S(!new)>(spec: Spec<C, S>, n: Node<C, S>, run: seq<Issued<C>>, x: Issued<C>, ch: int,
        p: seq<int>)
    requires TableOk(spec) && PrevOk(spec, n) && |p| < |x.addr| && n.level == |p|
    requires forall i :: 0 <= i < |run + [x]| ==> (run + [x])[i].clk >= 0
    requires HistoryHolds(spec, n, run, ch, p) && NextHolds(spec, n, run, ch, p)
    ensures NextHolds(spec, NodeStep(spec, n, x.cmd, x.clk, RoleOf(ch, 0, p, x.addr)), run + [x], ch, p)
  {
    forall b ensures NextOf(spec, NodeStep(spec, n, x.cmd, x.clk, RoleOf(ch, 0, p, x.addr)), run + [x], ch, p, b) {
      assert NextOf(spec, n, run, ch, p, b);
      match RoleOf(ch, 0, p, x.addr)
      case Target => NextStepTarget(spec, n, run, x, ch, p, b);
      case Sibling => NextStepSibling(spec, n, run, x, ch, p, b);
      case Off => NextFromFresh(spec, n, n, run, x, ch, p, b);
    }
  }

  // -------------------------------------------------- the tree, one command

  /** Equal but for the children. */
  ghost predicate SameOwn<C, S>(a: Node<C, S>, b: Node<C, S>) {
    a == b.(children := a.children) && |a.children| == |b.children|
  }

  /** update_timing does to the node at p exactly what its role calls for. */
  lemma {:induction false} SubUpdate<C(!new), S(!new)>(spec: Spec<C, S>, t: Node<C, S>, p: seq<int>, c: C,
        addr: seq<int>, clk: int, rowLevel: int)
    requires TableOk(spec) && TreeOk(spec, t) && Shape(t, rowLevel) && rowLevel < |addr| && At(t, p)
    ensures t.level + |p| < |addr| && At(UpdateTiming(spec, t, c, addr, clk, rowLevel), p) && PrevOk(spec, Sub(t, p))
    ensures SameOwn(Sub(UpdateTiming(spec, t, c, addr, clk, rowLevel), p),
                    NodeStep(spec, Sub(t, p), c, clk, RoleOf(t.id, t.level, p, addr)))
    decreases p
  {
    SubShape(t, p, rowLevel);
    var t' := UpdateTiming(spec, t, c, addr, clk, rowLevel);
    if p == [] {
      assert Sub(t', p) == t' && Sub(t, p) == t;
    } else {
      var k, q := p[0], p[1..];
      SubUpdate(spec, t.children[k], q, c, addr, clk, rowLevel);
      assert Sub(t', p) == Sub(t'.children[k], q) && Sub(t, p) == Sub(t.children[k], q);
      if t.id == addr[t.level] {
        assert t'.children[k] == UpdateTiming(spec, t.children[k], c, addr, clk, rowLevel);
      } else {
        assert t'.children == t.children;
      }
    }
  }

  lemma {:induction false} AtBack<C(!new), S(!new)>(spec: Spec<C, S>, t: Node<C, S>, p: seq<int>, c: C,
        addr: seq<int>, clk: int, rowLevel: int)
    requires TableOk(spec) && TreeOk(spec, t) && Shape(t, rowLevel) && rowLevel < |addr|
    requires At(UpdateTiming(spec, t, c, addr, clk, rowLevel), p)
    ensures At(t, p)
    decreases p
  {
    if p != [] && t.id == addr[t.level] { AtBack(spec, t.children[p[0]], p[1..], c, addr, clk, rowLevel); }
  }

  /** A tree whose timing data is explained by a run is, after update_timing,
      explained by the run with the command appended. */
  lemma UpdateExplains<C(!new), S(!new)>(spec: Spec<C, S>, t: Node<C, S>, run: seq<Issued<C>>, x: Issued<C>,
        rowLevel: int)
    requires TableOk(spec) && TreeOk(spec, t) && Shape(t, rowLevel) && rowLevel < |x.addr| && t.level == 0
    requires forall i :: 0 <= i < |run + [x]| ==> (run + [x])[i].clk >= 0
    requires Explains(spec, t, run)
    ensures Explains(spec, UpdateTiming(spec, t, x.cmd, x.addr, x.clk, rowLevel), run + [x])
  {
    var t' := UpdateTiming(spec, t, x.cmd, x.addr, x.clk, rowLevel);
    forall p | At(t', p)
      ensures HistoryHolds(spec, Sub(t', p), run + [x], t'.id, p) && NextHolds(spec, Sub(t', p), run + [x], t'.id, p)
    {
      AtBack(spec, t, p, x.cmd, x.addr, x.clk, rowLevel);
      SubShape(t, p, rowLevel);
      SubUpdate(spec, t, p, x.cmd, x.addr, x.clk, rowLevel);
      HistoryStep(spec, Sub(t, p), run, x, t.id, p);
      NextStep(spec, Sub(t, p), run, x, t.id, p);
      OwnSuffices(spec, NodeStep(spec, Sub(t, p), x.cmd, x.clk, RoleOf(t.id, 0, p, x.addr)), Sub(t', p), run + [x],
        t.id, p);
    }
  }

  lemma OwnSuffices<C(!new), S(!new)>(spec: Spec<C, S>, a: Node<C, S>, b: Node<C, S>, run: seq<Issued<C>>, ch: int,
        p: seq<int>)
    requires a.level == b.level && a.next == b.next && a.prev == b.prev
    ensures HistoryHolds(spec, a, run, ch, p) ==> HistoryHolds(spec, b, run, ch, p)
    ensures NextHolds(spec, a, run, ch, p) ==> NextHolds(spec, b, run, ch, p)
  {
    if HistoryHolds(spec, a, run, ch, p) {
      forall c ensures HistoryOf(spec, b, run, ch, p, c) { assert HistoryOf(spec, a, run, ch, p, c); }
    }
    if NextHolds(spec, a, run, ch, p) {
      forall c ensures NextOf(spec, b, run, ch, p, c) { assert NextOf(spec, a, run, ch, p, c); }
    }
  }

  lemma {:induction false} SameTimingSub<C(!new), S(!new)>(a: Node<C, S>, b: Node<C, S>, p: seq<int>)
    requires SameTiming(a, b)
    ensures At(a, p) <==> At(b, p)
    ensures At(a, p) ==> SameTiming(Sub(a, p), Sub(b, p))
    decreases p
  {
    if p != [] && 0 <= p[0] < |a.children| { SameTimingSub(a.children[p[0]], b.children[p[0]], p[1..]); }
  }

  /** Anything that leaves the timing data alone keeps it explained. */
  lemma SameTimingExplains<C(!new), S(!new)>(spec: Spec<C, S>, a: Node<C, S>, b: Node<C, S>, run: seq<Issued<C>>)
    requires SameTiming(a, b) && Explains(spec, a, run)
    ensures Explains(spec, b, run)
  {
    forall p | At(b, p)
      ensures HistoryHolds(spec, Sub(b, p), run, b.id, p) && NextHolds(spec, Sub(b, p), run, b.id, p)
    {
      SameTimingSub(a, b, p);
      OwnSuffices(spec, Sub(a, p), Sub(b, p), run, a.id, p);
    }
  }

  /** The main theorem of the tree: `check` lets a command through exactly when
      every timing entry at every node on its walk is respected towards every
      command issued so far. */
  lemma CheckExact<C(!new), S(!new)>(spec: Spec<C, S>, t: Node<C, S>, run: seq<Issued<C>>, c: C, addr: seq<int>,
        clk: int, rowLevel: int)
    requires Shape(t, rowLevel) && rowLevel < |addr| && InRange(t, addr, rowLevel) && clk >= 0
    requires Explains(spec, t, run)
    ensures Check(spec, t, c, addr, clk, rowLevel) <==> Allowed(spec, t, run, c, addr, clk, rowLevel)
  {
    CheckMeansAllOnWalk(spec, t, c, addr, clk, rowLevel);
    forall p | OnWalk(spec, t, c, addr, p, rowLevel)
      ensures At(t, p) && NextOf(spec, Sub(t, p), run, t.id, p, c)
    {
      WalkIsAt(spec, t, c, addr, p, rowLevel);
    }
    if Check(spec, t, c, addr, clk, rowLevel) {
      forall p, v | OnWalk(spec, t, c, addr, p, rowLevel) && Demand(spec, run, t.id, p, c, v) ensures v <= clk {
        assert At(t, p) && v <= Next(Sub(t, p), c);
      }
    } else {
      var p :| OnWalk(spec, t, c, addr, p, rowLevel) && At(t, p) && Next(Sub(t, p), c) > clk;
      assert Demand(spec, run, t.id, p, c, Next(Sub(t, p), c));
    }
  }
}
