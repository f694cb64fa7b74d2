/** Whole runs of the DRAM tree: a run is legal when every command passes `check`
    at the moment it is issued; legal runs are exactly the runs that respect the
    timing tables, pair by pair. */
module TimingRuns {
  import opened DramTree
  import opened Timing

  /** The state transitions touch neither the nodes nor their timing data. */
  ghost predicate EffectOk<C(!new), S(!new)>(spec: Spec<C, S>) {
    forall c, n, id :: SameTiming(spec.effect(c, n, id), n)
  }

  lemma {:induction false} SameTimingShape<C(!new), S(!new)>(spec: Spec<C, S>, a: Node<C, S>, b: Node<C, S>,
        addr: seq<int>, rowLevel: int)
    requires SameTiming(a, b)
    ensures Shape(b, rowLevel) ==> Shape(a, rowLevel)
    ensures TreeOk(spec, b) ==> TreeOk(spec, a)
    ensures Shape(b, rowLevel) && rowLevel < |addr| && InRange(b, addr, rowLevel) ==> InRange(a, addr, rowLevel)
    decreases a
  {
    forall i | 0 <= i < |a.children|
      ensures Shape(b.children[i], rowLevel) ==> Shape(a.children[i], rowLevel)
      ensures TreeOk(spec, b.children[i]) ==> TreeOk(spec, a.children[i])
      ensures Shape(b.children[i], rowLevel) && rowLevel < |addr| && InRange(b.children[i], addr, rowLevel) ==>
        InRange(a.children[i], addr, rowLevel)
    {
      SameTimingShape(spec, a.children[i], b.children[i], addr, rowLevel);
    }
  }

  lemma {:induction false} SameTimingTrans<C, S>(a: Node<C, S>, b: Node<C, S>, c: Node<C, S>)
    requires SameTiming(a, b) && SameTiming(b, c)
    ensures SameTiming(a, c)
    decreases a
  {
    forall i | 0 <= i < |a.children| ensures SameTiming(a.children[i], c.children[i]) {
      SameTimingTrans(a.children[i], b.children[i], c.children[i]);
    }
  }

  /** The child ids that update_state meets are real children. */
  ghost predicate Descends<C, S>(spec: Spec<C, S>, t: Node<C, S>, c: C, addr: seq<int>, rowLevel: int)
    requires Shape(t, rowLevel) && rowLevel < |addr|
    decreases t
  {
    var k := addr[t.level + 1];
    t.level == spec.scope(c) || t.children == []
      || (0 <= k < |t.children| && Descends(spec, t.children[k], c, addr, rowLevel))
  }

  lemma {:induction false} SameTimingDescends<C, S>(spec: Spec<C, S>, a: Node<C, S>, b: Node<C, S>, c: C,
        addr: seq<int>, rowLevel: int)
    requires SameTiming(a, b) && Shape(a, rowLevel) && Shape(b, rowLevel) && rowLevel < |addr|
    requires Descends(spec, b, c, addr, rowLevel)
    ensures Descends(spec, a, c, addr, rowLevel)
    decreases a
  {
    var k := addr[a.level + 1];
    if a.level != spec.scope(c) && a.children != [] {
      SameTimingDescends(spec, a.children[k], b.children[k], c, addr, rowLevel);
    }
  }

  function UpdateState<C(!new), S(!new)>(spec: Spec<C, S>, t: Node<C, S>, c: C, addr: seq<int>,
        ghost rowLevel: int): (r: Node<C, S>)
    requires EffectOk(spec) && Shape(t, rowLevel) && rowLevel < |addr| && Descends(spec, t, c, addr, rowLevel)
    ensures SameTiming(r, t) && Shape(r, rowLevel)
    decreases rowLevel - t.level
  {
    var k := addr[t.level + 1];
    var u := spec.effect(c, t, k);
    SameTimingShape(spec, u, t, addr, rowLevel);
    SameTimingDescends(spec, u, t, c, addr, rowLevel);
    if t.level == spec.scope(c) || t.children == [] then u
    else
      var v := UpdateState(spec, u.children[k], c, addr, rowLevel);
      SameTimingTrans(v, u.children[k], t.children[k]);
      u.(children := u.children[k := v])
  }

  /** One step of update_state down the tree, u being t after the lambda at its level. */
  lemma UpdateStateStep<C(!new), S(!new)>(spec: Spec<C, S>, t: Node<C, S>, u: Node<C, S>, c: C, addr: seq<int>,
        rowLevel: int)
    requires EffectOk(spec) && Shape(t, rowLevel) && rowLevel < |addr| && Descends(spec, t, c, addr, rowLevel)
    requires u == spec.effect(c, t, addr[t.level + 1])
    ensures t.level == spec.scope(c) || u.children == [] ==> UpdateState(spec, t, c, addr, rowLevel) == u
    ensures t.level != spec.scope(c) && u.children != [] ==>
      var k := addr[t.level + 1];
      && 0 <= k < |u.children| && Shape(u.children[k], rowLevel) && Descends(spec, u.children[k], c, addr, rowLevel)
      && UpdateState(spec, t, c, addr, rowLevel)
         == u.(children := u.children[k := UpdateState(spec, u.children[k], c, addr, rowLevel)])
  {
    SameTimingShape(spec, u, t, addr, rowLevel);
    SameTimingDescends(spec, u, t, c, addr, rowLevel);
  }

  ghost predicate Fits<C, S>(spec: Spec<C, S>, t: Node<C, S>, x: Issued<C>, rowLevel: int) {
    && t.level == 0 && Shape(t, rowLevel) && rowLevel < |x.addr|
    && InRange(t, x.addr, rowLevel) && Descends(spec, t, x.cmd, x.addr, rowLevel) && x.clk >= 0
  }

  /** update: the state first, then the timing. */
  function Update<C(!new), S(!new)>(spec: Spec<C, S>, t: Node<C, S>, x: Issued<C>, ghost rowLevel: int): (r: Node<C, S>)
    requires TableOk(spec) && EffectOk(spec) && TreeOk(spec, t) && Fits(spec, t, x, rowLevel)
    ensures TreeOk(spec, r) && Shape(r, rowLevel) && r.id == t.id && r.level == t.level
  {
    var u := UpdateState(spec, t, x.cmd, x.addr, rowLevel);
    SameTimingShape(spec, u, t, x.addr, rowLevel);
    UpdateTiming(spec, u, x.cmd, x.addr, x.clk, rowLevel)
  }

  /** The nodes and the ids of two trees are the same. */
  ghost predicate SameNodes<C, S>(a: Node<C, S>, b: Node<C, S>) {
    && a.level == b.level && a.id == b.id && |a.children| == |b.children|
    && forall i :: 0 <= i < |a.children| ==> SameNodes(a.children[i], b.children[i])
  }

  lemma {:induction false} SameNodesFits<C, S>(spec: Spec<C, S>, a: Node<C, S>, b: Node<C, S>, c: C, addr: seq<int>,
        rowLevel: int)
    requires SameNodes(a, b) && Shape(b, rowLevel)
    ensures Shape(a, rowLevel)
    ensures rowLevel < |addr| && InRange(b, addr, rowLevel) ==> InRange(a, addr, rowLevel)
    ensures rowLevel < |addr| && Descends(spec, b, c, addr, rowLevel) ==> Descends(spec, a, c, addr, rowLevel)
    decreases a
  {
    forall i | 0 <= i < |a.children|
      ensures Shape(a.children[i], rowLevel)
      ensures rowLevel < |addr| && InRange(b.children[i], addr, rowLevel) ==> InRange(a.children[i], addr, rowLevel)
      ensures rowLevel < |addr| && Descends(spec, b.children[i], c, addr, rowLevel) ==>
          Descends(spec, a.children[i], c, addr, rowLevel)
    {
      SameNodesFits(spec, a.children[i], b.children[i], c, addr, rowLevel);
    }
  }

  lemma {:induction false} SameNodesWalk<C, S>(spec: Spec<C, S>, a: Node<C, S>, b: Node<C, S>, c: C, addr: seq<int>,
        p: seq<int>, rowLevel: int)
    requires SameNodes(a, b) && Shape(a, rowLevel) && Shape(b, rowLevel) && rowLevel < |addr|
    ensures OnWalk(spec, a, c, addr, p, rowLevel) <==> OnWalk(spec, b, c, addr, p, rowLevel)
    decreases p
  {
    if p != [] && 0 <= p[0] < |a.children| {
      SameNodesWalk(spec, a.children[p[0]], b.children[p[0]], c, addr, p[1..], rowLevel);
    }
  }

  lemma SameNodesAllowed<C(!new), S(!new)>(spec: Spec<C, S>, a: Node<C, S>, b: Node<C, S>, run: seq<Issued<C>>, c: C,
        addr: seq<int>,
                                           clk: int, rowLevel: int)
    requires SameNodes(a, b) && Shape(a, rowLevel) && Shape(b, rowLevel) && rowLevel < |addr|
    ensures Allowed(spec, a, run, c, addr, clk, rowLevel) <==> Allowed(spec, b, run, c, addr, clk, rowLevel)
  {
    forall p ensures OnWalk(spec, a, c, addr, p, rowLevel) <==> OnWalk(spec, b, c, addr, p, rowLevel) {
      SameNodesWalk(spec, a, b, c, addr, p, rowLevel);
    }
  }

  lemma {:induction false} SameTimingNodes<C, S>(a: Node<C, S>, b: Node<C, S>)
    requires SameTiming(a, b)
    ensures SameNodes(a, b)
    decreases a
  {
    forall i | 0 <= i < |a.children| ensures SameNodes(a.children[i], b.children[i]) {
      SameTimingNodes(a.children[i], b.children[i]);
    }
  }

  lemma {:induction false} SameNodesTrans<C, S>(a: Node<C, S>, b: Node<C, S>, c: Node<C, S>)
    requires SameNodes(a, b) && SameNodes(b, c)
    ensures SameNodes(a, c)
    decreases a
  {
    forall i | 0 <= i < |a.children| ensures SameNodes(a.children[i], c.children[i]) {
      SameNodesTrans(a.children[i], b.children[i], c.children[i]);
    }
  }

  lemma {:induction false} UpdateTimingNodes<C(!new), S(!new)>(spec: Spec<C, S>, t: Node<C, S>, c: C, addr: seq<int>,
        clk: int, rowLevel: int)
    requires TableOk(spec) && TreeOk(spec, t) && Shape(t, rowLevel) && rowLevel < |addr|
    ensures SameNodes(UpdateTiming(spec, t, c, addr, clk, rowLevel), t)
    decreases t
  {
    SameTimingRefl(t);
    SameTimingNodes(t, t);
    forall i | 0 <= i < |t.children|
      ensures SameNodes(UpdateTiming(spec, t.children[i], c, addr, clk, rowLevel), t.children[i])
    {
      UpdateTimingNodes(spec, t.children[i], c, addr, clk, rowLevel);
    }
  }

  /** One update keeps the tree explained, with the same nodes. */
  lemma UpdateKeeps<C(!new), S(!new)>(spec: Spec<C, S>, t: Node<C, S>, run: seq<Issued<C>>, x: Issued<C>, rowLevel: int)
    requires TableOk(spec) && EffectOk(spec) && TreeOk(spec, t) && Fits(spec, t, x, rowLevel)
    requires (forall i :: 0 <= i < |run| ==> run[i].clk >= 0) && Explains(spec, t, run)
    ensures SameNodes(Update(spec, t, x, rowLevel), t)
    ensures Explains(spec, Update(spec, t, x, rowLevel), run + [x])
  {
    var u := UpdateState(spec, t, x.cmd, x.addr, rowLevel);
    SameTimingShape(spec, u, t, x.addr, rowLevel);
    SameTimingNodes(u, t);
    SameTimingSym(u, t);
    SameTimingExplains(spec, t, u, run);
    UpdateExplains(spec, u, run, x, rowLevel);
    UpdateTimingNodes(spec, u, x.cmd, x.addr, x.clk, rowLevel);
    SameNodesTrans(Update(spec, t, x, rowLevel), u, t);
  }

  lemma {:induction false} SameTimingSym<C, S>(a: Node<C, S>, b: Node<C, S>)
    requires SameTiming(a, b)
    ensures SameTiming(b, a)
    decreases a
  {
    forall i | 0 <= i < |a.children| ensures SameTiming(b.children[i], a.children[i]) {
      SameTimingSym(a.children[i], b.children[i]);
    }
  }

  // ------------------------------------------------------------------- runs

  /** The constructor's tree: no history, no horizon. */
  ghost predicate Initial<C, S>(t: Node<C, S>, rowLevel: int) {
    && Shape(t, rowLevel) && t.next == map[] && t.prev == map[]
    && forall i :: 0 <= i < |t.children| ==> Initial(t.children[i], rowLevel)
  }

  lemma {:induction false} InitialSub<C(!new), S(!new)>(spec: Spec<C, S>, t: Node<C, S>, p: seq<int>, rowLevel: int)
    requires Initial(t, rowLevel) && At(t, p)
    ensures Sub(t, p).next == map[] && Sub(t, p).prev == map[]
    decreases p
  {
    if p != [] { InitialSub(spec, t.children[p[0]], p[1..], rowLevel); }
  }

  lemma InitialExplains<C(!new), S(!new)>(spec: Spec<C, S>, t: Node<C, S>, rowLevel: int)
    requires Initial(t, rowLevel)
    ensures Explains(spec, t, []) && TreeOk(spec, t)
  {
    InitialTreeOk(spec, t, rowLevel);
    forall p | At(t, p) ensures HistoryHolds(spec, Sub(t, p), [], t.id, p) && NextHolds(spec, Sub(t, p), [], t.id, p) {
      InitialSub(spec, t, p, rowLevel);
      forall a ensures HistoryOf(spec, Sub(t, p), [], t.id, p, a) {}
      forall b ensures NextOf(spec, Sub(t, p), [], t.id, p, b) {}
    }
  }

  lemma {:induction false} InitialTreeOk<C(!new), S(!new)>(spec: Spec<C, S>, t: Node<C, S>, rowLevel: int)
    requires Initial(t, rowLevel)
    ensures TreeOk(spec, t)
    decreases t
  {
    forall i | 0 <= i < |t.children|
      ensures TreeOk(spec, t.children[i])
    {
      InitialTreeOk(spec, t.children[i], rowLevel);
    }
  }

  /** Every command of the run respects every timing entry towards its predecessors. */
  ghost predicate Safe<C(!new), S(!new)>(spec: Spec<C, S>, t: Node<C, S>, run: seq<Issued<C>>, rowLevel: int) {
    Shape(t, rowLevel)
    && forall j :: 0 <= j < |run| ==>
      rowLevel < |run[j].addr| && Allowed(spec, t, run[..j], run[j].cmd, run[j].addr, run[j].clk, rowLevel)
  }

  /** The tree after a run, if every command passes `check` when it is issued. */
  datatype Outcome<C(==), S> = Refused | Reached(tree: Node<C, S>)

  ghost function Play<C(!new), S(!new)>(spec: Spec<C, S>, t: Node<C, S>, run: seq<Issued<C>>,
        rowLevel: int): (o: Outcome<C, S>)
    requires TableOk(spec) && EffectOk(spec) && TreeOk(spec, t) && Shape(t, rowLevel)
    ensures o.Reached? ==> TreeOk(spec, o.tree) && Shape(o.tree, rowLevel)
  {
    if run == [] then Reached(t)
    else
      var o := Play(spec, t, run[..|run| - 1], rowLevel);
      var x := run[|run| - 1];
      if o.Reached? && Fits(spec, o.tree, x, rowLevel) && Check(spec, o.tree, x.cmd, x.addr, x.clk, rowLevel)
      then Reached(Update(spec, o.tree, x, rowLevel)) else Refused
  }

  /** Timing safety and its converse: the tree accepts a run exactly when the run
      respects every timing entry. */
  lemma {:induction false} TimingSafety<C(!new), S(!new)>(spec: Spec<C, S>, t: Node<C, S>, run: seq<Issued<C>>,
        rowLevel: int)
    requires TableOk(spec) && EffectOk(spec) && Initial(t, rowLevel) && TreeOk(spec, t)
    requires forall i :: 0 <= i < |run| ==> Fits(spec, t, run[i], rowLevel)
    ensures Play(spec, t, run, rowLevel).Reached? <==> Safe(spec, t, run, rowLevel)
    ensures var o := Play(spec, t, run, rowLevel);
      o.Reached? ==> SameNodes(o.tree, t) && Explains(spec, o.tree, run)
    decreases run
  {
    if run == [] {
      InitialExplains(spec, t, rowLevel);
      SameTimingRefl(t);
      SameTimingNodes(t, t);
    } else {
      var r, x := run[..|run| - 1], run[|run| - 1];
      assert run == r + [x];
      TimingSafety(spec, t, r, rowLevel);
      forall j | 0 <= j < |r| ensures run[..j] == r[..j] && run[j] == r[j] {}
      assert Safe(spec, t, run, rowLevel) ==> Safe(spec, t, r, rowLevel);
      var o := Play(spec, t, r, rowLevel);
      if o.Reached? {
        SameNodesFits(spec, o.tree, t, x.cmd, x.addr, rowLevel);
        CheckExact(spec, o.tree, r, x.cmd, x.addr, x.clk, rowLevel);
        SameNodesAllowed(spec, o.tree, t, r, x.cmd, x.addr, x.clk, rowLevel);
        if Play(spec, t, run, rowLevel).Reached? {
          UpdateKeeps(spec, o.tree, r, x, rowLevel);
          SameNodesTrans(Update(spec, o.tree, x, rowLevel), o.tree, t);
        }
      }
    }
  }

  // ----------------------------------------------------- pair by pair

  lemma {:induction false} TimesConcat<C>(r1: seq<Issued<C>>, r2: seq<Issued<C>>, ch: int, p: seq<int>, a: C,
        role: Role)
    ensures Times(r1 + r2, ch, p, a, role) == Times(r2, ch, p, a, role) + Times(r1, ch, p, a, role)
    decreases r2
  {
    if r2 == [] { assert r1 + r2 == r1; }
    else {
      var s := r2[..|r2| - 1];
      assert (r1 + r2)[..|r1 + r2| - 1] == r1 + s;
      TimesConcat(r1, s, ch, p, a, role);
    }
  }

  predicate Meets<C(==)>(x: Issued<C>, ch: int, p: seq<int>, a: C, role: Role) {
    x.cmd == a && |p| < |x.addr| && RoleOf(ch, 0, p, x.addr) == role
  }

  /** In a safe run, a command at position j waits e.val clocks after the command
      at position i, for every entry e of the table of command i, once e.dist - 1
      further issues of it to the same node lie between them. */
  lemma PairwiseSafety<C(!new), S(!new)>(spec: Spec<C, S>, t: Node<C, S>, run: seq<Issued<C>>, rowLevel: int,
                                         i: int, j: int, p: seq<int>, k: int)
    requires Safe(spec, t, run, rowLevel) && 0 <= i < j < |run|
    requires OnWalk(spec, t, run[j].cmd, run[j].addr, p, rowLevel)
    requires 0 <= k < |spec.timing(|p|, run[i].cmd)|
    requires var e := spec.timing(|p|, run[i].cmd)[k];
      && e.cmd == run[j].cmd && Meets(run[i], t.id, p, run[i].cmd, RoleIn(e))
      && (e.sibling || |Times(run[i + 1..j], t.id, p, run[i].cmd, Target)| >= e.dist - 1)
    ensures run[i].clk + spec.timing(|p|, run[i].cmd)[k].val <= run[j].clk
  {
    var a, ch := run[i].cmd, t.id;
    var e := spec.timing(|p|, a)[k];
    var role := RoleIn(e);
    var mid := run[i + 1..j];
    assert run[..j] == run[..i] + ([run[i]] + mid);
    assert run[..i + 1] == run[..i] + [run[i]];
    assert run[..j] == run[..i + 1] + mid;
    TimesConcat(run[..i + 1], mid, ch, p, a, role);
    TimesStep(run[..i], run[i], ch, p, a, role);
    var times := Times(run[..j], ch, p, a, role);
    var m := |Times(mid, ch, p, a, role)|;
    assert times[m] == run[i].clk;
    assert DemandAt(times, e, run[i].clk + e.val, m);
    assert DemandBy(run[..j], ch, p, a, e, run[i].clk + e.val);
    assert Demand(spec, run[..j], ch, p, run[j].cmd, run[i].clk + e.val);
  }

  /** Positions that meet a node are counted by Times. */
  lemma {:induction false} CountPositions<C>(run: seq<Issued<C>>, ch: int, p: seq<int>, a: C, role: Role, at: seq<int>)
    requires forall n :: 0 <= n < |at| ==> 0 <= at[n] < |run| && Meets(run[at[n]], ch, p, a, role)
    requires forall m, n :: 0 <= m < n < |at| ==> at[m] < at[n]
    ensures |Times(run, ch, p, a, role)| >= |at|
    decreases run
  {
    if at != [] {
      var last := |run| - 1;
      var at' := if at[|at| - 1] == last then at[..|at| - 1] else at;
      CountPositions(run[..last], ch, p, a, role, at');
    }
  }

  // ------------------------------------------------- position by position

  /** Entry k of the table of command i at node p binds a command b issued after the run:
      command i met the node in the role the entry is about, and enough issues followed. */
  ghost predicate Binds<C(!new), S(!new)>(spec: Spec<C, S>, run: seq<Issued<C>>, ch: int, p: seq<int>, b: C,
        i: int, k: int)
    requires 0 <= i < |run|
  {
    && 0 <= k < |spec.timing(|p|, run[i].cmd)|
    && var e := spec.timing(|p|, run[i].cmd)[k];
    && e.cmd == b && Meets(run[i], ch, p, run[i].cmd, RoleIn(e))
    && (e.sibling || |Times(run[i + 1..], ch, p, run[i].cmd, Target)| >= e.dist - 1)
  }

  /** The issue behind an entry of Times. */
  lemma {:induction false} TimesPosition<C>(run: seq<Issued<C>>, ch: int, p: seq<int>, a: C, role: Role, k: int)
      returns (i: int)
    requires 0 <= k < |Times(run, ch, p, a, role)|
    ensures 0 <= i < |run| && Meets(run[i], ch, p, a, role) && run[i].clk == Times(run, ch, p, a, role)[k]
    ensures |Times(run[i + 1..], ch, p, a, role)| == k
    decreases run
  {
    hide *;
    if run == [] { NoTimes(ch, p, a, role); }
    var rest, x := run[..|run| - 1], run[|run| - 1];
    assert run == rest + [x];
    TimesAppend(rest, x, ch, p, a, role);
    if Meets(x, ch, p, a, role) {
      if k == 0 {
        i := |rest|;
        assert run[i + 1..] == [];
        NoTimes(ch, p, a, role);
      } else {
        i := TimesPosition(rest, ch, p, a, role, k - 1);
        SuffixAppend(rest, x, i);
        TimesAppend(rest[i + 1..], x, ch, p, a, role);
      }
    } else {
      assert [] + Times(rest, ch, p, a, role) == Times(rest, ch, p, a, role);
      i := TimesPosition(rest, ch, p, a, role, k);
      SuffixAppend(rest, x, i);
      TimesAppend(rest[i + 1..], x, ch, p, a, role);
    }
  }

  lemma SuffixAppend<T>(s: seq<T>, x: T, i: int)
    requires 0 <= i < |s|
    ensures (s + [x])[i] == s[i] && (s + [x])[i + 1..] == s[i + 1..] + [x]
  {}

  lemma NoTimes<C>(ch: int, p: seq<int>, a: C, role: Role)
    ensures Times([], ch, p, a, role) == []
  {}

  lemma TimesAppend<C>(run: seq<Issued<C>>, x: Issued<C>, ch: int, p: seq<int>, a: C, role: Role)
    ensures Times(run + [x], ch, p, a, role)
         == (if Meets(x, ch, p, a, role) then [x.clk] else []) + Times(run, ch, p, a, role)
  {
    assert (run + [x])[..|run|] == run;
  }

  lemma PositionTime<C>(run: seq<Issued<C>>, ch: int, p: seq<int>, a: C, role: Role, i: int)
    requires 0 <= i < |run| && Meets(run[i], ch, p, a, role)
    ensures var k := |Times(run[i + 1..], ch, p, a, role)|; var times := Times(run, ch, p, a, role);
      k < |times| && times[k] == run[i].clk
  {
    assert run == run[..i + 1] + run[i + 1..] && run[..i + 1] == run[..i] + [run[i]];
    TimesConcat(run[..i + 1], run[i + 1..], ch, p, a, role);
    TimesStep(run[..i], run[i], ch, p, a, role);
  }

  /** The demands of a run, position by position. */
  lemma DemandByPosition<C(!new), S(!new)>(spec: Spec<C, S>, run: seq<Issued<C>>, ch: int, p: seq<int>, b: C, v: int)
    ensures Demand(spec, run, ch, p, b, v) <==>
      exists i, k :: 0 <= i < |run| && Binds(spec, run, ch, p, b, i, k)
                     && v == run[i].clk + spec.timing(|p|, run[i].cmd)[k].val
  {
    if Demand(spec, run, ch, p, b, v) {
      var a, k :| 0 <= k < |spec.timing(|p|, a)| && spec.timing(|p|, a)[k].cmd == b
                  && DemandBy(run, ch, p, a, spec.timing(|p|, a)[k], v);
      var e := spec.timing(|p|, a)[k];
      var n :| DemandAt(Times(run, ch, p, a, RoleIn(e)), e, v, n);
      var i := TimesPosition(run, ch, p, a, RoleIn(e), n);
      assert Binds(spec, run, ch, p, b, i, k);
    }
    if i, k :| 0 <= i < |run| && Binds(spec, run, ch, p, b, i, k)
               && v == run[i].clk + spec.timing(|p|, run[i].cmd)[k].val
    {
      var a := run[i].cmd;
      var e := spec.timing(|p|, a)[k];
      PositionTime(run, ch, p, a, RoleIn(e), i);
      assert DemandAt(Times(run, ch, p, a, RoleIn(e)), e, v, |Times(run[i + 1..], ch, p, a, RoleIn(e))|);
      assert DemandBy(run, ch, p, a, e, v);
    }
  }

  /** A command respects the run exactly when it respects every command of it, one by one. */
  lemma AllowedPairwise<C(!new), S(!new)>(spec: Spec<C, S>, t: Node<C, S>, run: seq<Issued<C>>, y: Issued<C>,
        rowLevel: int)
    requires Shape(t, rowLevel) && rowLevel < |y.addr|
    ensures Allowed(spec, t, run, y.cmd, y.addr, y.clk, rowLevel) <==>
      forall p, i :: OnWalk(spec, t, y.cmd, y.addr, p, rowLevel) && 0 <= i < |run| ==>
        Respects(spec, t.id, run, y, p, i)
  {
    if Allowed(spec, t, run, y.cmd, y.addr, y.clk, rowLevel) {
      forall p, i | OnWalk(spec, t, y.cmd, y.addr, p, rowLevel) && 0 <= i < |run|
        ensures Respects(spec, t.id, run, y, p, i)
      {
        forall k | Binds(spec, run, t.id, p, y.cmd, i, k)
          ensures run[i].clk + spec.timing(|p|, run[i].cmd)[k].val <= y.clk
        {
          DemandByPosition(spec, run, t.id, p, y.cmd, run[i].clk + spec.timing(|p|, run[i].cmd)[k].val);
        }
      }
    } else {
      var p, v :| OnWalk(spec, t, y.cmd, y.addr, p, rowLevel) && Demand(spec, run, t.id, p, y.cmd, v) && v > y.clk;
      DemandByPosition(spec, run, t.id, p, y.cmd, v);
      var i, k :| 0 <= i < |run| && Binds(spec, run, t.id, p, y.cmd, i, k)
                  && v == run[i].clk + spec.timing(|p|, run[i].cmd)[k].val;
      assert !Respects(spec, t.id, run, y, p, i);
    }
  }

  /** At node p, y comes late enough after command i of the run. */
  ghost predicate Respects<C(!new), S(!new)>(spec: Spec<C, S>, ch: int, run: seq<Issued<C>>, y: Issued<C>,
        p: seq<int>, i: int)
    requires 0 <= i < |run|
  {
    forall k :: Binds(spec, run, ch, p, y.cmd, i, k) ==> run[i].clk + spec.timing(|p|, run[i].cmd)[k].val <= y.clk
  }
}
