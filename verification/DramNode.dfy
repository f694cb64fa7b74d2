/** The tree of ramulator/DRAM.h as it lives in memory: one object per channel, rank
    and bank, updated in place (the instance DRAM<DDR3>). Each method is proved
    against the value-level tree. */
module DramNode {
  import opened DramTree
  import opened Timing
  import opened TimingRuns
  import opened Ddr3
  import opened Ddr3State

  class Dram {
    const spec: Spec<Command, State>
    const level: int
    const id: int
    const children: seq<Dram>
    ghost const Repr: set<object>
    ghost const height: nat

    var state: State
    var rows: map<int, State>
    var next: map<Command, int>
    var prev: map<Command, seq<int>>
    var serving: Serving
    var curClk: int

    /** The objects form a tree; nothing here can change after construction. */
    ghost predicate Shaped()
      decreases height
    {
      && this in Repr
      && (forall i :: 0 <= i < |children| ==>
            children[i].height < height && children[i].Repr <= Repr && this !in children[i].Repr
            && children[i].spec == spec && children[i].Shaped())
      && (forall i, j :: 0 <= i < j < |children| ==> children[i].Repr !! children[j].Repr)
    }

    ghost function Tree(): Tree
      requires Shaped()
      reads Repr
      decreases height
    {
      Node(level, id, state, rows, next, prev, serving, Kids(|children|))
    }

    ghost function Kids(n: nat): (ts: seq<Tree>)
      requires Shaped() && n <= |children|
      reads Repr
      ensures |ts| == n && forall i :: 0 <= i < n ==> ts[i] == children[i].Tree()
      decreases height, n
    {
      if n == 0 then [] else Kids(n - 1) + [children[n - 1].Tree()]
    }

    /** A node whose id is not addr[level]: only the sibling entries apply. */
    method UpdateSibling(c: Command, clk: int)
      requires Shaped()
      modifies this
      ensures Tree() == SiblingUpdate(spec, old(Tree()), c, clk)
    {
      ghost var kids := Tree().children;
      next := SiblingLoop(next, spec.timing(level, c), clk);
      assert Tree().children == kids;
    }

    /** A target node's own history and horizon. */
    method UpdateTarget(c: Command, clk: int)
      requires Shaped() && TableOk(spec) && PrevOk(spec, Tree())
      modifies this
      ensures Tree() == TargetUpdate(spec, old(Tree()), c, clk)
    {
      ghost var t0 := Tree();
      var entries := spec.timing(level, c);
      var history := if c in prev then prev[c] else seq(MaxDist(entries), _ => -1);
      assert history == History(spec, t0, c) && |history| == MaxDist(entries);
      if |history| > 0 {
        history := [clk] + history[..|history| - 1];
      }
      assert history == Pushed(History(spec, t0, c), clk);
      hide History, MaxDist, Shape;
      var raised := TargetLoop(next, entries, history);
      SetTiming(raised, prev[c := history]);
    }

    method SetTiming(n: map<Command, int>, p: map<Command, seq<int>>)
      requires Shaped()
      modifies this
      ensures Tree() == old(Tree()).(next := n, prev := p)
    {
      ghost var kids := Tree().children;
      next, prev := n, p;
      assert Tree().children == kids;
    }

    method UpdateTiming(c: Command, addr: seq<int>, clk: int)
      requires Shaped() && TableOk(spec) && TreeOk(spec, Tree()) && Shape(Tree(), ROW) && ROW < |addr|
      modifies Repr
      ensures Tree() == DramTree.UpdateTiming(spec, old(Tree()), c, addr, clk, ROW)
      decreases height, 2
    {
      if id != addr[level] {
        UpdateSibling(c, clk);
        return;
      }
      UpdateTarget(c, clk);
      UpdateChildren(c, addr, clk);
    }

    /** The loop over *all* children. */
    method UpdateChildren(c: Command, addr: seq<int>, clk: int)
      requires Shaped() && TableOk(spec) && TreeOk(spec, Tree()) && Shape(Tree(), ROW) && ROW < |addr|
      modifies Repr - {this}
      ensures Own() == old(Own())
      ensures forall i :: 0 <= i < |children| ==>
        children[i].Tree() == DramTree.UpdateTiming(spec, old(Tree()).children[i], c, addr, clk, ROW)
      decreases height, 1
    {
      ghost var kids := Tree().children;
      for i := 0 to |children|
        invariant Own() == old(Own())
        invariant forall j :: 0 <= j < i ==>
            children[j].Tree() == DramTree.UpdateTiming(spec, kids[j], c, addr, clk, ROW)
        invariant forall j :: i <= j < |children| ==> children[j].Tree() == kids[j]
      {
        UpdateChild(i, c, addr, clk, kids[i]);
      }
    }

    method UpdateChild(i: int, c: Command, addr: seq<int>, clk: int, ghost kid: Tree)
      requires Shaped() && 0 <= i < |children| && children[i].Tree() == kid
      requires TableOk(spec) && TreeOk(spec, kid) && Shape(kid, ROW) && ROW < |addr|
      modifies children[i].Repr
      ensures Own() == old(Own())
      ensures children[i].Tree() == DramTree.UpdateTiming(spec, kid, c, addr, clk, ROW)
      ensures forall j :: 0 <= j < |children| && j != i ==> children[j].Tree() == old(children[j].Tree())
      decreases height, 0
    {
      children[i].UpdateTiming(c, addr, clk);
    }

    /** The node without its children. */
    ghost function Own(): Tree
      reads this
    {
      Node(level, id, state, rows, next, prev, serving, [])
    }

    // ------------------------------------------------------- read-only walks

    method Check(c: Command, addr: seq<int>, clk: int) returns (ready: bool)
      requires Shaped() && Shape(Tree(), ROW) && ROW < |addr| && InRange(Tree(), addr, ROW)
      ensures ready == DramTree.Check(spec, Tree(), c, addr, clk, ROW)
      decreases height
    {
      if Look(next, c) != -1 && clk < Look(next, c) { return false; }
      var k := addr[level + 1];
      if k < 0 || level == spec.scope(c) || |children| == 0 { return true; }
      ready := children[k].Check(c, addr, clk);
    }

    /** The loop of get_next. */
    method GetNext(c: Command, addr: seq<int>) returns (nextClk: int)
      requires Shaped() && Shape(Tree(), ROW) && ROW < |addr| && InRange(Tree(), addr, ROW)
      ensures nextClk == DramTree.GetNext(spec, Tree(), curClk, c, addr, ROW)
    {
      nextClk := Max(curClk, Look(next, c));
      var node := this;
      var l := level;
      while l < spec.scope(c) && |node.children| > 0 && addr[l + 1] >= 0
        invariant node.Shaped() && node.level == l && node.spec == spec
        invariant Shape(node.Tree(), ROW) && InRange(node.Tree(), addr, ROW)
        invariant Look(node.next, c) <= nextClk
        invariant DramTree.GetNext(spec, Tree(), curClk, c, addr, ROW)
            == Max(nextClk, NextOnWalk(spec, node.Tree(), c, addr, ROW))
        decreases node.height
      {
        ChildFits(node.Tree(), addr, ROW);
        hide Shape, InRange;
        node := node.children[addr[l + 1]];
        l := l + 1;
        nextClk := Max(nextClk, Look(node.next, c));
      }
    }

    method Decode(c: Command, addr: seq<int>) returns (verdict: Verdict<Command>)
      requires Shaped() && Shape(Tree(), ROW) && ROW < |addr| && InRange(Tree(), addr, ROW) && spec.prereq == Prereq
      ensures verdict == DramTree.Decode(spec, Tree(), c, addr, ROW)
      decreases height
    {
      DecodeStep(spec, Tree(), c, addr, ROW);
      hide Ddr3.Prereq, DramTree.Decode, Shape, InRange;
      var k := addr[level + 1];
      verdict := PrereqHere(c, k);
      if !verdict.Pass? { return; }
      if k < 0 || |children| == 0 { return Issue(c); }
      verdict := children[k].Decode(c, addr);
    }

    /** The prereq lambda of REF: a loop over the banks. */
    method RefreshPrereq() returns (verdict: Verdict<Command>)
      requires Shaped() && level == RANK
      ensures forall k :: verdict == Prereq(REF, Tree(), k)
    {
      ghost var kids := Tree().children;
      for b := 0 to |children|
        invariant forall j :: 0 <= j < b ==> kids[j].state == Closed
      {
        if children[b].state != Closed {
          assert kids[b].state != Closed;
          return Issue(PREA);
        }
      }
      verdict := Issue(REF);
    }

    /** The prereq lambdas. */
    method PrereqHere(c: Command, k: int) returns (verdict: Verdict<Command>)
      requires Shaped() && spec.prereq == Prereq
      ensures verdict == spec.prereq(c, Tree(), k)
    {
      if c == REF && level == RANK {
        hide Prereq;
        verdict := RefreshPrereq();
      } else {
        verdict := Prereq(c, Node(level, id, state, rows, next, prev, serving, []), k);
      }
    }

    method RowHitHere(c: Command, k: int) returns (answer: Answer)
      requires Shaped() && spec.rowhit == Ddr3.RowHit
      ensures answer == spec.rowhit(c, Tree(), k)
    {
      answer := Ddr3.RowHit(c, Node(level, id, state, rows, next, prev, serving, []), k);
    }

    method RowHit(c: Command, addr: seq<int>) returns (answer: Answer)
      requires Shaped() && Shape(Tree(), ROW) && ROW < |addr| && InRange(Tree(), addr, ROW)
          && spec.rowhit == Ddr3.RowHit
      ensures answer == Ask(spec.rowhit, Tree(), c, addr, ROW)
      decreases height
    {
      var k := addr[level + 1];
      answer := RowHitHere(c, k);
      if !answer.Unasked? { return; }
      if k < 0 || |children| == 0 { return Says(false); }
      answer := children[k].RowHit(c, addr);
    }

    method RowOpenHere(c: Command, k: int) returns (answer: Answer)
      requires Shaped() && spec.rowopen == Ddr3.RowOpen
      ensures answer == spec.rowopen(c, Tree(), k)
    {
      answer := Ddr3.RowOpen(c, Node(level, id, state, rows, next, prev, serving, []), k);
    }

    method RowOpen(c: Command, addr: seq<int>) returns (answer: Answer)
      requires Shaped() && Shape(Tree(), ROW) && ROW < |addr| && InRange(Tree(), addr, ROW)
          && spec.rowopen == Ddr3.RowOpen
      ensures answer == Ask(spec.rowopen, Tree(), c, addr, ROW)
      decreases height
    {
      var k := addr[level + 1];
      answer := RowOpenHere(c, k);
      if !answer.Unasked? { return; }
      if k < 0 || |children| == 0 { return Says(false); }
      answer := children[k].RowOpen(c, addr);
    }

    // --------------------------------------------------------- state updates

    method Close()
      requires Shaped()
      modifies this
      ensures Tree() == old(Tree()).(state := Closed, rows := map[])
    {
      ghost var kids := Tree().children;
      state, rows := Closed, map[];
      assert Tree().children == kids;
    }

    /** The lambda of PREA: every bank of the rank is closed. */
    method CloseBanks()
      requires Shaped()
      modifies Repr
      ensures Tree() == old(Tree()).(children := CloseAll(old(Tree()).children))
    {
      ghost var kids := Tree().children;
      for b := 0 to |children|
        invariant Own() == old(Own())
        invariant forall j :: 0 <= j < b ==> children[j].Tree() == kids[j].(state := Closed, rows := map[])
        invariant forall j :: b <= j < |children| ==> children[j].Tree() == kids[j]
      {
        CloseBank(b);
      }
      assert Tree().children == CloseAll(kids);
    }

    method CloseBank(b: int)
      requires Shaped() && 0 <= b < |children|
      modifies children[b].Repr
      ensures Own() == old(Own())
      ensures children[b].Tree() == old(children[b].Tree()).(state := Closed, rows := map[])
      ensures forall j :: 0 <= j < |children| && j != b ==> children[j].Tree() == old(children[j].Tree())
    {
      children[b].Close();
    }

    /** The lambda of PDE: the rank powers down with or without open banks. */
    method PowerDown()
      requires Shaped()
      modifies this
      ensures Tree() == old(Tree()).(state :=
        if forall i :: 0 <= i < |old(Tree()).children| ==> old(Tree()).children[i].state == Closed then PrePowerDown
        else ActPowerDown)
    {
      ghost var kids := Tree().children;
      for b := 0 to |children|
        invariant Tree() == old(Tree())
        invariant forall j :: 0 <= j < b ==> kids[j].state == Closed
      {
        if children[b].state != Closed {
          assert kids[b].state != Closed;
          state := ActPowerDown;
          assert Tree().children == kids;
          return;
        }
      }
      state := PrePowerDown;
      assert Tree().children == kids;
    }

    method SetState(s: State)
      requires Shaped()
      modifies this
      ensures Tree() == old(Tree()).(state := s)
    {
      ghost var kids := Tree().children;
      state := s;
      assert Tree().children == kids;
    }

    method OpenRow(k: int)
      requires Shaped()
      modifies this
      ensures Tree() == old(Tree()).(state := Opened, rows := old(Tree()).rows[k := Opened])
    {
      ghost var kids := Tree().children;
      state, rows := Opened, rows[k := Opened];
      assert Tree().children == kids;
    }

    /** The lambdas of DDR3::init_lambda. */
    method Apply(c: Command, k: int)
      requires Shaped()
      modifies Repr
      ensures Tree() == Effect(c, old(Tree()), k)
    {
      if level == BANK {
        ApplyAtBank(c, k);
      } else if level == RANK {
        ApplyAtRank(c, k);
      }
    }

    method ApplyAtBank(c: Command, k: int)
      requires Shaped() && level == BANK
      modifies this
      ensures Tree() == Effect(c, old(Tree()), k)
    {
      match c {
        case ACT => OpenRow(k);
        case PRE => Close();
        case RDA => Close();
        case WRA => Close();
        case _ =>
      }
    }

    method ApplyAtRank(c: Command, k: int)
      requires Shaped() && level == RANK
      modifies Repr
      ensures Tree() == Effect(c, old(Tree()), k)
    {
      match c {
        case PREA => CloseBanks();
        case PDE => PowerDown();
        case PDX => SetState(PowerUp);
        case SRE => SetState(SelfRefresh);
        case SRX => SetState(PowerUp);
        case _ =>
      }
    }

    method UpdateState(c: Command, addr: seq<int>)
      requires Shaped() && EffectOk(spec) && Shape(Tree(), ROW) && ROW < |addr| && Descends(spec, Tree(), c, addr, ROW)
      requires spec.effect == Effect
      modifies Repr
      ensures Tree() == TimingRuns.UpdateState(spec, old(Tree()), c, addr, ROW)
      decreases height, 1
    {
      ghost var t0 := Tree();
      assert t0.level == level < ROW && 0 <= level;
      hide *;
      var k := addr[level + 1];
      Apply(c, k);
      ghost var u := Tree();
      UpdateStateStep(spec, t0, u, c, addr, ROW);
      KidsOf();
      if level == spec.scope(c) || |children| == 0 { return; }
      UpdateChildState(k, c, addr, u.children[k]);
    }

    lemma KidsOf()
      requires Shaped()
      ensures Tree().level == level && |Tree().children| == |children|
      ensures forall i :: 0 <= i < |children| ==> children[i].Shaped() && Tree().children[i] == children[i].Tree()
    {}

    method UpdateChildState(k: int, c: Command, addr: seq<int>, ghost kid: Tree)
      requires Shaped() && 0 <= k < |children| && children[k].Tree() == kid && EffectOk(spec) && spec.effect == Effect
      requires Shape(kid, ROW) && ROW < |addr| && Descends(spec, kid, c, addr, ROW)
      modifies children[k].Repr
      ensures var kid' := TimingRuns.UpdateState(spec, kid, c, addr, ROW);
        Tree() == old(Tree()).(children := old(Tree()).children[k := kid'])
      decreases height, 0
    {
      hide Effect, TimingRuns.UpdateState, Shape, Descends, EffectOk;
      ghost var kids := Tree().children;
      children[k].UpdateState(c, addr);
      assert Tree().children == kids[k := children[k].Tree()];
    }

    method Update(c: Command, addr: seq<int>, clk: int)
      requires Shaped() && TableOk(spec) && EffectOk(spec) && TreeOk(spec, Tree()) && spec.effect == Effect
      requires Fits(spec, Tree(), Issued(c, addr, clk), ROW)
      modifies Repr
      ensures Tree() == TimingRuns.Update(spec, old(Tree()), Issued(c, addr, clk), ROW)
      ensures curClk == clk
    {
      ghost var t0 := Tree();
      UpdateState(c, addr);
      SameTimingShape(spec, Tree(), t0, addr, ROW);
      UpdateTiming(c, addr, clk);
      ghost var t := Tree();
      curClk := clk;
      assert Tree().children == t.children;
    }

    // ------------------------------------------------------- serving counters

    method UpdateServing(addr: seq<int>, delta: int, clk: int)
      requires Shaped() && Shape(Tree(), ROW) && ROW < |addr| && InRange(Tree(), addr, ROW)
      modifies Repr
      ensures Tree() == DramTree.UpdateServing(old(Tree()), addr, delta, clk, BANK, ROW)
      decreases height, 1
    {
      ghost var t0 := Tree();
      var s := serving;
      if s.since != -1 && s.cur > 0 {
        s := s.(sum := s.sum + (clk - s.since) * s.cur, active := s.active + (clk - s.since));
      }
      s := s.(since := clk, cur := s.cur + delta);
      if delta == 1 && s.cur == 1 {
        s := s.(begin := clk);
      } else if s.cur == 0 {
        s := s.(active := s.active + (clk - s.since));
      }
      SetServing(s);
      var k := addr[level + 1];
      if k < 0 || |children| == 0 || level > BANK { return; }
      UpdateChildServing(k, addr, delta, clk, t0.children[k]);
    }

    method SetServing(s: Serving)
      requires Shaped()
      modifies this
      ensures Tree() == old(Tree()).(serving := s)
    {
      ghost var kids := Tree().children;
      serving := s;
      assert Tree().children == kids;
    }

    method UpdateChildServing(k: int, addr: seq<int>, delta: int, clk: int, ghost kid: Tree)
      requires Shaped() && 0 <= k < |children| && children[k].Tree() == kid
      requires Shape(kid, ROW) && ROW < |addr| && InRange(kid, addr, ROW)
      modifies children[k].Repr
      ensures Tree() == old(Tree()).(children := old(Tree()).children[k :=
        DramTree.UpdateServing(kid, addr, delta, clk, BANK, ROW)])
      decreases height, 0
    {
      hide DramTree.UpdateServing, Shape, InRange;
      ghost var kids := Tree().children;
      children[k].UpdateServing(addr, delta, clk);
      assert Tree().children == kids[k := children[k].Tree()];
    }

    // ------------------------------------------------------------ constructor

    ghost static predicate KidOk(kid: Dram, spec: Spec<Command, State>, level: int, id: int, counts: seq<int>)
      requires |counts| == 5 && CHANNEL <= level < BANK
      reads kid.Repr
    {
      && kid.Shaped() && kid.spec == spec && kid.height == ROW - level - 1
      && kid.Tree() == Built(level + 1, id, counts)
    }

    /** The children of a new node, on objects of their own. */
    static method Family(spec: Spec<Command, State>, level: int, counts: seq<int>) returns (kids: seq<Dram>,
          ghost objects: set<object>)
      requires |counts| == 5 && CHANNEL <= level < BANK
      ensures |kids| == (if counts[level + 1] <= 0 then 0 else counts[level + 1]) && fresh(objects)
      ensures forall j :: 0 <= j < |kids| ==> kids[j].Repr <= objects && KidOk(kids[j], spec, level, j, counts)
      ensures forall j, k :: 0 <= j < k < |kids| ==> kids[j].Repr !! kids[k].Repr
      decreases ROW - level - 1, 1
    {
      hide Built;
      kids, objects := [], {};
      for i := 0 to if counts[level + 1] <= 0 then 0 else counts[level + 1]
        invariant |kids| == i && fresh(objects)
        invariant forall j :: 0 <= j < i ==> kids[j].Repr <= objects && KidOk(kids[j], spec, level, j, counts)
        invariant forall j, k :: 0 <= j < k < i ==> kids[j].Repr !! kids[k].Repr
      {
        var kid := new Dram(spec, level + 1, i, counts);
        assert KidOk(kid, spec, level, i, counts);
        kids := kids + [kid];
        objects := objects + kid.Repr;
      }
    }

    constructor (spec: Spec<Command, State>, level: int, id: int, counts: seq<int>)
      requires |counts| == 5 && CHANNEL <= level <= BANK
      ensures Shaped() && fresh(Repr) && this.spec == spec && height == ROW - level
      ensures Tree() == Built(level, id, counts)
      decreases ROW - level, 0
    {
      var kids: seq<Dram> := [];
      ghost var objects: set<object> := {};
      if level < BANK {
        kids, objects := Family(spec, level, counts);
      }
      this.spec, this.level, this.id := spec, level, id;
      children := kids;
      height := ROW - level;
      state, rows, next, prev, serving, curClk := Start(level), map[], map[], map[], IDLE, 0;
      Repr := {this} + objects;
      new;
      assert Tree().children == Built(level, id, counts).children;
    }
  }

  method TargetLoop(next0: map<Command, int>, es: seq<Entry<Command>>, past: seq<int>) returns (next: map<Command, int>)
    requires forall i :: 0 <= i < |es| ==> 1 <= es[i].dist <= |past|
    ensures next == RaiseTarget(next0, es, past)
  {
    next := next0;
    for i := 0 to |es|
      invariant RaiseTarget(next, es[i..], past) == RaiseTarget(next0, es, past)
    {
      assert es[i..][1..] == es[i + 1..];
      var e := es[i];
      if !e.sibling && past[e.dist - 1] >= 0 { next := Raise(next, e.cmd, past[e.dist - 1] + e.val); }
    }
  }

  method SiblingLoop(next0: map<Command, int>, es: seq<Entry<Command>>, clk: int) returns (next: map<Command, int>)
    ensures next == RaiseSibling(next0, es, clk)
  {
    next := next0;
    for i := 0 to |es|
      invariant RaiseSibling(next, es[i..], clk) == RaiseSibling(next0, es, clk)
    {
      assert es[i..][1..] == es[i + 1..];
      if es[i].sibling { next := Raise(next, es[i].cmd, clk + es[i].val); }
    }
  }
}
