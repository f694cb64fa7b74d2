/** The DRAM tree of ramulator/DRAM.h as a value: one node per channel, rank, bank
    (and subarray), with its state, its timing horizon and its children.
    The command set C, the state set S and the tables are parameters, as the
    template parameter T is in the source. */
module DramTree {

  /** One row of a timing table: after a command, `cmd` must wait `val` clocks
      counted from the dist-th most recent issue of that command. */
  datatype Entry<C> = Entry(cmd: C, dist: int, val: int, sibling: bool)

  /** What a prerequisite function answers: no prerequisite at this level, a
      command to issue, or a failed assert(false). */
  datatype Verdict<C> = Pass | Issue(cmd: C) | Fault

  /** What a row-hit or row-open function answers: no function at this level, a
      truth value, or a failed assert(false). */
  datatype Answer = Unasked | Says(yes: bool) | Failed

  /** The statistics kept by update_serving_requests. */
  datatype Serving = Serving(cur: int, since: int, begin: int, sum: int, active: int)

  const IDLE := Serving(0, -1, -1, 0, 0)

  datatype Node<C(==), S> = Node(
    level: int, id: int, state: S, rows: map<int, S>,
    next: map<C, int>, prev: map<C, seq<int>>,
    serving: Serving, children: seq<Node<C, S>>)

  datatype Spec<!C(==), !S> = Spec(
    scope: C -> int,
    timing: (int, C) -> seq<Entry<C>>,
    prereq: (C, Node<C, S>, int) -> Verdict<C>,
    rowhit: (C, Node<C, S>, int) -> Answer,
    rowopen: (C, Node<C, S>, int) -> Answer,
    effect: (C, Node<C, S>, int) -> Node<C, S>)

  /** The asserts and index bounds of update_timing, as conditions on a table. */
  ghost predicate TableOk<C(!new), S(!new)>(spec: Spec<C, S>) {
    forall lev, c, i :: 0 <= i < |spec.timing(lev, c)| ==>
      var e := spec.timing(lev, c)[i]; e.dist >= 1 && (e.sibling ==> e.dist == 1)
  }

  /** Nodes live at levels below `rowLevel`; a child's id is its index. */
  ghost predicate Shape<C, S>(t: Node<C, S>, rowLevel: int) {
    && 0 <= t.level < rowLevel
    && forall i :: 0 <= i < |t.children| ==>
      t.children[i].id == i && t.children[i].level == t.level + 1 && Shape(t.children[i], rowLevel)
  }

  /** Two trees with the same nodes and the same timing data. */
  ghost predicate SameTiming<C, S>(a: Node<C, S>, b: Node<C, S>) {
    && a.level == b.level && a.id == b.id && a.next == b.next && a.prev == b.prev
    && |a.children| == |b.children|
    && forall i :: 0 <= i < |a.children| ==> SameTiming(a.children[i], b.children[i])
  }

  // ---------------------------------------------------------------- timing

  function Max(a: int, b: int): int { if a < b then b else a }

  /** next[] starts filled with -1; a command never delayed has no key here. */
  function Look<C>(next: map<C, int>, c: C): int { if c in next then next[c] else -1 }

  function Next<C, S>(n: Node<C, S>, c: C): int { Look(n.next, c) }

  function MaxDist<C>(es: seq<Entry<C>>): (d: nat)
    ensures forall i :: 0 <= i < |es| ==> es[i].dist <= d
  {
    if es == [] then 0 else Max(es[0].dist, MaxDist(es[1..]))
  }

  /** prev[c], whose initial value is `dist` copies of -1. */
  function History<C, S>(spec: Spec<C, S>, n: Node<C, S>, c: C): seq<int> {
    if c in n.prev then n.prev[c] else seq(MaxDist(spec.timing(n.level, c)), _ => -1)
  }

  function Raise<C>(next: map<C, int>, c: C, future: int): map<C, int> {
    next[c := Max(Look(next, c), future)]
  }

  /** The loop over the table entries of a target node. */
  function RaiseTarget<C>(next: map<C, int>, es: seq<Entry<C>>, past: seq<int>): map<C, int>
    requires forall i :: 0 <= i < |es| ==> 1 <= es[i].dist <= |past|
    decreases es
  {
    if es == [] then next
    else
      var e := es[0];
      var t := past[e.dist - 1];
      RaiseTarget(if e.sibling || t < 0 then next else Raise(next, e.cmd, t + e.val), es[1..], past)
  }

  /** The loop over the table entries of a sibling of a target node. */
  function RaiseSibling<C>(next: map<C, int>, es: seq<Entry<C>>, clk: int): map<C, int>
    decreases es
  {
    if es == [] then next
    else RaiseSibling(if es[0].sibling then Raise(next, es[0].cmd, clk + es[0].val) else next, es[1..], clk)
  }

  function Pushed(h: seq<int>, clk: int): seq<int> {
    if h == [] then h else [clk] + h[..|h| - 1]
  }

  ghost predicate PrevOk<C(!new), S>(spec: Spec<C, S>, n: Node<C, S>) {
    forall c :: c in n.prev ==> |n.prev[c]| == MaxDist(spec.timing(n.level, c))
  }

  ghost predicate TreeOk<C(!new), S>(spec: Spec<C, S>, t: Node<C, S>) {
    PrevOk(spec, t) && forall i :: 0 <= i < |t.children| ==> TreeOk(spec, t.children[i])
  }

  function TargetUpdate<C(!new), S(!new)>(spec: Spec<C, S>, n: Node<C, S>, c: C, clk: int): (r: Node<C, S>)
    requires TableOk(spec) && PrevOk(spec, n)
    ensures PrevOk(spec, r)
  {
    var h := Pushed(History(spec, n, c), clk);
    n.(prev := n.prev[c := h], next := RaiseTarget(n.next, spec.timing(n.level, c), h))
  }

  function SiblingUpdate<C, S>(spec: Spec<C, S>, n: Node<C, S>, c: C, clk: int): Node<C, S> {
    n.(next := RaiseSibling(n.next, spec.timing(n.level, c), clk))
  }

  function UpdateTiming<C(!new), S(!new)>(spec: Spec<C, S>, t: Node<C, S>, c: C, addr: seq<int>, clk: int,
                                ghost rowLevel: int): (r: Node<C, S>)
    requires TableOk(spec) && TreeOk(spec, t) && Shape(t, rowLevel) && rowLevel < |addr|
    ensures TreeOk(spec, r) && Shape(r, rowLevel) && r.id == t.id && r.level == t.level
    decreases t
  {
    if t.id != addr[t.level] then SiblingUpdate(spec, t, c, clk)
    else
      TargetUpdate(spec, t, c, clk).(children :=
        seq(|t.children|, i requires 0 <= i < |t.children| =>
          UpdateTiming(spec, t.children[i], c, addr, clk, rowLevel)))
  }

  // ----------------------------------------------------- check and get_next

  /** The child ids that a walk down `addr` meets are real children. */
  ghost predicate InRange<C, S>(t: Node<C, S>, addr: seq<int>, rowLevel: int)
    requires Shape(t, rowLevel) && rowLevel < |addr|
    decreases t
  {
    var k := addr[t.level + 1];
    t.children == [] || k < 0 || (k < |t.children| && InRange(t.children[k], addr, rowLevel))
  }

  lemma ChildFits<C, S>(t: Node<C, S>, addr: seq<int>, rowLevel: int)
    requires Shape(t, rowLevel) && rowLevel < |addr| && InRange(t, addr, rowLevel)
    requires t.children != [] && addr[t.level + 1] >= 0
    ensures addr[t.level + 1] < |t.children|
    ensures var kid := t.children[addr[t.level + 1]];
      kid.level == t.level + 1 && Shape(kid, rowLevel) && InRange(kid, addr, rowLevel)
  {}

  predicate Stops<C, S>(spec: Spec<C, S>, t: Node<C, S>, c: C, addr: seq<int>)
    requires 0 <= t.level + 1 < |addr|
  {
    addr[t.level + 1] < 0 || t.level == spec.scope(c) || t.children == []
  }

  predicate Check<C, S>(spec: Spec<C, S>, t: Node<C, S>, c: C, addr: seq<int>, clk: int, ghost rowLevel: int)
    requires Shape(t, rowLevel) && rowLevel < |addr| && InRange(t, addr, rowLevel)
    decreases t
  {
    if Next(t, c) != -1 && clk < Next(t, c) then false
    else if Stops(spec, t, c, addr) then true
    else Check(spec, t.children[addr[t.level + 1]], c, addr, clk, rowLevel)
  }

  /** The value the loop of get_next accumulates below a node. */
  function NextOnWalk<C, S>(spec: Spec<C, S>, t: Node<C, S>, c: C, addr: seq<int>, ghost rowLevel: int): int
    requires Shape(t, rowLevel) && rowLevel < |addr| && InRange(t, addr, rowLevel)
    decreases t
  {
    if t.level < spec.scope(c) && t.children != [] && addr[t.level + 1] >= 0
    then Max(Next(t, c), NextOnWalk(spec, t.children[addr[t.level + 1]], c, addr, rowLevel))
    else Next(t, c)
  }

  function GetNext<C, S>(spec: Spec<C, S>, t: Node<C, S>, curClk: int, c: C, addr: seq<int>, ghost rowLevel: int): int
    requires Shape(t, rowLevel) && rowLevel < |addr| && InRange(t, addr, rowLevel)
  {
    Max(curClk, NextOnWalk(spec, t, c, addr, rowLevel))
  }

  lemma {:induction false} CheckIsNextOnWalk<C, S>(spec: Spec<C, S>, t: Node<C, S>, c: C, addr: seq<int>, clk: int,
                                                  rowLevel: int)
    requires Shape(t, rowLevel) && rowLevel < |addr| && InRange(t, addr, rowLevel)
    requires t.level <= spec.scope(c) && clk >= 0
    ensures Check(spec, t, c, addr, clk, rowLevel) <==> NextOnWalk(spec, t, c, addr, rowLevel) <= clk
    decreases t
  {
    if !Stops(spec, t, c, addr) {
      CheckIsNextOnWalk(spec, t.children[addr[t.level + 1]], c, addr, clk, rowLevel);
    }
  }

  /** At any clock the tree has reached, the recursive check and the loop of
      get_next give the same answer; a later clock never turns it back. */
  lemma CheckAgreesWithGetNext<C, S>(spec: Spec<C, S>, t: Node<C, S>, curClk: int, c: C, addr: seq<int>, clk: int,
                                     later: int, rowLevel: int)
    requires Shape(t, rowLevel) && rowLevel < |addr| && InRange(t, addr, rowLevel)
    requires t.level <= spec.scope(c) && 0 <= curClk <= clk <= later
    ensures Check(spec, t, c, addr, clk, rowLevel) <==> GetNext(spec, t, curClk, c, addr, rowLevel) <= clk
    ensures Check(spec, t, c, addr, clk, rowLevel) ==> Check(spec, t, c, addr, later, rowLevel)
  {
    CheckIsNextOnWalk(spec, t, c, addr, clk, rowLevel);
    CheckIsNextOnWalk(spec, t, c, addr, later, rowLevel);
  }

  // -------------------------------------------------- decode and update_state

  function Decode<C, S>(spec: Spec<C, S>, t: Node<C, S>, c: C, addr: seq<int>, ghost rowLevel: int): Verdict<C>
    requires Shape(t, rowLevel) && rowLevel < |addr| && InRange(t, addr, rowLevel)
    decreases t
  {
    var k := addr[t.level + 1];
    match spec.prereq(c, t, k)
    case Fault => Fault
    case Issue(p) => Issue(p)
    case Pass =>
      if k < 0 || t.children == [] then Issue(c)
      else Decode(spec, t.children[k], c, addr, rowLevel)
  }

  /** One level of the recursion. */
  lemma DecodeStep<C, S>(spec: Spec<C, S>, t: Node<C, S>, c: C, addr: seq<int>, rowLevel: int)
    requires Shape(t, rowLevel) && rowLevel < |addr| && InRange(t, addr, rowLevel)
    ensures var k := addr[t.level + 1]; var v := spec.prereq(c, t, k);
      && (!v.Pass? ==> Decode(spec, t, c, addr, rowLevel) == v)
      && (v.Pass? && (k < 0 || t.children == []) ==> Decode(spec, t, c, addr, rowLevel) == Issue(c))
      && (v.Pass? && k >= 0 && t.children != [] ==>
            && 0 <= k < |t.children| && Shape(t.children[k], rowLevel) && InRange(t.children[k], addr, rowLevel)
            && Decode(spec, t, c, addr, rowLevel) == Decode(spec, t.children[k], c, addr, rowLevel))
  {
    if t.children != [] && addr[t.level + 1] >= 0 { ChildFits(t, addr, rowLevel); }
    hide Shape, InRange;
  }

  /** check_row_hit and check_row_open: the first function on the way down answers. */
  function Ask<C, S>(ask: (C, Node<C, S>, int) -> Answer, t: Node<C, S>, c: C, addr: seq<int>,
        ghost rowLevel: int): Answer
    requires Shape(t, rowLevel) && rowLevel < |addr| && InRange(t, addr, rowLevel)
    decreases t
  {
    var k := addr[t.level + 1];
    if ask(c, t, k) != Unasked then ask(c, t, k)
    else if k < 0 || t.children == [] then Says(false)
    else Ask(ask, t.children[k], c, addr, rowLevel)
  }

  // -------------------------------------------------------- serving requests

  function Serve(s: Serving, delta: int, clk: int): Serving {
    var busy := s.since != -1 && s.cur > 0;
    var sum := if busy then s.sum + (clk - s.since) * s.cur else s.sum;
    var active := if busy then s.active + (clk - s.since) else s.active;
    var cur := s.cur + delta;
    Serving(cur, clk, if delta == 1 && cur == 1 then clk else s.begin, sum, active)
  }

  function UpdateServing<C, S>(t: Node<C, S>, addr: seq<int>, delta: int, clk: int, bankLevel: int,
                               ghost rowLevel: int): (r: Node<C, S>)
    requires Shape(t, rowLevel) && rowLevel < |addr| && InRange(t, addr, rowLevel)
    ensures SameTiming(r, t) && Shape(r, rowLevel)
    decreases t
  {
    var u := t.(serving := Serve(t.serving, delta, clk));
    var k := addr[t.level + 1];
    if k < 0 || t.children == [] || t.level > bankLevel then SameTimingRefl(t); u
    else
      SameTimingRefl(t);
      u.(children := t.children[k := UpdateServing(t.children[k], addr, delta, clk, bankLevel, rowLevel)])
  }

  lemma SameTimingRefl<C, S>(t: Node<C, S>)
    ensures SameTiming(t, t)
  {}
}
