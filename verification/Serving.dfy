/** The serving counters of update_serving_requests: their meaning as counts and as
    integrals over time, at every node of the tree. */
module Servings {
  import opened DramTree
  import opened Timing

  /** One update of one node: a request starts (+1) or ends (-1) at a clock. */
  datatype Change = Change(delta: int, clk: int)

  /** The counters after these changes. */
  function Folded(log: seq<Change>): Serving {
    if log == [] then IDLE
    else Serve(Folded(log[..|log| - 1]), log[|log| - 1].delta, log[|log| - 1].clk)
  }

  /** How many requests are in service just after clock `now`. */
  function CountAt(log: seq<Change>, now: int): int {
    if log == [] then 0
    else CountAt(log[..|log| - 1], now) + if log[|log| - 1].clk <= now then log[|log| - 1].delta else 0
  }

  /** The sum of the counts over the clocks 0, 1, ..., upto - 1. */
  function Integral(log: seq<Change>, upto: nat): int {
    if upto == 0 then 0 else Integral(log, upto - 1) + CountAt(log, upto - 1)
  }

  /** The number of clocks below `upto` with something in service. */
  function BusyClocks(log: seq<Change>, upto: nat): int {
    if upto == 0 then 0 else BusyClocks(log, upto - 1) + if CountAt(log, upto - 1) > 0 then 1 else 0
  }

  /** Clocks never go back. */
  ghost predicate Orderly(log: seq<Change>) {
    && (forall i :: 0 <= i < |log| ==> log[i].clk >= 0)
    && (forall i, j :: 0 <= i < j < |log| ==> log[i].clk <= log[j].clk)
  }

  lemma {:induction false} CountAfterAll(log: seq<Change>, now: int)
    requires forall i :: 0 <= i < |log| ==> log[i].clk <= now
    ensures CountAt(log, now) == Folded(log).cur
    decreases log
  {
    if log != [] { CountAfterAll(log[..|log| - 1], now); }
  }

  /** A change leaves the counts of the clocks before it alone. */
  lemma {:induction false} PastUnchanged(log: seq<Change>, e: Change, upto: nat)
    requires upto <= e.clk
    ensures Integral(log + [e], upto) == Integral(log, upto)
    ensures BusyClocks(log + [e], upto) == BusyClocks(log, upto)
  {
    if upto > 0 {
      PastUnchanged(log, e, upto - 1);
      assert (log + [e])[..|log|] == log;
    }
  }

  /** Between two changes the count stands still. */
  lemma {:induction false} Steady(log: seq<Change>, since: nat, upto: nat)
    requires since <= upto && forall i :: 0 <= i < |log| ==> log[i].clk <= since
    ensures Integral(log, upto) == Integral(log, since) + (upto - since) * Folded(log).cur
    ensures BusyClocks(log, upto) == BusyClocks(log, since) + if Folded(log).cur > 0 then upto - since else 0
    decreases upto
  {
    if since < upto {
      Steady(log, since, upto - 1);
      CountAfterAll(log, upto - 1);
      assert (upto - since) * Folded(log).cur == (upto - 1 - since) * Folded(log).cur + Folded(log).cur;
    }
  }

  /** Before the first change nothing is counted. */
  lemma {:induction false} NothingBefore(upto: nat)
    ensures Integral([], upto) == 0 && BusyClocks([], upto) == 0
  {
    if upto > 0 { NothingBefore(upto - 1); }
  }

  /** serving_requests and active_cycles are the time integrals, up to the last
      change, of the number in service and of "something is in service". */
  lemma {:induction false} CountersAreIntegrals(log: seq<Change>)
    requires Orderly(log) && log != []
    requires forall i :: 0 <= i <= |log| ==> Folded(log[..i]).cur >= 0
    ensures var s := Folded(log);
      s.since == log[|log| - 1].clk && s.sum == Integral(log, s.since) && s.active == BusyClocks(log, s.since)
    decreases log
  {
    var r, e := log[..|log| - 1], log[|log| - 1];
    assert log == r + [e];
    PastUnchanged(r, e, e.clk);
    if r == [] {
      NothingBefore(e.clk);
    } else {
      PrefixCounts(log);
      PrefixOrderly(log);
      hide *;
      CountersAreIntegrals(r);
      Steady(r, Folded(r).since, e.clk);
      ServeAdds(Folded(r), e.delta, e.clk);
    }
  }

  lemma PrefixCounts(log: seq<Change>)
    requires log != [] && forall i :: 0 <= i <= |log| ==> Folded(log[..i]).cur >= 0
    ensures var r := log[..|log| - 1];
      && (forall i :: 0 <= i <= |r| ==> Folded(r[..i]).cur >= 0) && Folded(r).cur >= 0
      && Folded(log) == Serve(Folded(r), log[|log| - 1].delta, log[|log| - 1].clk)
  {
    var r := log[..|log| - 1];
    assert forall i :: 0 <= i <= |r| ==> r[..i] == log[..i];
  }

  lemma PrefixOrderly(log: seq<Change>)
    requires Orderly(log) && |log| > 1
    ensures var r := log[..|log| - 1];
      && Orderly(r) && 0 <= r[|r| - 1].clk <= log[|log| - 1].clk
      && forall i :: 0 <= i < |r| ==> r[i].clk <= r[|r| - 1].clk
  {}

  /** What serving adds to the two sums since the last change. */
  lemma ServeAdds(s: Serving, delta: int, clk: int)
    requires s.since >= 0 && s.cur >= 0
    ensures var t := Serve(s, delta, clk);
      && t.since == clk && t.sum == s.sum + (clk - s.since) * s.cur
      && t.active == s.active + if s.cur > 0 then clk - s.since else 0
  {}

  /** The asserts of update_serving_requests: with changes of one that never take the
      count below zero, a service begins before it ends, and only an end empties it. */
  lemma {:induction false} ServingAsserts(log: seq<Change>)
    requires forall i :: 0 <= i < |log| ==> log[i].clk >= 0 && (log[i].delta == 1 || log[i].delta == -1)
    requires forall i :: 0 <= i <= |log| ==> Folded(log[..i]).cur >= 0
    ensures log != [] ==> Folded(log).begin >= 0 && (Folded(log).cur == 0 ==> log[|log| - 1].delta == -1)
    decreases log
  {
    if log != [] {
      var r := log[..|log| - 1];
      assert forall i :: 0 <= i <= |r| ==> r[..i] == log[..i];
      assert log[..|r|] == r && log[..|log|] == log;
      ServingAsserts(r);
    }
  }

  /** Change i is the last that found nothing in service and started a request. */
  predicate LastBegin(log: seq<Change>, i: nat) {
    && i < |log| && log[i].delta == 1 && Folded(log[..i]).cur == 0
    && forall j :: i < j < |log| && log[j].delta == 1 ==> Folded(log[..j]).cur != 0
  }

  /** begin_of_serving is the clock at which the node last went from idle to busy. */
  lemma {:induction false} BeginExact(log: seq<Change>) returns (i: nat)
    requires forall k :: 0 <= k < |log| ==> log[k].delta == 1 || log[k].delta == -1
    requires (forall k :: 0 <= k <= |log| ==> Folded(log[..k]).cur >= 0) && log != []
    ensures LastBegin(log, i) && Folded(log).begin == log[i].clk
    decreases log
  {
    var r := log[..|log| - 1];
    assert forall k :: 0 <= k <= |r| ==> r[..k] == log[..k];
    assert log[..|r|] == r && log[..|log|] == log;
    i := |r|;
    if r != [] && !(log[|r|].delta == 1 && Folded(r).cur == 0) {
      i := BeginExact(r);
      assert log[..i] == r[..i];
    }
  }

  // ------------------------------------------------------- over the tree

  /** One call of update_serving_requests on the root: the request's child indices. */
  datatype Call = Call(path: seq<int>, delta: int, clk: int)

  /** The changes seen by node p. */
  function Seen(calls: seq<Call>, p: seq<int>): seq<Change> {
    if calls == [] then []
    else
      var e := calls[|calls| - 1];
      Seen(calls[..|calls| - 1], p) + if p <= e.path then [Change(e.delta, e.clk)] else []
  }

  /** The counters of every node are those of the calls through it. */
  ghost predicate Counted<C, S>(t: Node<C, S>, calls: seq<Call>) {
    forall p :: At(t, p) ==> Sub(t, p).serving == Folded(Seen(calls, p))
  }

  /** A node is updated exactly when it lies on the path of the address. */
  lemma {:induction false} SubServing<C, S>(t: Node<C, S>, addr: seq<int>, delta: int, clk: int, bankLevel: int,
        rowLevel: int, p: seq<int>)
    requires Shape(t, rowLevel) && rowLevel < |addr| && InRange(t, addr, rowLevel) && rowLevel == bankLevel + 1
    requires At(t, p)
    ensures At(UpdateServing(t, addr, delta, clk, bankLevel, rowLevel), p) && |p| <= rowLevel - t.level
    ensures Sub(UpdateServing(t, addr, delta, clk, bankLevel, rowLevel), p).serving
         == if p <= addr[t.level + 1..] then Serve(Sub(t, p).serving, delta, clk) else Sub(t, p).serving
    decreases p
  {
    SubShape(t, p, rowLevel);
    var rest := addr[t.level + 1..];
    if p != [] {
      var k, q := p[0], p[1..];
      assert p == [k] + q && rest == [addr[t.level + 1]] + addr[t.level + 2..];
      if k == addr[t.level + 1] {
        SubServing(t.children[k], addr, delta, clk, bankLevel, rowLevel, q);
        assert p <= rest <==> q <= addr[t.level + 2..];
      }
    }
  }

  lemma {:induction false} SubServingBack<C, S>(t: Node<C, S>, addr: seq<int>, delta: int, clk: int, bankLevel: int,
        rowLevel: int, p: seq<int>)
    requires Shape(t, rowLevel) && rowLevel < |addr| && InRange(t, addr, rowLevel)
    requires At(UpdateServing(t, addr, delta, clk, bankLevel, rowLevel), p)
    ensures At(t, p)
    decreases p
  {
    if p != [] && p[0] == addr[t.level + 1] && t.children != [] && t.level <= bankLevel {
      SubServingBack(t.children[p[0]], addr, delta, clk, bankLevel, rowLevel, p[1..]);
    }
  }

  lemma SeenStep(calls: seq<Call>, e: Call, p: seq<int>)
    ensures Seen(calls + [e], p) == Seen(calls, p) + if p <= e.path then [Change(e.delta, e.clk)] else []
    ensures Folded(Seen(calls + [e], p)) ==
      if p <= e.path then Serve(Folded(Seen(calls, p)), e.delta, e.clk) else Folded(Seen(calls, p))
  {
    assert (calls + [e])[..|calls|] == calls;
    var seen := Seen(calls, p);
    assert (seen + [Change(e.delta, e.clk)])[..|seen|] == seen;
    assert seen + [] == seen;
  }

  lemma ServingStep<C, S>(t: Node<C, S>, calls: seq<Call>, addr: seq<int>, delta: int, clk: int, bankLevel: int,
        rowLevel: int)
    requires Shape(t, rowLevel) && rowLevel < |addr| && InRange(t, addr, rowLevel) && rowLevel == bankLevel + 1
        && t.level == 0
    requires Counted(t, calls)
    ensures Counted(UpdateServing(t, addr, delta, clk, bankLevel, rowLevel), calls + [Call(addr[1..], delta, clk)])
  {
    var u := UpdateServing(t, addr, delta, clk, bankLevel, rowLevel);
    var calls' := calls + [Call(addr[1..], delta, clk)];
    assert calls'[..|calls|] == calls;
    forall p | At(u, p) ensures Sub(u, p).serving == Folded(Seen(calls', p)) {
      SubServingBack(t, addr, delta, clk, bankLevel, rowLevel, p);
      SubServing(t, addr, delta, clk, bankLevel, rowLevel, p);
      SeenStep(calls, Call(addr[1..], delta, clk), p);
      assert Sub(t, p).serving == Folded(Seen(calls, p));
    }
  }
}
