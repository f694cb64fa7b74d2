/** The distances DDR3 commands keep, as JESD79-3 names them: which pair, at which level,
    how many clocks. A command passes `check` exactly when it keeps all of them. */
module Ddr3Distances {
  import opened DramTree
  import opened Timing
  import opened TimingRuns
  import opened Ddr3
  import opened Ddr3State

  predicate Read(c: Command) { c == RD || c == RDA }

  predicate Write(c: Command) { c == WR || c == WRA }

  /** d clocks from a to b are enough for two commands of one channel. */
  predicate ChannelGap(s: Speed, a: Command, b: Command, d: int) {
    (Read(a) && Read(b)) || (Write(a) && Write(b)) ==> d >= s.nBL
  }

  /** For two commands of one rank. */
  predicate RankGap(s: Speed, a: Command, b: Command, d: int) {
    && ((Read(a) && Read(b)) || (Write(a) && Write(b)) ==> d >= s.nCCD)
    && (Read(a) && Write(b) ==> d >= s.nCL + s.nCCD + 2 - s.nCWL)
    && (Write(a) && Read(b) ==> d >= s.nCWL + s.nBL + s.nWTR)
    && (a == RD && b == PREA ==> d >= s.nRTP)
    && (a == WR && b == PREA ==> d >= s.nCWL + s.nBL + s.nWR)
    && (a == ACT && b == ACT ==> d >= s.nRRD)
    && (a == ACT && b == PREA ==> d >= s.nRAS)
    && (a == PREA && b == ACT ==> d >= s.nRP)
    && ((a == PRE || a == PREA) && (b == REF || b == SRE) ==> d >= s.nRP)
    && (a == REF && (b == ACT || b == REF) ==> d >= s.nRFC)
    && PowerGap(s, a, b, d)
  }

  /** Around power-down and self-refresh. */
  predicate PowerGap(s: Speed, a: Command, b: Command, d: int) {
    && (Read(a) && b == PDE ==> d >= s.nCL + s.nBL + 1)
    && (a == WR && b == PDE ==> d >= s.nCWL + s.nBL + s.nWR)
    && (a == WRA && b == PDE ==> d >= s.nCWL + s.nBL + s.nWR + 1)
    && ((a == ACT || a == REF) && b == PDE ==> d >= 1)
    && (a == PDE && b == PDX ==> d >= s.nPD)
    && (a == PDX && b != PDX && b != SRX ==> d >= s.nXP)
    && (a == SRE && b == SRX ==> d >= s.nCKESR)
    && (a == SRX && (b == ACT || b == REF || b == PDE || b == SRE) ==> d >= s.nXS)
  }

  /** For two commands of different ranks. */
  predicate OtherRankGap(s: Speed, a: Command, b: Command, d: int) {
    && (Read(a) && (Read(b) || Write(b)) ==> d >= s.nBL + s.nRTRS)
    && (Read(a) && Write(b) ==> d >= s.nCL + s.nBL + s.nRTRS - s.nCWL)
    && (Write(a) && Read(b) ==> d >= s.nCWL + s.nBL + s.nRTRS - s.nCL)
  }

  /** For two commands of one bank. */
  predicate BankGap(s: Speed, a: Command, b: Command, d: int) {
    && (a == ACT && (Read(b) || Write(b)) ==> d >= s.nRCD)
    && (a == ACT && b == PRE ==> d >= s.nRAS)
    && (a == ACT && b == ACT ==> d >= s.nRC)
    && (a == PRE && b == ACT ==> d >= s.nRP)
    && (a == RD && b == PRE ==> d >= s.nRTP)
    && (a == WR && b == PRE ==> d >= s.nCWL + s.nBL + s.nWR)
    && (a == RDA && b == ACT ==> d >= s.nRTP + s.nRP)
    && (a == WRA && b == ACT ==> d >= s.nCWL + s.nBL + s.nWR + s.nRP)
  }

  predicate FullAddr(x: Issued<Command>) { |x.addr| == 5 }

  predicate SameRank(x: Issued<Command>, y: Issued<Command>)
    requires FullAddr(x) && FullAddr(y)
  {
    x.addr[RANK] == y.addr[RANK]
  }

  /** y keeps its distance from the earlier x. */
  predicate Apart(s: Speed, x: Issued<Command>, y: Issued<Command>)
    requires FullAddr(x) && FullAddr(y)
  {
    var d := y.clk - x.clk;
    && ChannelGap(s, x.cmd, y.cmd, d)
    && (if SameRank(x, y) then RankGap(s, x.cmd, y.cmd, d) else OtherRankGap(s, x.cmd, y.cmd, d))
    && (SameRank(x, y) && x.addr[BANK] == y.addr[BANK] ==> BankGap(s, x.cmd, y.cmd, d))
  }

  /** The activates of a rank. */
  function Activates(run: seq<Issued<Command>>, r: int): nat {
    if run == [] then 0
    else
      var x := run[|run| - 1];
      Activates(run[..|run| - 1], r) + if x.cmd == ACT && FullAddr(x) && x.addr[RANK] == r then 1 else 0
  }

  ghost predicate AllFull(run: seq<Issued<Command>>) { forall i :: 0 <= i < |run| ==> FullAddr(run[i]) }

  /** y keeps its distance from every command of the run, and from the activate that has
      three more of its rank after it. */
  ghost predicate Distances(s: Speed, run: seq<Issued<Command>>, y: Issued<Command>)
    requires AllFull(run) && FullAddr(y)
  {
    && (forall i :: 0 <= i < |run| ==> Apart(s, run[i], y))
    && (forall i :: 0 <= i < |run| ==> InWindow(s, run, y, i))
  }

  predicate InWindow(s: Speed, run: seq<Issued<Command>>, y: Issued<Command>, i: nat)
    requires i < |run| && FullAddr(run[i]) && FullAddr(y)
  {
    y.cmd == ACT && run[i].cmd == ACT && SameRank(run[i], y) && Activates(run[i + 1..], y.addr[RANK]) >= 3 ==>
      y.clk - run[i].clk >= s.nFAW
  }

  // -------------------------------------------------- reading the tables

  /** Entry e allows a command b that comes d clocks after one with n more issues since. */
  predicate EntryKept(e: Entry<Command>, b: Command, sib: bool, n: nat, d: int) {
    e.cmd == b && e.sibling == sib && (sib || n >= e.dist - 1) ==> d >= e.val
  }

  ghost predicate Within(es: seq<Entry<Command>>, b: Command, sib: bool, n: nat, d: int) {
    forall k :: 0 <= k < |es| ==> EntryKept(es[k], b, sib, n, d)
  }

  /** A table row has at most twelve entries. */
  lemma Unroll(es: seq<Entry<Command>>, b: Command, sib: bool, n: nat, d: int)
    requires |es| <= 12
    ensures Within(es, b, sib, n, d) <==>
      && (|es| > 0 ==> EntryKept(es[0], b, sib, n, d)) && (|es| > 1 ==> EntryKept(es[1], b, sib, n, d))
      && (|es| > 2 ==> EntryKept(es[2], b, sib, n, d)) && (|es| > 3 ==> EntryKept(es[3], b, sib, n, d))
      && (|es| > 4 ==> EntryKept(es[4], b, sib, n, d)) && (|es| > 5 ==> EntryKept(es[5], b, sib, n, d))
      && (|es| > 6 ==> EntryKept(es[6], b, sib, n, d)) && (|es| > 7 ==> EntryKept(es[7], b, sib, n, d))
      && (|es| > 8 ==> EntryKept(es[8], b, sib, n, d)) && (|es| > 9 ==> EntryKept(es[9], b, sib, n, d))
      && (|es| > 10 ==> EntryKept(es[10], b, sib, n, d)) && (|es| > 11 ==> EntryKept(es[11], b, sib, n, d))
  {
    hide EntryKept;
  }

  lemma ChannelRow(s: Speed, a: Command, b: Command, n: nat, d: int)
    ensures Within(ChannelTiming(s, a), b, false, n, d) <==> ChannelGap(s, a, b, d)
  {
    Unroll(ChannelTiming(s, a), b, false, n, d);
    hide Within;
  }

  lemma BankRow(s: Speed, a: Command, b: Command, n: nat, d: int)
    ensures Within(BankTiming(s, a), b, false, n, d) <==> BankGap(s, a, b, d)
    ensures Within(BankTiming(s, a), b, true, n, d)
  {
    Unroll(BankTiming(s, a), b, false, n, d);
    Unroll(BankTiming(s, a), b, true, n, d);
    hide Within;
  }

  lemma RankRow(s: Speed, a: Command, b: Command, n: nat, d: int)
    ensures Within(RankTiming(s, a), b, false, n, d) <==>
      RankGap(s, a, b, d) && (a == ACT && b == ACT && n >= 3 ==> d >= s.nFAW)
    ensures Within(RankTiming(s, a), b, true, n, d) <==> OtherRankGap(s, a, b, d)
  {
    hide *;
    if a in {RD, RDA} {
      ReadRow(s, a, b, n, d);
      ReadOther(s, a, b, n, d);
    } else if a in {WR, WRA} {
      WriteRow(s, a, b, n, d);
      WriteOther(s, a, b, n, d);
    } else if a in {ACT, PRE, PREA, REF} {
      RowRow(s, a, b, n, d);
    } else {
      PowerRow(s, a, b, n, d);
    }
  }

  lemma WithinConcat(es: seq<Entry<Command>>, fs: seq<Entry<Command>>, b: Command, sib: bool, n: nat, d: int)
    ensures Within(es + fs, b, sib, n, d) <==> Within(es, b, sib, n, d) && Within(fs, b, sib, n, d)
  {
    hide EntryKept;
    forall k | 0 <= k < |fs| ensures (es + fs)[|es| + k] == fs[k] {}
    if Within(es + fs, b, sib, n, d) {
      forall k | 0 <= k < |es| ensures EntryKept(es[k], b, sib, n, d) { assert (es + fs)[k] == es[k]; }
    }
  }

  lemma ReadPart(s: Speed, b: Command, n: nat, d: int)
    ensures Within(RankRead(s), b, false, n, d) <==>
      (Read(b) ==> d >= s.nCCD) && (Write(b) ==> d >= s.nCL + s.nCCD + 2 - s.nCWL)
  {
    Unroll(RankRead(s), b, false, n, d);
    hide Within;
  }

  lemma ReadRow(s: Speed, a: Command, b: Command, n: nat, d: int)
    requires a in {RD, RDA}
    ensures Within(RankTiming(s, a), b, false, n, d) <==>
      RankGap(s, a, b, d) && (a == ACT && b == ACT && n >= 3 ==> d >= s.nFAW)
  {
    var tail := if a == RD then [E(PREA, s.nRTP), E(PDE, s.nCL + s.nBL + 1)] else [E(PDE, s.nCL + s.nBL + 1)];
    assert RankTiming(s, a) == RankRead(s) + tail;
    hide RankTiming, RankRead;
    WithinConcat(RankRead(s), tail, b, false, n, d);
    ReadPart(s, b, n, d);
    Unroll(tail, b, false, n, d);
    hide Within;
  }

  lemma ReadOther(s: Speed, a: Command, b: Command, n: nat, d: int)
    requires a in {RD, RDA}
    ensures Within(RankTiming(s, a), b, true, n, d) <==> OtherRankGap(s, a, b, d)
  {
    Unroll(RankTiming(s, a), b, true, n, d);
    hide Within;
  }

  lemma WritePart(s: Speed, b: Command, n: nat, d: int)
    ensures Within(RankWrite(s), b, false, n, d) <==>
      (Write(b) ==> d >= s.nCCD) && (Read(b) ==> d >= s.nCWL + s.nBL + s.nWTR)
  {
    Unroll(RankWrite(s), b, false, n, d);
    hide Within;
  }

  lemma WriteRow(s: Speed, a: Command, b: Command, n: nat, d: int)
    requires a in {WR, WRA}
    ensures Within(RankTiming(s, a), b, false, n, d) <==>
      RankGap(s, a, b, d) && (a == ACT && b == ACT && n >= 3 ==> d >= s.nFAW)
  {
    var w := s.nCWL + s.nBL + s.nWR;
    var tail := if a == WR then [E(PREA, w), E(PDE, w)] else [E(PDE, w + 1)];
    assert RankTiming(s, a) == RankWrite(s) + tail;
    hide RankTiming, RankWrite;
    WithinConcat(RankWrite(s), tail, b, false, n, d);
    WritePart(s, b, n, d);
    Unroll(tail, b, false, n, d);
    hide Within;
  }

  lemma WriteOther(s: Speed, a: Command, b: Command, n: nat, d: int)
    requires a in {WR, WRA}
    ensures Within(RankTiming(s, a), b, true, n, d) <==> OtherRankGap(s, a, b, d)
  {
    Unroll(RankTiming(s, a), b, true, n, d);
    hide Within;
  }

  lemma RowRow(s: Speed, a: Command, b: Command, n: nat, d: int)
    requires a in {ACT, PRE, PREA, REF}
    ensures Within(RankTiming(s, a), b, false, n, d) <==>
      RankGap(s, a, b, d) && (a == ACT && b == ACT && n >= 3 ==> d >= s.nFAW)
    ensures Within(RankTiming(s, a), b, true, n, d) <==> OtherRankGap(s, a, b, d)
  {
    Unroll(RankTiming(s, a), b, false, n, d);
    Unroll(RankTiming(s, a), b, true, n, d);
    hide Within;
  }

  lemma PowerRow(s: Speed, a: Command, b: Command, n: nat, d: int)
    requires a in {PDE, PDX, SRE, SRX}
    ensures Within(RankTiming(s, a), b, false, n, d) <==>
      RankGap(s, a, b, d) && (a == ACT && b == ACT && n >= 3 ==> d >= s.nFAW)
    ensures Within(RankTiming(s, a), b, true, n, d) <==> OtherRankGap(s, a, b, d)
  {
    NoSiblings(RankTiming(s, a), b, n, d);
    if a == PDX {
      ExitRow(s, b, n, d);
    } else {
      Unroll(RankTiming(s, a), b, false, n, d);
    }
    hide Within, RankTiming;
  }

  lemma ExitRow(s: Speed, b: Command, n: nat, d: int)
    ensures Within(RankTiming(s, PDX), b, false, n, d) <==> (b != PDX && b != SRX ==> d >= s.nXP)
  {
    Unroll(RankTiming(s, PDX), b, false, n, d);
    hide Within;
  }

  lemma NoSiblings(es: seq<Entry<Command>>, b: Command, n: nat, d: int)
    requires forall k :: 0 <= k < |es| ==> !es[k].sibling
    ensures Within(es, b, true, n, d)
  {}

  // ---------------------------------------------------------- node by node

  /** The roles of a command at the nodes an address names. */
  lemma Roles(ch: int, r: int, b: int, addr: seq<int>)
    requires |addr| == 5 && addr[CHANNEL] == ch
    ensures RoleOf(ch, 0, [], addr) == Target
    ensures RoleOf(ch, 0, [r], addr) == if addr[RANK] == r then Target else Sibling
    ensures RoleOf(ch, 0, [r, b], addr) ==
      if addr[RANK] != r then Off else if addr[BANK] == b then Target else Sibling
  {
    assert [r][1..] == [] && [r, b][1..] == [b] && [b][1..] == [];
    assert RoleOf(r, 1, [], addr) == if addr[RANK] == r then Target else Sibling;
    assert RoleOf(b, 2, [], addr) == if addr[BANK] == b then Target else Sibling;
    assert RoleOf(r, 1, [b], addr) == if addr[RANK] != r then Off else RoleOf(b, 2, [], addr);
  }

  /** check looks at the channel, the rank, and for commands of a bank at the bank. */
  lemma Walk(s: Speed, t: Tree, y: Issued<Command>, ch: int, nRanks: nat, nBanks: nat, p: seq<int>)
    requires Channel(t, ch, nRanks, nBanks) && CmdAddrOk(y.cmd, y.addr, ch, nRanks, nBanks)
    ensures OnWalk(Tables(s), t, y.cmd, y.addr, p, ROW) <==>
      || p == [] || p == [y.addr[RANK]]
      || (p == [y.addr[RANK], y.addr[BANK]] && Scope(y.cmd) > RANK)
  {
    var r := y.addr[RANK];
    var u := t.children[r];
    assert IsRank(u, r, nBanks);
    assert [r][1..] == [] && [r, y.addr[BANK]][1..] == [y.addr[BANK]];
    assert OnWalk(Tables(s), t, y.cmd, y.addr, p, ROW) <==>
      p == [] || (p[0] == r && OnWalk(Tables(s), u, y.cmd, y.addr, p[1..], ROW));
    if p != [] {
      assert p == [p[0]] + p[1..];
      WalkRank(s, u, y, r, nBanks, p[1..]);
    }
  }

  lemma WalkRank(s: Speed, u: Tree, y: Issued<Command>, r: int, nBanks: nat, q: seq<int>)
    requires IsRank(u, r, nBanks) && |y.addr| == 5 && (y.addr[BANK] == -1 || 0 <= y.addr[BANK] < nBanks)
    requires Scope(y.cmd) > RANK ==> y.addr[BANK] >= 0
    ensures OnWalk(Tables(s), u, y.cmd, y.addr, q, ROW) <==> q == [] || (q == [y.addr[BANK]] && Scope(y.cmd) > RANK)
  {
    var b := y.addr[BANK];
    assert [b][1..] == [];
    if q != [] && b >= 0 {
      var w := u.children[b];
      assert IsBank(w, b);
      assert OnWalk(Tables(s), w, y.cmd, y.addr, q[1..], ROW) <==> q[1..] == [];
      assert q == [q[0]] + q[1..];
    }
  }

  /** At a node, y respects a command exactly when y is within the node's table. */
  lemma RespectsIsWithin(s: Speed, ch: int, run: seq<Issued<Command>>, y: Issued<Command>, p: seq<int>, i: int)
    requires 0 <= i < |run| && |p| < |run[i].addr|
    ensures var x := run[i]; var es := TimingTable(s, |p|, x.cmd); var d := y.clk - x.clk;
      Respects(Tables(s), ch, run, y, p, i) <==>
        match RoleOf(ch, 0, p, x.addr)
        case Target => Within(es, y.cmd, false, |Times(run[i + 1..], ch, p, x.cmd, Target)|, d)
        case Sibling => Within(es, y.cmd, true, 0, d)
        case Off => true
  {
    var x := run[i];
    var es := TimingTable(s, |p|, x.cmd);
    var role := RoleOf(ch, 0, p, x.addr);
    var n := |Times(run[i + 1..], ch, p, x.cmd, Target)|;
    assert Tables(s).timing(|p|, x.cmd) == es;
    hide TimingTable, Times, RoleOf;
    forall k | 0 <= k < |es|
      ensures Binds(Tables(s), run, ch, p, y.cmd, i, k) <==>
        es[k].cmd == y.cmd && RoleIn(es[k]) == role && (es[k].sibling || n >= es[k].dist - 1)
    {}
    hide Binds, Tables;
    if Respects(Tables(s), ch, run, y, p, i) {
      forall k | 0 <= k < |es| && Binds(Tables(s), run, ch, p, y.cmd, i, k) ensures y.clk - x.clk >= es[k].val {}
    }
  }

  // ------------------------------------------------------- the main theorems

  ghost predicate OnChannel(run: seq<Issued<Command>>, ch: int) {
    forall i :: 0 <= i < |run| ==> FullAddr(run[i]) && run[i].addr[CHANNEL] == ch
  }

  lemma {:induction false} TimesAreActivates(run: seq<Issued<Command>>, ch: int, r: int)
    requires OnChannel(run, ch)
    ensures |Times(run, ch, [r], ACT, Target)| == Activates(run, r)
    decreases run
  {
    if run != [] {
      var x := run[|run| - 1];
      TimesAreActivates(run[..|run| - 1], ch, r);
      Roles(ch, r, 0, x.addr);
      hide RoleOf;
    }
  }

  /** y respects command i of the run at every node exactly when it keeps its distances. */
  lemma NodesAreGaps(s: Speed, ch: int, run: seq<Issued<Command>>, y: Issued<Command>, i: nat)
    requires i < |run| && OnChannel(run, ch) && FullAddr(y) && y.addr[CHANNEL] == ch
    ensures var r, b := y.addr[RANK], y.addr[BANK];
      && Respects(Tables(s), ch, run, y, [], i) && Respects(Tables(s), ch, run, y, [r], i)
      && (Scope(y.cmd) > RANK ==> Respects(Tables(s), ch, run, y, [r, b], i))
      <==> Apart(s, run[i], y) && InWindow(s, run, y, i)
  {
    AtChannel(s, ch, run, y, i);
    AtRank(s, ch, run, y, i);
    AtBank(s, ch, run, y, i);
    if Scope(y.cmd) <= RANK { BankFree(s, run[i].cmd, y.cmd, y.clk - run[i].clk); }
    hide Respects, ChannelGap, RankGap, OtherRankGap, BankGap, Scope, Tables, Activates;
  }

  lemma AtChannel(s: Speed, ch: int, run: seq<Issued<Command>>, y: Issued<Command>, i: nat)
    requires i < |run| && OnChannel(run, ch)
    ensures Respects(Tables(s), ch, run, y, [], i) <==> ChannelGap(s, run[i].cmd, y.cmd, y.clk - run[i].clk)
  {
    Roles(ch, 0, 0, run[i].addr);
    RespectsIsWithin(s, ch, run, y, [], i);
    ChannelRow(s, run[i].cmd, y.cmd, |Times(run[i + 1..], ch, [], run[i].cmd, Target)|, y.clk - run[i].clk);
    hide RoleOf, Times, Respects, Within, ChannelTiming, ChannelGap;
  }

  lemma AtRank(s: Speed, ch: int, run: seq<Issued<Command>>, y: Issued<Command>, i: nat)
    requires i < |run| && OnChannel(run, ch) && FullAddr(y)
    ensures var x, d := run[i], y.clk - run[i].clk;
      Respects(Tables(s), ch, run, y, [y.addr[RANK]], i) <==>
        if SameRank(x, y) then RankGap(s, x.cmd, y.cmd, d) && InWindow(s, run, y, i)
        else OtherRankGap(s, x.cmd, y.cmd, d)
  {
    var x, r, d := run[i], y.addr[RANK], y.clk - run[i].clk;
    Roles(ch, r, 0, x.addr);
    TimesAreActivates(run[i + 1..], ch, r);
    var m := |Times(run[i + 1..], ch, [r], x.cmd, Target)|;
    RespectsIsWithin(s, ch, run, y, [r], i);
    RankRow(s, x.cmd, y.cmd, m, d);
    RankRow(s, x.cmd, y.cmd, 0, d);
    hide RoleOf, Times, Respects, Within, RankTiming, RankGap, OtherRankGap, Activates;
  }

  lemma AtBank(s: Speed, ch: int, run: seq<Issued<Command>>, y: Issued<Command>, i: nat)
    requires i < |run| && OnChannel(run, ch) && FullAddr(y)
    ensures var x, d := run[i], y.clk - run[i].clk;
      Respects(Tables(s), ch, run, y, [y.addr[RANK], y.addr[BANK]], i) <==>
        (SameRank(x, y) && x.addr[BANK] == y.addr[BANK] ==> BankGap(s, x.cmd, y.cmd, d))
  {
    var x, r, b, d := run[i], y.addr[RANK], y.addr[BANK], y.clk - run[i].clk;
    Roles(ch, r, b, x.addr);
    RespectsIsWithin(s, ch, run, y, [r, b], i);
    BankRow(s, x.cmd, y.cmd, |Times(run[i + 1..], ch, [r, b], x.cmd, Target)|, d);
    BankRow(s, x.cmd, y.cmd, 0, d);
    hide RoleOf, Times, Respects, Within, BankTiming, BankGap;
  }

  /** No distance at a bank is asked of commands for a whole rank. */
  lemma BankFree(s: Speed, a: Command, b: Command, d: int)
    requires Scope(b) <= RANK
    ensures BankGap(s, a, b, d)
  {}

  /** A command respects the DDR3 tables exactly when it keeps its distances. */
  lemma AllowedIsDistances(s: Speed, t: Tree, run: seq<Issued<Command>>, y: Issued<Command>, ch: int, nRanks: nat,
        nBanks: nat)
    requires Channel(t, ch, nRanks, nBanks) && CmdAddrOk(y.cmd, y.addr, ch, nRanks, nBanks) && OnChannel(run, ch)
    ensures AllFull(run) && FullAddr(y)
    ensures Allowed(Tables(s), t, run, y.cmd, y.addr, y.clk, ROW) <==> Distances(s, run, y)
  {
    var r, b := y.addr[RANK], y.addr[BANK];
    AllowedPairwise(Tables(s), t, run, y, ROW);
    forall p ensures OnWalk(Tables(s), t, y.cmd, y.addr, p, ROW) <==>
      p == [] || p == [r] || (p == [r, b] && Scope(y.cmd) > RANK)
    {
      Walk(s, t, y, ch, nRanks, nBanks, p);
    }
    hide Allowed, OnWalk, Respects, Apart, InWindow, Tables, Scope;
    if Allowed(Tables(s), t, run, y.cmd, y.addr, y.clk, ROW) {
      forall i | 0 <= i < |run| ensures Apart(s, run[i], y) && InWindow(s, run, y, i) {
        NodesAreGaps(s, ch, run, y, i);
      }
    }
    if Distances(s, run, y) {
      forall p, i | OnWalk(Tables(s), t, y.cmd, y.addr, p, ROW) && 0 <= i < |run|
        ensures Respects(Tables(s), t.id, run, y, p, i)
      {
        NodesAreGaps(s, ch, run, y, i);
      }
    }
  }

  /** The tree of a run lets a command through exactly when it keeps every distance from
      what has been issued. */
  lemma CheckIsDistances(s: Speed, t: Tree, run: seq<Issued<Command>>, y: Issued<Command>, ch: int, nRanks: nat,
        nBanks: nat)
    requires Channel(t, ch, nRanks, nBanks) && CmdAddrOk(y.cmd, y.addr, ch, nRanks, nBanks) && OnChannel(run, ch)
    requires Explains(Tables(s), t, run) && y.clk >= 0
    ensures AllFull(run) && FullAddr(y) && InRange(t, y.addr, ROW)
    ensures Check(Tables(s), t, y.cmd, y.addr, y.clk, ROW) <==> Distances(s, run, y)
  {
    AddrFits(s, t, y.cmd, y.addr, y.clk, ch, nRanks, nBanks);
    hide Tables, Explains, Check, Allowed, CmdAddrOk, Distances, InRange, Fits;
    CheckExact(Tables(s), t, run, y.cmd, y.addr, y.clk, ROW);
    AllowedIsDistances(s, t, run, y, ch, nRanks, nBanks);
  }

  /** A run is safe exactly when every command keeps its distances from those before it. */
  lemma SafeIsDistances(s: Speed, t: Tree, run: seq<Issued<Command>>, ch: int, nRanks: nat, nBanks: nat)
    requires Channel(t, ch, nRanks, nBanks)
    requires forall j :: 0 <= j < |run| ==> CmdAddrOk(run[j].cmd, run[j].addr, ch, nRanks, nBanks)
    ensures AllFull(run)
    ensures Safe(Tables(s), t, run, ROW) <==> forall j :: 0 <= j < |run| ==> Distances(s, run[..j], run[j])
  {
    forall j | 0 <= j < |run|
      ensures ROW < |run[j].addr| && AllFull(run[..j])
      ensures Allowed(Tables(s), t, run[..j], run[j].cmd, run[j].addr, run[j].clk, ROW)
          <==> Distances(s, run[..j], run[j])
    {
      AllowedIsDistances(s, t, run[..j], run[j], ch, nRanks, nBanks);
    }
    hide Allowed, Distances, Tables;
  }
}
