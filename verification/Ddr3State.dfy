/** The state half of a DDR3 channel: what decode and update_state do to ranks and
    banks, seen through a flat view of the tree. */
module Ddr3State {
  import opened DramTree
  import opened Timing
  import opened TimingRuns
  import opened Ddr3

  datatype Bank = Bank(state: State, rows: map<int, State>)

  datatype Rank = Rank(state: State, banks: seq<Bank>)

  function BankOf(n: Tree): Bank { Bank(n.state, n.rows) }

  function RankOf(n: Tree): Rank {
    Rank(n.state, seq(|n.children|, b requires 0 <= b < |n.children| => BankOf(n.children[b])))
  }

  function View(t: Tree): seq<Rank> {
    seq(|t.children|, r requires 0 <= r < |t.children| => RankOf(t.children[r]))
  }

  ghost predicate IsBank(w: Tree, id: int) {
    Shape(w, ROW) && w.level == BANK && w.id == id && w.children == []
  }

  ghost predicate IsRank(u: Tree, id: int, nBanks: nat) {
    && Shape(u, ROW) && u.level == RANK && u.id == id && |u.children| == nBanks
    && forall b :: 0 <= b < nBanks ==> IsBank(u.children[b], b)
  }

  /** A channel of `nRanks` ranks with `nBanks` banks each. */
  ghost predicate Channel(t: Tree, ch: int, nRanks: nat, nBanks: nat) {
    && Shape(t, ROW) && t.level == CHANNEL && t.id == ch && |t.children| == nRanks
    && forall r :: 0 <= r < nRanks ==> IsRank(t.children[r], r, nBanks)
  }

  /** An address the memory can send: a full vector for reads and writes, only the
      channel and the rank for rank-wide requests. */
  predicate AddrOk(addr: seq<int>, ch: int, nRanks: nat, nBanks: nat) {
    && |addr| == 5 && addr[CHANNEL] == ch && 0 <= addr[RANK] < nRanks
    && (addr[BANK] == -1 || (0 <= addr[BANK] < nBanks && 0 <= addr[ROW]))
  }

  /** Commands below rank scope need a bank. */
  predicate CmdAddrOk(c: Command, addr: seq<int>, ch: int, nRanks: nat, nBanks: nat) {
    AddrOk(addr, ch, nRanks, nBanks) && (Scope(c) > RANK ==> addr[BANK] >= 0)
  }

  lemma AddrFits(s: Speed, t: Tree, c: Command, addr: seq<int>, clk: int, ch: int, nRanks: nat, nBanks: nat)
    requires Channel(t, ch, nRanks, nBanks) && AddrOk(addr, ch, nRanks, nBanks) && clk >= 0
    ensures InRange(t, addr, ROW)
    ensures CmdAddrOk(c, addr, ch, nRanks, nBanks) ==> Fits(Tables(s), t, Issued(c, addr, clk), ROW)
  {
    var u := t.children[addr[RANK]];
    if addr[BANK] >= 0 && u.children != [] {
      var v := u.children[addr[BANK]];
      assert InRange(v, addr, ROW) && Descends(Tables(s), v, c, addr, ROW);
    }
    assert InRange(u, addr, ROW);
    if CmdAddrOk(c, addr, ch, nRanks, nBanks) {
      assert Descends(Tables(s), u, c, addr, ROW);
    }
  }

  // ------------------------------------------------------ decode on the view

  function DecodeView(v: seq<Rank>, c: Command, addr: seq<int>): Verdict<Command>
    requires |addr| == 5 && 0 <= addr[RANK] < |v| && (addr[BANK] < 0 || addr[BANK] < |v[addr[RANK]].banks|)
  {
    var rank := v[addr[RANK]];
    match c
    case REF => if forall b :: 0 <= b < |rank.banks| ==> rank.banks[b].state == Closed then Issue(REF) else Issue(PREA)
    case RD => DecodeAccess(rank, c, addr)
    case WR => DecodeAccess(rank, c, addr)
    case PDE =>
      (match rank.state
       case PowerUp => Issue(PDE)
       case ActPowerDown => Issue(PDE)
       case PrePowerDown => Issue(PDE)
       case SelfRefresh => Issue(SRX)
       case _ => Fault)
    case SRE =>
      (match rank.state
       case PowerUp => Issue(SRE)
       case ActPowerDown => Issue(PDX)
       case PrePowerDown => Issue(PDX)
       case SelfRefresh => Issue(SRE)
       case _ => Fault)
    case _ => Issue(c)
  }

  function DecodeAccess(rank: Rank, c: Command, addr: seq<int>): Verdict<Command>
    requires |addr| == 5 && (addr[BANK] < 0 || addr[BANK] < |rank.banks|)
  {
    var up := RankReady(rank.state);
    if !up.Pass? then up
    else if addr[BANK] < 0 then Issue(c)
    else BankReady(rank.banks[addr[BANK]].state, rank.banks[addr[BANK]].rows, c, addr[ROW])
  }

  lemma DecodeIsView(s: Speed, t: Tree, c: Command, addr: seq<int>, ch: int, nRanks: nat, nBanks: nat)
    requires Channel(t, ch, nRanks, nBanks) && AddrOk(addr, ch, nRanks, nBanks) && nBanks > 0
    ensures InRange(t, addr, ROW)
    ensures Decode(Tables(s), t, c, addr, ROW) == DecodeView(View(t), c, addr)
  {
    AddrFits(s, t, c, addr, 0, ch, nRanks, nBanks);
    var u := t.children[addr[RANK]];
    var spec := Tables(s);
    assert Decode(spec, t, c, addr, ROW) == Decode(spec, u, c, addr, ROW);
    var rank := View(t)[addr[RANK]];
    assert rank == RankOf(u);
    forall b | 0 <= b < |u.children| ensures rank.banks[b].state == u.children[b].state {}
    if spec.prereq(c, u, addr[BANK]).Pass? && addr[BANK] >= 0 {
      var v := u.children[addr[BANK]];
      assert Decode(spec, u, c, addr, ROW) == Decode(spec, v, c, addr, ROW);
      assert v.level == BANK;
    }
  }

  // ------------------------------------------------------ effects on the view

  function Close(b: Bank): Bank { Bank(Closed, map[]) }

  function StepBank(b: Bank, c: Command, row: int): Bank {
    match c
    case ACT => Bank(Opened, b.rows[row := Opened])
    case PRE => Close(b)
    case RDA => Close(b)
    case WRA => Close(b)
    case _ => b
  }

  function StepRank(k: Rank, c: Command, addr: seq<int>): Rank
    requires |addr| == 5 && (Scope(c) > RANK ==> 0 <= addr[BANK] < |k.banks|)
  {
    match c
    case PREA => k.(banks := seq(|k.banks|, b requires 0 <= b < |k.banks| => Close(k.banks[b])))
    case REF => k
    case PDE =>
      var idle := forall b :: 0 <= b < |k.banks| ==> k.banks[b].state == Closed;
      k.(state := if idle then PrePowerDown else ActPowerDown)
    case PDX => k.(state := PowerUp)
    case SRE => k.(state := SelfRefresh)
    case SRX => k.(state := PowerUp)
    case _ => k.(banks := k.banks[addr[BANK] := StepBank(k.banks[addr[BANK]], c, addr[ROW])])
  }

  function StepView(v: seq<Rank>, c: Command, addr: seq<int>): seq<Rank>
    requires |addr| == 5 && 0 <= addr[RANK] < |v| && (Scope(c) > RANK ==> 0 <= addr[BANK] < |v[addr[RANK]].banks|)
  {
    v[addr[RANK] := StepRank(v[addr[RANK]], c, addr)]
  }

  /** What a command does to each rank and each bank: a precharge shuts the bank it names
      or, for the whole rank, every bank; auto-precharge shuts the bank too; an activate
      opens one more row; entering power-down tells active from precharged by the banks. */
  lemma StepExact(v: seq<Rank>, c: Command, addr: seq<int>, r: int, b: int)
    requires |addr| == 5 && 0 <= addr[RANK] < |v| && (Scope(c) > RANK ==> 0 <= addr[BANK] < |v[addr[RANK]].banks|)
    requires 0 <= r < |v| && 0 <= b < |v[r].banks|
    ensures var u := StepView(v, c, addr);
      && |u| == |v| && |u[r].banks| == |v[r].banks|
      && u[r].state == (if r != addr[RANK] then v[r].state
           else if c == PDE then if exists k :: 0 <= k < |v[r].banks| && v[r].banks[k].state != Closed
                                 then ActPowerDown else PrePowerDown
           else if c == SRE then SelfRefresh
           else if c == PDX || c == SRX then PowerUp else v[r].state)
      && u[r].banks[b] == (if r != addr[RANK] then v[r].banks[b]
           else if c == PREA || (b == addr[BANK] && c in {PRE, RDA, WRA}) then Bank(Closed, map[])
           else if b == addr[BANK] && c == ACT then Bank(Opened, v[r].banks[b].rows[addr[ROW] := Opened])
           else v[r].banks[b])
  {}

  lemma RankReplace(u: Tree, b: nat, w: Tree, id: int, nBanks: nat)
    requires IsRank(u, id, nBanks) && b < nBanks && IsBank(w, b)
    ensures IsRank(u.(children := u.children[b := w]), id, nBanks)
    ensures RankOf(u.(children := u.children[b := w])) == RankOf(u).(banks := RankOf(u).banks[b := BankOf(w)])
  {
    assert RankOf(u.(children := u.children[b := w])).banks == RankOf(u).banks[b := BankOf(w)];
  }

  lemma RankWideEffect(u: Tree, c: Command, addr: seq<int>, id: int, nBanks: nat)
    requires IsRank(u, id, nBanks) && |addr| == 5 && Scope(c) == RANK
    ensures IsRank(Effect(c, u, addr[BANK]), id, nBanks)
    ensures RankOf(Effect(c, u, addr[BANK])) == StepRank(RankOf(u), c, addr)
  {
    forall b | 0 <= b < nBanks ensures RankOf(u).banks[b].state == u.children[b].state {}
    assert RankOf(Effect(c, u, addr[BANK])).banks == StepRank(RankOf(u), c, addr).banks;
  }

  /** A command for one bank changes that bank only, by its lambda. */
  lemma BankUpdateIs(s: Speed, u: Tree, c: Command, addr: seq<int>, id: int, nBanks: nat)
    requires EffectOk(Tables(s)) && IsRank(u, id, nBanks) && |addr| == 5 && Scope(c) > RANK && 0 <= addr[BANK] < nBanks
    ensures Descends(Tables(s), u, c, addr, ROW) && IsBank(Effect(c, u.children[addr[BANK]], addr[ROW]), addr[BANK])
    ensures var b := addr[BANK];
      UpdateState(Tables(s), u, c, addr, ROW)
      == u.(children := u.children[b := Effect(c, u.children[b], addr[ROW])])
  {
    var spec := Tables(s);
    var w := u.children[addr[BANK]];
    hide EffectOk, TimingTable;
    assert Descends(spec, w, c, addr, ROW);
    assert spec.effect(c, u, addr[BANK]) == u;
    assert UpdateState(spec, w, c, addr, ROW) == Effect(c, w, addr[ROW]);
  }

  /** A command for a rank goes no further than its lambda. */
  lemma RankUpdateIs(s: Speed, u: Tree, c: Command, addr: seq<int>, id: int, nBanks: nat)
    requires EffectOk(Tables(s)) && IsRank(u, id, nBanks) && |addr| == 5 && Scope(c) <= RANK
    ensures Scope(c) == RANK && Descends(Tables(s), u, c, addr, ROW)
    ensures UpdateState(Tables(s), u, c, addr, ROW) == Effect(c, u, addr[BANK])
  {
    hide EffectOk, TimingTable, Effect;
  }

  lemma RankUpdateIsView(s: Speed, u: Tree, c: Command, addr: seq<int>, id: int, nBanks: nat)
    requires IsRank(u, id, nBanks) && |addr| == 5 && (Scope(c) > RANK ==> 0 <= addr[BANK] < nBanks)
    ensures EffectOk(Tables(s)) && Descends(Tables(s), u, c, addr, ROW)
    ensures IsRank(UpdateState(Tables(s), u, c, addr, ROW), id, nBanks)
    ensures RankOf(UpdateState(Tables(s), u, c, addr, ROW)) == StepRank(RankOf(u), c, addr)
  {
    TablesOk(s);
    if Scope(c) > RANK {
      var b := addr[BANK];
      BankUpdateIs(s, u, c, addr, id, nBanks);
      RankReplace(u, b, Effect(c, u.children[b], addr[ROW]), id, nBanks);
      hide IsRank, IsBank, Tables, UpdateState, Descends, EffectOk, Effect;
    } else {
      RankUpdateIs(s, u, c, addr, id, nBanks);
      hide *;
      RankWideEffect(u, c, addr, id, nBanks);
    }
  }

  lemma ViewUpdate(t: Tree, r: nat, u: Tree)
    requires r < |t.children|
    ensures View(t.(children := t.children[r := u])) == View(t)[r := RankOf(u)]
  {}

  lemma ChannelUpdate(t: Tree, r: nat, u: Tree, ch: int, nRanks: nat, nBanks: nat)
    requires Channel(t, ch, nRanks, nBanks) && r < nRanks && IsRank(u, r, nBanks)
    ensures Channel(t.(children := t.children[r := u]), ch, nRanks, nBanks)
  {}

  lemma UpdateStateIsView(s: Speed, t: Tree, c: Command, addr: seq<int>, ch: int, nRanks: nat, nBanks: nat)
    requires Channel(t, ch, nRanks, nBanks) && CmdAddrOk(c, addr, ch, nRanks, nBanks)
    ensures EffectOk(Tables(s)) && Descends(Tables(s), t, c, addr, ROW)
    ensures Channel(UpdateState(Tables(s), t, c, addr, ROW), ch, nRanks, nBanks)
    ensures View(UpdateState(Tables(s), t, c, addr, ROW)) == StepView(View(t), c, addr)
  {
    TablesOk(s);
    AddrFits(s, t, c, addr, 0, ch, nRanks, nBanks);
    var r := addr[RANK];
    RankUpdateIsView(s, t.children[r], c, addr, r, nBanks);
    var u' := UpdateState(Tables(s), t.children[r], c, addr, ROW);
    assert Tables(s).effect(c, t, r) == t;
    ViewUpdate(t, r, u');
    ChannelUpdate(t, r, u', ch, nRanks, nBanks);
  }

  /** update_timing and the serving counters leave the view alone. */
  lemma BankTimingKeepsView(s: Speed, w: Tree, c: Command, addr: seq<int>, clk: int, id: int)
    requires TableOk(Tables(s)) && TreeOk(Tables(s), w) && IsBank(w, id) && |addr| == 5
    ensures IsBank(UpdateTiming(Tables(s), w, c, addr, clk, ROW), id)
    ensures BankOf(UpdateTiming(Tables(s), w, c, addr, clk, ROW)) == BankOf(w)
  {}

  lemma RankTimingKeepsView(s: Speed, u: Tree, c: Command, addr: seq<int>, clk: int, id: int, nBanks: nat)
    requires TableOk(Tables(s)) && TreeOk(Tables(s), u) && IsRank(u, id, nBanks) && |addr| == 5
    ensures IsRank(UpdateTiming(Tables(s), u, c, addr, clk, ROW), id, nBanks)
    ensures RankOf(UpdateTiming(Tables(s), u, c, addr, clk, ROW)) == RankOf(u)
  {
    forall b | 0 <= b < nBanks
      ensures IsBank(UpdateTiming(Tables(s), u.children[b], c, addr, clk, ROW), b)
      ensures BankOf(UpdateTiming(Tables(s), u.children[b], c, addr, clk, ROW)) == BankOf(u.children[b])
    {
      BankTimingKeepsView(s, u.children[b], c, addr, clk, b);
    }
    hide Tables, BankOf, IsBank, TargetUpdate, SiblingUpdate;
    assert RankOf(UpdateTiming(Tables(s), u, c, addr, clk, ROW)).banks == RankOf(u).banks;
  }

  lemma TimingKeepsView(s: Speed, t: Tree, c: Command, addr: seq<int>, clk: int, ch: int, nRanks: nat, nBanks: nat)
    requires TableOk(Tables(s)) && TreeOk(Tables(s), t) && Channel(t, ch, nRanks, nBanks) && |addr| == 5
    ensures Channel(UpdateTiming(Tables(s), t, c, addr, clk, ROW), ch, nRanks, nBanks)
    ensures View(UpdateTiming(Tables(s), t, c, addr, clk, ROW)) == View(t)
  {
    forall r | 0 <= r < nRanks
      ensures IsRank(UpdateTiming(Tables(s), t.children[r], c, addr, clk, ROW), r, nBanks)
      ensures RankOf(UpdateTiming(Tables(s), t.children[r], c, addr, clk, ROW)) == RankOf(t.children[r])
    {
      RankTimingKeepsView(s, t.children[r], c, addr, clk, r, nBanks);
    }
    assert View(UpdateTiming(Tables(s), t, c, addr, clk, ROW)) == View(t);
  }

  lemma UpdateIsView(s: Speed, t: Tree, x: Issued<Command>, ch: int, nRanks: nat, nBanks: nat)
    requires Channel(t, ch, nRanks, nBanks) && CmdAddrOk(x.cmd, x.addr, ch, nRanks, nBanks) && x.clk >= 0
    requires TreeOk(Tables(s), t)
    ensures TableOk(Tables(s)) && EffectOk(Tables(s)) && Fits(Tables(s), t, x, ROW)
    ensures Channel(Update(Tables(s), t, x, ROW), ch, nRanks, nBanks)
    ensures View(Update(Tables(s), t, x, ROW)) == StepView(View(t), x.cmd, x.addr)
  {
    TablesOk(s);
    AddrFits(s, t, x.cmd, x.addr, x.clk, ch, nRanks, nBanks);
    UpdateStateIsView(s, t, x.cmd, x.addr, ch, nRanks, nBanks);
    var u := UpdateState(Tables(s), t, x.cmd, x.addr, ROW);
    SameTimingShape(Tables(s), u, t, x.addr, ROW);
    TimingKeepsView(s, u, x.cmd, x.addr, x.clk, ch, nRanks, nBanks);
  }

  lemma ServingKeepsView(t: Tree, addr: seq<int>, delta: int, clk: int, ch: int, nRanks: nat, nBanks: nat)
    requires Channel(t, ch, nRanks, nBanks) && AddrOk(addr, ch, nRanks, nBanks)
    ensures InRange(t, addr, ROW)
    ensures Channel(UpdateServing(t, addr, delta, clk, BANK, ROW), ch, nRanks, nBanks)
    ensures View(UpdateServing(t, addr, delta, clk, BANK, ROW)) == View(t)
  {
    AddrFits(Speed(0, 0, 0, 0, 0, 0, 0, 0, 0, 0, 0, 0, 0, 0, 0, 0, 0, 0, 0), t, RD, addr, 0, ch, nRanks, nBanks);
    var t' := UpdateServing(t, addr, delta, clk, BANK, ROW);
    var r := addr[RANK];
    var u := t.children[r];
    var u' := UpdateServing(u, addr, delta, clk, BANK, ROW);
    assert t'.children == t.children[r := u'];
    if addr[BANK] >= 0 && u.children != [] {
      var w' := UpdateServing(u.children[addr[BANK]], addr, delta, clk, BANK, ROW);
      assert u'.children == u.children[addr[BANK] := w'];
    }
    assert RankOf(u').banks == RankOf(u).banks;
    assert View(t') == View(t);
  }
}
