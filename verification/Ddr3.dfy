/** DDR3 (ramulator/DDR3.h, ramulator/DDR3.cpp): commands, scopes, timing tables,
    prerequisites and state transitions, as an instance of the generic tree. */
module Ddr3 {
  import opened DramTree
  import opened Timing
  import opened TimingRuns

  datatype Command = ACT | PRE | PREA | RD | WR | RDA | WRA | REF | PDE | PDX | SRE | SRX

  datatype State = Opened | Closed | PowerUp | ActPowerDown | PrePowerDown | SelfRefresh | NoState

  const CHANNEL := 0
  const RANK := 1
  const BANK := 2
  const ROW := 3
  const COLUMN := 4

  type Tree = Node<Command, State>

  datatype Speed = Speed(
    nBL: int, nCCD: int, nRTRS: int, nCL: int, nRCD: int, nRP: int, nCWL: int, nRAS: int, nRC: int,
    nRTP: int, nWTR: int, nWR: int, nRRD: int, nFAW: int, nRFC: int, nXP: int, nPD: int, nCKESR: int, nXS: int)

  function Scope(c: Command): int {
    match c
    case ACT => ROW
    case PRE => BANK
    case PREA => RANK
    case RD => COLUMN
    case WR => COLUMN
    case RDA => COLUMN
    case WRA => COLUMN
    case _ => RANK
  }

  predicate IsOpening(c: Command) { c == ACT }

  predicate IsAccessing(c: Command) { c == RD || c == WR || c == RDA || c == WRA }

  predicate IsClosing(c: Command) { c == RDA || c == WRA || c == PRE || c == PREA }

  function Start(level: int): State {
    if level == RANK then PowerUp else if level == BANK then Closed else NoState
  }

  // ----------------------------------------------------------- timing tables

  function E(c: Command, val: int): Entry<Command> { Entry(c, 1, val, false) }

  function Sib(c: Command, val: int): Entry<Command> { Entry(c, 1, val, true) }

  function ChannelTiming(s: Speed, c: Command): seq<Entry<Command>> {
    match c
    case RD => [E(RD, s.nBL), E(RDA, s.nBL)]
    case RDA => [E(RD, s.nBL), E(RDA, s.nBL)]
    case WR => [E(WR, s.nBL), E(WRA, s.nBL)]
    case WRA => [E(WR, s.nBL), E(WRA, s.nBL)]
    case _ => []
  }

  /** What a read, with or without auto-precharge, imposes on its rank and on the
      sibling ranks. */
  function RankRead(s: Speed): seq<Entry<Command>> {
    var turn := s.nCL + s.nCCD + 2 - s.nCWL;
    var sib := s.nCL + s.nBL + s.nRTRS - s.nCWL;
    [E(RD, s.nCCD), E(RDA, s.nCCD), E(WR, turn), E(WRA, turn),
     Sib(RD, s.nBL + s.nRTRS), Sib(RDA, s.nBL + s.nRTRS), Sib(WR, s.nBL + s.nRTRS), Sib(WRA, s.nBL + s.nRTRS),
     Sib(WR, sib), Sib(WRA, sib)]
  }

  function RankWrite(s: Speed): seq<Entry<Command>> {
    var turn := s.nCWL + s.nBL + s.nWTR;
    var sib := s.nCWL + s.nBL + s.nRTRS - s.nCL;
    [E(WR, s.nCCD), E(WRA, s.nCCD), E(RD, turn), E(RDA, turn), Sib(RD, sib), Sib(RDA, sib)]
  }

  function RankTiming(s: Speed, c: Command): seq<Entry<Command>> {
    match c
    case RD => RankRead(s) + [E(PREA, s.nRTP), E(PDE, s.nCL + s.nBL + 1)]
    case RDA => RankRead(s) + [E(PDE, s.nCL + s.nBL + 1)]
    case WR => RankWrite(s) + [E(PREA, s.nCWL + s.nBL + s.nWR), E(PDE, s.nCWL + s.nBL + s.nWR)]
    case WRA => RankWrite(s) + [E(PDE, s.nCWL + s.nBL + s.nWR + 1)]
    case ACT => [E(ACT, s.nRRD), Entry(ACT, 4, s.nFAW, false), E(PREA, s.nRAS), E(PDE, 1)]
    case PRE => [E(REF, s.nRP), E(SRE, s.nRP)]
    case PREA => [E(ACT, s.nRP), E(REF, s.nRP), E(SRE, s.nRP)]
    case REF => [E(ACT, s.nRFC), E(REF, s.nRFC), E(PDE, 1)]
    case PDE => [E(PDX, s.nPD)]
    case PDX => [E(RD, s.nXP), E(RDA, s.nXP), E(WR, s.nXP), E(WRA, s.nXP), E(ACT, s.nXP), E(PRE, s.nXP),
                 E(PREA, s.nXP), E(REF, s.nXP), E(PDE, s.nXP), E(SRE, s.nXP)]
    case SRE => [E(SRX, s.nCKESR)]
    case SRX => [E(ACT, s.nXS), E(REF, s.nXS), E(PDE, s.nXS), E(SRE, s.nXS)]
  }

  function BankTiming(s: Speed, c: Command): seq<Entry<Command>> {
    match c
    case ACT => [E(RD, s.nRCD), E(RDA, s.nRCD), E(WR, s.nRCD), E(WRA, s.nRCD), E(ACT, s.nRC), E(PRE, s.nRAS)]
    case RD => [E(PRE, s.nRTP)]
    case WR => [E(PRE, s.nCWL + s.nBL + s.nWR)]
    case RDA => [E(ACT, s.nRTP + s.nRP)]
    case WRA => [E(ACT, s.nCWL + s.nBL + s.nWR + s.nRP)]
    case PRE => [E(ACT, s.nRP)]
    case _ => []
  }

  function TimingTable(s: Speed, level: int, c: Command): seq<Entry<Command>> {
    if level == CHANNEL then ChannelTiming(s, c)
    else if level == RANK then RankTiming(s, c)
    else if level == BANK then BankTiming(s, c)
    else []
  }

  // ------------------------------------------------- prerequisites and effects

  function RankReady(state: State): Verdict<Command> {
    match state
    case PowerUp => Pass
    case ActPowerDown => Issue(PDX)
    case PrePowerDown => Issue(PDX)
    case SelfRefresh => Issue(SRX)
    case _ => Fault
  }

  function BankReady(state: State, rows: map<int, State>, c: Command, row: int): Verdict<Command> {
    match state
    case Closed => Issue(ACT)
    case Opened => if row in rows then Issue(c) else Issue(PRE)
    case _ => Fault
  }

  function Prereq(c: Command, n: Tree, id: int): Verdict<Command> {
    match c
    case RD => if n.level == RANK then RankReady(n.state)
      else if n.level == BANK then BankReady(n.state, n.rows, c, id) else Pass
    case WR => if n.level == RANK then RankReady(n.state)
      else if n.level == BANK then BankReady(n.state, n.rows, c, id) else Pass
    case REF =>
      if n.level != RANK then Pass
      else if forall i :: 0 <= i < |n.children| ==> n.children[i].state == Closed then Issue(REF) else Issue(PREA)
    case PDE =>
      if n.level != RANK then Pass
      else (match n.state
        case PowerUp => Issue(PDE)
        case ActPowerDown => Issue(PDE)
        case PrePowerDown => Issue(PDE)
        case SelfRefresh => Issue(SRX)
        case _ => Fault)
    case SRE =>
      if n.level != RANK then Pass
      else (match n.state
        case PowerUp => Issue(SRE)
        case ActPowerDown => Issue(PDX)
        case PrePowerDown => Issue(PDX)
        case SelfRefresh => Issue(SRE)
        case _ => Fault)
    case _ => Pass
  }

  function RowHit(c: Command, n: Tree, id: int): Answer {
    if n.level == BANK && (c == RD || c == WR) then
      (match n.state
       case Closed => Says(false)
       case Opened => Says(id in n.rows)
       case _ => Failed)
    else Unasked
  }

  function RowOpen(c: Command, n: Tree, id: int): Answer {
    if n.level == BANK && (c == RD || c == WR) then
      (match n.state
       case Closed => Says(false)
       case Opened => Says(true)
       case _ => Failed)
    else Unasked
  }

  function CloseAll(banks: seq<Tree>): seq<Tree> {
    seq(|banks|, i requires 0 <= i < |banks| => banks[i].(state := Closed, rows := map[]))
  }

  function Effect(c: Command, n: Tree, id: int): Tree {
    match c
    case ACT => if n.level == BANK then n.(state := Opened, rows := n.rows[id := Opened]) else n
    case PRE => if n.level == BANK then n.(state := Closed, rows := map[]) else n
    case RDA => if n.level == BANK then n.(state := Closed, rows := map[]) else n
    case WRA => if n.level == BANK then n.(state := Closed, rows := map[]) else n
    case PREA => if n.level == RANK then n.(children := CloseAll(n.children)) else n
    case PDE =>
      if n.level != RANK then n
      else if forall i :: 0 <= i < |n.children| ==> n.children[i].state == Closed then n.(state := PrePowerDown)
      else n.(state := ActPowerDown)
    case PDX => if n.level == RANK then n.(state := PowerUp) else n
    case SRE => if n.level == RANK then n.(state := SelfRefresh) else n
    case SRX => if n.level == RANK then n.(state := PowerUp) else n
    case _ => n
  }

  /** The tree the constructor builds; counts[l] nodes below each node of level l - 1. */
  function Built(level: int, id: int, counts: seq<int>): (t: Tree)
    requires |counts| == 5 && CHANNEL <= level <= BANK
    ensures Initial(t, ROW) && t.level == level && t.id == id
    decreases ROW - level
  {
    var n := if level == BANK || counts[level + 1] <= 0 then 0 else counts[level + 1];
    Node(level, id, Start(level), map[], map[], map[], IDLE,
         seq(n, i requires 0 <= i < n => Built(level + 1, i, counts)))
  }

  function Tables(s: Speed): Spec<Command, State> {
    Spec(Scope, (level: int, c: Command) => TimingTable(s, level, c), Prereq, RowHit, RowOpen, Effect)
  }

  lemma TablesOk(s: Speed)
    ensures TableOk(Tables(s)) && EffectOk(Tables(s))
  {
    EntriesOk(s);
    forall c: Command, n: Tree, id ensures SameTiming(Effect(c, n, id), n) { EffectKeepsTiming(c, n, id); }
    hide TimingTable, Effect;
  }

  lemma EntriesOk(s: Speed)
    ensures forall lev, c, i :: 0 <= i < |TimingTable(s, lev, c)| ==>
      var e := TimingTable(s, lev, c)[i]; e.dist >= 1 && (e.sibling ==> e.dist == 1)
  {
    forall lev, c ensures Apt(TimingTable(s, lev, c)) {
      hide *;
      ChannelApt(s, c);
      RankApt(s, c);
      BankApt(s, c);
      TableApt(s, lev, c);
    }
  }

  /** What update_timing asserts of a list of entries. */
  predicate Apt(es: seq<Entry<Command>>) {
    forall i :: 0 <= i < |es| ==> es[i].dist >= 1 && (es[i].sibling ==> es[i].dist == 1)
  }

  lemma TableApt(s: Speed, lev: int, c: Command)
    requires Apt(ChannelTiming(s, c)) && Apt(RankTiming(s, c)) && Apt(BankTiming(s, c))
    ensures Apt(TimingTable(s, lev, c))
  {
    hide ChannelTiming, RankTiming, BankTiming;
  }

  lemma ChannelApt(s: Speed, c: Command)
    ensures Apt(ChannelTiming(s, c))
  {}

  lemma RankApt(s: Speed, c: Command)
    ensures Apt(RankTiming(s, c))
  {
    assert Apt(RankRead(s)) && Apt(RankWrite(s));
    hide RankRead, RankWrite;
  }

  lemma BankApt(s: Speed, c: Command)
    ensures Apt(BankTiming(s, c))
  {}

  lemma EffectKeepsTiming(c: Command, n: Tree, id: int)
    ensures SameTiming(Effect(c, n, id), n)
  {
    SameTimingRefl(n);
    forall i | 0 <= i < |n.children| ensures SameTiming(CloseAll(n.children)[i], n.children[i]) {
      SameTimingRefl(n.children[i]);
    }
  }

  /** The assert of the refresh statistics in update_timing: the entry from REF to ACT
      looks back one issue of REF, which is the one being recorded. */
  lemma RefreshEntryIsCurrent(s: Speed, n: Tree, clk: int, i: nat)
    requires PrevOk(Tables(s), n) && i < |TimingTable(s, n.level, REF)|
    requires var e := TimingTable(s, n.level, REF)[i]; e.cmd == ACT && !e.sibling
    ensures var e := TimingTable(s, n.level, REF)[i]; var past := Pushed(History(Tables(s), n, REF), clk);
      1 <= e.dist <= |past| && past[e.dist - 1] == clk
  {
    var es := TimingTable(s, n.level, REF);
    assert MaxDist(es) >= es[i].dist == 1;
  }

  /** At most four activates of a rank in any window of nFAW clocks: in a safe run
      the fifth of five activates of rank r comes at least nFAW after the first. */
  lemma FourActivateWindow(s: Speed, t: Tree, run: seq<Issued<Command>>, r: int, at: seq<int>)
    requires Safe(Tables(s), t, run, ROW) && t.level == CHANNEL && |at| == 5 && 0 <= r < |t.children|
    requires forall n :: 0 <= n < 5 ==>
      0 <= at[n] < |run| && run[at[n]].cmd == ACT && |run[at[n]].addr| == 5
      && run[at[n]].addr[CHANNEL] == t.id && run[at[n]].addr[RANK] == r
    requires forall m, n :: 0 <= m < n < 5 ==> at[m] < at[n]
    ensures run[at[0]].clk + s.nFAW <= run[at[4]].clk
  {
    var spec, i, j := Tables(s), at[0], at[4];
    forall n | 0 <= n < 5 ensures Meets(run[at[n]], t.id, [r], ACT, Target) {}
    var mid := [at[1] - i - 1, at[2] - i - 1, at[3] - i - 1];
    forall n | 0 <= n < 3 ensures run[i + 1..j][mid[n]] == run[at[n + 1]] {}
    CountPositions(run[i + 1..j], t.id, [r], ACT, Target, mid);
    assert OnWalk(spec, t, ACT, run[j].addr, [r], ROW) by {
      assert OnWalk(spec, t.children[r], ACT, run[j].addr, [], ROW);
    }
    assert spec.timing(1, ACT)[1] == Entry(ACT, 4, s.nFAW, false);
    PairwiseSafety(spec, t, run, ROW, i, j, [r], 1);
  }
}
