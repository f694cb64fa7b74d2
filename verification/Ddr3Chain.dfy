/** Prerequisite chains: repeating decode and update for one request always ends,
    after the fewest commands the state allows. */
module Ddr3Chain {
  import opened DramTree
  import opened Timing
  import opened TimingRuns
  import opened Ddr3
  import opened Ddr3State

  /** The states the source's switches accept. */
  predicate RankOk(k: Rank) {
    && k.state in {PowerUp, ActPowerDown, PrePowerDown, SelfRefresh}
    && forall b :: 0 <= b < |k.banks| ==> k.banks[b].state in {Opened, Closed}
  }

  predicate RequestCmd(c: Command) { c == RD || c == WR || c == REF || c == PDE || c == SRE }

  /** What a request needs, read off the state of its rank: wake the rank, close the
      bank's other row, open the row, access it. */
  function Needed(k: Rank, c: Command, addr: seq<int>): seq<Command>
    requires |addr| == 5 && (c == RD || c == WR ==> 0 <= addr[BANK] < |k.banks|)
  {
    var wake := if k.state == SelfRefresh then [SRX] else if k.state == PowerUp then [] else [PDX];
    match c
    case RD => wake + NeededByBank(k.banks[addr[BANK]], c, addr[ROW])
    case WR => wake + NeededByBank(k.banks[addr[BANK]], c, addr[ROW])
    case REF => if forall b :: 0 <= b < |k.banks| ==> k.banks[b].state == Closed then [REF] else [PREA, REF]
    case PDE => if k.state == SelfRefresh then [SRX, PDE] else [PDE]
    case SRE => if k.state == PowerUp || k.state == SelfRefresh then [SRE] else [PDX, SRE]
    case _ => [c]
  }

  function NeededByBank(b: Bank, c: Command, row: int): seq<Command> {
    if b.state == Closed then [ACT, c]
    else if row in b.rows then [c]
    else [PRE, ACT, c]
  }

  /** One decode: it answers the first needed command, and issuing that command
      leaves exactly the rest to be done. */
  lemma DecodeTakesFirst(v: seq<Rank>, c: Command, addr: seq<int>, ch: int, nBanks: nat)
    requires RequestCmd(c) && AddrOk(addr, ch, |v|, nBanks) && (c == RD || c == WR ==> addr[BANK] >= 0)
    requires |v[addr[RANK]].banks| == nBanks && RankOk(v[addr[RANK]])
    ensures var todo := Needed(v[addr[RANK]], c, addr);
      && todo != [] && DecodeView(v, c, addr) == Issue(todo[0]) && CmdAddrOk(todo[0], addr, ch, |v|, nBanks)
      && (|todo| == 1 <==> todo[0] == c)
      && (|todo| > 1 ==>
            var k := StepView(v, todo[0], addr)[addr[RANK]];
            |k.banks| == nBanks && RankOk(k) && Needed(k, c, addr) == todo[1..])
  {
    var k := v[addr[RANK]];
    var todo := Needed(k, c, addr);
    if c == RD || c == WR {
      var rest := NeededByBank(k.banks[addr[BANK]], c, addr[ROW]);
      if k.state != PowerUp { assert todo[1..] == rest; }
      else { assert todo == rest; }
    }
  }

  /** A request's own command is the one decoded exactly where the rank allows it. */
  lemma IssuedWhen(v: seq<Rank>, c: Command, addr: seq<int>, ch: int, nBanks: nat)
    requires RequestCmd(c) && AddrOk(addr, ch, |v|, nBanks) && (c == RD || c == WR ==> addr[BANK] >= 0)
    requires |v[addr[RANK]].banks| == nBanks && RankOk(v[addr[RANK]])
    ensures var k := v[addr[RANK]];
      DecodeView(v, c, addr) == Issue(c) <==>
        && (c == RD || c == WR ==>
              k.state == PowerUp && k.banks[addr[BANK]].state == Opened && addr[ROW] in k.banks[addr[BANK]].rows)
        && (c == REF ==> forall b :: 0 <= b < nBanks ==> k.banks[b].state == Closed)
        && (c == PDE ==> k.state != SelfRefresh)
        && (c == SRE ==> k.state == PowerUp || k.state == SelfRefresh)
  {}

  /** The commands issued by repeating decode and update until the request's own
      command goes out. */
  ghost function Issues(s: Speed, t: Tree, c: Command, addr: seq<int>, ch: int, nRanks: nat, nBanks: nat): seq<Command>
    requires Channel(t, ch, nRanks, nBanks) && AddrOk(addr, ch, nRanks, nBanks) && nBanks > 0
    requires RequestCmd(c) && (c == RD || c == WR ==> addr[BANK] >= 0) && RankOk(View(t)[addr[RANK]])
    decreases |Needed(View(t)[addr[RANK]], c, addr)|
  {
    DecodeIsView(s, t, c, addr, ch, nRanks, nBanks);
    DecodeTakesFirst(View(t), c, addr, ch, nBanks);
    var p := Decode(Tables(s), t, c, addr, ROW).cmd;
    if p == c then [p]
    else
      UpdateStateIsView(s, t, p, addr, ch, nRanks, nBanks);
      [p] + Issues(s, UpdateState(Tables(s), t, p, addr, ROW), c, addr, ch, nRanks, nBanks)
  }

  lemma IssuesUnfold(s: Speed, t: Tree, c: Command, addr: seq<int>, ch: int, nRanks: nat,
        nBanks: nat) returns (p: Command, u: Tree)
    requires Channel(t, ch, nRanks, nBanks) && AddrOk(addr, ch, nRanks, nBanks) && nBanks > 0
    requires RequestCmd(c) && (c == RD || c == WR ==> addr[BANK] >= 0) && RankOk(View(t)[addr[RANK]])
    ensures var todo := Needed(View(t)[addr[RANK]], c, addr);
      && todo != [] && p == todo[0] && (|todo| == 1 <==> p == c)
      && (p == c ==> Issues(s, t, c, addr, ch, nRanks, nBanks) == [p])
      && (p != c ==>
            && Channel(u, ch, nRanks, nBanks) && RankOk(View(u)[addr[RANK]])
            && Needed(View(u)[addr[RANK]], c, addr) == todo[1..]
            && Issues(s, t, c, addr, ch, nRanks, nBanks) == [p] + Issues(s, u, c, addr, ch, nRanks, nBanks))
  {
    DecodeIsView(s, t, c, addr, ch, nRanks, nBanks);
    DecodeTakesFirst(View(t), c, addr, ch, nBanks);
    p := Decode(Tables(s), t, c, addr, ROW).cmd;
    u := t;
    if p != c {
      UpdateStateIsView(s, t, p, addr, ch, nRanks, nBanks);
      u := UpdateState(Tables(s), t, p, addr, ROW);
    }
  }

  /** A request is served by exactly the commands its rank's state calls for: for a
      read or write a suffix of PRE, ACT, RD/WR behind at most one wake-up command,
      for a refresh at most PREA and REF. */
  lemma {:induction false} ChainExact(s: Speed, t: Tree, c: Command, addr: seq<int>, ch: int, nRanks: nat, nBanks: nat)
    requires Channel(t, ch, nRanks, nBanks) && AddrOk(addr, ch, nRanks, nBanks) && nBanks > 0
    requires RequestCmd(c) && (c == RD || c == WR ==> addr[BANK] >= 0) && RankOk(View(t)[addr[RANK]])
    ensures Issues(s, t, c, addr, ch, nRanks, nBanks) == Needed(View(t)[addr[RANK]], c, addr)
    decreases |Needed(View(t)[addr[RANK]], c, addr)|
  {
    var p, u := IssuesUnfold(s, t, c, addr, ch, nRanks, nBanks);
    if p != c { ChainExact(s, u, c, addr, ch, nRanks, nBanks); }
  }

  /** The three sequences a powered-up read or write can take, and the bounds of the
      other requests. */
  lemma ChainBounds(k: Rank, c: Command, addr: seq<int>)
    requires RequestCmd(c) && |addr| == 5 && (c == RD || c == WR ==> 0 <= addr[BANK] < |k.banks|)
    ensures c == RD || c == WR ==>
      && |Needed(k, c, addr)| <= (if k.state == PowerUp then 3 else 4)
      && (k.state == PowerUp ==> Needed(k, c, addr) in {[c], [ACT, c], [PRE, ACT, c]})
    ensures c != RD && c != WR ==> |Needed(k, c, addr)| <= 2
  {
    if (c == RD || c == WR) && k.state == PowerUp {
      assert Needed(k, c, addr) == NeededByBank(k.banks[addr[BANK]], c, addr[ROW]);
    }
  }
}
