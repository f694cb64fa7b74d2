/** The row table of ramulator/Scheduler.h: a second record of which rows are open,
    kept by the controller next to the tree, and its agreement with the tree. */
module RowTable {
  import opened DramTree
  import opened Ddr3
  import opened Ddr3State

  datatype RowEntry = RowEntry(row: int, hits: int, timestamp: int)

  type Rows = map<seq<int>, RowEntry>

  function Key(addr: seq<int>): seq<int>
    requires |addr| == 5
  {
    addr[..ROW]
  }

  predicate Closes(c: Command, addr: seq<int>, key: seq<int>)
    requires |addr| == 5 && |key| == ROW && Scope(c) < ROW
  {
    addr[..Scope(c) + 1] == key[..Scope(c) + 1]
  }

  function Inserted(rows: Rows, c: Command, addr: seq<int>, clk: int): Rows
    requires |addr| == 5
  {
    if IsOpening(c) && Key(addr) !in rows then rows[Key(addr) := RowEntry(addr[ROW], 0, clk)] else rows
  }

  /** The asserts of RowTable::update for commands without auto-precharge. */
  predicate Demands(rows: Rows, c: Command, addr: seq<int>)
    requires |addr| == 5 && forall k :: k in rows ==> |k| == ROW
  {
    && c != RDA && c != WRA
    && (IsAccessing(c) ==> Key(addr) in rows && rows[Key(addr)].row == addr[ROW])
    && (IsClosing(c) ==> exists k :: k in rows && Closes(c, addr, k))
  }

  /** The entries that a closing command leaves in the table. */
  function Kept(rows: Rows, c: Command, addr: seq<int>): Rows
    requires |addr| == 5 && (forall k :: k in rows ==> |k| == ROW) && Scope(c) < ROW
  {
    map k | k in rows && !Closes(c, addr, k) :: rows[k]
  }

  function Updated(rows: Rows, c: Command, addr: seq<int>, clk: int): Rows
    requires |addr| == 5 && (forall k :: k in rows ==> |k| == ROW) && Demands(rows, c, addr)
  {
    var rows1 := Inserted(rows, c, addr, clk);
    if IsAccessing(c) then rows1[Key(addr) := RowEntry(addr[ROW], rows1[Key(addr)].hits + 1, clk)]
    else if IsClosing(c) then Kept(rows1, c, addr)
    else rows1
  }

  class Table {
    var rows: Rows

    constructor ()
      ensures rows == map[]
    {
      rows := map[];
    }

    /** RowTable::update. Its three asserts are preconditions: whoever calls it
        shows that they hold. */
    method Update(c: Command, addr: seq<int>, clk: int)
      requires |addr| == 5 && (forall k :: k in rows ==> |k| == ROW) && Demands(rows, c, addr)
      modifies this
      ensures rows == Updated(old(rows), c, addr, clk)
    {
      var key := Key(addr);
      if IsOpening(c) && key !in rows {
        rows := rows[key := RowEntry(addr[ROW], 0, clk)];
      }
      if IsAccessing(c) {
        var match' := rows[key];
        assert match'.row == addr[ROW];
        rows := rows[key := RowEntry(match'.row, match'.hits + 1, clk)];
      }
      if IsClosing(c) {
        var removed;
        rows, removed := Erase(rows, c, addr);
        assert removed > 0;
      }
    }
  }

  /** The erasing loop of RowTable::update, with its counter n_rm. */
  method Erase(rows: Rows, c: Command, addr: seq<int>) returns (kept: Rows, removed: nat)
    requires |addr| == 5 && (forall k :: k in rows ==> |k| == ROW) && Scope(c) < ROW
    ensures kept == Kept(rows, c, addr)
    ensures removed > 0 <==> exists k :: k in rows && Closes(c, addr, k)
  {
    kept, removed := rows, 0;
    var todo := rows.Keys;
    while todo != {}
      invariant todo <= rows.Keys
      invariant kept.Keys <= rows.Keys && forall k :: k in kept ==> kept[k] == rows[k]
      invariant forall k :: k in rows ==> (k in kept <==> k in todo || !Closes(c, addr, k))
      invariant removed > 0 <==> exists k :: k in rows && k !in todo && Closes(c, addr, k)
      decreases todo
    {
      var k :| k in todo;
      if Closes(c, addr, k) {
        removed := removed + 1;
        kept := kept - {k};
      }
      todo := todo - {k};
    }
  }

  // ----------------------------------------------------------- agreement

  function KeyOf(ch: int, r: int, b: int): seq<int> { [ch, r, b] }

  /** Powered-up ranks, banks that are closed and empty or open on rows. */
  predicate BanksOk(v: seq<Rank>, nBanks: nat) {
    forall r :: 0 <= r < |v| ==>
      v[r].state == PowerUp && |v[r].banks| == nBanks
      && forall b :: 0 <= b < nBanks ==> v[r].banks[b] == Bank(Closed, map[]) || v[r].banks[b].state == Opened
  }

  /** The table holds the key of bank (r, b) with row w exactly when that bank is
      open and w is its one open row. */
  ghost predicate Mirrors(rows: Rows, v: seq<Rank>, ch: int, nBanks: nat) {
    && BanksOk(v, nBanks)
    && (forall k :: k in rows ==> |k| == ROW && k[CHANNEL] == ch && 0 <= k[RANK] < |v| && 0 <= k[BANK] < nBanks)
    && forall r, b :: 0 <= r < |v| && 0 <= b < nBanks ==> BankMirrored(rows, v[r].banks[b], KeyOf(ch, r, b))
  }

  ghost predicate BankMirrored(rows: Rows, bank: Bank, key: seq<int>) {
    && (key in rows <==> bank.state == Opened)
    && (key in rows ==> bank.rows.Keys == {rows[key].row})
  }

  lemma KeyOfAddr(addr: seq<int>)
    requires |addr| == 5
    ensures Key(addr) == KeyOf(addr[CHANNEL], addr[RANK], addr[BANK])
  {}

  lemma MirrorKeys(rows: Rows, v: seq<Rank>, ch: int, nBanks: nat, k: seq<int>)
    requires Mirrors(rows, v, ch, nBanks) && k in rows
    ensures k == KeyOf(ch, k[RANK], k[BANK])
  {}

  lemma DemandsHold(rows: Rows, v: seq<Rank>, c: Command, addr: seq<int>, ch: int, nBanks: nat)
    requires Mirrors(rows, v, ch, nBanks) && AddrOk(addr, ch, |v|, nBanks)
    requires c == REF || ((c == RD || c == WR) && addr[BANK] >= 0)
    ensures DecodeView(v, c, addr).Issue?
    ensures var p := DecodeView(v, c, addr).cmd;
      && CmdAddrOk(p, addr, ch, |v|, nBanks) && p in {ACT, PRE, PREA, RD, WR, REF}
      && Demands(rows, p, addr) && (p == ACT ==> v[addr[RANK]].banks[addr[BANK]] == Bank(Closed, map[]))
  {
    var r := addr[RANK];
    var p := DecodeView(v, c, addr).cmd;
    if p == PREA {
      var b :| 0 <= b < nBanks && v[r].banks[b].state != Closed;
      assert BankMirrored(rows, v[r].banks[b], KeyOf(ch, r, b));
      assert Closes(p, addr, KeyOf(ch, r, b));
    } else if p != REF {
      KeyOfAddr(addr);
      assert BankMirrored(rows, v[r].banks[addr[BANK]], Key(addr));
      if p == PRE { assert Closes(p, addr, Key(addr)); }
    }
  }

  lemma ClosesBank(c: Command, addr: seq<int>, ch: int, q: int, b: int)
    requires |addr| == 5 && addr[CHANNEL] == ch
    ensures Closes(PREA, addr, KeyOf(ch, q, b)) <==> q == addr[RANK]
    ensures Closes(PRE, addr, KeyOf(ch, q, b)) <==> q == addr[RANK] && b == addr[BANK]
  {
    assert KeyOf(ch, q, b)[..2] == [ch, q] && addr[..2] == [ch, addr[RANK]];
    assert KeyOf(ch, q, b)[..3] == [ch, q, b] && addr[..3] == [ch, addr[RANK], addr[BANK]];
  }

  lemma MirrorBank(rows: Rows, v: seq<Rank>, p: Command, addr: seq<int>, clk: int, ch: int, nBanks: nat, q: int, b: int)
    requires Mirrors(rows, v, ch, nBanks) && CmdAddrOk(p, addr, ch, |v|, nBanks) && p in {ACT, PRE, PREA, RD, WR, REF}
    requires Demands(rows, p, addr) && (p == ACT ==> v[addr[RANK]].banks[addr[BANK]] == Bank(Closed, map[]))
    requires 0 <= q < |v| && 0 <= b < nBanks
    ensures BankMirrored(Updated(rows, p, addr, clk), StepView(v, p, addr)[q].banks[b], KeyOf(ch, q, b))
  {
    assert BankMirrored(rows, v[q].banks[b], KeyOf(ch, q, b));
    KeyOfAddr(addr);
    ClosesBank(p, addr, ch, q, b);
  }

  /** The first command of a read, write or refresh never trips an assert of the row
      table, and after issuing it the table and the tree agree again. */
  lemma MirrorStep(rows: Rows, v: seq<Rank>, c: Command, addr: seq<int>, clk: int, ch: int, nBanks: nat)
    requires Mirrors(rows, v, ch, nBanks) && AddrOk(addr, ch, |v|, nBanks)
    requires c == REF || ((c == RD || c == WR) && addr[BANK] >= 0)
    ensures DecodeView(v, c, addr).Issue?
    ensures var p := DecodeView(v, c, addr).cmd;
      && CmdAddrOk(p, addr, ch, |v|, nBanks)
      && (forall k :: k in rows ==> |k| == ROW) && Demands(rows, p, addr)
      && Mirrors(Updated(rows, p, addr, clk), StepView(v, p, addr), ch, nBanks)
  {
    DemandsHold(rows, v, c, addr, ch, nBanks);
    var p := DecodeView(v, c, addr).cmd;
    hide DecodeView, Demands;
    MirrorRest(rows, v, p, addr, clk, ch, nBanks);
    hide *;
    forall q, b | 0 <= q < |v| && 0 <= b < nBanks
      ensures BankMirrored(Updated(rows, p, addr, clk), StepView(v, p, addr)[q].banks[b], KeyOf(ch, q, b))
    {
      MirrorBank(rows, v, p, addr, clk, ch, nBanks, q, b);
    }
    MirrorIntro(Updated(rows, p, addr, clk), StepView(v, p, addr), ch, nBanks);
  }

  lemma MirrorIntro(rows: Rows, v: seq<Rank>, ch: int, nBanks: nat)
    requires BanksOk(v, nBanks)
    requires forall k :: k in rows ==> |k| == ROW && k[CHANNEL] == ch && 0 <= k[RANK] < |v| && 0 <= k[BANK] < nBanks
    requires forall r, b :: 0 <= r < |v| && 0 <= b < nBanks ==> BankMirrored(rows, v[r].banks[b], KeyOf(ch, r, b))
    ensures Mirrors(rows, v, ch, nBanks)
  {
    hide BankMirrored, KeyOf;
  }

  /** The command leaves ranks powered up, and the table only real keys. */
  lemma MirrorRest(rows: Rows, v: seq<Rank>, p: Command, addr: seq<int>, clk: int, ch: int, nBanks: nat)
    requires Mirrors(rows, v, ch, nBanks) && CmdAddrOk(p, addr, ch, |v|, nBanks) && p in {ACT, PRE, PREA, RD, WR, REF}
    requires Demands(rows, p, addr)
    ensures var u := StepView(v, p, addr); var rows' := Updated(rows, p, addr, clk);
      && |u| == |v| && BanksOk(u, nBanks)
      && forall k :: k in rows' ==> |k| == ROW && k[CHANNEL] == ch && 0 <= k[RANK] < |v| && 0 <= k[BANK] < nBanks
  {
    hide BankMirrored;
  }

  /** REF is issued only when every bank of its rank is closed and no key of the
      rank is left in the table. */
  lemma RefreshOnlyClosed(rows: Rows, v: seq<Rank>, addr: seq<int>, ch: int, nBanks: nat)
    requires Mirrors(rows, v, ch, nBanks) && AddrOk(addr, ch, |v|, nBanks)
    ensures DecodeView(v, REF, addr) == Issue(REF) <==>
      (forall b :: 0 <= b < nBanks ==> v[addr[RANK]].banks[b] == Bank(Closed, map[]))
    ensures DecodeView(v, REF, addr) == Issue(REF) <==> (forall k :: k in rows ==> k[RANK] != addr[RANK])
  {
    var r := addr[RANK];
    forall b | 0 <= b < nBanks ensures KeyOf(ch, r, b) in rows <==> v[r].banks[b].state == Opened {
      assert BankMirrored(rows, v[r].banks[b], KeyOf(ch, r, b));
    }
    forall k | k in rows && k[RANK] == r ensures v[r].banks[k[BANK]].state == Opened {
      MirrorKeys(rows, v, ch, nBanks, k);
    }
    forall b | 0 <= b < nBanks && v[r].banks[b].state == Opened
      ensures KeyOf(ch, r, b) in rows && KeyOf(ch, r, b)[RANK] == r
    {}
  }
}
