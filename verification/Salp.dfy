/** Subarray-level parallelism in ramulator/SALP.cpp: which subarrays of a bank may be
    open together under SALP-1, SALP-2 and MASA. */
module Salp {
  datatype Type = SALP_1 | SALP_2 | MASA

  datatype Command = ACT | SASEL | PRE | PRER | RD | WR | REF | PRE_OTHER

  datatype State = Opened | Closed | Selected

  /** A subarray; `rows` are the keys of its row_state. */
  datatype Sub = Sub(state: State, rows: set<int>)

  datatype Bank = Bank(state: State, subs: seq<Sub>)

  /** The powered-up ranks of a channel, as banks. */
  type Chip = seq<seq<Bank>>

  datatype Request = Access(write: bool, rank: int, bank: int, sa: int, row: int) | Refresh(rank: int)

  /** What decode returns; Fault is one of the assert(false) of the prerequisites. */
  datatype Answer = Issue(cmd: Command) | Fault

  const SHUT := Sub(Closed, {})

  predicate RequestOk(chip: Chip, q: Request) {
    && 0 <= q.rank < |chip|
    && (q.Access? ==> 0 <= q.bank < |chip[q.rank]| && 0 <= q.sa < |chip[q.rank][q.bank].subs|)
  }

  function BankOf(chip: Chip, q: Request): Bank
    requires RequestOk(chip, q) && q.Access?
  {
    chip[q.rank][q.bank]
  }

  predicate OtherOpen(b: Bank, sa: int) { exists j :: 0 <= j < |b.subs| && j != sa && b.subs[j].state == Opened }

  // ------------------------------------------------------------ prerequisites

  /** The first command of a read or write. */
  function AccessFirst(ty: Type, b: Bank, sa: int, row: int, cmd: Command): Answer
    requires 0 <= sa < |b.subs|
  {
    var s := b.subs[sa];
    match ty
    case SALP_1 =>
      if b.state == Closed then Issue(ACT)
      else if b.state != Opened then Fault
      else if row in s.rows then Issue(cmd) else if s.rows != {} then Issue(PRE) else Issue(PRE_OTHER)
    case SALP_2 =>
      if s.state == Closed then Issue(ACT)
      else if s.state != Opened then Fault
      else if row !in s.rows then Issue(PRE) else if OtherOpen(b, sa) then Issue(PRE_OTHER) else Issue(cmd)
    case MASA =>
      if s.state == Closed then Issue(ACT)
      else if row !in s.rows then Issue(PRE) else if s.state == Opened then Issue(SASEL) else Issue(cmd)
  }

  /** A bank that a refresh has to wait for. */
  predicate Busy(ty: Type, b: Bank) {
    if ty.SALP_1? then b.state != Closed else exists j :: 0 <= j < |b.subs| && b.subs[j].state != Closed
  }

  predicate AnyBusy(ty: Type, banks: seq<Bank>) { exists b :: 0 <= b < |banks| && Busy(ty, banks[b]) }

  function First(ty: Type, chip: Chip, q: Request): Answer
    requires RequestOk(chip, q)
  {
    match q
    case Access(write, _, _, sa, row) => AccessFirst(ty, BankOf(chip, q), sa, row, if write then WR else RD)
    case Refresh(rank) => Issue(if AnyBusy(ty, chip[rank]) then PRER else REF)
  }

  /** get_offending_subarray: the first other subarray that is open, else subarray 0. */
  function Offending(b: Bank, sa: int, from: nat): (j: int)
    requires from <= |b.subs|
    ensures j == 0 || from <= j < |b.subs|
    decreases |b.subs| - from
  {
    if from == |b.subs| then 0
    else if from != sa && b.subs[from].state == Opened then from
    else Offending(b, sa, from + 1)
  }

  // ------------------------------------------------------------------ effects

  /** The first other selected subarray, by the loop of the MASA lambdas, is no longer
      selected. */
  function Deselect(subs: seq<Sub>, sa: int, from: nat): (r: seq<Sub>)
    requires from <= |subs|
    ensures |r| == |subs|
    decreases |subs| - from
  {
    if from == |subs| then subs
    else if from != sa && subs[from].state == Selected then subs[from := subs[from].(state := Opened)]
    else Deselect(subs, sa, from + 1)
  }

  /** The lambdas along a command's path through one bank. */
  function Effect(ty: Type, b: Bank, cmd: Command, sa: int, row: int): (r: Bank)
    requires 0 <= sa < |b.subs|
    ensures |r.subs| == |b.subs|
  {
    var s := b.subs[sa];
    match cmd
    case ACT =>
      if ty.SALP_1? then Bank(Opened, b.subs[sa := Sub(Opened, s.rows + {row})])
      else if ty.SALP_2? then b.(subs := b.subs[sa := Sub(Opened, s.rows + {row})])
      else b.(subs := Deselect(b.subs[sa := Sub(Selected, s.rows + {row})], sa, 0))
    case SASEL => if ty.MASA? then b.(subs := Deselect(b.subs[sa := s.(state := Selected)], sa, 0)) else b
    case PRE => if ty.SALP_1? then Bank(Closed, b.subs[sa := SHUT]) else b.(subs := b.subs[sa := SHUT])
    case PRE_OTHER =>
      if ty.SALP_1? then Bank(Closed, b.subs[sa := SHUT])
      else if ty.SALP_2? then b.(subs := b.subs[sa := SHUT]) else b
    case _ => b
  }

  /** PRER closes every subarray of a rank, and under SALP-1 every bank. */
  function ShutBank(ty: Type, b: Bank): Bank {
    Bank(if ty.SALP_1? then Closed else b.state, seq(|b.subs|, _ => SHUT))
  }

  function ShutRank(ty: Type, banks: seq<Bank>): (r: seq<Bank>)
    ensures |r| == |banks|
  {
    seq(|banks|, b requires 0 <= b < |banks| => ShutBank(ty, banks[b]))
  }

  /** The subarray the command goes to: PRE_OTHER is re-addressed. */
  function Target(b: Bank, cmd: Command, sa: int): (t: int)
    requires 0 <= sa < |b.subs|
    ensures 0 <= t < |b.subs|
  {
    if cmd == PRE_OTHER then Offending(b, sa, 0) else sa
  }

  /** The state after the first command of a request. */
  function Step(ty: Type, chip: Chip, q: Request): (r: Chip)
    requires RequestOk(chip, q) && First(ty, chip, q).Issue?
    ensures |r| == |chip| && RequestOk(r, q)
  {
    var cmd := First(ty, chip, q).cmd;
    match q
    case Access(_, rank, bank, sa, row) =>
      var b := BankOf(chip, q);
      chip[rank := chip[rank][bank := Effect(ty, b, cmd, Target(b, cmd, sa), row)]]
    case Refresh(rank) => if cmd == PRER then chip[rank := ShutRank(ty, chip[rank])] else chip
  }

  // --------------------------------------------------------------- invariant

  /** One row open. */
  predicate OneRow(s: Sub) { s.state != Closed && exists r :: r in s.rows && s.rows == {r} }

  predicate SubOk(s: Sub) { s == SHUT || OneRow(s) }

  predicate OnlyOpen(b: Bank, i: int) {
    && 0 <= i < |b.subs| && b.subs[i].state == Opened && OneRow(b.subs[i])
    && forall j :: 0 <= j < |b.subs| && j != i ==> b.subs[j] == SHUT
  }

  ghost predicate BankOk(ty: Type, b: Bank) {
    match ty
    case SALP_1 =>
      if b.state == Closed then forall j :: 0 <= j < |b.subs| ==> b.subs[j] == SHUT
      else b.state == Opened && exists i :: OnlyOpen(b, i)
    case SALP_2 =>
      b.state == Closed && forall j :: 0 <= j < |b.subs| ==> SubOk(b.subs[j]) && b.subs[j].state != Selected
    case MASA =>
      && b.state == Closed && (forall j :: 0 <= j < |b.subs| ==> SubOk(b.subs[j]))
      && forall i, j :: 0 <= i < j < |b.subs| ==> !(b.subs[i].state == Selected && b.subs[j].state == Selected)
  }

  ghost predicate Inv(ty: Type, chip: Chip) {
    forall r, b :: 0 <= r < |chip| && 0 <= b < |chip[r]| ==> BankOk(ty, chip[r][b])
  }

  /** When PRE_OTHER is called for, another subarray is open, and the search finds it. */
  lemma {:induction false} OffendingFound(b: Bank, sa: int, from: nat)
    requires from <= |b.subs| && exists j :: from <= j < |b.subs| && j != sa && b.subs[j].state == Opened
    ensures var j := Offending(b, sa, from); from <= j < |b.subs| && j != sa && b.subs[j].state == Opened
    decreases |b.subs| - from
  {
    if !(from != sa && b.subs[from].state == Opened) { OffendingFound(b, sa, from + 1); }
  }

  lemma PreOtherHasTarget(ty: Type, b: Bank, sa: int, row: int, cmd: Command)
    requires BankOk(ty, b) && 0 <= sa < |b.subs| && (cmd == RD || cmd == WR)
    ensures AccessFirst(ty, b, sa, row, cmd) == Issue(PRE_OTHER) ==>
      var j := Offending(b, sa, 0); 0 <= j < |b.subs| && j != sa && b.subs[j].state == Opened
    ensures AccessFirst(ty, b, sa, row, cmd).Issue?
  {
    if AccessFirst(ty, b, sa, row, cmd) == Issue(PRE_OTHER) {
      if ty.SALP_1? {
        var i :| OnlyOpen(b, i);
        assert i != sa && b.subs[i].state == Opened;
      }
      OffendingFound(b, sa, 0);
    }
  }

  /** With one subarray selected at most, deselecting leaves none but the new one. */
  lemma {:induction false} DeselectExact(subs: seq<Sub>, sa: int, from: nat)
    requires 0 <= sa < |subs| && from <= |subs|
    requires forall i, j :: 0 <= i < j < |subs| && i != sa && j != sa ==>
        !(subs[i].state == Selected && subs[j].state == Selected)
    requires forall j :: 0 <= j < from && j != sa ==> subs[j].state != Selected
    ensures var r := Deselect(subs, sa, from);
      forall j :: 0 <= j < |subs| ==>
        r[j] == if j != sa && subs[j].state == Selected then subs[j].(state := Opened) else subs[j]
    decreases |subs| - from
  {
    if from < |subs| && !(from != sa && subs[from].state == Selected) { DeselectExact(subs, sa, from + 1); }
  }

  /** Every issued command keeps its bank in order. */
  lemma EffectOk(ty: Type, b: Bank, sa: int, row: int, cmd: Command)
    requires BankOk(ty, b) && 0 <= sa < |b.subs| && (cmd == RD || cmd == WR)
    ensures var first := AccessFirst(ty, b, sa, row, cmd);
      first.Issue? && BankOk(ty, Effect(ty, b, first.cmd, Target(b, first.cmd, sa), row))
  {
    PreOtherHasTarget(ty, b, sa, row, cmd);
    match ty {
      case SALP_1 => Salp1Ok(b, sa, row, cmd);
      case SALP_2 => Salp2Ok(b, sa, row, cmd);
      case MASA => MasaOk(b, sa, row, cmd);
    }
  }

  lemma Salp1Ok(b: Bank, sa: int, row: int, cmd: Command)
    requires BankOk(SALP_1, b) && 0 <= sa < |b.subs| && (cmd == RD || cmd == WR)
    requires AccessFirst(SALP_1, b, sa, row, cmd) == Issue(PRE_OTHER) ==>
      var j := Offending(b, sa, 0); j != sa && b.subs[j].state == Opened
    ensures var first := AccessFirst(SALP_1, b, sa, row, cmd);
      first.Issue? && BankOk(SALP_1, Effect(SALP_1, b, first.cmd, Target(b, first.cmd, sa), row))
  {
    var first := AccessFirst(SALP_1, b, sa, row, cmd).cmd;
    var e := Effect(SALP_1, b, first, Target(b, first, sa), row);
    if first == ACT {
      assert row in e.subs[sa].rows && e.subs[sa].rows == {row};
      assert OnlyOpen(e, sa);
    } else if first == PRE || first == PRE_OTHER {
      var i :| OnlyOpen(b, i);
      assert Target(b, first, sa) == i;
    }
  }

  lemma Salp2Ok(b: Bank, sa: int, row: int, cmd: Command)
    requires BankOk(SALP_2, b) && 0 <= sa < |b.subs| && (cmd == RD || cmd == WR)
    ensures var first := AccessFirst(SALP_2, b, sa, row, cmd);
      first.Issue? && BankOk(SALP_2, Effect(SALP_2, b, first.cmd, Target(b, first.cmd, sa), row))
  {
    assert SubOk(b.subs[sa]);
    var first := AccessFirst(SALP_2, b, sa, row, cmd).cmd;
    var e := Effect(SALP_2, b, first, Target(b, first, sa), row);
    if first == ACT { assert row in e.subs[sa].rows && e.subs[sa].rows == {row}; }
    forall j | 0 <= j < |e.subs| ensures SubOk(e.subs[j]) && e.subs[j].state != Selected {
      assert SubOk(b.subs[j]);
    }
  }

  lemma MasaOk(b: Bank, sa: int, row: int, cmd: Command)
    requires BankOk(MASA, b) && 0 <= sa < |b.subs| && (cmd == RD || cmd == WR)
    ensures var first := AccessFirst(MASA, b, sa, row, cmd);
      first.Issue? && BankOk(MASA, Effect(MASA, b, first.cmd, Target(b, first.cmd, sa), row))
  {
    assert SubOk(b.subs[sa]);
    var s := b.subs[sa];
    var first := AccessFirst(MASA, b, sa, row, cmd).cmd;
    var e := Effect(MASA, b, first, Target(b, first, sa), row);
    if first == ACT || first == SASEL {
      var now := Sub(Selected, if first == ACT then s.rows + {row} else s.rows);
      if first == ACT { assert row in now.rows && now.rows == {row}; }
      DeselectExact(b.subs[sa := now], sa, 0);
    }
    forall j | 0 <= j < |e.subs| ensures SubOk(e.subs[j]) { assert SubOk(b.subs[j]); }
  }

  lemma ShutOk(ty: Type, b: Bank)
    requires BankOk(ty, b)
    ensures BankOk(ty, ShutBank(ty, b)) && !Busy(ty, ShutBank(ty, b))
  {}

  /** The invariant holds at the start. */
  lemma ShutInv(ty: Type, chip: Chip)
    requires forall r, b, j :: 0 <= r < |chip| && 0 <= b < |chip[r]| && 0 <= j < |chip[r][b].subs| ==>
        chip[r][b].subs[j] == SHUT
    requires forall r, b :: 0 <= r < |chip| && 0 <= b < |chip[r]| ==> chip[r][b].state == Closed
    ensures Inv(ty, chip)
  {}

  /** No assert(false) of a prerequisite is reached, and the first command of any request
      keeps every bank in order. */
  lemma StepInv(ty: Type, chip: Chip, q: Request)
    requires Inv(ty, chip) && RequestOk(chip, q)
    ensures First(ty, chip, q).Issue? && Inv(ty, Step(ty, chip, q))
  {
    match q {
      case Access(write, rank, bank, sa, row) =>
        EffectOk(ty, BankOf(chip, q), sa, row, if write then WR else RD);
      case Refresh(rank) =>
        forall b | 0 <= b < |chip[rank]| ensures BankOk(ty, ShutBank(ty, chip[rank][b])) { ShutOk(ty, chip[rank][b]); }
    }
  }

  // -------------------------------------------------------------- exclusivity

  /** What an issued read, write or refresh may rely on. */
  ghost predicate Exclusive(ty: Type, chip: Chip, q: Request)
    requires RequestOk(chip, q)
  {
    match q
    case Access(_, rank, bank, sa, row) =>
      var b := BankOf(chip, q);
      && b.subs[sa].state == (if ty.MASA? then Selected else Opened) && b.subs[sa].rows == {row}
      && (if ty.MASA? then forall j :: 0 <= j < |b.subs| && j != sa ==> b.subs[j].state != Selected
          else forall j :: 0 <= j < |b.subs| && j != sa ==> b.subs[j] == SHUT)
    case Refresh(rank) =>
      forall b, j :: 0 <= b < |chip[rank]| && 0 <= j < |chip[rank][b].subs| ==> chip[rank][b].subs[j] == SHUT
  }

  predicate Final(q: Request, cmd: Command) {
    match q case Access(write, _, _, _, _) => cmd == (if write then WR else RD) case Refresh(_) => cmd == REF
  }

  /** A read or write is issued only to the sole open subarray of its bank (under MASA: to
      the sole selected one) with its row open alone; a refresh only when every subarray
      of the rank is closed. And whenever that is so, the command is issued. */
  lemma IssuedExclusive(ty: Type, chip: Chip, q: Request)
    requires Inv(ty, chip) && RequestOk(chip, q)
    ensures First(ty, chip, q).Issue?
    ensures Final(q, First(ty, chip, q).cmd) <==> Exclusive(ty, chip, q)
  {
    StepInv(ty, chip, q);
    match q {
      case Access(write, rank, bank, sa, row) =>
        var b := BankOf(chip, q);
        assert BankOk(ty, b);
        AccessExclusive(ty, b, sa, row, if write then WR else RD);
      case Refresh(rank) =>
        forall b | 0 <= b < |chip[rank]|
          ensures Busy(ty, chip[rank][b]) <==>
            exists j :: 0 <= j < |chip[rank][b].subs| && chip[rank][b].subs[j] != SHUT
        {
          BusyExact(ty, chip[rank][b]);
        }
    }
  }

  lemma BusyExact(ty: Type, b: Bank)
    requires BankOk(ty, b)
    ensures Busy(ty, b) <==> exists j :: 0 <= j < |b.subs| && b.subs[j] != SHUT
  {
    if ty.SALP_1? && b.state != Closed {
      var i :| OnlyOpen(b, i);
      assert b.subs[i] != SHUT;
    }
  }

  lemma AccessExclusive(ty: Type, b: Bank, sa: int, row: int, cmd: Command)
    requires BankOk(ty, b) && 0 <= sa < |b.subs| && (cmd == RD || cmd == WR)
    ensures AccessFirst(ty, b, sa, row, cmd) == Issue(cmd) <==>
      && b.subs[sa].state == (if ty.MASA? then Selected else Opened) && b.subs[sa].rows == {row}
      && (if ty.MASA? then forall j :: 0 <= j < |b.subs| && j != sa ==> b.subs[j].state != Selected
          else forall j :: 0 <= j < |b.subs| && j != sa ==> b.subs[j] == SHUT)
  {
    match ty {
      case SALP_1 =>
        if b.state != Closed {
          var i :| OnlyOpen(b, i);
          assert SubOk(b.subs[sa]);
        }
      case SALP_2 =>
        assert SubOk(b.subs[sa]);
        assert forall j :: 0 <= j < |b.subs| ==> SubOk(b.subs[j]);
      case MASA => assert SubOk(b.subs[sa]);
    }
  }

  /** Under SALP-1 a bank is open exactly when exactly one of its subarrays is, with one row. */
  lemma Salp1Open(b: Bank)
    requires BankOk(SALP_1, b)
    ensures b.state == Opened <==> exists i :: OnlyOpen(b, i)
    ensures forall i, j :: OnlyOpen(b, i) && OnlyOpen(b, j) ==> i == j
  {
    if i :| OnlyOpen(b, i) { assert b.subs[i] != SHUT; }
  }

  // ----------------------------------------- what a command leaves behind

  /** The command a read or write calls for, told from the subarrays alone. */
  predicate CallsFor(ty: Type, b: Bank, sa: int, row: int, cmd: Command, first: Command)
    requires 0 <= sa < |b.subs|
  {
    if b.subs[sa] == SHUT then first == if ty.SALP_1? && OtherOpen(b, sa) then PRE_OTHER else ACT
    else if b.subs[sa].rows != {row} then first == PRE
    else if ty.SALP_2? && OtherOpen(b, sa) then first == PRE_OTHER
    else if ty.MASA? && b.subs[sa].state != Selected then first == SASEL
    else first == cmd
  }

  /** The open subarray other than sa with the lowest number. */
  predicate FirstOther(b: Bank, sa: int, j: int) {
    && 0 <= j < |b.subs| && j != sa && b.subs[j].state == Opened
    && forall k :: 0 <= k < j && k != sa ==> b.subs[k].state != Opened
  }

  /** What the command leaves in subarray j: it opens, selects or shuts the addressed one;
      under MASA the one selected before stays open with its row; PRE_OTHER shuts one
      other; every other subarray keeps its state and its row. */
  function Left(ty: Type, b: Bank, sa: int, row: int, first: Command, j: int): Sub
    requires 0 <= sa < |b.subs| && 0 <= j < |b.subs|
  {
    if j == sa then
      match first
      case ACT => Sub(if ty.MASA? then Selected else Opened, {row})
      case SASEL => Sub(Selected, b.subs[j].rows)
      case PRE => SHUT
      case _ => b.subs[j]
    else if (first == ACT || first == SASEL) && b.subs[j].state == Selected then Sub(Opened, b.subs[j].rows)
    else if first == PRE_OTHER && FirstOther(b, sa, j) then SHUT
    else b.subs[j]
  }

  lemma {:induction false} OffendingIsFirst(b: Bank, sa: int, from: nat, j: int)
    requires from <= j && FirstOther(b, sa, j)
    ensures Offending(b, sa, from) == j
    decreases |b.subs| - from
  {
    if from < j { OffendingIsFirst(b, sa, from + 1, j); }
  }

  /** Some subarray is the first other open one if there is another open one. */
  lemma {:induction false} SomeFirstOther(b: Bank, sa: int, k: int) returns (j: int)
    requires 0 <= k < |b.subs| && k != sa && b.subs[k].state == Opened
    ensures FirstOther(b, sa, j)
    decreases k
  {
    j := k;
    if i :| 0 <= i < k && i != sa && b.subs[i].state == Opened { j := SomeFirstOther(b, sa, i); }
  }

  /** The first command of a read or write is the one its bank calls for, and its effect
      on every subarray of the bank is as described. */
  lemma EffectExact(ty: Type, b: Bank, sa: int, row: int, cmd: Command)
    requires BankOk(ty, b) && 0 <= sa < |b.subs| && (cmd == RD || cmd == WR)
    ensures AccessFirst(ty, b, sa, row, cmd).Issue?
    ensures var first := AccessFirst(ty, b, sa, row, cmd).cmd; var e := Effect(ty, b, first, Target(b, first, sa), row);
      && CallsFor(ty, b, sa, row, cmd, first)
      && forall j :: 0 <= j < |b.subs| ==> e.subs[j] == Left(ty, b, sa, row, first, j)
  {
    PreOtherHasTarget(ty, b, sa, row, cmd);
    var first := AccessFirst(ty, b, sa, row, cmd).cmd;
    RowsExact(ty, b, sa, row, cmd);
    if first == PRE_OTHER {
      var j := SomeFirstOther(b, sa, Offending(b, sa, 0));
      OffendingIsFirst(b, sa, 0, j);
    } else if ty.MASA? && (first == ACT || first == SASEL) {
      var s := b.subs[sa];
      DeselectExact(b.subs[sa := Sub(Selected, if first == ACT then s.rows + {row} else s.rows)], sa, 0);
    }
  }

  lemma RowsExact(ty: Type, b: Bank, sa: int, row: int, cmd: Command)
    requires BankOk(ty, b) && 0 <= sa < |b.subs| && (cmd == RD || cmd == WR)
    requires AccessFirst(ty, b, sa, row, cmd).Issue?
    ensures CallsFor(ty, b, sa, row, cmd, AccessFirst(ty, b, sa, row, cmd).cmd)
    ensures SubOk(b.subs[sa]) && (b.subs[sa] == SHUT || (row in b.subs[sa].rows <==> b.subs[sa].rows == {row}))
    ensures !ty.MASA? ==> forall j :: 0 <= j < |b.subs| ==> b.subs[j].state != Selected
  {
    if ty.SALP_1? && b.state != Closed {
      var i :| OnlyOpen(b, i);
      assert i != sa ==> b.subs[sa] == SHUT && OtherOpen(b, sa);
    }
    assert SubOk(b.subs[sa]);
  }

  /** The step of a request changes the addressed bank as described, and no other bank;
      a refresh shuts every subarray of its rank, or finds them shut and changes nothing. */
  lemma StepExact(ty: Type, chip: Chip, q: Request)
    requires Inv(ty, chip) && RequestOk(chip, q)
    ensures First(ty, chip, q).Issue?
    ensures var t := Step(ty, chip, q); var first := First(ty, chip, q).cmd;
      && |t| == |chip| && (forall r :: 0 <= r < |chip| ==> |t[r]| == |chip[r]|)
      && (forall r, b :: 0 <= r < |chip| && 0 <= b < |chip[r]| ==>
            |t[r][b].subs| == |chip[r][b].subs|
              && (r != q.rank || (q.Access? && b != q.bank) ==> t[r][b] == chip[r][b]))
      && (q.Access? ==>
            && CallsFor(ty, BankOf(chip, q), q.sa, q.row, if q.write then WR else RD, first)
            && forall j :: 0 <= j < |BankOf(chip, q).subs| ==>
                 BankOf(t, q).subs[j] == Left(ty, BankOf(chip, q), q.sa, q.row, first, j))
      && (q.Refresh? ==>
            forall b, j :: 0 <= b < |t[q.rank]| && 0 <= j < |t[q.rank][b].subs| ==> t[q.rank][b].subs[j] == SHUT)
  {
    StepInv(ty, chip, q);
    match q {
      case Access(write, rank, bank, sa, row) => EffectExact(ty, BankOf(chip, q), sa, row, if write then WR else RD);
      case Refresh(rank) => IssuedExclusive(ty, chip, q);
    }
  }

  // ------------------------------------------------------------------- runs

  ghost predicate Run(ty: Type, trace: seq<Chip>, reqs: seq<Request>) {
    && |trace| == |reqs| + 1
    && (forall r, b, j :: 0 <= r < |trace[0]| && 0 <= b < |trace[0][r]| && 0 <= j < |trace[0][r][b].subs| ==>
          trace[0][r][b].subs[j] == SHUT)
    && (forall r, b :: 0 <= r < |trace[0]| && 0 <= b < |trace[0][r]| ==> trace[0][r][b].state == Closed)
    && forall n :: 0 <= n < |reqs| ==>
         RequestOk(trace[n], reqs[n])
           && (First(ty, trace[n], reqs[n]).Issue? ==> trace[n + 1] == Step(ty, trace[n], reqs[n]))
  }

  /** In every run, whichever request is served at each step: every bank is in order, no
      assert is reached, and reads, writes and refreshes are issued exactly where the
      mechanism allows them. */
  lemma {:induction false} RunExclusive(ty: Type, trace: seq<Chip>, reqs: seq<Request>, n: nat)
    requires Run(ty, trace, reqs) && n < |trace|
    ensures Inv(ty, trace[n])
    ensures n < |reqs| ==>
      First(ty, trace[n], reqs[n]).Issue?
        && (Final(reqs[n], First(ty, trace[n], reqs[n]).cmd) <==> Exclusive(ty, trace[n], reqs[n]))
    decreases n
  {
    if n == 0 {
      ShutInv(ty, trace[0]);
    } else {
      RunExclusive(ty, trace, reqs, n - 1);
      StepInv(ty, trace[n - 1], reqs[n - 1]);
    }
    if n < |reqs| { IssuedExclusive(ty, trace[n], reqs[n]); }
  }

  // ------------------------------------------------------ chains terminate

  function OpenOthers(b: Bank, sa: int, from: nat): nat
    requires from <= |b.subs|
    decreases |b.subs| - from
  {
    if from == |b.subs| then 0
    else (if from != sa && b.subs[from].state == Opened then 1 else 0) + OpenOthers(b, sa, from + 1)
  }

  /** How many commands a request still needs, itself included. */
  function Needed(ty: Type, chip: Chip, q: Request): nat
    requires RequestOk(chip, q)
  {
    match q
    case Refresh(rank) => if AnyBusy(ty, chip[rank]) then 2 else 1
    case Access(_, _, _, sa, row) =>
      var b := BankOf(chip, q);
      var s := b.subs[sa];
      match ty
      case SALP_1 => if b.state == Closed then 2 else if row in s.rows then 1 else 3
      case SALP_2 => OpenOthers(b, sa, 0) + if s.state == Closed then 2 else if row in s.rows then 1 else 3
      case MASA => if s.state == Closed then 2 else if row !in s.rows then 3 else if s.state == Opened then 2 else 1
  }

  lemma {:induction false} OthersUpdate(b: Bank, c: Bank, sa: int, from: nat)
    requires from <= |b.subs| == |c.subs| && forall j :: from <= j < |b.subs| && j != sa ==> b.subs[j] == c.subs[j]
    ensures OpenOthers(b, sa, from) == OpenOthers(c, sa, from)
    decreases |b.subs| - from
  {
    if from < |b.subs| { OthersUpdate(b, c, sa, from + 1); }
  }

  lemma {:induction false} OthersShut(b: Bank, sa: int, k: int, from: nat)
    requires from <= k < |b.subs| && k != sa && b.subs[k].state == Opened
    ensures OpenOthers(b, sa, from) == OpenOthers(b.(subs := b.subs[k := SHUT]), sa, from) + 1
    decreases |b.subs| - from
  {
    if from < k {
      OthersShut(b, sa, k, from + 1);
    } else {
      OthersMore(b, b.(subs := b.subs[k := SHUT]), sa, from + 1);
    }
  }

  lemma {:induction false} OthersMore(b: Bank, c: Bank, sa: int, from: nat)
    requires from <= |b.subs| == |c.subs| && forall j :: from <= j < |b.subs| ==> b.subs[j] == c.subs[j]
    ensures OpenOthers(b, sa, from) == OpenOthers(c, sa, from)
    decreases |b.subs| - from
  {
    if from < |b.subs| { OthersMore(b, c, sa, from + 1); }
  }

  lemma {:induction false} OthersNone(b: Bank, sa: int, from: nat)
    requires from <= |b.subs|
    ensures OpenOthers(b, sa, from) == 0 <==> forall j :: from <= j < |b.subs| && j != sa ==> b.subs[j].state != Opened
    decreases |b.subs| - from
  {
    if from < |b.subs| { OthersNone(b, sa, from + 1); }
  }

  /** Repeating a request without interference issues exactly as many commands as it
      needs: each one but the last brings it one closer, and the last is the request's own. */
  lemma ChainExact(ty: Type, chip: Chip, q: Request)
    requires Inv(ty, chip) && RequestOk(chip, q)
    ensures First(ty, chip, q).Issue?
    ensures Needed(ty, chip, q) >= 1
    ensures Needed(ty, chip, q) == 1 <==> Final(q, First(ty, chip, q).cmd)
    ensures Needed(ty, chip, q) > 1 ==> Needed(ty, Step(ty, chip, q), q) == Needed(ty, chip, q) - 1
  {
    StepInv(ty, chip, q);
    match q {
      case Refresh(rank) =>
        forall b | 0 <= b < |chip[rank]| ensures !Busy(ty, ShutBank(ty, chip[rank][b])) { ShutOk(ty, chip[rank][b]); }
      case Access(write, rank, bank, sa, row) =>
        var cmd := if write then WR else RD;
        var b := BankOf(chip, q);
        var first := AccessFirst(ty, b, sa, row, cmd).cmd;
        var e := Effect(ty, b, first, Target(b, first, sa), row);
        assert BankOf(Step(ty, chip, q), q) == e;
        PreOtherHasTarget(ty, b, sa, row, cmd);
        match ty {
          case SALP_1 => Salp1Chain(b, sa, row, cmd);
          case SALP_2 => Salp2Chain(b, sa, row, cmd);
          case MASA => MasaChain(b, sa, row, cmd);
        }
    }
  }

  lemma Salp1Chain(b: Bank, sa: int, row: int, cmd: Command)
    requires BankOk(SALP_1, b) && 0 <= sa < |b.subs| && (cmd == RD || cmd == WR)
    ensures var first := AccessFirst(SALP_1, b, sa, row, cmd).cmd;
      var e := Effect(SALP_1, b, first, Target(b, first, sa), row);
      && (b.state == Closed ==> first == ACT && e.state == Opened && row in e.subs[sa].rows)
      && (b.state == Opened && row !in b.subs[sa].rows ==> first != cmd && e.state == Closed)
  {}

  lemma Salp2Chain(b: Bank, sa: int, row: int, cmd: Command)
    requires BankOk(SALP_2, b) && 0 <= sa < |b.subs| && (cmd == RD || cmd == WR)
    requires AccessFirst(SALP_2, b, sa, row, cmd) == Issue(PRE_OTHER) ==>
      var j := Offending(b, sa, 0); j != sa && b.subs[j].state == Opened
    ensures var first := AccessFirst(SALP_2, b, sa, row, cmd).cmd;
      var e := Effect(SALP_2, b, first, Target(b, first, sa), row); var s, s' := b.subs[sa], e.subs[sa];
      && (s.state == Closed ==>
            first == ACT && s'.state == Opened && row in s'.rows && OpenOthers(e, sa, 0) == OpenOthers(b, sa, 0))
      && (s.state == Opened && row !in s.rows ==>
            first == PRE && s'.state == Closed && OpenOthers(e, sa, 0) == OpenOthers(b, sa, 0))
      && (s.state == Opened && row in s.rows ==>
            if OpenOthers(b, sa, 0) == 0 then first == cmd
            else first == PRE_OTHER && s' == s && OpenOthers(e, sa, 0) == OpenOthers(b, sa, 0) - 1)
  {
    OthersNone(b, sa, 0);
    var first := AccessFirst(SALP_2, b, sa, row, cmd).cmd;
    var t := Target(b, first, sa);
    var e := Effect(SALP_2, b, first, t, row);
    if first == PRE_OTHER {
      OthersShut(b, sa, t, 0);
    } else {
      OthersUpdate(b, e, sa, 0);
    }
  }

  lemma MasaChain(b: Bank, sa: int, row: int, cmd: Command)
    requires BankOk(MASA, b) && 0 <= sa < |b.subs| && (cmd == RD || cmd == WR)
    ensures var first := AccessFirst(MASA, b, sa, row, cmd).cmd;
      var s, s' := b.subs[sa], Effect(MASA, b, first, Target(b, first, sa), row).subs[sa];
      && (s.state == Closed ==> first == ACT && s'.state == Selected && row in s'.rows)
      && (s.state != Closed && row !in s.rows ==> first == PRE && s'.state == Closed)
      && (s.state == Opened && row in s.rows ==> first == SASEL && s'.state == Selected && s'.rows == s.rows)
      && (s.state == Selected && row in s.rows ==> first == cmd)
  {
    var s := b.subs[sa];
    DeselectExact(b.subs[sa := Sub(Selected, s.rows + {row})], sa, 0);
    DeselectExact(b.subs[sa := s.(state := Selected)], sa, 0);
  }
}
