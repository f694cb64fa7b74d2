/** A SALP channel as it runs: the searches and loops of ramulator/SALP.cpp and of the
    controller's SALP specialisation, over banks updated in place. */
module SalpChannel {
  import opened Salp

  class Channel {
    const ty: Type
    var chip: Chip

    ghost predicate Valid()
      reads this
    {
      Inv(ty, chip)
    }

    /** Every subarray starts closed. */
    constructor (ty: Type, ranks: nat, banks: nat, subarrays: nat)
      ensures Valid() && this.ty == ty
      ensures chip == seq(ranks, _ => seq(banks, _ => Bank(Closed, seq(subarrays, _ => SHUT))))
    {
      this.ty := ty;
      chip := seq(ranks, _ => seq(banks, _ => Bank(Closed, seq(subarrays, _ => SHUT))));
      new;
      ShutInv(ty, chip);
    }

    /** get_offending_subarray: the first other open subarray. */
    static method FindOffending(b: Bank, sa: int) returns (id: int)
      ensures id == Offending(b, sa, 0)
    {
      id := 0;
      for j := 0 to |b.subs|
        invariant Offending(b, sa, j) == Offending(b, sa, 0) && id == 0
      {
        if j != sa && b.subs[j].state == Opened { return j; }
      }
    }

    /** The loop of the SALP-2 prerequisite. */
    static method IsOtherOpen(b: Bank, sa: int) returns (open: bool)
      ensures open == OtherOpen(b, sa)
    {
      for j := 0 to |b.subs|
        invariant forall k :: 0 <= k < j ==> !(k != sa && b.subs[k].state == Opened)
      {
        if j != sa && b.subs[j].state == Opened { return true; }
      }
      return false;
    }

    /** The nested loops of the REF prerequisite. */
    method IsRankBusy(r: int) returns (busy: bool)
      requires 0 <= r < |chip|
      ensures busy == AnyBusy(ty, chip[r])
    {
      for b := 0 to |chip[r]|
        invariant forall k :: 0 <= k < b ==> !Busy(ty, chip[r][k])
      {
        var one := IsBankBusy(chip[r][b]);
        if one { return true; }
      }
      return false;
    }

    method IsBankBusy(b: Bank) returns (busy: bool)
      ensures busy == Busy(ty, b)
    {
      if ty.SALP_1? { return b.state != Closed; }
      for j := 0 to |b.subs|
        invariant forall k :: 0 <= k < j ==> b.subs[k].state == Closed
      {
        if b.subs[j].state != Closed { return true; }
      }
      return false;
    }

    /** The deselecting loop of the MASA lambdas. */
    static method DeselectOther(subs: seq<Sub>, sa: int) returns (r: seq<Sub>)
      ensures r == Deselect(subs, sa, 0)
    {
      for j := 0 to |subs|
        invariant Deselect(subs, sa, j) == Deselect(subs, sa, 0)
      {
        if j != sa && subs[j].state == Selected { return subs[j := subs[j].(state := Opened)]; }
      }
      return subs;
    }

    /** The lambdas of one bank. */
    method Apply(r: int, b: int, cmd: Command, sa: int, row: int)
      requires 0 <= r < |chip| && 0 <= b < |chip[r]| && 0 <= sa < |chip[r][b].subs|
      modifies this
      ensures chip == old(chip)[r := old(chip)[r][b := Effect(ty, old(chip)[r][b], cmd, sa, row)]]
    {
      var bank := chip[r][b];
      var s := bank.subs[sa];
      match cmd {
        case ACT =>
          match ty {
            case SALP_1 => bank := Bank(Opened, bank.subs[sa := Sub(Opened, s.rows + {row})]);
            case SALP_2 => bank := bank.(subs := bank.subs[sa := Sub(Opened, s.rows + {row})]);
            case MASA =>
              var subs := DeselectOther(bank.subs[sa := Sub(Selected, s.rows + {row})], sa);
              bank := bank.(subs := subs);
          }
        case SASEL =>
          if ty.MASA? {
            var subs := DeselectOther(bank.subs[sa := s.(state := Selected)], sa);
            bank := bank.(subs := subs);
          }
        case PRE =>
          if ty.SALP_1? { bank := bank.(state := Closed); }
          bank := bank.(subs := bank.subs[sa := SHUT]);
        case PRE_OTHER =>
          if ty.SALP_1? { bank := bank.(state := Closed); }
          if !ty.MASA? { bank := bank.(subs := bank.subs[sa := SHUT]); }
        case _ =>
      }
      chip := chip[r := chip[r][b := bank]];
    }

    /** The lambda of PRER. */
    method CloseRank(r: int)
      requires 0 <= r < |chip|
      modifies this
      ensures chip == old(chip)[r := ShutRank(ty, old(chip)[r])]
    {
      var banks := chip[r];
      for b := 0 to |banks|
        invariant |banks| == |old(chip)[r]|
        invariant forall k :: 0 <= k < |banks| ==>
            banks[k] == if k < b then ShutBank(ty, old(chip)[r][k]) else old(chip)[r][k]
      {
        banks := banks[b := Bank(if ty.SALP_1? then Closed else banks[b].state, seq(|banks[b].subs|, _ => SHUT))];
      }
      assert banks == ShutRank(ty, chip[r]);
      chip := chip[r := banks];
    }

    /** The first command of a request; no assert(false) is reached. */
    method GetFirstCmd(q: Request) returns (cmd: Command)
      requires Valid() && RequestOk(chip, q)
      ensures First(ty, chip, q) == Issue(cmd)
    {
      StepInv(ty, chip, q);
      match q {
        case Refresh(r) =>
          var busy := IsRankBusy(r);
          cmd := if busy then PRER else REF;
        case Access(write, r, b, sa, row) =>
          var bank := chip[r][b];
          var s := bank.subs[sa];
          cmd := if write then WR else RD;
          match ty {
            case SALP_1 =>
              if bank.state == Closed { cmd := ACT; }
              else if row !in s.rows { cmd := if |s.rows| > 0 then PRE else PRE_OTHER; }
            case SALP_2 =>
              if s.state == Closed { cmd := ACT; }
              else if row !in s.rows { cmd := PRE; }
              else {
                var other := IsOtherOpen(bank, sa);
                if other { cmd := PRE_OTHER; }
              }
            case MASA =>
              if s.state == Closed { cmd := ACT; }
              else if row !in s.rows { cmd := PRE; }
              else if s.state == Opened { cmd := SASEL; }
          }
      }
    }

    /** Issue the first command of a request, to the subarray it is meant for. A read, a
        write or a refresh is issued exactly when the mechanism allows it. */
    method Serve(q: Request) returns (cmd: Command)
      requires Valid() && RequestOk(chip, q)
      modifies this
      ensures Valid()
      ensures First(ty, old(chip), q) == Issue(cmd) && chip == Step(ty, old(chip), q)
      ensures Final(q, cmd) <==> Exclusive(ty, old(chip), q)
    {
      StepInv(ty, chip, q);
      IssuedExclusive(ty, chip, q);
      hide Inv, Effect, AccessFirst, Exclusive, ShutRank;
      cmd := GetFirstCmd(q);
      match q {
        case Refresh(r) =>
          if cmd == PRER { CloseRank(r); }
        case Access(_, r, b, sa, row) =>
          var target := sa;
          if cmd == PRE_OTHER { target := FindOffending(chip[r][b], sa); }
          Apply(r, b, cmd, target, row);
      }
    }
  }
}
