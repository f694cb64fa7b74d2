/** The out-of-order refresh scheduler of ramulator/Refresh.cpp as it runs: three places
    issue refreshes against one credit counter per bank. */
module Refresh {
  import opened Arithmetic
  import opened RefreshBook
  import opened RefreshSteps

  /** The controller's queues as the refresh scheduler sees them: reads and writes by
      rank and bank. Between ticks the controller changes them as it likes. */
  class Queues {
    const max: nat
    var writeMode: bool
    var readq: seq<(int, int)>
    var writeq: seq<(int, int)>
    var otherq: seq<Other>

    constructor (max: nat)
      ensures this.max == max && otherq == [] && readq == [] && writeq == [] && !writeMode
    {
      this.max := max;
      writeMode, readq, writeq, otherq := false, [], [], [];
    }

    method Enqueue(o: Other) returns (ok: bool)
      modifies this`otherq
      ensures ok == (|old(otherq)| != max)
      ensures otherq == if ok then old(otherq) + [o] else old(otherq)
    {
      ok := |otherq| != max;
      if ok { otherq := otherq + [o]; }
    }
  }

  class Scheduler {
    const dims: Dims
    const policy: Policy
    const interval: int
    const ctrl: Queues
    var clk: int
    var refreshed: int
    var counters: seq<int>
    var backlog: seq<seq<int>>
    var subarray: seq<seq<int>>
    var ctrlWriteMode: bool
    ghost var issued: seq<Target>
    ghost var slots: seq<nat>
    ghost var injections: nat

    ghost function Account(): Book
      reads this
    {
      Book(backlog, subarray, counters, issued, slots)
    }

    ghost function Now(): Ledger
      reads this, ctrl
    {
      Ledger(Account(), ctrl.otherq)
    }

    /** Accounts in order and credits within bounds; `injections` have happened, the last
        of them on time. */
    ghost predicate InOrder()
      reads this
    {
      && BookOk(dims, Account()) && CreditsOk(dims, policy, Account()) && interval > 0
      && refreshed == injections * interval
      && (forall r :: 0 <= r < dims.ranks ==> slots[r] == if policy.REFAB? then 0 else injections)
      && (policy.REFAB? ==> forall r :: 0 <= r < dims.ranks ==> Count(issued, r, -1) == injections)
    }

    /** Between ticks, moreover, no injection is overdue. */
    ghost predicate Valid()
      reads this
    {
      InOrder() && 0 <= clk - refreshed < interval
    }

    constructor (dims: Dims, policy: Policy, interval: int, ctrl: Queues)
      requires DimsOk(dims) && interval > 0
      ensures Valid() && this.dims == dims && this.policy == policy && this.interval == interval && this.ctrl == ctrl
      ensures clk == 0 && issued == [] && !ctrlWriteMode
    {
      this.dims, this.policy, this.interval, this.ctrl := dims, policy, interval, ctrl;
      clk, refreshed, ctrlWriteMode, injections := 0, 0, false, 0;
      counters := seq(dims.ranks, _ => 0);
      backlog := seq(dims.ranks, _ => seq(dims.banks, _ => 0));
      subarray := seq(dims.ranks, _ => seq(dims.sas, _ => 0));
      issued, slots := [], seq(dims.ranks, _ => 0);
      new;
      DivUnique(0, dims.banks, 0, 0);
      DivUnique(0, dims.sas, 0, 0);
      forall r, b | ValidBank(dims, r, b) ensures BankOk(dims, Account(), r, b) {}
    }

    /** refresh_target on one bank, with its credit: false is the failed assert. */
    method Refresh(r: int, b: int) returns (ok: bool)
      requires BookOk(dims, Account()) && ValidBank(dims, r, b)
      modifies this`backlog, this`subarray, this`issued, ctrl`otherq
      ensures ok == (|old(ctrl.otherq)| != ctrl.max)
      ensures Now() == if ok then Give(dims, old(Now()), r, b) else old(Now())
      ensures Received(old(Now()), Now())
      ensures ok ==>
        ctrl.otherq == old(ctrl.otherq) + [Other(true, Target(r, b, Count(old(issued), r, b) % dims.sas))]
    {
      GiveReceived(dims, Now(), r, b);
      ReceivedNothing(Now(), Now());
      hide Received;
      ok := ctrl.Enqueue(Other(true, Target(r, b, subarray[r][b])));
      if ok {
        issued := issued + [Target(r, b, subarray[r][b])];
        backlog := backlog[r := backlog[r][b := backlog[r][b] + 1]];
        subarray := subarray[r := subarray[r][b := (subarray[r][b] + 1) % dims.sas]];
      }
    }

    // ----------------------------------------------------------- early pull-in

    /** Which banks a read is waiting for. */
    method Occupied() returns (occupied: set<(int, int)>)
      ensures forall k :: k in occupied <==> k in ctrl.readq
    {
      occupied := {};
      for i := 0 to |ctrl.readq|
        invariant forall k :: k in occupied <==> k in ctrl.readq[..i]
      {
        occupied := occupied + {ctrl.readq[i]};
      }
    }

    method IsBankPending(r: int, b: int) returns (pending: bool)
      ensures pending == BankPending(ctrl.otherq, r, b)
    {
      for i := 0 to |ctrl.otherq|
        invariant forall j :: 0 <= j < i ==>
          !(ctrl.otherq[j].refresh && ctrl.otherq[j].target.rank == r && ctrl.otherq[j].target.bank == b)
      {
        var o := ctrl.otherq[i];
        if o.refresh && o.target.rank == r && o.target.bank == b { return true; }
      }
      return false;
    }

    /** rand(). */
    method Rand() returns (x: nat)
    {
      x := *;
    }

    /** The bank of rank r to pull in; -1 exactly when no bank of the rank may be. The
        search starts anywhere and wraps around. */
    method PickEarly(r: int, occupied: set<(int, int)>) returns (bank: int)
      requires BookOk(dims, Account()) && 0 <= r < dims.ranks && forall k :: k in occupied <==> k in ctrl.readq
      ensures bank != -1 ==> Pullable(dims, Account(), ctrl.readq, ctrl.otherq, ctrl.max, r, bank)
      ensures bank == -1 ==> forall b :: !Pullable(dims, Account(), ctrl.readq, ctrl.otherq, ctrl.max, r, b)
    {
      var x := Rand();
      var start := x % dims.banks;
      for i := 0 to dims.banks
        invariant forall j :: 0 <= j < i ==>
          !Pullable(dims, Account(), ctrl.readq, ctrl.otherq, ctrl.max, r, Wrap(start, j, dims.banks))
      {
        WrapIsMod(start, i, dims.banks);
        var b := (start + i) % dims.banks;
        if (r, b) !in occupied {
          var pending := IsBankPending(r, b);
          if !pending && backlog[r][b] < EARLY_PULL && |ctrl.otherq| < ctrl.max { return b; }
        }
      }
      forall b ensures !Pullable(dims, Account(), ctrl.readq, ctrl.otherq, ctrl.max, r, b) {
        if 0 <= b < dims.banks { WrapCovers(start, b, dims.banks); }
      }
      return -1;
    }

    /** One rank of early_inject_refresh. */
    method EarlyRank(r: int, occupied: set<(int, int)>) returns (ghost bank: int)
      requires BookOk(dims, Account()) && 0 <= r < dims.ranks && forall k :: k in occupied <==> k in ctrl.readq
      modifies this`backlog, this`subarray, this`issued, ctrl`otherq
      ensures EarlyPick(dims, old(Now()), ctrl.readq, ctrl.max, r, bank) && (bank == -1 || 0 <= bank < dims.banks)
      ensures Now() == if bank == -1 then old(Now()) else Give(dims, old(Now()), r, bank)
    {
      ghost var s := Now();
      var b := PickEarly(r, occupied);
      bank := b;
      assert s.book == Account() && s.otherq == ctrl.otherq;
      assert EarlyPick(dims, s, ctrl.readq, ctrl.max, r, b);
      if b != -1 {
        var ok := Refresh(r, b);
      }
    }

    /** early_inject_refresh: nothing in write mode; in read mode every rank pulls in a
        refresh of a bank that qualifies, if any does. */
    method EarlyInject() returns (ghost picks: seq<int>)
      requires BookOk(dims, Account())
      modifies this`backlog, this`subarray, this`issued, ctrl`otherq
      ensures |picks| == (if ctrl.writeMode then 0 else dims.ranks)
      ensures EarlyPicks(dims, old(Now()), ctrl.readq, ctrl.max, picks) && Now() == GiveAll(dims, old(Now()), picks)
      ensures Received(old(Now()), Now())
    {
      ghost var s := Now();
      hide BookOk, Give, GiveAll, EarlyPick, Pullable, Received;
      picks := [];
      NoPicks(dims, Now(), ctrl.readq, ctrl.writeq, ctrl.max);
      GiveAllReceived(dims, s, picks);
      if ctrl.writeMode { return; }
      var occupied := Occupied();
      for r := 0 to dims.ranks
        invariant |picks| == r && EarlyPicks(dims, old(Now()), ctrl.readq, ctrl.max, picks)
        invariant Now() == GiveAll(dims, old(Now()), picks)
      {
        ghost var bank := EarlyRank(r, occupied);
        NextPick(dims, old(Now()), picks, bank);
        NextEarlyPick(dims, old(Now()), ctrl.readq, ctrl.max, picks, bank);
        picks := picks + [bank];
      }
      GiveAllReceived(dims, s, picks);
    }

    // ----------------------------------------- write-refresh parallelization

    method IsRankPending(r: int) returns (pending: bool)
      ensures pending == RankPending(ctrl.otherq, r)
    {
      for i := 0 to |ctrl.otherq|
        invariant forall j :: 0 <= j < i ==> !(ctrl.otherq[j].refresh && ctrl.otherq[j].target.rank == r)
      {
        if ctrl.otherq[i].refresh && ctrl.otherq[i].target.rank == r { return true; }
      }
      return false;
    }

    /** The demand of every bank of rank r, writes then reads, and whether it has writes. */
    method Demand(r: int) returns (demand: seq<int>, writes: int)
      requires 0 <= r < dims.ranks && Addressed(dims, ctrl.readq) && Addressed(dims, ctrl.writeq)
      ensures |demand| == dims.banks
      ensures forall b :: 0 <= b < dims.banks ==> demand[b] == Load(ctrl.writeq, r, b) + Load(ctrl.readq, r, b)
      ensures writes >= 0 && (writes > 0 <==> RankUsed(ctrl.writeq, r))
    {
      demand := seq(dims.banks, _ => 0);
      writes := 0;
      for i := 0 to |ctrl.writeq|
        invariant |demand| == dims.banks && writes >= 0 && (writes > 0 <==> RankUsed(ctrl.writeq[..i], r))
        invariant forall b :: 0 <= b < dims.banks ==> demand[b] == Load(ctrl.writeq[..i], r, b)
      {
        LoadNext(ctrl.writeq, i, r);
        var q := ctrl.writeq[i];
        if q.0 == r {
          demand := demand[q.1 := demand[q.1] + 1];
          writes := writes + 1;
        }
      }
      assert ctrl.writeq[..|ctrl.writeq|] == ctrl.writeq;
      for i := 0 to |ctrl.readq|
        invariant |demand| == dims.banks
        invariant forall b :: 0 <= b < dims.banks ==> demand[b] == Load(ctrl.writeq, r, b) + Load(ctrl.readq[..i], r, b)
      {
        LoadNext(ctrl.readq, i, r);
        var q := ctrl.readq[i];
        if q.0 == r { demand := demand[q.1 := demand[q.1] + 1]; }
      }
      assert ctrl.readq[..|ctrl.readq|] == ctrl.readq;
    }

    /** std::sort on the pairs by demand: some ordering, with ties in any order. */
    method Sort(demand: seq<int>) returns (sorted: seq<(int, int)>)
      ensures Sorting(demand, sorted)
    {
      sorted := [];
      for b := 0 to |demand|
        invariant Sorting(demand[..b], sorted)
      {
        var p := 0;
        while p < |sorted| && sorted[p].0 <= demand[b]
          invariant 0 <= p <= |sorted| && forall j :: 0 <= j < p ==> sorted[j].0 <= demand[b]
        {
          p := p + 1;
        }
        InsertSorted(demand, b, sorted, p);
        sorted := sorted[..p] + [(demand[b], b)] + sorted[p..];
      }
      assert demand[..|demand|] == demand;
    }

    /** The bank wrp settles on: the entry its search finds is never past the second,
        so the draw is always of the first, a least demanded bank. */
    method PickIdle(r: int) returns (bank: int)
      requires 0 <= r < dims.ranks && DimsOk(dims) && Addressed(dims, ctrl.readq) && Addressed(dims, ctrl.writeq)
      ensures bank == -1 <==> !RankUsed(ctrl.writeq, r)
      ensures bank != -1 ==> LeastDemanded(dims, ctrl.readq, ctrl.writeq, r, bank)
    {
      var demand, writes := Demand(r);
      if writes == 0 { return -1; }
      var sorted := Sort(demand);
      var top := 0;
      var i := 0;
      while i < dims.banks
        invariant 0 <= i <= dims.banks && top == 0
        invariant forall j :: 0 <= j < i ==> sorted[j].1 == 0
      {
        if sorted[i].1 != 0 {
          top := i;
          break;
        }
        i := i + 1;
      }
      AtMostOneZero(demand, sorted, top);
      var x := Rand();
      var at := if top == 0 then 0 else x % top;
      bank := sorted[at].1;
    }

    /** One rank of wrp. */
    method WriteRank(r: int) returns (ghost bank: int)
      requires BookOk(dims, Account()) && 0 <= r < dims.ranks
      requires Addressed(dims, ctrl.readq) && Addressed(dims, ctrl.writeq)
      modifies this`backlog, this`subarray, this`issued, ctrl`otherq
      ensures WritePick(dims, old(Now()), ctrl.readq, ctrl.writeq, ctrl.max, r, bank)
          && (bank == -1 || 0 <= bank < dims.banks)
      ensures Now() == if bank == -1 then old(Now()) else Give(dims, old(Now()), r, bank)
    {
      bank := -1;
      var pending := IsRankPending(r);
      if pending { return; }
      var b := PickIdle(r);
      if b == -1 { return; }
      if backlog[r][b] < BACKLOG_MAX && |ctrl.otherq| < ctrl.max {
        bank := b;
        var ok := Refresh(r, b);
      }
    }

    /** wrp: every rank with writes and no refresh waiting refreshes a least demanded bank. */
    method WriteRefresh() returns (ghost picks: seq<int>)
      requires BookOk(dims, Account()) && Addressed(dims, ctrl.readq) && Addressed(dims, ctrl.writeq)
      modifies this`backlog, this`subarray, this`issued, ctrl`otherq
      ensures |picks| == dims.ranks && WritePicks(dims, old(Now()), ctrl.readq, ctrl.writeq, ctrl.max, picks)
      ensures Now() == GiveAll(dims, old(Now()), picks) && Received(old(Now()), Now())
    {
      ghost var s := Now();
      hide BookOk, Give, GiveAll, WritePick, Received;
      picks := [];
      NoPicks(dims, Now(), ctrl.readq, ctrl.writeq, ctrl.max);
      for r := 0 to dims.ranks
        invariant |picks| == r && WritePicks(dims, old(Now()), ctrl.readq, ctrl.writeq, ctrl.max, picks)
        invariant Now() == GiveAll(dims, old(Now()), picks)
      {
        ghost var bank := WriteRank(r);
        NextPick(dims, old(Now()), picks, bank);
        NextWritePick(dims, old(Now()), ctrl.readq, ctrl.writeq, ctrl.max, picks, bank);
        picks := picks + [bank];
      }
      GiveAllReceived(dims, s, picks);
    }

    // --------------------------------------------------------------- injection

    method IsAnyPending() returns (pending: bool)
      ensures pending == AnyPending(ctrl.otherq)
    {
      for i := 0 to |ctrl.otherq|
        invariant forall j :: 0 <= j < i ==> !ctrl.otherq[j].refresh
      {
        if ctrl.otherq[i].refresh { return true; }
      }
      return false;
    }

    method ElapseSlot(r: int)
      requires BookOk(dims, Account()) && 0 <= r < dims.ranks
      modifies this`backlog, this`counters, this`slots
      ensures Account() == Slot(dims, old(Account()), r)
    {
      var b := counters[r];
      backlog := backlog[r := backlog[r][b := backlog[r][b] - 1]];
      counters := counters[r := (b + 1) % dims.banks];
      slots := slots[r := slots[r] + 1];
    }

    /** One rank of inject_refresh: the slot of its next bank elapses, and is used at once
        or skipped; false is the failed assert of refresh_target. */
    method InjectRank(r: int) returns (ok: bool)
      requires BookOk(dims, Account()) && 0 <= r < dims.ranks
      modifies this`backlog, this`subarray, this`issued, this`counters, this`slots, ctrl`otherq
      ensures (Now(), ok) == InjectOne(dims, policy, old(Now()), ctrl.readq, ctrl.max, r)
    {
      if policy.REFAB? {
        ok := ctrl.Enqueue(Other(true, Target(r, -1, -1)));
        if ok { issued := issued + [Target(r, -1, -1)]; }
        return;
      }
      var b := counters[r];
      SlotOk(dims, Account(), r);
      ElapseSlot(r);
      if OutOfOrder(policy) {
        var pending := IsAnyPending();
        var now := !pending && |ctrl.readq| == 0;
        if backlog[r][b] <= BACKLOG_MIN { now := true; }
        if !now { return true; }
      }
      ok := Refresh(r, b);
    }

    /** inject_refresh, rank by rank. */
    method Inject() returns (ok: bool)
      requires BookOk(dims, Account())
      modifies this`backlog, this`subarray, this`issued, this`counters, this`slots, this`refreshed, this`injections,
               ctrl`otherq
      ensures var (t, done) := InjectAll(dims, policy, old(Now()), ctrl.readq, ctrl.max, dims.ranks);
        ok == done && (ok ==> Now() == t)
      ensures ok ==> refreshed == clk && injections == old(injections) + 1
      ensures Received(old(Now()), Now())
      ensures policy.REFAB? && ok ==> ctrl.otherq == old(ctrl.otherq) + Requests(WholeRanks(dims.ranks))
    {
      ghost var s := Now();
      hide BookOk, InjectOne, Received;
      for r := 0 to dims.ranks
        invariant BookOk(dims, Account()) && injections == old(injections)
        invariant (Now(), true) == InjectAll(dims, policy, old(Now()), ctrl.readq, ctrl.max, r)
      {
        var one := InjectRank(r);
        if !one {
          InjectStops(dims, policy, old(Now()), ctrl.readq, ctrl.max, r + 1, dims.ranks);
          InjectReceived(dims, policy, s, ctrl.readq, ctrl.max, r + 1);
          return false;
        }
      }
      InjectReceived(dims, policy, s, ctrl.readq, ctrl.max, dims.ranks);
      refreshed := clk;
      injections := injections + 1;
      ok := true;
    }

    /** One tick: wrp when the controller turns to writes, then the early refreshes of read
        mode, then, an interval after the last one, an injection. It fails only where the
        injection finds the queue full; otherwise every account is in order again and
        every credit within its bounds, whatever the queues held. */
    method Tick() returns (ok: bool, ghost writes: seq<int>, ghost pulls: seq<int>)
      requires Valid() && Addressed(dims, ctrl.readq) && Addressed(dims, ctrl.writeq)
      modifies this, ctrl`otherq
      ensures ok ==> Valid() && injections == clk / interval
      ensures clk == old(clk) + 1
          && ctrlWriteMode == (if OutOfOrder(policy) then ctrl.writeMode else old(ctrlWriteMode))
      ensures |writes| == (if OutOfOrder(policy) && !old(ctrlWriteMode) && ctrl.writeMode then dims.ranks else 0)
      ensures |pulls| == (if OutOfOrder(policy) && !ctrl.writeMode then dims.ranks else 0)
      ensures WritePicks(dims, old(Now()), ctrl.readq, ctrl.writeq, ctrl.max, writes)
      ensures EarlyPicks(dims, GiveAll(dims, old(Now()), writes), ctrl.readq, ctrl.max, pulls)
      ensures var s := GiveAll(dims, GiveAll(dims, old(Now()), writes), pulls);
        if clk - old(refreshed) < interval then ok && Now() == s && refreshed == old(refreshed)
        else
          var (t, done) := InjectAll(dims, policy, s, ctrl.readq, ctrl.max, dims.ranks);
          ok == done && (ok ==> Now() == t && refreshed == clk)
      ensures |old(ctrl.otherq)| + 3 * dims.ranks <= ctrl.max ==> ok
      ensures Received(old(Now()), Now())
      ensures policy.REFAB? && ok ==>
        ctrl.otherq == old(ctrl.otherq)
          + if clk - old(refreshed) < interval then [] else Requests(WholeRanks(dims.ranks))
    {
      NoPicks(dims, Now(), ctrl.readq, ctrl.writeq, ctrl.max);
      ghost var s0 := Now();
      hide Received, Count;
      ReceivedNothing(s0, s0);
      clk := clk + 1;
      writes, pulls := [], [];
      hide BookOk, CreditsOk, EarlyPicks, WritePicks, GiveAll, InjectAll;
      if OutOfOrder(policy) {
        writes, pulls := RefreshAround();
      }
      ghost var s1 := Now();
      ok := InjectIfDue();
      ReceivedTrans(s0, s1, Now());
      if ok { Injections(clk, refreshed, injections, interval); }
    }

    /** The two places that pull refreshes in ahead of their slots. */
    method RefreshAround() returns (ghost writes: seq<int>, ghost pulls: seq<int>)
      requires InOrder() && OutOfOrder(policy) && Addressed(dims, ctrl.readq) && Addressed(dims, ctrl.writeq)
      modifies this`backlog, this`subarray, this`issued, this`ctrlWriteMode, ctrl`otherq
      ensures InOrder() && ctrlWriteMode == ctrl.writeMode
      ensures |writes| == (if !old(ctrlWriteMode) && ctrl.writeMode then dims.ranks else 0)
      ensures |pulls| == (if ctrl.writeMode then 0 else dims.ranks)
      ensures WritePicks(dims, old(Now()), ctrl.readq, ctrl.writeq, ctrl.max, writes)
      ensures EarlyPicks(dims, GiveAll(dims, old(Now()), writes), ctrl.readq, ctrl.max, pulls)
      ensures Now() == GiveAll(dims, GiveAll(dims, old(Now()), writes), pulls)
      ensures Received(old(Now()), Now())
    {
      hide BookOk, CreditsOk, EarlyPick, WritePick, Give, Count, Received;
      writes := [];
      ghost var s0 := Now();
      ReceivedNothing(s0, s0);
      if !ctrlWriteMode && ctrl.writeMode { writes := WriteRefresh(); }
      WriteCredits(dims, policy, s0, ctrl.readq, ctrl.writeq, ctrl.max, writes);
      PicksKeepSlots(dims, s0, writes);
      hide GiveAll, WritePicks;
      ctrlWriteMode := ctrl.writeMode;
      ghost var s1 := Now();
      pulls := EarlyInject();
      EarlyCredits(dims, policy, s1, ctrl.readq, ctrl.max, pulls);
      PicksKeepSlots(dims, s1, pulls);
      ReceivedTrans(s0, s1, Now());
    }

    method InjectIfDue() returns (ok: bool)
      requires InOrder() && 0 <= clk - refreshed <= interval
      modifies this`backlog, this`subarray, this`issued, this`counters, this`slots, this`refreshed, this`injections,
               ctrl`otherq
      ensures ok ==> Valid()
      ensures clk - old(refreshed) < interval ==> ok && Now() == old(Now()) && refreshed == old(refreshed)
      ensures clk - old(refreshed) >= interval ==>
        var (t, done) := InjectAll(dims, policy, old(Now()), ctrl.readq, ctrl.max, dims.ranks);
        ok == done && (ok ==> Now() == t && refreshed == clk)
      ensures Received(old(Now()), Now())
      ensures policy.REFAB? && ok ==>
        ctrl.otherq == old(ctrl.otherq)
          + if clk - old(refreshed) < interval then [] else Requests(WholeRanks(dims.ranks))
    {
      hide BookOk, CreditsOk, InjectAll, Count, Received;
      ok := true;
      ghost var s := Now();
      ReceivedNothing(s, s);
      if clk - refreshed >= interval {
        ok := Inject();
        if ok {
          InjectCredits(dims, policy, s, ctrl.readq, ctrl.max, dims.ranks);
          if policy.REFAB? { WholeInjection(dims, policy, s, ctrl.readq, ctrl.max); }
        }
      }
    }
  }

  /** Once an injection has failed, it goes no further. */
  lemma {:induction false} InjectStops(d: Dims, p: Policy, s: Ledger, readq: seq<(int, int)>, max: nat, m: nat, n: nat)
    requires BookOk(d, s.book) && m <= n <= d.ranks && !InjectAll(d, p, s, readq, max, m).1
    ensures !InjectAll(d, p, s, readq, max, n).1
  {
    hide BookOk, InjectOne;
    if m < n { InjectStops(d, p, s, readq, max, m, n - 1); }
  }

  /** Between any two ticks, every bank has had its share of refreshes: exactly as many
      as its slots when refreshes are in order, and otherwise at most seven fewer and
      eight more. */
  lemma RateGuarantee(s: Scheduler, r: int, b: int)
    requires s.Valid() && !s.policy.REFAB? && ValidBank(s.dims, r, b) && s.clk / s.interval >= b
    ensures var due := (s.clk / s.interval - b + s.dims.banks - 1) / s.dims.banks; var had := Count(s.issued, r, b);
      if OutOfOrder(s.policy) then due - 7 <= had <= due + 8 else had == due
  {
    Injections(s.clk, s.refreshed, s.injections, s.interval);
    assert CreditOk(s.policy, s.backlog[r][b]) && s.slots[r] == s.injections;
    RefreshRate(s.dims, s.Account(), r, b);
    hide Count, BookOk;
  }

  /** With refreshes of whole ranks, every rank has had exactly one for each whole interval. */
  lemma WholeRate(s: Scheduler, r: int)
    requires s.Valid() && s.policy.REFAB? && 0 <= r < s.dims.ranks
    ensures Count(s.issued, r, -1) == s.clk / s.interval
  {
    Injections(s.clk, s.refreshed, s.injections, s.interval);
    hide BookOk, CreditsOk, Count;
  }

  /** After t ticks exactly floor(t / interval) injections have happened. */
  lemma Injections(clk: int, refreshed: int, injections: nat, interval: int)
    requires interval > 0 && refreshed == injections * interval && 0 <= clk - refreshed < interval
    ensures injections == clk / interval
  {
    assert clk == interval * injections + (clk - refreshed);
    DivUnique(clk, interval, injections, clk - refreshed);
  }

  // -------------------------------------------------------------- helpers

  lemma LoadNext(q: seq<(int, int)>, i: nat, r: int)
    requires i < |q|
    ensures forall b :: Load(q[..i + 1], r, b) == Load(q[..i], r, b) + if q[i] == (r, b) then 1 else 0
    ensures RankUsed(q[..i + 1], r) <==> RankUsed(q[..i], r) || q[i].0 == r
  {
    assert q[..i + 1][..i] == q[..i];
    assert q[..i + 1][i] == q[i];
    assert forall j :: 0 <= j < i ==> q[..i + 1][j] == q[..i][j];
  }

  /** A permutation of the pairs (demand of b, b), by demand. */
  ghost predicate Sorting(demand: seq<int>, sorted: seq<(int, int)>) {
    && |sorted| == |demand|
    && (forall i :: 0 <= i < |sorted| ==> 0 <= sorted[i].1 < |demand| && sorted[i].0 == demand[sorted[i].1])
    && (forall i, j :: 0 <= i < j < |sorted| ==> sorted[i].0 <= sorted[j].0 && sorted[i].1 != sorted[j].1)
    && (forall b :: 0 <= b < |demand| ==> Listed(demand, sorted, b))
  }

  ghost predicate Listed(demand: seq<int>, sorted: seq<(int, int)>, b: int)
    requires 0 <= b < |demand|
  {
    exists j :: 0 <= j < |sorted| && sorted[j] == (demand[b], b)
  }

  lemma InsertSorted(demand: seq<int>, b: nat, sorted: seq<(int, int)>, p: nat)
    requires b < |demand| && Sorting(demand[..b], sorted) && p <= |sorted|
    requires forall j :: 0 <= j < p ==> sorted[j].0 <= demand[b]
    requires p < |sorted| ==> sorted[p].0 > demand[b]
    ensures Sorting(demand[..b + 1], sorted[..p] + [(demand[b], b)] + sorted[p..])
  {
    var out := sorted[..p] + [(demand[b], b)] + sorted[p..];
    forall i | 0 <= i < |out| ensures 0 <= out[i].1 < b + 1 && out[i].0 == demand[..b + 1][out[i].1] {
      InsertAt(sorted, p, (demand[b], b), i);
    }
    forall i, j | 0 <= i < j < |out| ensures out[i].0 <= out[j].0 && out[i].1 != out[j].1 {
      InsertAt(sorted, p, (demand[b], b), i);
      InsertAt(sorted, p, (demand[b], b), j);
    }
    var d := demand[..b + 1];
    forall c | 0 <= c < |d| ensures Listed(d, out, c) {
      if c < b { FoundAgain(demand, b, sorted, p, c); } else { assert out[p] == (demand[b], b); }
    }
  }

  lemma InsertAt(sorted: seq<(int, int)>, p: nat, x: (int, int), i: nat)
    requires p <= |sorted| && i <= |sorted|
    ensures (sorted[..p] + [x] + sorted[p..])[i] == if i < p then sorted[i] else if i == p then x else sorted[i - 1]
  {}

  lemma FoundAgain(demand: seq<int>, b: nat, sorted: seq<(int, int)>, p: nat, c: nat)
    requires c < b < |demand| && Sorting(demand[..b], sorted) && p <= |sorted|
    ensures Listed(demand[..b + 1], sorted[..p] + [(demand[b], b)] + sorted[p..], c)
  {
    var out := sorted[..p] + [(demand[b], b)] + sorted[p..];
    assert Listed(demand[..b], sorted, c);
    var j :| 0 <= j < |sorted| && sorted[j] == (demand[c], c);
    assert out[if j < p then j else j + 1] == (demand[c], c);
  }

  /** Only one entry names bank 0, so the first entry that does not is the first or second. */
  lemma AtMostOneZero(demand: seq<int>, sorted: seq<(int, int)>, top: nat)
    requires Sorting(demand, sorted) && top < |sorted| && forall j :: 0 <= j < top ==> sorted[j].1 == 0
    ensures top <= 1
    ensures forall b :: 0 <= b < |demand| ==> sorted[0].0 <= demand[b]
  {
    if |sorted| >= 2 { assert sorted[0].1 != sorted[1].1; }
    forall b | 0 <= b < |demand| ensures sorted[0].0 <= demand[b] {
      assert Listed(demand, sorted, b);
    }
  }
}
