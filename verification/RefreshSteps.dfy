/** What one tick of the refresh scheduler of ramulator/Refresh.cpp may do to its
    accounts and to the controller's queue, given what is queued. */
module RefreshSteps {
  import opened RefreshBook

  /** A request in the queue for refreshes and the like. */
  datatype Other = Other(refresh: bool, target: Target)

  predicate Addressed(d: Dims, q: seq<(int, int)>) { forall i :: 0 <= i < |q| ==> ValidBank(d, q[i].0, q[i].1) }

  /** A refresh of this very bank is waiting. */
  predicate BankPending(otherq: seq<Other>, r: int, b: int) {
    exists i :: 0 <= i < |otherq| && otherq[i].refresh && otherq[i].target.rank == r && otherq[i].target.bank == b
  }

  predicate RankPending(otherq: seq<Other>, r: int) {
    exists i :: 0 <= i < |otherq| && otherq[i].refresh && otherq[i].target.rank == r
  }

  predicate AnyPending(otherq: seq<Other>) { exists i :: 0 <= i < |otherq| && otherq[i].refresh }

  /** Requests in q for a bank. */
  function Load(q: seq<(int, int)>, r: int, b: int): nat {
    if q == [] then 0 else Load(q[..|q| - 1], r, b) + (if q[|q| - 1] == (r, b) then 1 else 0)
  }

  predicate RankUsed(q: seq<(int, int)>, r: int) { exists i :: 0 <= i < |q| && q[i].0 == r }

  // ------------------------------------------------- what each place may do

  /** A bank early_inject_refresh may pull in: idle, not already waiting, about to run out
      of credit. */
  predicate Pullable(d: Dims, k: Book, readq: seq<(int, int)>, otherq: seq<Other>, max: nat, r: int, b: int)
    requires Sized(d, k)
  {
    ValidBank(d, r, b) && (r, b) !in readq && !BankPending(otherq, r, b) && k.backlog[r][b] < -6
      && |otherq| < max
  }

  /** A bank of rank r that no bank of the rank has less demand than. */
  predicate LeastDemanded(d: Dims, readq: seq<(int, int)>, writeq: seq<(int, int)>, r: int, b: int) {
    ValidBank(d, r, b)
      && forall c :: 0 <= c < d.banks ==>
        Load(writeq, r, b) + Load(readq, r, b) <= Load(writeq, r, c) + Load(readq, r, c)
  }

  /** Whether a slot of rank r is used at once: always for in-order policies, otherwise
      when nothing else is going on or the bank has no credit left. */
  predicate MustRefresh(p: Policy, k: Book, readq: seq<(int, int)>, otherq: seq<Other>, r: int, b: int)
    requires 0 <= r < |k.backlog| && 0 <= b < |k.backlog[r]|
  {
    !OutOfOrder(p) || (!AnyPending(otherq) && readq == []) || k.backlog[r][b] <= -8
  }

  predicate CreditOk(p: Policy, v: int) { if OutOfOrder(p) then -7 <= v <= 8 else v == 0 }

  ghost predicate CreditsOk(d: Dims, p: Policy, k: Book)
    requires Sized(d, k)
  {
    forall r, b :: ValidBank(d, r, b) ==> CreditOk(p, k.backlog[r][b])
  }

  // ---------------------------------------------------------- several ranks

  /** The accounts and the queue together. */
  datatype Ledger = Ledger(book: Book, otherq: seq<Other>)

  function Give(d: Dims, s: Ledger, r: int, b: int): (t: Ledger)
    requires BookOk(d, s.book) && ValidBank(d, r, b)
    ensures BookOk(d, t.book) && |t.otherq| == |s.otherq| + 1
  {
    GrantOk(d, s.book, r, b);
    Ledger(Grant(d, s.book, r, b), s.otherq + [Other(true, Target(r, b, s.book.subarray[r][b]))])
  }

  predicate PicksOk(d: Dims, picks: seq<int>) {
    |picks| <= d.ranks && forall r :: 0 <= r < |picks| ==> picks[r] == -1 || 0 <= picks[r] < d.banks
  }

  /** One refresh to bank picks[r] of every rank r; -1 is none. */
  function GiveAll(d: Dims, s: Ledger, picks: seq<int>): (t: Ledger)
    requires BookOk(d, s.book) && PicksOk(d, picks)
    ensures BookOk(d, t.book) && |s.otherq| <= |t.otherq| <= |s.otherq| + |picks|
  {
    if picks == [] then s
    else
      var r := |picks| - 1;
      var t := GiveAll(d, s, picks[..r]);
      if picks[r] == -1 then t else Give(d, t, r, picks[r])
  }

  /** The bank early_inject_refresh picks in rank r; none exactly when none qualifies. */
  ghost predicate EarlyPick(d: Dims, s: Ledger, readq: seq<(int, int)>, max: nat, r: int, pick: int)
    requires BookOk(d, s.book)
  {
    if pick == -1 then forall b :: !Pullable(d, s.book, readq, s.otherq, max, r, b)
    else Pullable(d, s.book, readq, s.otherq, max, r, pick)
  }

  /** The bank wrp refreshes in rank r: a least demanded one, if the rank has writes, no
      refresh waits in it, the bank has credit to spare and the queue has room. */
  ghost predicate WritePick(d: Dims, s: Ledger, readq: seq<(int, int)>, writeq: seq<(int, int)>, max: nat, r: int,
        pick: int)
    requires BookOk(d, s.book) && 0 <= r < d.ranks
  {
    if RankPending(s.otherq, r) || !RankUsed(writeq, r) then pick == -1
    else
      exists b ::
        && LeastDemanded(d, readq, writeq, r, b)
        && pick == if s.book.backlog[r][b] < 8 && |s.otherq| < max then b else -1
  }

  /** Each rank picks in the state that the ranks before it have left. */
  ghost predicate EarlyPicks(d: Dims, s: Ledger, readq: seq<(int, int)>, max: nat, picks: seq<int>)
    requires BookOk(d, s.book)
  {
    PicksOk(d, picks)
      && forall r :: 0 <= r < |picks| ==> EarlyPick(d, GiveAll(d, s, picks[..r]), readq, max, r, picks[r])
  }

  ghost predicate WritePicks(d: Dims, s: Ledger, readq: seq<(int, int)>, writeq: seq<(int, int)>, max: nat,
        picks: seq<int>)
    requires BookOk(d, s.book)
  {
    PicksOk(d, picks)
    && forall r :: 0 <= r < |picks| ==> WritePick(d, GiveAll(d, s, picks[..r]), readq, writeq, max, r, picks[r])
  }

  /** One rank of inject_refresh; false is the failed assert of refresh_target. */
  function InjectOne(d: Dims, p: Policy, s: Ledger, readq: seq<(int, int)>, max: nat, r: int): (t: (Ledger, bool))
    requires BookOk(d, s.book) && 0 <= r < d.ranks
    ensures BookOk(d, t.0.book) && |s.otherq| <= |t.0.otherq| <= |s.otherq| + 1
    ensures |s.otherq| < max ==> t.1
  {
    if p.REFAB? then
      if |s.otherq| == max then (s, false) else (WholeRank(d, s, r), true)
    else
      var b := s.book.counters[r];
      SlotOk(d, s.book, r);
      var u := s.(book := Slot(d, s.book, r));
      if !MustRefresh(p, u.book, readq, s.otherq, r, b) then (u, true)
      else if |s.otherq| == max then (u, false)
      else (Give(d, u, r, b), true)
  }

  /** The rank-level refresh of REFAB. */
  function WholeRank(d: Dims, s: Ledger, r: int): (t: Ledger)
    requires BookOk(d, s.book)
    ensures BookOk(d, t.book) && |t.otherq| == |s.otherq| + 1
  {
    var target := Target(r, -1, -1);
    WholeRankOk(d, s.book, target);
    Ledger(s.book.(issued := s.book.issued + [target]), s.otherq + [Other(true, target)])
  }

  lemma WholeRankOk(d: Dims, k: Book, t: Target)
    requires BookOk(d, k) && t.bank == -1
    ensures BookOk(d, k.(issued := k.issued + [t]))
  {
    InTurnAppend(d, k.issued, t);
    forall p, b | ValidBank(d, p, b) ensures BankOk(d, k.(issued := k.issued + [t]), p, b) {
      assert BankOk(d, k, p, b);
      CountAppend(k.issued, t, p, b);
    }
  }

  /** inject_refresh on the first n ranks; it stops at a failed assert. */
  function InjectAll(d: Dims, p: Policy, s: Ledger, readq: seq<(int, int)>, max: nat, n: nat): (t: (Ledger, bool))
    requires BookOk(d, s.book) && n <= d.ranks
    ensures BookOk(d, t.0.book)
    ensures |s.otherq| + n <= max ==> t.1 && |t.0.otherq| <= |s.otherq| + n
  {
    if n == 0 then (s, true)
    else
      var (u, ok) := InjectAll(d, p, s, readq, max, n - 1);
      if ok then InjectOne(d, p, u, readq, max, n - 1) else (u, false)
  }

  // ------------------------------------------------------------------ credits

  lemma GiveCredits(d: Dims, p: Policy, s: Ledger, r: int, b: int)
    requires BookOk(d, s.book) && CreditsOk(d, p, s.book) && OutOfOrder(p) && ValidBank(d, r, b)
    requires s.book.backlog[r][b] < BACKLOG_MAX
    ensures CreditsOk(d, p, Give(d, s, r, b).book)
  {
    var t := Give(d, s, r, b);
    forall q, c | ValidBank(d, q, c) ensures CreditOk(p, t.book.backlog[q][c]) {
      assert CreditOk(p, s.book.backlog[q][c]);
    }
  }

  lemma LastPick(d: Dims, s: Ledger, picks: seq<int>)
    requires BookOk(d, s.book) && PicksOk(d, picks) && picks != []
    ensures var r := |picks| - 1; var t := GiveAll(d, s, picks[..r]);
      GiveAll(d, s, picks) == (if picks[r] == -1 then t else Give(d, t, r, picks[r]))
        && (forall q :: 0 <= q < r ==> picks[..r][..q] == picks[..q])
  {
    hide BookOk, Give;
    var r := |picks| - 1;
    forall q | 0 <= q < r ensures picks[..r][..q] == picks[..q] {}
  }

  lemma NoPicks(d: Dims, s: Ledger, readq: seq<(int, int)>, writeq: seq<(int, int)>, max: nat)
    requires BookOk(d, s.book)
    ensures GiveAll(d, s, []) == s && EarlyPicks(d, s, readq, max, []) && WritePicks(d, s, readq, writeq, max, [])
  {}

  /** One rank more. */
  lemma NextPick(d: Dims, s: Ledger, picks: seq<int>, pick: int)
    requires BookOk(d, s.book) && PicksOk(d, picks) && |picks| < d.ranks && (pick == -1 || 0 <= pick < d.banks)
    ensures var next := picks + [pick]; var t := GiveAll(d, s, picks);
      && PicksOk(d, next) && (forall q :: 0 <= q <= |picks| ==> next[..q] == picks[..q]) && next[..|picks|] == picks
      && GiveAll(d, s, next) == if pick == -1 then t else Give(d, t, |picks|, pick)
  {
    hide BookOk, Give;
    var next := picks + [pick];
    forall q | 0 <= q <= |picks| ensures next[..q] == picks[..q] {}
    assert next[..|picks|] == picks;
  }

  lemma NextEarlyPick(d: Dims, s: Ledger, readq: seq<(int, int)>, max: nat, picks: seq<int>, pick: int)
    requires BookOk(d, s.book) && EarlyPicks(d, s, readq, max, picks) && |picks| < d.ranks
    requires EarlyPick(d, GiveAll(d, s, picks), readq, max, |picks|, pick) && (pick == -1 || 0 <= pick < d.banks)
    ensures EarlyPicks(d, s, readq, max, picks + [pick])
  {
    hide BookOk, EarlyPick, GiveAll;
    NextPick(d, s, picks, pick);
    var next := picks + [pick];
    forall r | 0 <= r < |next| ensures EarlyPick(d, GiveAll(d, s, next[..r]), readq, max, r, next[r]) {
      assert next[..r] == picks[..r];
      if r < |picks| { assert next[r] == picks[r]; } else { assert picks[..r] == picks; }
    }
  }

  lemma NextWritePick(d: Dims, s: Ledger, readq: seq<(int, int)>, writeq: seq<(int, int)>, max: nat, picks: seq<int>,
        pick: int)
    requires BookOk(d, s.book) && WritePicks(d, s, readq, writeq, max, picks) && |picks| < d.ranks
    requires WritePick(d, GiveAll(d, s, picks), readq, writeq, max, |picks|, pick)
        && (pick == -1 || 0 <= pick < d.banks)
    ensures WritePicks(d, s, readq, writeq, max, picks + [pick])
  {
    hide BookOk, WritePick, GiveAll;
    NextPick(d, s, picks, pick);
    var next := picks + [pick];
    forall r | 0 <= r < |next| ensures WritePick(d, GiveAll(d, s, next[..r]), readq, writeq, max, r, next[r]) {
      assert next[..r] == picks[..r];
      if r < |picks| { assert next[r] == picks[r]; } else { assert picks[..r] == picks; }
    }
  }

  lemma {:induction false} EarlyCredits(d: Dims, p: Policy, s: Ledger, readq: seq<(int, int)>, max: nat,
        picks: seq<int>)
    requires BookOk(d, s.book) && CreditsOk(d, p, s.book) && OutOfOrder(p) && EarlyPicks(d, s, readq, max, picks)
    ensures CreditsOk(d, p, GiveAll(d, s, picks).book)
  {
    if picks != [] {
      hide BookOk, CreditsOk, Give, GiveAll;
      var r := |picks| - 1;
      LastPick(d, s, picks);
      EarlyCredits(d, p, s, readq, max, picks[..r]);
      assert EarlyPick(d, GiveAll(d, s, picks[..r]), readq, max, r, picks[r]);
      if picks[r] != -1 { GiveCredits(d, p, GiveAll(d, s, picks[..r]), r, picks[r]); }
    }
  }

  lemma {:induction false} WriteCredits(d: Dims, p: Policy, s: Ledger, readq: seq<(int, int)>,
        writeq: seq<(int, int)>, max: nat, picks: seq<int>)
    requires BookOk(d, s.book) && CreditsOk(d, p, s.book) && OutOfOrder(p)
        && WritePicks(d, s, readq, writeq, max, picks)
    ensures CreditsOk(d, p, GiveAll(d, s, picks).book)
  {
    if picks != [] {
      hide BookOk, CreditsOk, Give, GiveAll;
      var r := |picks| - 1;
      LastPick(d, s, picks);
      WriteCredits(d, p, s, readq, writeq, max, picks[..r]);
      assert WritePick(d, GiveAll(d, s, picks[..r]), readq, writeq, max, r, picks[r]);
      if picks[r] != -1 { GiveCredits(d, p, GiveAll(d, s, picks[..r]), r, picks[r]); }
    }
  }

  /** A slot costs one credit; out of credit, it is used at once. */
  lemma InjectOneCredits(d: Dims, p: Policy, s: Ledger, readq: seq<(int, int)>, max: nat, r: int)
    requires BookOk(d, s.book) && CreditsOk(d, p, s.book) && 0 <= r < d.ranks && InjectOne(d, p, s, readq, max, r).1
    ensures CreditsOk(d, p, InjectOne(d, p, s, readq, max, r).0.book)
    ensures |s.book.slots| == d.ranks
    ensures InjectOne(d, p, s, readq, max, r).0.book.slots
         == if p.REFAB? then s.book.slots else s.book.slots[r := s.book.slots[r] + 1]
  {
    var t := InjectOne(d, p, s, readq, max, r).0;
    forall q, c | ValidBank(d, q, c) ensures CreditOk(p, t.book.backlog[q][c]) {
      assert CreditOk(p, s.book.backlog[q][c]);
    }
  }

  /** Of the slots of every rank, one more has elapsed for the first n. */
  ghost predicate Elapsed(d: Dims, p: Policy, k: Book, l: Book, n: nat) {
    && |k.slots| == |l.slots| == d.ranks
    && forall r :: 0 <= r < d.ranks ==> l.slots[r] == k.slots[r] + if r < n && !p.REFAB? then 1 else 0
  }

  lemma {:induction false} InjectCredits(d: Dims, p: Policy, s: Ledger, readq: seq<(int, int)>, max: nat, n: nat)
    requires BookOk(d, s.book) && CreditsOk(d, p, s.book) && n <= d.ranks && InjectAll(d, p, s, readq, max, n).1
    ensures CreditsOk(d, p, InjectAll(d, p, s, readq, max, n).0.book)
    ensures Elapsed(d, p, s.book, InjectAll(d, p, s, readq, max, n).0.book, n)
  {
    hide *;
    InjectUnfold(d, p, s, readq, max, n);
    if n == 0 {
      NoneElapsed(d, p, s.book);
    } else {
      var u := InjectAll(d, p, s, readq, max, n - 1).0;
      InjectCredits(d, p, s, readq, max, n - 1);
      InjectOneCredits(d, p, u, readq, max, n - 1);
      OneMore(d, p, s.book, u.book, InjectOne(d, p, u, readq, max, n - 1).0.book, n - 1);
    }
  }

  lemma InjectUnfold(d: Dims, p: Policy, s: Ledger, readq: seq<(int, int)>, max: nat, n: nat)
    requires BookOk(d, s.book) && n <= d.ranks && InjectAll(d, p, s, readq, max, n).1
    ensures n == 0 ==> InjectAll(d, p, s, readq, max, n).0 == s
    ensures n > 0 ==>
      && InjectAll(d, p, s, readq, max, n - 1).1
      && InjectAll(d, p, s, readq, max, n)
         == InjectOne(d, p, InjectAll(d, p, s, readq, max, n - 1).0, readq, max, n - 1)
  {
    hide BookOk, InjectOne;
  }

  lemma NoneElapsed(d: Dims, p: Policy, k: Book)
    requires BookOk(d, k)
    ensures Elapsed(d, p, k, k, 0)
  {}

  lemma OneMore(d: Dims, p: Policy, k: Book, l: Book, m: Book, n: nat)
    requires Elapsed(d, p, k, l, n) && n < d.ranks
    requires m.slots == if p.REFAB? then l.slots else l.slots[n := l.slots[n] + 1]
    ensures Elapsed(d, p, k, m, n + 1)
  {}

  lemma {:induction false} PicksKeepSlots(d: Dims, s: Ledger, picks: seq<int>)
    requires BookOk(d, s.book) && PicksOk(d, picks)
    ensures GiveAll(d, s, picks).book.slots == s.book.slots
  {
    if picks != [] { PicksKeepSlots(d, s, picks[..|picks| - 1]); }
  }

  // ------------------------------------------------- what the queue receives

  /** The refresh requests for these targets. */
  function Requests(ts: seq<Target>): seq<Other> { seq(|ts|, i requires 0 <= i < |ts| => Other(true, ts[i])) }

  /** From s to t the queue has received exactly the refreshes newly on record, in their
      order, at its end. */
  predicate Received(s: Ledger, t: Ledger) {
    && s.book.issued <= t.book.issued
    && t.otherq == s.otherq + Requests(t.book.issued[|s.book.issued|..])
  }

  lemma ReceivedNothing(s: Ledger, t: Ledger)
    requires t.otherq == s.otherq && t.book.issued == s.book.issued
    ensures Received(s, t)
  {
    assert t.book.issued[|s.book.issued|..] == [];
  }

  lemma ReceivedOne(s: Ledger, t: Ledger, x: Target)
    requires t.otherq == s.otherq + [Other(true, x)] && t.book.issued == s.book.issued + [x]
    ensures Received(s, t)
  {
    assert t.book.issued[|s.book.issued|..] == [x];
    assert Requests([x]) == [Other(true, x)];
  }

  lemma ReceivedTrans(s: Ledger, t: Ledger, u: Ledger)
    requires Received(s, t) && Received(t, u)
    ensures Received(s, u)
  {
    var a, b := t.book.issued[|s.book.issued|..], u.book.issued[|t.book.issued|..];
    assert u.book.issued[|s.book.issued|..] == a + b;
    assert Requests(a + b) == Requests(a) + Requests(b);
  }

  /** A refresh of a bank goes to the subarray whose turn it is. */
  lemma GiveReceived(d: Dims, s: Ledger, r: int, b: int)
    requires BookOk(d, s.book) && ValidBank(d, r, b)
    ensures Received(s, Give(d, s, r, b))
    ensures Give(d, s, r, b).otherq
         == s.otherq + [Other(true, Target(r, b, Count(s.book.issued, r, b) % d.sas))]
  {
    var t := Give(d, s, r, b);
    assert BankOk(d, s.book, r, b);
    ReceivedOne(s, t, Target(r, b, s.book.subarray[r][b]));
  }

  lemma {:induction false} GiveAllReceived(d: Dims, s: Ledger, picks: seq<int>)
    requires BookOk(d, s.book) && PicksOk(d, picks)
    ensures Received(s, GiveAll(d, s, picks))
  {
    if picks == [] {
      ReceivedNothing(s, GiveAll(d, s, picks));
    } else {
      var r := |picks| - 1;
      var t := GiveAll(d, s, picks[..r]);
      LastPick(d, s, picks);
      GiveAllReceived(d, s, picks[..r]);
      hide BookOk, Give, GiveAll, Received;
      if picks[r] != -1 {
        GiveReceived(d, t, r, picks[r]);
        ReceivedTrans(s, t, Give(d, t, r, picks[r]));
      }
    }
  }

  lemma InjectOneReceived(d: Dims, p: Policy, s: Ledger, readq: seq<(int, int)>, max: nat, r: int)
    requires BookOk(d, s.book) && 0 <= r < d.ranks
    ensures var (t, ok) := InjectOne(d, p, s, readq, max, r);
      && Received(s, t)
      && (p.REFAB? && ok ==> t.otherq == s.otherq + [Other(true, Target(r, -1, -1))])
  {
    var (t, ok) := InjectOne(d, p, s, readq, max, r);
    if p.REFAB? {
      if ok { ReceivedOne(s, t, Target(r, -1, -1)); } else { ReceivedNothing(s, t); }
    } else {
      SlotOk(d, s.book, r);
      var u := s.(book := Slot(d, s.book, r));
      ReceivedNothing(s, u);
      hide BookOk, Give, Slot, Received, MustRefresh;
      if t != u {
        GiveReceived(d, u, r, s.book.counters[r]);
        ReceivedTrans(s, u, t);
      }
    }
  }

  /** A whole-rank refresh for every one of the first n ranks. */
  function WholeRanks(n: nat): seq<Target> { seq(n, r => Target(r, -1, -1)) }

  lemma {:induction false} InjectReceived(d: Dims, p: Policy, s: Ledger, readq: seq<(int, int)>, max: nat, n: nat)
    requires BookOk(d, s.book) && n <= d.ranks
    ensures var (t, ok) := InjectAll(d, p, s, readq, max, n);
      && Received(s, t)
      && (p.REFAB? && ok ==> t.otherq == s.otherq + Requests(WholeRanks(n)))
  {
    hide BookOk, InjectOne, Received;
    if n == 0 {
      ReceivedNothing(s, s);
    } else {
      var (u, ok) := InjectAll(d, p, s, readq, max, n - 1);
      InjectReceived(d, p, s, readq, max, n - 1);
      if ok {
        var (t, ok') := InjectOne(d, p, u, readq, max, n - 1);
        InjectOneReceived(d, p, u, readq, max, n - 1);
        ReceivedTrans(s, u, t);
        assert Requests(WholeRanks(n)) == Requests(WholeRanks(n - 1)) + [Other(true, Target(n - 1, -1, -1))];
      }
    }
  }

  lemma {:induction false} WholeCounts(issued: seq<Target>, n: nat, r: nat)
    ensures Count(issued + WholeRanks(n), r, -1) == Count(issued, r, -1) + if r < n then 1 else 0
  {
    if n == 0 {
      assert issued + WholeRanks(0) == issued;
    } else {
      WholeCounts(issued, n - 1, r);
      assert issued + WholeRanks(n) == (issued + WholeRanks(n - 1)) + [Target(n - 1, -1, -1)];
      CountAppend(issued + WholeRanks(n - 1), Target(n - 1, -1, -1), r, -1);
    }
  }

  /** A rank-level injection counts once for every rank. */
  lemma WholeInjection(d: Dims, p: Policy, s: Ledger, readq: seq<(int, int)>, max: nat)
    requires BookOk(d, s.book) && p.REFAB? && InjectAll(d, p, s, readq, max, d.ranks).1
    ensures var t := InjectAll(d, p, s, readq, max, d.ranks).0;
      forall r :: 0 <= r < d.ranks ==> Count(t.book.issued, r, -1) == Count(s.book.issued, r, -1) + 1
  {
    var t := InjectAll(d, p, s, readq, max, d.ranks).0;
    InjectReceived(d, p, s, readq, max, d.ranks);
    hide BookOk, InjectAll, Count;
    var ts := t.book.issued[|s.book.issued|..];
    SameRequests(ts, WholeRanks(d.ranks), s.otherq);
    assert t.book.issued == s.book.issued + ts;
    forall r | 0 <= r < d.ranks ensures Count(t.book.issued, r, -1) == Count(s.book.issued, r, -1) + 1 {
      WholeCounts(s.book.issued, d.ranks, r);
    }
  }

  lemma SameRequests(a: seq<Target>, b: seq<Target>, q: seq<Other>)
    requires q + Requests(a) == q + Requests(b)
    ensures a == b
  {
    assert |a| == |b|;
    forall i | 0 <= i < |a| ensures a[i] == b[i] {
      assert (q + Requests(a))[|q| + i] == Other(true, a[i]) && (q + Requests(b))[|q| + i] == Other(true, b[i]);
    }
  }

  /** An early refresh comes at the last moment: the bank has used seven of its credits. */
  lemma EarlyIsLate(d: Dims, p: Policy, s: Ledger, readq: seq<(int, int)>, max: nat, r: int, pick: int)
    requires BookOk(d, s.book) && CreditsOk(d, p, s.book) && OutOfOrder(p)
    requires EarlyPick(d, s, readq, max, r, pick) && pick != -1
    ensures ValidBank(d, r, pick) && s.book.backlog[r][pick] == -7
  {
    assert CreditOk(p, s.book.backlog[r][pick]);
  }
}
