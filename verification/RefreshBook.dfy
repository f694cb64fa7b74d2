/** The accounts kept by the out-of-order refresh scheduler of ramulator/Refresh.cpp:
    how far every bank is ahead of, or behind, its refresh schedule. */
module RefreshBook {
  import opened Arithmetic

  /** The refresh mechanisms of DSARP::Type. */
  datatype Policy = REFAB | REFPB | DARP | SARP | DSARP

  predicate OutOfOrder(p: Policy) { p.DARP? || p.DSARP? }

  const BACKLOG_MAX := 8
  const BACKLOG_MIN := -8
  const EARLY_PULL := -6

  /** A refresh request as enqueued; bank and subarray are -1 for a whole rank. */
  datatype Target = Target(rank: int, bank: int, sa: int)

  datatype Dims = Dims(ranks: nat, banks: nat, sas: nat)

  /** The source sizes the subarray counters of a rank by subarrays and indexes them by bank. */
  predicate DimsOk(d: Dims) { 0 < d.banks <= d.sas }

  /** The fields of the scheduler; `issued` and `slots` (refresh slots elapsed, by rank)
      are bookkeeping the source does not have. */
  datatype Book = Book(backlog: seq<seq<int>>, subarray: seq<seq<int>>, counters: seq<int>,
                       issued: seq<Target>, slots: seq<nat>)

  predicate ValidBank(d: Dims, r: int, b: int) { 0 <= r < d.ranks && 0 <= b < d.banks }

  /** Refreshes issued to a bank so far. */
  function Count(issued: seq<Target>, r: int, b: int): nat {
    if issued == [] then 0
    else
      var t := issued[|issued| - 1];
      Count(issued[..|issued| - 1], r, b) + if t.rank == r && t.bank == b then 1 else 0
  }

  /** Refresh slots of bank b among the first n: slot j belongs to bank j mod banks. */
  function Slots(n: nat, b: nat, banks: nat): nat
    requires banks > 0
  {
    if n == 0 then 0 else Slots(n - 1, b, banks) + (if (n - 1) % banks == b then 1 else 0)
  }

  ghost predicate Sized(d: Dims, k: Book) {
    && |k.backlog| == d.ranks && |k.subarray| == d.ranks && |k.counters| == d.ranks && |k.slots| == d.ranks
    && (forall r :: 0 <= r < d.ranks ==> |k.backlog[r]| == d.banks && |k.subarray[r]| == d.sas)
  }

  ghost predicate BankOk(d: Dims, k: Book, r: int, b: int)
    requires DimsOk(d) && Sized(d, k) && ValidBank(d, r, b)
  {
    && k.backlog[r][b] == Count(k.issued, r, b) - Slots(k.slots[r], b, d.banks)
    && k.subarray[r][b] == Count(k.issued, r, b) % d.sas
  }

  /** The credit of every bank is refreshes issued minus slots elapsed, and the
      refreshes of a bank go round its subarrays in turn. */
  ghost predicate BookOk(d: Dims, k: Book) {
    && DimsOk(d) && Sized(d, k)
    && (forall r :: 0 <= r < d.ranks ==> k.counters[r] == k.slots[r] % d.banks)
    && (forall r, b :: ValidBank(d, r, b) ==> BankOk(d, k, r, b))
    && (forall i :: 0 <= i < |k.issued| ==> InTurn(d, k.issued, i))
  }

  predicate InTurn(d: Dims, issued: seq<Target>, i: nat)
    requires i < |issued| && d.sas > 0
  {
    issued[i].bank >= 0 ==> issued[i].sa == Count(issued[..i], issued[i].rank, issued[i].bank) % d.sas
  }

  // ------------------------------------------------------------ transactions

  /** refresh_target, and the credit and the next subarray that go with it. */
  function Grant(d: Dims, k: Book, r: int, b: int): (g: Book)
    requires DimsOk(d) && Sized(d, k) && ValidBank(d, r, b)
    ensures Sized(d, g)
  {
    k.(issued := k.issued + [Target(r, b, k.subarray[r][b])],
       backlog := k.backlog[r := k.backlog[r][b := k.backlog[r][b] + 1]],
       subarray := k.subarray[r := k.subarray[r][b := (k.subarray[r][b] + 1) % d.sas]])
  }

  /** A refresh slot of the next bank of rank r elapses. */
  function Slot(d: Dims, k: Book, r: int): (s: Book)
    requires BookOk(d, k) && 0 <= r < d.ranks
    ensures Sized(d, s)
  {
    var b := k.counters[r];
    k.(backlog := k.backlog[r := k.backlog[r][b := k.backlog[r][b] - 1]],
       counters := k.counters[r := (b + 1) % d.banks], slots := k.slots[r := k.slots[r] + 1])
  }

  lemma CountAppend(issued: seq<Target>, t: Target, r: int, b: int)
    ensures Count(issued + [t], r, b) == Count(issued, r, b) + if t.rank == r && t.bank == b then 1 else 0
  {
    assert (issued + [t])[..|issued|] == issued;
  }

  lemma InTurnAppend(d: Dims, issued: seq<Target>, t: Target)
    requires d.sas > 0 && forall i :: 0 <= i < |issued| ==> InTurn(d, issued, i)
    requires t.bank >= 0 ==> t.sa == Count(issued, t.rank, t.bank) % d.sas
    ensures forall i :: 0 <= i < |issued| + 1 ==> InTurn(d, issued + [t], i)
  {
    forall i | 0 <= i < |issued| + 1 ensures InTurn(d, issued + [t], i) {
      assert (issued + [t])[..i] == issued[..i];
      if i < |issued| { assert InTurn(d, issued, i); }
    }
  }

  lemma NextTurn(n: nat, m: nat)
    requires m > 0
    ensures (n + 1) % m == (n % m + 1) % m
  {
    var q, r := DivMod(n, m);
    if r + 1 < m {
      DivUnique(n + 1, m, q, r + 1);
      DivUnique(r + 1, m, 0, r + 1);
    } else {
      MulNext(m, q);
      DivUnique(n + 1, m, q + 1, 0);
      DivUnique(m, m, 1, 0);
    }
  }

  lemma GrantOk(d: Dims, k: Book, r: int, b: int)
    requires BookOk(d, k) && ValidBank(d, r, b)
    ensures BookOk(d, Grant(d, k, r, b))
  {
    var t := Target(r, b, k.subarray[r][b]);
    var g := Grant(d, k, r, b);
    assert BankOk(d, k, r, b);
    InTurnAppend(d, k.issued, t);
    NextTurn(Count(k.issued, r, b), d.sas);
    forall r', b' | ValidBank(d, r', b') ensures BankOk(d, g, r', b') {
      assert BankOk(d, k, r', b');
      CountAppend(k.issued, t, r', b');
    }
  }

  lemma SlotOk(d: Dims, k: Book, r: int)
    requires BookOk(d, k) && 0 <= r < d.ranks
    ensures BookOk(d, Slot(d, k, r))
  {
    var s := Slot(d, k, r);
    NextTurn(k.slots[r], d.banks);
    forall r', b' | ValidBank(d, r', b') ensures BankOk(d, s, r', b') {
      assert BankOk(d, k, r', b');
    }
  }

  // ------------------------------------------------------------ the schedule

  /** Slots(n, b) is the number of slots in closed form: one every `banks`, from b on. */
  lemma {:induction false} SlotsExact(n: nat, b: nat, banks: nat)
    requires b < banks
    ensures Slots(n, b, banks) == if n <= b then 0 else (n - b - 1) / banks + 1
  {
    if n > 0 {
      SlotsExact(n - 1, b, banks);
      var m := n - 1;
      if m < b {
        DivUnique(m, banks, 0, m);
      } else if m == b {
        DivUnique(b, banks, 0, b);
        DivUnique(0, banks, 0, 0);
      } else {
        NextSlot(m, b, banks);
      }
    }
  }

  /** Past the first one, a slot of bank b raises the quotient exactly when it is due. */
  lemma NextSlot(m: nat, b: nat, banks: nat)
    requires b < banks && m > b
    ensures (m - b) / banks == (m - b - 1) / banks + if m % banks == b then 1 else 0
  {
    var q, r := DivMod(m - b - 1, banks);
    if r + 1 == banks {
      MulNext(banks, q);
      DivUnique(m - b, banks, q + 1, 0);
      assert m == banks * (q + 1) + b;
      DivUnique(m, banks, q + 1, b);
    } else {
      assert m - b == banks * q + (r + 1);
      DivUnique(m - b, banks, q, r + 1);
      assert m == banks * q + (r + 1 + b);
      if r + 1 + b < banks {
        DivUnique(m, banks, q, r + 1 + b);
      } else {
        MulNext(banks, q);
        DivUnique(m, banks, q + 1, r + 1 + b - banks);
      }
    }
  }

  /** A bank has had exactly the refreshes that were due, plus its credit. */
  lemma RefreshRate(d: Dims, k: Book, r: int, b: int)
    requires BookOk(d, k) && ValidBank(d, r, b) && k.slots[r] >= b
    ensures Count(k.issued, r, b) == (k.slots[r] - b + d.banks - 1) / d.banks + k.backlog[r][b]
  {
    assert BankOk(d, k, r, b);
    SlotsExact(k.slots[r], b, d.banks);
    Ceiling(k.slots[r] - b, d.banks);
    hide BookOk, Slots;
  }

  lemma Ceiling(n: nat, m: nat)
    requires m > 0
    ensures (n + m - 1) / m == if n == 0 then 0 else (n - 1) / m + 1
  {
    if n == 0 {
      DivUnique(m - 1, m, 0, m - 1);
    } else {
      var q, r := DivMod(n - 1, m);
      MulNext(m, q);
      DivUnique(n + m - 1, m, q + 1, r);
    }
  }

  /** The refreshes of one bank visit its subarrays in turn: its k-th (from 0) goes to
      subarray k mod the number of subarrays. */
  lemma RoundRobin(d: Dims, k: Book, i: nat)
    requires BookOk(d, k) && i < |k.issued| && k.issued[i].bank >= 0
    ensures k.issued[i].sa == Count(k.issued[..i], k.issued[i].rank, k.issued[i].bank) % d.sas
  {
    assert InTurn(d, k.issued, i);
  }
}
