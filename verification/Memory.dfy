/** The memory front end of ramulator/Memory.h as it runs: widths computed once, an
    address sliced destructively, and a random page allocator that probes for a page. */
module Memory {
  import opened Arithmetic
  import opened AddressMap

  const PAGE := 4096

  /** Pages still free. */
  function FreeCount(pages: seq<int>): nat {
    if pages == [] then 0 else FreeCount(pages[..|pages| - 1]) + if pages[|pages| - 1] == -1 then 1 else 0
  }

  lemma {:induction false} FreeCountTake(pages: seq<int>, p: nat, owner: int)
    requires p < |pages| && pages[p] == -1 && owner != -1
    ensures FreeCount(pages) > 0 && FreeCount(pages[p := owner]) == FreeCount(pages) - 1
  {
    var n := |pages| - 1;
    if p == n {
      assert pages[p := owner][..n] == pages[..n];
    } else {
      assert pages[p := owner][..n] == pages[..n][p := owner];
      FreeCountTake(pages[..n], p, owner);
    }
  }

  lemma {:induction false} NoneFree(pages: seq<int>)
    ensures FreeCount(pages) == 0 <==> forall p :: 0 <= p < |pages| ==> pages[p] != -1
  {
    if pages != [] { NoneFree(pages[..|pages| - 1]); }
  }

  lemma {:induction false} AllFree(pages: seq<int>)
    requires forall p :: 0 <= p < |pages| ==> pages[p] == -1
    ensures FreeCount(pages) == |pages|
  {
    if pages != [] { AllFree(pages[..|pages| - 1]); }
  }

  /** A core and one of its virtual pages. */
  datatype Page = Page(core: int, number: int)

  ghost predicate Injective(translation: map<Page, int>) {
    forall a, b :: a in translation && b in translation && translation[a] == translation[b] ==> a == b
  }

  class Memory {
    const org: Org
    const mapping: Mapping
    const addrBits: seq<nat>
    const txBits: nat
    const maxAddress: nat
    const pages: array<int>
    var remaining: int
    var translation: map<Page, int>
    ghost var replaced: bool

    /** The count of free pages is exact, every translation is to a page in use, every
        page in use is some translation's, and two virtual pages share a physical one
        exactly when a page has been replaced. */
    ghost predicate Valid()
      reads this, pages
    {
      && OrgOk(org) && addrBits == Bits(org) && txBits == TxBits(org) && maxAddress == MaxAddress(org)
      && pages.Length == maxAddress / PAGE && remaining == FreeCount(pages[..])
      && (forall t :: t in translation ==> 0 <= translation[t] < pages.Length && pages[translation[t]] != -1)
      && (forall p :: 0 <= p < pages.Length && pages[p] != -1 ==> InUse(p))
      && (Injective(translation) <==> !replaced)
    }

    ghost predicate InUse(p: int)
      reads this
    {
      exists t :: t in translation && translation[t] == p
    }

    // --------------------------------------------------------- construction

    /** The shift loop. */
    static method CalcLog2(val: nat) returns (n: nat)
      ensures n == Log2(val)
    {
      n := 0;
      var v: nat := val / 2;
      while v != 0
        invariant n + Log2(v) + (if v != 0 then 1 else 0) == Log2(val)
        decreases v
      {
        n := n + 1;
        v := v / 2;
      }
    }

    constructor (org: Org, mapping: Mapping)
      requires OrgOk(org)
      ensures Valid() && fresh(pages) && this.org == org && this.mapping == mapping
      ensures translation == map[] && !replaced && remaining == pages.Length
    {
      hide Log2, IsPow2;
      var n := |org.counts|;
      var tx := CalcLog2(org.prefetch * org.width);
      var bits: seq<nat> := [];
      var bytes := org.width;
      for lev := 0 to n
        invariant |bits| == lev && bits == Logs(org.counts)[..lev]
        invariant bytes == org.width * Product(org.counts[..lev])
      {
        var b := CalcLog2(org.counts[lev]);
        assert org.counts[..lev + 1][..lev] == org.counts[..lev];
        MulAssoc(org.width, Product(org.counts[..lev]), org.counts[lev]);
        bits := bits + [b];
        bytes := bytes * org.counts[lev];
      }
      assert org.counts[..n] == org.counts;
      var burst := CalcLog2(org.prefetch);
      bits := bits[n - 1 := bits[n - 1] - burst];
      this.org, this.mapping, addrBits, txBits, maxAddress := org, mapping, bits, tx, bytes;
      pages := new int[bytes / PAGE](_ => -1);
      remaining := bytes / PAGE;
      translation := map[];
      replaced := false;
      new;
      AllFree(pages[..]);
      assert addrBits == Bits(org);
    }

    // ---------------------------------------------------------------- slicing

    /** The address vector, level by level in the order of the mapping. */
    static method Slice(m: Mapping, bits: seq<nat>, x: int) returns (vec: seq<int>)
      requires |bits| >= 2
      ensures vec == VectorOf(m, bits, x) && Components(m, bits, x, vec)
    {
      hide Low, High, Pow2, Level, Place, Components;
      var n := |bits|;
      var left := x;
      ghost var ws := Widths(m, bits);
      ghost var done: seq<int> := [];
      vec := seq(n, _ => 0);
      assert ws[0..] == ws;
      for j := 0 to n
        invariant |vec| == n && |done| == j
        invariant Digits(x, ws) == done + Digits(left, ws[j..])
        invariant forall i :: 0 <= i < j ==> vec[Level(m, n, i)] == done[i]
      {
        var lev := Level(m, n, j);
        LevelsApart(m, n, j);
        DigitsStep(left, ws, j);
        vec := vec[lev := Low(left, bits[lev])];
        done := done + [Low(left, bits[lev])];
        left := High(left, bits[lev]);
      }
      assert Digits(x, ws) == done;
      forall i | 0 <= i < n ensures vec[i] == done[Place(m, n, i)] {
        assert Level(m, n, Place(m, n, i)) == i;
      }
      VectorComponents(m, bits, x);
    }

    /** The slicing of send, the bits within a transaction cleared first. */
    method AddressVector(addr: int) returns (vec: seq<int>)
      requires Valid()
      ensures vec == AddrVec(mapping, org, addr)
      ensures Components(mapping, Bits(org), addr / Pow2(TxBits(org)), vec)
    {
      vec := Slice(mapping, addrBits, High(addr, txBits));
    }

    // -------------------------------------------------------- page allocation

    /** lrand(). */
    method Rand() returns (x: nat)
    {
      x := *;
    }

    /** From a drawn page on, the first one that is free, wrapping around once. It exists
        whenever the count says so: the assert after the loop holds. */
    method Probe() returns (page: int)
      requires Valid() && remaining > 0
      ensures 0 <= page < pages.Length && pages[page] == -1
    {
      hide OrgOk, Bits, TxBits, MaxAddress, Injective, FreeCount, InUse;
      NoneFree(pages[..]);
      ghost var free: int :| 0 <= free < pages.Length && pages[free] == -1;
      var n := pages.Length;
      var x := Rand();
      page := x % n;
      if pages[page] != -1 {
        var start := page;
        ghost var steps := 0;
        page := (page + 1) % n;
        steps := 1;
        WrapStep(start, 1, n);
        while page != start && pages[page] != -1
          invariant 1 <= steps <= n && page == Wrap(start, steps, n)
          invariant forall s :: 0 <= s < steps ==> pages[Wrap(start, s, n)] != -1
          decreases n - steps
        {
          WrapStep(start, steps + 1, n);
          page := (page + 1) % n;
          steps := steps + 1;
        }
        WrapCovers(start, free, n);
      }
    }

    /** page_allocator under random translation. The offset within the page is kept, a
        known page keeps its translation, a new one takes a free physical page while there
        is one, and only then replaces. */
    method Translate(addr: int, core: int) returns (phys: int)
      requires Valid() && pages.Length > 0 && core >= 0
      modifies this`remaining, this`translation, this`replaced, pages
      ensures Valid()
      ensures var t := Page(core, addr / PAGE);
        && t in translation && phys == translation[t] * PAGE + addr % PAGE && phys % PAGE == addr % PAGE
        && (forall u :: u in translation <==> u in old(translation) || u == t)
        && (forall u :: u in old(translation) ==> translation[u] == old(translation)[u])
        && (t in old(translation) ==>
              remaining == old(remaining) && pages[..] == old(pages[..]) && replaced == old(replaced))
        && (t !in old(translation) && old(remaining) > 0 ==>
              && old(pages[..])[translation[t]] == -1 && pages[..] == old(pages[..])[translation[t] := core]
              && remaining == old(remaining) - 1 && replaced == old(replaced))
        && (t !in old(translation) && old(remaining) == 0 ==> pages[..] == old(pages[..]) && remaining == 0 && replaced)
    {
      hide OrgOk, Bits, TxBits, MaxAddress, FreeCount, Injective, InUse;
      var target := Page(core, addr / PAGE);
      if target !in translation {
        if remaining == 0 {
          Replace(target);
        } else {
          Assign(target);
        }
      }
      phys := translation[target] * PAGE + addr % PAGE;
      DivUnique(phys, PAGE, translation[target], addr % PAGE);
    }

    method Assign(target: Page)
      requires Valid() && remaining > 0 && target !in translation && target.core >= 0
      modifies this`remaining, this`translation, pages
      ensures Valid() && remaining == old(remaining) - 1
      ensures target in translation && translation == old(translation)[target := translation[target]]
      ensures 0 <= translation[target] < pages.Length && old(pages[..])[translation[target]] == -1
      ensures pages[..] == old(pages[..])[translation[target] := target.core]
    {
      hide OrgOk, Bits, TxBits, MaxAddress, Injective, FreeCount;
      var page := Probe();
      ghost var before, was := pages[..], translation;
      FreeCountTake(before, page, target.core);
      translation := translation[target := page];
      pages[page] := target.core;
      remaining := remaining - 1;
      assert pages[..] == before[page := target.core];
      forall p | 0 <= p < pages.Length && pages[p] != -1 ensures InUse(p) {
        if p == page {
          assert translation[target] == page;
        } else {
          assert before[p] != -1;
          var t :| t in was && was[t] == p;
          assert t in translation && translation[t] == p;
        }
      }
      FreshTarget(was, target, page);
    }

    /** No page remains: the drawn one, already in use, gets a second virtual page. */
    method Replace(target: Page)
      requires Valid() && remaining == 0 && pages.Length > 0 && target !in translation
      modifies this`translation, this`replaced
      ensures Valid() && replaced
      ensures target in translation && translation == old(translation)[target := translation[target]]
    {
      hide OrgOk, Bits, TxBits, MaxAddress, FreeCount, Injective;
      NoneFree(pages[..]);
      var x := Rand();
      var page := x % pages.Length;
      assert pages[page] != -1;
      ghost var was := translation;
      assert InUse(page);
      ghost var t :| t in translation && translation[t] == page;
      translation := translation[target := page];
      replaced := true;
      SharedPage(was, t, target);
      forall p | 0 <= p < pages.Length && pages[p] != -1 ensures InUse(p) {
        var u :| u in was && was[u] == p;
        assert u in translation && translation[u] == p;
      }
    }
  }

  lemma LevelsApart(m: Mapping, n: nat, j: nat)
    requires n >= 2 && j < n
    ensures forall i :: 0 <= i < j ==> Level(m, n, i) != Level(m, n, j)
  {}

  lemma DigitsStep(left: int, ws: seq<nat>, j: nat)
    requires j < |ws|
    ensures Digits(left, ws[j..]) == [Low(left, ws[j])] + Digits(High(left, ws[j]), ws[j + 1..])
  {
    hide Low, High;
    assert ws[j..][0] == ws[j] && ws[j..][1..] == ws[j + 1..];
  }

  lemma SharedPage(was: map<Page, int>, t: Page, target: Page)
    requires t in was && target !in was
    ensures !Injective(was[target := was[t]])
  {
    var now := was[target := was[t]];
    assert now[t] == now[target];
  }

  /** A new virtual page on an unused physical page keeps what injectivity there is. */
  lemma FreshTarget(was: map<Page, int>, target: Page, page: int)
    requires target !in was && forall t :: t in was ==> was[t] != page
    ensures Injective(was[target := page]) <==> Injective(was)
  {
    var now := was[target := page];
    if !Injective(was) {
      var a, b :| a in was && b in was && was[a] == was[b] && a != b;
      assert now[a] == now[b];
    }
  }
}
