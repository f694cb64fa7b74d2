/** How ramulator/Memory.h slices an address into channel, rank, bank, row and column. */
module AddressMap {
  import opened Arithmetic

  datatype Mapping = ChRaBaRoCo | RoBaRaCoCh

  function Pow2(n: nat): (p: nat)
    ensures p > 0
  {
    if n == 0 then 1 else 2 * Pow2(n - 1)
  }

  /** calc_log2: how often a value can be halved before it vanishes. */
  function Log2(val: nat): nat { if val <= 1 then 0 else 1 + Log2(val / 2) }

  lemma {:induction false} Log2Bounds(val: nat)
    requires val > 0
    ensures Pow2(Log2(val)) <= val < 2 * Pow2(Log2(val))
  {
    if val > 1 { Log2Bounds(val / 2); }
  }

  lemma {:induction false} Log2OfPow2(n: nat)
    ensures Log2(Pow2(n)) == n
  {
    if n > 0 { Log2OfPow2(n - 1); }
  }

  predicate IsPow2(val: nat) { val == Pow2(Log2(val)) }

  /** calc_log2 recovers the exponent, so the test accepts the powers of two and no
      other number. */
  lemma IsPow2Exact(val: nat)
    ensures IsPow2(val) <==> exists n: nat :: val == Pow2(n)
  {
    if n: nat :| val == Pow2(n) { Log2OfPow2(n); }
  }

  lemma {:induction false} Pow2Add(a: nat, b: nat)
    ensures Pow2(a + b) == Pow2(a) * Pow2(b)
  {
    if a > 0 {
      Pow2Add(a - 1, b);
      MulAssoc(2, Pow2(a - 1), Pow2(b));
    }
  }

  // ---------------------------------------------------------------- digits

  /** slice_lower_bits: the bits sliced off, and what is left of the address. */
  function Low(x: int, bits: nat): (r: int)
    ensures 0 <= r < Pow2(bits)
  {
    x % Pow2(bits)
  }

  function High(x: int, bits: nat): int { x / Pow2(bits) }

  /** Slicing widths ws off the low end of x, one after another. */
  function Digits(x: int, ws: seq<nat>): (ds: seq<int>)
    ensures |ds| == |ws|
    decreases ws
  {
    if ws == [] then [] else [Low(x, ws[0])] + Digits(High(x, ws[0]), ws[1..])
  }

  /** Putting the slices together again. */
  function Compose(ds: seq<int>, ws: seq<nat>): int
    requires |ds| == |ws|
  {
    if ws == [] then 0 else ds[0] + Pow2(ws[0]) * Compose(ds[1..], ws[1..])
  }

  function Sum(ws: seq<nat>): nat { if ws == [] then 0 else ws[0] + Sum(ws[1..]) }

  predicate InRange(ds: seq<int>, ws: seq<nat>)
    requires |ds| == |ws|
  {
    forall i :: 0 <= i < |ds| ==> 0 <= ds[i] < Pow2(ws[i])
  }

  lemma {:induction false} DigitsInRange(x: int, ws: seq<nat>)
    ensures InRange(Digits(x, ws), ws)
    decreases ws
  {
    hide Low, High, Pow2;
    if ws != [] { DigitsInRange(High(x, ws[0]), ws[1..]); }
  }

  /** The slices say what x is, up to the bits above them. */
  lemma {:induction false} ComposeDigits(x: int, ws: seq<nat>)
    ensures Compose(Digits(x, ws), ws) == Low(x, Sum(ws))
    decreases ws
  {
    if ws != [] {
      ComposeDigits(High(x, ws[0]), ws[1..]);
      LowSplit(x, ws[0], Sum(ws[1..]));
      hide Low, High, Pow2;
      assert Digits(x, ws)[1..] == Digits(High(x, ws[0]), ws[1..]);
    }
  }

  lemma LowSplit(x: int, a: nat, b: nat)
    ensures Low(x, a + b) == Low(x, a) + Pow2(a) * Low(High(x, a), b)
  {
    Pow2Add(a, b);
    ModSplit(x, Pow2(a), Pow2(b));
  }

  lemma ModSplit(x: int, p: nat, rest: nat)
    requires p > 0 && rest > 0
    ensures p * rest > 0 && x % (p * rest) == x % p + p * (x / p % rest)
  {
    MulPositive(p, rest);
    var y := x / p;
    var q, r := y / rest, y % rest;
    assert y == rest * q + r;
    assert x == p * y + x % p;
    Distribute(p, rest * q, r);
    MulAssoc(p, rest, q);
    MulLe(p, r + 1, rest);
    Distribute(p, r, 1);
    MulLe(p, 0, r);
    DivUnique(x, p * rest, q, x % p + p * r);
  }

  /** Every combination of slices is met, once below Pow2(Sum(ws)). */
  lemma {:induction false} DigitsCompose(ds: seq<int>, ws: seq<nat>)
    requires |ds| == |ws| && InRange(ds, ws)
    ensures Digits(Compose(ds, ws), ws) == ds
    ensures 0 <= Compose(ds, ws) < Pow2(Sum(ws))
  {
    if ws != [] {
      assert InRange(ds[1..], ws[1..]);
      DigitsCompose(ds[1..], ws[1..]);
      var p, c, rest := Pow2(ws[0]), Compose(ds[1..], ws[1..]), Pow2(Sum(ws[1..]));
      Pow2Add(ws[0], Sum(ws[1..]));
      DivUnique(ds[0] + p * c, p, c, ds[0]);
      MulLe(p, c + 1, rest);
      Distribute(p, c, 1);
      MulLe(p, 0, c);
    }
  }

  /** Equal slices, equal numbers, up to the bits above. */
  lemma DigitsUnique(x: int, y: int, ws: seq<nat>)
    ensures Digits(x, ws) == Digits(y, ws) <==> Low(x, Sum(ws)) == Low(y, Sum(ws))
  {
    ComposeDigits(x, ws);
    ComposeDigits(y, ws);
    DigitsMod(x, ws);
    DigitsMod(y, ws);
  }

  lemma DigitsMod(x: int, ws: seq<nat>)
    ensures Digits(Low(x, Sum(ws)), ws) == Digits(x, ws)
  {
    ComposeDigits(x, ws);
    DigitsInRange(x, ws);
    DigitsCompose(Digits(x, ws), ws);
  }

  /** Slice j is what is left after the widths before it, cut to its own width. */
  lemma {:induction false} DigitAt(x: int, ws: seq<nat>, j: nat)
    requires j < |ws|
    ensures Digits(x, ws)[j] == x / Pow2(Sum(ws[..j])) % Pow2(ws[j])
    decreases ws
  {
    if j == 0 {
      assert ws[..0] == [];
    } else {
      assert ws[..j][0] == ws[0] && ws[..j][1..] == ws[1..][..j - 1];
      var rest := Sum(ws[1..][..j - 1]);
      DigitAt(High(x, ws[0]), ws[1..], j - 1);
      Pow2Add(ws[0], rest);
      DivTwice(x, Pow2(ws[0]), Pow2(rest));
      hide Pow2, Sum;
    }
  }

  lemma DivTwice(x: int, a: nat, b: nat)
    requires a > 0 && b > 0
    ensures a * b > 0 && x / a / b == x / (a * b)
  {
    ModSplit(x, a, b);
    var q, r := x / a / b, x / a % b;
    assert x / a == b * q + r;
    Distribute(a, b * q, r);
    MulAssoc(a, b, q);
    MulPositive(a, b);
    assert x == (a * b) * q + x % (a * b);
    DivUnique(x, a * b, q, x % (a * b));
  }

  // ---------------------------------------------------------- address vectors

  /** The level sliced at step j, of n levels, lowest bits first. */
  function Level(m: Mapping, n: nat, j: nat): (i: nat)
    requires n >= 2 && j < n
    ensures i < n
  {
    match m
    case ChRaBaRoCo => n - 1 - j
    case RoBaRaCoCh => if j == 0 then 0 else if j == 1 then n - 1 else j - 1
  }

  /** The step that slices level i. */
  function Place(m: Mapping, n: nat, i: nat): (j: nat)
    requires n >= 2 && i < n
    ensures j < n && Level(m, n, j) == i
  {
    match m
    case ChRaBaRoCo => n - 1 - i
    case RoBaRaCoCh => if i == 0 then 0 else if i == n - 1 then 1 else i + 1
  }

  /** The widths in slicing order. */
  function Widths(m: Mapping, bits: seq<nat>): (ws: seq<nat>)
    requires |bits| >= 2
    ensures |ws| == |bits|
  {
    seq(|bits|, j requires 0 <= j < |bits| => bits[Level(m, |bits|, j)])
  }

  /** The address vector of addr >> tx_bits. */
  function VectorOf(m: Mapping, bits: seq<nat>, x: int): (v: seq<int>)
    requires |bits| >= 2
    ensures |v| == |bits|
  {
    var ds := Digits(x, Widths(m, bits));
    seq(|bits|, i requires 0 <= i < |bits| => ds[Place(m, |bits|, i)])
  }

  lemma {:induction false} SumAppend(ws: seq<nat>, w: nat)
    ensures Sum(ws + [w]) == Sum(ws) + w
  {
    if ws != [] {
      assert (ws + [w])[1..] == ws[1..] + [w];
      SumAppend(ws[1..], w);
    }
  }

  lemma {:induction false} SumReverse(ws: seq<nat>, rs: seq<nat>)
    requires |rs| == |ws| && forall j :: 0 <= j < |ws| ==> rs[j] == ws[|ws| - 1 - j]
    ensures Sum(rs) == Sum(ws)
  {
    if ws != [] {
      var n := |ws| - 1;
      assert rs == rs[..n] + [rs[n]];
      SumAppend(rs[..n], rs[n]);
      SumReverse(ws[1..], rs[..n]);
    }
  }

  lemma SumAround(a: nat, mid: seq<nat>, z: nat)
    ensures Sum([a] + (mid + [z])) == a + Sum(mid) + z
    ensures Sum([a, z] + mid) == a + Sum(mid) + z
  {
    assert ([a] + (mid + [z]))[1..] == mid + [z];
    SumAppend(mid, z);
    assert ([a, z] + mid)[1..] == [z] + mid && ([z] + mid)[1..] == mid;
  }

  /** Slicing in another order uses the same number of bits. */
  lemma SumWidths(m: Mapping, bits: seq<nat>)
    requires |bits| >= 2
    ensures Sum(Widths(m, bits)) == Sum(bits)
  {
    var ws := Widths(m, bits);
    var n := |bits|;
    match m {
      case ChRaBaRoCo => SumReverse(bits, ws);
      case RoBaRaCoCh =>
        assert bits == [bits[0]] + (bits[1..n - 1] + [bits[n - 1]]);
        assert ws == [bits[0], bits[n - 1]] + bits[1..n - 1];
        hide Sum;
        SumAround(bits[0], bits[1..n - 1], bits[n - 1]);
    }
  }

  lemma SameVector(m: Mapping, bits: seq<nat>, x: int, y: int)
    requires |bits| >= 2
    ensures VectorOf(m, bits, x) == VectorOf(m, bits, y) <==> Digits(x, Widths(m, bits)) == Digits(y, Widths(m, bits))
  {
    var dx, dy := Digits(x, Widths(m, bits)), Digits(y, Widths(m, bits));
    if VectorOf(m, bits, x) == VectorOf(m, bits, y) {
      forall j | 0 <= j < |bits| ensures dx[j] == dy[j] {
        var i := Level(m, |bits|, j);
        assert Place(m, |bits|, i) == j;
        assert VectorOf(m, bits, x)[i] == VectorOf(m, bits, y)[i];
      }
    }
  }

  /** What each component of a vector is. With the channel lowest: channel, column, then
      rank, bank and row upwards. With the channel highest: the levels in their order,
      the column lowest. */
  ghost predicate Components(m: Mapping, bits: seq<nat>, x: int, v: seq<int>)
    requires |bits| >= 2
  {
    var n := |bits|;
    && |v| == n
    && (m == RoBaRaCoCh ==>
          && v[0] == x % Pow2(bits[0])
          && v[n - 1] == x / Pow2(bits[0]) % Pow2(bits[n - 1])
          && forall i :: 1 <= i < n - 1 ==>
               v[i] == x / Pow2(bits[0] + bits[n - 1] + Sum(bits[1..i])) % Pow2(bits[i]))
    && (m == ChRaBaRoCo ==>
          forall i :: 0 <= i < n ==> v[i] == x / Pow2(Sum(bits[i + 1..])) % Pow2(bits[i]))
  }

  lemma VectorComponents(m: Mapping, bits: seq<nat>, x: int)
    requires |bits| >= 2
    ensures Components(m, bits, x, VectorOf(m, bits, x))
  {
    var n := |bits|;
    var ws := Widths(m, bits);
    forall i | 0 <= i < n ensures VectorOf(m, bits, x)[i] == ComponentAt(m, bits, x, i) {
      var j := Place(m, n, i);
      DigitAt(x, ws, j);
      WidthsBefore(m, bits, i);
    }
    assert Pow2(0) == 1;
    hide VectorOf, Pow2;
  }

  function ComponentAt(m: Mapping, bits: seq<nat>, x: int, i: nat): int
    requires |bits| >= 2 && i < |bits|
  {
    x / Pow2(BitsBelow(m, bits, i)) % Pow2(bits[i])
  }

  /** The bits sliced before those of level i. */
  function BitsBelow(m: Mapping, bits: seq<nat>, i: nat): nat
    requires |bits| >= 2 && i < |bits|
  {
    match m
    case ChRaBaRoCo => Sum(bits[i + 1..])
    case RoBaRaCoCh =>
      if i == 0 then 0 else if i == |bits| - 1 then bits[0] else bits[0] + bits[|bits| - 1] + Sum(bits[1..i])
  }

  lemma WidthsBefore(m: Mapping, bits: seq<nat>, i: nat)
    requires |bits| >= 2 && i < |bits|
    ensures Sum(Widths(m, bits)[..Place(m, |bits|, i)]) == BitsBelow(m, bits, i)
    ensures Widths(m, bits)[Place(m, |bits|, i)] == bits[i]
  {
    var n := |bits|;
    var before := Widths(m, bits)[..Place(m, n, i)];
    match m {
      case ChRaBaRoCo => SumReverse(bits[i + 1..], before);
      case RoBaRaCoCh =>
        if i == 0 {
          assert before == [];
        } else if i == n - 1 {
          assert before == [bits[0]];
          assert [bits[0]][1..] == [];
        } else {
          assert before == [bits[0], bits[n - 1]] + bits[1..i];
          hide Sum;
          SumAround(bits[0], bits[1..i], bits[n - 1]);
        }
    }
  }

  /** Every component lies in the range of its level. */
  lemma VectorInRange(m: Mapping, bits: seq<nat>, x: int)
    requires |bits| >= 2
    ensures InRange(VectorOf(m, bits, x), bits)
  {
    DigitsInRange(x, Widths(m, bits));
  }

  /** Two transactions have the same vector exactly when they agree in the sliced bits. */
  lemma VectorUnique(m: Mapping, bits: seq<nat>, x: int, y: int)
    requires |bits| >= 2
    ensures VectorOf(m, bits, x) == VectorOf(m, bits, y) <==> Low(x, Sum(bits)) == Low(y, Sum(bits))
  {
    SameVector(m, bits, x, y);
    DigitsUnique(x, y, Widths(m, bits));
    SumWidths(m, bits);
  }

  /** Every vector is reached. */
  lemma VectorOnto(m: Mapping, bits: seq<nat>, v: seq<int>) returns (x: int)
    requires |bits| >= 2 && |v| == |bits| && InRange(v, bits)
    ensures 0 <= x < Pow2(Sum(bits)) && VectorOf(m, bits, x) == v
  {
    var n := |bits|;
    var ws := Widths(m, bits);
    var ds := seq(n, j requires 0 <= j < n => v[Level(m, n, j)]);
    assert InRange(ds, ws);
    DigitsCompose(ds, ws);
    SumWidths(m, bits);
    x := Compose(ds, ws);
  }

  // ----------------------------------------------------------- the whole map

  /** The organisation: entries per level, burst length, and bytes per transfer. */
  datatype Org = Org(counts: seq<nat>, prefetch: nat, width: nat)

  /** What the constructor asserts, and that a row holds at least one burst. */
  predicate OrgOk(o: Org) {
    && |o.counts| >= 2 && (forall l :: 0 <= l < |o.counts| ==> o.counts[l] > 0)
    && o.width > 0 && IsPow2(o.counts[0]) && IsPow2(o.counts[1])
    && o.prefetch > 0 && IsPow2(o.prefetch) && IsPow2(o.prefetch * o.width)
    && Log2(o.prefetch) <= Log2(o.counts[|o.counts| - 1])
  }

  function TxBits(o: Org): nat { Log2(o.prefetch * o.width) }

  function Bits(o: Org): (bits: seq<nat>)
    requires OrgOk(o)
    ensures |bits| == |o.counts|
  {
    var n := |o.counts|;
    seq(n, l requires 0 <= l < n => Log2(o.counts[l]) - if l == n - 1 then Log2(o.prefetch) else 0)
  }

  function Product(ns: seq<nat>): nat { if ns == [] then 1 else Product(ns[..|ns| - 1]) * ns[|ns| - 1] }

  /** max_address: the bytes there are. */
  function MaxAddress(o: Org): nat { o.width * Product(o.counts) }

  predicate AllPow2(ns: seq<nat>) { forall l :: 0 <= l < |ns| ==> IsPow2(ns[l]) }

  function Logs(ns: seq<nat>): (ls: seq<nat>)
    ensures |ls| == |ns|
  {
    seq(|ns|, l requires 0 <= l < |ns| => Log2(ns[l]))
  }

  /** The slices can hold every address exactly when every count is a power of two. */
  lemma {:induction false} ProductOfLogs(ns: seq<nat>)
    requires forall l :: 0 <= l < |ns| ==> ns[l] > 0
    ensures Product(ns) >= Pow2(Sum(Logs(ns)))
    ensures Product(ns) == Pow2(Sum(Logs(ns))) <==> AllPow2(ns)
  {
    if ns != [] {
      var n := |ns| - 1;
      var head, last := ns[..n], ns[n];
      ProductOfLogs(head);
      Log2Bounds(last);
      assert Logs(ns) == Logs(head) + [Log2(last)];
      SumAppend(Logs(head), Log2(last));
      Pow2Add(Sum(Logs(head)), Log2(last));
      ProductGrows(Product(head), Pow2(Sum(Logs(head))), last, Pow2(Log2(last)));
      assert AllPow2(ns) <==> AllPow2(head) && IsPow2(last);
    }
  }

  lemma ProductGrows(a: nat, a0: nat, b: nat, b0: nat)
    requires a >= a0 > 0 && b >= b0 > 0
    ensures a * b >= a0 * b0 && (a * b == a0 * b0 <==> a == a0 && b == b0)
  {
    MulLe(b, a0, a);
    MulLe(a0, b0, b);
    if a > a0 { MulLe(b, a0 + 1, a); }
    if b > b0 { MulLe(a0, b0 + 1, b); }
  }

  lemma BitsSum(o: Org)
    requires OrgOk(o)
    ensures TxBits(o) + Sum(Bits(o)) == Log2(o.width) + Sum(Logs(o.counts)) && IsPow2(o.width)
  {
    var n := |o.counts| - 1;
    assert Bits(o)[..n] == Logs(o.counts)[..n];
    assert Bits(o) == Bits(o)[..n] + [Bits(o)[n]] && Logs(o.counts) == Logs(o.counts)[..n] + [Logs(o.counts)[n]];
    SumAppend(Bits(o)[..n], Bits(o)[n]);
    SumAppend(Logs(o.counts)[..n], Logs(o.counts)[n]);
    Pow2Factor(o.prefetch, o.width, o.prefetch * o.width);
  }

  /** A factor of a power of two, the other factor being one. */
  lemma Pow2Factor(p: nat, w: nat, t: nat)
    requires p > 0 && w > 0 && t == p * w && IsPow2(p) && IsPow2(t)
    ensures IsPow2(w) && Log2(t) == Log2(p) + Log2(w)
  {
    var low := Pow2(Log2(w));
    Log2Bounds(w);
    Pow2Add(Log2(p), Log2(w));
    Between(p, w, low);
    var s := Pow2(Log2(p) + Log2(w));
    assert s == p * low;
    assert s <= t < 2 * s;
    hide Log2, Pow2;
    Pow2Between(Log2(t), Log2(p) + Log2(w));
  }

  lemma Between(p: nat, w: nat, low: nat)
    requires p > 0 && low <= w < 2 * low
    ensures p * low <= p * w < 2 * (p * low) && (p * w == p * low ==> w == low)
  {
    MulLe(p, low, w);
    MulLt(p, w, 2 * low);
    assert p * (2 * low) == 2 * (p * low);
    if w > low { MulLt(p, low, w); }
  }

  lemma {:induction false} Pow2Mono(a: nat, b: nat)
    requires a < b
    ensures 2 * Pow2(a) <= Pow2(b)
  {
    if a + 1 < b { Pow2Mono(a, b - 1); }
  }

  lemma Pow2Between(k: nat, n: nat)
    requires Pow2(n) <= Pow2(k) < 2 * Pow2(n)
    ensures k == n
  {
    if k < n { Pow2Mono(k, n); }
    if k > n { Pow2Mono(n, k); }
  }

  /** max_address is 2^(tx_bits + sum of addr_bits) exactly when every count is a power
      of two; otherwise it is more. */
  lemma MaxAddressExact(o: Org)
    requires OrgOk(o)
    ensures MaxAddress(o) >= Pow2(TxBits(o) + Sum(Bits(o)))
    ensures MaxAddress(o) == Pow2(TxBits(o) + Sum(Bits(o))) <==> AllPow2(o.counts)
  {
    BitsSum(o);
    ProductOfLogs(o.counts);
    Pow2Add(Log2(o.width), Sum(Logs(o.counts)));
    ProductGrows(o.width, o.width, Product(o.counts), Pow2(Sum(Logs(o.counts))));
  }

  /** The vector of an address. */
  function AddrVec(m: Mapping, o: Org, addr: int): seq<int>
    requires OrgOk(o)
  {
    VectorOf(m, Bits(o), addr / Pow2(TxBits(o)))
  }

  predicate Below(o: Org, a: int) { 0 <= a < MaxAddress(o) }

  /** The transaction an address belongs to. */
  function Tx(o: Org, a: int): int { a / Pow2(TxBits(o)) }

  /** Two addresses alias: different transactions, same vector. */
  ghost predicate Alias(m: Mapping, o: Org, a: int, b: int)
    requires OrgOk(o)
  {
    Below(o, a) && Below(o, b) && Tx(o, a) != Tx(o, b) && AddrVec(m, o, a) == AddrVec(m, o, b)
  }

  /** Under either mapping, no two addresses below max_address alias exactly when every
      count is a power of two. */
  lemma MapInjective(m: Mapping, o: Org)
    requires OrgOk(o)
    ensures (forall a, b :: !Alias(m, o, a, b)) <==> AllPow2(o.counts)
  {
    MaxAddressExact(o);
    var tx, all := Pow2(TxBits(o)), Pow2(Sum(Bits(o)));
    Pow2Add(TxBits(o), Sum(Bits(o)));
    if AllPow2(o.counts) {
      forall a, b ensures !Alias(m, o, a, b) {
        if Below(o, a) && Below(o, b) {
          TxBelow(a, tx, all);
          TxBelow(b, tx, all);
          VectorUnique(m, Bits(o), Tx(o, a), Tx(o, b));
          DivUnique(Tx(o, a), all, 0, Tx(o, a));
          DivUnique(Tx(o, b), all, 0, Tx(o, b));
        }
      }
    } else {
      var b := tx * all;
      DivUnique(b, tx, all, 0);
      DivUnique(0, tx, 0, 0);
      DivUnique(all, all, 1, 0);
      DivUnique(0, all, 0, 0);
      VectorUnique(m, Bits(o), 0, all);
      assert Alias(m, o, 0, b);
    }
  }

  lemma TxBelow(a: int, tx: nat, all: nat)
    requires tx > 0 && 0 <= a < tx * all
    ensures 0 <= a / tx < all
  {
    assert a == tx * (a / tx) + a % tx;
    if a / tx >= all { MulLe(tx, all, a / tx); }
    if a / tx < 0 { MulLe(tx, a / tx, -1); }
  }

  /** Every vector in range is the vector of an address below max_address. */
  lemma MapOnto(m: Mapping, o: Org, v: seq<int>) returns (a: int)
    requires OrgOk(o) && |v| == |o.counts| && InRange(v, Bits(o))
    ensures Below(o, a) && AddrVec(m, o, a) == v
  {
    var tx, all := Pow2(TxBits(o)), Pow2(Sum(Bits(o)));
    var x := VectorOnto(m, Bits(o), v);
    MaxAddressExact(o);
    Pow2Add(TxBits(o), Sum(Bits(o)));
    a := tx * x;
    DivUnique(a, tx, x, 0);
    MulLe(tx, x + 1, all);
    Distribute(tx, x, 1);
    MulLe(tx, 0, x);
  }

  /** Every component is a real child of its level; columns are counted in bursts. */
  lemma MapInRange(m: Mapping, o: Org, a: int, l: nat)
    requires OrgOk(o) && l < |o.counts|
    ensures var v := AddrVec(m, o, a)[l];
      0 <= v < o.counts[l] && (l == |o.counts| - 1 ==> v * o.prefetch < o.counts[l])
  {
    VectorInRange(m, Bits(o), Tx(o, a));
    assert 0 <= AddrVec(m, o, a)[l] < Pow2(Bits(o)[l]);
    LevelFits(o, l);
    hide *;
    RangeOfLevel(AddrVec(m, o, a)[l], Pow2(Bits(o)[l]), o.prefetch, o.counts[l]);
  }

  lemma LevelFits(o: Org, l: nat)
    requires OrgOk(o) && l < |o.counts|
    ensures Pow2(Bits(o)[l]) <= o.counts[l] && o.prefetch > 0
    ensures l == |o.counts| - 1 ==> o.prefetch * Pow2(Bits(o)[l]) <= o.counts[l]
  {
    Log2Bounds(o.counts[l]);
    var p := Pow2(Bits(o)[l]);
    if l == |o.counts| - 1 {
      Pow2Add(Log2(o.prefetch), Bits(o)[l]);
      assert Pow2(Log2(o.counts[l])) == o.prefetch * p;
      hide *;
      MulLe(p, 1, o.prefetch);
    }
  }

  lemma RangeOfLevel(v: int, p: nat, burst: nat, count: nat)
    requires 0 <= v < p && burst > 0 && p <= count
    ensures 0 <= v < count && (burst * p <= count ==> v * burst < count)
  {
    MulLt(burst, v, p);
  }
}
