/** One cache of ramulator/Cache.h: sets of lines kept least recently used first, and
    the misses outstanding to the next level. */
module CacheLines {
  import opened Arithmetic

  datatype Option<T> = None | Some(value: T)

  /** `node` names the list node, so that what an iterator refers to can be told apart
      from a later line of the same address. */
  datatype Line = Line(addr: int, tag: int, lock: bool, dirty: bool, node: nat)

  /** An MSHR entry: the address and the iterator to the locked line. */
  datatype Entry = Entry(addr: int, node: nat)

  datatype Cache = Cache(sets: map<int, seq<Line>>, mshr: seq<Entry>)

  /** A cache as configured: its number of sets, ways and MSHR entries, its level, and
      its place in the tree (`lower` is -1 at the last level). */
  datatype Geo = Geo(nSets: int, assoc: int, mshrMax: int, level: int, lower: int, higher: seq<int>)

  /** The block size the processor configures on every level. */
  const BLOCK := 64

  function Block(addr: int): int { addr / BLOCK }

  function Align(addr: int): int { addr - addr % BLOCK }

  lemma AlignIsBlock(a: int, b: int)
    ensures Align(a) == Align(b) <==> Block(a) == Block(b)
  {}

  predicate GeoOk(g: Geo) { g.nSets > 0 && g.assoc > 0 && g.mshrMax >= 0 && 0 <= g.level <= 2 }

  function Index(g: Geo, addr: int): int
    requires g.nSets > 0
  {
    addr / BLOCK % g.nSets
  }

  function Tag(g: Geo, addr: int): int
    requires g.nSets > 0
  {
    DivPositive(g.nSets);
    addr / (BLOCK * g.nSets)
  }

  lemma DivPositive(n: int)
    requires n > 0
    ensures BLOCK * n > 0
  {}

  /** Index and tag together name the block, and nothing more. */
  lemma SameSlot(g: Geo, a: int, b: int)
    requires g.nSets > 0
    ensures Index(g, a) == Index(g, b) && Tag(g, a) == Tag(g, b) <==> Block(a) == Block(b)
  {
    TagIsBlock(g.nSets, a);
    TagIsBlock(g.nSets, b);
    if Index(g, a) == Index(g, b) && Tag(g, a) == Tag(g, b) {
      assert Block(a) == g.nSets * (Block(a) / g.nSets) + Block(a) % g.nSets;
      assert Block(b) == g.nSets * (Block(b) / g.nSets) + Block(b) % g.nSets;
    }
  }

  lemma TagIsBlock(n: int, a: int)
    requires n > 0
    ensures BLOCK * n > 0 && a / (BLOCK * n) == a / BLOCK / n
  {
    DivPositive(n);
    var q := a / BLOCK / n;
    var r := a / BLOCK % n;
    assert a / BLOCK == n * q + r;
    assert a == BLOCK * (n * q + r) + a % BLOCK;
    assert BLOCK * (n * q) == (BLOCK * n) * q;
    var rest := BLOCK * r + a % BLOCK;
    assert a == (BLOCK * n) * q + rest;
    assert r + 1 <= n;
    assert BLOCK * r + BLOCK <= BLOCK * n;
    DivUnique(a, BLOCK * n, q, rest);
  }

  // --------------------------------------------------------------- one set

  /** find_if by tag; |ls| is end(). */
  function Find(ls: seq<Line>, tag: int): (p: nat)
    ensures p <= |ls| && (p < |ls| ==> ls[p].tag == tag)
    ensures forall q :: 0 <= q < p ==> ls[q].tag != tag
  {
    if ls == [] || ls[0].tag == tag then 0
    else
      var p := Find(ls[1..], tag);
      assert forall q :: 0 < q < 1 + p ==> ls[q] == ls[1..][q - 1];
      1 + p
  }

  /** The line an iterator refers to; |ls| when its node has been erased. */
  function FindNode(ls: seq<Line>, node: nat): (p: nat)
    ensures p <= |ls| && (p < |ls| ==> ls[p].node == node)
    ensures forall q :: 0 <= q < p ==> ls[q].node != node
  {
    if ls == [] || ls[0].node == node then 0
    else
      var p := FindNode(ls[1..], node);
      assert forall q :: 0 < q < 1 + p ==> ls[q] == ls[1..][q - 1];
      1 + p
  }

  function Erase(ls: seq<Line>, p: nat): seq<Line>
    requires p < |ls|
  {
    ls[..p] + ls[p + 1..]
  }

  /** push_back, then erase what was at p. */
  function Touch(ls: seq<Line>, p: nat, l: Line): seq<Line>
    requires p < |ls|
  {
    Erase(ls + [l], p)
  }

  ghost predicate SetOk(g: Geo, ls: seq<Line>, idx: int, nodes: nat)
    requires g.nSets > 0
  {
    && |ls| <= g.assoc
    && (forall p :: 0 <= p < |ls| ==>
         Index(g, ls[p].addr) == idx && ls[p].tag == Tag(g, ls[p].addr) && ls[p].node < nodes)
    && (forall p, q :: 0 <= p < q < |ls| ==> ls[p].tag != ls[q].tag && ls[p].node < ls[q].node)
  }

  // ------------------------------------------------------------- the cache

  function Lines(c: Cache, idx: int): seq<Line> { if idx in c.sets then c.sets[idx] else [] }

  function SetLines(c: Cache, idx: int, ls: seq<Line>): Cache { c.(sets := c.sets[idx := ls]) }

  function LookUp(ls: seq<Line>, tag: int): Option<Line> {
    var p := Find(ls, tag);
    if p < |ls| then Some(ls[p]) else None
  }

  /** The copy of a block, if there is one. */
  function At(g: Geo, c: Cache, b: int): (r: Option<Line>)
    requires g.nSets > 0
  {
    LookUp(Lines(c, Index(g, b * BLOCK)), Tag(g, b * BLOCK))
  }

  lemma BlockIndex(g: Geo, addr: int)
    requires g.nSets > 0
    ensures Index(g, Block(addr) * BLOCK) == Index(g, addr) && Tag(g, Block(addr) * BLOCK) == Tag(g, addr)
  {
    SameSlot(g, Block(addr) * BLOCK, addr);
  }

  ghost predicate SetsOk(g: Geo, c: Cache, nodes: nat)
    requires g.nSets > 0
  {
    forall idx :: idx in c.sets ==> SetOk(g, c.sets[idx], idx, nodes)
  }

  /** Finding by tag in the set of an address is finding the copy of its block. */
  lemma FindIsAt(g: Geo, c: Cache, addr: int)
    requires g.nSets > 0
    ensures At(g, c, Block(addr)) == LookUp(Lines(c, Index(g, addr)), Tag(g, addr))
  {
    BlockIndex(g, addr);
  }

  predicate DistinctTags(ls: seq<Line>) { forall p, q :: 0 <= p < q < |ls| ==> ls[p].tag != ls[q].tag }

  lemma FindPosition(ls: seq<Line>, p: nat)
    requires p < |ls| && forall q, r :: 0 <= q < r < |ls| ==> ls[q].tag != ls[r].tag && ls[q].node != ls[r].node
    ensures Find(ls, ls[p].tag) == p && FindNode(ls, ls[p].node) == p
  {}

  /** The copy at position p of a set is the copy of its block. */
  lemma AtPosition(g: Geo, c: Cache, idx: int, p: nat, nodes: nat)
    requires g.nSets > 0 && SetsOk(g, c, nodes) && p < |Lines(c, idx)|
    ensures At(g, c, Block(Lines(c, idx)[p].addr)) == Some(Lines(c, idx)[p])
    ensures Find(Lines(c, idx), Lines(c, idx)[p].tag) == p && FindNode(Lines(c, idx), Lines(c, idx)[p].node) == p
    ensures Index(g, Lines(c, idx)[p].addr) == idx && Lines(c, idx)[p].tag == Tag(g, Lines(c, idx)[p].addr)
    ensures Lines(c, idx)[p].node < nodes
  {
    hide Index, Tag;
    assert SetOk(g, c.sets[idx], idx, nodes);
    FindPosition(Lines(c, idx), p);
    FindIsAt(g, c, Lines(c, idx)[p].addr);
  }

  /** A found copy is a copy of that block, in the set of that block. */
  lemma AtSome(g: Geo, c: Cache, b: int, nodes: nat) returns (p: nat)
    requires g.nSets > 0 && SetsOk(g, c, nodes) && At(g, c, b).Some?
    ensures Block(At(g, c, b).value.addr) == b
    ensures p < |Lines(c, Index(g, b * BLOCK))| && Lines(c, Index(g, b * BLOCK))[p] == At(g, c, b).value
    ensures p == Find(Lines(c, Index(g, b * BLOCK)), Tag(g, b * BLOCK))
  {
    var idx := Index(g, b * BLOCK);
    p := Find(Lines(c, idx), Tag(g, b * BLOCK));
    AtPosition(g, c, idx, p, nodes);
    SameSlot(g, Lines(c, idx)[p].addr, b * BLOCK);
  }

  // ------------------------------------------- what each list update means

  lemma LookUpUnique(ls: seq<Line>, p: nat)
    requires p < |ls| && DistinctTags(ls)
    ensures LookUp(ls, ls[p].tag) == Some(ls[p])
  {}

  lemma LookUpErase(ls: seq<Line>, p: nat, tag: int)
    requires p < |ls| && DistinctTags(ls)
    ensures LookUp(Erase(ls, p), tag) == if tag == ls[p].tag then None else LookUp(ls, tag)
  {
    var out := Erase(ls, p);
    assert forall q :: 0 <= q < |out| ==> out[q] == ls[if q < p then q else q + 1];
    var f := Find(ls, tag);
    hide Find, Erase;
    if tag != ls[p].tag && f < |ls| {
      var q := if f < p then f else f - 1;
      assert out[q] == ls[f];
      LookUpUnique(out, q);
    }
  }

  lemma LookUpPush(ls: seq<Line>, l: Line, tag: int)
    requires LookUp(ls, l.tag) == None
    ensures LookUp(ls + [l], tag) == if tag == l.tag then Some(l) else LookUp(ls, tag)
  {
    hide Find;
    var out := ls + [l];
    assert out[|ls|] == l && forall q :: 0 <= q < |ls| ==> out[q] == ls[q];
  }

  lemma LookUpReplace(ls: seq<Line>, p: nat, l: Line, tag: int)
    requires p < |ls| && DistinctTags(ls) && l.tag == ls[p].tag
    ensures LookUp(ls[p := l], tag) == if tag == l.tag then Some(l) else LookUp(ls, tag)
  {
    hide Find;
    var out := ls[p := l];
    assert out[p] == l && forall q :: 0 <= q < |ls| && q != p ==> out[q] == ls[q];
  }

  /** A set list replaced by one that differs from it only in the copy of one block. */
  lemma SetAt(g: Geo, c: Cache, idx: int, out: seq<Line>, addr: int, copy: Option<Line>, nodes: nat)
    requires g.nSets > 0 && SetsOk(g, c, nodes) && SetOk(g, out, idx, nodes) && Index(g, addr) == idx
    requires forall tag :: LookUp(out, tag) == if tag == Tag(g, addr) then copy else LookUp(Lines(c, idx), tag)
    ensures SetsOk(g, SetLines(c, idx, out), nodes)
    ensures forall b :: At(g, SetLines(c, idx, out), b) == if b == Block(addr) then copy else At(g, c, b)
  {
    hide Index, Tag, Find, SetOk;
    forall b ensures At(g, SetLines(c, idx, out), b) == if b == Block(addr) then copy else At(g, c, b) {
      SameSlot(g, b * BLOCK, addr);
    }
  }

  lemma EraseAt(g: Geo, c: Cache, idx: int, p: nat, nodes: nat)
    requires g.nSets > 0 && SetsOk(g, c, nodes) && p < |Lines(c, idx)|
    ensures var d := SetLines(c, idx, Erase(Lines(c, idx), p));
      && SetsOk(g, d, nodes)
      && forall b :: At(g, d, b) == if b == Block(Lines(c, idx)[p].addr) then None else At(g, c, b)
  {
    hide Index, Tag, Find, LookUp;
    var ls := Lines(c, idx);
    AtPosition(g, c, idx, p, nodes);
    assert SetOk(g, ls, idx, nodes);
    assert DistinctTags(ls);
    EraseOk(g, ls, idx, p, nodes);
    hide SetOk, DistinctTags;
    forall tag ensures LookUp(Erase(ls, p), tag) == if tag == ls[p].tag then None else LookUp(ls, tag) {
      LookUpErase(ls, p, tag);
    }
    SetAt(g, c, idx, Erase(ls, p), ls[p].addr, None, nodes);
  }

  lemma EraseOk(g: Geo, ls: seq<Line>, idx: int, p: nat, nodes: nat)
    requires g.nSets > 0 && SetOk(g, ls, idx, nodes) && p < |ls|
    ensures SetOk(g, Erase(ls, p), idx, nodes)
  {
    hide Index, Tag;
    var out := Erase(ls, p);
    assert forall q :: 0 <= q < |out| ==> out[q] == ls[if q < p then q else q + 1];
  }

  lemma MoreNodes(g: Geo, c: Cache, nodes: nat)
    requires g.nSets > 0 && SetsOk(g, c, nodes)
    ensures SetsOk(g, c, nodes + 1)
  {
    hide Index, Tag;
    assert forall idx :: idx in c.sets ==> SetOk(g, c.sets[idx], idx, nodes);
  }

  lemma PushAt(g: Geo, c: Cache, idx: int, l: Line, nodes: nat)
    requires g.nSets > 0 && SetsOk(g, c, nodes) && |Lines(c, idx)| < g.assoc
    requires Index(g, l.addr) == idx && l.tag == Tag(g, l.addr) && l.node == nodes && At(g, c, Block(l.addr)) == None
    ensures var d := SetLines(c, idx, Lines(c, idx) + [l]);
      && SetsOk(g, d, nodes + 1)
      && forall b :: At(g, d, b) == if b == Block(l.addr) then Some(l) else At(g, c, b)
  {
    hide Index, Tag;
    var ls := Lines(c, idx);
    FindIsAt(g, c, l.addr);
    MoreNodes(g, c, nodes);
    assert idx in c.sets ==> SetOk(g, ls, idx, nodes);
    assert SetOk(g, ls + [l], idx, nodes + 1);
    assert LookUp(ls, l.tag) == None;
    hide *;
    forall tag ensures LookUp(ls + [l], tag) == if tag == l.tag then Some(l) else LookUp(ls, tag) {
      LookUpPush(ls, l, tag);
    }
    SetAt(g, c, idx, ls + [l], l.addr, Some(l), nodes + 1);
  }

  lemma TouchAt(g: Geo, c: Cache, idx: int, p: nat, l: Line, nodes: nat)
    requires g.nSets > 0 && SetsOk(g, c, nodes) && p < |Lines(c, idx)|
    requires Block(l.addr) == Block(Lines(c, idx)[p].addr) && l.tag == Tag(g, l.addr) && l.node == nodes
    ensures var d := SetLines(c, idx, Touch(Lines(c, idx), p, l));
      && SetsOk(g, d, nodes + 1)
      && forall b :: At(g, d, b) == if b == Block(l.addr) then Some(l) else At(g, c, b)
  {
    hide Index, Tag, Find, SetsOk, At;
    var ls := Lines(c, idx);
    SetSize(g, c, idx, nodes);
    EraseAt(g, c, idx, p, nodes);
    AtPosition(g, c, idx, p, nodes);
    SameSlot(g, l.addr, ls[p].addr);
    TouchIsErasePush(c, idx, p, l);
    PushAt(g, SetLines(c, idx, Erase(ls, p)), idx, l, nodes);
  }

  lemma SetSize(g: Geo, c: Cache, idx: int, nodes: nat)
    requires g.nSets > 0 && SetsOk(g, c, nodes)
    ensures Lines(c, idx) != [] ==> |Lines(c, idx)| <= g.assoc
  {
    assert idx in c.sets ==> SetOk(g, c.sets[idx], idx, nodes);
  }

  lemma TouchIsErasePush(c: Cache, idx: int, p: nat, l: Line)
    requires p < |Lines(c, idx)|
    ensures var d := SetLines(c, idx, Erase(Lines(c, idx), p));
      && |Lines(d, idx)| == |Lines(c, idx)| - 1
      && SetLines(d, idx, Lines(d, idx) + [l]) == SetLines(c, idx, Touch(Lines(c, idx), p, l))
  {
    assert Touch(Lines(c, idx), p, l) == Erase(Lines(c, idx), p) + [l];
  }

  lemma ReplaceOk(g: Geo, ls: seq<Line>, idx: int, p: nat, l: Line, nodes: nat)
    requires g.nSets > 0 && SetOk(g, ls, idx, nodes) && p < |ls|
    requires l.addr == ls[p].addr && l.tag == ls[p].tag && l.node == ls[p].node
    ensures SetOk(g, ls[p := l], idx, nodes) && DistinctTags(ls)
  {
    hide Index, Tag;
  }

  /** Changing a line in place through an iterator. */
  lemma ReplaceAt(g: Geo, c: Cache, idx: int, p: nat, l: Line, nodes: nat)
    requires g.nSets > 0 && SetsOk(g, c, nodes) && p < |Lines(c, idx)|
    requires var k := Lines(c, idx)[p]; l.addr == k.addr && l.tag == k.tag && l.node == k.node
    ensures var d := SetLines(c, idx, Lines(c, idx)[p := l]);
      && SetsOk(g, d, nodes)
      && forall b :: At(g, d, b) == if b == Block(l.addr) then Some(l) else At(g, c, b)
  {
    hide Index, Tag;
    var ls := Lines(c, idx);
    AtPosition(g, c, idx, p, nodes);
    assert SetOk(g, ls, idx, nodes);
    ReplaceOk(g, ls, idx, p, l, nodes);
    hide *;
    forall tag ensures LookUp(ls[p := l], tag) == if tag == l.tag then Some(l) else LookUp(ls, tag) {
      LookUpReplace(ls, p, l, tag);
    }
    SetAt(g, c, idx, ls[p := l], l.addr, Some(l), nodes);
  }

  // ------------------------------------------------------------------- MSHR

  /** hit_mshr; |c.mshr| is end(). */
  function HitMshr(mshr: seq<Entry>, addr: int): (k: nat)
    ensures k <= |mshr| && (k < |mshr| ==> Block(mshr[k].addr) == Block(addr))
    ensures forall j :: 0 <= j < k ==> Block(mshr[j].addr) != Block(addr)
  {
    if mshr == [] || Align(mshr[0].addr) == Align(addr) then 0
    else
      var k := HitMshr(mshr[1..], addr);
      assert forall j :: 0 < j < 1 + k ==> mshr[j] == mshr[1..][j - 1];
      1 + k
  }

  /** Outstanding misses and locked lines correspond one to one, and every iterator an
      entry holds refers to the locked line of its block. */
  ghost predicate MshrOk(g: Geo, c: Cache)
    requires g.nSets > 0
  {
    && |c.mshr| <= g.mshrMax
    && (forall i, j :: 0 <= i < j < |c.mshr| ==> Block(c.mshr[i].addr) != Block(c.mshr[j].addr))
    && (forall i :: 0 <= i < |c.mshr| ==> Refers(g, c, c.mshr[i]))
    && (forall b :: Locked(g, c, b) ==> exists i :: 0 <= i < |c.mshr| && Block(c.mshr[i].addr) == b)
  }

  ghost predicate Refers(g: Geo, c: Cache, e: Entry)
    requires g.nSets > 0
  {
    Locked(g, c, Block(e.addr)) && At(g, c, Block(e.addr)).value.node == e.node
  }

  predicate Locked(g: Geo, c: Cache, b: int)
    requires g.nSets > 0
  {
    At(g, c, b).Some? && At(g, c, b).value.lock
  }

  /** The locked copies, and the nodes they sit in, decide the correspondence. */
  lemma MshrFrame(g: Geo, c: Cache, d: Cache)
    requires g.nSets > 0 && MshrOk(g, c) && d.mshr == c.mshr
    requires forall b :: Locked(g, d, b) == Locked(g, c, b)
    requires forall b :: Locked(g, c, b) && Locked(g, d, b) ==> At(g, d, b).value.node == At(g, c, b).value.node
    ensures MshrOk(g, d)
  {
    hide At;
    forall j | 0 <= j < |c.mshr| ensures Refers(g, d, c.mshr[j]) { assert Refers(g, c, c.mshr[j]); }
  }

  lemma PushedMshr(g: Geo, c: Cache, d: Cache, b: int, e: Entry, l: Line)
    requires g.nSets > 0 && MshrOk(g, c) && At(g, c, b) == None && |c.mshr| < g.mshrMax
    requires d.mshr == c.mshr + [e] && Block(e.addr) == b && l.lock && l.node == e.node
    requires forall b' :: At(g, d, b') == if b' == b then Some(l) else At(g, c, b')
    ensures MshrOk(g, d)
  {
    hide At;
    forall j | 0 <= j < |d.mshr| ensures Refers(g, d, d.mshr[j]) && (j < |c.mshr| ==> Block(d.mshr[j].addr) != b) {
      if j < |c.mshr| { assert Refers(g, c, c.mshr[j]); }
    }
    forall b' | Locked(g, d, b') ensures exists j :: 0 <= j < |d.mshr| && Block(d.mshr[j].addr) == b' {
      if b' == b {
        assert d.mshr[|c.mshr|] == e;
      } else {
        assert Locked(g, c, b');
        var j :| 0 <= j < |c.mshr| && Block(c.mshr[j].addr) == b';
        assert d.mshr[j] == c.mshr[j];
      }
    }
  }

  /** Unlocking a line and erasing its entry. */
  lemma UnlockedMshr(g: Geo, c: Cache, d: Cache, k: nat, l: Line)
    requires g.nSets > 0 && MshrOk(g, c) && k < |c.mshr| && !l.lock
    requires d.mshr == c.mshr[..k] + c.mshr[k + 1..]
    requires forall b :: At(g, d, b) == if b == Block(c.mshr[k].addr) then Some(l) else At(g, c, b)
    ensures MshrOk(g, d)
  {
    hide At;
    forall j | 0 <= j < |d.mshr| ensures Refers(g, d, d.mshr[j]) {
      assert d.mshr[j] == c.mshr[if j < k then j else j + 1];
      assert Refers(g, c, d.mshr[j]);
    }
    forall b | Locked(g, d, b) ensures exists j :: 0 <= j < |d.mshr| && Block(d.mshr[j].addr) == b {
      assert Locked(g, c, b);
      var j :| 0 <= j < |c.mshr| && Block(c.mshr[j].addr) == b;
      assert d.mshr[if j < k then j else j - 1] == c.mshr[j];
    }
  }
}
