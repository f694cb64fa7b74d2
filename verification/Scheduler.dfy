/** The FRFCFS_PriorHit scheduler of ramulator/Scheduler.h. */
module Scheduler {

  /** What the scheduler asks about one queued request: its arrival time, whether its
      first command is ready, whether it hits an open row, whether some row of its bank
      is open, and its row group (channel, rank, bank). */
  datatype Item = Item(arrive: int, ready: bool, hit: bool, open: bool, group: seq<int>)

  /** The shape of the compare lambdas: a flag first, then the age; the first
      argument wins ties. */
  predicate KeepsFirst(flag1: bool, arrive1: int, flag2: bool, arrive2: int) {
    if flag1 != flag2 then flag1 else arrive1 <= arrive2
  }

  predicate ReadyHit(x: Item) { x.ready && x.hit }

  /** Serving item i next means precharging a bank on which another request hits. */
  predicate Violates(items: seq<Item>, i: nat)
    requires i < |items|
  {
    !items[i].hit && items[i].open && exists j :: 0 <= j < |items| && items[j].hit && items[j].group == items[i].group
  }

  /** get_head returns this index; |items| stands for q.end(). */
  ghost predicate IsHead(items: seq<Item>, h: nat) {
    if items == [] then h == 0
    else if exists i :: 0 <= i < |items| && ReadyHit(items[i]) then
      // the oldest ready hit, the earliest one among equals
      && h < |items| && ReadyHit(items[h])
      && forall i :: 0 <= i < |items| && ReadyHit(items[i]) ==>
           items[h].arrive <= items[i].arrive && (i < h ==> items[h].arrive < items[i].arrive)
    else
      // the oldest ready request, else the oldest, among those that spoil no hit
      && h < |items| && !Violates(items, h)
      && forall i :: 0 <= i < |items| && !Violates(items, i) ==>
           Preferred(items[h], items[i]) && (i < h ==> !Preferred(items[i], items[h]))
  }

  /** FRFCFS: ready before not ready, then older before younger. */
  predicate Preferred(x: Item, y: Item) { KeepsFirst(x.ready, x.arrive, y.ready, y.arrive) }

  lemma HeadUnique(items: seq<Item>, h: nat, g: nat)
    requires IsHead(items, h) && IsHead(items, g)
    ensures h == g
  {}

  /** A queue with requests always has a head, and the head spoils no pending hit. */
  lemma HeadExists(items: seq<Item>, h: nat)
    requires IsHead(items, h)
    ensures h == |items| <==> items == []
    ensures items != [] ==> h < |items| && !Violates(items, h)
  {}

  method GetHead(items: seq<Item>) returns (h: nat)
    ensures IsHead(items, h)
  {
    if |items| == 0 { return 0; }

    h := 0;
    for i := 1 to |items|
      invariant h < i
      invariant forall k :: 0 <= k < i ==>
        KeepsFirst(ReadyHit(items[h]), items[h].arrive, ReadyHit(items[k]), items[k].arrive)
        && (k < h ==> !KeepsFirst(ReadyHit(items[k]), items[k].arrive, ReadyHit(items[h]), items[h].arrive))
    {
      if !KeepsFirst(ReadyHit(items[h]), items[h].arrive, ReadyHit(items[i]), items[i].arrive) {
        h := i;
      }
    }
    if ReadyHit(items[h]) { return; }

    var hitGroups := [];
    for i := 0 to |items|
      invariant forall g :: g in hitGroups <==> exists j :: 0 <= j < i && items[j].hit && items[j].group == g
    {
      if items[i].hit { hitGroups := hitGroups + [items[i].group]; }
    }

    h := |items|;
    for i := 0 to |items|
      invariant h == |items| || h < i
      invariant h == |items| ==> forall k :: 0 <= k < i ==> Violates(items, k)
      invariant h < |items| ==> !Violates(items, h) && forall k :: 0 <= k < i && !Violates(items, k) ==>
        Preferred(items[h], items[k]) && (k < h ==> !Preferred(items[k], items[h]))
    {
      var violateHit := false;
      if !items[i].hit && items[i].open {
        for j := 0 to |hitGroups|
          invariant !violateHit && items[i].group !in hitGroups[..j]
        {
          if hitGroups[j] == items[i].group { violateHit := true; break; }
        }
        assert violateHit <==> items[i].group in hitGroups;
      }
      assert violateHit <==> Violates(items, i);
      if violateHit { continue; }
      if h == |items| {
        h := i;
      } else if !Preferred(items[h], items[i]) {
        h := i;
      }
    }
    NotAllViolate(items);
  }

  /** Whatever violates a hit is outnumbered: the hit itself does not violate. */
  lemma NotAllViolate(items: seq<Item>)
    requires items != []
    ensures exists i :: 0 <= i < |items| && !Violates(items, i)
  {
    if Violates(items, 0) {
      var j :| 0 <= j < |items| && items[j].hit && items[j].group == items[0].group;
      assert !Violates(items, j);
    }
  }
}
