/** What the page array of the buddy allocator says about free memory, and why eager merging
    makes it canonical. A page whose `order` is `k >= 0` heads a free block of `2^k` pages. */
module BuddySpec {
  import opened BuddyMath

  const MAPS: nat := 6
  const TOP: nat := MAPS - 1

  datatype Page = Page(order: int, invalid: bool, useCount: int)

  /** Page `p` heads a free block that contains page `q`. */
  predicate Covers(o: seq<Page>, p: int, q: int)
  {
    0 <= p < |o| && o[p].order >= 0 && InBlock(q, p, o[p].order)
  }

  ghost predicate FreePage(o: seq<Page>, q: int)
  {
    exists p :: Covers(o, p, q)
  }

  /** Every page of the run of `2^k` pages at `p` is free. */
  ghost predicate RunFree(o: seq<Page>, p: int, k: nat)
  {
    forall q :: InBlock(q, p, k) ==> FreePage(o, q)
  }

  /** No page of the run of `2^k` pages at `p` is free. */
  ghost predicate RunTaken(o: seq<Page>, p: int, k: nat)
  {
    forall q :: InBlock(q, p, k) ==> !FreePage(o, q)
  }

  /** A naturally aligned run inside the page array. */
  predicate IsRun(o: seq<Page>, p: nat, k: nat)
  {
    k <= TOP && p < |o| && Aligned(p, k)
  }

  predicate Disjoint(o: seq<Page>, p: int, q: int)
    requires 0 <= p < |o| && 0 <= q < |o|
  {
    o[p].order >= 0 && o[q].order >= 0 && p < q ==> p + Size(o[p].order) <= q
  }

  /** Free blocks are aligned to their order and pairwise disjoint. */
  ghost predicate Blocks(o: seq<Page>)
  {
    && Aligned(|o|, TOP)
    && (forall p :: 0 <= p < |o| ==> -1 <= o[p].order <= TOP)
    && (forall p :: 0 <= p < |o| && o[p].order >= 0 ==> Aligned(p, o[p].order))
    && (forall p, q :: 0 <= p < |o| && 0 <= q < |o| ==> Disjoint(o, p, q))
  }

  predicate BuddyNotFree(o: seq<Page>, p: nat, k: nat)
  {
    FlipBit(p, k) < |o| ==> o[FlipBit(p, k)].order != k
  }

  /** No two buddies of order `k` are both free at order `k`. */
  ghost predicate CoalescedAt(o: seq<Page>, k: nat)
  {
    forall p :: 0 <= p < |o| && o[p].order == k ==> BuddyNotFree(o, p, k)
  }

  ghost predicate Coalesced(o: seq<Page>)
  {
    forall k :: 0 <= k < TOP ==> CoalescedAt(o, k)
  }

  function SetOrder(o: seq<Page>, p: nat, k: int): seq<Page>
    requires p < |o|
  {
    o[p := o[p].(order := k)]
  }

  lemma RunFits(o: seq<Page>, p: nat, k: nat)
    requires Aligned(|o|, TOP) && IsRun(o, p, k)
    ensures p + Size(k) <= |o|
  {
    AlignedWeaken(|o|, TOP, k);
    Fits(p, k, |o|);
  }

  /** A block with no free page overlaps no free block. */
  lemma TakenApart(o: seq<Page>, p: nat, k: nat, h: nat)
    requires p < |o| && RunTaken(o, p, k)
    requires h < |o| && o[h].order >= 0
    ensures h != p && (h + Size(o[h].order) <= p || p + Size(k) <= h)
  {
    if !(h + Size(o[h].order) <= p || p + Size(k) <= h) {
      var x := if h <= p then p else h;
      assert Covers(o, h, x) && InBlock(x, p, k);
    }
  }

  lemma AddFree(o: seq<Page>, p: nat, k: nat, q: int)
    requires p < |o| && RunTaken(o, p, k)
    ensures FreePage(SetOrder(o, p, k), q) <==> FreePage(o, q) || InBlock(q, p, k)
  {
    var o' := SetOrder(o, p, k);
    if FreePage(o, q) {
      var h :| Covers(o, h, q);
      TakenApart(o, p, k, h);
      assert Covers(o', h, q);
    }
    if InBlock(q, p, k) { assert Covers(o', p, q); }
    if FreePage(o', q) {
      var h :| Covers(o', h, q);
      if h != p { assert Covers(o, h, q); }
    }
  }

  /** Marking the head of a run none of whose pages is free makes exactly that run free. */
  lemma AddBlock(o: seq<Page>, p: nat, k: nat)
    requires Blocks(o) && IsRun(o, p, k) && RunTaken(o, p, k)
    ensures Blocks(SetOrder(o, p, k))
    ensures forall q :: FreePage(SetOrder(o, p, k), q) <==> FreePage(o, q) || InBlock(q, p, k)
  {
    var o' := SetOrder(o, p, k);
    forall h, q | 0 <= h < |o'| && 0 <= q < |o'|
      ensures Disjoint(o', h, q)
    {
      assert Disjoint(o, h, q);
      if o[h].order >= 0 { TakenApart(o, p, k, h); }
      if o[q].order >= 0 { TakenApart(o, p, k, q); }
    }
    forall q
      ensures FreePage(o', q) <==> FreePage(o, q) || InBlock(q, p, k)
    {
      AddFree(o, p, k, q);
    }
  }

  /** Clearing the order of a head takes exactly its block away. */
  lemma RemoveBlock(o: seq<Page>, p: nat)
    requires Blocks(o) && p < |o| && o[p].order >= 0
    ensures var o' := SetOrder(o, p, -1);
            && Blocks(o')
            && (forall q :: FreePage(o', q) <==> FreePage(o, q) && !InBlock(q, p, o[p].order))
  {
    var o' := SetOrder(o, p, -1);
    forall q
      ensures FreePage(o', q) <==> FreePage(o, q) && !InBlock(q, p, o[p].order)
    {
      if FreePage(o', q) {
        var h :| Covers(o', h, q);
        assert Covers(o, h, q);
        if InBlock(q, p, o[p].order) { OneBlock(o, h, p, q); }
      }
      if FreePage(o, q) && !InBlock(q, p, o[p].order) {
        var h :| Covers(o, h, q);
        assert Covers(o', h, q);
      }
    }
    forall h, q | 0 <= h < |o'| && 0 <= q < |o'|
      ensures Disjoint(o', h, q)
    {
      assert Disjoint(o, h, q);
    }
  }

  /** Adding a block unbalances no level but its own, and its own only if its buddy is free there. */
  lemma AddKeepsLevel(o: seq<Page>, p: nat, k: nat, j: nat)
    requires p < |o| && Aligned(p, k) && o[p].order == -1
    requires forall q :: 0 <= q < |o| && o[q].order >= 0 ==> Aligned(q, o[q].order)
    requires CoalescedAt(o, j)
    requires j == k ==> BuddyNotFree(o, p, k)
    ensures CoalescedAt(SetOrder(o, p, k), j)
  {
    var o' := SetOrder(o, p, k);
    forall q | 0 <= q < |o'| && o'[q].order == j
      ensures BuddyNotFree(o', q, j)
    {
      BuddyHalves(q, j);
      if q != p { assert BuddyNotFree(o, q, j); }
    }
  }

  lemma RemoveKeepsLevel(o: seq<Page>, p: nat, j: nat)
    requires p < |o| && CoalescedAt(o, j)
    ensures CoalescedAt(SetOrder(o, p, -1), j)
  {
    var o' := SetOrder(o, p, -1);
    forall q | 0 <= q < |o'| && o'[q].order == j
      ensures BuddyNotFree(o', q, j)
    {
      assert BuddyNotFree(o, q, j);
    }
  }

  lemma SubrunFree(o: seq<Page>, p: int, j: nat, q: int, k: nat)
    requires p <= q && q + Size(k) <= p + Size(j) && RunFree(o, p, j)
    ensures RunFree(o, q, k)
  {
    forall x | InBlock(x, q, k) ensures FreePage(o, x) { assert InBlock(x, p, j); }
  }

  lemma HeadRunFree(o: seq<Page>, p: nat)
    requires p < |o| && o[p].order >= 0
    ensures RunFree(o, p, o[p].order)
  {
    forall q | InBlock(q, p, o[p].order) ensures FreePage(o, q) { assert Covers(o, p, q); }
  }

  /** Two free blocks that contain the two halves of a run: one of them contains the whole run. */
  lemma HalvesJoin(o: seq<Page>, q: nat, j: nat, p: nat, r: nat)
    requires Blocks(o) && CoalescedAt(o, j) && IsRun(o, q, j + 1)
    requires p < |o| && o[p].order >= j && p <= q && q + Size(j) <= p + Size(o[p].order)
    requires r < |o| && o[r].order >= j && r <= q + Size(j) && q + 2 * Size(j) <= r + Size(o[r].order)
    ensures || (o[p].order > j && q + Size(j + 1) <= p + Size(o[p].order))
            || (o[r].order > j && r <= q)
  {
    SplitHalves(q, j);
    BuddyHalves(q, j);
    if o[p].order > j {
      SharedNests(p, o[p].order, q, j + 1, q);
    } else if o[r].order > j {
      SharedNests(r, o[r].order, q, j + 1, q + Size(j));
    } else {
      assert false;
    }
  }

  /** The key fact about coalesced states: every naturally aligned run of free pages lies in one free block. */
  lemma {:induction false} RunInOneBlock(o: seq<Page>, q: nat, k: nat) returns (p: nat)
    requires Blocks(o) && Coalesced(o)
    requires IsRun(o, q, k) && RunFree(o, q, k)
    ensures p < |o| && o[p].order >= k
    ensures p <= q && q + Size(k) <= p + Size(o[p].order)
    decreases k
  {
    if k == 0 {
      assert InBlock(q, q, 0);
      p :| Covers(o, p, q);
    } else {
      var j := k - 1;
      SplitHalves(q, j);
      BuddyHalves(q, j);
      RunFits(o, q, k);
      SubrunFree(o, q, k, q, j);
      SubrunFree(o, q, k, q + Size(j), j);
      p := RunInOneBlock(o, q, j);
      var r := RunInOneBlock(o, q + Size(j), j);
      HalvesJoin(o, q, j, p, r);
      if o[p].order == j || q + Size(k) > p + Size(o[p].order) { p := r; }
    }
  }

  /** A page lies in at most one free block. */
  lemma OneBlock(o: seq<Page>, p: nat, r: nat, q: int)
    requires Blocks(o) && Covers(o, p, q) && Covers(o, r, q)
    ensures p == r
  {
    assert Disjoint(o, p, r) && Disjoint(o, r, p);
  }

  /** `p` heads a largest free aligned run: it is free, and its parent run is not. */
  ghost predicate MaximalRun(o: seq<Page>, p: nat, k: nat)
  {
    IsRun(o, p, k) && RunFree(o, p, k) && (k < TOP ==> !RunFree(o, ClearBit(p, k), k + 1))
  }

  lemma HeadIsMaximal(o: seq<Page>, p: nat)
    requires Blocks(o) && Coalesced(o) && p < |o| && o[p].order >= 0
    ensures MaximalRun(o, p, o[p].order)
  {
    var k := o[p].order;
    HeadRunFree(o, p);
    if k < TOP {
      var h := ClearBit(p, k);
      BuddyHalves(p, k);
      if RunFree(o, h, k + 1) {
        var r := RunInOneBlock(o, h, k + 1);
        OneBlock(o, r, p, p);
        assert false;
      }
    }
  }

  /** A larger free block that contains a run contains its parent run, which then is free. */
  lemma ParentRunFree(o: seq<Page>, p: nat, k: nat, r: nat)
    requires Blocks(o) && IsRun(o, p, k) && r < |o| && k < o[r].order && r <= p < r + Size(o[r].order)
    ensures RunFree(o, ClearBit(p, k), k + 1)
  {
    var j, h := o[r].order, ClearBit(p, k);
    BuddyHalves(p, k);
    SharedNests(r, j, h, k + 1, p);
    HeadRunFree(o, r);
    SubrunFree(o, r, j, h, k + 1);
  }

  /** In a coalesced state the free lists are determined by which pages are free and nothing else:
      a page heads a free block of order `k` exactly when it heads a maximal free aligned run. */
  lemma OrderIffMaximal(o: seq<Page>, p: nat, k: nat)
    requires Blocks(o) && Coalesced(o) && p < |o| && k <= TOP
    ensures o[p].order == k <==> MaximalRun(o, p, k)
  {
    if o[p].order == k { HeadIsMaximal(o, p); }
    if MaximalRun(o, p, k) {
      var r := RunInOneBlock(o, p, k);
      var j := o[r].order;
      if j > k {
        ParentRunFree(o, p, k, r);
        assert false;
      }
      SharedNests(p, k, r, k, p);
    }
  }

  /** Canonicity: two coalesced states with the same free pages have the same free blocks, whatever
      sequence of allocations and frees led to each. */
  lemma Canonical(o: seq<Page>, o': seq<Page>)
    requires Blocks(o) && Coalesced(o) && Blocks(o') && Coalesced(o')
    requires |o| == |o'|
    requires forall q :: FreePage(o, q) <==> FreePage(o', q)
    ensures forall p :: 0 <= p < |o| ==> o[p].order == o'[p].order
  {
    forall p | 0 <= p < |o|
      ensures o[p].order == o'[p].order
    {
      if o[p].order >= 0 {
        HeadIsMaximal(o, p);
        assert MaximalRun(o', p, o[p].order);
        OrderIffMaximal(o', p, o[p].order);
      }
      if o'[p].order >= 0 {
        HeadIsMaximal(o', p);
        assert MaximalRun(o, p, o'[p].order);
        OrderIffMaximal(o, p, o'[p].order);
      }
    }
  }

  /** Some free block of order at least `k` exists exactly when some aligned run of `2^k` pages is wholly free. */
  lemma BlockIffRun(o: seq<Page>, k: nat)
    requires Blocks(o) && Coalesced(o) && k <= TOP
    ensures (exists p :: 0 <= p < |o| && o[p].order >= k) <==>
            (exists q: nat :: IsRun(o, q, k) && RunFree(o, q, k))
  {
    if p :| 0 <= p < |o| && o[p].order >= k {
      AlignedWeaken(p, o[p].order, k);
      HeadRunFree(o, p);
      SubrunFree(o, p, o[p].order, p, k);
      assert IsRun(o, p, k) && RunFree(o, p, k);
    }
    if q: nat :| IsRun(o, q, k) && RunFree(o, q, k) {
      var p := RunInOneBlock(o, q, k);
    }
  }

  /** The free pages as a set. */
  ghost function FreeSet(o: seq<Page>): (s: set<int>)
    ensures forall q :: q in s <==> 0 <= q < |o| && FreePage(o, q)
  {
    set q | 0 <= q < |o| && FreePage(o, q)
  }

  /** The `n` pages from `p` on. */
  function Interval(p: int, n: nat): (s: set<int>)
    ensures |s| == n
    ensures forall q :: q in s <==> p <= q < p + n
  {
    if n == 0 then {} else Interval(p, n - 1) + {p + n - 1}
  }

  /** Freeing or taking a run changes the number of free pages by the run's size. */
  lemma FreeSetGrows(o: seq<Page>, o': seq<Page>, p: nat, k: nat)
    requires |o| == |o'| && p + Size(k) <= |o|
    requires RunTaken(o, p, k)
    requires forall q :: FreePage(o', q) <==> FreePage(o, q) || InBlock(q, p, k)
    ensures |FreeSet(o')| == |FreeSet(o)| + Size(k)
  {
    var block := Interval(p, Size(k));
    assert forall q :: q in block <==> InBlock(q, p, k);
    assert FreeSet(o') == FreeSet(o) + block;
    assert FreeSet(o) !! block;
  }
}
