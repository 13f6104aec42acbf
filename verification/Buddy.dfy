/** The buddy page allocator of src/mm/palloc.c, with its page array, its free lists and its
    counters updated in place. Requests are the non-waiting ones. */
module Buddy {
  import opened Common
  import opened BuddyMath
  import opened BuddySpec

  /** One `struct page_buddy_map`: a free list, front first, and its counter. */
  datatype BuddyMap = BuddyMap(free: seq<nat>, count: int)

  // ---------------------------------------------------------------- free lists

  /** The list of order `k` holds exactly the heads of the free blocks of order `k`. */
  ghost predicate ListOk(o: seq<Page>, m: BuddyMap, k: int)
  {
    && m.count == |m.free|
    && Distinct(m.free)
    && forall p :: p in m.free <==> 0 <= p < |o| && o[p].order == k
  }

  ghost predicate Lists(o: seq<Page>, ms: seq<BuddyMap>)
  {
    |ms| == MAPS && forall k :: 0 <= k < MAPS ==> ListOk(o, ms[k], k)
  }

  /** The pages that the first `n` lists account for: the sum of `free_count[k] * 2^k`. */
  function Weight(ms: seq<BuddyMap>, n: nat): int
    requires n <= |ms|
  {
    if n == 0 then 0 else Weight(ms, n - 1) + ms[n - 1].count * Size(n - 1)
  }

  lemma {:induction false} WeightUpdate(ms: seq<BuddyMap>, n: nat, k: nat, m: BuddyMap)
    requires k < |ms| && n <= |ms|
    ensures Weight(ms[k := m], n) ==
            Weight(ms, n) + if k < n then (m.count - ms[k].count) * Size(k) else 0
  {
    if n > 0 {
      WeightUpdate(ms, n - 1, k, m);
      if k == n - 1 { Difference(m.count, ms[k].count, Size(k)); }
    }
  }

  lemma {:induction false} NothingListed(ms: seq<BuddyMap>, n: nat)
    requires n <= |ms| && forall k :: 0 <= k < n ==> ms[k].count == 0
    ensures Weight(ms, n) == 0
  {
    if n > 0 { NothingListed(ms, n - 1); }
  }

  /** Where the page of an address starts: not before a page boundary that the address is past. */
  lemma PageStart(a: nat, start: nat)
    requires start <= a && start % PG_SIZE == 0
    ensures start <= (a / PG_SIZE) * PG_SIZE <= a
    ensures a % PG_SIZE != 0 ==> (a / PG_SIZE) * PG_SIZE < a
  {
  }

  lemma Difference(a: int, b: int, c: int)
    ensures (a - b) * c == a * c - b * c
  {
  }

  lemma UnlinkLast(s: seq<nat>)
    requires Distinct(s) && s != []
    ensures Distinct(s[..|s| - 1])
    ensures forall q :: q in s[..|s| - 1] <==> q in s && q != s[|s| - 1]
  {
    assert s == s[..|s| - 1] + [s[|s| - 1]];
  }

  /** Taking a block off its list and clearing its order keeps lists and orders in agreement. */
  lemma TakeOff(o: seq<Page>, ms: seq<BuddyMap>, p: nat, k: nat, rest: seq<nat>)
    requires Lists(o, ms) && k < MAPS && p < |o| && o[p].order == k
    requires |rest| == |ms[k].free| - 1 && Distinct(rest)
    requires forall q :: q in rest <==> q in ms[k].free && q != p
    ensures var ms' := ms[k := BuddyMap(rest, ms[k].count - 1)];
            Lists(SetOrder(o, p, -1), ms') && Weight(ms', MAPS) == Weight(ms, MAPS) - Size(k)
  {
    var m := BuddyMap(rest, ms[k].count - 1);
    var ms' := ms[k := m];
    WeightUpdate(ms, MAPS, k, m);
    assert (m.count - ms[k].count) * Size(k) == 0 - Size(k);
    forall j | 0 <= j < MAPS
      ensures ListOk(SetOrder(o, p, -1), ms'[j], j)
    {
      assert ListOk(o, ms[j], j);
    }
  }

  /** Putting a block on the front of a list and setting its order keeps lists and orders in agreement. */
  lemma PutOn(o: seq<Page>, ms: seq<BuddyMap>, p: nat, k: nat)
    requires Lists(o, ms) && k < MAPS && p < |o| && o[p].order == -1
    ensures var ms' := ms[k := BuddyMap([p] + ms[k].free, ms[k].count + 1)];
            Lists(SetOrder(o, p, k), ms') && Weight(ms', MAPS) == Weight(ms, MAPS) + Size(k)
  {
    var m := BuddyMap([p] + ms[k].free, ms[k].count + 1);
    var ms' := ms[k := m];
    WeightUpdate(ms, MAPS, k, m);
    assert (m.count - ms[k].count) * Size(k) == Size(k);
    forall j | 0 <= j < MAPS
      ensures ListOk(SetOrder(o, p, k), ms'[j], j)
    {
      assert ListOk(o, ms[j], j);
    }
  }

  // ---------------------------------------------------------------- whole-state invariant

  /** Pages differ at most in their orders. */
  ghost predicate SameButOrders(o: seq<Page>, o': seq<Page>)
  {
    |o| == |o'| && forall q :: 0 <= q < |o| ==> o'[q] == o[q].(order := o'[q].order)
  }

  ghost predicate InvalidNotFree(o: seq<Page>)
  {
    forall q :: 0 <= q < |o| && o[q].invalid ==> !FreePage(o, q)
  }

  ghost predicate Core(o: seq<Page>, ms: seq<BuddyMap>, freePages: int)
  {
    && Blocks(o) && Coalesced(o) && Lists(o, ms) && InvalidNotFree(o)
    && freePages == Weight(ms, MAPS) == |FreeSet(o)|
  }

  /** The merge loop's state: the block `(cur, k)` is being freed but is on no list yet, and the
      order recorded for page `cur` may be left over from a buddy that was just absorbed. */
  ghost predicate Merging(o: seq<Page>, ms: seq<BuddyMap>, cur: nat, k: nat)
  {
    && IsRun(o, cur, k)
    && (var e := SetOrder(o, cur, -1);
        && Blocks(e) && Coalesced(e) && Lists(e, ms) && InvalidNotFree(e)
        && RunTaken(e, cur, k))
  }

  /** One round of the merge loop. */
  lemma MergeRound(o: seq<Page>, ms: seq<BuddyMap>, cur: nat, k: nat)
    requires Merging(o, ms, cur, k) && k < TOP
    requires FlipBit(cur, k) < |o| && o[FlipBit(cur, k)].order == k
    ensures ClearBit(cur, k) < |o| && FlipBit(ClearBit(cur, k), k) < |o|
    ensures var b, h := FlipBit(cur, k), ClearBit(cur, k);
            var o' := SetOrder(o, FlipBit(h, k), -1);
            var ms' := ms[k := BuddyMap(Without(ms[k].free, b), ms[k].count - 1)];
            && Merging(o', ms', h, k + 1)
            && Weight(ms', MAPS) == Weight(ms, MAPS) - Size(k)
            && (forall q :: FreePage(SetOrder(o', h, -1), q) || InBlock(q, h, k + 1)
                       <==> FreePage(SetOrder(o, cur, -1), q) || InBlock(q, cur, k))
  {
    var b, h := FlipBit(cur, k), ClearBit(cur, k);
    BuddyHalves(cur, k);
    var e := SetOrder(o, cur, -1);
    var o' := SetOrder(o, FlipBit(h, k), -1);
    var e' := SetOrder(e, b, -1);
    assert e' == SetOrder(o', h, -1);
    assert e[b].order == k;
    RemoveBlock(e, b);
    assert ListOk(e, ms[k], k);
    WithoutExact(ms[k].free, b);
    TakeOff(e, ms, b, k, Without(ms[k].free, b));
    forall j | 0 <= j < TOP
      ensures CoalescedAt(e', j)
    {
      assert CoalescedAt(e, j);
      RemoveKeepsLevel(e, b, j);
    }
    HeadRunFree(e, b);
    assert forall q :: InBlock(q, h, k + 1) <==> InBlock(q, cur, k) || InBlock(q, b, k);
  }

  /** The end of the merge loop: the grown block goes on its list. */
  lemma MergeEnd(o: seq<Page>, ms: seq<BuddyMap>, cur: nat, k: nat)
    requires Merging(o, ms, cur, k)
    requires k < TOP ==> FlipBit(cur, k) < |o| &&
                         (o[FlipBit(cur, k)].order != k || o[FlipBit(cur, k)].invalid)
    requires forall q :: InBlock(q, cur, k) && 0 <= q < |o| ==> !o[q].invalid
    ensures var o' := SetOrder(o, cur, k);
            var ms' := ms[k := BuddyMap([cur] + ms[k].free, ms[k].count + 1)];
            && Blocks(o') && Coalesced(o') && Lists(o', ms') && InvalidNotFree(o')
            && Weight(ms', MAPS) == Weight(ms, MAPS) + Size(k)
            && (forall q :: FreePage(o', q) <==> FreePage(SetOrder(o, cur, -1), q) || InBlock(q, cur, k))
  {
    var e := SetOrder(o, cur, -1);
    var o' := SetOrder(o, cur, k);
    assert o' == SetOrder(e, cur, k);
    AddBlock(e, cur, k);
    PutOn(e, ms, cur, k);
    BuddyHalves(cur, k);
    if k < TOP {
      var b := FlipBit(cur, k);
      if e[b].order == k { assert Covers(e, b, b); }
    }
    forall j | 0 <= j < TOP
      ensures CoalescedAt(o', j)
    {
      assert CoalescedAt(e, j);
      AddKeepsLevel(e, cur, k, j);
    }
  }

  // ---------------------------------------------------------------- splitting

  /** A split at order `k` has left level `k - 1` holding one pair of buddies, and only that. */
  ghost predicate Split(o: seq<Page>, ms: seq<BuddyMap>, k: nat)
  {
    && 1 <= k < MAPS && Blocks(o) && Lists(o, ms) && InvalidNotFree(o)
    && (forall j :: 0 <= j < TOP && j != k - 1 ==> CoalescedAt(o, j))
    && |ms[k - 1].free| == 2
    && IsRun(o, ms[k - 1].free[1], k)
    && ms[k - 1].free[0] == FlipBit(ms[k - 1].free[1], k - 1)
  }

  /** The lists agree with the orders and every level is coalesced. */
  ghost predicate Settled(o: seq<Page>, ms: seq<BuddyMap>)
  {
    Blocks(o) && Lists(o, ms) && InvalidNotFree(o) && Coalesced(o)
  }

  /** Some list of order at least `k` has a block. */
  predicate HasBlock(ms: seq<BuddyMap>, k: nat)
  {
    exists j :: k <= j < |ms| && ms[j].count != 0
  }

  /** Taking the last block of list `k` off: what is left is coalesced at level `k` in both states
      that a split can start from. */
  lemma TakeLast(o: seq<Page>, ms: seq<BuddyMap>, k: nat)
    requires k < MAPS && (Settled(o, ms) || Split(o, ms, k + 1)) && ms[k].free != []
    ensures Lists(o, ms) && var p := ms[k].free[|ms[k].free| - 1];
            p < |o| && o[p].order == k && IsRun(o, p, k)
    ensures var p := ms[k].free[|ms[k].free| - 1];
            var e := SetOrder(o, p, -1);
            var ms' := ms[k := BuddyMap(ms[k].free[..|ms[k].free| - 1], ms[k].count - 1)];
            && Settled(e, ms')
            && Weight(ms', MAPS) == Weight(ms, MAPS) - Size(k)
            && RunFree(o, p, k)
            && (forall q :: FreePage(e, q) <==> FreePage(o, q) && !InBlock(q, p, k))
  {
    assert ListOk(o, ms[k], k);
    var s := ms[k].free;
    var p := s[|s| - 1];
    assert p in s;
    var e := SetOrder(o, p, -1);
    UnlinkLast(s);
    TakeOff(o, ms, p, k, s[..|s| - 1]);
    RemoveBlock(o, p);
    HeadRunFree(o, p);
    forall j | 0 <= j < TOP
      ensures CoalescedAt(e, j)
    {
      if CoalescedAt(o, j) {
        RemoveKeepsLevel(o, p, j);
      } else {
        LastOfPair(o, ms, k);
      }
    }
  }

  lemma LastOfPair(o: seq<Page>, ms: seq<BuddyMap>, k: nat)
    requires Split(o, ms, k + 1)
    ensures ms[k].free[1] < |o| && CoalescedAt(SetOrder(o, ms[k].free[1], -1), k)
  {
    var p := ms[k].free[1];
    var e := SetOrder(o, p, -1);
    assert ListOk(o, ms[k], k);
    SplitHalves(p, k);
    BuddyHalves(p, k);
    forall q | 0 <= q < |e| && e[q].order == k
      ensures BuddyNotFree(e, q, k)
    {
      assert q in ms[k].free;
      assert q == ms[k].free[0];
    }
  }

  /** The two halves of a taken run can be marked free one after the other. */
  lemma SplitFree(e: seq<Page>, p: nat, j: nat)
    requires j < TOP && Blocks(e) && IsRun(e, p, j + 1) && RunTaken(e, p, j + 1)
    ensures var b := FlipBit(p, j);
            && b != p && b < |e| && e[p].order == -1 && e[b].order == -1 && Aligned(p, j) && Aligned(b, j)
            && Blocks(SetOrder(SetOrder(e, p, j), b, j))
            && (forall q :: FreePage(SetOrder(SetOrder(e, p, j), b, j), q) <==> FreePage(e, q) || InBlock(q, p, j + 1))
  {
    SplitHalves(p, j);
    BuddyHalves(p, j);
    RunFits(e, p, j + 1);
    var b := FlipBit(p, j);
    assert forall q :: InBlock(q, p, j + 1) <==> InBlock(q, p, j) || InBlock(q, b, j);
    if e[p].order >= 0 { assert Covers(e, p, p) && InBlock(p, p, j + 1); }
    if e[b].order >= 0 { assert Covers(e, b, b) && InBlock(b, p, j + 1); }
    AddBlock(e, p, j);
    AddBlock(SetOrder(e, p, j), b, j);
  }

  lemma SplitLists(e: seq<Page>, ms: seq<BuddyMap>, p: nat, b: nat, j: nat)
    requires j < TOP && Lists(e, ms) && ms[j].free == []
    requires p != b && p < |e| && b < |e| && e[p].order == -1 && e[b].order == -1
    ensures var ms' := ms[j := BuddyMap([b, p], ms[j].count + 2)];
            && Lists(SetOrder(SetOrder(e, p, j), b, j), ms')
            && Weight(ms', MAPS) == Weight(ms, MAPS) + Size(j + 1)
  {
    var ms1 := ms[j := BuddyMap([p] + ms[j].free, ms[j].count + 1)];
    PutOn(e, ms, p, j);
    PutOn(SetOrder(e, p, j), ms1, b, j);
    assert [b] + ([p] + ms[j].free) == [b, p];
    assert ms1[j := BuddyMap([b] + ms1[j].free, ms1[j].count + 1)] == ms[j := BuddyMap([b, p], ms[j].count + 2)];
  }

  lemma SplitLevels(e: seq<Page>, p: nat, b: nat, j: nat, i: nat)
    requires p != b && p < |e| && b < |e| && e[p].order == -1 && e[b].order == -1
    requires Aligned(p, j) && Aligned(b, j) && i != j
    requires forall q :: 0 <= q < |e| && e[q].order >= 0 ==> Aligned(q, e[q].order)
    requires CoalescedAt(e, i)
    ensures CoalescedAt(SetOrder(SetOrder(e, p, j), b, j), i)
  {
    AddKeepsLevel(e, p, j, i);
    AddKeepsLevel(SetOrder(e, p, j), b, j, i);
  }

  /** Breaking a block of order `j + 1` into its halves frees and takes nothing. */
  lemma SplitRound(e: seq<Page>, ms: seq<BuddyMap>, p: nat, j: nat)
    requires j < TOP && Settled(e, ms) && IsRun(e, p, j + 1) && RunTaken(e, p, j + 1)
    requires NoInvalid(e, p, j + 1) && ms[j].free == []
    ensures FlipBit(p, j) < |e|
    ensures var b := FlipBit(p, j);
            var o' := SetOrder(SetOrder(e, p, j), b, j);
            var ms' := ms[j := BuddyMap([b, p], ms[j].count + 2)];
            && Split(o', ms', j + 1)
            && Weight(ms', MAPS) == Weight(ms, MAPS) + Size(j + 1)
            && (forall q :: FreePage(o', q) <==> FreePage(e, q) || InBlock(q, p, j + 1))
  {
    var b := FlipBit(p, j);
    SplitFree(e, p, j);
    SplitLists(e, ms, p, b, j);
    forall i | 0 <= i < TOP && i != j
      ensures CoalescedAt(SetOrder(SetOrder(e, p, j), b, j), i)
    {
      assert CoalescedAt(e, i);
      SplitLevels(e, p, b, j, i);
    }
  }

  /** The state after one round of `break_page`: the last block of list `j + 1` has become the pair
      on list `j`. */
  function BrokenPages(o: seq<Page>, p: nat, j: nat): seq<Page>
    requires p < |o| && FlipBit(p, j) < |o|
  {
    SetOrder(SetOrder(o, p, j), FlipBit(p, j), j)
  }

  function BrokenMaps(ms: seq<BuddyMap>, p: nat, j: nat): seq<BuddyMap>
    requires j + 1 < |ms| && ms[j + 1].free != []
  {
    ms[j + 1 := BuddyMap(ms[j + 1].free[..|ms[j + 1].free| - 1], ms[j + 1].count - 1)]
      [j := BuddyMap([FlipBit(p, j), p], ms[j].count + 2)]
  }

  lemma BrokenSame(o: seq<Page>, p: nat, j: nat)
    requires p < |o| && FlipBit(p, j) < |o|
    ensures SameButOrders(o, BrokenPages(o, p, j))
    ensures BrokenPages(SetOrder(o, p, -1), p, j) == BrokenPages(o, p, j)
  {
  }

  lemma BreakRound(o: seq<Page>, ms: seq<BuddyMap>, j: nat)
    requires j < TOP && (Settled(o, ms) || Split(o, ms, j + 2))
    requires ms[j + 1].free != [] && ms[j].free == []
    ensures var p := ms[j + 1].free[|ms[j + 1].free| - 1];
            && p < |o| && FlipBit(p, j) < |o|
            && Split(BrokenPages(o, p, j), BrokenMaps(ms, p, j), j + 1)
            && SameButOrders(o, BrokenPages(o, p, j))
            && Weight(BrokenMaps(ms, p, j), MAPS) == Weight(ms, MAPS)
            && (forall q :: FreePage(BrokenPages(o, p, j), q) <==> FreePage(o, q))
  {
    var k := j + 1;
    TakeLast(o, ms, k);
    var p := ms[k].free[|ms[k].free| - 1];
    var e := SetOrder(o, p, -1);
    var ms' := ms[k := BuddyMap(ms[k].free[..|ms[k].free| - 1], ms[k].count - 1)];
    SplitRound(e, ms', p, j);
    BrokenSame(o, p, j);
    assert BrokenMaps(ms, p, j) == ms'[j := BuddyMap([FlipBit(p, j), p], ms'[j].count + 2)];
  }

  /** A free block of order at least `k` is on a list of order at least `k`. */
  lemma ListedIffBlock(o: seq<Page>, ms: seq<BuddyMap>, k: nat)
    requires Lists(o, ms) && Blocks(o)
    ensures HasBlock(ms, k) <==> exists p :: 0 <= p < |o| && o[p].order >= k
  {
    if HasBlock(ms, k) {
      var j :| k <= j < |ms| && ms[j].count != 0;
      assert ListOk(o, ms[j], j) && ms[j].free[0] in ms[j].free;
    }
    if p :| 0 <= p < |o| && o[p].order >= k {
      assert ListOk(o, ms[o[p].order], o[p].order) && p in ms[o[p].order].free;
    }
  }

  // ---------------------------------------------------------------- live blocks

  /** The blocks that callers hold: aligned, disjoint from each other and from free memory. References are counted
      at their heads and nowhere else. */
  ghost predicate LiveOk(o: seq<Page>, live: map<nat, nat>)
  {
    && (forall h :: h in live ==> IsRun(o, h, live[h]) && RunTaken(o, h, live[h]) && o[h].useCount >= 1)
    && (forall h, q :: h in live && InBlock(q, h, live[h]) && 0 <= q < |o| ==> !o[q].invalid)
    && (forall h, g :: h in live && g in live && h < g ==> h + Size(live[h]) <= g)
    && (forall q :: 0 <= q < |o| && q !in live ==> o[q].useCount == 0)
  }

  /** `struct page_buddy_alloc` */
  class PageBuddyAlloc {
    const pages: array<Page>
    const maps: array<BuddyMap>
    var freePages: int
    const kernStart: nat
    const kernEnd: nat

    /** The blocks handed out and not yet given back, with their orders. */
    ghost var live: map<nat, nat>

    /** The kernel image's own pages are never given out. */
    predicate IsKernel(pn: nat)
    {
      kernStart <= pn * PG_SIZE < kernEnd
    }

    ghost predicate KernelNotFree(o: seq<Page>)
    {
      forall q: nat :: IsKernel(q) ==> !FreePage(o, q)
    }

    ghost predicate KernelNotLive(live: map<nat, nat>)
    {
      forall q: nat, h :: h in live && IsKernel(q) ==> !InBlock(q, h, live[h])
    }

    ghost predicate Valid()
      reads this, pages, maps
    {
      && Core(pages[..], maps[..], freePages)
      && KernelNotFree(pages[..])
      && LiveOk(pages[..], live)
      && KernelNotLive(live)
    }

    /** The state `palloc_init` leaves: every page invalid, every list empty. */
    constructor (count: nat, kernStart: nat, kernEnd: nat)
      requires Aligned(count, TOP)
      ensures Valid() && fresh(pages) && fresh(maps) && pages.Length == count && live == map[]
      ensures forall q :: 0 <= q < count ==> pages[q].invalid && !FreePage(pages[..], q)
      ensures this.kernStart == kernStart && this.kernEnd == kernEnd && freePages == 0
    {
      this.kernStart, this.kernEnd := kernStart, kernEnd;
      pages := new Page[count](_ => Page(-1, true, 0));
      maps := new BuddyMap[MAPS](_ => BuddyMap([], 0));
      freePages := 0;
      live := map[];
      new;
      NothingListed(maps[..], MAPS);
      assert FreeSet(pages[..]) == {};
    }

    /** The test by the address of a page covers every address of the kernel image if and only if the image begins
        on a page, or is empty. */
    lemma KernelCoveredIff()
      ensures (forall a: nat :: kernStart <= a < kernEnd ==> IsKernel(a / PG_SIZE)) <==>
              kernStart >= kernEnd || kernStart % PG_SIZE == 0
    {
      if kernStart % PG_SIZE == 0 {
        forall a: nat | kernStart <= a < kernEnd ensures IsKernel(a / PG_SIZE) { PageStart(a, kernStart); }
      } else if kernStart < kernEnd {
        PageStart(kernStart, 0);
        assert !IsKernel(kernStart / PG_SIZE);
      }
    }

    /** If it does, the page of an address in the image is never free and never handed out. */
    lemma KernelKept(a: nat)
      requires Valid() && kernStart <= a < kernEnd && kernStart % PG_SIZE == 0
      ensures !FreePage(pages[..], a / PG_SIZE)
      ensures forall h :: h in live ==> !InBlock(a / PG_SIZE, h, live[h])
    {
      KernelCoveredIff();
      assert IsKernel(a / PG_SIZE);
    }

    method SetPageOrder(p: nat, k: int)
      requires p < pages.Length
      modifies pages
      ensures pages[..] == SetOrder(old(pages[..]), p, k)
    {
      pages[p] := pages[p].(order := k);
    }

    /** `list_del` on a free list, with its counter */
    method ListDel(k: nat, p: nat)
      requires k < maps.Length
      modifies maps
      ensures maps[..] == old(maps[..])[k := BuddyMap(Without(old(maps[k].free), p), old(maps[k].count) - 1)]
    {
      maps[k] := maps[k].(free := Without(maps[k].free, p));
      maps[k] := maps[k].(count := maps[k].count - 1);
    }

    /** `list_add` on a free list, with its counter */
    method ListAdd(k: nat, p: nat)
      requires k < maps.Length
      modifies maps
      ensures maps[..] == old(maps[..])[k := BuddyMap([p] + old(maps[k].free), old(maps[k].count) + 1)]
    {
      maps[k] := maps[k].(free := [p] + maps[k].free);
      maps[k] := maps[k].(count := maps[k].count + 1);
    }

    /** `__pfree_add_pages` */
    method AddPages(first: nat, original: nat)
      requires Core(pages[..], maps[..], freePages)
      requires IsRun(pages[..], first, original) && RunTaken(pages[..], first, original)
      requires NoInvalid(pages[..], first, original)
      modifies pages, maps, this`freePages
      ensures Core(pages[..], maps[..], freePages)
      ensures SameButOrders(old(pages[..]), pages[..])
      ensures forall q :: FreePage(pages[..], q) <==> old(FreePage(pages[..], q)) || InBlock(q, first, original)
      ensures freePages == old(freePages) + Size(original)
    {
      ghost var o0 := pages[..];
      var cur: nat, order: nat := first, original;
      FreeingStarts(o0, maps[..], freePages, first, original);
      while order < MAPS - 1
        invariant maps.Length == MAPS && order <= TOP && cur < pages.Length && freePages == old(freePages)
        invariant Freeing(o0, first, original, freePages, pages[..], maps[..], cur, order)
      {
        InBounds(pages[..], cur, order);
        var buddy := FlipBit(cur, order);
        if pages[buddy].order != order || pages[buddy].invalid { break; }
        cur := Absorb(o0, first, original, cur, order);
        order := order + 1;
      }
      PlaceBlock(o0, first, original, cur, order);
    }

    /** One turn of the merge loop: the buddy leaves its list and joins the block. */
    method Absorb(ghost o0: seq<Page>, ghost first: nat, ghost original: nat, cur: nat, order: nat) returns (head: nat)
      requires maps.Length == MAPS && order < TOP
      requires Freeing(o0, first, original, freePages, pages[..], maps[..], cur, order)
      requires FlipBit(cur, order) < pages.Length && pages[FlipBit(cur, order)].order == order
      modifies pages, maps
      ensures head < pages.Length && Freeing(o0, first, original, freePages, pages[..], maps[..], head, order + 1)
    {
      FreeingStep(o0, first, original, freePages, pages[..], maps[..], cur, order);
      ListDel(order, FlipBit(cur, order));
      head := ClearBit(cur, order);
      SetPageOrder(FlipBit(head, order), -1);
    }

    /** The end of `__pfree_add_pages`: the grown block goes on its list. */
    method PlaceBlock(ghost o0: seq<Page>, ghost first: nat, original: nat, cur: nat, order: nat)
      requires |FreeSet(o0)| == freePages && Aligned(|o0|, TOP)
      requires IsRun(o0, first, original) && RunTaken(o0, first, original)
      requires maps.Length == MAPS && Freeing(o0, first, original, freePages, pages[..], maps[..], cur, order)
      requires order < TOP ==> FlipBit(cur, order) < pages.Length ==>
                 (pages[FlipBit(cur, order)].order != order || pages[FlipBit(cur, order)].invalid)
      modifies pages, maps, this`freePages
      ensures Core(pages[..], maps[..], freePages)
      ensures SameButOrders(o0, pages[..])
      ensures forall q :: FreePage(pages[..], q) <==> FreePage(o0, q) || InBlock(q, first, original)
      ensures freePages == old(freePages) + Size(original)
    {
      ghost var o, ms := pages[..], maps[..];
      FreeingEnds(o0, first, original, freePages, o, ms, cur, order);
      SetPageOrder(cur, order);
      ListAdd(order, cur);
      freePages := freePages + Size(original);
      assert pages[..] == SetOrder(o, cur, order);
      assert maps[..] == ms[order := BuddyMap([cur] + ms[order].free, ms[order].count + 1)];
    }

    /** The boot loop's body for one usable page: the page becomes valid and is marked free, unless
        it belongs to the kernel image. */
    method MarkPageFree(pn: nat)
      requires Valid() && pn < pages.Length && pages[pn].invalid
      modifies pages, maps, this`freePages
      ensures Valid() && live == old(live)
      ensures forall q :: FreePage(pages[..], q) <==>
                old(FreePage(pages[..], q)) || (q == pn && !(kernStart <= pn * PG_SIZE < kernEnd))
      ensures forall q :: 0 <= q < pages.Length ==> pages[q].invalid == (old(pages[q].invalid) && q != pn)
    {
      ghost var o0 := pages[..];
      pages[pn] := pages[pn].(invalid := false);
      ClearInvalid(o0, maps[..], freePages, live, pn, pages[..]);
      if IsKernel(pn) { return; }
      ghost var o1 := pages[..];
      AddPages(pn, 0);
      forall q ensures FreePage(pages[..], q) <==> FreePage(o0, q) || q == pn {
        assert FreePage(o1, q) <==> FreePage(o0, q);
      }
      LiveAfterFree(o1, pages[..], live, pn, 0);
    }

    /** `atomic_dec_and_test(&p->use_count)` */
    method DropReference(p: nat) returns (last: bool)
      requires Valid() && p in live
      modifies pages
      ensures pages[..] == old(pages[..])[p := old(pages[p]).(useCount := old(pages[p].useCount) - 1)]
      ensures last == (old(pages[p].useCount) == 1)
      ensures Core(pages[..], maps[..], freePages) && LiveOk(pages[..], if last then live - {p} else live)
      ensures forall q :: FreePage(pages[..], q) <==> old(FreePage(pages[..], q))
      ensures Apart(live - {p}, p, live[p])
      ensures IsRun(pages[..], p, live[p]) && RunTaken(pages[..], p, live[p]) && NoInvalid(pages[..], p, live[p])
    {
      ghost var o := pages[..];
      pages[p] := pages[p].(useCount := pages[p].useCount - 1);
      last := pages[p].useCount == 0;
      SameOrders(o, maps[..], freePages, pages[..]);
      LiveAfterDrop(o, live, pages[..], p);
    }

    /** `pfree`: drops one reference to an allocated block; the last one gives the block back. */
    method Pfree(page: Option<nat>, order: nat)
      requires Valid()
      requires page.Some? ==> page.value in live && live[page.value] == order
      modifies pages, maps, this
      ensures Valid()
      ensures page.None? ==> pages[..] == old(pages[..]) && maps[..] == old(maps[..]) && live == old(live)
      ensures page.Some? && old(pages[page.value].useCount) > 1 ==>
                var p := page.value;
                && pages[..] == old(pages[..])[p := old(pages[p]).(useCount := old(pages[p].useCount) - 1)]
                && maps[..] == old(maps[..]) && live == old(live)
      ensures page.Some? && old(pages[page.value].useCount) == 1 ==>
                && live == old(live) - {page.value}
                && (forall q :: FreePage(pages[..], q) <==>
                                old(FreePage(pages[..], q)) || InBlock(q, page.value, order))
                && freePages == old(freePages) + Size(order)
    {
      if page.None? { return; }
      var p := page.value;
      assert InBlock(p, p, order);
      if IsKernel(p) { assert false; return; }
      Put(p, order);
    }

    /** The part of `pfree` past its checks */
    method Put(p: nat, order: nat)
      requires Valid() && p in live && live[p] == order
      modifies pages, maps, this`freePages, this`live
      ensures Valid()
      ensures old(pages[p].useCount) > 1 ==>
                && pages[..] == old(pages[..])[p := old(pages[p]).(useCount := old(pages[p].useCount) - 1)]
                && maps[..] == old(maps[..]) && live == old(live)
      ensures old(pages[p].useCount) == 1 ==>
                && live == old(live) - {p} && freePages == old(freePages) + Size(order)
                && forall q :: FreePage(pages[..], q) <==> old(FreePage(pages[..], q)) || InBlock(q, p, order)
    {
      var last := DropReference(p);
      if last { GiveBack(p, order); }
    }

    /** The block has no reference left, and its pages become free. */
    method GiveBack(p: nat, order: nat)
      requires Core(pages[..], maps[..], freePages) && KernelNotFree(pages[..]) && KernelNotLive(live)
      requires p in live && live[p] == order && LiveOk(pages[..], live - {p}) && Apart(live - {p}, p, order)
      requires IsRun(pages[..], p, order) && RunTaken(pages[..], p, order) && NoInvalid(pages[..], p, order)
      modifies pages, maps, this`freePages, this`live
      ensures Valid() && live == old(live) - {p} && freePages == old(freePages) + Size(order)
      ensures forall q :: FreePage(pages[..], q) <==> old(FreePage(pages[..], q)) || InBlock(q, p, order)
    {
      ghost var o := pages[..];
      live := live - {p};
      AddPages(p, order);
      LiveAfterFree(o, pages[..], live, p, order);
    }

    /** `list_take_last` on a free list, with its counter */
    method ListTakeLast(k: nat) returns (p: nat)
      requires k < maps.Length && maps[k].free != []
      modifies maps
      ensures var s := old(maps[k].free);
              && p == s[|s| - 1]
              && maps[..] == old(maps[..])[k := BuddyMap(s[..|s| - 1], old(maps[k].count) - 1)]
    {
      var s := maps[k].free;
      p := s[|s| - 1];
      maps[k] := BuddyMap(s[..|s| - 1], maps[k].count - 1);
    }

    /** `break_page`: if some list of order `k` or more has a block, list `k - 1` gains one pair of
        buddies and no page changes hands; otherwise nothing changes. */
    method BreakPage(k: nat)
      requires 1 <= k <= MAPS && maps.Length == MAPS
      requires Settled(pages[..], maps[..]) && maps[k - 1].free == []
      modifies pages, maps
      ensures SameButOrders(old(pages[..]), pages[..])
      ensures Weight(maps[..], MAPS) == old(Weight(maps[..], MAPS))
      ensures forall q :: FreePage(pages[..], q) <==> old(FreePage(pages[..], q))
      ensures forall j :: 0 <= j < k - 1 ==> maps[j] == old(maps[j])
      ensures old(HasBlock(maps[..], k)) ==> Split(pages[..], maps[..], k)
      ensures !old(HasBlock(maps[..], k)) ==> pages[..] == old(pages[..]) && maps[..] == old(maps[..])
      decreases MAPS - k
    {
      if k >= MAPS { return; }
      assert ListOk(pages[..], maps[..][k], k);
      if maps[k].count == 0 {
        BreakPage(k + 1);
        assert ListOk(pages[..], maps[..][k], k);
        if maps[k].count == 0 { return; }
      }
      HalveLast(k);
    }

    /** The body of `break_page` once list `k` has a block. */
    method HalveLast(k: nat)
      requires 1 <= k < MAPS && maps.Length == MAPS
      requires Settled(pages[..], maps[..]) || Split(pages[..], maps[..], k + 1)
      requires maps[k].free != [] && maps[k - 1].free == []
      modifies pages, maps
      ensures Split(pages[..], maps[..], k) && SameButOrders(old(pages[..]), pages[..])
      ensures Weight(maps[..], MAPS) == old(Weight(maps[..], MAPS))
      ensures forall q :: FreePage(pages[..], q) <==> old(FreePage(pages[..], q))
      ensures forall j :: 0 <= j < k - 1 ==> maps[j] == old(maps[j])
    {
      ghost var o, ms := pages[..], maps[..];
      BreakRound(o, ms, k - 1);
      BreakInPlace(k);
    }

    /** The assignments of `break_page`. */
    method BreakInPlace(k: nat)
      requires 1 <= k < maps.Length && maps[k].free != [] && maps[k - 1].free == []
      requires var p := maps[k].free[|maps[k].free| - 1]; p < pages.Length && FlipBit(p, k - 1) < pages.Length
      modifies pages, maps
      ensures var p := old(maps[k].free[|maps[k].free| - 1]);
              && pages[..] == BrokenPages(old(pages[..]), p, k - 1)
              && maps[..] == BrokenMaps(old(maps[..]), p, k - 1)
    {
      var p := ListTakeLast(k);
      var buddy := FlipBit(p, k - 1);
      SetPageOrder(p, k - 1);
      SetPageOrder(buddy, k - 1);
      ListAdd(k - 1, p);
      ListAdd(k - 1, buddy);
      assert maps[k - 1].free == [buddy, p];
    }

    /** `__palloc_phys_multiple` with `__PAL_NOWAIT`: succeeds exactly when some naturally aligned run
        of `2^order` pages is free, and then takes one such run and nothing else. */
    method PallocPhysMultiple(order: nat) returns (r: Option<nat>)
      requires Valid() && order < MAPS
      modifies pages, maps, this
      ensures Valid()
      ensures r.None? <==> !exists q: nat :: old(IsRun(pages[..], q, order) && RunFree(pages[..], q, order))
      ensures r.None? ==> pages[..] == old(pages[..]) && maps[..] == old(maps[..])
                          && freePages == old(freePages) && live == old(live)
      ensures r.Some? ==>
                && old(IsRun(pages[..], r.value, order) && RunFree(pages[..], r.value, order))
                && (forall q :: FreePage(pages[..], q) <==>
                                old(FreePage(pages[..], q)) && !InBlock(q, r.value, order))
                && freePages == old(freePages) - Size(order)
                && r.value !in old(live) && live == old(live)[r.value := order]
                && pages[r.value].useCount == 1
    {
      ghost var o0 := pages[..];
      var found := FindBlock(order);
      if !found { return None; }
      var p := TakeFound(o0, order);
      assert KernelNotFree(pages[..]) && KernelNotLive(live);
      r := Some(p);
    }

    /** The second half of `__palloc_phys_multiple`. */
    method TakeFound(ghost o0: seq<Page>, order: nat) returns (p: nat)
      requires order < MAPS == maps.Length && maps[order].free != []
      requires Settled(pages[..], maps[..]) || Split(pages[..], maps[..], order + 1)
      requires SameButOrders(o0, pages[..]) && InvalidNotFree(o0) && LiveOk(o0, live)
      requires freePages == Weight(maps[..], MAPS) == |FreeSet(o0)|
      requires forall q :: FreePage(pages[..], q) <==> FreePage(o0, q)
      modifies pages, maps, this`freePages, this`live
      ensures Core(pages[..], maps[..], freePages) && LiveOk(pages[..], live)
      ensures IsRun(o0, p, order) && RunFree(o0, p, order)
      ensures forall q :: FreePage(pages[..], q) <==> FreePage(o0, q) && !InBlock(q, p, order)
      ensures freePages == old(freePages) - Size(order)
      ensures p !in old(live) && live == old(live)[p := order]
      ensures pages.Length == |o0| && pages[p].useCount == 1
    {
      TakenOff(o0, pages[..], maps[..], freePages, live, order);
      p := TakeBlock(order);
    }

    /** The first half of `__palloc_phys_multiple`: list `order` has a block, by splitting if need be. */
    method FindBlock(order: nat) returns (found: bool)
      requires order < MAPS && Core(pages[..], maps[..], freePages)
      modifies pages, maps
      ensures maps.Length == MAPS
      ensures found <==> exists q: nat :: old(IsRun(pages[..], q, order) && RunFree(pages[..], q, order))
      ensures !found ==> pages[..] == old(pages[..]) && maps[..] == old(maps[..])
      ensures found ==> maps[order].free != []
      ensures found ==> (Settled(pages[..], maps[..]) || Split(pages[..], maps[..], order + 1))
      ensures Weight(maps[..], MAPS) == old(Weight(maps[..], MAPS))
      ensures SameButOrders(old(pages[..]), pages[..])
      ensures forall q :: FreePage(pages[..], q) <==> old(FreePage(pages[..], q))
    {
      ghost var o0 := pages[..];
      ListedIffBlock(o0, maps[..], order);
      BlockIffRun(o0, order);
      assert ListOk(o0, maps[..][order], order);
      if maps[order].count == 0 {
        BreakPage(order + 1);
        assert ListOk(pages[..], maps[..][order], order);
        if maps[order].count == 0 { return false; }
      }
      return true;
    }

    /** The assignments that take the last block of a list. */
    method TakeBlock(order: nat) returns (p: nat)
      requires order < maps.Length && maps[order].free != []
      requires maps[order].free[|maps[order].free| - 1] < pages.Length
      modifies pages, maps, this`freePages, this`live
      ensures var s := old(maps[order].free);
              && p == s[|s| - 1]
              && pages[..] == TakenPages(old(pages[..]), p)
              && maps[..] == old(maps[..])[order := BuddyMap(s[..|s| - 1], old(maps[order].count) - 1)]
              && freePages == old(freePages) - Size(order)
              && live == old(live)[p := order]
    {
      p := ListTakeLast(order);
      SetPageOrder(p, -1);
      freePages := freePages - Size(order);
      pages[p] := pages[p].(useCount := pages[p].useCount + 1);
      live := live[p := order];
    }
  }

  // ---------------------------------------------------------------- taking a block

  function TakenPages(o: seq<Page>, p: nat): seq<Page>
    requires p < |o|
  {
    o[p := o[p].(order := -1, useCount := o[p].useCount + 1)]
  }

  /** No live block overlaps a block of free pages. */
  lemma FreeApart(o: seq<Page>, live: map<nat, nat>, p: nat, k: nat)
    requires LiveOk(o, live) && RunFree(o, p, k)
    ensures p !in live && Apart(live, p, k)
  {
    forall h | h in live
      ensures h != p && (h + Size(live[h]) <= p || p + Size(k) <= h)
    {
      if !(h != p && (h + Size(live[h]) <= p || p + Size(k) <= h)) {
        var x := if h <= p then p else h;
        assert InBlock(x, h, live[h]) && InBlock(x, p, k);
      }
    }
  }

  lemma LiveAfterTake(o: seq<Page>, o': seq<Page>, live: map<nat, nat>, p: nat, k: nat)
    requires LiveOk(o, live) && IsRun(o, p, k) && RunFree(o, p, k) && InvalidNotFree(o)
    requires |o| == |o'|
    requires forall q :: 0 <= q < |o| ==> o'[q].invalid == o[q].invalid
    requires forall q :: 0 <= q < |o| ==> o'[q].useCount == o[q].useCount + if q == p then 1 else 0
    requires forall q :: FreePage(o', q) <==> FreePage(o, q) && !InBlock(q, p, k)
    ensures p !in live && LiveOk(o', live[p := k])
  {
    FreeApart(o, live, p, k);
  }

  /** Taking the last block of list `k`, after any splitting, takes a run of pages that was free
      when the request started. */
  lemma TakenOff(o0: seq<Page>, o: seq<Page>, ms: seq<BuddyMap>, freePages: int, live: map<nat, nat>, k: nat)
    requires k < MAPS && (Settled(o, ms) || Split(o, ms, k + 1)) && ms[k].free != []
    requires SameButOrders(o0, o) && InvalidNotFree(o0) && LiveOk(o0, live)
    requires freePages == Weight(ms, MAPS) == |FreeSet(o0)|
    requires forall q :: FreePage(o, q) <==> FreePage(o0, q)
    ensures var s := ms[k].free;
            var p := s[|s| - 1];
            && IsRun(o0, p, k) && RunFree(o0, p, k)
            && Core(TakenPages(o, p), ms[k := BuddyMap(s[..|s| - 1], ms[k].count - 1)], freePages - Size(k))
            && (forall q :: FreePage(TakenPages(o, p), q) <==> FreePage(o0, q) && !InBlock(q, p, k))
            && p !in live && LiveOk(TakenPages(o, p), live[p := k])
  {
    var s := ms[k].free;
    var p := s[|s| - 1];
    TakenCore(o0, o, ms, freePages, k);
    LiveAfterTake(o0, TakenPages(o, p), live, p, k);
  }

  lemma TakenCore(o0: seq<Page>, o: seq<Page>, ms: seq<BuddyMap>, freePages: int, k: nat)
    requires k < MAPS && (Settled(o, ms) || Split(o, ms, k + 1)) && ms[k].free != []
    requires SameButOrders(o0, o) && InvalidNotFree(o0)
    requires freePages == Weight(ms, MAPS) == |FreeSet(o0)|
    requires forall q :: FreePage(o, q) <==> FreePage(o0, q)
    ensures var s := ms[k].free;
            var p := s[|s| - 1];
            && IsRun(o0, p, k) && RunFree(o0, p, k)
            && Core(TakenPages(o, p), ms[k := BuddyMap(s[..|s| - 1], ms[k].count - 1)], freePages - Size(k))
            && (forall q :: FreePage(TakenPages(o, p), q) <==> FreePage(o0, q) && !InBlock(q, p, k))
  {
    var s := ms[k].free;
    var p := s[|s| - 1];
    TakeLast(o, ms, k);
    var e := SetOrder(o, p, -1);
    var ms' := ms[k := BuddyMap(s[..|s| - 1], ms[k].count - 1)];
    RunFits(o0, p, k);
    FreeSetGrows(e, o0, p, k);
    SameOrders(e, ms', freePages - Size(k), TakenPages(o, p));
  }

  // ---------------------------------------------------------------- changes outside the orders

  /** No live block overlaps the block `(p, k)`. */
  ghost predicate Apart(live: map<nat, nat>, p: nat, k: nat)
  {
    forall h :: h in live ==> h + Size(live[h]) <= p || p + Size(k) <= h
  }

  lemma SameFree(o: seq<Page>, o': seq<Page>, q: int)
    requires |o| == |o'| && forall p :: 0 <= p < |o| ==> o[p].order == o'[p].order
    ensures FreePage(o, q) <==> FreePage(o', q)
  {
    if FreePage(o, q) { var p :| Covers(o, p, q); assert Covers(o', p, q); }
    if FreePage(o', q) { var p :| Covers(o', p, q); assert Covers(o, p, q); }
  }

  lemma SameOrders(o: seq<Page>, ms: seq<BuddyMap>, freePages: int, o': seq<Page>)
    requires Core(o, ms, freePages)
    requires |o| == |o'| && forall p :: 0 <= p < |o| ==> o[p].order == o'[p].order
    requires forall p :: 0 <= p < |o| && o'[p].invalid ==> o[p].invalid
    ensures Core(o', ms, freePages)
    ensures forall q :: FreePage(o, q) <==> FreePage(o', q)
  {
    forall q ensures FreePage(o, q) <==> FreePage(o', q) { SameFree(o, o', q); }
    forall p, q | 0 <= p < |o| && 0 <= q < |o| ensures Disjoint(o', p, q) { assert Disjoint(o, p, q); }
    forall k | 0 <= k < TOP ensures CoalescedAt(o', k) {
      assert CoalescedAt(o, k);
      forall p | 0 <= p < |o'| && o'[p].order == k ensures BuddyNotFree(o', p, k) { assert BuddyNotFree(o, p, k); }
    }
    forall k | 0 <= k < MAPS ensures ListOk(o', ms[k], k) { assert ListOk(o, ms[k], k); }
    assert FreeSet(o) == FreeSet(o');
  }

  lemma LiveAfterDrop(o: seq<Page>, live: map<nat, nat>, o': seq<Page>, p: nat)
    requires LiveOk(o, live) && p in live
    requires o' == o[p := o[p].(useCount := o[p].useCount - 1)]
    requires forall q :: FreePage(o, q) <==> FreePage(o', q)
    ensures LiveOk(o', if o'[p].useCount == 0 then live - {p} else live)
    ensures IsRun(o', p, live[p]) && RunTaken(o', p, live[p]) && NoInvalid(o', p, live[p])
    ensures Apart(live - {p}, p, live[p])
  {
    forall h | h in live ensures RunTaken(o', h, live[h]) { assert RunTaken(o, h, live[h]); }
  }

  lemma ClearInvalid(o: seq<Page>, ms: seq<BuddyMap>, freePages: int, live: map<nat, nat>, p: nat, o': seq<Page>)
    requires Core(o, ms, freePages) && LiveOk(o, live)
    requires p < |o| && o[p].invalid && o' == o[p := o[p].(invalid := false)]
    ensures Core(o', ms, freePages)
    ensures forall q :: FreePage(o, q) <==> FreePage(o', q)
    ensures LiveOk(o', live) && RunTaken(o', p, 0)
    ensures Apart(live, p, 0)
  {
    SameOrders(o, ms, freePages, o');
    InvalidApart(o, live, p);
  }

  /** An invalid page is in no live block. */
  lemma InvalidApart(o: seq<Page>, live: map<nat, nat>, p: nat)
    requires LiveOk(o, live) && p < |o| && o[p].invalid
    ensures Apart(live, p, 0)
  {
    forall h | h in live ensures h + Size(live[h]) <= p || p < h {
      assert !InBlock(p, h, live[h]);
    }
  }

  /** Freeing a block that no live block overlaps leaves the live blocks intact. */
  lemma LiveAfterFree(o: seq<Page>, o': seq<Page>, live: map<nat, nat>, p: nat, k: nat)
    requires LiveOk(o, live) && SameButOrders(o, o')
    requires Apart(live, p, k)
    requires forall q :: FreePage(o', q) <==> FreePage(o, q) || InBlock(q, p, k)
    ensures LiveOk(o', live)
  {
    forall h | h in live
      ensures RunTaken(o', h, live[h])
    {
      forall q | InBlock(q, h, live[h]) ensures !FreePage(o', q) { assert !InBlock(q, p, k); }
    }
  }

  // ---------------------------------------------------------------- the merge loop

  /** Page `q` is free, or is in the block being freed. */
  ghost predicate FreeOr(o: seq<Page>, q: int, p: nat, k: nat)
  {
    FreePage(o, q) || InBlock(q, p, k)
  }

  ghost predicate NoInvalid(o: seq<Page>, p: nat, k: nat)
  {
    forall q :: InBlock(q, p, k) && 0 <= q < |o| ==> !o[q].invalid
  }

  /** The merge loop's invariant: whatever has been absorbed so far, the free pages and the block
      in hand together are the old free pages and the block being freed. */
  ghost predicate Freeing(o0: seq<Page>, first: nat, original: nat, freePages: int,
                          o: seq<Page>, ms: seq<BuddyMap>, cur: nat, k: nat)
  {
    && Merging(o, ms, cur, k)
    && SameButOrders(o0, o)
    && Weight(ms, MAPS) + Size(k) == freePages + Size(original)
    && (forall q :: FreeOr(SetOrder(o, cur, -1), q, cur, k) <==> FreeOr(o0, q, first, original))
    && NoInvalid(o, cur, k)
  }

  lemma FreeingStarts(o: seq<Page>, ms: seq<BuddyMap>, freePages: int, p: nat, k: nat)
    requires Core(o, ms, freePages) && IsRun(o, p, k) && RunTaken(o, p, k) && NoInvalid(o, p, k)
    ensures Freeing(o, p, k, freePages, o, ms, p, k)
  {
    if o[p].order >= 0 { assert Covers(o, p, p) && InBlock(p, p, k); }
    assert SetOrder(o, p, -1) == o;
  }

  lemma FreeingStep(o0: seq<Page>, first: nat, original: nat, freePages: int,
                    o: seq<Page>, ms: seq<BuddyMap>, cur: nat, k: nat)
    requires Freeing(o0, first, original, freePages, o, ms, cur, k) && k < TOP
    requires FlipBit(cur, k) < |o| && o[FlipBit(cur, k)].order == k
    ensures ClearBit(cur, k) < |o| && FlipBit(ClearBit(cur, k), k) < |o|
    ensures Freeing(o0, first, original, freePages, SetOrder(o, FlipBit(ClearBit(cur, k), k), -1),
                    ms[k := BuddyMap(Without(ms[k].free, FlipBit(cur, k)), ms[k].count - 1)], ClearBit(cur, k), k + 1)
  {
    MergeRound(o, ms, cur, k);
    AbsorbValid(o, ms, cur, k);
    var h := ClearBit(cur, k);
    var o' := SetOrder(o, FlipBit(h, k), -1);
    forall q
      ensures FreeOr(SetOrder(o', h, -1), q, h, k + 1) <==> FreeOr(o0, q, first, original)
    {
      assert FreeOr(SetOrder(o, cur, -1), q, cur, k) <==> FreeOr(o0, q, first, original);
    }
  }

  lemma FreeingEnds(o0: seq<Page>, first: nat, original: nat, freePages: int,
                    o: seq<Page>, ms: seq<BuddyMap>, cur: nat, k: nat)
    requires |FreeSet(o0)| == freePages
    requires IsRun(o0, first, original) && RunTaken(o0, first, original) && Aligned(|o0|, TOP)
    requires Freeing(o0, first, original, freePages, o, ms, cur, k)
    requires k < TOP ==> FlipBit(cur, k) < |o| ==>
                         (o[FlipBit(cur, k)].order != k || o[FlipBit(cur, k)].invalid)
    ensures var o' := SetOrder(o, cur, k);
            && Core(o', ms[k := BuddyMap([cur] + ms[k].free, ms[k].count + 1)], freePages + Size(original))
            && SameButOrders(o0, o')
            && (forall q :: FreePage(o', q) <==> FreePage(o0, q) || InBlock(q, first, original))
  {
    if k < TOP { InBounds(o, cur, k); }
    MergeEnd(o, ms, cur, k);
    var o' := SetOrder(o, cur, k);
    forall q
      ensures FreePage(o', q) <==> FreePage(o0, q) || InBlock(q, first, original)
    {
      assert FreeOr(SetOrder(o, cur, -1), q, cur, k) <==> FreeOr(o0, q, first, original);
    }
    RunFits(o0, first, original);
    FreeSetGrows(o0, o', first, original);
  }

  lemma InBounds(o: seq<Page>, cur: nat, k: nat)
    requires Aligned(|o|, TOP) && IsRun(o, cur, k) && k < TOP
    ensures FlipBit(cur, k) < |o| && ClearBit(cur, k) < |o|
  {
    BuddyHalves(cur, k);
    RunFits(o, ClearBit(cur, k), k + 1);
  }

  /** A buddy that can be absorbed holds no invalid page. */
  lemma AbsorbValid(o: seq<Page>, ms: seq<BuddyMap>, cur: nat, k: nat)
    requires Merging(o, ms, cur, k) && k < TOP
    requires FlipBit(cur, k) < |o| && o[FlipBit(cur, k)].order == k
    requires forall q :: InBlock(q, cur, k) && 0 <= q < |o| ==> !o[q].invalid
    ensures forall q :: InBlock(q, ClearBit(cur, k), k + 1) && 0 <= q < |o| ==> !o[q].invalid
  {
    var b := FlipBit(cur, k);
    BuddyHalves(cur, k);
    var e := SetOrder(o, cur, -1);
    HeadRunFree(e, b);
    assert forall q :: InBlock(q, ClearBit(cur, k), k + 1) <==> InBlock(q, cur, k) || InBlock(q, b, k);
    forall q | InBlock(q, b, k) && 0 <= q < |o|
      ensures !o[q].invalid
    {
      assert FreePage(e, q);
    }
  }
}
