/** The kernel virtual-area allocator of src/mm/vm_area.c: areas that tile the mapping window, a
    page-to-area reverse map, and a list of the free areas sorted by size. Splitting and combining
    reuse whichever area object needs fewer reverse-map entries rewritten, so the object that
    describes a stretch of pages may change. Addresses are page numbers inside the window. */
module VmArea {
  import opened Common

  /** `struct vm_area` */
  class Area {
    var start: nat
    var count: nat
    var free: bool

    constructor (start: nat, count: nat, free: bool)
      ensures this.start == start && this.count == count && this.free == free
    {
      this.start, this.count, this.free := start, count, free;
    }
  }

  class VmAreaAllocator {
    /** `vm_area_mappings` */
    const mappings: array<Area>
    /** `vm_area_list`, front first */
    var list: seq<Area>
    /** the areas that exist: allocated and not yet freed with `kfree` */
    ghost var areas: set<Area>

    /** The areas tile the window, and the reverse map says which area covers each page. */
    ghost predicate Tiling()
      reads this, mappings, areas
    {
      && (forall p :: 0 <= p < mappings.Length ==>
            mappings[p] in areas && mappings[p].start <= p < mappings[p].start + mappings[p].count)
      && (forall a :: a in areas ==> 0 < a.count && a.start + a.count <= mappings.Length)
      && (forall a, p :: a in areas && a.start <= p < a.start + a.count ==> mappings[p] == a)
    }

    ghost predicate Sorted(s: seq<Area>)
      reads s
    {
      forall i, j :: 0 <= i < j < |s| ==> s[i].count <= s[j].count
    }

    /** The list holds exactly the free areas, apart from those in `hand`, each once and by size. */
    ghost predicate ListOk(hand: set<Area>)
      reads this, areas, list
    {
      && Distinct(list) && Sorted(list)
      && (forall a :: a in list ==> a in areas && a.free && a !in hand)
      && (forall a :: a in areas && a.free && a !in hand ==> a in list)
    }

    /** No two neighbours are both free, leaving out pairs that involve an area in `hand`. */
    ghost predicate Apart(hand: set<Area>)
      reads this, areas
    {
      forall a, b :: a in areas && b in areas && a !in hand && b !in hand && a.start + a.count == b.start ==>
                     !(a.free && b.free)
    }

    ghost predicate Valid()
      reads this, mappings, areas, list
    {
      Tiling() && ListOk({}) && Apart({})
    }

    ghost predicate FreeAt(p: int)
      requires 0 <= p < mappings.Length
      reads mappings, mappings[p]
    {
      mappings[p].free
    }

    /** `[s, s + k)` is a run of free pages. */
    ghost predicate FreeRun(s: int, k: nat)
      reads mappings, mappings[..]
    {
      0 <= s && s + k <= mappings.Length && forall p :: s <= p < s + k ==> FreeAt(p)
    }

    /** `vm_area_allocator_init` */
    constructor (pages: nat)
      requires pages > 0
      ensures Valid() && fresh(mappings) && fresh(areas) && mappings.Length == pages
      ensures FreeRun(0, pages)
    {
      var area := new Area(0, pages, true);
      mappings := new Area[pages](_ => area);
      list := [area];
      areas := {area};
    }

    lemma NeighbourBefore(a: Area)
      requires Tiling() && a in areas
      ensures a.start > 0 ==> var b := mappings[a.start - 1]; b != a && b in areas && b.start + b.count == a.start
      ensures forall b :: b in areas && b.start + b.count == a.start ==> a.start > 0 && mappings[a.start - 1] == b
    {
      assert mappings[a.start] == a;
    }

    lemma NeighbourAfter(a: Area)
      requires Tiling() && a in areas
      ensures a.start + a.count < mappings.Length ==>
                var b := mappings[a.start + a.count]; b != a && b in areas && b.start == a.start + a.count
      ensures forall b :: b in areas && a.start + a.count == b.start ==>
                b.start < mappings.Length && mappings[b.start] == b
    {
      assert mappings[a.start + a.count - 1] == a;
    }

    /** A run of free pages lies inside one area: this is what combining on every free buys. */
    lemma {:induction false} RunInOneArea(s: nat, k: nat)
      requires Valid() && k > 0 && FreeRun(s, k)
      ensures mappings[s].start + mappings[s].count >= s + k
      decreases k
    {
      if k > 1 {
        RunInOneArea(s, k - 1);
        assert FreeAt(s) && FreeAt(s + k - 1);
        NeighbourAfter(mappings[s]);
        if mappings[s].start + mappings[s].count == s + k - 1 { assert false; }
      }
    }

    /** Completeness: some area on the list has `k` pages exactly when `k` contiguous pages are free. */
    lemma FitsIffRun(k: nat)
      requires Valid() && k > 0
      ensures (exists a :: a in list && a.count >= k) <==> exists s :: FreeRun(s, k)
    {
      if a :| a in list && a.count >= k {
        assert FreeRun(a.start, k);
      }
      if s :| FreeRun(s, k) {
        assert FreeAt(s);
        RunInOneArea(s, k);
        assert mappings[s] in list;
      }
    }

    /** The loops that point a stretch of the reverse map at one area. */
    method SetMappings(start: nat, count: nat, area: Area)
      requires start + count <= mappings.Length
      modifies mappings
      ensures forall p :: 0 <= p < mappings.Length ==>
                mappings[p] == if start <= p < start + count then area else old(mappings[p])
    {
      for i := 0 to count
        invariant forall p :: 0 <= p < mappings.Length ==>
                    mappings[p] == if start <= p < start + i then area else old(mappings[p])
      {
        mappings[i + start] := area;
      }
    }

    /** `__vm_area_add`: after every area that is no larger. */
    method Add(area: Area)
      requires Sorted(list) && Distinct(list) && area !in list
      modifies this`list
      ensures Sorted(list) && Distinct(list)
      ensures exists k :: 0 <= k <= |old(list)| && list == old(list)[..k] + [area] + old(list)[k..]
      ensures forall a :: a in list <==> a in old(list) || a == area
    {
      var i := 0;
      while i < |list|
        invariant i <= |list|
        invariant forall j :: 0 <= j < i ==> list[j].count <= area.count
      {
        if list[i].count > area.count {
          ghost var l := list;
          list := list[..i] + [area] + list[i..];
          InsertMembers(l, i, area);
          return;
        }
        i := i + 1;
      }
      ghost var l := list;
      list := list + [area];
      assert list == l[..|l|] + [area] + l[|l|..];
      InsertMembers(l, |l|, area);
    }

    static lemma InsertMembers(l: seq<Area>, i: nat, area: Area)
      requires i <= |l|
      ensures forall a :: a in l[..i] + [area] + l[i..] <==> a in l || a == area
    {
      assert l == l[..i] + l[i..];
    }

    /** `list_del` */
    method Unlink(area: Area)
      requires Distinct(list) && Sorted(list)
      modifies this`list
      ensures Distinct(list) && Sorted(list)
      ensures forall a :: a in list <==> a in old(list) && a != area
    {
      var i := 0;
      while i < |list|
        invariant i <= |list| && list == old(list)
        invariant forall j :: 0 <= j < i ==> list[j] != area
      {
        if list[i] == area {
          var l := list;
          list := list[..i] + list[i + 1..];
          forall a
            ensures a in list <==> a in l && a != area
          {
            assert l == l[..i] + [area] + l[i + 1..];
          }
          return;
        }
        i := i + 1;
      }
    }

    /** Everything but the areas in `touched` is as it was. */
    twostate predicate Untouched(touched: set<Area>)
      reads this, areas
    {
      forall a :: a in old(areas) && a !in touched ==>
                  a in areas && a.start == old(a.start) && a.count == old(a.count) && a.free == old(a.free)
    }

    /** The choice in `__vm_area_split`: the new object takes the larger side. */
    static method SplitObject(area: Area, pages: nat) returns (r: Area, rest: Area, alloced: Area)
      requires 0 < pages < area.count
      modifies area
      ensures fresh(alloced) && ((r == area && rest == alloced) || (r == alloced && rest == area))
      ensures r.start == old(area.start) && r.count == pages
      ensures rest.start == old(area.start) + pages && rest.count == old(area.count) - pages && rest.free
      ensures alloced.count >= area.count
    {
      if area.count / 2 >= pages {
        alloced := new Area(area.start + pages, area.count - pages, true);
        area.count := pages;
        r, rest := area, alloced;
        rest.free := true;
      } else {
        alloced := new Area(area.start, pages, false);
        area.start := area.start + pages;
        area.count := area.count - pages;
        area.free := true;
        r, rest := alloced, area;
      }
    }

    /** The first half of `__vm_area_split`: the area becomes two, neither of them on the list. */
    method Carve(area: Area, pages: nat) returns (r: Area, rest: Area)
      requires Tiling() && ListOk({area}) && Apart({})
      requires area in areas && area.free && 0 < pages < area.count
      modifies this`areas, mappings, area
      ensures Tiling() && ListOk({r, rest})
      ensures r != rest && r in areas && rest in areas && area in {r, rest} && fresh({r, rest} - {area})
      ensures areas == old(areas) + {r, rest}
      ensures r.start == old(area.start) && r.count == pages
      ensures rest.start == old(area.start) + pages && rest.count == old(area.count) - pages && rest.free
      ensures Untouched({area})
    {
      var alloced: Area;
      r, rest, alloced := SplitObject(area, pages);
      areas := areas + {alloced};
      SetMappings(alloced.start, alloced.count, alloced);
      TilingAfterSplit(area, r, rest, alloced);
    }

    twostate lemma TilingAfterSplit(area: Area, new r: Area, new rest: Area, new alloced: Area)
      requires old(Tiling() && area in areas) && alloced !in old(areas) && areas == old(areas) + {alloced}
      requires (r == area && rest == alloced) || (r == alloced && rest == area)
      requires r.start == old(area.start) && r.start + r.count == rest.start && 0 < r.count && 0 < rest.count
      requires rest.start + rest.count == old(area.start + area.count) && Untouched({area})
      requires forall p :: 0 <= p < mappings.Length ==>
                 mappings[p] == if alloced.start <= p < alloced.start + alloced.count then alloced else old(mappings[p])
      ensures Tiling()
    {
      forall p | 0 <= p < mappings.Length
        ensures mappings[p] in areas && mappings[p].start <= p < mappings[p].start + mappings[p].count
      {
        assert old(mappings[p] in areas);
      }
      forall a, p | a in areas && a.start <= p < a.start + a.count
        ensures mappings[p] == a
      {
        if a == r || a == rest {
          assert old(area.start <= p < area.start + area.count && mappings[p] == area);
        } else {
          assert a in old(areas) && old(a.start <= p < a.start + a.count && mappings[p] == a);
          assert !old(area.start <= p < area.start + area.count);
        }
      }
    }

    /** `__vm_area_split`: a free area that is on no list becomes two; the front one, with `pages`
        pages, is returned and the rest goes on the list. */
    method Split(area: Area, pages: nat) returns (r: Area)
      requires Tiling() && ListOk({area}) && Apart({})
      requires area in areas && area.free && 0 < pages < area.count
      modifies this, mappings, area
      ensures Tiling() && ListOk({r}) && Apart({r})
      ensures r in areas && (r == area || fresh(r)) && r.start == old(area.start) && r.count == pages
      ensures fresh(areas - old(areas)) && Untouched({area})
      ensures forall a :: a in areas && a !in old(areas) - {area} && a != r ==> a.free
    {
      var rest: Area;
      r, rest := CarveApart(area, pages);
      PutOnList(r, rest);
    }

    method PutOnList(r: Area, rest: Area)
      requires Tiling() && ListOk({r, rest}) && Apart({r}) && rest in areas && rest.free && r != rest
      modifies this`list
      ensures Tiling() && ListOk({r}) && Apart({r})
    {
      Add(rest);
    }

    method CarveApart(area: Area, pages: nat) returns (r: Area, rest: Area)
      requires Tiling() && ListOk({area}) && Apart({})
      requires area in areas && area.free && 0 < pages < area.count
      modifies this`areas, mappings, area
      ensures Tiling() && ListOk({r, rest}) && Apart({r})
      ensures r != rest && rest.free && area in {r, rest} && fresh({r, rest} - {area})
      ensures areas == old(areas) + {r, rest} && Untouched({area})
      ensures r.start == old(area.start) && r.count == pages
    {
      r, rest := Carve(area, pages);
      NeighboursAfterSplit(area, r, rest);
    }

    twostate lemma NeighboursAfterSplit(area: Area, new r: Area, new rest: Area)
      requires old(Tiling() && Apart({}) && area in areas && area.free)
      requires Tiling() && areas == old(areas) + {r, rest} && Untouched({area}) && area in {r, rest}
      requires r.start == old(area.start) && r.start + r.count == rest.start
      requires rest.start + rest.count == old(area.start + area.count) && rest.free
      ensures Apart({r})
    {
      NeighbourBefore(rest);
      assert mappings[rest.start - 1] == r;
      forall a, b | a in areas && b in areas && a != r && b != r && a.start + a.count == b.start
        ensures !(a.free && b.free)
      {
        if a == rest {
          assert old(area.start + area.count == b.start);
        } else {
          assert a in old(areas) && b in old(areas);
        }
      }
    }

    /** Two neighbouring free areas become one, described by the object that is kept. */
    method Absorb(kept: Area, gone: Area)
      requires Tiling() && kept in areas && gone in areas && kept.free && gone.free
      requires kept.start + kept.count == gone.start || gone.start + gone.count == kept.start
      modifies this`areas, mappings, kept
      ensures Tiling() && areas == old(areas) - {gone}
      ensures kept.start == (if gone.start < old(kept.start) then gone.start else old(kept.start))
      ensures kept.count == old(kept.count) + gone.count && kept.free
      ensures forall p :: 0 <= p < mappings.Length ==>
                mappings[p] == old(mappings[p]) || (mappings[p] == kept && old(mappings[p]) == gone)
    {
      kept.start, kept.count := if gone.start < kept.start then gone.start else kept.start, kept.count + gone.count;
      SetMappings(gone.start, gone.count, kept);
      areas := areas - {gone};
      assert Tiling() by {
        forall p | 0 <= p < mappings.Length
          ensures mappings[p] in areas && mappings[p].start <= p < mappings[p].start + mappings[p].count
        {
          assert old(mappings[p] in areas);
        }
        forall a, p | a in areas && a.start <= p < a.start + a.count
          ensures mappings[p] == a
        {
          if a == kept {
            assert old(mappings[p] == kept || mappings[p] == gone);
          } else {
            assert old(a.start <= p < a.start + a.count && mappings[p] == a);
            assert !old(gone.start <= p < gone.start + gone.count);
          }
        }
      }
    }

    /** One merge of `__vm_area_combine`: the free neighbour comes off the list and becomes part of the
        area in hand; one of the two objects is kept. */
    method Merge(kept: Area, gone: Area, ghost hand: Area, other: Area)
      requires Tiling() && ListOk({hand}) && Apart({hand}) && kept in areas && gone in areas
      requires kept.free && gone.free
      requires kept.start + kept.count == gone.start || gone.start + gone.count == kept.start
      requires {hand, other} == {kept, gone} && hand != other
      modifies this, mappings, kept
      ensures Tiling() && ListOk({kept}) && Apart({kept}) && areas == old(areas) - {gone}
      ensures kept.start == (if gone.start < old(kept.start) then gone.start else old(kept.start))
      ensures kept.count == old(kept.count) + gone.count && kept.free
      ensures forall p :: 0 <= p < mappings.Length ==> FreeAt(p) == old(FreeAt(p))
    {
      Unlink(other);
      assert ListOk({kept, gone}) && Apart({kept, gone});
      AbsorbOff(kept, gone);
    }

    /** Absorbing an area when neither it nor the one kept is on the list. */
    method AbsorbOff(kept: Area, gone: Area)
      requires Tiling() && ListOk({kept, gone}) && Apart({kept, gone}) && kept in areas && gone in areas
      requires kept != gone && kept.free && gone.free
      requires kept.start + kept.count == gone.start || gone.start + gone.count == kept.start
      modifies this`areas, mappings, kept
      ensures Tiling() && ListOk({kept}) && Apart({kept}) && areas == old(areas) - {gone}
      ensures kept.start == (if gone.start < old(kept.start) then gone.start else old(kept.start))
      ensures kept.count == old(kept.count) + gone.count && kept.free
      ensures forall p :: 0 <= p < mappings.Length ==> FreeAt(p) == old(FreeAt(p))
    {
      Absorb(kept, gone);
    }

    /** From the old state to this one, `hand` has grown into `area` by absorbing free areas, and
        nothing else has changed. */
    twostate predicate Grown(hand: Area, area: Area)
      reads this, areas, mappings, mappings[..]
    {
      && areas <= old(areas) && area in areas && old(area.free) && area.free
      && (forall a :: a in areas && a != area ==>
                      a != hand && a.start == old(a.start) && a.count == old(a.count) && a.free == old(a.free))
      && (forall a :: a in old(areas) && a !in areas ==> old(a.free))
      && area.start <= old(hand.start) && old(hand.start + hand.count) <= area.start + area.count
      && (forall p :: 0 <= p < mappings.Length ==> FreeAt(p) == old(FreeAt(p)))
    }

    ghost predicate InHand(area: Area)
      reads this, mappings, areas, list
    {
      Tiling() && ListOk({area}) && Apart({area}) && area in areas && area.free
    }

    /** The first `if` of the combine loop. */
    method MergeBefore(hand: Area, before: Area) returns (area: Area)
      requires InHand(hand) && before in areas && before.free && before.start + before.count == hand.start
      modifies this, mappings, hand, before
      ensures area in {hand, before} && InHand(area) && Grown(hand, area) && areas < old(areas)
      ensures area.start == old(before.start) && area.count == old(before.count + hand.count)
      ensures Untouched({hand, before})
    {
      if before.count < hand.count {
        area := hand;
        Merge(hand, before, hand, before);
      } else {
        area := before;
        Merge(before, hand, hand, before);
      }
    }

    /** The second `if` of the combine loop. */
    method MergeAfter(hand: Area, after: Area) returns (area: Area)
      requires InHand(hand) && after in areas && after.free && hand.start + hand.count == after.start
      modifies this, mappings, hand, after
      ensures area in {hand, after} && InHand(area) && Grown(hand, area) && areas < old(areas)
    {
      if hand.count < after.count {
        area := hand;
        Merge(hand, after, hand, after);
      } else {
        area := after;
        Merge(after, hand, hand, after);
      }
    }

    lemma NothingToMerge(a: Area)
      requires InHand(a)
      requires a.start > 0 ==> !mappings[a.start - 1].free
      requires a.start + a.count < mappings.Length ==> !mappings[a.start + a.count].free
      ensures Apart({})
    {
      NeighbourBefore(a);
      NeighbourAfter(a);
    }

    /** The areas on either side, or the area itself where there is none. */
    method Neighbours(area: Area) returns (before: Area, after: Area)
      requires InHand(area)
      ensures area.start > 0 ==> before in areas && before != area && before.start + before.count == area.start
      ensures area.start + area.count < mappings.Length ==>
                after in areas && after != area && after != before && after.start == area.start + area.count
      ensures !(area.start > 0 && before.free) && !(area.start + area.count < mappings.Length && after.free) ==>
                Apart({})
    {
      before := if area.start > 0 then mappings[area.start - 1] else area;
      after := if area.start + area.count < mappings.Length then mappings[area.start + area.count] else area;
      NeighbourBefore(area);
      NeighbourAfter(area);
      if !(area.start > 0 && before.free) && !(area.start + area.count < mappings.Length && after.free) {
        NothingToMerge(area);
      }
    }

    /** One pass of the combine loop. The second test uses the `index` read before the first merge; it
        can then pass over a neighbour, but never takes a wrong one, and the loop comes round again. */
    method CombineOnce(hand: Area) returns (area: Area, again: bool)
      requires InHand(hand)
      modifies this, mappings, areas
      ensures area in old(areas) && InHand(area) && Grown(hand, area)
      ensures again ==> areas < old(areas)
      ensures !again ==> areas == old(areas) && Apart({})
    {
      area := hand;
      var index := area.start;
      var before, after := Neighbours(area);
      again := false;
      if index > 0 && before.free {
        area := MergeBefore(area, before);
        again := true;
      }
      if index + area.count < mappings.Length && after.free {
        area := MergeAfter(area, after);
        again := true;
      }
    }

    /** `__vm_area_combine`: absorbs free neighbours until there are none. Each repeat of the loop has
        merged at least one area away. */
    method Combine(hand: Area) returns (area: Area)
      requires InHand(hand)
      modifies this, mappings, areas
      ensures area in old(areas) && InHand(area) && Apart({}) && Grown(hand, area)
    {
      area := hand;
      var again := true;
      while again
        invariant area in old(areas) && InHand(area) && Grown(hand, area)
        invariant !again ==> Apart({})
        decreases |areas|, again
      {
        ghost var was := areas;
        area, again := CombineOnce(area);
        if again { SmallerSet(areas, was); }
      }
    }

    static lemma SmallerSet(s: set<Area>, t: set<Area>)
      requires s < t
      ensures |s| < |t|
    {
      assert t == s + (t - s) && t - s != {};
    }

    /** `vm_area_alloc`: takes the smallest free area that is large enough, and fails exactly when no
        `pages` contiguous pages are free. */
    method Alloc(pages: nat) returns (r: Option<Area>)
      requires Valid() && pages > 0
      modifies this, mappings, areas
      ensures Valid()
      ensures r.None? <==> !exists s :: old(FreeRun(s, pages))
      ensures r.None? ==> list == old(list) && areas == old(areas) && Untouched({})
      ensures r.Some? ==>
                var s := r.value.start;
                && r.value in areas && !r.value.free && r.value.count == pages
                && old(FreeRun(s, pages))
                && old(BestFit(mappings[s], pages)) && old(mappings[s].start) == s
                && (forall p :: 0 <= p < mappings.Length ==>
                      FreeAt(p) == (old(FreeAt(p)) && !(s <= p < s + pages)))
                && (r.value in old(areas) ==> old(r.value.free))
      ensures KeepsAllocated({}) && fresh(areas - old(areas))
    {
      FitsIffRun(pages);
      var i := 0;
      while i < |list| && list[i].count < pages
        invariant i <= |list|
        invariant forall j :: 0 <= j < i ==> list[j].count < pages
      {
        i := i + 1;
      }
      if i == |list| { return None; }
      var area := list[i];
      assert BestFit(area, pages);
      assert mappings[area.start] == area;
      var a := Take(area, pages);
      r := Some(a);
    }

    /** `a` is a smallest free area with at least `pages` pages. */
    ghost predicate BestFit(a: Area, pages: nat)
      reads this, areas, a
    {
      a in areas && a.free && a.count >= pages &&
      forall b :: b in areas && b.free && b.count >= pages ==> a.count <= b.count
    }

    /** Areas that clients hold keep their place, apart from those in `but`. */
    twostate predicate KeepsAllocated(but: set<Area>)
      reads this, areas
    {
      forall a :: a in old(areas) && !old(a.free) && a !in but ==>
                  a in areas && !a.free && a.start == old(a.start) && a.count == old(a.count)
    }

    /** The rest of `vm_area_alloc`, once an area is chosen. */
    method Take(area: Area, pages: nat) returns (a: Area)
      requires Valid() && area in list && 0 < pages <= area.count
      modifies this, mappings, areas
      ensures Valid() && a in areas && !a.free && a.count == pages && a.start == old(area.start)
      ensures forall p :: 0 <= p < mappings.Length ==>
                FreeAt(p) == (old(FreeAt(p)) && !(a.start <= p < a.start + pages))
      ensures KeepsAllocated({}) && fresh(areas - old(areas)) && (a in old(areas) ==> old(a.free))
    {
      Unlink(area);
      assert ListOk({area});
      if area.count > pages {
        a := TakeFront(area, pages);
      } else {
        a := TakeWhole(area);
      }
    }

    method TakeWhole(area: Area) returns (a: Area)
      requires Tiling() && ListOk({area}) && Apart({}) && area in areas && area.free
      modifies area`free
      ensures Valid() && a == area && !a.free
      ensures forall p :: 0 <= p < mappings.Length ==>
                FreeAt(p) == (old(FreeAt(p)) && !(a.start <= p < a.start + a.count))
    {
      a := area;
      MarkUsed(a);
    }

    /** `flag_clear(&area->flags, VM_AREA_FREE)` on an area that is on no list */
    method MarkUsed(a: Area)
      requires Tiling() && ListOk({a}) && Apart({a}) && a in areas
      modifies a`free
      ensures Valid() && !a.free
    {
      a.free := false;
    }

    method TakeFront(area: Area, pages: nat) returns (a: Area)
      requires Tiling() && ListOk({area}) && Apart({})
      requires area in areas && area.free && 0 < pages < area.count
      modifies this, mappings, area
      ensures Valid() && a in areas && !a.free && a.count == pages && a.start == old(area.start)
      ensures forall p :: 0 <= p < mappings.Length ==>
                FreeAt(p) == (old(FreeAt(p)) && !(a.start <= p < a.start + pages))
      ensures Untouched({area}) && fresh(areas - old(areas)) && (a == area || fresh(a))
    {
      a := Split(area, pages);
      MarkUsed(a);
      forall p | 0 <= p < mappings.Length
        ensures FreeAt(p) == (old(FreeAt(p)) && !(a.start <= p < a.start + pages))
      {
        assert old(mappings[p] in areas) && mappings[p] in areas;
      }
    }

    /** `vm_area_free`: exactly the area's pages become free, and every other allocated area stays put. */
    method Free(area: Area)
      requires Valid() && area in areas && !area.free
      modifies this, mappings, areas
      ensures Valid()
      ensures forall p :: 0 <= p < mappings.Length ==>
                FreeAt(p) == (old(FreeAt(p)) || old(area.start <= p < area.start + area.count))
      ensures KeepsAllocated({area}) && areas <= old(areas)
    {
      MarkFree(area);
      Settle(area);
    }

    method MarkFree(area: Area)
      requires Valid() && area in areas && !area.free
      modifies area`free
      ensures InHand(area)
    {
      area.free := true;
    }

    /** Combine and put back on the list. */
    method Settle(area: Area)
      requires InHand(area)
      modifies this, mappings, areas
      ensures Valid() && KeepsAllocated({}) && areas <= old(areas)
      ensures forall p :: 0 <= p < mappings.Length ==> FreeAt(p) == old(FreeAt(p))
    {
      var combined := Combine(area);
      Add(combined);
      assert Tiling() && Apart({});
    }
  }

  // ---------------------------------------------------------------- sequences of calls

  /** What a client asks for: some pages, or to give back the area it got by its `i`-th successful request. */
  datatype Request = Get(pages: nat) | GiveBack(i: nat)

  /** The area covers `count` pages from `start` on. */
  predicate Covers(a: Area, place: (nat, nat))
    reads a
  {
    a.start == place.0 && a.count == place.1
  }

  /** Two different areas share no page. */
  lemma AreasApart(v: VmAreaAllocator, a: Area, b: Area)
    requires v.Tiling() && a in v.areas && b in v.areas && a != b
    ensures a.start + a.count <= b.start || b.start + b.count <= a.start
  {
    assert v.mappings[a.start] == a && v.mappings[b.start] == b;
  }

  /** Any sequence of requests, in any order: the invariant holds after each; areas that were allocated before
      stay; and an area the client got stays where it was then, `places`, until it is given back, and shares
      no page with another. */
  method Serve(v: VmAreaAllocator, requests: seq<Request>)
    returns (held: map<nat, Area>, places: map<nat, (nat, nat)>)
    requires v.Valid()
    modifies v, v.mappings, v.areas
    ensures v.Valid() && fresh(v.areas - old(v.areas))
    ensures forall a :: a in old(v.areas) && !old(a.free) ==>
              a in v.areas && !a.free && a.start == old(a.start) && a.count == old(a.count)
    ensures held.Keys == places.Keys
    ensures forall i :: i in held ==> held[i] in v.areas && !held[i].free && Covers(held[i], places[i])
    ensures forall i, j :: i in held && j in held && i != j ==>
              places[i].0 + places[i].1 <= places[j].0 || places[j].0 + places[j].1 <= places[i].0
  {
    held, places := map[], map[];
    var n := 0;
    for k := 0 to |requests|
      invariant v.Valid() && fresh(v.areas - old(v.areas)) && held.Keys == places.Keys
      invariant forall a :: a in old(v.areas) && !old(a.free) ==>
                  a in v.areas && !a.free && a.start == old(a.start) && a.count == old(a.count)
      invariant forall i :: i in held ==> i < n && held[i] in v.areas && !held[i].free && Covers(held[i], places[i])
      invariant forall i :: i in held ==> held[i] !in old(v.areas) || old(held[i].free)
      invariant forall i, j :: i in held && j in held && held[i] == held[j] ==> i == j
    {
      match requests[k] {
        case Get(pages) =>
          if pages > 0 {
            var r := v.Alloc(pages);
            if r.Some? {
              held, places := held[n := r.value], places[n := (r.value.start, r.value.count)];
              n := n + 1;
            }
          }
        case GiveBack(i) =>
          if i in held {
            v.Free(held[i]);
            held, places := held - {i}, places - {i};
          }
      }
    }
    forall i, j | i in held && j in held && i != j
      ensures places[i].0 + places[i].1 <= places[j].0 || places[j].0 + places[j].1 <= places[i].0
    {
      AreasApart(v, held[i], held[j]);
    }
  }

  /** Taking pages and giving them back leaves exactly the same pages free. */
  method TakeAndReturn(v: VmAreaAllocator, pages: nat) returns (ok: bool)
    requires v.Valid() && pages > 0
    modifies v, v.mappings, v.areas
    ensures v.Valid() && (ok <==> exists s :: old(v.FreeRun(s, pages)))
    ensures forall p :: 0 <= p < v.mappings.Length ==> v.FreeAt(p) == old(v.FreeAt(p))
  {
    var r := v.Alloc(pages);
    ok := r.Some?;
    if ok {
      v.Free(r.value);
    }
  }
}
