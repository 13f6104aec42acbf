/** The slab allocator of src/mm/slab.c: frames of equal slots, each with a sorted list of its free ones. */
module Slab {
  import opened Common

  const FRAME_SIZE: nat := 32 * PG_SIZE
  const HEADER_SIZE: nat := 28

  /** `struct slab_page_frame` */
  datatype Frame = Frame(base: nat, firstAddr: nat, lastAddr: nat, objectCount: nat, freeObjectCount: nat,
                         freelist: seq<nat>)

  // ---------------------------------------------------------------- slots

  /** The address of slot `k`. */
  function Addr(first: nat, size: nat, k: nat): nat
  {
    if k == 0 then first else Addr(first, size, k - 1) + size
  }

  lemma {:induction false} AddrGrows(first: nat, size: nat, j: nat, k: nat)
    requires j < k
    ensures Addr(first, size, j) + size <= Addr(first, size, k)
  {
    if j < k - 1 { AddrGrows(first, size, j, k - 1); }
  }

  lemma {:induction false} AddrIsProduct(first: nat, size: nat, k: nat)
    ensures Addr(first, size, k) == first + k * size
  {
    if k > 0 { AddrIsProduct(first, size, k - 1); }
  }

  /** One of the first `n` slots from `first` on. */
  ghost predicate SlotAmong(first: nat, size: nat, n: nat, a: nat)
  {
    exists k: nat :: k < n && a == Addr(first, size, k)
  }

  ghost predicate IsSlot(f: Frame, size: nat, a: nat)
  {
    SlotAmong(f.firstAddr, size, f.objectCount, a)
  }

  /** Two slots of a frame are the same or do not overlap. */
  lemma SlotsApart(f: Frame, size: nat, a: nat, b: nat)
    requires IsSlot(f, size, a) && IsSlot(f, size, b)
    ensures a == b || a + size <= b || b + size <= a
  {
    var j: nat :| j < f.objectCount && a == Addr(f.firstAddr, size, j);
    var k: nat :| k < f.objectCount && b == Addr(f.firstAddr, size, k);
    if j < k { AddrGrows(f.firstAddr, size, j, k); }
    if k < j { AddrGrows(f.firstAddr, size, k, j); }
  }

  lemma SlotInside(f: Frame, size: nat, a: nat)
    requires IsSlot(f, size, a) && f.lastAddr == Addr(f.firstAddr, size, f.objectCount)
    ensures f.firstAddr <= a && a + size <= f.lastAddr
  {
    var k: nat :| k < f.objectCount && a == Addr(f.firstAddr, size, k);
    AddrGrows(f.firstAddr, size, k, f.objectCount);
    if k > 0 { AddrGrows(f.firstAddr, size, 0, k); }
  }

  ghost predicate Increasing(s: seq<nat>)
  {
    forall i, j :: 0 <= i < j < |s| ==> s[i] < s[j]
  }

  /** The slots lie between the header and the end of the frame, with no room for another at either end, and the
      free list holds some of them in increasing order. */
  ghost predicate FrameOk(f: Frame, size: nat)
    requires size > 0
  {
    && f.base + HEADER_SIZE <= f.firstAddr < f.base + HEADER_SIZE + size
    && f.lastAddr == Addr(f.firstAddr, size, f.objectCount) <= f.base + FRAME_SIZE < f.lastAddr + size
    && f.objectCount > 0 && f.freeObjectCount == |f.freelist| && Aligned(f.firstAddr, size)
    && Increasing(f.freelist) && forall a :: a in f.freelist ==> IsSlot(f, size, a)
  }

  /** An object somebody has. */
  ghost predicate Live(f: Frame, size: nat, a: nat)
  {
    IsSlot(f, size, a) && a !in f.freelist
  }

  ghost predicate HasLive(f: Frame, size: nat)
  {
    exists a: nat :: Live(f, size, a)
  }

  function SlotSet(first: nat, size: nat, n: nat): set<nat>
  {
    if n == 0 then {} else SlotSet(first, size, n - 1) + {Addr(first, size, n - 1)}
  }

  lemma {:induction false} SlotSetExact(first: nat, size: nat, n: nat)
    requires size > 0
    ensures |SlotSet(first, size, n)| == n
    ensures forall a :: a in SlotSet(first, size, n) <==> SlotAmong(first, size, n, a)
  {
    if n > 0 {
      var last := Addr(first, size, n - 1);
      SlotSetExact(first, size, n - 1);
      forall k: nat | k < n - 1 ensures Addr(first, size, k) != last { AddrGrows(first, size, k, n - 1); }
      forall a ensures SlotAmong(first, size, n, a) <==> SlotAmong(first, size, n - 1, a) || a == last {
        OneMoreSlot(first, size, n - 1, a);
      }
    }
  }

  lemma OneMoreSlot(first: nat, size: nat, n: nat, a: nat)
    ensures SlotAmong(first, size, n + 1, a) <==> SlotAmong(first, size, n, a) || a == Addr(first, size, n)
  {
    if SlotAmong(first, size, n, a) {
      var k: nat :| k < n && a == Addr(first, size, k);
      assert k < n + 1;
    }
  }

  lemma {:induction false} ElementsExact(s: seq<nat>)
    requires Increasing(s)
    ensures |Elements(s)| == |s| && forall a :: a in Elements(s) <==> a in s
  {
    if s != [] {
      var t := s[1..];
      assert s == [s[0]] + t;
      ElementsExact(t);
      assert s[0] !in t && Elements(s) == {s[0]} + Elements(t);
    }
  }

  lemma SameSize(a: set<nat>, b: set<nat>)
    requires a <= b && |a| == |b|
    ensures a == b
  {
    assert |b - a| == |b| - |a|;
    assert b - a == {};
  }

  /** The counts agree exactly when every slot is free. */
  lemma AllFreeIff(f: Frame, size: nat)
    requires size > 0 && FrameOk(f, size)
    ensures f.freeObjectCount == f.objectCount <==> !HasLive(f, size)
  {
    var slots, frees := SlotSet(f.firstAddr, size, f.objectCount), Elements(f.freelist);
    SlotSetExact(f.firstAddr, size, f.objectCount);
    ElementsExact(f.freelist);
    assert forall a :: a in slots <==> IsSlot(f, size, a);
    assert frees <= slots;
    if f.freeObjectCount == f.objectCount { SameSize(frees, slots); }
    if !HasLive(f, size) {
      forall a | a in slots ensures a in frees { assert !Live(f, size, a); }
      assert frees == slots;
    }
  }

  // ---------------------------------------------------------------- alignment

  predicate PowerOfTwo(n: nat)
  {
    n == 1 || (n > 1 && n % 2 == 0 && PowerOfTwo(n / 2))
  }

  /** `v & ~(n - 1)` */
  function MaskOff(v: nat, n: nat): nat
    requires PowerOfTwo(n)
  {
    if n == 1 then v else 2 * MaskOff(v / 2, n / 2)
  }

  /** `ALIGN_2`, which is right only for powers of two */
  function Align(a: nat, n: nat): nat
    requires PowerOfTwo(n)
  {
    MaskOff(a + n - 1, n)
  }

  predicate Aligned(a: nat, n: nat)
    requires n > 0
  {
    a == 0 || (a >= n && Aligned(a - n, n))
  }

  lemma {:induction false} AlignedDouble(a: nat, n: nat)
    requires n > 0 && Aligned(a, n)
    ensures Aligned(2 * a, 2 * n)
  {
    if a > 0 { AlignedDouble(a - n, n); }
  }

  /** Masking gives the last aligned address that is not past `v`. */
  lemma {:induction false} MaskExact(v: nat, n: nat)
    requires PowerOfTwo(n)
    ensures MaskOff(v, n) <= v < MaskOff(v, n) + n && Aligned(MaskOff(v, n), n)
  {
    if n == 1 {
      AlignedToOne(v);
    } else {
      MaskExact(v / 2, n / 2);
      AlignedDouble(MaskOff(v / 2, n / 2), n / 2);
    }
  }

  lemma {:induction false} AlignedToOne(v: nat)
    ensures Aligned(v, 1)
  {
    if v > 0 { AlignedToOne(v - 1); }
  }

  lemma {:induction false} AlignedApart(a: nat, b: nat, n: nat)
    requires n > 0 && Aligned(a, n) && Aligned(b, n) && a < b
    ensures a + n <= b
  {
    if a > 0 { AlignedApart(a - n, b - n, n); }
  }

  /** The next aligned address, which is the address itself if it is aligned. */
  lemma AlignExact(a: nat, n: nat)
    requires PowerOfTwo(n)
    ensures a <= Align(a, n) < a + n && Aligned(Align(a, n), n)
    ensures Aligned(a, n) ==> Align(a, n) == a && Aligned(a + n, n)
  {
    MaskExact(a + n - 1, n);
    if Aligned(a, n) && a < Align(a, n) { AlignedApart(a, Align(a, n), n); }
  }

  lemma {:induction false} SlotAligned(first: nat, size: nat, k: nat)
    requires size > 0 && Aligned(first, size)
    ensures Aligned(Addr(first, size, k), size)
  {
    if k > 0 { SlotAligned(first, size, k - 1); }
  }

  lemma SlotsFit(first: nat, size: nat, end: nat)
    requires size > 0 && first <= end
    ensures Addr(first, size, (end - first) / size) <= end < Addr(first, size, (end - first) / size) + size
    ensures first + size <= end ==> (end - first) / size > 0
  {
    var n := (end - first) / size;
    AddrIsProduct(first, size, n);
    assert end - first == n * size + (end - first) % size;
  }

  function SlotList(first: nat, size: nat, n: nat): (r: seq<nat>)
    ensures |r| == n && forall k :: 0 <= k < n ==> r[k] == Addr(first, size, k)
  {
    if n == 0 then [] else SlotList(first, size, n - 1) + [Addr(first, size, n - 1)]
  }

  /** The first `n` slots, as the loop of `__slab_frame_add_new` links them. */
  lemma AllSlots(f: Frame, size: nat)
    requires size > 0 && f.freelist == SlotList(f.firstAddr, size, f.objectCount)
    ensures Increasing(f.freelist) && forall a :: IsSlot(f, size, a) <==> a in f.freelist
  {
    forall i, j | 0 <= i < j < f.objectCount ensures f.freelist[i] < f.freelist[j] {
      AddrGrows(f.firstAddr, size, i, j);
    }
    forall a | IsSlot(f, size, a) ensures a in f.freelist {
      var k: nat :| k < f.objectCount && a == Addr(f.firstAddr, size, k);
      assert f.freelist[k] == a;
    }
    forall a | a in f.freelist ensures IsSlot(f, size, a) {
      var k :| 0 <= k < |f.freelist| && f.freelist[k] == a;
      assert a == Addr(f.firstAddr, size, k);
    }
  }

  /** The frame laid out in newly allocated pages: every slot is free. */
  method NewFrame(base: nat, size: nat) returns (f: Frame)
    requires PowerOfTwo(size) && size <= PG_SIZE
    ensures FrameOk(f, size) && f.base == base && !HasLive(f, size) && |f.freelist| == f.objectCount
  {
    var first, end := Align(base + HEADER_SIZE, size), base + FRAME_SIZE;
    AlignExact(base + HEADER_SIZE, size);
    SlotsFit(first, size, end);
    var count := (end - first) / size;
    AddrIsProduct(first, size, count);
    var freelist: seq<nat> := [];
    var obj := first;
    for i := 0 to count
      invariant freelist == SlotList(first, size, i)
      invariant obj == Addr(first, size, i) && Aligned(obj, size)
    {
      freelist := freelist + [obj];
      AlignExact(obj, size);
      AlignExact(obj + size, size);
      obj := Align(obj + size, size);
    }
    f := Frame(base, first, first + count * size, count, count, freelist);
    AllSlots(f, size);
  }

  // ---------------------------------------------------------------- the slab

  /** Where the frames are. */
  function Bases(frames: seq<Frame>): seq<nat>
  {
    seq(|frames|, i requires 0 <= i < |frames| => frames[i].base)
  }

  /** The object is the only live one of its frame. */
  ghost predicate LastOfFrame(frames: seq<Frame>, size: nat, obj: nat)
  {
    exists i :: 0 <= i < |frames| && Live(frames[i], size, obj) && OnlyLive(frames[i], size, obj)
  }

  /** Nothing but `obj` is live in the frame. */
  ghost predicate OnlyLive(f: Frame, size: nat, obj: nat)
  {
    forall a :: Live(f, size, a) ==> a == obj
  }

  ghost predicate Apart(f: Frame, g: Frame)
  {
    f.base + FRAME_SIZE <= g.base || g.base + FRAME_SIZE <= f.base
  }

  ghost predicate FramesOk(frames: seq<Frame>, size: nat)
    requires size > 0
  {
    && (forall i :: 0 <= i < |frames| ==> FrameOk(frames[i], size))
    && (forall i, j :: 0 <= i < j < |frames| ==> Apart(frames[i], frames[j]))
  }

  /** An object of the slab that somebody has. */
  ghost predicate LiveIn(frames: seq<Frame>, size: nat, a: nat)
  {
    exists i :: 0 <= i < |frames| && Live(frames[i], size, a)
  }

  /** Live objects are aligned to their size, inside one frame, and never overlap. */
  lemma LiveApart(frames: seq<Frame>, size: nat, a: nat, b: nat)
    requires size > 0 && FramesOk(frames, size) && LiveIn(frames, size, a) && LiveIn(frames, size, b)
    ensures Aligned(a, size) && (a == b || a + size <= b || b + size <= a)
  {
    var i :| 0 <= i < |frames| && Live(frames[i], size, a);
    var j :| 0 <= j < |frames| && Live(frames[j], size, b);
    var k: nat :| k < frames[i].objectCount && a == Addr(frames[i].firstAddr, size, k);
    SlotAligned(frames[i].firstAddr, size, k);
    if i == j { SlotsApart(frames[i], size, a, b); } else { FramesApart(frames, size, i, j, a, b); }
  }

  lemma FramesApart(frames: seq<Frame>, size: nat, i: nat, j: nat, a: nat, b: nat)
    requires size > 0 && FramesOk(frames, size) && i < |frames| && j < |frames| && i != j
    requires IsSlot(frames[i], size, a) && IsSlot(frames[j], size, b)
    ensures a + size <= b || b + size <= a
  {
    SlotInside(frames[i], size, a);
    SlotInside(frames[j], size, b);
    assert if i < j then Apart(frames[i], frames[j]) else Apart(frames[j], frames[i]);
  }

  /** Changing one frame's free list changes what is live in that frame only. */
  lemma LiveAfter(frames: seq<Frame>, size: nat, i: nat, f': Frame, a: nat)
    requires i < |frames|
    ensures LiveIn(frames[i := f'], size, a) <==>
            Live(f', size, a) || exists j :: 0 <= j < |frames| && j != i && Live(frames[j], size, a)
  {
    var frames' := frames[i := f'];
    assert frames'[i] == f';
    if LiveIn(frames', size, a) && !Live(f', size, a) {
      var j :| 0 <= j < |frames'| && Live(frames'[j], size, a);
      assert frames'[j] == frames[j];
    }
    if exists j :: 0 <= j < |frames| && j != i && Live(frames[j], size, a) {
      var j :| 0 <= j < |frames| && j != i && Live(frames[j], size, a);
      assert frames'[j] == frames[j];
    }
  }

  /** A slot belongs to one frame. */
  lemma SlotOfOne(frames: seq<Frame>, size: nat, i: nat, j: nat, a: nat)
    requires size > 0 && FramesOk(frames, size) && i < |frames| && j < |frames|
    requires IsSlot(frames[i], size, a) && IsSlot(frames[j], size, a)
    ensures i == j
  {
    SlotInside(frames[i], size, a);
    SlotInside(frames[j], size, a);
  }

  function Taken(f: Frame): Frame
    requires f.freelist != [] && f.freeObjectCount > 0
  {
    f.(freelist := f.freelist[1..], freeObjectCount := f.freeObjectCount - 1)
  }

  /** Taking the first free slot makes exactly that one live. */
  lemma TakenOk(frames: seq<Frame>, size: nat, i: nat, a: nat)
    requires size > 0 && FramesOk(frames, size) && i < |frames| && frames[i].freelist != []
    ensures frames[i].freeObjectCount > 0 && FramesOk(frames[i := Taken(frames[i])], size)
    ensures var obj := frames[i].freelist[0];
            && !LiveIn(frames, size, obj)
            && (LiveIn(frames[i := Taken(frames[i])], size, a) <==> LiveIn(frames, size, a) || a == obj)
  {
    var f := frames[i];
    var obj := f.freelist[0];
    assert f.freelist == [obj] + f.freelist[1..] && obj in f.freelist;
    assert forall b :: IsSlot(Taken(f), size, b) <==> IsSlot(f, size, b);
    forall j | 0 <= j < |frames| ensures !Live(frames[j], size, obj) {
      if IsSlot(frames[j], size, obj) { SlotOfOne(frames, size, i, j, obj); }
    }
    LiveAfter(frames, size, i, Taken(f), a);
    LiveAfter(frames, size, i, f, a);
    assert frames[i := f] == frames;
    assert obj !in f.freelist[1..];
    TakenFrames(frames, size, i);
  }

  lemma TakenFrames(frames: seq<Frame>, size: nat, i: nat)
    requires size > 0 && FramesOk(frames, size) && i < |frames| && frames[i].freelist != []
    ensures FramesOk(frames[i := Taken(frames[i])], size)
  {
    var f := frames[i];
    assert f.freelist == [f.freelist[0]] + f.freelist[1..];
    assert forall b :: IsSlot(Taken(f), size, b) <==> IsSlot(f, size, b);
  }

  /** The free list with a slot inserted at `k`. */
  function Given(f: Frame, k: nat, obj: nat): Frame
    requires k <= |f.freelist|
  {
    f.(freelist := f.freelist[..k] + [obj] + f.freelist[k..], freeObjectCount := f.freeObjectCount + 1)
  }

  lemma GivenOk(frames: seq<Frame>, size: nat, i: nat, k: nat, obj: nat)
    requires size > 0 && FramesOk(frames, size) && i < |frames| && Live(frames[i], size, obj) &&
             k <= |frames[i].freelist|
    requires forall j :: 0 <= j < k ==> frames[i].freelist[j] < obj
    requires k < |frames[i].freelist| ==> obj <= frames[i].freelist[k]
    ensures FramesOk(frames[i := Given(frames[i], k, obj)], size)
  {
    var f, f' := frames[i], Given(frames[i], k, obj);
    assert forall b :: IsSlot(f', size, b) <==> IsSlot(f, size, b);
    forall a | a in f'.freelist ensures IsSlot(f', size, a) { assert a == obj || a in f.freelist; }
    assert k < |f.freelist| ==> f.freelist[k] in f.freelist;
    forall x, y | 0 <= x < y < |f'.freelist| ensures f'.freelist[x] < f'.freelist[y] {
      if k < y && k < |f.freelist| { assert f.freelist[k] <= f'.freelist[y]; }
    }
  }

  /** Giving a slot back makes exactly that one free. */
  lemma GivenLive(frames: seq<Frame>, size: nat, i: nat, k: nat, obj: nat, a: nat)
    requires size > 0 && FramesOk(frames, size) && i < |frames| && Live(frames[i], size, obj) &&
             k <= |frames[i].freelist|
    ensures LiveIn(frames[i := Given(frames[i], k, obj)], size, a) <==> LiveIn(frames, size, a) && a != obj
  {
    var f, f' := frames[i], Given(frames[i], k, obj);
    LiveAfter(frames, size, i, f', a);
    LiveAfter(frames, size, i, f, a);
    assert frames[i := f] == frames;
    assert forall b :: IsSlot(f', size, b) <==> IsSlot(f, size, b);
    assert f.freelist == f.freelist[..k] + f.freelist[k..];
    assert forall b :: b in f'.freelist <==> b in f.freelist || b == obj;
    if a == obj {
      forall j | 0 <= j < |frames| && j != i ensures !Live(frames[j], size, obj) {
        if IsSlot(frames[j], size, obj) { SlotOfOne(frames, size, i, j, obj); }
      }
    }
  }

  lemma AddedLive(frames: seq<Frame>, size: nat, f: Frame, a: nat)
    requires !HasLive(f, size)
    ensures LiveIn(frames + [f], size, a) <==> LiveIn(frames, size, a)
  {
    if LiveIn(frames, size, a) {
      var i :| 0 <= i < |frames| && Live(frames[i], size, a);
      assert (frames + [f])[i] == frames[i];
    }
  }

  lemma StillThere(frames: seq<Frame>, i: nat, f: Frame)
    requires i < |frames| && f in frames && f != frames[i]
    ensures f in frames[..i] + frames[i + 1..]
  {
    var j :| 0 <= j < |frames| && frames[j] == f;
    assert f == (frames[..i] + frames[i + 1..])[if j < i then j else j - 1];
  }

  lemma SameBase(frames: seq<Frame>, size: nat, f: Frame, g: Frame)
    requires size > 0 && FramesOk(frames, size) && f in frames && g in frames && f.base == g.base
    ensures f == g
  {
    var i :| 0 <= i < |frames| && frames[i] == f;
    var j :| 0 <= j < |frames| && frames[j] == g;
  }

  lemma DroppedLive(frames: seq<Frame>, size: nat, i: nat, a: nat)
    requires i < |frames| && !HasLive(frames[i], size)
    ensures LiveIn(frames[..i] + frames[i + 1..], size, a) <==> LiveIn(frames, size, a)
  {
    var frames' := frames[..i] + frames[i + 1..];
    if LiveIn(frames, size, a) {
      var j :| 0 <= j < |frames| && Live(frames[j], size, a);
      assert frames'[if j < i then j else j - 1] == frames[j];
    }
    if LiveIn(frames', size, a) {
      var j :| 0 <= j < |frames'| && Live(frames'[j], size, a);
      assert frames'[j] == frames[if j < i then j else j + 1];
    }
  }

  lemma OnlyHere(frames: seq<Frame>, size: nat, i: nat, obj: nat)
    requires size > 0 && FramesOk(frames, size) && i < |frames| && IsSlot(frames[i], size, obj)
    ensures LiveIn(frames, size, obj) <==> obj !in frames[i].freelist
  {
    if LiveIn(frames, size, obj) {
      var j :| 0 <= j < |frames| && Live(frames[j], size, obj);
      SlotOfOne(frames, size, i, j, obj);
    }
    if obj !in frames[i].freelist { assert Live(frames[i], size, obj); }
  }

  lemma NotHere(frames: seq<Frame>, size: nat, obj: nat)
    requires size > 0 && FramesOk(frames, size)
    requires forall i :: 0 <= i < |frames| ==> !(frames[i].firstAddr <= obj < frames[i].lastAddr)
    ensures !LiveIn(frames, size, obj)
  {
    forall i | 0 <= i < |frames| ensures !Live(frames[i], size, obj) {
      if IsSlot(frames[i], size, obj) { SlotInside(frames[i], size, obj); }
    }
  }

  /** Giving a slot back leaves the frames where they are, and takes nothing but it from what is live in each. */
  lemma GivenFrames(frames: seq<Frame>, size: nat, i: nat, k: nat, obj: nat)
    requires size > 0 && FramesOk(frames, size) && i < |frames| && Live(frames[i], size, obj)
    requires k <= |frames[i].freelist|
    ensures var frames' := frames[i := Given(frames[i], k, obj)];
            && Bases(frames') == Bases(frames)
            && (forall j :: 0 <= j < |frames| ==> (HasLive(frames'[j], size) <==> !OnlyLive(frames[j], size, obj)))
            && (LastOfFrame(frames, size, obj) <==> !HasLive(frames'[i], size))
  {
    var frames' := frames[i := Given(frames[i], k, obj)];
    forall j | 0 <= j < |frames| ensures HasLive(frames'[j], size) <==> !OnlyLive(frames[j], size, obj) {
      GivenHas(frames, size, i, k, obj, j);
    }
    if LastOfFrame(frames, size, obj) {
      var j :| 0 <= j < |frames| && Live(frames[j], size, obj) && OnlyLive(frames[j], size, obj);
      SlotOfOne(frames, size, i, j, obj);
    }
  }

  lemma GivenHas(frames: seq<Frame>, size: nat, i: nat, k: nat, obj: nat, j: nat)
    requires size > 0 && FramesOk(frames, size) && i < |frames| && Live(frames[i], size, obj) && j < |frames|
    requires k <= |frames[i].freelist|
    ensures var frames' := frames[i := Given(frames[i], k, obj)];
            HasLive(frames'[j], size) <==> !OnlyLive(frames[j], size, obj)
  {
    var f, f' := frames[j], frames[i := Given(frames[i], k, obj)][j];
    assert frames[i].freelist == frames[i].freelist[..k] + frames[i].freelist[k..];
    forall a: nat ensures Live(f', size, a) <==> Live(f, size, a) && a != obj {
      if j != i && Live(f, size, obj) { SlotOfOne(frames, size, i, j, obj); }
    }
    if HasLive(f', size) {
      var a: nat :| Live(f', size, a);
      assert Live(f, size, a) && a != obj;
    }
    if !OnlyLive(f, size, obj) {
      var a: nat :| Live(f, size, a) && a != obj;
      assert Live(f', size, a);
    }
  }

  lemma BaseOf(frames: seq<Frame>, b: nat)
    ensures b in Bases(frames) <==> exists f :: f in frames && f.base == b
  {
    if b in Bases(frames) {
      var i :| 0 <= i < |frames| && Bases(frames)[i] == b;
      assert frames[i] in frames;
    }
    if f :| f in frames && f.base == b {
      var i :| 0 <= i < |frames| && frames[i] == f;
      assert Bases(frames)[i] == b;
    }
  }

  /** The frames that stay are those that are not released. */
  lemma ReleasedBases(frames: seq<Frame>, frames': seq<Frame>, released: seq<nat>, size: nat)
    requires size > 0 && FramesOk(frames, size)
    requires forall f :: f in frames' <==> f in frames && HasLive(f, size)
    requires forall f :: f in frames ==> (f.base in released <==> !HasLive(f, size))
    ensures forall b :: b in Bases(frames') <==> b in Bases(frames) && b !in released
  {
    forall b ensures b in Bases(frames') <==> b in Bases(frames) && b !in released {
      BaseOf(frames, b);
      BaseOf(frames', b);
    }
  }

  lemma FreedReleases(frames: seq<Frame>, given: seq<Frame>, released: seq<nat>, size: nat, obj: nat)
    requires |frames| == |given| && Bases(given) == Bases(frames)
    requires forall j :: 0 <= j < |frames| ==> (HasLive(given[j], size) <==> !OnlyLive(frames[j], size, obj))
    requires forall g :: g in given ==> (g.base in released <==> !HasLive(g, size))
    ensures forall f :: f in frames ==> (f.base in released <==> OnlyLive(f, size, obj))
  {
    forall f | f in frames ensures f.base in released <==> OnlyLive(f, size, obj) {
      var j :| 0 <= j < |frames| && frames[j] == f;
      assert Bases(given)[j] == Bases(frames)[j] && given[j] in given;
    }
  }

  datatype FreeResult = Freed | DoubleFree | Panic

  class SlabAlloc {
    const size: nat
    var frames: seq<Frame>

    ghost predicate Valid()
      reads this
    {
      PowerOfTwo(size) && size <= PG_SIZE && FramesOk(frames, size)
    }

    constructor (size: nat)
      requires PowerOfTwo(size) && size <= PG_SIZE
      ensures Valid() && frames == [] && this.size == size
    {
      this.size := size;
      frames := [];
    }

    /** The search of `__slab_malloc`: the first free slot of the first frame that has one. */
    method TryMalloc() returns (r: Option<nat>)
      requires Valid()
      modifies this
      ensures Valid()
      ensures r.None? <==> forall i :: 0 <= i < |old(frames)| ==> old(frames)[i].freelist == []
      ensures r.None? ==> frames == old(frames)
      ensures r.Some? ==> !LiveIn(old(frames), size, r.value)
      ensures forall a: nat :: LiveIn(frames, size, a) <==> LiveIn(old(frames), size, a) || r == Some(a)
      ensures Bases(frames) == Bases(old(frames))
    {
      for i := 0 to |frames|
        invariant frames == old(frames) && forall j :: 0 <= j < i ==> frames[j].freelist == []
      {
        var f := frames[i];
        if f.freeObjectCount > 0 {
          TakenOk(frames, size, i, 0);
          forall a: nat
            ensures LiveIn(frames[i := Taken(f)], size, a) <==> LiveIn(frames, size, a) || a == f.freelist[0]
          {
            TakenOk(frames, size, i, a);
          }
          r := Some(f.freelist[0]);
          frames := frames[i := Taken(f)];
          return;
        }
      }
      r := None;
    }

    /** `__slab_frame_add_new`, given the pages it gets if any. */
    method AddFrame(base: Option<nat>) returns (ok: bool)
      requires Valid()
      requires base.Some? ==> forall i :: 0 <= i < |frames| ==>
               frames[i].base + FRAME_SIZE <= base.value || base.value + FRAME_SIZE <= frames[i].base
      modifies this
      ensures Valid() && ok == base.Some?
      ensures ok ==>
              && |frames| == |old(frames)| + 1
              && frames[..|old(frames)|] == old(frames)
              && frames[|old(frames)|].freelist != [] && frames[|old(frames)|].base == base.value
              && |frames[|old(frames)|].freelist| == frames[|old(frames)|].objectCount
      ensures !ok ==> frames == old(frames)
      ensures forall a: nat :: LiveIn(frames, size, a) <==> LiveIn(old(frames), size, a)
    {
      ok := base.Some?;
      if ok {
        var f := NewFrame(base.value, size);
        forall a: nat ensures LiveIn(frames + [f], size, a) <==> LiveIn(frames, size, a) {
          AddedLive(frames, size, f, a);
        }
        frames := frames + [f];
        AllFreeIff(f, size);
      }
    }

    /** `__slab_malloc`: fails only when no frame has a free slot and no new frame is to be had. */
    method Malloc(base: Option<nat>) returns (r: Option<nat>)
      requires Valid()
      requires base.Some? ==> forall i :: 0 <= i < |frames| ==>
               frames[i].base + FRAME_SIZE <= base.value || base.value + FRAME_SIZE <= frames[i].base
      modifies this
      ensures Valid()
      ensures r.None? <==> base.None? && forall i :: 0 <= i < |old(frames)| ==> old(frames)[i].freelist == []
      ensures r.Some? ==> !LiveIn(old(frames), size, r.value)
      ensures forall a: nat :: LiveIn(frames, size, a) <==> LiveIn(old(frames), size, a) || r == Some(a)
      // A frame is added only when there is no free slot.
      ensures Bases(frames) == Bases(old(frames)) +
              if base.Some? && (forall i :: 0 <= i < |old(frames)| ==> old(frames)[i].freelist == []) then [base.value]
              else []
    {
      r := TryMalloc();
      if r.None? {
        var ok := AddFrame(base);
        if ok {
          assert frames[|frames| - 1].freelist != [];
          r := TryMalloc();
        }
      }
    }

    /** `__slab_oom`: exactly the frames without a live object are released. */
    method Oom() returns (released: seq<nat>)
      requires Valid()
      modifies this
      ensures Valid()
      ensures forall a: nat :: LiveIn(frames, size, a) <==> LiveIn(old(frames), size, a)
      ensures forall f :: f in frames <==> f in old(frames) && HasLive(f, size)
      ensures forall f :: f in old(frames) ==> (f.base in released <==> !HasLive(f, size))
    {
      released := [];
      var i := 0;
      while i < |frames|
        invariant i <= |frames| && FramesOk(frames, size)
        invariant forall a: nat :: LiveIn(frames, size, a) <==> LiveIn(old(frames), size, a)
        invariant forall j :: 0 <= j < i ==> HasLive(frames[j], size)
        invariant forall f :: f in frames ==> f in old(frames)
        invariant forall f :: f in old(frames) ==> (f.base in released <==> f !in frames)
        invariant forall f :: f in old(frames) && f !in frames ==> !HasLive(f, size)
        decreases |frames| - i
      {
        AllFreeIff(frames[i], size);
        if frames[i].freeObjectCount == frames[i].objectCount {
          released := released + [frames[i].base];
          forall a: nat ensures LiveIn(frames[..i] + frames[i + 1..], size, a) <==> LiveIn(frames, size, a) {
            DroppedLive(frames, size, i, a);
          }
          forall f | f in frames && f != frames[i] ensures f in frames[..i] + frames[i + 1..] {
            StillThere(frames, i, f);
          }
          forall f | f in old(frames) && f.base == frames[i].base ensures f == frames[i] {
            SameBase(old(frames), size, f, frames[i]);
          }
          assert frames[i] !in frames[..i] + frames[i + 1..];
          frames := frames[..i] + frames[i + 1..];
        } else {
          i := i + 1;
        }
      }
    }

    /** The walk of `__slab_frame_object_free`: where the slot goes, unless it is on the list already. */
    method Place(f: Frame, obj: nat) returns (k: nat, double: bool)
      requires Valid() && FrameOk(f, size) && IsSlot(f, size, obj)
      ensures double <==> obj in f.freelist
      ensures !double ==>
              && k <= |f.freelist|
              && (forall j :: 0 <= j < k ==> f.freelist[j] < obj)
              && (k < |f.freelist| ==> obj <= f.freelist[k])
    {
      k, double := 0, false;
      while k < |f.freelist|
        invariant k <= |f.freelist| && !double && forall j :: 0 <= j < k ==> f.freelist[j] < obj
      {
        SlotsApart(f, size, f.freelist[k], obj);
        if f.freelist[k] <= obj < f.freelist[k] + size {
          double := true;
          return;
        }
        if obj <= f.freelist[k] {
          return;
        }
        k := k + 1;
      }
    }

    /** `__slab_free`: the object becomes free, and with the last one of its frame the frame goes. Freeing
        a slot that is already free changes nothing. */
    method Free(obj: nat) returns (r: FreeResult, released: seq<nat>)
      requires Valid()
      requires forall i :: 0 <= i < |frames| && frames[i].firstAddr <= obj < frames[i].lastAddr ==>
               IsSlot(frames[i], size, obj)
      modifies this
      ensures Valid()
      ensures r == Panic <==> forall i :: 0 <= i < |old(frames)| ==>
              !(old(frames)[i].firstAddr <= obj < old(frames)[i].lastAddr)
      ensures r == Freed <==> LiveIn(old(frames), size, obj)
      ensures r != Freed ==> frames == old(frames) && released == []
      ensures forall a: nat :: LiveIn(frames, size, a) <==> LiveIn(old(frames), size, a) && (r == Freed ==> a != obj)
      // If that leaves its frame without a live object, all frames without one are released, and else none.
      ensures r == Freed ==> forall f :: f in old(frames) ==>
                (f.base in released <==> LastOfFrame(old(frames), size, obj) && OnlyLive(f, size, obj))
      ensures forall b :: b in Bases(frames) <==> b in Bases(old(frames)) && b !in released
    {
      released := [];
      for i := 0 to |frames|
        invariant frames == old(frames) && forall j :: 0 <= j < i ==> !(frames[j].firstAddr <= obj < frames[j].lastAddr)
      {
        var f := frames[i];
        if f.firstAddr <= obj < f.lastAddr {
          OnlyHere(frames, size, i, obj);
          var k, double := Place(f, obj);
          if double {
            return DoubleFree, [];
          }
          GivenOk(frames, size, i, k, obj);
          forall a: nat
            ensures LiveIn(frames[i := Given(f, k, obj)], size, a) <==> LiveIn(frames, size, a) && a != obj
          {
            GivenLive(frames, size, i, k, obj, a);
          }
          frames := frames[i := Given(f, k, obj)];
          AllFreeIff(frames[i], size);
          GivenFrames(old(frames), size, i, k, obj);
          if frames[i].freeObjectCount == frames[i].objectCount {
            ghost var given := frames;
            released := Oom();
            ReleasedBases(given, frames, released, size);
            FreedReleases(old(frames), given, released, size, obj);
          }
          return Freed, released;
        }
      }
      NotHere(frames, size, obj);
      r := Panic;
    }
  }
}
