/** The steps of `block_dev_sync` and `block_sync_all`. */
module BlockCacheCollect {
  import opened Common
  import opened BlockCache
  import opened BlockCacheInv
  import opened BlockCacheLocal
  import opened BlockCacheClient
  import opened BlockCacheDrive
  import opened BlockCacheSync

  /** A sync collects every cached block that is VALID and DIRTY, once. */
  lemma Collected(s: State)
    requires Index(s)
    ensures var ids := CollectAll(s.blocks, s.buckets);
            && Distinct(ids)
            && forall id :: id in ids <==>
                 id in s.lru && id in s.blocks && s.blocks[id].valid && s.blocks[id].dirty
  {
    assert Separate(s.buckets) by {
      forall k | 0 <= k < |s.buckets| ensures Distinct(s.buckets[k]) { assert ChainOk(s, k); }
      forall i, j, id | 0 <= i < |s.buckets| && 0 <= j < |s.buckets| && id in s.buckets[i] && id in s.buckets[j]
        ensures i == j
      {
        assert ChainOk(s, i) && ChainOk(s, j);
      }
    }
    SelectAllExact(s.buckets, id => id in s.blocks && s.blocks[id].valid && s.blocks[id].dirty);
    forall id ensures InSome(s.buckets, id) <==> id in s.lru {
      if InSome(s.buckets, id) { var k :| 0 <= k < |s.buckets| && id in s.buckets[k]; assert ChainOk(s, k); }
      if id in s.lru { assert CachedOk(s, id); }
    }
  }

  /** Counting references changes nothing but references. */
  lemma RefAllExact(blocks: map<nat, Block>, ids: seq<nat>, t: nat, x: nat)
    requires x in blocks
    ensures var b := RefAll(blocks, ids, t)[x];
            b == blocks[x].(refs := b.refs, holders := b.holders) &&
            (if x in ids then b == Ref1(blocks[x], Task(t)) else b == blocks[x])
  {
  }

  /** Task `t` has listed `ids` and counted a reference to each. */
  function Listed(s: State, t: nat, ids: seq<nat>, a: SyncArgs): State
  {
    SetPc(s.(blocks := RefAll(s.blocks, ids, t)), t, SyncLock(ids, [], a))
  }

  ghost predicate CanList(s: State, t: nat, ids: seq<nat>, a: SyncArgs)
  {
    && PcOf(s, t) == SyncCollect(a) && Distinct(ids)
    && forall id :: id in ids ==> id in s.lru && id in s.blocks && s.blocks[id].valid
  }

  lemma ListedRefs(s: State, t: nat, ids: seq<nat>, a: SyncArgs)
    requires Inv(s) && CanList(s, t, ids, a)
    ensures Refs(Listed(s, t, ids, a)) && Locks(Listed(s, t, ids, a))
  {
    var s' := Listed(s, t, ids, a);
    forall x: nat, u: nat ensures RefOk(s', x, u) && LockOk(s', x, u) {
      Facts(s, u, x);
      DistinctCount(ids, x);
      if x in s.blocks { RefAllExact(s.blocks, ids, t, x); }
    }
    forall x: nat ensures CountOk(s', x) && OwnerOk(s', x) {
      Facts(s, t, x);
      if x in s.blocks { RefAllExact(s.blocks, ids, t, x); }
    }
  }

  lemma ListedSame(s: State, t: nat, ids: seq<nat>, a: SyncArgs, x: nat)
    requires CanList(s, t, ids, a) && x in s.blocks
    ensures var s' := Listed(s, t, ids, a);
            && x in s'.blocks
            && s'.blocks[x] == s.blocks[x].(refs := s'.blocks[x].refs, holders := s'.blocks[x].holders)
  {
    RefAllExact(s.blocks, ids, t, x);
  }

  lemma ListedIndex(s: State, t: nat, ids: seq<nat>, a: SyncArgs)
    requires Inv(s) && CanList(s, t, ids, a)
    ensures var s' := Listed(s, t, ids, a); Sized(s') && Index(s') && Tasks(s')
  {
    var s' := Listed(s, t, ids, a);
    forall x | x in s.blocks
      ensures x in s'.blocks && s'.blocks[x] == s.blocks[x].(refs := s'.blocks[x].refs, holders := s'.blocks[x].holders)
    {
      ListedSame(s, t, ids, a, x);
    }
    IndexSame(s, s');
    assert ids + [] == ids;
    forall u: nat ensures TaskOk(s', u) { assert TaskOk(s, u); }
  }

  lemma ListedBlocks(s: State, t: nat, ids: seq<nat>, a: SyncArgs)
    requires Inv(s) && CanList(s, t, ids, a)
    ensures var s' := Listed(s, t, ids, a); DriveOk(s') && Coherent(s')
  {
    var s' := Listed(s, t, ids, a);
    forall x: nat ensures OnDriveOk(s', x) && BlockOk(s', x) {
      Facts(s, t, x);
      if x in s.blocks { ListedSame(s, t, ids, a, x); }
    }
  }

  lemma ListedKeeps(s: State, t: nat, ids: seq<nat>, a: SyncArgs)
    requires Inv(s) && CanList(s, t, ids, a)
    ensures Inv(Listed(s, t, ids, a)) && Shows(s, Silent, Listed(s, t, ids, a))
  {
    var s' := Listed(s, t, ids, a);
    ListedRefs(s, t, ids, a);
    ListedIndex(s, t, ids, a);
    ListedBlocks(s, t, ids, a);
    forall k: nat ensures Logical(s', k) == Logical(s, k) {
      forall x: nat ensures LivesIn(s, x, k) <==> LivesIn(s', x, k) { }
      SameLogical(s, s', k);
    }
  }

  lemma CollectKeeps(s: State, t: nat, a: SyncArgs)
    requires Inv(s) && PcOf(s, t) == SyncCollect(a)
    ensures Inv(CollectNext(s, t, a)) && Shows(s, Silent, CollectNext(s, t, a))
  {
    Collected(s);
    ListedKeeps(s, t, CollectAll(s.blocks, s.buckets), a);
  }

  // ---------------------------------------------------------------- the rest of a sync

  lemma SyncEnters(s: State, t: nat)
    requires Inv(s) && Shape(s) && SyncEnabled(s, t, SyncEnter)
    ensures Inv(SyncStepNext(s, t, SyncEnter)) && Shows(s, Silent, SyncStepNext(s, t, SyncEnter))
  {
    Facts(s, t, 0);
    MoveKeeps(s, t, SyncCollect(PcOf(s, t).a), Some(t));
  }

  lemma SyncStartsWaiting(s: State, t: nat)
    requires Inv(s) && PcOf(s, t).SyncLock? && PcOf(s, t).todo == []
    ensures var s' := SetPc(s, t, SyncWait(PcOf(s, t).waits, PcOf(s, t).a)); Inv(s') && Shows(s, Silent, s')
  {
    var SyncLock(todo, waits, a) := PcOf(s, t);
    Facts(s, t, 0);
    assert todo + waits == waits;
    assert SetPc(s, t, SyncWait(waits, a)) == SetPc(s, t, SyncWait(waits, a)).(syncMutex := s.syncMutex);
    MoveKeeps(s, t, SyncWait(waits, a), s.syncMutex);
  }

  lemma SyncEnds(s: State, t: nat, pc: Pc)
    requires Inv(s) && InSync(PcOf(s, t)) && (forall x: nat :: Owed(PcOf(s, t), x) == 0 && !HasLock(PcOf(s, t), x))
    requires pc.Idle? || pc.Shrink2?
    ensures var s' := SetPc(s, t, pc).(syncMutex := None); Inv(s') && Shows(s, Silent, s')
  {
    Facts(s, t, 0);
    MoveKeeps(s, t, pc, None);
  }

  lemma SyncMovesOn(s: State, t: nat)
    requires Inv(s) && Shape(s) && SyncEnabled(s, t, SyncNext)
    ensures Inv(SyncStepNext(s, t, SyncNext)) && Shows(s, Silent, SyncStepNext(s, t, SyncNext))
  {
    var pc := PcOf(s, t);
    if pc.SyncLock? && pc.a.wait {
      SyncStartsWaiting(s, t);
    } else {
      Facts(s, t, 0);
      SyncEnds(s, t, AfterSync(pc.a.k));
    }
  }

  lemma SyncLocks(s: State, t: nat)
    requires Inv(s) && Shape(s) && SyncEnabled(s, t, SyncLockStep)
    ensures Inv(SyncStepNext(s, t, SyncLockStep)) && Shows(s, Silent, SyncStepNext(s, t, SyncLockStep))
  {
    var SyncLock(todo, waits, a) := PcOf(s, t);
    Facts(s, t, todo[0]);
    LocalKeeps(s, t, todo[0], Lock(s.blocks[todo[0]], Task(t)), SyncSubmit(todo, waits, a));
  }

  lemma SyncWaits(s: State, t: nat)
    requires Inv(s) && Shape(s) && SyncEnabled(s, t, SyncWaitStep)
    ensures Inv(SyncStepNext(s, t, SyncWaitStep)) && Shows(s, Silent, SyncStepNext(s, t, SyncWaitStep))
  {
    var SyncWait(waits, a) := PcOf(s, t);
    var id := waits[0];
    Facts(s, t, id);
    WaitsTail(waits, a);
    LocalKeeps(s, t, id, Put(s.blocks[id], Task(t)), SyncWait(waits[1..], a));
  }

  lemma WaitsTail(waits: seq<nat>, a: SyncArgs)
    requires waits != [] && Distinct(waits)
    ensures Distinct(waits[1..]) && Owed(SyncWait(waits, a), waits[0]) == 1
    ensures forall x: nat ::
              Owed(SyncWait(waits[1..], a), x) == Owed(SyncWait(waits, a), x) - if x == waits[0] then 1 else 0
  {
    DistinctTail(waits);
    forall x: nat
      ensures Owed(SyncWait(waits[1..], a), x) == Owed(SyncWait(waits, a), x) - if x == waits[0] then 1 else 0
    {
      HeadCount(waits, x);
    }
    DistinctCount(waits, waits[0]);
  }

  /** Moving one id from the work list to the wait list, or off the lists. */
  lemma ListStep(todo: seq<nat>, waits: seq<nat>, a: SyncArgs)
    requires todo != [] && Distinct(todo + waits)
    ensures Distinct(todo[1..] + (waits + [todo[0]])) && Distinct(todo[1..] + waits)
    ensures forall x: nat :: Owed(SyncLock(todo[1..], waits + [todo[0]], a), x) == Owed(SyncSubmit(todo, waits, a), x)
    ensures forall x: nat :: Owed(SyncLock(todo[1..], waits, a), x) ==
                             Owed(SyncSubmit(todo, waits, a), x) - if x == todo[0] then 1 else 0
    ensures Owed(SyncSubmit(todo, waits, a), todo[0]) == 1
  {
    var id := todo[0];
    ListMoves(todo, waits);
    forall x: nat
      ensures Owed(SyncLock(todo[1..], waits + [id], a), x) == Owed(SyncSubmit(todo, waits, a), x)
      ensures Owed(SyncLock(todo[1..], waits, a), x) == Owed(SyncSubmit(todo, waits, a), x) - if x == id then 1 else 0
    {
      HeadCount(todo, x);
      LastCount(waits, id, x);
    }
    DistinctCount(todo + waits, id);
    assert multiset(todo + waits) == multiset(todo) + multiset(waits);
  }

  lemma ListMoves(todo: seq<nat>, waits: seq<nat>)
    requires todo != [] && Distinct(todo + waits)
    ensures Distinct(todo[1..] + (waits + [todo[0]])) && Distinct(todo[1..] + waits)
  {
    var id := todo[0];
    assert todo + waits == [id] + (todo[1..] + waits);
    DistinctTail(todo + waits);
    assert (todo + waits)[1..] == todo[1..] + waits;
    DistinctAppend(todo[1..] + waits, id);
    assert (todo[1..] + waits) + [id] == todo[1..] + (waits + [id]);
  }

  lemma SubmitWaiting(s: State, t: nat)
    requires Inv(s) && Shape(s) && Serves(s) && PcOf(s, t).SyncSubmit? && PcOf(s, t).todo != [] &&
             PcOf(s, t).todo[0] in s.blocks
    ensures var SyncSubmit(todo, waits, a) := PcOf(s, t);
            var s' := SetPc(SyncBlock(s, todo[0]), t, SyncLock(todo[1..], waits + [todo[0]], a.(wait := true)));
            Inv(s') && Shows(s, Silent, s') && Serves(s')
  {
    var SyncSubmit(todo, waits, a) := PcOf(s, t);
    Facts(s, t, todo[0]);
    ListStep(todo, waits, a);
    SubmitKeeps(s, t, todo[0], SyncLock(todo[1..], waits + [todo[0]], a.(wait := true)));
  }

  lemma LastGone(rest: seq<nat>, id: nat)
    requires Distinct(rest + [id])
    ensures id !in rest && Distinct(rest + [])
  {
    assert rest + [] == (rest + [id])[..|rest|];
    assert (rest + [id])[|rest|] == id;
    forall k | 0 <= k < |rest| ensures rest[k] != id { assert (rest + [id])[k] == rest[k]; }
  }

  /** Without waiting, the reference is given back as soon as the block is submitted. */
  lemma SubmitPut(s: State, t: nat, id: nat, rest: seq<nat>, a: SyncArgs)
    requires Inv(s) && Serves(s) && PcOf(s, t) == SyncLock(rest, [id], a.(wait := true)) && id in s.blocks
    ensures var s' := Local(s, t, id, Put(s.blocks[id], Task(t)), SyncLock(rest, [], a));
            Inv(s') && Shows(s, Silent, s') && Serves(s')
  {
    Facts(s, t, id);
    LastGone(rest, id);
    LocalKeeps(s, t, id, Put(s.blocks[id], Task(t)), SyncLock(rest, [], a));
  }

  /** The early continue of a sync that does not wait. */
  lemma SubmitSkips(s: State, t: nat)
    requires Inv(s) && SyncEnabled(s, t, SyncSubmitStep) && !PcOf(s, t).a.wait
    ensures var SyncSubmit(todo, waits, a) := PcOf(s, t);
            var s' := Local(s, t, todo[0], Put(Unlock(s.blocks[todo[0]]), Task(t)), SyncLock(todo[1..], waits, a));
            Inv(s') && Shows(s, Silent, s')
  {
    var SyncSubmit(todo, waits, a) := PcOf(s, t);
    var id := todo[0];
    Facts(s, t, id);
    ListStep(todo, waits, a);
    LocalKeeps(s, t, id, Put(Unlock(s.blocks[id]), Task(t)), SyncLock(todo[1..], waits, a));
  }

  lemma SubmitNoWait(s: State, t: nat)
    requires Inv(s) && Shape(s) && Serves(s) && SyncEnabled(s, t, SyncSubmitStep)
    requires !EarlyContinue(s, t) && !PcOf(s, t).a.wait
    ensures var s' := SyncStepNext(s, t, SyncSubmitStep); Inv(s') && Shows(s, Silent, s') && Serves(s')
  {
    var SyncSubmit(todo, waits, a) := PcOf(s, t);
    NoWaitMiddle(s, t);
    var s1 := SetPc(SyncBlock(s, todo[0]), t, SyncLock(todo[1..], [todo[0]], a.(wait := true)));
    SubmitPut(s1, t, todo[0], todo[1..], a);
    NoWaitIs(s, t);
    SilentTwice(s, s1, SyncStepNext(s, t, SyncSubmitStep));
  }

  lemma SilentTwice(s: State, s1: State, s2: State)
    requires Inv(s) && Inv(s1) && Inv(s2) && Shows(s, Silent, s1) && Shows(s1, Silent, s2)
    ensures Shows(s, Silent, s2)
  {
  }

  lemma NoWaitMiddle(s: State, t: nat)
    requires Inv(s) && Shape(s) && Serves(s) && SyncEnabled(s, t, SyncSubmitStep) && !PcOf(s, t).a.wait
    ensures PcOf(s, t).waits == []
    ensures var SyncSubmit(todo, _, a) := PcOf(s, t);
            var s1 := SetPc(SyncBlock(s, todo[0]), t, SyncLock(todo[1..], [todo[0]], a.(wait := true)));
            Inv(s1) && Shows(s, Silent, s1) && Serves(s1)
  {
    var SyncSubmit(todo, waits, a) := PcOf(s, t);
    assert TaskOk(s, t);
    assert waits + [todo[0]] == [todo[0]];
    SubmitWaiting(s, t);
  }

  lemma NoWaitIs(s: State, t: nat)
    requires Shape(s) && SyncEnabled(s, t, SyncSubmitStep) && !EarlyContinue(s, t)
    requires !PcOf(s, t).a.wait && PcOf(s, t).waits == []
    ensures var SyncSubmit(todo, waits, a) := PcOf(s, t);
            var s1 := SetPc(SyncBlock(s, todo[0]), t, SyncLock(todo[1..], [todo[0]], a.(wait := true)));
            SyncStepNext(s, t, SyncSubmitStep) ==
            Local(s1, t, todo[0], Put(s1.blocks[todo[0]], Task(t)), SyncLock(todo[1..], [], a))
  {
  }

  lemma SyncSubmits(s: State, t: nat)
    requires Inv(s) && Shape(s) && Serves(s) && SyncEnabled(s, t, SyncSubmitStep)
    requires !(EarlyContinue(s, t) && PcOf(s, t).a.wait)
    ensures var s' := SyncStepNext(s, t, SyncSubmitStep); Inv(s') && Shows(s, Silent, s') && Serves(s')
  {
    if EarlyContinue(s, t) {
      SubmitSkips(s, t);
    } else if PcOf(s, t).a.wait {
      assert PcOf(s, t).a.(wait := true) == PcOf(s, t).a;
      SubmitWaiting(s, t);
    } else {
      SubmitNoWait(s, t);
    }
  }

  lemma SyncStep(s: State, t: nat, op: SyncOp)
    requires Inv(s) && Shape(s) && Serves(s) && SyncEnabled(s, t, op)
    requires !(op.SyncSubmitStep? && EarlyContinue(s, t) && PcOf(s, t).a.wait)
    ensures Inv(SyncStepNext(s, t, op)) && Shows(s, Silent, SyncStepNext(s, t, op))
  {
    match op
    case SyncEnter => SyncEnters(s, t);
    case CollectStep => CollectKeeps(s, t, PcOf(s, t).a);
    case SyncLockStep => SyncLocks(s, t);
    case SyncSubmitStep => SyncSubmits(s, t);
    case SyncNext => SyncMovesOn(s, t);
    case SyncWaitStep => SyncWaits(s, t);
  }
}
