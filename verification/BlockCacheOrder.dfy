/** In which order things are done: blocks are evicted least recently used first, as many as are called for, and the
    drive serves requests in the order they are made. */
module BlockCacheOrder {
  import opened Common
  import opened BlockCache
  import opened BlockCacheInv
  import opened BlockCacheClient
  import opened BlockCacheIndex
  import opened BlockCacheSteady
  import opened BlockCacheRuns

  // ---------------------------------------------------------------- what a shrink frees

  /** The block is locked, referred to or dirty, so that it has to stay. */
  predicate InUse(b: Block)
  {
    b.locked || b.refs != 0 || b.dirty
  }

  /** A pass frees blocks until it has freed enough, or none is left that could be; the count is that of the
      bytes the cache has lost. */
  lemma {:induction false} ShrinkFrees(s: State, todo: seq<nat>, freed: nat)
    requires Inv(s) && (forall id :: id in todo ==> id in s.lru) && Distinct(todo)
    ensures var (s', freed') := ShrinkPass(s, todo, freed);
            && freed' - freed == s.cacheSize - s'.cacheSize
            && (freed' >= s.cfg.shrinkSize || forall id :: id in todo && id in s'.blocks ==> InUse(s'.blocks[id]))
            && (freed' < s.cfg.shrinkSize + s.cfg.blockSize || freed' == freed)
    decreases |todo|
  {
    if todo == [] || freed >= s.cfg.shrinkSize {
    } else {
      var id := todo[0];
      assert todo == [id] + todo[1..];
      DistinctTail(todo);
      if id in s.blocks && Evictable(s.blocks[id]) {
        UncacheKeeps(s, id);
        WithoutExact(s.lru, id);
        ShrinkFrees(Uncache(s, id), todo[1..], freed + s.cfg.blockSize);
        ShrinkOnly(Uncache(s, id), todo[1..], freed + s.cfg.blockSize, id);
      } else {
        ShrinkFrees(s, todo[1..], freed);
        ShrinkOnly(s, todo[1..], freed, id);
      }
    }
  }

  /** A pass does not change the blocks it leaves, and makes none. */
  lemma {:induction false} ShrinkOnly(s: State, todo: seq<nat>, freed: nat, id: nat)
    requires |s.buckets| == HASH_SIZE
    ensures var s' := ShrinkPass(s, todo, freed).0; id in s'.blocks ==> id in s.blocks && s'.blocks[id] == s.blocks[id]
    decreases |todo|
  {
    if todo == [] || freed >= s.cfg.shrinkSize {
    } else if todo[0] in s.blocks && Evictable(s.blocks[todo[0]]) {
      ShrinkOnly(Uncache(s, todo[0]), todo[1..], freed + s.cfg.blockSize, id);
    } else {
      ShrinkOnly(s, todo[1..], freed, id);
    }
  }

  /** Nothing is evicted that is behind a block that could have been and was not. */
  lemma {:induction false} ShrinkInOrder(s: State, todo: seq<nat>, freed: nat, i: nat, j: nat)
    requires Inv(s) && (forall id :: id in todo ==> id in s.lru) && Distinct(todo) && i < j < |todo|
    requires todo[i] in s.blocks && !InUse(s.blocks[todo[i]])
    requires todo[j] in s.blocks && todo[j] !in ShrinkPass(s, todo, freed).0.blocks
    ensures todo[i] !in ShrinkPass(s, todo, freed).0.blocks
    decreases |todo|
  {
    if freed < s.cfg.shrinkSize {
      var id := todo[0];
      DistinctTail(todo);
      if id in s.blocks && Evictable(s.blocks[id]) {
        UncacheKeeps(s, id);
        WithoutExact(s.lru, id);
        if i == 0 {
          ShrinkOnly(Uncache(s, id), todo[1..], freed + s.cfg.blockSize, id);
        } else {
          ShrinkInOrder(Uncache(s, id), todo[1..], freed + s.cfg.blockSize, i - 1, j - 1);
        }
      } else {
        ShrinkInOrder(s, todo[1..], freed, i - 1, j - 1);
      }
    }
  }

  /** `bcache_oom`: the first pass frees what is called for and the task is done, or it leaves nothing that could be
      freed and the task goes on to sync everything, waiting. */
  lemma OomFrees(s: State, t: nat)
    requires Inv(s) && Shape(s) && Enabled(s, Oom(t))
    ensures var s' := Next(s, Oom(t));
            || (PcOf(s', t).Idle? && s.cacheSize - s'.cacheSize >= s.cfg.shrinkSize)
            || (&& PcOf(s', t).SyncWant? && PcOf(s', t).a.wait
                && forall id :: id in s.lru && id in s'.blocks ==> InUse(s'.blocks[id]))
  {
    ShrinkFrees(s, s.lru, 0);
  }

  /** The pass after the sync: together with the first it frees what is called for, or leaves nothing that could
      be freed. */
  lemma SecondShrinkFrees(s: State, t: nat)
    requires Inv(s) && Shape(s) && Enabled(s, SecondShrink(t))
    ensures var s', freed := Next(s, SecondShrink(t)), PcOf(s, t).freed;
            || s.cacheSize - s'.cacheSize + freed >= s.cfg.shrinkSize
            || forall id :: id in s.lru && id in s'.blocks ==> InUse(s'.blocks[id])
  {
    ShrinkFrees(s, s.lru, PcOf(s, t).freed);
  }

  // ---------------------------------------------------------------- least recently used

  /** The block a step looks up and takes a reference to, if it does. */
  ghost function Uses(s: State, a: Act): seq<nat>
    requires Shape(s) && Enabled(s, a)
  {
    if a.Get? && (a.get.FindStep? || a.get.InsertStep?) && PcOf(Next(s, a), a.t).Got? then [PcOf(Next(s, a), a.t).b]
    else []
  }

  /** The blocks taken in the course of a run, in order. */
  ghost function UsesOf(s: State, acts: seq<Act>, uses: seq<nat>): seq<nat>
    requires Runs(s, acts)
    decreases |acts|
  {
    if acts == [] then uses else UsesOf(Next(s, acts[0]), acts[1..], uses + Uses(s, acts[0]))
  }

  /** When `x` was last taken. */
  function LastUse(uses: seq<nat>, x: nat): (k: int)
    ensures -1 <= k < |uses| && (k >= 0 ==> uses[k] == x) && forall j :: k < j < |uses| ==> uses[j] != x
  {
    if uses == [] then -1
    else if uses[|uses| - 1] == x then |uses| - 1
    else LastUse(uses[..|uses| - 1], x)
  }

  ghost predicate ByUse(lru: seq<nat>, uses: seq<nat>)
  {
    forall i, j :: 0 <= i < j < |lru| ==> LastUse(uses, lru[i]) < LastUse(uses, lru[j])
  }

  lemma LastUseMore(uses: seq<nat>, x: nat, y: nat)
    ensures LastUse(uses + [x], y) == if y == x then |uses| else LastUse(uses, y)
  {
    assert (uses + [x])[..|uses|] == uses;
  }

  lemma {:induction false} WithoutByUse(lru: seq<nat>, uses: seq<nat>, x: nat)
    requires ByUse(lru, uses)
    ensures ByUse(Without(lru, x), uses) && forall y :: y in Without(lru, x) ==> y in lru
  {
    if lru != [] {
      var r := lru[1..];
      assert forall i :: 0 <= i < |r| ==> r[i] == lru[i + 1];
      if lru[0] != x {
        WithoutByUse(r, uses, x);
        var w := Without(r, x);
        forall j | 0 <= j < |w| ensures LastUse(uses, lru[0]) < LastUse(uses, w[j]) {
          assert w[j] in r;
          var k :| 0 <= k < |r| && r[k] == w[j];
          assert lru[k + 1] == w[j];
        }
      }
    }
  }

  /** Taking a block moves it to the end. */
  lemma TakenByUse(lru: seq<nat>, uses: seq<nat>, x: nat)
    requires ByUse(lru, uses) && Distinct(lru)
    ensures ByUse(Without(lru, x) + [x], uses + [x])
  {
    WithoutByUse(lru, uses, x);
    WithoutExact(lru, x);
    var w := Without(lru, x) + [x];
    forall i, j | 0 <= i < j < |w| ensures LastUse(uses + [x], w[i]) < LastUse(uses + [x], w[j]) {
      assert w[i] in Without(lru, x);
      LastUseMore(uses, x, w[i]);
      LastUseMore(uses, x, w[j]);
    }
  }

  lemma {:induction false} ShrinkByUse(s: State, todo: seq<nat>, freed: nat, uses: seq<nat>)
    requires |s.buckets| == HASH_SIZE && ByUse(s.lru, uses)
    ensures ByUse(ShrinkPass(s, todo, freed).0.lru, uses)
    decreases |todo|
  {
    if todo == [] || freed >= s.cfg.shrinkSize {
    } else if todo[0] in s.blocks && Evictable(s.blocks[todo[0]]) {
      WithoutByUse(s.lru, uses, todo[0]);
      ShrinkByUse(Uncache(s, todo[0]), todo[1..], freed + s.cfg.blockSize, uses);
    } else {
      ShrinkByUse(s, todo[1..], freed, uses);
    }
  }

  lemma FindByUse(s: State, t: nat, uses: seq<nat>)
    requires Inv(s) && Shape(s) && GetEnabled(s, t, FindStep) && ByUse(s.lru, uses)
    ensures ByUse(GetNext(s, t, FindStep).lru, uses + Uses(s, Get(t, FindStep)))
  {
    var found := FindBlock(s, PcOf(s, t).sector);
    if found.Some? && found.value in s.blocks {
      TakenByUse(s.lru, uses, found.value);
    } else {
      assert uses + [] == uses;
      ShrinkByUse(s, s.lru, 0, uses);
    }
  }

  lemma InsertByUse(s: State, t: nat, uses: seq<nat>)
    requires Inv(s) && Shape(s) && GetEnabled(s, t, InsertStep) && ByUse(s.lru, uses)
    ensures ByUse(GetNext(s, t, InsertStep).lru, uses + Uses(s, Get(t, InsertStep)))
  {
    InsertTakes(s, t);
    TakenByUse(s.lru, uses, PcOf(GetNext(s, t, InsertStep), t).b);
  }

  /** Whichever block the second lookup comes to, it moves to the end. */
  lemma InsertTakes(s: State, t: nat)
    requires Inv(s) && Shape(s) && GetEnabled(s, t, InsertStep)
    ensures var s' := GetNext(s, t, InsertStep);
            PcOf(s', t).Got? && s'.lru == Without(s.lru, PcOf(s', t).b) + [PcOf(s', t).b]
  {
    var id := PcOf(s, t).new_;
    Facts(s, t, id);
    WithoutLast(s.lru, id);
  }

  lemma {:induction false} WithoutLast(lru: seq<nat>, x: nat)
    requires x !in lru
    ensures Without(lru + [x], x) == lru && Without(lru, x) == lru
  {
    if lru != [] {
      assert (lru + [x])[1..] == lru[1..] + [x];
      WithoutLast(lru[1..], x);
    }
  }

  lemma StepByUse(s: State, a: Act, uses: seq<nat>)
    requires Inv(s) && Shape(s) && Enabled(s, a) && ByUse(s.lru, uses)
    ensures ByUse(Next(s, a).lru, uses + Uses(s, a))
  {
    assert uses + [] == uses;
    if a.Get? && a.get.FindStep? {
      FindByUse(s, a.t, uses);
    } else if a.Get? && a.get.InsertStep? {
      InsertByUse(s, a.t, uses);
    } else if a.Oom? || a.SecondShrink? {
      ShrinkByUse(s, s.lru, if a.Oom? then 0 else PcOf(s, a.t).freed, uses);
    } else {
      SameLru(s, a);
    }
  }

  lemma SyncSameLru(s: State, t: nat, op: SyncOp)
    requires Shape(s) && SyncEnabled(s, t, op)
    ensures SyncStepNext(s, t, op).lru == s.lru
  {
  }

  lemma SameLru(s: State, a: Act)
    requires Shape(s) && Enabled(s, a) && !a.Oom? && !a.SecondShrink?
    requires a.Get? ==> !a.get.FindStep? && !a.get.InsertStep?
    ensures Next(s, a).lru == s.lru
  {
    if a.Sync? { SyncSameLru(s, a.t, a.sync); }
  }

  lemma {:induction false} RunByUse(s: State, acts: seq<Act>, uses: seq<nat>)
    requires Good(s) && Runs(s, acts) && ByUse(s.lru, uses)
    ensures ByUse(After(s, acts).lru, UsesOf(s, acts, uses))
    decreases |acts|
  {
    if acts != [] {
      StepKeeps(s, acts[0]);
      StepByUse(s, acts[0], uses);
      RunByUse(Next(s, acts[0]), acts[1..], uses + Uses(s, acts[0]));
    }
  }

  /** In every reachable state the LRU list is in the order in which its blocks were last looked up. */
  lemma LruIsByUse(s: State, acts: seq<Act>)
    requires Initial(s) && Runs(s, acts)
    ensures ByUse(After(s, acts).lru, UsesOf(s, acts, []))
  {
    InitialGood(s);
    RunByUse(s, acts, []);
  }

  // ---------------------------------------------------------------- first come, first served

  /** What the drive works on and what it has queued. */
  function Jobs(s: State): seq<nat>
  {
    (if s.current.Some? then [s.current.value] else []) + s.queue
  }

  lemma StartJobsInOrder(s: State)
    requires Sized(s) && forall q :: q in s.queue ==> q in s.blocks
    ensures Jobs(StartRequest(s)) == Jobs(s)
  {
    if s.current.None? && s.queue != [] { assert s.queue == [s.queue[0]] + s.queue[1..]; }
  }

  lemma SubmitInOrder(s: State, id: nat)
    requires Shape(s) && id in s.blocks
    ensures Jobs(SyncBlock(s, id)) == Jobs(s) || Jobs(SyncBlock(s, id)) == Jobs(s) + [id]
  {
    var b := s.blocks[id];
    if !(b.valid && !b.dirty) {
      var s1 := SetBlock(s, id, Ref1(b, Drive).(owner := Some(Drive))).(queue := s.queue + [id]);
      StartJobsInOrder(s1);
      assert Jobs(s1) == Jobs(s) + [id];
    }
  }

  lemma SyncInOrder(s: State, t: nat)
    requires Shape(s) && SyncEnabled(s, t, SyncSubmitStep)
    ensures var jobs, jobs' := Jobs(s), Jobs(SyncStepNext(s, t, SyncSubmitStep));
            jobs' == jobs || jobs' == jobs + [PcOf(s, t).todo[0]]
  {
    SubmitInOrder(s, PcOf(s, t).todo[0]);
  }

  lemma CompleteInOrder(s: State, id: nat)
    requires Sized(s) && id in s.blocks && s.current == Some(id) && forall q :: q in s.queue ==> q in s.blocks
    ensures Jobs(Complete(s, id)) == Jobs(s)[1..]
  {
    var s1 := SetBlock(s, id, Put(Unlock(s.blocks[id].(valid := true, dirty := false)), Drive)).(current := None);
    StartJobsInOrder(s1);
    assert Jobs(s1) == Jobs(s)[1..];
  }

  lemma InterruptInOrder(s: State)
    requires Shape(s) && IntrEnabled(s)
    ensures Jobs(Interrupt(s)) == Jobs(s) || Jobs(Interrupt(s)) == Jobs(s)[1..]
  {
    var id := s.current.value;
    if s.cfg.dma {
      CompleteInOrder(DmaTransfer(s, id), id);
    } else if !s.blocks[id].dirty {
      if PioRead(s, id).sectorsLeft == 0 { CompleteInOrder(PioRead(s, id), id); }
    } else if s.sectorsLeft == 0 {
      CompleteInOrder(s, id);
    }
  }

  /** Requests are served in the order they are made: a step adds one at the end, or is an interrupt that
      finishes the first. */
  lemma FirstComeFirstServed(s: State, a: Act)
    requires Good(s) && Shape(s) && Enabled(s, a)
    ensures var jobs, jobs' := Jobs(s), Jobs(Next(s, a));
            || jobs' == jobs
            || (a.Intr? && jobs != [] && jobs' == jobs[1..])
            || (!a.Intr? && |jobs'| == |jobs| + 1 && jobs'[..|jobs|] == jobs)
  {
    match a
    case Intr => InterruptInOrder(s);
    case Get(t, op) =>
      if op.SubmitStep? { SubmitInOrder(s, PcOf(s, t).b); } else { GetSteady(s, t, op); }
    case Sync(t, op) =>
      if op.SyncSubmitStep? { SyncInOrder(s, t); } else { SyncSteady(s, t, op); }
    case Oom(t) => ShrinksSteady(s, a);
    case SecondShrink(t) => ShrinksSteady(s, a);
    case _ =>
  }
}
