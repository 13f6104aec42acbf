/** Which block a task comes to have: that of the sector it asked for, as its own calls say. */
module BlockCacheCalls {
  import opened Common
  import opened BlockCache
  import opened BlockCacheInv
  import opened BlockCacheClient
  import opened BlockCacheSteady
  import opened BlockCacheRuns
  import opened BlockCacheFlush
  import opened BlockCacheOrder

  // ---------------------------------------------------------------- calls, read off the steps

  /** What a task called last: it has asked for the block of a sector, or been given it by another, and not put it
      back; or it has called for a sync, or for a shrink. */
  datatype Call = Wants(sector: nat) | Syncing(wait: bool, recheck: bool) | Shrinking

  /** What the tasks have called, one step on. */
  function CallsNow(calls: map<nat, Call>, a: Act): map<nat, Call>
  {
    match a
    case StartGet(t, sector) => calls[t := Wants(sector)]
    case Client(t, ClientPut) => calls - {t}
    case Client(t, ClientDup(u)) => if t in calls then calls[u := calls[t]] else calls - {u}
    case StartSync(t, wait, recheck) => calls[t := Syncing(wait, recheck)]
    case Oom(t) => calls[t := Shrinking]
    case _ => calls
  }

  function CallsAfter(calls: map<nat, Call>, acts: seq<Act>): map<nat, Call>
    decreases |acts|
  {
    if acts == [] then calls else CallsAfter(CallsNow(calls, acts[0]), acts[1..])
  }

  // ---------------------------------------------------------------- where the calls lead

  predicate HasSector(s: State, b: nat, sector: nat)
  {
    b in s.blocks && s.blocks[b].sector == sector
  }

  /** The sync a task is in, if any. */
  function SyncOf(pc: Pc): Option<SyncArgs>
  {
    match pc
    case SyncWant(a) => Some(a)
    case SyncCollect(a) => Some(a)
    case SyncLock(_, _, a) => Some(a)
    case SyncSubmit(_, _, a) => Some(a)
    case SyncWait(_, a) => Some(a)
    case _ => None
  }

  /** The sync in the middle of a shrink that precedes `then_`. */
  predicate InShrink(pc: Pc, then_: Option<nat>)
  {
    || (pc.Shrink2? && pc.then_ == then_)
    || (SyncOf(pc).Some? && var a := SyncOf(pc).value; a.wait && a.recheck && a.k.SecondPass? && a.k.sector == then_)
  }

  /** A task that has called `block_get` is still at it, or has the block of that sector. */
  predicate HasCalled(s: State, pc: Pc, c: Call)
  {
    match c
    case Wants(k) => IsAfter(s, pc, k)
    case Syncing(wait, recheck) => pc.Idle? || SyncOf(pc) == Some(SyncArgs(wait, recheck, Return))
    case Shrinking => pc.Idle? || InShrink(pc, None)
  }

  predicate IsAfter(s: State, pc: Pc, k: nat)
  {
    match pc
    case Find(sector) => sector == k
    case Alloc(sector) => sector == k
    case Insert(sector, _) => sector == k
    case Got(b) => HasSector(s, b, k)
    case Check(b) => HasSector(s, b, k)
    case WantLock(b) => HasSector(s, b, k)
    case Submit(b) => HasSector(s, b, k)
    case WaitSync(b) => HasSector(s, b, k)
    case Ref(b) => HasSector(s, b, k)
    case Locked(b) => HasSector(s, b, k)
    case Written(b) => HasSector(s, b, k)
    case Clearing(b) => HasSector(s, b, k)
    case _ => InShrink(pc, Some(k))
  }

  predicate CallOk(s: State, t: nat, calls: map<nat, Call>)
  {
    if t in calls then HasCalled(s, PcOf(s, t), calls[t]) else PcOf(s, t).Idle?
  }

  ghost predicate CallsOk(s: State, calls: map<nat, Call>)
  {
    forall t: nat :: CallOk(s, t, calls)
  }

  // ---------------------------------------------------------------- other tasks' steps

  lemma GetSectors(s: State, t: nat, op: GetOp, id: nat)
    requires Shape(s) && GetEnabled(s, t, op)
    ensures SectorKept(s, GetNext(s, t, op), id)
  {
    if op.FindStep? {
      ShrinkLeaves(s, s.lru, 0, id);
    } else if op.InsertStep? {
      InsertLeaves(s, t, id);
    }
  }

  lemma SectorsKept(s: State, a: Act, id: nat)
    requires Shape(s) && Enabled(s, a)
    ensures SectorKept(s, Next(s, a), id)
  {
    match a
    case Get(t, op) => GetSectors(s, t, op, id);
    case Sync(t, op) => SyncLeaves(s, t, op, id);
    case Oom(_) => ShrinkLeaves(s, s.lru, 0, id);
    case SecondShrink(t) => ShrinkLeaves(s, s.lru, PcOf(s, t).freed, id);
    case Intr => IntrLeaves(s, id);
    case _ =>
  }

  lemma GetMovesOne(s: State, t: nat, op: GetOp, u: nat)
    requires Shape(s) && GetEnabled(s, t, op) && u != t
    ensures PcOf(GetNext(s, t, op), u) == PcOf(s, u)
  {
    if op.FindStep? { ShrinkLeaves(s, s.lru, 0, 0); }
  }

  lemma StaysPut(s: State, a: Act, u: nat)
    requires Shape(s) && Enabled(s, a) && (a.Intr? || a.t != u)
    requires !(a.Client? && a.client.ClientDup? && a.client.u == u)
    ensures PcOf(Next(s, a), u) == PcOf(s, u)
  {
    match a
    case Get(t, op) => GetMovesOne(s, t, op, u);
    case Sync(t, op) => SyncMovesOne(s, t, op, u);
    case Oom(_) => ShrinkLeaves(s, s.lru, 0, 0);
    case SecondShrink(t) => ShrinkLeaves(s, s.lru, PcOf(s, t).freed, 0);
    case Intr => IntrLeaves(s, 0);
    case _ =>
  }

  /** The block that `IsAfter` speaks of. */
  function Mine(pc: Pc): Option<nat>
  {
    match pc
    case Got(b) => Some(b)
    case Check(b) => Some(b)
    case WantLock(b) => Some(b)
    case Submit(b) => Some(b)
    case WaitSync(b) => Some(b)
    case Ref(b) => Some(b)
    case Locked(b) => Some(b)
    case Written(b) => Some(b)
    case Clearing(b) => Some(b)
    case _ => None
  }

  /** A step that does not move task `t` leaves its call as it is. */
  lemma OtherCall(s: State, s': State, t: nat, c: Call)
    requires Inv(s) && Inv(s') && PcOf(s', t) == PcOf(s, t) && HasCalled(s, PcOf(s, t), c)
    requires forall id: nat :: SectorKept(s, s', id)
    ensures HasCalled(s', PcOf(s', t), c)
  {
    if Mine(PcOf(s, t)).Some? {
      var b := Mine(PcOf(s, t)).value;
      Facts(s, t, b);
      Facts(s', t, b);
      assert SectorKept(s, s', b);
    }
  }

  // ---------------------------------------------------------------- a task's own steps

  lemma FindCall(s: State, t: nat, k: nat)
    requires Inv(s) && Shape(s) && GetEnabled(s, t, FindStep) && IsAfter(s, PcOf(s, t), k)
    ensures var s' := GetNext(s, t, FindStep); IsAfter(s', PcOf(s', t), k)
  {
    FindExact(s, k);
    ShrinkLeaves(s, s.lru, 0, 0);
  }

  lemma InsertCall(s: State, t: nat, k: nat)
    requires Inv(s) && Shape(s) && GetEnabled(s, t, InsertStep) && IsAfter(s, PcOf(s, t), k)
    ensures var s' := GetNext(s, t, InsertStep); IsAfter(s', PcOf(s', t), k)
  {
    FindExact(s, k);
    Facts(s, t, PcOf(s, t).new_);
  }

  lemma SubmitCall(s: State, t: nat, k: nat)
    requires Inv(s) && Shape(s) && GetEnabled(s, t, SubmitStep) && IsAfter(s, PcOf(s, t), k)
    ensures var s' := GetNext(s, t, SubmitStep); IsAfter(s', PcOf(s', t), k)
  {
  }

  lemma GetCall(s: State, t: nat, op: GetOp, k: nat)
    requires Inv(s) && Shape(s) && GetEnabled(s, t, op) && IsAfter(s, PcOf(s, t), k)
    ensures var s' := GetNext(s, t, op); IsAfter(s', PcOf(s', t), k)
  {
    match op
    case FindStep => FindCall(s, t, k);
    case InsertStep => InsertCall(s, t, k);
    case SubmitStep => SubmitCall(s, t, k);
    case _ =>
  }

  lemma ClientCall(s: State, t: nat, op: ClientOp, k: nat)
    requires ClientEnabled(s, t, op) && IsAfter(s, PcOf(s, t), k) && !op.ClientPut?
    ensures var s' := ClientNext(s, t, op);
            IsAfter(s', PcOf(s', t), k) && (op.ClientDup? ==> IsAfter(s', PcOf(s', op.u), k))
  {
  }

  /** A step of a sync goes on with the same call, or ends it. */
  lemma SyncCall(s: State, t: nat, op: SyncOp)
    requires Shape(s) && SyncEnabled(s, t, op)
    ensures var pc, pc' := PcOf(s, t), PcOf(SyncStepNext(s, t, op), t);
            && SyncOf(pc).Some?
            && (SyncOf(pc') == SyncOf(pc) || (SyncOf(pc').None? && pc' == AfterSync(SyncOf(pc).value.k)))
  {
  }

  lemma ZeroCall(s: State, t: nat, op: ZeroOp, k: nat)
    requires ZeroEnabled(s, t, op) && IsAfter(s, PcOf(s, t), k)
    ensures var s' := ZeroNext(s, t, op); IsAfter(s', PcOf(s', t), k)
  {
  }

  lemma OomCall(s: State, t: nat)
    requires |s.buckets| == HASH_SIZE && PcOf(s, t).Idle?
    ensures HasCalled(ShrinkStep(s, t, None), PcOf(ShrinkStep(s, t, None), t), Shrinking)
  {
  }

  lemma SecondCall(s: State, t: nat, c: Call)
    requires Shape(s) && Enabled(s, SecondShrink(t)) && HasCalled(s, PcOf(s, t), c)
    ensures HasCalled(Next(s, SecondShrink(t)), PcOf(Next(s, SecondShrink(t)), t), c)
  {
  }

  lemma SyncsCall(s: State, t: nat, op: SyncOp, c: Call)
    requires Shape(s) && SyncEnabled(s, t, op) && HasCalled(s, PcOf(s, t), c)
    ensures var s' := SyncStepNext(s, t, op); HasCalled(s', PcOf(s', t), c)
  {
    SyncCall(s, t, op);
  }

  lemma OwnCall(s: State, a: Act, calls: map<nat, Call>)
    requires Inv(s) && Shape(s) && Enabled(s, a) && !a.Intr? && CallOk(s, a.t, calls)
    ensures CallOk(Next(s, a), a.t, CallsNow(calls, a))
  {
    match a
    case StartGet(t, sector) =>
    case Get(t, op) => GetCall(s, t, op, calls[t].sector);
    case Client(t, op) => if !op.ClientPut? { ClientCall(s, t, op, calls[t].sector); }
    case Zero(t, op) => ZeroCall(s, t, op, calls[t].sector);
    case StartSync(t, wait, recheck) =>
    case Sync(t, op) => SyncsCall(s, t, op, calls[t]);
    case Oom(t) => OomCall(s, t);
    case SecondShrink(t) => SecondCall(s, t, calls[t]);
  }

  /** A step of another task or of the drive. */
  lemma OthersCall(s: State, a: Act, calls: map<nat, Call>, u: nat)
    requires Inv(s) && Shape(s) && Enabled(s, a) && Inv(Next(s, a)) && CallsOk(s, calls) && (a.Intr? || u != a.t)
    ensures CallOk(Next(s, a), u, CallsNow(calls, a))
  {
    var s' := Next(s, a);
    assert CallOk(s, u, calls);
    if a.Client? && a.client.ClientDup? && a.client.u == u {
      assert CallOk(s, a.t, calls);
      ClientCall(s, a.t, a.client, calls[a.t].sector);
    } else {
      StaysPut(s, a, u);
      forall id: nat ensures SectorKept(s, s', id) { SectorsKept(s, a, id); }
      if u in calls { OtherCall(s, s', u, calls[u]); }
    }
  }

  lemma {:induction false} CallsKept(s: State, acts: seq<Act>, calls: map<nat, Call>)
    requires Good(s) && Runs(s, acts) && CallsOk(s, calls)
    ensures CallsOk(After(s, acts), CallsAfter(calls, acts))
    decreases |acts|
  {
    if acts != [] {
      var a := acts[0];
      StepKeeps(s, a);
      forall t: nat ensures CallOk(Next(s, a), t, CallsNow(calls, a)) {
        assert CallOk(s, t, calls);
        if !a.Intr? && t == a.t { OwnCall(s, a, calls); } else { OthersCall(s, a, calls, t); }
      }
      CallsKept(Next(s, a), acts[1..], CallsNow(calls, a));
    }
  }

  /** In every run from the empty cache, through shrinks and the second lookup: a task that has called `block_get`
      is still at it or has a block of the sector it asked for; and a task has a block only by having asked for
      it or having been given it by one that had. */
  lemma GetsWhatItAskedFor(s: State, acts: seq<Act>, t: nat)
    requires Initial(s) && Runs(s, acts)
    ensures CallOk(After(s, acts), t, CallsAfter(map[], acts))
    ensures var pc, calls := PcOf(After(s, acts), t), CallsAfter(map[], acts);
            Mine(pc).Some? ==>
              t in calls && calls[t].Wants? && HasSector(After(s, acts), Mine(pc).value, calls[t].sector)
  {
    InitialGood(s);
    CallsKept(s, acts, map[]);
    assert CallOk(After(s, acts), t, CallsAfter(map[], acts));
  }

  /** What a client reads is the contents of the sector it asked for, and what it writes, or clears, becomes them. */
  lemma EventsAreOfAsked(s: State, acts: seq<Act>, a: Act)
    requires Initial(s) && Runs(s, acts) && Enabled(After(s, acts), a) && (a.Client? || a.Zero?)
    ensures Good(After(s, acts))
    ensures var s', calls := After(s, acts), CallsAfter(map[], acts);
            && a.t in calls && calls[a.t].Wants?
            && var k, e := calls[a.t].sector, EventOf(s', a);
               && (a.Client? && a.client.ClientRead? ==> e == Read(k, Logical(s', k)))
               && (a.Client? && a.client.ClientWrite? ==> e == Write(k, a.client.data))
               && (a.Zero? && a.zero.ZeroClear? ==> e == Write(k, seq(s'.cfg.n, _ => 0)))
  {
    CacheIsDisk(s, acts);
    GetsWhatItAskedFor(s, acts, a.t);
    var s' := After(s, acts);
    if a.Client? && a.client.ClientRead? { ClientReads(s', a.t); }
  }

  /** A sector that is cached is found at once, and a block that is valid is returned without waiting, even for
      its lock, and without the drive. */
  lemma CachedIsImmediate(s: State, t: nat, id: nat)
    requires Inv(s) && Shape(s) && id in s.lru && id in s.blocks
    requires PcOf(s, t) == Find(s.blocks[id].sector)
    ensures var s1 := GetNext(s, t, FindStep);
            && Shape(s1) && PcOf(s1, t) == Got(id) && id in s1.blocks && Jobs(s1) == Jobs(s)
            && (s.blocks[id].valid ==>
                  GetEnabled(s1, t, GotStep) && GetNext(s1, t, GotStep) == SetPc(s1, t, Ref(id)))
  {
    FindExact(s, s.blocks[id].sector);
    var s1 := GetNext(s, t, FindStep);
    forall q | q in s1.queue ensures q in s1.blocks { assert q in s.queue; }
  }

  /** A block that was found not valid and has become valid since is not read again, unless it is locked. */
  lemma ValidIsNotRead(s: State, t: nat)
    requires GetEnabled(s, t, CheckStep) && Shape(s) && s.blocks[PcOf(s, t).b].valid
    ensures var s' := GetNext(s, t, CheckStep);
            PcOf(s', t) == if s.blocks[PcOf(s, t).b].locked then WaitSync(PcOf(s, t).b) else Ref(PcOf(s, t).b)
  {
  }

  /** A call looks its sector up once: after a shrink, however much it freed, it goes on to allocate. */
  lemma LooksOnce(s: State, a: Act, t: nat)
    requires Shape(s) && Enabled(s, a)
    ensures PcOf(Next(s, a), t).Find? ==> PcOf(s, t).Find? || (a.StartGet? && a.t == t)
  {
    if a.Client? && a.client.ClientDup? && a.client.u == t {
    } else if a.Intr? || a.t != t {
      StaysPut(s, a, t);
    } else if a.Sync? {
      SyncCall(s, t, a.sync);
    }
  }
}
