/** Whole runs of the block cache: whatever the interleaving, it is a flat disk. */
module BlockCacheRuns {
  import opened Common
  import opened BlockCache
  import opened BlockCacheInv
  import opened BlockCacheClient
  import opened BlockCacheIndex
  import opened BlockCacheDrive
  import opened BlockCacheSync
  import opened BlockCacheCollect
  import opened BlockCacheSteady

  lemma InvShape(s: State)
    requires Inv(s)
    ensures Shape(s)
  {
    forall q | q in s.queue ensures q in s.blocks { Facts(s, 0, q); }
  }

  /** The step is not the early continue of a waiting `block_sync_all`, which drops a reference twice. */
  predicate SyncAllowed(s: State, a: Act)
  {
    !(a.Sync? && a.sync.SyncSubmitStep? && EarlyContinue(s, a.t) && PcOf(s, a.t).a.wait)
  }

  /** The step does not mark a cleared block synced, or the disk has the zeros already. */
  predicate ZeroAllowed(s: State, a: Act)
    requires Enabled(s, a)
  {
    a.Zero? && a.zero == ZeroClear(false) ==>
      var k := s.blocks[PcOf(s, a.t).b].sector; k in s.disk && s.disk[k] == Zeros(s)
  }

  predicate Allowed(s: State, a: Act)
    requires Enabled(s, a)
  {
    SyncAllowed(s, a) && ZeroAllowed(s, a)
  }

  // ---------------------------------------------------------------- one step

  lemma PlainKeeps(s: State, a: Act)
    requires Good(s) && Shape(s) && Enabled(s, a) && (a.StartGet? || a.StartSync?)
    ensures Good(Next(s, a)) && Shows(s, Silent, Next(s, a))
  {
    var s' := Next(s, a);
    Facts(s, a.t, 0);
    assert s' == SetPc(s, a.t, PcOf(s', a.t)).(syncMutex := s.syncMutex);
    MoveKeeps(s, a.t, PcOf(s', a.t), s.syncMutex);
  }

  lemma ShrinksKeep(s: State, a: Act)
    requires Good(s) && Shape(s) && Enabled(s, a) && (a.Oom? || a.SecondShrink?)
    ensures Good(Next(s, a)) && Shows(s, Silent, Next(s, a))
  {
    ShrinksSteady(s, a);
    if a.Oom? {
      ShrinkStepKeeps(s, a.t, None);
    } else {
      var Shrink2(freed, then_) := PcOf(s, a.t);
      ShrinkKeeps(s, s.lru, freed);
      var s1 := ShrinkPass(s, s.lru, freed).0;
      Facts(s1, a.t, 0);
      assert Next(s, a) == SetPc(s1, a.t, AfterShrink(then_)).(syncMutex := s1.syncMutex);
      MoveKeeps(s1, a.t, AfterShrink(then_), s1.syncMutex);
    }
    SteadyServes(s, Next(s, a));
  }

  lemma GetsKeep(s: State, t: nat, op: GetOp)
    requires Good(s) && Shape(s) && GetEnabled(s, t, op)
    ensures Good(GetNext(s, t, op)) && Shows(s, Silent, GetNext(s, t, op))
  {
    GetStep(s, t, op);
    if op.SubmitStep? {
      GetSubmits(s, t);
    } else {
      GetSteady(s, t, op);
      SteadyServes(s, GetNext(s, t, op));
    }
  }

  lemma SyncsKeep(s: State, t: nat, op: SyncOp)
    requires Good(s) && Shape(s) && SyncEnabled(s, t, op) && Allowed(s, Sync(t, op))
    ensures Good(SyncStepNext(s, t, op)) && Shows(s, Silent, SyncStepNext(s, t, op))
  {
    SyncStep(s, t, op);
    if op.SyncSubmitStep? {
      SyncSubmits(s, t);
    } else {
      SyncSteady(s, t, op);
      SteadyServes(s, SyncStepNext(s, t, op));
    }
  }

  lemma ClientsKeep(s: State, t: nat, op: ClientOp)
    requires Good(s) && ClientEnabled(s, t, op)
    ensures Good(ClientNext(s, t, op)) && Shows(s, EventOf(s, Client(t, op)), ClientNext(s, t, op))
  {
    ClientStep(s, t, op);
    ClientSteady(s, t, op);
    SteadyServes(s, ClientNext(s, t, op));
  }

  lemma ZerosKeep(s: State, t: nat, op: ZeroOp)
    requires Good(s) && ZeroEnabled(s, t, op) && Allowed(s, Zero(t, op))
    ensures Good(ZeroNext(s, t, op)) && Shows(s, EventOf(s, Zero(t, op)), ZeroNext(s, t, op))
  {
    if op.ZeroLock? { ZeroLocks(s, t); } else { ZeroClears(s, t, op.dirty); }
    ZeroSteady(s, t, op);
    SteadyServes(s, ZeroNext(s, t, op));
  }

  /** Every step keeps the invariant and looks to the outside like the flat disk's step. */
  lemma StepKeeps(s: State, a: Act)
    requires Good(s) && Enabled(s, a) && Allowed(s, a)
    ensures Shape(s) && Good(Next(s, a)) && Shows(s, EventOf(s, a), Next(s, a))
  {
    InvShape(s);
    match a
    case StartGet(_, _) => PlainKeeps(s, a);
    case Get(t, op) => GetsKeep(s, t, op);
    case Client(t, op) => ClientsKeep(s, t, op);
    case Zero(t, op) => ZerosKeep(s, t, op);
    case StartSync(_, _, _) => PlainKeeps(s, a);
    case Sync(t, op) => SyncsKeep(s, t, op);
    case Oom(_) => ShrinksKeep(s, a);
    case SecondShrink(_) => ShrinksKeep(s, a);
    case Intr => InterruptKeeps(s);
  }

  // ---------------------------------------------------------------- whole runs

  /** `acts` can be taken one after the other. */
  ghost predicate Runs(s: State, acts: seq<Act>)
    decreases |acts|
  {
    acts == [] || (Shape(s) && Enabled(s, acts[0]) && Allowed(s, acts[0]) && Runs(Next(s, acts[0]), acts[1..]))
  }

  ghost function After(s: State, acts: seq<Act>): State
    requires Runs(s, acts)
    decreases |acts|
  {
    if acts == [] then s else After(Next(s, acts[0]), acts[1..])
  }

  /** What clients see of a run. */
  ghost function Trace(s: State, acts: seq<Act>): seq<Event>
    requires Runs(s, acts)
    decreases |acts|
  {
    if acts == [] then [] else [EventOf(s, acts[0])] + Trace(Next(s, acts[0]), acts[1..])
  }

  /** A flat disk takes `es` from contents `d` to contents `d'`: reads return what was last written. */
  ghost predicate Flat(d: imap<nat, Data>, es: seq<Event>, d': imap<nat, Data>)
    requires forall k: nat :: k in d
    decreases |es|
  {
    if es == [] then d == d'
    else match es[0]
      case Silent => Flat(d, es[1..], d')
      case Read(k, x) => d[k] == x && Flat(d, es[1..], d')
      case Write(k, x) => Flat(d[k := x], es[1..], d')
  }

  ghost function Contents(s: State): (d: imap<nat, Data>)
    requires Inv(s)
    ensures forall k: nat :: k in d && d[k] == Logical(s, k)
  {
    imap k: nat :: Logical(s, k)
  }

  /** Refinement: every run of the cache, by any number of tasks and with any drive timing, is a run of
      a flat disk on which only client writes change anything and every read sees the latest write. */
  lemma {:induction false} RunIsFlat(s: State, acts: seq<Act>)
    requires Good(s) && Runs(s, acts)
    ensures Good(After(s, acts))
    ensures Flat(Contents(s), Trace(s, acts), Contents(After(s, acts)))
    decreases |acts|
  {
    if acts != [] {
      StepKeeps(s, acts[0]);
      var s1, e := Next(s, acts[0]), EventOf(s, acts[0]);
      RunIsFlat(s1, acts[1..]);
      var es := Trace(s, acts);
      assert es[0] == e && es[1..] == Trace(s1, acts[1..]);
      ContentsStep(s, e, s1);
    }
  }

  lemma ContentsStep(s: State, e: Event, s': State)
    requires Inv(s) && Inv(s') && Shows(s, e, s')
    ensures Contents(s') == if e.Write? then Contents(s)[e.sector := e.data] else Contents(s)
  {
  }

  /** The empty cache over a disk. */
  ghost predicate Initial(s: State)
  {
    && Sized(s) && s.blocks == map[] && s.buckets == seq(HASH_SIZE, _ => []) && s.lru == [] && s.cacheSize == 0
    && s.queue == [] && s.current.None? && s.syncMutex.None? && (forall t :: t in s.pcs ==> s.pcs[t].Idle?)
  }

  lemma InitialGood(s: State)
    requires Initial(s)
    ensures Good(s) && forall k: nat :: Logical(s, k) == s.disk[k]
  {
    forall k: nat | k < HASH_SIZE ensures ChainOk(s, k) { }
    forall k: nat ensures Logical(s, k) == s.disk[k] { FindExact(s, k); }
  }

  /** From an empty cache: reads and writes behave as on the disk itself. */
  lemma CacheIsDisk(s: State, acts: seq<Act>)
    requires Initial(s) && Runs(s, acts)
    ensures Good(After(s, acts)) && Flat(s.disk, Trace(s, acts), Contents(After(s, acts)))
  {
    InitialGood(s);
    RunIsFlat(s, acts);
    assert Contents(s) == s.disk;
  }

  /** In every reachable state: one cached block per sector and it is in its hash chain; the lock of a
      block has one holder; a clean block that nobody is writing equals the disk; a task that has come out
      of `block_get` has a valid block; and every reference counted is held by somebody. */
  lemma Reachable(s: State, acts: seq<Act>, i: nat, j: nat, t: nat, u: nat)
    requires Initial(s) && Runs(s, acts)
    ensures Good(After(s, acts))
    ensures var s' := After(s, acts);
            && (i in s'.lru && j in s'.lru && SameSector(s', i, j) ==> i == j)
            && (i in s'.lru ==> CachedOk(s', i) && i in s'.blocks)
            && s'.cacheSize == |s'.lru| * s'.cfg.blockSize
            && (HasLock(PcOf(s', t), i) && HasLock(PcOf(s', u), i) && i in s'.blocks ==> t == u)
            && (i in s'.blocks && s'.blocks[i].valid && !s'.blocks[i].dirty && !BeingWritten(s', i) ==>
                  s'.blocks[i].data == s'.disk[s'.blocks[i].sector])
            && (PcOf(s', t) == Ref(i) ==> i in s'.blocks && s'.blocks[i].valid && s'.blocks[i].refs > 0)
            && (Owed(PcOf(s', t), i) > 0 ==> i in s'.blocks && s'.blocks[i].refs > 0)
  {
    CacheIsDisk(s, acts);
    var s' := After(s, acts);
    Facts(s', t, i);
    Facts(s', u, i);
    if Owed(PcOf(s', t), i) > 0 { assert Task(t) in s'.blocks[i].holders; }
  }

  /** The step waits for the lock of a block, or for the sync mutex. */
  predicate NeedsLock(a: Act)
  {
    match a
    case Get(_, op) => op.LockStep? || op.WaitStep?
    case Client(_, op) => op.ClientLock?
    case Zero(_, op) => op.ZeroLock?
    case Sync(_, op) => op.SyncEnter? || op.SyncLockStep? || op.SyncWaitStep?
    case _ => false
  }

  /** No lock is left behind: whoever holds the lock of a block, task or drive, has a step to take that
      needs no other lock. */
  lemma LockHolderMoves(s: State, id: nat) returns (a: Act)
    requires Good(s) && id in s.blocks && s.blocks[id].locked
    ensures Enabled(s, a) && !NeedsLock(a) && s.blocks[id].owner.Some?
    ensures match s.blocks[id].owner.value
            case Drive => a.Intr?
            case Task(t) => (a.Get? || a.Client? || a.Zero? || a.Sync?) && a.t == t
  {
    Facts(s, 0, id);
    match s.blocks[id].owner.value
    case Drive => a := Intr;
    case Task(t) =>
      Facts(s, t, id);
      a := match PcOf(s, t)
        case Submit(_) => Get(t, SubmitStep)
        case Locked(_) => Client(t, ClientUnlock)
        case Written(_) => Client(t, ClientMarkDirty)
        case Clearing(_) => Zero(t, ZeroClear(false))
        case _ => Sync(t, SyncSubmitStep);
  }

  // ---------------------------------------------------------------- where the code falls short

  /** The excluded steps are exactly those that break the invariant: after the early continue of a waiting
      sync the task still has the block on its list but no longer a reference to it, and a cleared block
      marked synced is clean but differs from the disk. */
  lemma AllowedIffKept(s: State, a: Act)
    requires Good(s) && Shape(s) && Enabled(s, a)
    ensures Inv(Next(s, a)) <==> Allowed(s, a)
  {
    if Allowed(s, a) {
      StepKeeps(s, a);
    } else if SyncAllowed(s, a) {
      UnwrittenBreaks(s, a.t);
    } else {
      DoublePut(s, a.t);
    }
  }

  /** Were the cleared block marked dirty, clearing would never be an excluded step: only a waiting sync's
      early continue could stop a run from being one of a flat disk. */
  lemma ClearedDirtyIsFlat(s: State, acts: seq<Act>)
    requires Initial(s) && SyncRuns(s, acts) && forall a :: a in acts && a.Zero? ==> a.zero != ZeroClear(false)
    ensures Runs(s, acts) && Good(After(s, acts)) && Flat(s.disk, Trace(s, acts), Contents(After(s, acts)))
  {
    SyncRunsRun(s, acts);
    CacheIsDisk(s, acts);
  }

  /** A run without the early continue. */
  ghost predicate SyncRuns(s: State, acts: seq<Act>)
    decreases |acts|
  {
    acts == [] || (Shape(s) && Enabled(s, acts[0]) && SyncAllowed(s, acts[0]) && SyncRuns(Next(s, acts[0]), acts[1..]))
  }

  lemma {:induction false} SyncRunsRun(s: State, acts: seq<Act>)
    requires SyncRuns(s, acts) && forall a :: a in acts && a.Zero? ==> a.zero != ZeroClear(false)
    ensures Runs(s, acts)
    decreases |acts|
  {
    if acts != [] {
      assert acts[0] in acts;
      SyncRunsRun(Next(s, acts[0]), acts[1..]);
    }
  }

  lemma DoublePut(s: State, t: nat)
    requires Inv(s) && Shape(s) && SyncEnabled(s, t, SyncSubmitStep) && EarlyContinue(s, t) && PcOf(s, t).a.wait
    ensures var s', id := SyncStepNext(s, t, SyncSubmitStep), PcOf(s, t).todo[0];
            id in PcOf(s', t).waits && s'.blocks[id].holders[Task(t)] == 0 && !RefOk(s', id, t)
  {
    var SyncSubmit(todo, waits, a) := PcOf(s, t);
    Facts(s, t, todo[0]);
    ListStep(todo, waits, a);
  }
}
