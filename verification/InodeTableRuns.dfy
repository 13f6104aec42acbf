/** Whole runs of the inode table. */
module InodeTableRuns {
  import opened Common
  import opened InodeTable
  import opened InodeTableInv
  import opened InodeTableLocal
  import opened InodeTableWork
  import opened InodeTableFree
  import opened InodeTableGet
  import opened InodeTableCollect

  /** The step is not the one that frees a bad inode other tasks still refer to. */
  predicate Allowed(s: State, a: Act)
    requires Enabled(s, a)
  {
    a.Get? && a.get.CheckStep? ==> var x := s.inodes[PcOf(s, a.t).i]; x.bad ==> x.ref == 1
  }

  // ---------------------------------------------------------------- one step

  lemma GetsKeep(s: State, t: nat, op: GetOp)
    requires Inv(s) && GetEnabled(s, t, op) && Allowed(s, Get(t, op))
    ensures Inv(GetNext(s, t, op))
  {
    match op
    case FindStep => FindKeeps(s, t);
    case WakeUp => GetMoves(s, t, op);
    case CreateStep(id, n) => CreateKeeps(s, t, id, n);
    case FoundStep => FoundKeeps(s, t);
    case WaitStep => GetMoves(s, t, op);
    case CheckStep => CheckKeeps(s, t);
    case ReadOk => ReadOkKeeps(s, t);
    case ReadFails => ReadFailsKeeps(s, t);
    case BadDeallocStep => BadDeallocKeeps(s, t);
  }

  lemma WorksKeep(s: State, t: nat, op: WorkOp)
    requires Inv(s) && WorkEnabled(s, t, op)
    ensures Inv(WorkNext(s, t, op))
  {
    match op
    case PutStep => PutKeeps(s, t);
    case WriteStep => WriteKeeps(s, t);
    case WriteWaitStep =>
      Facts(s, 0, t);
      WriteMoves(s, t, AfterWrite(PcOf(s, t).i, PcOf(s, t).wk));
    case CopyStep => CopyKeeps(s, t);
    case WriteDone => WriteDoneKeeps(s, t);
    case UncacheStep => UncacheKeeps(s, t);
    case DeallocStep => DeallocKeeps(s, t);
    case WakeStep => WakeKeeps(s, t);
  }

  lemma ClearsKeep(s: State, t: nat, op: ClearOp)
    requires Inv(s) && ClearEnabled(s, t, op)
    ensures Inv(ClearNext(s, t, op))
  {
    match op
    case ClearStep(id) => ClearStepKeeps(s, t, id);
    case ClearRoot => ClearRootKeeps(s, t);
    case ClearBusy => ClearRestKeeps(s, t, op);
    case ClearWakeUp => ClearRestKeeps(s, t, op);
  }

  /** Every step keeps the invariant. */
  lemma StepKeeps(s: State, a: Act)
    requires Inv(s) && Enabled(s, a) && Allowed(s, a)
    ensures Inv(Next(s, a))
  {
    match a
    case StartGet(t, sb, ino) =>
      Awake(s, t);
      MoveKeeps(s, t, GetFind(sb, ino, None));
    case Get(t, op) => GetsKeep(s, t, op);
    case Client(t, op) => ClientStep(s, t, op);
    case Work(t, op) => WorksKeep(s, t, op);
    case Clear(t, op) => ClearsKeep(s, t, op);
    case SyncCollect(t, only, wait) => SyncCollectKeeps(s, t, only, wait);
    case OomCollect(t) => OomCollectKeeps(s, t);
  }

  // ---------------------------------------------------------------- whole runs

  ghost predicate Runs(s: State, acts: seq<Act>)
    decreases |acts|
  {
    acts == [] || (Enabled(s, acts[0]) && Allowed(s, acts[0]) && Runs(Next(s, acts[0]), acts[1..]))
  }

  ghost function After(s: State, acts: seq<Act>): State
    requires Runs(s, acts)
    decreases |acts|
  {
    if acts == [] then s else After(Next(s, acts[0]), acts[1..])
  }

  lemma {:induction false} RunKeeps(s: State, acts: seq<Act>)
    requires Inv(s) && Runs(s, acts)
    ensures Inv(After(s, acts))
    decreases |acts|
  {
    if acts != [] {
      StepKeeps(s, acts[0]);
      RunKeeps(Next(s, acts[0]), acts[1..]);
    }
  }

  /** The table is empty and no task is at it. */
  predicate Initial(s: State)
  {
    && s.inodes == map[] && s.buckets == seq(HASH_SIZE, _ => []) && s.waiters == {}
    && forall t :: t in s.pcs ==> s.pcs[t].Idle?
  }

  lemma InitialInv(s: State)
    requires Initial(s)
    ensures Inv(s)
  {
    forall h: nat | h < HASH_SIZE ensures ChainOk(s, h) { }
  }

  /** In every reachable state: at most one inode per name in the table, and the lookup finds it; an inode
      being freed has no references and exactly one task to free it; a task that has come out of
      `inode_get` has a valid inode that is not being freed; an inode about to be deallocated is
      not marked dirty, unless it is unlinked; whatever a task refers to exists; and the reference count is
      the number of references held. (Whether an inode not marked dirty is on the disk: InodeTableSaved.) */
  lemma Reachable(s: State, acts: seq<Act>, i: nat, j: nat, t: nat, u: nat)
    requires Initial(s) && Runs(s, acts)
    ensures var s' := After(s, acts);
            && Inv(s')
            && (SameName(s', i, j) ==> i == j)
            && (i in s'.inodes && s'.inodes[i].hashed ==> Lookup(s', s'.inodes[i].sb, s'.inodes[i].ino) == Some(i))
            && (i in s'.inodes && s'.inodes[i].freeing ==>
                  s'.inodes[i].ref == 0 && s'.inodes[i].valid && s'.inodes[i].reaper.Some?)
            && (i in s'.inodes && Reaps(PcOf(s', t), i) && Reaps(PcOf(s', u), i) ==> t == u)
            && (i in s'.inodes && Syncs(PcOf(s', t), i) && Syncs(PcOf(s', u), i) ==> t == u)
            && (PcOf(s', t) == Held(i) ==>
                  i in s'.inodes && s'.inodes[i].valid && !s'.inodes[i].freeing && s'.inodes[i].ref > 0)
            && (PcOf(s', t).Dealloc? && PcOf(s', t).i == i ==>
                  i in s'.inodes && Disposable(s'.inodes[i]) && s'.inodes[i].ref == 0)
            && (Owed(PcOf(s', t), i) > 0 || Reaps(PcOf(s', t), i) || Owns(PcOf(s', t), i) ==> i in s'.inodes)
            && (i in s'.inodes ==>
                  s'.inodes[i].ref == |s'.inodes[i].holders| && s'.inodes[i].holders[t] == Owed(PcOf(s', t), i))
  {
    InitialInv(s);
    RunKeeps(s, acts);
    var s' := After(s, acts);
    Facts(s', i, t);
    Facts(s', i, u);
    if i in s'.inodes { LookupExact(s', s'.inodes[i].sb, s'.inodes[i].ino); }
  }

  /** Some run from the empty table ends in this state. */
  ghost predicate Reach(s: State)
  {
    exists s0: State, acts: seq<Act> :: Initial(s0) && Runs(s0, acts) && After(s0, acts) == s
  }

  lemma {:induction false} OneMoreStep(s0: State, acts: seq<Act>, a: Act)
    requires Runs(s0, acts) && Enabled(After(s0, acts), a) && Allowed(After(s0, acts), a)
    ensures Runs(s0, acts + [a]) && After(s0, acts + [a]) == Next(After(s0, acts), a)
    decreases |acts|
  {
    if acts == [] {
      assert acts + [a] == [a];
      assert Runs(Next(s0, a), []);
    } else {
      assert (acts + [a])[1..] == acts[1..] + [a];
      OneMoreStep(Next(s0, acts[0]), acts[1..], a);
    }
  }

  /** From a reachable state an allowed step leads to a reachable state. */
  lemma Onward(s: State, a: Act, s': State)
    requires Reach(s) && Enabled(s, a) && Allowed(s, a) && Next(s, a) == s'
    ensures Reach(s')
  {
    var s0: State, acts: seq<Act> :| Initial(s0) && Runs(s0, acts) && After(s0, acts) == s;
    OneMoreStep(s0, acts, a);
    assert Initial(s0) && Runs(s0, acts + [a]) && After(s0, acts + [a]) == s';
  }

  lemma ReachInv(s: State)
    requires Reach(s)
    ensures Inv(s)
  {
    var s0: State, acts: seq<Act> :| Initial(s0) && Runs(s0, acts) && After(s0, acts) == s;
    InitialInv(s0);
    RunKeeps(s0, acts);
  }

  // ---------------------------------------------------------------- freeing is final

  /** Once an inode is marked FREEING it stays so, in the same hands and without references, until it is
      deallocated. */
  lemma FreeingIsFinal(s: State, a: Act, i: nat)
    requires Inv(s) && Enabled(s, a) && Allowed(s, a) && i in s.inodes && s.inodes[i].freeing
    ensures var s' := Next(s, a);
            i in s'.inodes ==>
                s'.inodes[i].freeing && s'.inodes[i].ref == 0 && s'.inodes[i].reaper == s.inodes[i].reaper
  {
    StepKeeps(s, a);
    Facts(s, i, 0);
    Facts(Next(s, a), i, 0);
    match a
    case StartGet(t, sb, ino) =>
    case Get(t, op) => GetFinal(s, t, op, i);
    case Client(t, op) =>
    case Work(t, op) => WorkFinal(s, t, op, i);
    case Clear(t, op) => ClearFinal(s, t, op, i);
    case SyncCollect(t, only, wait) => SyncList(s, only);
    case OomCollect(t) => FreeList(s);
  }

  lemma GetFinal(s: State, t: nat, op: GetOp, i: nat)
    requires GetEnabled(s, t, op) && i in s.inodes && s.inodes[i].freeing
    ensures var s' := GetNext(s, t, op);
            i in s'.inodes ==> s'.inodes[i].freeing && s'.inodes[i].reaper == s.inodes[i].reaper
  {
  }

  lemma WorkFinal(s: State, t: nat, op: WorkOp, i: nat)
    requires WorkEnabled(s, t, op) && i in s.inodes && s.inodes[i].freeing
    ensures var s' := WorkNext(s, t, op);
            i in s'.inodes ==> s'.inodes[i].freeing && s'.inodes[i].reaper == s.inodes[i].reaper
  {
  }

  lemma ClearFinal(s: State, t: nat, op: ClearOp, i: nat)
    requires Inv(s) && ClearEnabled(s, t, op) && i in s.inodes && s.inodes[i].freeing
    ensures var s' := ClearNext(s, t, op);
            i in s'.inodes ==> s'.inodes[i].freeing && s'.inodes[i].reaper == s.inodes[i].reaper
  {
    Facts(s, i, t);
  }

  // ---------------------------------------------------------------- nobody waits for nothing

  predicate Blocked(s: State, t: nat)
  {
    var pc := PcOf(s, t);
    || t in s.waiters
    || (pc.GetWait? && !GetEnabled(s, t, WaitStep))
    || (pc.Write? && pc.stage.Waiting? && !WorkEnabled(s, t, WriteWaitStep))
  }

  /** The task that is freeing an inode always has a next step. */
  lemma ReaperRuns(s: State, i: nat) returns (a: Act)
    requires Inv(s) && i in s.inodes && s.inodes[i].freeing
    ensures a.Work? && s.inodes[i].reaper == Some(a.t) && Enabled(s, a)
  {
    Facts(s, i, 0);
    var u := s.inodes[i].reaper.value;
    Facts(s, i, u);
    var op := match PcOf(s, u)
      case Put(_, _) => PutStep
      case Write(_, stage, _) => (match stage case Test(_) => WriteStep case Copying => CopyStep case _ => WriteDone)
      case Uncache(_, _) => UncacheStep
      case Dealloc(_, _) => DeallocStep
      case _ => WakeStep;
    a := Work(u, op);
  }

  /** The step belongs to the task that task `t` waits for: the one that is freeing the inode it sleeps on or,
      once that is gone from the table, one that is about to wake the sleepers; the one that is reading the
      inode; or the one that is writing it. */
  predicate WaitedFor(s: State, t: nat, a: Act)
  {
    var pc := PcOf(s, t);
    if t in s.waiters then
      && a.Work? && AsleepOn(pc).Some?
      && var i := AsleepOn(pc).value;
         if StillFreeing(s, i) then i in s.inodes && s.inodes[i].reaper == Some(a.t)
         else Wakes(PcOf(s, a.t)) && (a.work.DeallocStep? || a.work.WakeStep?)
    else if pc.GetWait? then a.Get? && a.get.ReadOk? && pc.i in s.inodes && s.inodes[pc.i].filler == Some(a.t)
    else
      && a.Work? && (a.work.CopyStep? || a.work.WriteDone?)
      && pc.Write? && pc.i in s.inodes && s.inodes[pc.i].syncer == Some(a.t)
  }

  /** Whatever a task is blocked on, the task it waits for is another one and has a step to take that is not
      up to any client. */
  lemma NoDeadlock(s: State, t: nat) returns (a: Act)
    requires Inv(s) && Blocked(s, t)
    ensures Enabled(s, a) && a.t != t && WaitedFor(s, t, a)
  {
    var pc := PcOf(s, t);
    Facts(s, 0, t);
    if t in s.waiters {
      var i := AsleepOn(pc).value;
      if StillFreeing(s, i) {
        a := ReaperRuns(s, i);
        Facts(s, i, a.t);
        Facts(s, i, t);
      } else {
        var w: nat :| Wakes(PcOf(s, w));
        a := Work(w, if PcOf(s, w).Dealloc? then DeallocStep else WakeStep);
      }
    } else if pc.GetWait? {
      Facts(s, pc.i, t);
      var u := s.inodes[pc.i].filler.value;
      Facts(s, pc.i, u);
      a := Get(u, ReadOk);
    } else {
      Facts(s, pc.i, t);
      SyncerHolds(s, pc.i);
      var u := s.inodes[pc.i].syncer.value;
      a := Work(u, if PcOf(s, u).stage.Copying? then CopyStep else WriteDone);
    }
  }

  // ---------------------------------------------------------------- where the code falls short

  /** The task that gives up on a bad inode frees it even when others still refer to it: one of them is
      then left with a pointer to freed memory. */
  lemma FreedUnderHolder(s: State, t: nat) returns (u: nat)
    requires Inv(s) && GetEnabled(s, t, CheckStep) && !Allowed(s, Get(t, CheckStep))
    ensures var i, s1 := PcOf(s, t).i, GetNext(s, t, CheckStep);
            && GetEnabled(s1, t, BadDeallocStep)
            && var s2 := GetNext(s1, t, BadDeallocStep);
               u != t && Owed(PcOf(s2, u), i) > 0 && i !in s2.inodes && !RoleOk(s1, i, t)
  {
    var i := PcOf(s, t).i;
    Facts(s, i, t);
    var others := s.inodes[i].holders - multiset{t};
    assert |others| > 0;
    u :| u in others;
    Facts(s, i, u);
  }

  /** The invariant survives a step exactly when the step is allowed. */
  lemma AllowedIffKept(s: State, a: Act)
    requires Inv(s) && Enabled(s, a)
    ensures Inv(Next(s, a)) <==> Allowed(s, a)
  {
    if Allowed(s, a) {
      StepKeeps(s, a);
    } else {
      var u := FreedUnderHolder(s, a.t);
    }
  }
}
