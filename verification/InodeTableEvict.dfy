/** That what is to be freed is freed: unlinked inodes by their last put, and whatever is marked FREEING by the task
    that marked it. */
module InodeTableEvict {
  import opened Common
  import opened InodeTable
  import opened InodeTableInv
  import opened InodeTableCollect
  import opened InodeTableRuns

  // ---------------------------------------------------------------- unlinked inodes

  /** An inode without links that nobody refers to is being freed. */
  predicate Evicted(s: State, i: nat)
  {
    i in s.inodes && s.inodes[i].hashed && s.inodes[i].valid && s.inodes[i].ref == 0 && s.inodes[i].nlinks == 0 ==>
      s.inodes[i].freeing
  }

  lemma GetEvicts(s: State, t: nat, op: GetOp, i: nat)
    requires Inv(s) && GetEnabled(s, t, op) && Evicted(s, i) && Inv(GetNext(s, t, op))
    ensures Evicted(GetNext(s, t, op), i)
  {
    Facts(s, i, t);
    Facts(GetNext(s, t, op), i, t);
    if op.FindStep? && PcOf(s, t).new_.Some? { Facts(s, PcOf(s, t).new_.value, t); }
  }

  lemma WorkEvicts(s: State, t: nat, op: WorkOp, i: nat)
    requires WorkEnabled(s, t, op) && Evicted(s, i)
    ensures Evicted(WorkNext(s, t, op), i)
  {
  }

  lemma ClientEvicts(s: State, t: nat, op: ClientOp, i: nat)
    requires Inv(s) && ClientEnabled(s, t, op) && Evicted(s, i) && Inv(ClientNext(s, t, op))
    ensures Evicted(ClientNext(s, t, op), i)
  {
    var s' := ClientNext(s, t, op);
    Facts(s, i, t);
    Facts(s', i, t);
    if i in s'.inodes && op.Change? && i == PcOf(s, t).i { assert s'.inodes[i].holders[t] > 0; }
  }

  lemma StepEvicts(s: State, a: Act, i: nat)
    requires Inv(s) && Enabled(s, a) && Allowed(s, a) && Inv(Next(s, a)) && Evicted(s, i)
    ensures Evicted(Next(s, a), i)
  {
    match a
    case StartGet(t, sb, ino) =>
    case Get(t, op) => GetEvicts(s, t, op, i);
    case Client(t, op) => ClientEvicts(s, t, op, i);
    case Work(t, op) => WorkEvicts(s, t, op, i);
    case Clear(t, op) =>
    case SyncCollect(t, only, wait) => Facts(s, i, t);
    case OomCollect(t) =>
  }

  /** In every reachable state, an inode in the table that has been read, has no links and is referred to by
      nobody is being freed: the last put starts it. */
  lemma {:induction false} UnlinkedGo(s: State, acts: seq<Act>, i: nat)
    requires Inv(s) && Runs(s, acts) && Evicted(s, i)
    ensures Evicted(After(s, acts), i)
    decreases |acts|
  {
    if acts != [] {
      StepKeeps(s, acts[0]);
      StepEvicts(s, acts[0], i);
      UnlinkedGo(Next(s, acts[0]), acts[1..], i);
    }
  }

  lemma UnlinkedAreFreed(s: State, acts: seq<Act>, i: nat)
    requires Initial(s) && Runs(s, acts)
    ensures var s' := After(s, acts);
            i in s'.inodes && s'.inodes[i].hashed && s'.inodes[i].valid && s'.inodes[i].nlinks == 0 ==>
              s'.inodes[i].ref > 0 || s'.inodes[i].freeing
  {
    InitialInv(s);
    UnlinkedGo(s, acts, i);
    RunKeeps(s, acts);
    Facts(After(s, acts), i, 0);
  }

  // ---------------------------------------------------------------- the end of freeing

  /** At some point of the run the inode does not exist. */
  ghost predicate GoesAway(s: State, acts: seq<Act>, i: nat)
    requires Runs(s, acts)
    decreases |acts|
  {
    i !in s.inodes || (acts != [] && GoesAway(Next(s, acts[0]), acts[1..], i))
  }

  /** By the time the task that marked an inode FREEING is idle again, the inode has been deallocated. */
  lemma {:induction false} FreedByThen(s: State, acts: seq<Act>, t: nat, i: nat)
    requires Inv(s) && Runs(s, acts) && i in s.inodes && s.inodes[i].freeing && s.inodes[i].reaper == Some(t)
    requires PcOf(After(s, acts), t).Idle?
    ensures GoesAway(s, acts, i)
    decreases |acts|
  {
    Facts(s, i, t);
    if acts != [] {
      StepKeeps(s, acts[0]);
      FreeingIsFinal(s, acts[0], i);
      var s1 := Next(s, acts[0]);
      if i in s1.inodes { FreedByThen(s1, acts[1..], t, i); }
    }
  }

  /** `inode_oom`: by the time it returns, every inode that had been read, that nobody referred to and nobody else
      was freeing has been deallocated. */
  lemma OomFrees(s: State, t: nat, acts: seq<Act>, i: nat)
    requires Inv(s) && Enabled(s, OomCollect(t)) && Runs(Next(s, OomCollect(t)), acts)
    requires PcOf(After(Next(s, OomCollect(t)), acts), t).Idle?
    requires i in s.inodes && s.inodes[i].hashed && s.inodes[i].ref == 0 && s.inodes[i].valid && !s.inodes[i].freeing
    ensures GoesAway(Next(s, OomCollect(t)), acts, i)
  {
    StepKeeps(s, OomCollect(t));
    FreeList(s);
    FreedByThen(Next(s, OomCollect(t)), acts, t, i);
  }

  /** `inode_put`: the last put of an unlinked inode does not return before it is deallocated. */
  lemma LastPutFrees(s: State, t: nat, acts: seq<Act>)
    requires Inv(s) && WorkEnabled(s, t, PutStep) && Runs(Next(s, Work(t, PutStep)), acts)
    requires PcOf(After(Next(s, Work(t, PutStep)), acts), t).Idle?
    requires s.inodes[PcOf(s, t).i].ref == 1 && s.inodes[PcOf(s, t).i].nlinks == 0
    ensures GoesAway(Next(s, Work(t, PutStep)), acts, PcOf(s, t).i)
  {
    var i := PcOf(s, t).i;
    Facts(s, i, t);
    StepKeeps(s, Work(t, PutStep));
    FreedByThen(Next(s, Work(t, PutStep)), acts, t, i);
  }

  /** `inode_clear_super` gets to the root only when no other inode of the super block is in the table and nobody
      else refers to the root; and as long as one that nobody refers to is there, it does not give up. */
  lemma ClearIsThorough(s: State, t: nat, op: ClearOp, i: nat)
    requires Inv(s) && ClearEnabled(s, t, op) && PcOf(s, t).ClearScan?
    requires i in s.inodes && s.inodes[i].hashed && s.inodes[i].sb == PcOf(s, t).sb
    ensures op.ClearRoot? ==> i == PcOf(s, t).root && s.inodes[i].ref == 1
    ensures op.ClearBusy? ==> s.inodes[i].ref > 0
  {
    Facts(s, i, t);
  }
}
