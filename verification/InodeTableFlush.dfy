/** What a waiting write of an inode is for: the inode has been on the disk as it was in memory by the time it
    returns, unless another write had copied it before. */
module InodeTableFlush {
  import opened Common
  import opened InodeTable
  import opened InodeTableInv
  import opened InodeTableCollect
  import opened InodeTableRuns
  import opened InodeTableSaved

  predicate InRest(k: Kont, i: nat)
  {
    k.SyncRest? && k.wait && i in k.list
  }

  /** The task, in a call that waits, has inode `i` still to write. */
  predicate ToWrite(pc: Pc, i: nat)
  {
    match pc
    case Write(j, stage, wk) =>
      || (j == i && (stage == Test(true) || stage.Waiting? || stage.Copying?))
      || (wk.ToPut? && InRest(wk.k, i))
    case Put(_, k) => InRest(k, i)
    case Uncache(_, k) => InRest(k, i)
    case Dealloc(_, k) => InRest(k, i)
    case WakeAll(k) => InRest(k, i)
    case _ => false
  }

  /** The task has copied the inode and has yet to clear DIRTY. */
  predicate PastCopy(pc: Pc, i: nat)
  {
    pc.Write? && pc.i == i && pc.stage.Clearing?
  }

  /** Nobody is between copying the inode and clearing DIRTY. */
  ghost predicate NonePastCopy(s: State, i: nat)
  {
    forall u: nat :: !PastCopy(PcOf(s, u), i)
  }

  ghost predicate Unsaved(s: State, t: nat, i: nat)
  {
    && i in s.inodes && s.inodes[i].dirty && ToWrite(PcOf(s, t), i) && NonePastCopy(s, i)
    && (PcOf(s, t).Write? && PcOf(s, t).i == i && PcOf(s, t).stage.Waiting? ==> s.inodes[i].sync)
  }

  /** At some point of the run the inode is on the disk as it is in memory. */
  ghost predicate Refreshed(s: State, acts: seq<Act>, i: nat)
    requires Runs(s, acts)
    decreases |acts|
  {
    || (i in s.inodes && UpToDate(s, i))
    || (acts != [] && Refreshed(Next(s, acts[0]), acts[1..], i))
  }

  // ---------------------------------------------------------------- one step

  /** The step copies inode `i` to the disk. */
  predicate Copies(s: State, a: Act, i: nat)
  {
    a.Work? && a.work.CopyStep? && PcOf(s, a.t).Write? && PcOf(s, a.t).i == i
  }

  lemma CopyRefreshes(s: State, a: Act, i: nat)
    requires Enabled(s, a) && Copies(s, a, i)
    ensures i in Next(s, a).inodes && UpToDate(Next(s, a), i)
  {
  }

  /** Nobody gets past the copy without copying. */
  lemma NoneGetsPast(s: State, a: Act, i: nat, u: nat)
    requires Enabled(s, a) && !Copies(s, a, i) && NonePastCopy(s, i)
    ensures !PastCopy(PcOf(Next(s, a), u), i)
  {
    assert !PastCopy(PcOf(s, u), i) && !PastCopy(PcOf(s, a.t), i);
  }

  /** Only the end of a write clears DIRTY and SYNC. */
  lemma FlagsStay(s: State, a: Act, i: nat)
    requires Inv(s) && Enabled(s, a) && NonePastCopy(s, i) && i in s.inodes && s.inodes[i].dirty
    ensures var s' := Next(s, a);
            i in s'.inodes ==> s'.inodes[i].dirty && (s.inodes[i].sync ==> s'.inodes[i].sync)
  {
    assert !PastCopy(PcOf(s, a.t), i);
    match a
    case Get(t, op) => GetFlags(s, t, op, i);
    case Work(t, op) => WorkFlags(s, t, op, i);
    case _ =>
  }

  lemma GetFlags(s: State, t: nat, op: GetOp, i: nat)
    requires Inv(s) && GetEnabled(s, t, op) && i in s.inodes && s.inodes[i].dirty
    ensures var s' := GetNext(s, t, op);
            i in s'.inodes ==> s'.inodes[i].dirty && (s.inodes[i].sync ==> s'.inodes[i].sync)
  {
    Facts(s, i, t);
  }

  lemma WorkFlags(s: State, t: nat, op: WorkOp, i: nat)
    requires WorkEnabled(s, t, op) && !PastCopy(PcOf(s, t), i) && i in s.inodes && s.inodes[i].dirty
    ensures var s' := WorkNext(s, t, op);
            i in s'.inodes ==> s'.inodes[i].dirty && (s.inodes[i].sync ==> s'.inodes[i].sync)
  {
  }

  lemma ContinueWrites(k: Kont, i: nat)
    requires InRest(k, i)
    ensures var pc := Continue(k); ToWrite(pc, i) && !(pc.stage.Waiting?)
  {
    assert k.list == [k.list[0]] + k.list[1..];
  }

  /** The task's own steps do not get past the inode without a copy. */
  lemma OwnStep(s: State, t: nat, op: WorkOp, i: nat)
    requires WorkEnabled(s, t, op) && Unsaved(s, t, i) && !Copies(s, Work(t, op), i)
    ensures var pc := PcOf(WorkNext(s, t, op), t);
            ToWrite(pc, i) && (pc.Write? && pc.i == i && pc.stage.Waiting? ==> s.inodes[i].sync)
  {
    assert !PastCopy(PcOf(s, t), i);
    var pc := PcOf(s, t);
    if pc.Put? { ContinueWrites(pc.k, i); }
    if pc.WakeAll? { ContinueWrites(pc.k, i); }
  }

  lemma ToWriteStays(s: State, t: nat, i: nat)
    requires Inv(s) && ToWrite(PcOf(s, t), i)
    ensures i in s.inodes
  {
    Facts(s, i, t);
  }

  lemma UnsavedStep(s: State, a: Act, t: nat, i: nat)
    requires Inv(s) && Enabled(s, a) && Allowed(s, a) && Inv(Next(s, a)) && Unsaved(s, t, i)
    ensures var s' := Next(s, a); Unsaved(s', t, i) || (i in s'.inodes && UpToDate(s', i))
  {
    var s' := Next(s, a);
    if Copies(s, a, i) {
      CopyRefreshes(s, a, i);
    } else {
      forall u: nat ensures !PastCopy(PcOf(s', u), i) { NoneGetsPast(s, a, i, u); }
      FlagsStay(s, a, i);
      if a.t == t { OwnStep(s, t, a.work, i); } else { OtherPc(s, a, t); }
      ToWriteStays(s', t, i);
    }
  }

  lemma {:induction false} UnsavedRun(s: State, acts: seq<Act>, t: nat, i: nat)
    requires Inv(s) && Runs(s, acts) && Unsaved(s, t, i) && !ToWrite(PcOf(After(s, acts), t), i)
    ensures Refreshed(s, acts, i)
    decreases |acts|
  {
    StepKeeps(s, acts[0]);
    UnsavedStep(s, acts[0], t, i);
    var s1 := Next(s, acts[0]);
    if Unsaved(s1, t, i) {
      UnsavedRun(s1, acts[1..], t, i);
    } else {
      assert Refreshed(s1, acts[1..], i);
    }
  }

  // ---------------------------------------------------------------- whole calls

  /** `inode_sync` with `wait`: by the time it returns, every inode that was dirty when it began, of the super block
      asked for if one was, has been on the disk since as it was in memory then, unless another task had copied
      it already and was yet to clear DIRTY. */
  lemma SyncIsDurable(s: State, t: nat, only: Option<nat>, acts: seq<Act>, i: nat)
    requires Inv(s) && Enabled(s, SyncCollect(t, only, true)) && Runs(Next(s, SyncCollect(t, only, true)), acts)
    requires PcOf(After(Next(s, SyncCollect(t, only, true)), acts), t).Idle?
    requires i in s.inodes && s.inodes[i].hashed && s.inodes[i].valid && s.inodes[i].dirty && !s.inodes[i].freeing
    requires (only.Some? ==> s.inodes[i].sb == only.value) && NonePastCopy(s, i)
    ensures Refreshed(Next(s, SyncCollect(t, only, true)), acts, i)
  {
    var s1 := Next(s, SyncCollect(t, only, true));
    StepKeeps(s, SyncCollect(t, only, true));
    SyncList(s, only);
    ContinueWrites(SyncRest(SyncIds(s, only), true), i);
    forall u: nat ensures !PastCopy(PcOf(s1, u), i) { NoneGetsPast(s, SyncCollect(t, only, true), i, u); }
    UnsavedRun(s1, acts, t, i);
  }

  // ---------------------------------------------------------------- without waiting

  predicate Listed(k: Kont, i: nat)
  {
    k.SyncRest? && i in k.list
  }

  /** The task, waiting or not, has yet to look at inode `i`. */
  predicate ToSee(pc: Pc, i: nat)
  {
    match pc
    case Write(j, stage, wk) => (j == i && stage.Test?) || (wk.ToPut? && Listed(wk.k, i))
    case Put(_, k) => Listed(k, i)
    case Uncache(_, k) => Listed(k, i)
    case Dealloc(_, k) => Listed(k, i)
    case WakeAll(k) => Listed(k, i)
    case _ => false
  }

  /** The inode is dirty, nobody has copied it yet, and it is being written or the task has yet to see to that. */
  ghost predicate Unstarted(s: State, t: nat, i: nat)
  {
    && i in s.inodes && s.inodes[i].dirty && s.inodes[i].hashed && NonePastCopy(s, i)
    && (s.inodes[i].sync || ToSee(PcOf(s, t), i))
  }

  lemma ContinueSees(k: Kont, i: nat)
    requires Listed(k, i)
    ensures ToSee(Continue(k), i)
  {
    assert k.list == [k.list[0]] + k.list[1..];
  }

  lemma OwnLook(s: State, t: nat, op: WorkOp, i: nat)
    requires WorkEnabled(s, t, op) && i in s.inodes && s.inodes[i].dirty && !s.inodes[i].sync && ToSee(PcOf(s, t), i)
    ensures var s' := WorkNext(s, t, op); ToSee(PcOf(s', t), i) || (i in s'.inodes && s'.inodes[i].sync)
  {
    var pc := PcOf(s, t);
    if pc.Put? { ContinueSees(pc.k, i); }
    if pc.WakeAll? { ContinueSees(pc.k, i); }
  }

  /** An inode that is being written, or listed for it, stays in the table. */
  lemma StaysListed(s: State, t: nat, i: nat)
    requires Inv(s) && ToSee(PcOf(s, t), i)
    ensures i in s.inodes && s.inodes[i].hashed
  {
    Facts(s, i, t);
  }

  lemma StaysWritten(s: State, a: Act, i: nat)
    requires Inv(s) && Enabled(s, a) && Allowed(s, a) && Inv(Next(s, a))
    requires i in s.inodes && s.inodes[i].sync && s.inodes[i].hashed
    ensures i in Next(s, a).inodes && Next(s, a).inodes[i].hashed
  {
    Facts(s, i, a.t);
    var u := s.inodes[i].syncer.value;
    Facts(s, i, u);
    if a.t != u {
      OtherPc(s, a, u);
    }
    Facts(Next(s, a), i, u);
  }

  lemma UnstartedStep(s: State, a: Act, t: nat, i: nat)
    requires Inv(s) && Enabled(s, a) && Allowed(s, a) && Inv(Next(s, a)) && Unstarted(s, t, i)
    ensures var s' := Next(s, a); Unstarted(s', t, i) || (i in s'.inodes && UpToDate(s', i))
  {
    var s' := Next(s, a);
    if Copies(s, a, i) {
      CopyRefreshes(s, a, i);
    } else {
      forall u: nat ensures !PastCopy(PcOf(s', u), i) { NoneGetsPast(s, a, i, u); }
      FlagsStay(s, a, i);
      if s.inodes[i].sync {
        StaysWritten(s, a, i);
      } else {
        if a.t == t { OwnLook(s, t, a.work, i); } else { OtherPc(s, a, t); }
        if ToSee(PcOf(s', t), i) { StaysListed(s', t, i); }
        Facts(s', i, t);
      }
    }
  }

  lemma {:induction false} UnstartedRun(s: State, acts: seq<Act>, t: nat, i: nat)
    requires Inv(s) && Runs(s, acts) && Unstarted(s, t, i)
    ensures Refreshed(s, acts, i) || Unstarted(After(s, acts), t, i)
    decreases |acts|
  {
    if acts != [] {
      StepKeeps(s, acts[0]);
      UnstartedStep(s, acts[0], t, i);
      var s1 := Next(s, acts[0]);
      if Unstarted(s1, t, i) {
        UnstartedRun(s1, acts[1..], t, i);
      } else {
        assert Refreshed(s1, acts[1..], i);
      }
    }
  }

  /** `inode_sync`, waiting or not: by the time it returns, every such inode has been on the disk or is being
      written. */
  lemma SyncSeesToAll(s: State, t: nat, only: Option<nat>, wait: bool, acts: seq<Act>, i: nat)
    requires Inv(s) && Enabled(s, SyncCollect(t, only, wait)) && Runs(Next(s, SyncCollect(t, only, wait)), acts)
    requires PcOf(After(Next(s, SyncCollect(t, only, wait)), acts), t).Idle?
    requires i in s.inodes && s.inodes[i].hashed && s.inodes[i].valid && s.inodes[i].dirty && !s.inodes[i].freeing
    requires (only.Some? ==> s.inodes[i].sb == only.value) && NonePastCopy(s, i)
    ensures var s1 := Next(s, SyncCollect(t, only, wait));
            var s' := After(s1, acts);
            Refreshed(s1, acts, i) || (i in s'.inodes && s'.inodes[i].sync)
  {
    var s1 := Next(s, SyncCollect(t, only, wait));
    StepKeeps(s, SyncCollect(t, only, wait));
    SyncList(s, only);
    ContinueSees(SyncRest(SyncIds(s, only), wait), i);
    forall u: nat ensures !PastCopy(PcOf(s1, u), i) { NoneGetsPast(s, SyncCollect(t, only, wait), i, u); }
    UnstartedRun(s1, acts, t, i);
  }

  /** `inode_write_to_disk` with `wait`, called on a dirty inode: the same. */
  lemma WriteIsDurable(s: State, t: nat, acts: seq<Act>)
    requires Inv(s) && ClientEnabled(s, t, StartWrite(true)) && Runs(Next(s, Client(t, StartWrite(true))), acts)
    requires PcOf(After(Next(s, Client(t, StartWrite(true))), acts), t).Held?
    requires var i := PcOf(s, t).i; s.inodes[i].dirty && NonePastCopy(s, i)
    ensures Refreshed(Next(s, Client(t, StartWrite(true))), acts, PcOf(s, t).i)
  {
    var i, s1 := PcOf(s, t).i, Next(s, Client(t, StartWrite(true)));
    StepKeeps(s, Client(t, StartWrite(true)));
    forall u: nat ensures !PastCopy(PcOf(s1, u), i) { NoneGetsPast(s, Client(t, StartWrite(true)), i, u); }
    UnsavedRun(s1, acts, t, i);
  }

  /** A write that is not to wait never does: it goes on past an inode that another task is writing. */
  lemma NoWaitGoesOn(s: State, t: nat)
    requires WorkEnabled(s, t, WriteStep) && !PcOf(s, t).stage.wait
    ensures var s', i := WorkNext(s, t, WriteStep), PcOf(s, t).i;
            PcOf(s', t) == if s.inodes[i].dirty && !s.inodes[i].sync then Write(i, Copying, PcOf(s, t).wk)
                           else AfterWrite(i, PcOf(s, t).wk)
  {
  }
}
