/** Clients, `inode_put` and `inode_write_to_disk`. */
module InodeTableWork {
  import opened Common
  import opened InodeTable
  import opened InodeTableInv
  import opened InodeTableLocal

  /** Going on with the rest of a list commits the task to exactly that rest. */
  lemma ContinueIs(k: Kont, y: nat)
    ensures var pc := Continue(k);
            && Owed(pc, y) == OwedK(k, y) && (Reaps(pc, y) <==> ReapsK(k, y))
            && !Syncs(pc, y) && !Fills(pc, y) && !Owns(pc, y) && !Wakes(pc)
  {
    if k.SyncRest? && k.list != [] { HeadCount(k.list, y); }
    if k.FinishRest? && k.list != [] { assert k.list == [k.list[0]] + k.list[1..]; }
  }

  lemma ContinueOk(s: State, t: nat, k: Kont)
    requires ListOkK(s, k) && PcOf(s, t) == Continue(k)
    requires forall i: nat :: InodeOk(s, i) && (ReapsK(k, i) ==> RoleOk(s, i, t))
    ensures TaskOk(s, t)
  {
    if k.SyncRest? && k.list != [] { assert k.list[0] in k.list; }
    if k.FinishRest? && k.list != [] {
      DistinctTail(k.list);
      var i := k.list[0];
      ContinueIs(k, i);
      assert InodeOk(s, i) && RoleOk(s, i, t);
    }
  }

  lemma AfterWriteIs(i: nat, wk: WKont, y: nat)
    ensures var pc := AfterWrite(i, wk);
            && Owed(pc, y) == OwedW(i, wk, y) && (Reaps(pc, y) <==> ReapsW(i, wk, y))
            && !Syncs(pc, y) && !Fills(pc, y) && !Owns(pc, y) && !Wakes(pc)
  {
  }

  // ---------------------------------------------------------------- clients

  lemma DupKeeps(s: State, t: nat, i: nat, u: nat)
    requires Inv(s) && PcOf(s, t) == Held(i) && i in s.inodes && PcOf(s, u).Idle?
    ensures Inv(Local(s, u, i, Ref1(s.inodes[i], u), Held(i)))
  {
    Facts(s, i, t);
    Facts(s, i, u);
    LocalKeeps(s, u, i, Ref1(s.inodes[i], u), Held(i));
  }

  lemma ChangeKeeps(s: State, t: nat, n: nat)
    requires Inv(s) && ClientEnabled(s, t, Change(n))
    ensures Inv(ClientNext(s, t, Change(n)))
  {
    var i := PcOf(s, t).i;
    Facts(s, i, t);
    LocalKeeps(s, t, i, s.inodes[i].(nlinks := n, mem := s.inodes[i].mem + 1), Changed(i));
  }

  lemma MarkKeeps(s: State, t: nat)
    requires Inv(s) && ClientEnabled(s, t, Mark)
    ensures Inv(ClientNext(s, t, Mark))
  {
    var i := PcOf(s, t).i;
    Facts(s, i, t);
    LocalKeeps(s, t, i, s.inodes[i].(dirty := true), Held(i));
  }

  lemma ClientMoves(s: State, t: nat, op: ClientOp)
    requires Inv(s) && ClientEnabled(s, t, op) && (op.StartPut? || op.StartWrite? || op.StartClear?)
    ensures Inv(ClientNext(s, t, op))
  {
    var i := PcOf(s, t).i;
    Facts(s, i, t);
    if op.StartPut? {
      MoveKeeps(s, t, Put(i, Return));
    } else if op.StartWrite? {
      MoveKeeps(s, t, Write(i, Test(op.wait), ToHeld));
    } else {
      MoveKeeps(s, t, ClearScan(s.inodes[i].sb, i));
    }
  }

  lemma ClientStep(s: State, t: nat, op: ClientOp)
    requires Inv(s) && ClientEnabled(s, t, op)
    ensures Inv(ClientNext(s, t, op))
  {
    if op.Change? {
      ChangeKeeps(s, t, op.nlinks);
    } else if op.Mark? {
      MarkKeeps(s, t);
    } else if op.Dup? {
      DupKeeps(s, t, PcOf(s, t).i, op.u);
    } else {
      ClientMoves(s, t, op);
    }
  }

  // ---------------------------------------------------------------- inode_put

  lemma TwoHolders(h: multiset<nat>, t: nat, u: nat)
    requires t != u && t in h && u in h
    ensures |h| >= 2
  {
    assert h == multiset{t, u} + (h - multiset{t, u});
  }

  /** A syncing task holds a reference, or is the one freeing the inode. */
  lemma SyncerHolds(s: State, i: nat)
    requires Inv(s) && i in s.inodes && s.inodes[i].sync
    ensures s.inodes[i].syncer.Some?
    ensures var u := s.inodes[i].syncer.value;
            Syncs(PcOf(s, u), i) && (u in s.inodes[i].holders || s.inodes[i].reaper == Some(u))
  {
    Facts(s, i, 0);
    Facts(s, i, s.inodes[i].syncer.value);
  }

  /** Without references, an inode that is not being freed is valid and not being written: the
      assertions of `inode_clear_super` and `inode_oom`. */
  lemma UnusedIsClean(s: State, i: nat)
    requires Inv(s) && i in s.inodes && s.inodes[i].hashed && s.inodes[i].ref == 0 && !s.inodes[i].freeing
    ensures s.inodes[i].valid && !s.inodes[i].sync
  {
    Facts(s, i, 0);
    if s.inodes[i].sync { SyncerHolds(s, i); }
    if !s.inodes[i].valid { Facts(s, i, s.inodes[i].filler.value); }
  }

  /** The assertion of `inode_put`: when the last reference goes, nobody is writing the inode. */
  lemma PutAssert(s: State, t: nat)
    requires Inv(s) && WorkEnabled(s, t, PutStep)
    ensures var x := s.inodes[PcOf(s, t).i]; x.ref == 1 && !x.freeing ==> !x.sync
  {
    var i := PcOf(s, t).i;
    Facts(s, i, t);
    var x := s.inodes[i];
    if x.sync {
      SyncerHolds(s, i);
      var u := x.syncer.value;
      if u != t && u in x.holders { TwoHolders(x.holders, t, u); }
    }
  }

  lemma PutKeeps(s: State, t: nat)
    requires Inv(s) && WorkEnabled(s, t, PutStep)
    ensures Inv(WorkNext(s, t, PutStep))
  {
    var Put(i, k) := PcOf(s, t);
    Facts(s, i, t);
    var x := Unref(s.inodes[i], t);
    if x.ref == 0 && x.nlinks == 0 && !x.freeing {
      LocalKeeps(s, t, i, MarkFreeing(x, t), Uncache(i, k));
    } else {
      PutOn(s, t, i, k, x);
    }
  }

  lemma PutOn(s: State, t: nat, i: nat, k: Kont, x: Inode)
    requires Inv(s) && PcOf(s, t) == Put(i, k) && i in s.inodes && x == Unref(s.inodes[i], t)
    ensures Inv(Local(s, t, i, x, Continue(k)))
  {
    Facts(s, i, t);
    var pc := Continue(k);
    forall y: nat
      ensures Owed(pc, y) == OwedK(k, y) && (Reaps(pc, y) <==> ReapsK(k, y))
      ensures !Syncs(pc, y) && !Fills(pc, y) && !Owns(pc, y) && !Wakes(pc)
    {
      ContinueIs(k, y);
    }
    var s' := Local(s, t, i, x, pc);
    LocalRoles(s, t, i, x, pc);
    forall y: nat ensures InodeOk(s', y) { assert InodeOk(s, y); }
    ContinueOk(s', t, k);
    LocalKeeps(s, t, i, x, pc);
  }

  // ---------------------------------------------------------------- inode_write_to_disk

  /** The task that frees an inode never has to wait for a write of it. */
  lemma FreerNeverWaits(s: State, t: nat)
    requires Inv(s) && PcOf(s, t).Write? && PcOf(s, t).stage.Test? && PcOf(s, t).wk.ToUncache?
    requires PcOf(s, t).i in s.inodes
    ensures !s.inodes[PcOf(s, t).i].sync
  {
    var i := PcOf(s, t).i;
    Facts(s, i, t);
    if s.inodes[i].sync { SyncerHolds(s, i); }
  }

  lemma WriteMoves(s: State, t: nat, pc: Pc)
    requires Inv(s) && PcOf(s, t).Write? && (PcOf(s, t).stage.Test? || PcOf(s, t).stage.Waiting?)
    requires || pc == AfterWrite(PcOf(s, t).i, PcOf(s, t).wk)
             || (pc == Write(PcOf(s, t).i, Waiting, PcOf(s, t).wk) && !pc.wk.ToUncache?)
    requires pc.Uncache? ==> pc.i in s.inodes && !s.inodes[pc.i].dirty
    ensures Inv(SetPc(s, t, pc))
  {
    var i, wk := PcOf(s, t).i, PcOf(s, t).wk;
    Facts(s, i, t);
    forall y: nat
      ensures Owed(pc, y) == OwedW(i, wk, y) && (Reaps(pc, y) <==> ReapsW(i, wk, y))
      ensures !Syncs(pc, y) && !Fills(pc, y) && !Owns(pc, y)
    {
      AfterWriteIs(i, wk, y);
    }
    MoveKeeps(s, t, pc);
  }

  lemma WriteKeeps(s: State, t: nat)
    requires Inv(s) && WorkEnabled(s, t, WriteStep)
    ensures Inv(WorkNext(s, t, WriteStep))
  {
    var Write(i, Test(wait), wk) := PcOf(s, t);
    Facts(s, i, t);
    var x := s.inodes[i];
    if !x.dirty || (x.sync && !wait) {
      if wk.ToUncache? { FreerNeverWaits(s, t); }
      WriteMoves(s, t, AfterWrite(i, wk));
    } else if x.sync {
      if wk.ToUncache? { FreerNeverWaits(s, t); }
      WriteMoves(s, t, Write(i, Waiting, wk));
    } else {
      LocalKeeps(s, t, i, x.(sync := true, syncer := Some(t)), Write(i, Copying, wk));
    }
  }

  lemma CopyKeeps(s: State, t: nat)
    requires Inv(s) && WorkEnabled(s, t, CopyStep)
    ensures Inv(WorkNext(s, t, CopyStep))
  {
    var Write(i, _, wk) := PcOf(s, t);
    Facts(s, i, t);
    MoveKeeps(s, t, Write(i, Clearing, wk));
    DiskAside(SetPc(s, t, Write(i, Clearing, wk)), WorkNext(s, t, CopyStep).disk);
  }

  lemma WriteDoneKeeps(s: State, t: nat)
    requires Inv(s) && WorkEnabled(s, t, WriteDone)
    ensures Inv(WorkNext(s, t, WriteDone))
  {
    var Write(i, _, wk) := PcOf(s, t);
    Facts(s, i, t);
    forall y: nat
      ensures Owed(AfterWrite(i, wk), y) == OwedW(i, wk, y) && (Reaps(AfterWrite(i, wk), y) <==> ReapsW(i, wk, y))
    {
      AfterWriteIs(i, wk, y);
    }
    LocalKeeps(s, t, i, s.inodes[i].(sync := false, dirty := false, syncer := None), AfterWrite(i, wk));
  }
}
