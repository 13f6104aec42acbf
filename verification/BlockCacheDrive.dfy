/** The drive's steps: queueing a request, moving data sector by sector, and completing. */
module BlockCacheDrive {
  import opened Common
  import opened BlockCache
  import opened BlockCacheInv
  import opened BlockCacheClient

  /** A change to disk contents or data of the block the drive works on, and to how far it has come. */
  ghost predicate Moving(s: State, s': State, id: nat)
    requires Sized(s) && id in s.blocks
  {
    && s' == s.(blocks := s'.blocks, disk := s'.disk, sectorsLeft := s'.sectorsLeft)
    && id in s'.blocks && s'.blocks == s.blocks[id := s.blocks[id].(data := s'.blocks[id].data)]
    && Sized(s')
    && (forall k: nat :: k != s.blocks[id].sector ==> s'.disk[k] == s.disk[k])
    && (if s.blocks[id].dirty then s'.blocks[id].data == s.blocks[id].data
        else s'.disk == s.disk)
    && Progress(s', id)
  }

  lemma MovingParts(s: State, s': State, id: nat)
    requires Inv(s) && s.current == Some(id) && id in s.blocks && Moving(s, s', id)
    ensures Index(s') && Refs(s') && Locks(s') && DriveOk(s') && Tasks(s')
  {
    forall x: nat, u: nat ensures RefOk(s', x, u) && LockOk(s', x, u) { Facts(s, u, x); }
    forall x: nat ensures CountOk(s', x) && OwnerOk(s', x) && OnDriveOk(s', x) { Facts(s, 0, x); }
    IndexSame(s, s');
    forall u: nat ensures TaskOk(s', u) { assert TaskOk(s, u); TaskKept(s, s', u); }
  }

  /** Moving data between a block and the disk is invisible: a block on the drive is dirty, and then its
      data counts, or not valid, and then the disk counts. */
  lemma MovingKeeps(s: State, s': State, id: nat)
    requires Inv(s) && s.current == Some(id) && id in s.blocks && Moving(s, s', id)
    ensures Inv(s') && Shows(s, Silent, s')
  {
    MovingParts(s, s', id);
    Facts(s, 0, id);
    forall x: nat ensures BlockOk(s', x) {
      Facts(s, 0, x);
      if x in s.lru && x != id { assert !SameSector(s, x, id); }
    }
    forall k: nat ensures Logical(s', k) == Logical(s, k) {
      forall x: nat ensures LivesIn(s, x, k) <==> LivesIn(s', x, k) { }
      forall x: nat | LivesIn(s, x, k) && x != id ensures k != s.blocks[id].sector { assert !SameSector(s, x, id); }
      assert k == s.blocks[id].sector ==> LivesIn(s, id, k);
      SameLogical(s, s', k);
    }
  }

  /** The next request becomes the current one. */
  function Pick(s: State): State
    requires s.queue != []
  {
    s.(current := Some(s.queue[0]), queue := s.queue[1..], sectorsLeft := s.cfg.n)
  }

  lemma PickKeeps(s: State)
    requires Inv(s) && s.current.None? && s.queue != []
    ensures Inv(Pick(s)) && Shows(s, Silent, Pick(s))
  {
    var s' := Pick(s);
    DistinctTail(s.queue);
    Facts(s, 0, s.queue[0]);
    assert forall x: nat :: OnDrive(s', x) <==> OnDrive(s, x);
    forall x: nat, u: nat ensures RefOk(s', x, u) && LockOk(s', x, u) { Facts(s, u, x); }
    forall x: nat ensures CountOk(s', x) && OwnerOk(s', x) && OnDriveOk(s', x) && BlockOk(s', x) {
      Facts(s, 0, x);
    }
    IndexSame(s, s');
    forall u: nat ensures TaskOk(s', u) { assert TaskOk(s, u); TaskKept(s, s', u); }
    forall k: nat ensures Logical(s', k) == Logical(s, k) {
      forall x: nat ensures LivesIn(s, x, k) <==> LivesIn(s', x, k) { }
      SameLogical(s, s', k);
    }
  }

  /** The drive is never idle with work queued, and an interrupt finds a transfer it can go on with. */
  ghost predicate Serves(s: State)
  {
    && (s.current.None? ==> s.queue == [])
    && (s.current.Some? ==> IntrEnabled(s))
  }

  lemma StartKeeps(s: State)
    requires Inv(s) && (s.current.Some? ==> IntrEnabled(s))
    ensures (forall q :: q in s.queue ==> q in s.blocks)
    ensures Inv(StartRequest(s)) && Shows(s, Silent, StartRequest(s)) && Serves(StartRequest(s))
  {
    forall q | q in s.queue ensures q in s.blocks { Facts(s, 0, q); }
    if s.current.None? && s.queue != [] {
      var id := s.queue[0];
      PickKeeps(s);
      var s1 := Pick(s);
      if !s.cfg.dma && s.blocks[id].dirty {
        MovingKeeps(s1, PioWrite(s1, id), id);
      }
    }
  }

  // ---------------------------------------------------------------- queueing

  /** Task `t`, which has locked a block with something to transfer, hands it to the drive and moves on. */
  function Handed(s: State, t: nat, id: nat, pc: Pc): State
    requires id in s.blocks
  {
    SetPc(SetBlock(s, id, Ref1(s.blocks[id], Drive).(owner := Some(Drive))).(queue := s.queue + [id]), t, pc)
  }

  ghost predicate CanHand(s: State, t: nat, id: nat, pc: Pc)
  {
    && id in s.blocks && HasLock(PcOf(s, t), id) && (s.blocks[id].valid ==> s.blocks[id].dirty)
    && !PcOf(s, t).Written? && Owed(PcOf(s, t), id) > 0
    && (forall x: nat :: Owed(pc, x) == Owed(PcOf(s, t), x) && !HasLock(pc, x) && (x != id ==> !HasLock(PcOf(s, t), x)))
  }

  lemma HandedRefs(s: State, t: nat, id: nat, pc: Pc)
    requires Inv(s) && CanHand(s, t, id, pc)
    ensures Refs(Handed(s, t, id, pc))
  {
    var s' := Handed(s, t, id, pc);
    Facts(s, t, id);
    forall x: nat, u: nat ensures RefOk(s', x, u) { assert RefOk(s, x, u); }
    forall x: nat ensures CountOk(s', x) { assert CountOk(s, x); }
  }

  lemma HandedLocks(s: State, t: nat, id: nat, pc: Pc)
    requires Inv(s) && CanHand(s, t, id, pc)
    ensures Locks(Handed(s, t, id, pc))
  {
    var s' := Handed(s, t, id, pc);
    Facts(s, t, id);
    forall x: nat, u: nat ensures LockOk(s', x, u) { assert LockOk(s, x, u); }
    forall x: nat ensures OwnerOk(s', x) { assert OwnerOk(s, x); }
  }

  lemma HandedTasks(s: State, t: nat, id: nat, pc: Pc)
    requires Inv(s) && CanHand(s, t, id, pc) && TaskOk(Handed(s, t, id, pc), t)
    ensures Tasks(Handed(s, t, id, pc))
  {
    Facts(s, t, id);
    forall u: nat ensures TaskOk(Handed(s, t, id, pc), u) { assert TaskOk(s, u); }
  }

  lemma HandedRest(s: State, t: nat, id: nat, pc: Pc)
    requires Inv(s) && CanHand(s, t, id, pc)
    ensures var s' := Handed(s, t, id, pc);
            Sized(s') && Index(s') && DriveOk(s') && Coherent(s')
  {
    var s' := Handed(s, t, id, pc);
    Facts(s, t, id);
    DistinctAppend(s.queue, id);
    assert forall x: nat :: OnDrive(s', x) <==> OnDrive(s, x) || x == id;
    forall x: nat ensures OnDriveOk(s', x) && BlockOk(s', x) { Facts(s, t, x); }
    IndexSame(s, s');
  }

  lemma HandedKeeps(s: State, t: nat, id: nat, pc: Pc)
    requires Inv(s) && CanHand(s, t, id, pc) && TaskOk(Handed(s, t, id, pc), t)
    ensures Inv(Handed(s, t, id, pc)) && Shows(s, Silent, Handed(s, t, id, pc))
  {
    var s' := Handed(s, t, id, pc);
    HandedRefs(s, t, id, pc);
    HandedLocks(s, t, id, pc);
    HandedTasks(s, t, id, pc);
    HandedRest(s, t, id, pc);
    forall k: nat ensures Logical(s', k) == Logical(s, k) {
      forall x: nat ensures LivesIn(s, x, k) <==> LivesIn(s', x, k) { }
      SameLogical(s, s', k);
    }
  }

  // ---------------------------------------------------------------- completion

  /** `block_mark_synced`, `block_unlockput` and `drive->current = NULL` */
  function Finished(s: State, id: nat): State
    requires id in s.blocks
  {
    SetBlock(s, id, Put(Unlock(s.blocks[id].(valid := true, dirty := false)), Drive)).(current := None)
  }

  lemma FinishedRefs(s: State, id: nat)
    requires Inv(s) && s.current == Some(id) && id in s.blocks
    ensures Refs(Finished(s, id))
  {
    var s' := Finished(s, id);
    Facts(s, 0, id);
    forall x: nat, u: nat ensures RefOk(s', x, u) { assert RefOk(s, x, u); }
    forall x: nat ensures CountOk(s', x) { assert CountOk(s, x); }
  }

  lemma FinishedLocks(s: State, id: nat)
    requires Inv(s) && s.current == Some(id) && id in s.blocks
    ensures Locks(Finished(s, id)) && Tasks(Finished(s, id))
  {
    var s' := Finished(s, id);
    Facts(s, 0, id);
    forall x: nat, u: nat ensures LockOk(s', x, u) { assert LockOk(s, x, u); }
    forall x: nat ensures OwnerOk(s', x) { assert OwnerOk(s, x); }
    forall u: nat ensures TaskOk(s', u) { assert TaskOk(s, u); TaskKept(s, s', u); }
  }

  lemma FinishedBlocks(s: State, id: nat)
    requires Inv(s) && s.current == Some(id) && id in s.blocks && s.blocks[id].data == s.disk[s.blocks[id].sector]
    ensures Sized(Finished(s, id)) && DriveOk(Finished(s, id)) && Coherent(Finished(s, id))
  {
    var s' := Finished(s, id);
    Facts(s, 0, id);
    forall x: nat ensures OnDriveOk(s', x) && BlockOk(s', x) { Facts(s, 0, x); }
  }

  /** A completed transfer is invisible: data and disk agree by then. Whoever waited finds the block valid. */
  lemma FinishedKeeps(s: State, id: nat)
    requires Inv(s) && s.current == Some(id) && id in s.blocks && s.blocks[id].data == s.disk[s.blocks[id].sector]
    ensures Inv(Finished(s, id)) && Shows(s, Silent, Finished(s, id))
  {
    var s' := Finished(s, id);
    FinishedRefs(s, id);
    FinishedLocks(s, id);
    FinishedBlocks(s, id);
    IndexSame(s, s');
    Facts(s, 0, id);
    forall k: nat ensures Logical(s', k) == Logical(s, k) {
      forall x: nat ensures LivesIn(s, x, k) <==> LivesIn(s', x, k) { }
      SameLogical(s, s', k);
    }
  }

  lemma CompleteKeeps(s: State, id: nat)
    requires Inv(s) && s.current == Some(id) && id in s.blocks && s.blocks[id].data == s.disk[s.blocks[id].sector]
    ensures (forall q :: q in s.queue ==> q in s.blocks)
    ensures Inv(Complete(s, id)) && Shows(s, Silent, Complete(s, id)) && Serves(Complete(s, id))
  {
    forall q | q in s.queue ensures q in s.blocks { Facts(s, 0, q); }
    FinishedKeeps(s, id);
    StartKeeps(Finished(s, id));
  }

  /** One interrupt, PIO or DMA. */
  lemma InterruptKeeps(s: State)
    requires Inv(s) && IntrEnabled(s)
    ensures (forall q :: q in s.queue ==> q in s.blocks)
    ensures Inv(Interrupt(s)) && Shows(s, Silent, Interrupt(s)) && Serves(Interrupt(s))
  {
    forall q | q in s.queue ensures q in s.blocks { Facts(s, 0, q); }
    var id := s.current.value;
    var k := s.blocks[id].sector;
    if s.cfg.dma {
      var s1 := DmaTransfer(s, id);
      MovingKeeps(s, s1, id);
      CompleteKeeps(s1, id);
    } else if !s.blocks[id].dirty {
      var s1 := PioRead(s, id);
      MovingKeeps(s, s1, id);
      if s1.sectorsLeft == 0 {
        assert s1.blocks[id].data == s1.disk[k];
        CompleteKeeps(s1, id);
      }
    } else if s.sectorsLeft == 0 {
      assert s.blocks[id].data == s.disk[k];
      CompleteKeeps(s, id);
    } else {
      MovingKeeps(s, PioWrite(s, id), id);
    }
  }
}
