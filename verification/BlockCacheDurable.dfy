/** A sync reaches the disk: what it hands to the drive is written before the drive lets go of it. */
module BlockCacheDurable {
  import opened Common
  import opened BlockCache
  import opened BlockCacheInv
  import opened BlockCacheClient
  import opened BlockCacheDrive
  import opened BlockCacheSteady
  import opened BlockCacheRuns

  /** Starting a request moves a block from the queue into the drive. */
  lemma StartJobs(s: State, id: nat)
    requires Sized(s) && forall q :: q in s.queue ==> q in s.blocks
    ensures OnDrive(StartRequest(s), id) <==> OnDrive(s, id)
  {
    if s.queue != [] { assert s.queue == [s.queue[0]] + s.queue[1..]; }
  }

  /** `ata_sync_block` takes nothing away from the drive, and hands it a block that is dirty or not valid. */
  lemma SubmitJobs(s: State, b: nat, id: nat)
    requires Inv(s) && Shape(s) && b in s.blocks && !OnDrive(s, b)
    ensures var s' := SyncBlock(s, b);
            && (OnDrive(s', id) <==> OnDrive(s, id) || (id == b && !(s.blocks[b].valid && !s.blocks[b].dirty)))
            && SameJob(s, s', id)
  {
    var x := s.blocks[b];
    if !(x.valid && !x.dirty) {
      StartJobs(SetBlock(s, b, Ref1(x, Drive).(owner := Some(Drive))).(queue := s.queue + [b]), id);
    }
  }

  /** A block whose lock a task holds is not on the drive. */
  lemma NotOnDrive(s: State, t: nat, b: nat)
    requires Inv(s) && b in s.blocks && HasLock(PcOf(s, t), b)
    ensures !OnDrive(s, b)
  {
    Facts(s, t, b);
  }

  lemma SyncSubmitJobs(s: State, t: nat, id: nat)
    requires Inv(s) && Shape(s) && SyncEnabled(s, t, SyncSubmitStep) && OnDrive(s, id)
    ensures var s' := SyncStepNext(s, t, SyncSubmitStep); OnDrive(s', id) && SameJob(s, s', id)
  {
    var b := PcOf(s, t).todo[0];
    NotOnDrive(s, t, b);
    SubmitJobs(s, b, id);
  }

  /** No task takes a block from the drive or changes it there. */
  lemma TaskJobs(s: State, a: Act, id: nat)
    requires Good(s) && Shape(s) && Enabled(s, a) && !a.Intr? && OnDrive(s, id)
    ensures OnDrive(Next(s, a), id) && SameJob(s, Next(s, a), id)
  {
    if a.Get? {
      if a.get.SubmitStep? {
        NotOnDrive(s, a.t, PcOf(s, a.t).b);
        SubmitJobs(s, PcOf(s, a.t).b, id);
      } else {
        GetSteady(s, a.t, a.get);
      }
    } else if a.Sync? {
      if a.sync.SyncSubmitStep? { SyncSubmitJobs(s, a.t, id); } else { SyncSteady(s, a.t, a.sync); }
    } else if a.Client? {
      ClientSteady(s, a.t, a.client);
    } else if a.Zero? {
      ZeroSteady(s, a.t, a.zero);
    } else if a.Oom? || a.SecondShrink? {
      ShrinksSteady(s, a);
    }
  }

  /** An interrupt goes on with a transfer, or lets go of a block that is then clean and equal to the disk. */
  lemma InterruptJobs(s: State, id: nat)
    requires Good(s) && Shape(s) && IntrEnabled(s) && OnDrive(s, id) && id in s.blocks && s.blocks[id].dirty
    ensures var s' := Interrupt(s);
            && id in s'.blocks && s'.blocks[id].data == s.blocks[id].data && s'.blocks[id].sector == s.blocks[id].sector
            && (OnDrive(s', id) ==> s'.blocks[id].dirty)
            && (!OnDrive(s', id) ==>
                  !s'.blocks[id].dirty && !s'.blocks[id].locked && s'.disk[s.blocks[id].sector] == s.blocks[id].data)
  {
    Facts(s, 0, id);
    InterruptBlock(s, id);
    InterruptKeeps(s);
    Facts(Interrupt(s), 0, id);
  }

  /** What an interrupt does to a dirty block: nothing, or the end of its transfer. */
  lemma InterruptBlock(s: State, id: nat)
    requires Sized(s) && IntrEnabled(s) && OnDrive(s, id) && id in s.blocks && s.blocks[id].dirty
    requires s.current.value !in s.queue && forall q :: q in s.queue ==> q in s.blocks
    ensures var s', x := Interrupt(s), s.blocks[id];
            && id in s'.blocks
            && s'.blocks[id] == if OnDrive(s', id) then x else Put(Unlock(x.(valid := true, dirty := false)), Drive)
  {
    var c := s.current.value;
    if s.cfg.dma {
      CompleteJobs(DmaTransfer(s, c), c, id);
    } else if !s.blocks[c].dirty {
      if PioRead(s, c).sectorsLeft == 0 { CompleteJobs(PioRead(s, c), c, id); }
    } else if s.sectorsLeft == 0 {
      CompleteJobs(s, c, id);
    }
  }

  lemma CompleteJobs(s: State, c: nat, id: nat)
    requires Sized(s) && c in s.blocks && s.current == Some(c) && c !in s.queue
    requires forall q :: q in s.queue ==> q in s.blocks
    ensures OnDrive(Complete(s, c), id) <==> OnDrive(s, id) && id != c
    ensures Complete(s, c).blocks == s.blocks[c := Put(Unlock(s.blocks[c].(valid := true, dirty := false)), Drive)]
  {
    StartJobs(SetBlock(s, c, Put(Unlock(s.blocks[c].(valid := true, dirty := false)), Drive)).(current := None), id);
  }

  // ---------------------------------------------------------------- whole runs

  /** At some point of the run the disk holds this data in this sector. */
  ghost predicate Reaches(s: State, acts: seq<Act>, sector: nat, data: Data)
    requires Runs(s, acts)
    decreases |acts|
  {
    || (sector in s.disk && s.disk[sector] == data)
    || (acts != [] && Reaches(Next(s, acts[0]), acts[1..], sector, data))
  }

  /** A dirty block that the drive has is on the disk, with the data it was handed over with, before it is
      out of the drive's hands, whatever all other tasks do in the meantime. */
  lemma {:induction false} WrittenBeforeReleased(s: State, acts: seq<Act>, id: nat)
    requires Good(s) && Runs(s, acts) && OnDrive(s, id) && id in s.blocks && s.blocks[id].dirty
    requires !OnDrive(After(s, acts), id)
    ensures Reaches(s, acts, s.blocks[id].sector, s.blocks[id].data)
    decreases |acts|
  {
    StepKeeps(s, acts[0]);
    var s1 := Next(s, acts[0]);
    if acts[0].Intr? {
      InterruptJobs(s, id);
    } else {
      TaskJobs(s, acts[0], id);
    }
    if OnDrive(s1, id) {
      WrittenBeforeReleased(s1, acts[1..], id);
    } else {
      assert Reaches(s1, acts[1..], s.blocks[id].sector, s.blocks[id].data);
    }
  }

  /** A sync hands every block it finds dirty to the drive. */
  lemma SyncHandsOver(s: State, t: nat)
    requires Good(s) && Shape(s) && SyncEnabled(s, t, SyncSubmitStep)
    ensures var id, s' := PcOf(s, t).todo[0], SyncStepNext(s, t, SyncSubmitStep);
            s.blocks[id].dirty ==>
                OnDrive(s', id) && id in s'.blocks && s'.blocks[id].dirty && s'.blocks[id].data == s.blocks[id].data
  {
    var id := PcOf(s, t).todo[0];
    NotOnDrive(s, t, id);
    Facts(s, t, id);
    SubmitJobs(s, id, id);
  }

  /** A waiting sync goes past a block only when the drive has let go of it. */
  lemma SyncWaitsForDrive(s: State, t: nat)
    requires Good(s) && SyncEnabled(s, t, SyncWaitStep)
    ensures !OnDrive(s, PcOf(s, t).waits[0])
  {
    Facts(s, t, PcOf(s, t).waits[0]);
  }
}
