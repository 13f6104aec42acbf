/** The steps of clients, of `block_get` after the lookup, and of a sync, one at a time. */
module BlockCacheClient {
  import opened Common
  import opened BlockCache
  import opened BlockCacheInv
  import opened BlockCacheLocal

  /** A step looks like the event to a flat disk: only a write changes a sector, a read returns it. */
  ghost predicate Shows(s: State, e: Event, s': State)
    requires Inv(s) && Inv(s')
  {
    && (forall sector: nat :: Logical(s', sector) ==
          if e.Write? && e.sector == sector then e.data else Logical(s, sector))
    && (e.Read? ==> e.data == Logical(s, e.sector))
  }

  /** A task moves on without touching a block; it may take or give back the sync mutex. */
  lemma MoveKeeps(s: State, t: nat, pc: Pc, mutex: Option<nat>)
    requires Inv(s)
    requires forall x: nat :: Owed(pc, x) == Owed(PcOf(s, t), x) && (HasLock(pc, x) <==> HasLock(PcOf(s, t), x))
    requires forall u: nat :: u != t ==> (s.syncMutex == Some(u) <==> mutex == Some(u))
    requires !PcOf(s, t).Written? && !pc.Written?
    requires TaskOk(SetPc(s, t, pc).(syncMutex := mutex), t)
    ensures Inv(SetPc(s, t, pc).(syncMutex := mutex))
    ensures Shows(s, Silent, SetPc(s, t, pc).(syncMutex := mutex))
  {
    var s' := SetPc(s, t, pc).(syncMutex := mutex);
    forall x: nat, u: nat ensures RefOk(s', x, u) && LockOk(s', x, u) { assert RefOk(s, x, u) && LockOk(s, x, u); }
    forall x: nat ensures CountOk(s', x) && OwnerOk(s', x) { assert CountOk(s, x) && OwnerOk(s, x); }
    MoveRest(s, t, pc, mutex);
    forall sector: nat ensures Logical(s', sector) == Logical(s, sector) {
      forall x: nat ensures LivesIn(s, x, sector) <==> LivesIn(s', x, sector) { }
      SameLogical(s, s', sector);
    }
  }

  /** The blocks a task relies on are still there, as valid as they were, and as locked or else valid. */
  predicate StillGood(s: State, s': State)
  {
    && s'.syncMutex == s.syncMutex
    && forall x: nat :: x in s.blocks ==>
         && x in s'.blocks && s'.blocks[x].sector == s.blocks[x].sector && s'.blocks[x].home == s.blocks[x].home
         && (s.blocks[x].valid ==> s'.blocks[x].valid)
         && (s.blocks[x].locked ==> s'.blocks[x].locked || s'.blocks[x].valid)
  }

  lemma TaskKept(s: State, s': State, u: nat)
    requires StillGood(s, s') && TaskOk(s, u) && PcOf(s', u) == PcOf(s, u)
    ensures TaskOk(s', u)
  {
  }

  lemma MoveRest(s: State, t: nat, pc: Pc, mutex: Option<nat>)
    requires Inv(s)
    requires forall u: nat :: u != t ==> (s.syncMutex == Some(u) <==> mutex == Some(u))
    requires !PcOf(s, t).Written? && !pc.Written?
    requires TaskOk(SetPc(s, t, pc).(syncMutex := mutex), t)
    ensures var s' := SetPc(s, t, pc).(syncMutex := mutex);
            Sized(s') && Index(s') && Tasks(s') && Coherent(s') && DriveOk(s')
  {
    var s' := SetPc(s, t, pc).(syncMutex := mutex);
    IndexSame(s, s');
    forall x: nat ensures OnDriveOk(s', x) { assert OnDriveOk(s, x); }
    forall u: nat ensures TaskOk(s', u) { assert TaskOk(s, u); }
    forall x: nat ensures BlockOk(s', x) { assert BlockOk(s, x); }
  }

  /** What the invariant says about one block and one task. */
  lemma Facts(s: State, t: nat, id: nat)
    requires Inv(s)
    ensures RefOk(s, id, t) && CountOk(s, id) && LockOk(s, id, t) && OwnerOk(s, id) && TaskOk(s, t) && BlockOk(s, id)
            && CachedOk(s, id) && OnDriveOk(s, id)
  {
  }

  lemma ClientLocks(s: State, t: nat)
    requires Inv(s) && ClientEnabled(s, t, ClientLock)
    ensures Inv(ClientNext(s, t, ClientLock)) && Shows(s, Silent, ClientNext(s, t, ClientLock))
  {
    var id := PcOf(s, t).b;
    Facts(s, t, id);
    LocalKeeps(s, t, id, Lock(s.blocks[id], Task(t)), Locked(id));
  }

  lemma ClientUnlocks(s: State, t: nat)
    requires Inv(s) && ClientEnabled(s, t, ClientUnlock)
    ensures Inv(ClientNext(s, t, ClientUnlock)) && Shows(s, Silent, ClientNext(s, t, ClientUnlock))
  {
    var id := PcOf(s, t).b;
    Facts(s, t, id);
    LocalKeeps(s, t, id, Unlock(s.blocks[id]), Ref(id));
  }

  lemma ClientReads(s: State, t: nat)
    requires Inv(s) && ClientEnabled(s, t, ClientRead)
    ensures Shows(s, EventOf(s, Client(t, ClientRead)), s)
  {
    var id := PcOf(s, t).b;
    Facts(s, t, id);
    FindExact(s, s.blocks[id].sector);
  }

  lemma ClientWrites(s: State, t: nat, d: Data)
    requires Inv(s) && ClientEnabled(s, t, ClientWrite(d))
    ensures Inv(ClientNext(s, t, ClientWrite(d)))
    ensures Shows(s, Write(s.blocks[PcOf(s, t).b].sector, d), ClientNext(s, t, ClientWrite(d)))
  {
    var id := PcOf(s, t).b;
    Facts(s, t, id);
    LocalKeeps(s, t, id, s.blocks[id].(data := d), Written(id));
    FindExact(ClientNext(s, t, ClientWrite(d)), s.blocks[id].sector);
  }

  lemma ClientMarksDirty(s: State, t: nat)
    requires Inv(s) && ClientEnabled(s, t, ClientMarkDirty)
    ensures Inv(ClientNext(s, t, ClientMarkDirty)) && Shows(s, Silent, ClientNext(s, t, ClientMarkDirty))
  {
    var id := PcOf(s, t).b;
    Facts(s, t, id);
    LocalKeeps(s, t, id, s.blocks[id].(dirty := true), Locked(id));
  }

  lemma ClientPuts(s: State, t: nat)
    requires Inv(s) && ClientEnabled(s, t, ClientPut)
    ensures Inv(ClientNext(s, t, ClientPut)) && Shows(s, Silent, ClientNext(s, t, ClientPut))
  {
    var id := PcOf(s, t).b;
    Facts(s, t, id);
    LocalKeeps(s, t, id, Put(s.blocks[id], Task(t)), Idle);
  }

  lemma ClientDups(s: State, t: nat, u: nat)
    requires Inv(s) && ClientEnabled(s, t, ClientDup(u))
    ensures Inv(ClientNext(s, t, ClientDup(u))) && Shows(s, Silent, ClientNext(s, t, ClientDup(u)))
  {
    var id := PcOf(s, t).b;
    Facts(s, t, id);
    Facts(s, u, id);
    LocalKeeps(s, u, id, Ref1(s.blocks[id], Task(u)), Ref(id));
  }

  // ---------------------------------------------------------------- clearing a new block

  lemma ZeroLocks(s: State, t: nat)
    requires Inv(s) && ZeroEnabled(s, t, ZeroLock)
    ensures Inv(ZeroNext(s, t, ZeroLock)) && Shows(s, Silent, ZeroNext(s, t, ZeroLock))
  {
    var id := PcOf(s, t).b;
    Facts(s, t, id);
    LocalKeeps(s, t, id, Lock(s.blocks[id], Task(t)), Clearing(id));
  }

  /** Clearing a block and marking it dirty is a write of zeros; so is marking it synced, if the disk has the
      zeros already. */
  lemma ZeroClears(s: State, t: nat, dirty: bool)
    requires Inv(s) && ZeroEnabled(s, t, ZeroClear(dirty))
    requires dirty || s.disk[s.blocks[PcOf(s, t).b].sector] == Zeros(s)
    ensures Inv(ZeroNext(s, t, ZeroClear(dirty)))
    ensures Shows(s, Write(s.blocks[PcOf(s, t).b].sector, Zeros(s)), ZeroNext(s, t, ZeroClear(dirty)))
  {
    var id := PcOf(s, t).b;
    Facts(s, t, id);
    LocalKeeps(s, t, id, s.blocks[id].(data := Zeros(s), valid := true, dirty := dirty), Locked(id));
    FindExact(ZeroNext(s, t, ZeroClear(dirty)), s.blocks[id].sector);
  }

  /** Marking a cleared block synced breaks the invariant unless the disk has the zeros. */
  lemma UnwrittenBreaks(s: State, t: nat)
    requires Inv(s) && ZeroEnabled(s, t, ZeroClear(false)) && s.disk[s.blocks[PcOf(s, t).b].sector] != Zeros(s)
    ensures !Inv(ZeroNext(s, t, ZeroClear(false)))
  {
    var id, s' := PcOf(s, t).b, ZeroNext(s, t, ZeroClear(false));
    Facts(s, t, id);
    if Sized(s') { assert !BlockOk(s', id); }
  }

  lemma ClientStep(s: State, t: nat, op: ClientOp)
    requires Inv(s) && ClientEnabled(s, t, op)
    ensures Inv(ClientNext(s, t, op)) && Shows(s, EventOf(s, Client(t, op)), ClientNext(s, t, op))
  {
    match op
    case ClientLock => ClientLocks(s, t);
    case ClientRead => ClientReads(s, t);
    case ClientWrite(d) => ClientWrites(s, t, d);
    case ClientMarkDirty => ClientMarksDirty(s, t);
    case ClientUnlock => ClientUnlocks(s, t);
    case ClientPut => ClientPuts(s, t);
    case ClientDup(u) => ClientDups(s, t, u);
  }
}
