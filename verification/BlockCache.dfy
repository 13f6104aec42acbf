/** The block cache of src/block/bcache.c and include/protura/block/bcache.h with the request queue
    of src/drivers/block/ata.c, as a step system: every spinlock section, every unlocked test and
    every drive interrupt is one step, and any number of tasks interleave. One block device. */
module BlockCache {
  import opened Common

  /** A block's contents, one value per hardware sector. */
  type Data = seq<int>

  datatype Holder = Task(t: nat) | Drive

  /** `struct block`. The last three fields are history: who set LOCKED, who counts towards `refs`,
      and which task is still filling in a block that is not in the cache yet. */
  datatype Block = Block(sector: nat, data: Data, valid: bool, dirty: bool, locked: bool, refs: int,
                         owner: Option<Holder>, holders: multiset<Holder>, home: Option<nat>)

  /** Configuration: device number, hardware sectors per block, block size, cache limits, DMA. */
  datatype Config = Config(dev: nat, n: nat, blockSize: nat, maxSize: nat, shrinkSize: nat, dma: bool)

  const HASH_SIZE: nat := 1024

  /** What a task does when its sync is over: nothing, or the second pass of a cache shrink that had
      freed `freed` bytes, and then the allocation it was shrinking for. */
  datatype Kont = Return | SecondPass(freed: nat, sector: Option<nat>)

  datatype SyncArgs = SyncArgs(wait: bool, recheck: bool, k: Kont)

  /** Where a task is. */
  datatype Pc =
    | Idle
      // block_get_nosync
    | Find(sector: nat)
    | Alloc(sector: nat)
    | Insert(sector: nat, new_: nat)
      // block_get
    | Got(b: nat)
    | Check(b: nat)
    | WantLock(b: nat)
    | Submit(b: nat)
    | WaitSync(b: nat)
      // a client with a reference, with the lock, and between writing and marking dirty
    | Ref(b: nat)
    | Locked(b: nat)
    | Written(b: nat)
      // ext2_alloc_block_zero with the lock, before it clears the block
    | Clearing(b: nat)
      // block_dev_sync and block_sync_all
    | SyncWant(a: SyncArgs)
    | SyncCollect(a: SyncArgs)
    | SyncLock(todo: seq<nat>, waits: seq<nat>, a: SyncArgs)
    | SyncSubmit(todo: seq<nat>, waits: seq<nat>, a: SyncArgs)
    | SyncWait(waits: seq<nat>, a: SyncArgs)
      // __block_cache_shrink after its sync
    | Shrink2(freed: nat, then_: Option<nat>)

  datatype State = State(
    cfg: Config,
    blocks: map<nat, Block>,
    buckets: seq<seq<nat>>,
    lru: seq<nat>,
    cacheSize: int,
    disk: imap<nat, Data>,
    queue: seq<nat>,
    current: Option<nat>,
    sectorsLeft: nat,
    syncMutex: Option<nat>,
    pcs: map<nat, Pc>)

  function PcOf(s: State, t: nat): Pc
  {
    if t in s.pcs then s.pcs[t] else Idle
  }

  function SetPc(s: State, t: nat, pc: Pc): State
  {
    s.(pcs := s.pcs[t := pc])
  }

  function SetBlock(s: State, id: nat, b: Block): State
  {
    s.(blocks := s.blocks[id := b])
  }

  // ---------------------------------------------------------------- the index

  /** `block_hash` */
  function BlockHash(cfg: Config, sector: nat): (h: nat)
    ensures h < HASH_SIZE
  {
    Xor(cfg.dev, sector) % HASH_SIZE
  }

  function FindIn(blocks: map<nat, Block>, chain: seq<nat>, sector: nat): Option<nat>
  {
    if chain == [] then None
    else if chain[0] in blocks && blocks[chain[0]].sector == sector then Some(chain[0])
    else FindIn(blocks, chain[1..], sector)
  }

  /** `__find_block` */
  function FindBlock(s: State, sector: nat): Option<nat>
    requires |s.buckets| == HASH_SIZE
  {
    FindIn(s.blocks, s.buckets[BlockHash(s.cfg, sector)], sector)
  }

  /** `__block_uncache` and `block_delete` */
  function Uncache(s: State, id: nat): State
    requires |s.buckets| == HASH_SIZE && id in s.blocks
  {
    var h := BlockHash(s.cfg, s.blocks[id].sector);
    s.(cacheSize := s.cacheSize - s.cfg.blockSize,
       buckets := s.buckets[h := Without(s.buckets[h], id)],
       lru := Without(s.lru, id),
       blocks := s.blocks - {id})
  }

  /** `__block_cache` */
  function Cache(s: State, id: nat): State
    requires |s.buckets| == HASH_SIZE && id in s.blocks
  {
    var h := BlockHash(s.cfg, s.blocks[id].sector);
    s.(cacheSize := s.cacheSize + s.cfg.blockSize,
       buckets := s.buckets[h := [id] + s.buckets[h]],
       lru := s.lru + [id],
       blocks := s.blocks[id := s.blocks[id].(home := None)])
  }

  /** `inc_and_return`: a reference is counted and the block moves to the end of the LRU list. */
  function TakeRef(s: State, t: nat, id: nat): State
    requires id in s.blocks
  {
    SetBlock(s, id, Ref1(s.blocks[id], Task(t))).(lru := Without(s.lru, id) + [id])
  }

  /** A block the shrink pass takes: it can be locked, has no reference and is not dirty. */
  predicate Evictable(b: Block)
  {
    !b.locked && b.refs == 0 && !b.dirty
  }

  /** One pass of `__block_cache_shrink` over the LRU list. */
  function ShrinkPass(s: State, todo: seq<nat>, freed: nat): (State, nat)
    requires |s.buckets| == HASH_SIZE
    decreases |todo|
  {
    if todo == [] || freed >= s.cfg.shrinkSize then (s, freed)
    else if todo[0] in s.blocks && Evictable(s.blocks[todo[0]]) then
      ShrinkPass(Uncache(s, todo[0]), todo[1..], freed + s.cfg.blockSize)
    else ShrinkPass(s, todo[1..], freed)
  }

  // ---------------------------------------------------------------- block locks and references

  function Ref1(b: Block, who: Holder): Block
  {
    b.(refs := b.refs + 1, holders := b.holders + multiset{who})
  }

  function Lock(b: Block, who: Holder): Block
  {
    b.(locked := true, owner := Some(who))
  }

  function Unlock(b: Block): Block
  {
    b.(locked := false, owner := None)
  }

  function Put(b: Block, who: Holder): Block
  {
    b.(refs := b.refs - 1, holders := b.holders - multiset{who})
  }

  // ---------------------------------------------------------------- the drive

  /** `ata_pio_write_next_sector` for the current block. */
  function PioWrite(s: State, id: nat): State
    requires id in s.blocks && s.blocks[id].sector in s.disk
    requires 0 < s.sectorsLeft <= s.cfg.n == |s.blocks[id].data| == |s.disk[s.blocks[id].sector]|
  {
    var b := s.blocks[id];
    var k := s.cfg.n - s.sectorsLeft;
    s.(disk := s.disk[b.sector := s.disk[b.sector][k := b.data[k]]], sectorsLeft := s.sectorsLeft - 1)
  }

  /** `ata_pio_read_next_sector` for the current block. */
  function PioRead(s: State, id: nat): State
    requires id in s.blocks && s.blocks[id].sector in s.disk
    requires 0 < s.sectorsLeft <= s.cfg.n == |s.blocks[id].data| == |s.disk[s.blocks[id].sector]|
  {
    var b := s.blocks[id];
    var k := s.cfg.n - s.sectorsLeft;
    SetBlock(s, id, b.(data := b.data[k := s.disk[b.sector][k]])).(sectorsLeft := s.sectorsLeft - 1)
  }

  /** Block contents and disk contents have the block's length everywhere. */
  ghost predicate Sized(s: State)
  {
    && s.cfg.n > 0
    && (forall id :: id in s.blocks ==> |s.blocks[id].data| == s.cfg.n)
    && (forall k: nat :: k in s.disk && |s.disk[k]| == s.cfg.n)
  }

  /** `__ata_start_request` */
  ghost function StartRequest(s: State): (r: State)
    requires Sized(s) && forall id :: id in s.queue ==> id in s.blocks
    ensures r.blocks == s.blocks && r.pcs == s.pcs
  {
    if s.current.Some? || s.queue == [] then s
    else
      var id := s.queue[0];
      var s1 := s.(current := Some(id), queue := s.queue[1..], sectorsLeft := s.cfg.n);
      if !s.cfg.dma && s.blocks[id].dirty then PioWrite(s1, id) else s1
  }

  /** `ata_sync_block` by task `t`, which holds the lock: a clean block is just unlocked; any other is
      referenced by the drive, which now holds the lock, and queued. */
  ghost function SyncBlock(s: State, id: nat): (r: State)
    requires Sized(s) && id in s.blocks && forall q :: q in s.queue ==> q in s.blocks
    ensures id in r.blocks
  {
    var b := s.blocks[id];
    if b.valid && !b.dirty then SetBlock(s, id, Unlock(b))
    else
      StartRequest(SetBlock(s, id, Ref1(b, Drive).(owner := Some(Drive))).(queue := s.queue + [id]))
  }

  /** `block_mark_synced`, `block_unlockput` and the next request, when a transfer is over. */
  ghost function Complete(s: State, id: nat): State
    requires Sized(s) && id in s.blocks && forall q :: q in s.queue ==> q in s.blocks
  {
    StartRequest(SetBlock(s, id, Put(Unlock(s.blocks[id].(valid := true, dirty := false)), Drive)).(current := None))
  }

  /** The whole transfer at once, as DMA does it. */
  ghost function DmaTransfer(s: State, id: nat): State
    requires id in s.blocks && s.blocks[id].sector in s.disk
  {
    var b := s.blocks[id];
    if b.dirty then s.(disk := s.disk[b.sector := b.data])
    else SetBlock(s, id, b.(data := s.disk[b.sector]))
  }

  /** `__ata_handle_intr` once the drive is not busy. */
  ghost function Interrupt(s: State): State
    requires Sized(s) && s.current.Some? && s.current.value in s.blocks
    requires forall q :: q in s.queue ==> q in s.blocks
    requires s.sectorsLeft <= s.cfg.n
    requires !s.blocks[s.current.value].dirty ==> s.sectorsLeft > 0
  {
    var id := s.current.value;
    if s.cfg.dma then Complete(DmaTransfer(s, id), id)
    else if !s.blocks[id].dirty then
      var s1 := PioRead(s, id);
      if s1.sectorsLeft == 0 then Complete(s1, id) else s1
    else if s.sectorsLeft == 0 then Complete(s, id)
    else PioWrite(s, id)
  }

  // ---------------------------------------------------------------- steps

  /** What a step shows to the outside: a client reading, writing or clearing a block it has locked. */
  datatype Event = Silent | Read(sector: nat, data: Data) | Write(sector: nat, data: Data)

  /** The steps of `block_get`. */
  datatype GetOp = FindStep | AllocStep(id: nat) | InsertStep | GotStep | CheckStep | LockStep | SubmitStep | WaitStep

  /** The steps of a client that has a reference. */
  datatype ClientOp =
    ClientLock | ClientRead | ClientWrite(data: Data) | ClientMarkDirty | ClientUnlock | ClientPut | ClientDup(u: nat)

  /** The steps of `ext2_alloc_block_zero` after `block_get_nosync`: the lock, and then the clearing together
      with the marking, which only the holder of the lock could tell apart. The code marks the block synced;
      `dirty` is the variant that marks it dirty as well. From there on the task is a client with the lock. */
  datatype ZeroOp = ZeroLock | ZeroClear(dirty: bool)

  /** The steps of a sync. */
  datatype SyncOp = SyncEnter | CollectStep | SyncLockStep | SyncSubmitStep | SyncNext | SyncWaitStep

  datatype Act =
    | StartGet(t: nat, sector: nat)
    | Get(t: nat, get: GetOp)
    | Client(t: nat, client: ClientOp)
    | Zero(t: nat, zero: ZeroOp)
    | StartSync(t: nat, wait: bool, recheck: bool)
    | Sync(t: nat, sync: SyncOp)
    | Oom(t: nat)
    | SecondShrink(t: nat)
    | Intr

  /** The block a task's program counter points at, for the states that have one. */
  predicate At(s: State, t: nat, id: nat)
  {
    id in s.blocks &&
    match PcOf(s, t)
    case Got(b) => b == id
    case Check(b) => b == id
    case WantLock(b) => b == id
    case Submit(b) => b == id
    case WaitSync(b) => b == id
    case Ref(b) => b == id
    case Locked(b) => b == id
    case Written(b) => b == id
    case Clearing(b) => b == id
    case SyncLock(todo, _, _) => todo != [] && todo[0] == id
    case SyncSubmit(todo, _, _) => todo != [] && todo[0] == id
    case SyncWait(waits, _) => waits != [] && waits[0] == id
    case _ => false
  }

  ghost predicate Shape(s: State)
  {
    && |s.buckets| == HASH_SIZE && Sized(s)
    && (forall q :: q in s.queue ==> q in s.blocks)
  }

  predicate GetEnabled(s: State, t: nat, op: GetOp)
  {
    var pc := PcOf(s, t);
    match op
    case FindStep => pc.Find?
    case AllocStep(id) => pc.Alloc? && id !in s.blocks
    case InsertStep => pc.Insert? && pc.new_ in s.blocks
    case GotStep => pc.Got? && At(s, t, pc.b)
    case CheckStep => pc.Check? && At(s, t, pc.b)
    case LockStep => pc.WantLock? && At(s, t, pc.b) && !s.blocks[pc.b].locked
    case SubmitStep => pc.Submit? && At(s, t, pc.b)
    case WaitStep => pc.WaitSync? && At(s, t, pc.b) && !s.blocks[pc.b].locked
  }

  predicate ClientEnabled(s: State, t: nat, op: ClientOp)
  {
    var pc := PcOf(s, t);
    match op
    case ClientLock => pc.Ref? && At(s, t, pc.b) && !s.blocks[pc.b].locked
    case ClientRead => pc.Locked? && At(s, t, pc.b)
    case ClientWrite(d) => pc.Locked? && At(s, t, pc.b) && |d| == s.cfg.n
    case ClientMarkDirty => pc.Written? && At(s, t, pc.b)
    case ClientUnlock => pc.Locked? && At(s, t, pc.b)
    case ClientPut => pc.Ref? && At(s, t, pc.b)
    case ClientDup(u) => pc.Ref? && At(s, t, pc.b) && t != u && PcOf(s, u).Idle?
  }

  predicate ZeroEnabled(s: State, t: nat, op: ZeroOp)
  {
    var pc := PcOf(s, t);
    match op
    case ZeroLock => pc.Got? && At(s, t, pc.b) && !s.blocks[pc.b].locked
    case ZeroClear(_) => pc.Clearing? && At(s, t, pc.b)
  }

  predicate SyncEnabled(s: State, t: nat, op: SyncOp)
  {
    var pc := PcOf(s, t);
    match op
    case SyncEnter => pc.SyncWant? && s.syncMutex.None?
    case CollectStep => pc.SyncCollect?
    case SyncLockStep => pc.SyncLock? && pc.todo != [] && At(s, t, pc.todo[0]) && !s.blocks[pc.todo[0]].locked
    case SyncSubmitStep => pc.SyncSubmit? && pc.todo != [] && At(s, t, pc.todo[0])
    case SyncNext => (pc.SyncLock? && pc.todo == []) || (pc.SyncWait? && pc.waits == [])
    case SyncWaitStep => pc.SyncWait? && pc.waits != [] && At(s, t, pc.waits[0]) && !s.blocks[pc.waits[0]].locked
  }

  /** The drive has a request, and the interrupt finds it in a state `__ata_handle_intr` can serve. */
  predicate IntrEnabled(s: State)
  {
    s.current.Some? && s.current.value in s.blocks && s.sectorsLeft <= s.cfg.n &&
    (!s.blocks[s.current.value].dirty ==> s.sectorsLeft > 0)
  }

  predicate Enabled(s: State, a: Act)
  {
    match a
    case StartGet(t, _) => PcOf(s, t).Idle?
    case Get(t, op) => GetEnabled(s, t, op)
    case Client(t, op) => ClientEnabled(s, t, op)
    case Zero(t, op) => ZeroEnabled(s, t, op)
    case StartSync(t, _, _) => PcOf(s, t).Idle?
    case Sync(t, op) => SyncEnabled(s, t, op)
    case Oom(t) => PcOf(s, t).Idle?
    case SecondShrink(t) => PcOf(s, t).Shrink2?
    case Intr => IntrEnabled(s)
  }

  /** Where a task goes when its sync is over. */
  function AfterSync(k: Kont): Pc
  {
    match k
    case Return => Idle
    case SecondPass(freed, sector) => Shrink2(freed, sector)
  }

  /** The shrink that precedes an allocation or answers an out-of-memory call. */
  function ShrinkStep(s: State, t: nat, then_: Option<nat>): State
    requires |s.buckets| == HASH_SIZE
  {
    var (s1, freed) := ShrinkPass(s, s.lru, 0);
    if freed < s.cfg.shrinkSize then SetPc(s1, t, SyncWant(SyncArgs(true, true, SecondPass(freed, then_))))
    else SetPc(s1, t, AfterShrink(then_))
  }

  function AfterShrink(then_: Option<nat>): Pc
  {
    match then_
    case None => Idle
    case Some(sector) => Alloc(sector)
  }

  /** The blocks a sync collects: VALID and DIRTY, chain by chain. */
  function CollectAll(blocks: map<nat, Block>, buckets: seq<seq<nat>>): seq<nat>
  {
    SelectAll(buckets, id => id in blocks && blocks[id].valid && blocks[id].dirty)
  }

  function RefAll(blocks: map<nat, Block>, ids: seq<nat>, t: nat): map<nat, Block>
  {
    map id | id in blocks ::
      if id in ids then Ref1(blocks[id], Task(t)) else blocks[id]
  }

  /** The test at src/block/bcache.c:387: a collected block turned clean before it could be locked. */
  predicate EarlyContinue(s: State, t: nat)
  {
    && PcOf(s, t).SyncSubmit? && PcOf(s, t).todo != [] && PcOf(s, t).todo[0] in s.blocks
    && PcOf(s, t).a.recheck
    && !(s.blocks[PcOf(s, t).todo[0]].valid && s.blocks[PcOf(s, t).todo[0]].dirty)
  }

  // The steps that do more than move one task or change one block.

  function FindNext(s: State, t: nat, sector: nat): State
    requires |s.buckets| == HASH_SIZE
  {
    var found := FindBlock(s, sector);
    if found.Some? && found.value in s.blocks then SetPc(TakeRef(s, t, found.value), t, Got(found.value))
    else if s.cacheSize >= s.cfg.maxSize then ShrinkStep(s, t, Some(sector))
    else SetPc(s, t, Alloc(sector))
  }

  /** A block of zeros. */
  function Zeros(s: State): Data
  {
    seq(s.cfg.n, _ => 0)
  }

  function NewBlock(s: State, t: nat, sector: nat): Block
  {
    Block(sector, Zeros(s), false, false, false, 0, None, multiset{}, Some(t))
  }

  function InsertNext(s: State, t: nat, sector: nat, id: nat): State
    requires |s.buckets| == HASH_SIZE && id in s.blocks
  {
    var found := FindBlock(s, sector);
    if found.Some? && found.value in s.blocks && found.value != id then
      SetPc(TakeRef(s.(blocks := s.blocks - {id}), t, found.value), t, Got(found.value))
    else SetPc(TakeRef(Cache(s, id), t, id), t, Got(id))
  }

  function CollectNext(s: State, t: nat, a: SyncArgs): State
  {
    var ids := CollectAll(s.blocks, s.buckets);
    SetPc(s.(blocks := RefAll(s.blocks, ids, t)), t, SyncLock(ids, [], a))
  }

  ghost function SyncSubmitNext(s: State, t: nat, todo: seq<nat>, waits: seq<nat>, a: SyncArgs): State
    requires Shape(s) && todo != [] && todo[0] in s.blocks
  {
    var id := todo[0];
    var waits' := if a.wait then waits + [id] else waits;
    if a.recheck && !(s.blocks[id].valid && s.blocks[id].dirty) then
      SetPc(SetBlock(s, id, Put(Unlock(s.blocks[id]), Task(t))), t, SyncLock(todo[1..], waits', a))
    else
      var s1 := SyncBlock(s, id);
      SetPc(if a.wait then s1 else SetBlock(s1, id, Put(s1.blocks[id], Task(t))), t, SyncLock(todo[1..], waits', a))
  }

  /** A step that changes one block and moves one task. */
  function Local(s: State, t: nat, id: nat, b: Block, pc: Pc): State
  {
    SetPc(SetBlock(s, id, b), t, pc)
  }

  ghost function GetNext(s: State, t: nat, op: GetOp): State
    requires Shape(s) && GetEnabled(s, t, op)
  {
    var pc := PcOf(s, t);
    match op
    case FindStep => FindNext(s, t, pc.sector)
    case AllocStep(id) => Local(s, t, id, NewBlock(s, t, pc.sector), Insert(pc.sector, id))
    case InsertStep => InsertNext(s, t, pc.sector, pc.new_)
    case GotStep => SetPc(s, t, if s.blocks[pc.b].valid then Ref(pc.b) else Check(pc.b))
    case CheckStep =>
      var b := s.blocks[pc.b];
      SetPc(s, t, if b.locked then WaitSync(pc.b) else if !b.valid then WantLock(pc.b) else Ref(pc.b))
    case LockStep => Local(s, t, pc.b, Lock(s.blocks[pc.b], Task(t)), Submit(pc.b))
    case SubmitStep => SetPc(SyncBlock(s, pc.b), t, WaitSync(pc.b))
    case WaitStep => SetPc(s, t, Ref(pc.b))
  }

  function ClientNext(s: State, t: nat, op: ClientOp): State
    requires ClientEnabled(s, t, op)
  {
    var id := PcOf(s, t).b;
    var b := s.blocks[id];
    match op
    case ClientLock => Local(s, t, id, Lock(b, Task(t)), Locked(id))
    case ClientRead => s
    case ClientWrite(d) => Local(s, t, id, b.(data := d), Written(id))
    case ClientMarkDirty => Local(s, t, id, b.(dirty := true), Locked(id))
    case ClientUnlock => Local(s, t, id, Unlock(b), Ref(id))
    case ClientPut => Local(s, t, id, Put(b, Task(t)), Idle)
    case ClientDup(u) => Local(s, u, id, Ref1(b, Task(u)), Ref(id))
  }

  function ZeroNext(s: State, t: nat, op: ZeroOp): State
    requires ZeroEnabled(s, t, op)
  {
    var id := PcOf(s, t).b;
    var b := s.blocks[id];
    match op
    case ZeroLock => Local(s, t, id, Lock(b, Task(t)), Clearing(id))
    case ZeroClear(dirty) => Local(s, t, id, b.(data := Zeros(s), valid := true, dirty := dirty), Locked(id))
  }

  ghost function SyncStepNext(s: State, t: nat, op: SyncOp): State
    requires Shape(s) && SyncEnabled(s, t, op)
  {
    var pc := PcOf(s, t);
    match op
    case SyncEnter => SetPc(s, t, SyncCollect(pc.a)).(syncMutex := Some(t))
    case CollectStep => CollectNext(s, t, pc.a)
    case SyncLockStep =>
      Local(s, t, pc.todo[0], Lock(s.blocks[pc.todo[0]], Task(t)), SyncSubmit(pc.todo, pc.waits, pc.a))
    case SyncSubmitStep => SyncSubmitNext(s, t, pc.todo, pc.waits, pc.a)
    case SyncNext =>
      if pc.SyncLock? && pc.a.wait then SetPc(s, t, SyncWait(pc.waits, pc.a))
      else SetPc(s, t, AfterSync(pc.a.k)).(syncMutex := None)
    case SyncWaitStep => Local(s, t, pc.waits[0], Put(s.blocks[pc.waits[0]], Task(t)), SyncWait(pc.waits[1..], pc.a))
  }

  ghost function Next(s: State, a: Act): State
    requires Shape(s) && Enabled(s, a)
  {
    match a
    case StartGet(t, sector) => SetPc(s, t, Find(sector))
    case Get(t, op) => GetNext(s, t, op)
    case Client(t, op) => ClientNext(s, t, op)
    case Zero(t, op) => ZeroNext(s, t, op)
    case StartSync(t, wait, recheck) => SetPc(s, t, SyncWant(SyncArgs(wait, recheck, Return)))
    case Sync(t, op) => SyncStepNext(s, t, op)
    case Oom(t) => ShrinkStep(s, t, None)
    case SecondShrink(t) => SetPc(ShrinkPass(s, s.lru, PcOf(s, t).freed).0, t, AfterShrink(PcOf(s, t).then_))
    case Intr => Interrupt(s)
  }

  /** What the step shows. */
  function EventOf(s: State, a: Act): Event
    requires Enabled(s, a)
  {
    match a
    case Client(t, ClientRead) => Read(s.blocks[PcOf(s, t).b].sector, s.blocks[PcOf(s, t).b].data)
    case Client(t, ClientWrite(d)) => Write(s.blocks[PcOf(s, t).b].sector, d)
    case Zero(t, ZeroClear(_)) => Write(s.blocks[PcOf(s, t).b].sector, Zeros(s))
    case _ => Silent
  }
}
