/** The inode table of src/fs/inode_table.c as a step system over any number of tasks: lookup, creation,
    release, write-back, eviction and reclaim, with each spinlock section one step. */
module InodeTable {
  import opened Common

  /** `struct inode`, as far as the table is concerned. Its contents are a version, `mem`, that every change
      makes one larger; the version on the disk is part of the state. The last fields are history: the tasks
      that count towards `ref`, the task that still (or again) has the inode to itself, and the tasks that set
      FREEING, set SYNC and are to set VALID. */
  datatype Inode = Inode(sb: nat, ino: nat, ref: int, nlinks: nat, mem: nat,
                         valid: bool, dirty: bool, freeing: bool, sync: bool, bad: bool, hashed: bool,
                         holders: multiset<nat>, home: Option<nat>,
                         reaper: Option<nat>, syncer: Option<nat>, filler: Option<nat>)

  const HASH_SIZE: nat := 512

  /** What is left to do after an inode is done with: nothing, the rest of a sync list, the rest of a
      list of inodes being freed, or another scan of a super block being cleared. */
  datatype Kont =
    | Return
    | SyncRest(list: seq<nat>, wait: bool)
    | FinishRest(list: seq<nat>)
    | ClearAgain(sb: nat, root: nat)

  /** What follows a write to disk: back to the client, a put, or removal from the table. */
  datatype WKont = ToHeld | ToPut(k: Kont) | ToUncache(k: Kont)

  /** How far `inode_write_to_disk` has come: about to test the flags, waiting for another task's write,
      about to copy the inode to the disk, or about to clear SYNC and DIRTY. */
  datatype Stage = Test(wait: bool) | Waiting | Copying | Clearing

  datatype Pc =
    | Idle
      // inode_get
    | GetFind(sb: nat, ino: nat, new_: Option<nat>)
    | GetAsleep(sb: nat, ino: nat, new_: Option<nat>, on: nat)
    | GetCreate(sb: nat, ino: nat)
    | GetFound(i: nat, new_: Option<nat>)
    | GetWait(i: nat)
    | GetCheck(i: nat)
    | GetFill(i: nat)
    | BadDealloc(i: nat)
      // a client with a reference, and one that has yet to mark its change
    | Held(i: nat)
    | Changed(i: nat)
      // inode_put, inode_write_to_disk
    | Put(i: nat, k: Kont)
    | Write(i: nat, stage: Stage, wk: WKont)
      // inode_evict, inode_finish
    | Uncache(i: nat, k: Kont)
    | Dealloc(i: nat, k: Kont)
    | WakeAll(k: Kont)
      // inode_clear_super
    | ClearScan(sb: nat, root: nat)
    | ClearAsleep(sb: nat, root: nat, on: nat)

  datatype State = State(
    inodes: map<nat, Inode>,
    buckets: seq<seq<nat>>,
    waiters: set<nat>,                // tasks registered on inode_freeing_queue
    pcs: map<nat, Pc>,
    disk: map<(nat, nat), nat>)       // the version on the disk of each inode ever written

  /** The version on the disk. */
  function OnDisk(s: State, sb: nat, ino: nat): nat
  {
    if (sb, ino) in s.disk then s.disk[(sb, ino)] else 0
  }

  function PcOf(s: State, t: nat): Pc
  {
    if t in s.pcs then s.pcs[t] else Idle
  }

  function SetPc(s: State, t: nat, pc: Pc): State
  {
    s.(pcs := s.pcs[t := pc])
  }

  function SetInode(s: State, i: nat, x: Inode): State
  {
    s.(inodes := s.inodes[i := x])
  }

  /** A step that changes one inode and moves one task. */
  function Local(s: State, t: nat, i: nat, x: Inode, pc: Pc): State
  {
    SetPc(SetInode(s, i, x), t, pc)
  }

  // ---------------------------------------------------------------- the hash table

  /** `inode_hash_get`, with the pointer's halves swapped and mixed in. */
  function InodeHash(sb: nat, ino: nat): (h: nat)
    ensures h < HASH_SIZE
  {
    var mixed := Xor(sb, sb / 0x1_0000 + (sb % 0x1_0000) * 0x1_0000);
    Xor(ino, mixed) % HASH_SIZE
  }

  function FindIn(inodes: map<nat, Inode>, chain: seq<nat>, sb: nat, ino: nat): Option<nat>
  {
    if chain == [] then None
    else if chain[0] in inodes && inodes[chain[0]].sb == sb && inodes[chain[0]].ino == ino then Some(chain[0])
    else FindIn(inodes, chain[1..], sb, ino)
  }

  function Lookup(s: State, sb: nat, ino: nat): Option<nat>
    requires |s.buckets| == HASH_SIZE
  {
    FindIn(s.inodes, s.buckets[InodeHash(sb, ino)], sb, ino)
  }

  /** `__inode_hash_add` */
  function HashAdd(s: State, i: nat): State
    requires |s.buckets| == HASH_SIZE && i in s.inodes
  {
    var h := InodeHash(s.inodes[i].sb, s.inodes[i].ino);
    s.(buckets := s.buckets[h := [i] + s.buckets[h]], inodes := s.inodes[i := s.inodes[i].(hashed := true)])
  }

  /** `__inode_uncache` */
  function HashDel(s: State, i: nat): State
    requires |s.buckets| == HASH_SIZE && i in s.inodes
  {
    var h := InodeHash(s.inodes[i].sb, s.inodes[i].ino);
    s.(buckets := s.buckets[h := Without(s.buckets[h], i)], inodes := s.inodes[i := s.inodes[i].(hashed := false)])
  }

  // ---------------------------------------------------------------- references and flags

  function Ref1(x: Inode, t: nat): Inode
  {
    x.(ref := x.ref + 1, holders := x.holders + multiset{t})
  }

  function Unref(x: Inode, t: nat): Inode
  {
    x.(ref := x.ref - 1, holders := x.holders - multiset{t})
  }

  function MarkFreeing(x: Inode, t: nat): Inode
  {
    x.(freeing := true, reaper := Some(t))
  }

  function NewInode(sb: nat, ino: nat, nlinks: nat, t: nat): Inode
  {
    Inode(sb, ino, 1, nlinks, 0, false, false, false, false, false, false, multiset{t}, Some(t), None, None, None)
  }

  // ---------------------------------------------------------------- steps

  /** `inode_get` and `inode_get_invalid` */
  datatype GetOp =
    FindStep | WakeUp | CreateStep(id: nat, nlinks: nat) | FoundStep | WaitStep | CheckStep | ReadOk | ReadFails
    | BadDeallocStep

  /** A client with a reference. */
  datatype ClientOp = Change(nlinks: nat) | Mark | Dup(u: nat) | StartPut | StartWrite(wait: bool) | StartClear

  /** `inode_put`, `inode_write_to_disk`, `inode_evict` and `inode_finish` */
  datatype WorkOp = PutStep | WriteStep | WriteWaitStep | CopyStep | WriteDone | UncacheStep | DeallocStep | WakeStep

  /** `inode_clear_super` */
  datatype ClearOp = ClearStep(id: nat) | ClearRoot | ClearBusy | ClearWakeUp

  datatype Act =
    | StartGet(t: nat, sb: nat, ino: nat)
    | Get(t: nat, get: GetOp)
    | Client(t: nat, client: ClientOp)
    | Work(t: nat, work: WorkOp)
    | Clear(t: nat, clear: ClearOp)
    | SyncCollect(t: nat, only: Option<nat>, wait: bool)
    | OomCollect(t: nat)

  /** Where the task goes once an inode is dealt with. */
  function Continue(k: Kont): Pc
  {
    match k
    case Return => Idle
    case SyncRest(list, wait) =>
      if list == [] then Idle else Write(list[0], Test(wait), ToPut(SyncRest(list[1..], wait)))
    case FinishRest(list) => if list == [] then Idle else Write(list[0], Test(true), ToUncache(FinishRest(list[1..])))
    case ClearAgain(sb, root) => ClearScan(sb, root)
  }

  function AfterWrite(i: nat, wk: WKont): Pc
  {
    match wk
    case ToHeld => Held(i)
    case ToPut(k) => Put(i, k)
    case ToUncache(k) => Uncache(i, k)
  }

  /** An inode of the super block without references: `inode_clear_super` has work to do. */
  predicate Clearable(s: State, i: nat, sb: nat)
  {
    i in s.inodes && s.inodes[i].hashed && s.inodes[i].sb == sb && s.inodes[i].ref == 0
  }

  /** The root is the only inode left of its super block, and the caller has the only reference to it. */
  predicate OnlyRoot(s: State, sb: nat, root: nat)
  {
    && root in s.inodes && s.inodes[root].hashed && s.inodes[root].sb == sb && s.inodes[root].ref == 1
    && forall i :: i in s.inodes && s.inodes[i].hashed && s.inodes[i].sb == sb ==> i == root
  }

  predicate GetEnabled(s: State, t: nat, op: GetOp)
  {
    var pc := PcOf(s, t);
    match op
    case FindStep => pc.GetFind? && |s.buckets| == HASH_SIZE && (pc.new_.Some? ==> pc.new_.value in s.inodes)
    case WakeUp => pc.GetAsleep? && t !in s.waiters
    case CreateStep(id, _) => pc.GetCreate? && id !in s.inodes
    case FoundStep => pc.GetFound?
    case WaitStep => pc.GetWait? && pc.i in s.inodes && (s.inodes[pc.i].valid || s.inodes[pc.i].bad)
    case CheckStep => pc.GetCheck? && |s.buckets| == HASH_SIZE && pc.i in s.inodes
    case ReadOk => pc.GetFill? && pc.i in s.inodes
    case ReadFails => pc.GetFill? && |s.buckets| == HASH_SIZE && pc.i in s.inodes
    case BadDeallocStep => pc.BadDealloc?
  }

  predicate ClientEnabled(s: State, t: nat, op: ClientOp)
  {
    && (if op.Mark? then PcOf(s, t).Changed? else PcOf(s, t).Held?)
    && PcOf(s, t).i in s.inodes && (op.Dup? ==> op.u != t && PcOf(s, op.u).Idle?)
  }

  predicate WorkEnabled(s: State, t: nat, op: WorkOp)
  {
    var pc := PcOf(s, t);
    match op
    case PutStep => pc.Put? && pc.i in s.inodes
    case WriteStep => pc.Write? && pc.stage.Test? && pc.i in s.inodes
    case WriteWaitStep => pc.Write? && pc.stage.Waiting? && pc.i in s.inodes && !s.inodes[pc.i].sync
    case CopyStep => pc.Write? && pc.stage.Copying? && pc.i in s.inodes
    case WriteDone => pc.Write? && pc.stage.Clearing? && pc.i in s.inodes
    case UncacheStep => pc.Uncache? && |s.buckets| == HASH_SIZE && pc.i in s.inodes
    case DeallocStep => pc.Dealloc?
    case WakeStep => pc.WakeAll?
  }

  predicate ClearEnabled(s: State, t: nat, op: ClearOp)
  {
    var pc := PcOf(s, t);
    match op
    case ClearStep(id) => pc.ClearScan? && Clearable(s, id, pc.sb)
    case ClearRoot => pc.ClearScan? && (forall i :: i in s.inodes ==> !Clearable(s, i, pc.sb)) &&
        OnlyRoot(s, pc.sb, pc.root)
    case ClearBusy => pc.ClearScan? && (forall i :: i in s.inodes ==> !Clearable(s, i, pc.sb)) &&
        !OnlyRoot(s, pc.sb, pc.root)
    case ClearWakeUp => pc.ClearAsleep? && t !in s.waiters
  }

  predicate Enabled(s: State, a: Act)
  {
    match a
    case StartGet(t, _, _) => PcOf(s, t).Idle?
    case Get(t, op) => GetEnabled(s, t, op)
    case Client(t, op) => ClientEnabled(s, t, op)
    case Work(t, op) => WorkEnabled(s, t, op)
    case Clear(t, op) => ClearEnabled(s, t, op)
    case SyncCollect(t, _, _) => PcOf(s, t).Idle?
    case OomCollect(t) => PcOf(s, t).Idle?
  }

  /** The section of `inode_get_invalid`: an inode being freed is waited for, one that is there is
      referenced, and a new one is added only if there is none. */
  function FindNext(s: State, t: nat, sb: nat, ino: nat, new_: Option<nat>): State
    requires |s.buckets| == HASH_SIZE && (new_.Some? ==> new_.value in s.inodes)
  {
    var found := Lookup(s, sb, ino);
    if found.Some? && found.value in s.inodes then
      var x := s.inodes[found.value];
      if x.freeing then SetPc(s, t, GetAsleep(sb, ino, new_, found.value)).(waiters := s.waiters + {t})
      else Local(s, t, found.value, Ref1(x, t), GetFound(found.value, new_))
    else if new_.Some? then
      var s1 := HashAdd(s, new_.value);
      Local(s1, t, new_.value, s1.inodes[new_.value].(home := None, filler := Some(t)), GetFill(new_.value))
    else SetPc(s, t, GetCreate(sb, ino))
  }

  /** Frees the inode the task made for nothing, if it made one. */
  function FoundNext(s: State, t: nat, i: nat, new_: Option<nat>): State
  {
    SetPc(if new_.Some? then s.(inodes := s.inodes - {new_.value}) else s, t, GetWait(i))
  }

  /** The end of `inode_wait_for_valid_or_bad` */
  function CheckNext(s: State, t: nat, i: nat): State
    requires |s.buckets| == HASH_SIZE && i in s.inodes
  {
    var x := s.inodes[i];
    if !x.bad then SetPc(s, t, Held(i))
    else BadNext(s, t, i)
  }

  /** A reference to a bad inode is dropped, and the last one takes it out of the table. */
  function BadNext(s: State, t: nat, i: nat): State
    requires |s.buckets| == HASH_SIZE && i in s.inodes
  {
    var x := Unref(s.inodes[i], t);
    if x.ref == 0 then Local(HashDel(s, i), t, i, x.(hashed := false, home := Some(t), filler := None), BadDealloc(i))
    else Local(s, t, i, x, BadDealloc(i))
  }

  /** `inode_mark_bad` */
  function ReadFailsNext(s: State, t: nat, i: nat): State
    requires |s.buckets| == HASH_SIZE && i in s.inodes
  {
    var x := Unref(s.inodes[i], t);
    if x.ref == 0 then BadNext(s, t, i)
    else Local(s, t, i, x.(bad := true, filler := None), Idle)
  }

  function GetNext(s: State, t: nat, op: GetOp): State
    requires GetEnabled(s, t, op)
  {
    var pc := PcOf(s, t);
    match op
    case FindStep => FindNext(s, t, pc.sb, pc.ino, pc.new_)
    case WakeUp => SetPc(s, t, GetFind(pc.sb, pc.ino, pc.new_))
    case CreateStep(id, n) => Local(s, t, id, NewInode(pc.sb, pc.ino, n, t), GetFind(pc.sb, pc.ino, Some(id)))
    case FoundStep => FoundNext(s, t, pc.i, pc.new_)
    case WaitStep => SetPc(s, t, GetCheck(pc.i))
    case CheckStep => CheckNext(s, t, pc.i)
    case ReadOk =>
      var x := s.inodes[pc.i];
      Local(s, t, pc.i, x.(valid := true, filler := None, mem := OnDisk(s, x.sb, x.ino)), Held(pc.i))
    case ReadFails => ReadFailsNext(s, t, pc.i)
    case BadDeallocStep => SetPc(s.(inodes := s.inodes - {pc.i}), t, Idle)
  }

  function ClientNext(s: State, t: nat, op: ClientOp): State
    requires ClientEnabled(s, t, op)
  {
    var i := PcOf(s, t).i;
    var x := s.inodes[i];
    match op
    case Change(n) => Local(s, t, i, x.(nlinks := n, mem := x.mem + 1), Changed(i))
    case Mark => Local(s, t, i, x.(dirty := true), Held(i))
    case Dup(u) => Local(s, u, i, Ref1(x, u), Held(i))
    case StartPut => SetPc(s, t, Put(i, Return))
    case StartWrite(wait) => SetPc(s, t, Write(i, Test(wait), ToHeld))
    case StartClear => SetPc(s, t, ClearScan(x.sb, i))
  }

  /** `inode_put`: the last reference to an unlinked inode starts its eviction. */
  function PutNext(s: State, t: nat, i: nat, k: Kont): State
    requires i in s.inodes
  {
    var x := Unref(s.inodes[i], t);
    if x.ref == 0 && x.nlinks == 0 && !x.freeing then Local(s, t, i, MarkFreeing(x, t), Uncache(i, k))
    else Local(s, t, i, x, Continue(k))
  }

  /** The first section of `inode_write_to_disk` */
  function WriteNext(s: State, t: nat, i: nat, wait: bool, wk: WKont): State
    requires i in s.inodes
  {
    var x := s.inodes[i];
    if !x.dirty then SetPc(s, t, AfterWrite(i, wk))
    else if x.sync then SetPc(s, t, if wait then Write(i, Waiting, wk) else AfterWrite(i, wk))
    else Local(s, t, i, x.(sync := true, syncer := Some(t)), Write(i, Copying, wk))
  }

  function WorkNext(s: State, t: nat, op: WorkOp): State
    requires WorkEnabled(s, t, op)
  {
    var pc := PcOf(s, t);
    match op
    case PutStep => PutNext(s, t, pc.i, pc.k)
    case WriteStep => WriteNext(s, t, pc.i, pc.stage.wait, pc.wk)
    case WriteWaitStep => SetPc(s, t, AfterWrite(pc.i, pc.wk))
    case CopyStep =>
      var x := s.inodes[pc.i];
      SetPc(s, t, Write(pc.i, Clearing, pc.wk)).(disk := s.disk[(x.sb, x.ino) := x.mem])
    case WriteDone =>
      Local(s, t, pc.i, s.inodes[pc.i].(sync := false, dirty := false, syncer := None), AfterWrite(pc.i, pc.wk))
    case UncacheStep => SetPc(HashDel(s, pc.i), t, Dealloc(pc.i, pc.k))
    case DeallocStep => SetPc(s.(inodes := s.inodes - {pc.i}), t, WakeAll(pc.k))
    case WakeStep => SetPc(s, t, Continue(pc.k)).(waiters := {})
  }

  function ClearNext(s: State, t: nat, op: ClearOp): State
    requires ClearEnabled(s, t, op)
  {
    var pc := PcOf(s, t);
    match op
    case ClearStep(id) =>
      if s.inodes[id].freeing then SetPc(s, t, ClearAsleep(pc.sb, pc.root, id)).(waiters := s.waiters + {t})
      else Local(s, t, id, MarkFreeing(s.inodes[id], t), Write(id, Test(true), ToUncache(ClearAgain(pc.sb, pc.root))))
    case ClearRoot =>
      Local(s, t, pc.root, MarkFreeing(Unref(s.inodes[pc.root], t), t), Write(pc.root, Test(true), ToUncache(Return)))
    case ClearBusy => SetPc(s, t, Held(pc.root))
    case ClearWakeUp => SetPc(s, t, ClearScan(pc.sb, pc.root))
  }

  // The two scans of the whole table.

  predicate ToSync(x: Inode, only: Option<nat>)
  {
    (only.Some? ==> x.sb == only.value) && !x.freeing && x.valid && x.dirty
  }

  predicate ToFree(x: Inode)
  {
    x.ref == 0 && x.valid && !x.freeing
  }

  function SyncIds(s: State, only: Option<nat>): seq<nat>
  {
    SelectAll(s.buckets, i => i in s.inodes && ToSync(s.inodes[i], only))
  }

  function FreeIds(s: State): seq<nat>
  {
    SelectAll(s.buckets, i => i in s.inodes && ToFree(s.inodes[i]))
  }

  function RefAll(inodes: map<nat, Inode>, ids: seq<nat>, t: nat): map<nat, Inode>
  {
    map i | i in inodes :: if i in ids then Ref1(inodes[i], t) else inodes[i]
  }

  function MarkAll(inodes: map<nat, Inode>, ids: seq<nat>, t: nat): map<nat, Inode>
  {
    map i | i in inodes :: if i in ids then MarkFreeing(inodes[i], t) else inodes[i]
  }

  /** `inode_sync`: every dirty inode is referenced and listed. */
  function SyncCollectNext(s: State, t: nat, only: Option<nat>, wait: bool): State
  {
    var ids := SyncIds(s, only);
    SetPc(s.(inodes := RefAll(s.inodes, ids, t)), t, Continue(SyncRest(ids, wait)))
  }

  /** `inode_oom`: every unreferenced inode is marked and listed. */
  function OomCollectNext(s: State, t: nat): State
  {
    var ids := FreeIds(s);
    SetPc(s.(inodes := MarkAll(s.inodes, ids, t)), t, Continue(FinishRest(ids)))
  }

  function Next(s: State, a: Act): State
    requires Enabled(s, a)
  {
    match a
    case StartGet(t, sb, ino) => SetPc(s, t, GetFind(sb, ino, None))
    case Get(t, op) => GetNext(s, t, op)
    case Client(t, op) => ClientNext(s, t, op)
    case Work(t, op) => WorkNext(s, t, op)
    case Clear(t, op) => ClearNext(s, t, op)
    case SyncCollect(t, only, wait) => SyncCollectNext(s, t, only, wait)
    case OomCollect(t) => OomCollectNext(s, t)
  }
}
