/** The invariant of the inode table. */
module InodeTableInv {
  import opened Common
  import opened InodeTable

  // ---------------------------------------------------------------- what a program counter commits a task to

  function One(i: nat, id: nat): nat
  {
    if i == id then 1 else 0
  }

  function OneOf(o: Option<nat>, id: nat): nat
  {
    if o == Some(id) then 1 else 0
  }

  function OwedK(k: Kont, id: nat): nat
  {
    match k
    case SyncRest(list, _) => multiset(list)[id]
    case ClearAgain(_, root) => One(root, id)
    case _ => 0
  }

  function OwedW(i: nat, wk: WKont, id: nat): nat
  {
    match wk
    case ToHeld => One(i, id)
    case ToPut(k) => One(i, id) + OwedK(k, id)
    case ToUncache(k) => OwedK(k, id)
  }

  /** How many references to `id` the task has to give back. */
  function Owed(pc: Pc, id: nat): nat
  {
    match pc
    case GetFind(_, _, new_) => OneOf(new_, id)
    case GetAsleep(_, _, new_, _) => OneOf(new_, id)
    case GetFound(i, new_) => One(i, id) + OneOf(new_, id)
    case GetWait(i) => One(i, id)
    case GetCheck(i) => One(i, id)
    case GetFill(i) => One(i, id)
    case Held(i) => One(i, id)
    case Changed(i) => One(i, id)
    case Put(i, k) => One(i, id) + OwedK(k, id)
    case Write(i, _, wk) => OwedW(i, wk, id)
    case Uncache(_, k) => OwedK(k, id)
    case Dealloc(_, k) => OwedK(k, id)
    case WakeAll(k) => OwedK(k, id)
    case ClearScan(_, root) => One(root, id)
    case ClearAsleep(_, root, _) => One(root, id)
    case _ => 0
  }

  predicate ReapsK(k: Kont, id: nat)
  {
    k.FinishRest? && id in k.list
  }

  predicate ReapsW(i: nat, wk: WKont, id: nat)
  {
    match wk
    case ToHeld => false
    case ToPut(k) => ReapsK(k, id)
    case ToUncache(k) => i == id || ReapsK(k, id)
  }

  /** The task has marked `id` FREEING and has yet to free it. */
  predicate Reaps(pc: Pc, id: nat)
  {
    match pc
    case Put(_, k) => ReapsK(k, id)
    case Write(i, _, wk) => ReapsW(i, wk, id)
    case Uncache(i, k) => i == id || ReapsK(k, id)
    case Dealloc(i, k) => i == id || ReapsK(k, id)
    case WakeAll(k) => ReapsK(k, id)
    case _ => false
  }

  /** The task is writing `id` to the disk. */
  predicate Syncs(pc: Pc, id: nat)
  {
    pc.Write? && pc.i == id && (pc.stage.Copying? || pc.stage.Clearing?)
  }

  /** The task is to read `id` and mark it VALID or BAD. */
  predicate Fills(pc: Pc, id: nat)
  {
    pc.GetFill? && pc.i == id
  }

  /** The task has an inode that no other task can see. */
  predicate Owns(pc: Pc, id: nat)
  {
    match pc
    case GetFind(_, _, new_) => new_ == Some(id)
    case GetAsleep(_, _, new_, _) => new_ == Some(id)
    case GetFound(_, new_) => new_ == Some(id)
    case BadDealloc(i) => i == id
    case _ => false
  }

  predicate Wakes(pc: Pc)
  {
    pc.Dealloc? || pc.WakeAll?
  }

  /** The inode a sleeping task waits to see gone. */
  function AsleepOn(pc: Pc): Option<nat>
  {
    match pc
    case GetAsleep(_, _, _, on) => Some(on)
    case ClearAsleep(_, _, on) => Some(on)
    case _ => None
  }

  // ---------------------------------------------------------------- the table

  ghost predicate ChainOk(s: State, h: nat)
    requires h < |s.buckets|
  {
    && Distinct(s.buckets[h])
    && forall i :: i in s.buckets[h] ==>
         i in s.inodes && s.inodes[i].hashed && InodeHash(s.inodes[i].sb, s.inodes[i].ino) == h
  }

  predicate HashedOk(s: State, i: nat)
    requires |s.buckets| == HASH_SIZE
  {
    i in s.inodes && s.inodes[i].hashed ==> i in s.buckets[InodeHash(s.inodes[i].sb, s.inodes[i].ino)]
  }

  predicate SameName(s: State, i: nat, j: nat)
  {
    && i in s.inodes && j in s.inodes && s.inodes[i].hashed && s.inodes[j].hashed
    && s.inodes[i].sb == s.inodes[j].sb && s.inodes[i].ino == s.inodes[j].ino
  }

  /** Hashed inodes are in their chains, once, and no two have the same name. */
  ghost predicate Table(s: State)
  {
    && |s.buckets| == HASH_SIZE
    && (forall h: nat :: h < HASH_SIZE ==> ChainOk(s, h))
    && (forall i: nat :: HashedOk(s, i))
    && (forall i: nat, j: nat :: SameName(s, i, j) ==> i == j)
  }

  // ---------------------------------------------------------------- one inode and one task

  predicate RefOk(s: State, i: nat, t: nat)
  {
    && (i in s.inodes ==> s.inodes[i].holders[t] == Owed(PcOf(s, t), i))
    && (Owed(PcOf(s, t), i) > 0 ==> i in s.inodes)
  }

  predicate RoleOk(s: State, i: nat, t: nat)
  {
    && (i in s.inodes ==>
          && (s.inodes[i].reaper == Some(t) <==> Reaps(PcOf(s, t), i))
          && (s.inodes[i].syncer == Some(t) <==> Syncs(PcOf(s, t), i))
          && (s.inodes[i].filler == Some(t) <==> Fills(PcOf(s, t), i))
          && (s.inodes[i].home == Some(t) <==> Owns(PcOf(s, t), i)))
    && (Reaps(PcOf(s, t), i) || Owns(PcOf(s, t), i) ==> i in s.inodes)
  }

  /** The states of include/protura/fs/inode.h: FREEING and BAD exclude references or validity, SYNC is
      only ever on top of VALID and DIRTY, and a hashed inode that is neither valid nor bad has a task
      filling it in. */
  predicate InodeOk(s: State, i: nat)
  {
    i in s.inodes ==>
      var x := s.inodes[i];
      && x.ref == |x.holders|
      && (x.freeing <==> x.reaper.Some?) && (x.sync <==> x.syncer.Some?)
      && (x.freeing ==> x.ref == 0 && x.valid)
      && (x.sync ==> x.dirty) && (x.dirty ==> x.valid)
      && (x.bad ==> !x.valid && x.filler.None?)
      && (x.filler.Some? ==> x.hashed && !x.valid)
      && (x.hashed && !x.valid && !x.bad ==> x.filler.Some?)
      && (x.hashed && x.bad ==> x.ref > 0)
      && (x.home.Some? ==> !x.hashed && !x.valid)
      && (!x.hashed ==> x.home.Some? || x.freeing)
  }

  ghost predicate ListOkK(s: State, k: Kont)
  {
    match k
    case SyncRest(list, _) => forall i :: i in list ==> i in s.inodes && s.inodes[i].valid && s.inodes[i].hashed
    case FinishRest(list) => Distinct(list) && forall i :: i in list ==> i in s.inodes && s.inodes[i].hashed
    case ClearAgain(_, root) => root in s.inodes && s.inodes[root].valid && s.inodes[root].hashed
    case Return => true
  }

  ghost predicate WriteOk(s: State, i: nat, wk: WKont)
  {
    && i in s.inodes && s.inodes[i].valid && s.inodes[i].hashed
    && match wk
       case ToHeld => true
       case ToPut(k) => ListOkK(s, k) && !k.FinishRest?
       case ToUncache(k) => ListOkK(s, k) && !ReapsK(k, i)
  }

  /** Being freed with nothing marked to be written, unless it is unlinked. */
  predicate Disposable(x: Inode)
  {
    x.freeing && (x.dirty ==> x.nlinks == 0)
  }

  /** What a task may rely on. */
  ghost predicate TaskOk(s: State, t: nat)
  {
    match PcOf(s, t)
    case GetFind(sb, ino, new_) => NewOk(s, t, sb, ino, new_)
    case GetAsleep(sb, ino, new_, _) => NewOk(s, t, sb, ino, new_)
    case GetFound(i, new_) => i in s.inodes && s.inodes[i].hashed && new_ != Some(i)
    case GetWait(i) => i in s.inodes && s.inodes[i].hashed
    case GetCheck(i) => i in s.inodes && s.inodes[i].hashed && (s.inodes[i].valid || s.inodes[i].bad)
    case Held(i) => i in s.inodes && s.inodes[i].valid && s.inodes[i].hashed
    case Changed(i) => i in s.inodes && s.inodes[i].valid && s.inodes[i].hashed
    case Put(i, k) => i in s.inodes && s.inodes[i].valid && s.inodes[i].hashed && ListOkK(s, k)
    case Write(i, stage, wk) => WriteOk(s, i, wk) && (stage.Waiting? ==> !wk.ToUncache?)
    case Uncache(i, k) => i in s.inodes && s.inodes[i].hashed && Disposable(s.inodes[i]) && ListOkK(s, k) &&
        !ReapsK(k, i)
    case Dealloc(i, k) => i in s.inodes && !s.inodes[i].hashed && Disposable(s.inodes[i]) && ListOkK(s, k) &&
        !ReapsK(k, i)
    case WakeAll(k) => ListOkK(s, k)
    case ClearScan(_, root) => root in s.inodes && s.inodes[root].valid && s.inodes[root].hashed
    case ClearAsleep(_, root, _) => root in s.inodes && s.inodes[root].valid && s.inodes[root].hashed
    case _ => true
  }

  predicate NewOk(s: State, t: nat, sb: nat, ino: nat, new_: Option<nat>)
  {
    new_.Some? ==> new_.value in s.inodes && s.inodes[new_.value].sb == sb && s.inodes[new_.value].ino == ino
                   && !s.inodes[new_.value].hashed && s.inodes[new_.value].ref == 1 && !s.inodes[new_.value].bad
  }

  /** A registered task is asleep, and is owed a wake-up: the inode it waits for is still in the table
      and being freed, or some task has taken one out and is yet to wake the queue. */
  ghost predicate AsleepOk(s: State, t: nat)
  {
    t in s.waiters ==>
      && AsleepOn(PcOf(s, t)).Some?
      && (StillFreeing(s, AsleepOn(PcOf(s, t)).value) || exists u: nat :: Wakes(PcOf(s, u)))
  }

  predicate StillFreeing(s: State, i: nat)
  {
    i in s.inodes && s.inodes[i].hashed && s.inodes[i].freeing
  }

  ghost predicate Inv(s: State)
  {
    && Table(s)
    && (forall i: nat, t: nat :: RefOk(s, i, t))
    && (forall i: nat, t: nat :: RoleOk(s, i, t))
    && (forall i: nat :: InodeOk(s, i))
    && (forall t: nat :: TaskOk(s, t))
    && (forall t: nat :: AsleepOk(s, t))
  }

  lemma Facts(s: State, i: nat, t: nat)
    requires Inv(s)
    ensures RefOk(s, i, t) && RoleOk(s, i, t) && InodeOk(s, i) && TaskOk(s, t) && AsleepOk(s, t) && HashedOk(s, i)
  {
  }

  lemma {:induction false} FindInExact(inodes: map<nat, Inode>, chain: seq<nat>, sb: nat, ino: nat)
    requires forall i :: i in chain ==> i in inodes
    ensures var f := FindIn(inodes, chain, sb, ino);
            && (f.Some? ==> f.value in chain && inodes[f.value].sb == sb && inodes[f.value].ino == ino)
            && (f.None? ==> forall i :: i in chain ==> !(inodes[i].sb == sb && inodes[i].ino == ino))
  {
    if chain != [] {
      assert chain == [chain[0]] + chain[1..];
      FindInExact(inodes, chain[1..], sb, ino);
    }
  }

  /** The lookup finds the hashed inode of that name if and only if there is one. */
  lemma LookupExact(s: State, sb: nat, ino: nat)
    requires Table(s)
    ensures var f := Lookup(s, sb, ino);
            && (f.Some? ==> f.value in s.inodes && s.inodes[f.value].hashed
                            && s.inodes[f.value].sb == sb && s.inodes[f.value].ino == ino)
            && (forall i :: i in s.inodes && s.inodes[i].hashed && s.inodes[i].sb == sb && s.inodes[i].ino == ino ==>
                  f == Some(i))
  {
    var h := InodeHash(sb, ino);
    assert ChainOk(s, h);
    FindInExact(s.inodes, s.buckets[h], sb, ino);
    var f := Lookup(s, sb, ino);
    forall i | i in s.inodes && s.inodes[i].hashed && s.inodes[i].sb == sb && s.inodes[i].ino == ino
      ensures f == Some(i)
    {
      assert HashedOk(s, i);
      if f.Some? { assert SameName(s, i, f.value); }
    }
  }

  /** The table depends only on names and on what is hashed. */
  lemma TableSame(s: State, s': State)
    requires Table(s) && s'.buckets == s.buckets
    requires forall i: nat :: i in s.inodes && s.inodes[i].hashed <==> i in s'.inodes && s'.inodes[i].hashed
    requires forall i: nat :: i in s.inodes && s.inodes[i].hashed ==>
               s'.inodes[i].sb == s.inodes[i].sb && s'.inodes[i].ino == s.inodes[i].ino
    ensures Table(s')
  {
    forall h: nat | h < HASH_SIZE ensures ChainOk(s', h) { assert ChainOk(s, h); }
    forall i: nat ensures HashedOk(s', i) { assert HashedOk(s, i); }
    forall i: nat, j: nat | SameName(s', i, j) ensures i == j { assert SameName(s, i, j); }
  }
}
