/** `inode_get`, including the failing read, and `inode_clear_super`. */
module InodeTableGet {
  import opened Common
  import opened InodeTable
  import opened InodeTableInv
  import opened InodeTableLocal
  import opened InodeTableWork
  import opened InodeTableFree

  /** The last reference to an inode that could not be read: it leaves the table with its task. */
  lemma BadKeeps(s: State, t: nat, i: nat)
    requires Inv(s) && i in s.inodes && s.inodes[i].ref == 1
    requires PcOf(s, t) == GetFill(i) || (PcOf(s, t) == GetCheck(i) && s.inodes[i].bad)
    ensures |s.buckets| == HASH_SIZE && Inv(BadNext(s, t, i))
  {
    Facts(s, i, t);
    var x := s.inodes[i];
    var x' := Unref(x, t).(hashed := false, home := Some(t), filler := None);
    forall u: nat | u != t ensures x.holders[u] == 0 && x'.holders[u] == 0 {
      if u in x.holders { TwoHolders(x.holders, t, u); }
    }
    if x.sync { SyncerHolds(s, i); }
    UnhashRoles(s, t, i, x', BadDealloc(i));
    UnhashTasks(s, t, i, x', BadDealloc(i));
    UnhashTable(s, t, i, x', BadDealloc(i));
    assert BadNext(s, t, i) == Unhashed(s, t, i, x', BadDealloc(i));
  }

  lemma ReadFailsKeeps(s: State, t: nat)
    requires Inv(s) && GetEnabled(s, t, ReadFails)
    ensures Inv(GetNext(s, t, ReadFails))
  {
    var i := PcOf(s, t).i;
    Facts(s, i, t);
    if s.inodes[i].ref == 1 {
      BadKeeps(s, t, i);
    } else {
      LocalKeeps(s, t, i, Unref(s.inodes[i], t).(bad := true, filler := None), Idle);
    }
  }

  lemma ReadOkKeeps(s: State, t: nat)
    requires Inv(s) && GetEnabled(s, t, ReadOk)
    ensures Inv(GetNext(s, t, ReadOk))
  {
    var i := PcOf(s, t).i;
    Facts(s, i, t);
    var x := s.inodes[i];
    LocalKeeps(s, t, i, x.(valid := true, filler := None, mem := OnDisk(s, x.sb, x.ino)), Held(i));
  }

  lemma CheckKeeps(s: State, t: nat)
    requires Inv(s) && GetEnabled(s, t, CheckStep)
    requires s.inodes[PcOf(s, t).i].bad ==> s.inodes[PcOf(s, t).i].ref == 1
    ensures Inv(GetNext(s, t, CheckStep))
  {
    var i := PcOf(s, t).i;
    Facts(s, i, t);
    if s.inodes[i].bad { BadKeeps(s, t, i); } else { MoveKeeps(s, t, Held(i)); }
  }

  // ---------------------------------------------------------------- creation

  lemma CreateKeeps(s: State, t: nat, id: nat, n: nat)
    requires Inv(s) && GetEnabled(s, t, CreateStep(id, n))
    ensures Inv(GetNext(s, t, CreateStep(id, n)))
  {
    var GetCreate(sb, ino) := PcOf(s, t);
    var s' := GetNext(s, t, CreateStep(id, n));
    TableSame(s, s');
    Facts(s, id, t);
    forall y: nat, u: nat ensures RefOk(s', y, u) && RoleOk(s', y, u) {
      assert RefOk(s, y, u) && RoleOk(s, y, u) && RefOk(s, id, u) && RoleOk(s, id, u);
    }
    forall y: nat ensures InodeOk(s', y) { assert InodeOk(s, y); }
    forall u: nat ensures TaskOk(s', u) {
      assert TaskOk(s, u);
      if u != t { TaskKept(s, s', u); }
    }
    Awake(s, t);
    SleepersKeep(s, s', t);
  }

  lemma HashAddTable(s: State, i: nat)
    requires Table(s) && i in s.inodes && !s.inodes[i].hashed
    requires Lookup(s, s.inodes[i].sb, s.inodes[i].ino).None?
    ensures Table(HashAdd(s, i))
  {
    var s' := HashAdd(s, i);
    var h := InodeHash(s.inodes[i].sb, s.inodes[i].ino);
    LookupExact(s, s.inodes[i].sb, s.inodes[i].ino);
    assert ChainOk(s, h);
    DistinctPrepend(s.buckets[h], i);
    forall k: nat | k < HASH_SIZE ensures ChainOk(s', k) { assert ChainOk(s, k); }
    forall y: nat ensures HashedOk(s', y) { assert HashedOk(s, y); }
    forall y: nat, z: nat | SameName(s', y, z) ensures y == z {
      if y != i && z != i { assert SameName(s, y, z); }
    }
  }

  /** A new inode goes into the table only when its name is not there, with its maker to fill it in. */
  lemma InsertKeeps(s: State, t: nat, sb: nat, ino: nat, i: nat)
    requires Inv(s) && PcOf(s, t) == GetFind(sb, ino, Some(i)) && i in s.inodes && Lookup(s, sb, ino).None?
    ensures Inv(FindNext(s, t, sb, ino, Some(i)))
  {
    Facts(s, i, t);
    var s1 := HashAdd(s, i);
    var s' := FindNext(s, t, sb, ino, Some(i));
    HashAddTable(s, i);
    TableSame(s1, s');
    InsertRoles(s, t, i, s');
    Awake(s, t);
    SleepersKeep(s, s', t);
  }

  lemma InsertRoles(s: State, t: nat, i: nat, s': State)
    requires Inv(s) && PcOf(s, t).GetFind? && PcOf(s, t).new_ == Some(i) && i in s.inodes
    requires s'.inodes == s.inodes[i := s.inodes[i].(hashed := true, home := None, filler := Some(t))]
    requires s'.pcs == s.pcs[t := GetFill(i)]
    ensures forall y: nat, u: nat :: RefOk(s', y, u)
    ensures forall y: nat, u: nat :: RoleOk(s', y, u)
    ensures forall y: nat :: InodeOk(s', y)
    ensures forall u: nat :: TaskOk(s', u)
  {
    Facts(s, i, t);
    forall y: nat, u: nat ensures RefOk(s', y, u) && RoleOk(s', y, u) { assert RefOk(s, y, u) && RoleOk(s, y, u); }
    forall y: nat ensures InodeOk(s', y) { assert InodeOk(s, y); }
    forall u: nat ensures TaskOk(s', u) { Facts(s, i, u); }
  }

  lemma FindKeeps(s: State, t: nat)
    requires Inv(s) && GetEnabled(s, t, FindStep)
    ensures Inv(GetNext(s, t, FindStep))
  {
    var GetFind(sb, ino, new_) := PcOf(s, t);
    Facts(s, 0, t);
    LookupExact(s, sb, ino);
    var found := Lookup(s, sb, ino);
    if found.Some? {
      var i := found.value;
      Facts(s, i, t);
      if s.inodes[i].freeing {
        SleepKeeps(s, t, GetAsleep(sb, ino, new_, i));
      } else {
        LocalKeeps(s, t, i, Ref1(s.inodes[i], t), GetFound(i, new_));
      }
    } else if new_.Some? {
      InsertKeeps(s, t, sb, ino, new_.value);
    } else {
      MoveKeeps(s, t, GetCreate(sb, ino));
    }
  }

  lemma GetMoves(s: State, t: nat, op: GetOp)
    requires Inv(s) && GetEnabled(s, t, op) && (op.WakeUp? || op.WaitStep?)
    ensures Inv(GetNext(s, t, op))
  {
    var pc := PcOf(s, t);
    Facts(s, 0, t);
    if op.WakeUp? {
      MoveKeeps(s, t, GetFind(pc.sb, pc.ino, pc.new_));
    } else {
      MoveKeeps(s, t, GetCheck(pc.i));
    }
  }

  // ---------------------------------------------------------------- inode_clear_super

  lemma ClearStepKeeps(s: State, t: nat, id: nat)
    requires Inv(s) && ClearEnabled(s, t, ClearStep(id))
    ensures Inv(ClearNext(s, t, ClearStep(id)))
  {
    var ClearScan(sb, root) := PcOf(s, t);
    Facts(s, id, t);
    if s.inodes[id].freeing {
      SleepKeeps(s, t, ClearAsleep(sb, root, id));
    } else {
      UnusedIsClean(s, id);
      LocalKeeps(s, t, id, MarkFreeing(s.inodes[id], t), Write(id, Test(true), ToUncache(ClearAgain(sb, root))));
    }
  }

  lemma ClearRootKeeps(s: State, t: nat)
    requires Inv(s) && ClearEnabled(s, t, ClearRoot)
    ensures Inv(ClearNext(s, t, ClearRoot))
  {
    var root := PcOf(s, t).root;
    Facts(s, root, t);
    LocalKeeps(s, t, root, MarkFreeing(Unref(s.inodes[root], t), t), Write(root, Test(true), ToUncache(Return)));
  }

  lemma ClearRestKeeps(s: State, t: nat, op: ClearOp)
    requires Inv(s) && ClearEnabled(s, t, op) && (op.ClearBusy? || op.ClearWakeUp?)
    ensures Inv(ClearNext(s, t, op))
  {
    var pc := PcOf(s, t);
    Facts(s, pc.root, t);
    if op.ClearBusy? { MoveKeeps(s, t, Held(pc.root)); } else { MoveKeeps(s, t, ClearScan(pc.sb, pc.root)); }
  }
}
