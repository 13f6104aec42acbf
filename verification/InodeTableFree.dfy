/** Steps that change the table or the set of inodes: creation, insertion, removal, and the queue of
    tasks waiting for an inode to be freed. */
module InodeTableFree {
  import opened Common
  import opened InodeTable
  import opened InodeTableInv
  import opened InodeTableLocal
  import opened InodeTableWork

  // ---------------------------------------------------------------- sleeping and waking

  /** Going to sleep on an inode that is in the table and being freed. */
  lemma SleepKeeps(s: State, t: nat, pc: Pc)
    requires Inv(s) && t !in s.waiters && AsleepOn(pc).Some? && StillFreeing(s, AsleepOn(pc).value)
    requires !Wakes(PcOf(s, t))
    requires forall y: nat :: Owed(pc, y) == Owed(PcOf(s, t), y) && (Reaps(pc, y) <==> Reaps(PcOf(s, t), y))
    requires forall y: nat :: (Syncs(pc, y) <==> Syncs(PcOf(s, t), y)) && (Fills(pc, y) <==> Fills(PcOf(s, t), y))
    requires forall y: nat :: Owns(pc, y) <==> Owns(PcOf(s, t), y)
    requires TaskOk(SetPc(s, t, pc), t)
    ensures Inv(SetPc(s, t, pc).(waiters := s.waiters + {t}))
  {
    MoveKeeps(s, t, pc);
    var s1 := SetPc(s, t, pc);
    var s' := s1.(waiters := s.waiters + {t});
    TableSame(s1, s');
    forall y: nat, u: nat ensures RefOk(s', y, u) && RoleOk(s', y, u) { assert RefOk(s1, y, u) && RoleOk(s1, y, u); }
    forall y: nat ensures InodeOk(s', y) { assert InodeOk(s1, y); }
    forall u: nat ensures TaskOk(s', u) && AsleepOk(s', u) {
      Facts(s1, 0, u);
      if u != t && u in s'.waiters && !StillFreeing(s', AsleepOn(PcOf(s', u)).value) {
        var w: nat :| Wakes(PcOf(s1, w));
        assert Wakes(PcOf(s', w));
      }
    }
  }

  /** Waking everybody: nobody is registered any more, so nobody can be missed. */
  lemma WakeKeeps(s: State, t: nat)
    requires Inv(s) && WorkEnabled(s, t, WakeStep)
    ensures Inv(WorkNext(s, t, WakeStep))
  {
    var k := PcOf(s, t).k;
    var s' := WorkNext(s, t, WakeStep);
    assert TaskOk(s, t);
    TableSame(s, s');
    WakeRefs(s, t);
    forall y: nat ensures InodeOk(s', y) { assert InodeOk(s, y); }
    ContinueOk(s', t, k);
    forall u: nat ensures TaskOk(s', u) && AsleepOk(s', u) { assert TaskOk(s, u) && AsleepOk(s, u); }
  }

  lemma WakeRefs(s: State, t: nat)
    requires (forall y: nat, u: nat :: RefOk(s, y, u) && RoleOk(s, y, u)) && WorkEnabled(s, t, WakeStep)
    ensures var s' := WorkNext(s, t, WakeStep); forall y: nat, u: nat :: RefOk(s', y, u) && RoleOk(s', y, u)
  {
    var s' := WorkNext(s, t, WakeStep);
    forall y: nat, u: nat ensures RefOk(s', y, u) && RoleOk(s', y, u) {
      assert RefOk(s, y, u) && RoleOk(s, y, u);
      ContinueIs(PcOf(s, t).k, y);
    }
  }

  // ---------------------------------------------------------------- removal from memory

  /** Only task `t` can still refer to inode `i`. */
  ghost predicate Alone(s: State, t: nat, i: nat)
    requires i in s.inodes
  {
    var x := s.inodes[i];
    && !x.hashed && !x.sync && x.filler.None?
    && (x.reaper.None? || x.reaper == Some(t)) && (x.home.None? || x.home == Some(t))
    && (forall u: nat :: u != t ==> x.holders[u] == 0)
  }

  /** Freeing the memory of an inode that only the freeing task can refer to leaves no dangling pointer. */
  lemma RemoveKeeps(s: State, t: nat, i: nat, pc: Pc)
    requires Inv(s) && i in s.inodes && Alone(s, t, i) && t !in s.waiters
    requires forall y: nat :: Owed(pc, y) == (if y == i then 0 else Owed(PcOf(s, t), y))
    requires forall y: nat :: Reaps(pc, y) <==> y != i && Reaps(PcOf(s, t), y)
    requires forall y: nat :: Owns(pc, y) <==> y != i && Owns(PcOf(s, t), y)
    requires forall y: nat :: !Syncs(pc, y) && !Fills(pc, y) && !Syncs(PcOf(s, t), y) && !Fills(PcOf(s, t), y)
    requires Wakes(PcOf(s, t)) ==> Wakes(pc)
    requires TaskOk(SetPc(s.(inodes := s.inodes - {i}), t, pc), t)
    ensures Inv(SetPc(s.(inodes := s.inodes - {i}), t, pc))
  {
    var s' := SetPc(s.(inodes := s.inodes - {i}), t, pc);
    TableSame(s, s');
    forall y: nat, u: nat ensures RefOk(s', y, u) && RoleOk(s', y, u) { assert RefOk(s, y, u) && RoleOk(s, y, u); }
    forall y: nat ensures InodeOk(s', y) { assert InodeOk(s, y); }
    RemoveTasks(s, t, i, pc);
  }

  lemma RemoveTasks(s: State, t: nat, i: nat, pc: Pc)
    requires Inv(s) && i in s.inodes && Alone(s, t, i) && t !in s.waiters && (Wakes(PcOf(s, t)) ==> Wakes(pc))
    requires TaskOk(SetPc(s.(inodes := s.inodes - {i}), t, pc), t)
    ensures var s' := SetPc(s.(inodes := s.inodes - {i}), t, pc);
            forall u: nat :: TaskOk(s', u) && AsleepOk(s', u)
  {
    var s' := SetPc(s.(inodes := s.inodes - {i}), t, pc);
    forall u: nat ensures TaskOk(s', u) { Facts(s, i, u); }
    SleepersKeep(s, s', t);
  }

  lemma EmptyHolders(s: State, i: nat, u: nat)
    requires Inv(s) && i in s.inodes && s.inodes[i].ref == 0
    ensures s.inodes[i].holders[u] == 0 && Owed(PcOf(s, u), i) == 0
  {
    Facts(s, i, u);
    assert s.inodes[i].holders == multiset{};
  }

  /** `inode_deallocate` at the end of an eviction. */
  lemma DeallocKeeps(s: State, t: nat)
    requires Inv(s) && WorkEnabled(s, t, DeallocStep)
    ensures PcOf(s, t).i in s.inodes && Inv(WorkNext(s, t, DeallocStep))
  {
    var Dealloc(i, k) := PcOf(s, t);
    Facts(s, i, t);
    if s.inodes[i].sync { SyncerHolds(s, i); }
    forall u: nat ensures s.inodes[i].holders[u] == 0 && Owed(PcOf(s, u), i) == 0 { EmptyHolders(s, i, u); }
    assert Owed(PcOf(s, t), i) == 0;
    RemoveKeeps(s, t, i, WakeAll(k));
  }

  /** An inode that only its maker has seen has one holder. */
  lemma PrivateAlone(s: State, t: nat, i: nat)
    requires Inv(s) && i in s.inodes && s.inodes[i].home == Some(t)
    requires PcOf(s, t).GetFound? || PcOf(s, t).BadDealloc?
    ensures Alone(s, t, i)
  {
    Facts(s, i, t);
    forall u: nat | u != t ensures s.inodes[i].holders[u] == 0 {
      Facts(s, i, u);
      if u in s.inodes[i].holders { PrivateUnseen(s, t, i, u); }
    }
  }

  lemma PrivateUnseen(s: State, t: nat, i: nat, u: nat)
    requires Inv(s) && i in s.inodes && s.inodes[i].home == Some(t) && u != t
    ensures Owed(PcOf(s, u), i) == 0
  {
    Facts(s, i, u);
  }

  lemma FoundKeeps(s: State, t: nat)
    requires Inv(s) && GetEnabled(s, t, FoundStep)
    ensures Inv(GetNext(s, t, FoundStep))
  {
    var GetFound(i, new_) := PcOf(s, t);
    Facts(s, i, t);
    if new_.Some? {
      Facts(s, new_.value, t);
      PrivateAlone(s, t, new_.value);
      RemoveKeeps(s, t, new_.value, GetWait(i));
    } else {
      MoveKeeps(s, t, GetWait(i));
    }
  }

  lemma BadDeallocKeeps(s: State, t: nat)
    requires Inv(s) && GetEnabled(s, t, BadDeallocStep)
    ensures PcOf(s, t).i in s.inodes && Inv(GetNext(s, t, BadDeallocStep))
  {
    var i := PcOf(s, t).i;
    Facts(s, i, t);
    PrivateAlone(s, t, i);
    RemoveKeeps(s, t, i, Idle);
  }

  // ---------------------------------------------------------------- removal from the table

  lemma HashDelTable(s: State, i: nat)
    requires Table(s) && i in s.inodes && s.inodes[i].hashed
    ensures Table(HashDel(s, i))
  {
    var s' := HashDel(s, i);
    var h := InodeHash(s.inodes[i].sb, s.inodes[i].ino);
    assert ChainOk(s, h) && HashedOk(s, i);
    WithoutExact(s.buckets[h], i);
    forall k: nat | k < HASH_SIZE ensures ChainOk(s', k) { assert ChainOk(s, k); }
    forall y: nat ensures HashedOk(s', y) { assert HashedOk(s, y); }
    forall y: nat, z: nat | SameName(s', y, z) ensures y == z { assert SameName(s, y, z); }
  }

  /** Task `t` takes inode `i` out of the table, changing it to `x'`. */
  function Unhashed(s: State, t: nat, i: nat, x': Inode, pc: Pc): State
    requires |s.buckets| == HASH_SIZE && i in s.inodes
  {
    Local(HashDel(s, i), t, i, x', pc)
  }

  ghost predicate UnhashOk(s: State, t: nat, i: nat, x': Inode)
    requires i in s.inodes
  {
    var x := s.inodes[i];
    && x.hashed && x'.sb == x.sb && x'.ino == x.ino && !x'.hashed && x'.valid == x.valid && x'.freeing == x.freeing
    && (forall u: nat :: u != t ==> x.holders[u] == 0 && x'.holders[u] == 0)
    && (x.reaper.None? || x.reaper == Some(t)) && x'.reaper == x.reaper
    && x'.syncer == x.syncer == None && RoleStep(x.filler, x'.filler, t) && RoleStep(x.home, x'.home, t)
  }

  lemma UnhashRefs(s: State, t: nat, i: nat, x': Inode, pc: Pc)
    requires |s.buckets| == HASH_SIZE && (forall y: nat, u: nat :: RefOk(s, y, u)) && i in s.inodes &&
             UnhashOk(s, t, i, x')
    requires forall y: nat :: Owed(pc, y) == (if y == i then x'.holders[t] else Owed(PcOf(s, t), y))
    ensures forall y: nat, u: nat :: RefOk(Unhashed(s, t, i, x', pc), y, u)
  {
    var s' := Unhashed(s, t, i, x', pc);
    forall y: nat, u: nat ensures RefOk(s', y, u) { assert RefOk(s, y, u); }
  }

  lemma UnhashRoles(s: State, t: nat, i: nat, x': Inode, pc: Pc)
    requires Inv(s) && i in s.inodes && UnhashOk(s, t, i, x')
    requires forall y: nat :: Owed(pc, y) == (if y == i then x'.holders[t] else Owed(PcOf(s, t), y))
    requires forall y: nat :: (Reaps(pc, y) <==> Reaps(PcOf(s, t), y)) && !Syncs(pc, y) && !Syncs(PcOf(s, t), y)
    requires forall y: nat :: Fills(pc, y) <==> if y == i then x'.filler == Some(t) else Fills(PcOf(s, t), y)
    requires forall y: nat :: Owns(pc, y) <==> if y == i then x'.home == Some(t) else Owns(PcOf(s, t), y)
    ensures forall y: nat, u: nat :: RefOk(Unhashed(s, t, i, x', pc), y, u)
    ensures forall y: nat, u: nat :: RoleOk(Unhashed(s, t, i, x', pc), y, u)
  {
    var s' := Unhashed(s, t, i, x', pc);
    UnhashRefs(s, t, i, x', pc);
    forall y: nat, u: nat ensures RoleOk(s', y, u) { assert RoleOk(s, y, u); }
  }

  lemma UnhashTasks(s: State, t: nat, i: nat, x': Inode, pc: Pc)
    requires Inv(s) && i in s.inodes && UnhashOk(s, t, i, x') && t !in s.waiters && (Wakes(PcOf(s, t)) ==> Wakes(pc))
    requires s.inodes[i].freeing ==> Wakes(pc)
    requires TaskOk(Unhashed(s, t, i, x', pc), t)
    ensures var s' := Unhashed(s, t, i, x', pc); forall u: nat :: TaskOk(s', u) && AsleepOk(s', u)
  {
    var s' := Unhashed(s, t, i, x', pc);
    forall u: nat ensures TaskOk(s', u) {
      Facts(s, i, u);
      if u != t { UnhashOther(s, t, i, x', pc, u); }
    }
    SleepersKeep(s, s', t);
  }

  /** Nobody else refers to an inode that only `t` holds or frees. */
  lemma UnhashOther(s: State, t: nat, i: nat, x': Inode, pc: Pc, u: nat)
    requires |s.buckets| == HASH_SIZE && i in s.inodes && UnhashOk(s, t, i, x') && u != t
    requires TaskOk(s, u) && RefOk(s, i, u) && RoleOk(s, i, u)
    ensures TaskOk(Unhashed(s, t, i, x', pc), u)
  {
  }

  lemma UnhashTable(s: State, t: nat, i: nat, x': Inode, pc: Pc)
    requires Inv(s) && i in s.inodes && UnhashOk(s, t, i, x') && InodeOk(Unhashed(s, t, i, x', pc), i)
    ensures Table(Unhashed(s, t, i, x', pc)) && forall y: nat :: InodeOk(Unhashed(s, t, i, x', pc), y)
  {
    var s' := Unhashed(s, t, i, x', pc);
    HashDelTable(s, i);
    TableSame(HashDel(s, i), s');
    forall y: nat ensures InodeOk(s', y) { assert InodeOk(s, y); }
  }

  /** `__inode_uncache` at the end of an eviction: every waiter is now owed a wake-up by this task. */
  lemma UncacheKeeps(s: State, t: nat)
    requires Inv(s) && WorkEnabled(s, t, UncacheStep)
    ensures Inv(WorkNext(s, t, UncacheStep))
  {
    var Uncache(i, k) := PcOf(s, t);
    Facts(s, i, t);
    if s.inodes[i].sync { SyncerHolds(s, i); }
    forall u: nat ensures s.inodes[i].holders[u] == 0 && Owed(PcOf(s, u), i) == 0 { EmptyHolders(s, i, u); }
    var x' := s.inodes[i].(hashed := false);
    assert Owed(PcOf(s, t), i) == 0;
    UnhashRoles(s, t, i, x', Dealloc(i, k));
    UnhashTasks(s, t, i, x', Dealloc(i, k));
    UnhashTable(s, t, i, x', Dealloc(i, k));
    assert WorkNext(s, t, UncacheStep) == Unhashed(s, t, i, x', Dealloc(i, k));
  }
}
