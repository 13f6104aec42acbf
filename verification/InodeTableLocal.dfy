/** Steps of the inode table that change at most one inode and move one task. */
module InodeTableLocal {
  import opened Common
  import opened InodeTable
  import opened InodeTableInv

  /** `before` to `after` is a change of role between task `t` and nobody. */
  predicate RoleStep(before: Option<nat>, after: Option<nat>, t: nat)
  {
    after == before || (before in {None, Some(t)} && after in {None, Some(t)})
  }

  /** A change task `t` may make to an inode: it gives or takes its own references and roles, and leaves
      everything other tasks rely on. */
  ghost predicate LocalOk(s: State, t: nat, i: nat, x': Inode)
    requires i in s.inodes
  {
    var x := s.inodes[i];
    && x'.sb == x.sb && x'.ino == x.ino && x'.hashed == x.hashed
    && (x.valid ==> x'.valid) && (x.bad ==> x'.bad) && (x.freeing ==> x'.freeing)
    && (forall u: nat :: u != t ==> x'.holders[u] == x.holders[u])
    && RoleStep(x.reaper, x'.reaper, t) && RoleStep(x.syncer, x'.syncer, t)
    && RoleStep(x.filler, x'.filler, t) && x'.home == x.home
    && (x.home.Some? ==> x'.ref == x.ref && x'.bad == x.bad)
    && (x.freeing ==> x'.nlinks == x.nlinks && (x'.dirty ==> x.dirty))
  }

  /** The task's program counter follows the change. */
  ghost predicate MoveOk(s: State, t: nat, i: nat, x': Inode, pc: Pc)
  {
    var was := PcOf(s, t);
    && (forall y: nat :: Owed(pc, y) == if y == i then x'.holders[t] else Owed(was, y))
    && (forall y: nat :: Reaps(pc, y) <==> if y == i then x'.reaper == Some(t) else Reaps(was, y))
    && (forall y: nat :: Syncs(pc, y) <==> if y == i then x'.syncer == Some(t) else Syncs(was, y))
    && (forall y: nat :: Fills(pc, y) <==> if y == i then x'.filler == Some(t) else Fills(was, y))
    && (forall y: nat :: Owns(pc, y) <==> Owns(was, y))
    && (Wakes(was) ==> Wakes(pc))
  }

  /** Sleepers keep what they are owed when no waker forgets, and an inode being freed leaves the table
      only at the hands of a task that then is to wake them. */
  lemma SleepersKeep(s: State, s': State, t: nat)
    requires Inv(s) && s'.waiters == s.waiters && t !in s.waiters
    requires forall u: nat :: u != t ==> PcOf(s', u) == PcOf(s, u)
    requires Wakes(PcOf(s, t)) ==> Wakes(PcOf(s', t))
    requires forall i: nat :: StillFreeing(s, i) ==> StillFreeing(s', i) || Wakes(PcOf(s', t))
    ensures forall u: nat :: AsleepOk(s', u)
  {
    forall u: nat ensures AsleepOk(s', u) {
      Facts(s, 0, u);
      if u in s.waiters && !StillFreeing(s, AsleepOn(PcOf(s, u)).value) {
        var w: nat :| Wakes(PcOf(s, w));
        assert Wakes(PcOf(s', w));
      }
    }
  }

  lemma LocalRoles(s: State, t: nat, i: nat, x': Inode, pc: Pc)
    requires Inv(s) && i in s.inodes && LocalOk(s, t, i, x') && MoveOk(s, t, i, x', pc)
    ensures forall y: nat, u: nat :: RefOk(Local(s, t, i, x', pc), y, u)
    ensures forall y: nat, u: nat :: RoleOk(Local(s, t, i, x', pc), y, u)
  {
    var s' := Local(s, t, i, x', pc);
    forall y: nat, u: nat ensures RefOk(s', y, u) { assert RefOk(s, y, u); }
    forall y: nat, u: nat ensures RoleOk(s', y, u) { assert RoleOk(s, y, u); }
  }

  lemma OtherTask(s: State, t: nat, i: nat, x': Inode, pc: Pc, u: nat)
    requires TaskOk(s, u) && RoleOk(s, i, u) && i in s.inodes && LocalOk(s, t, i, x') && u != t
    ensures TaskOk(Local(s, t, i, x', pc), u)
  {
  }

  lemma LocalTasks(s: State, t: nat, i: nat, x': Inode, pc: Pc)
    requires (forall u: nat :: TaskOk(s, u)) && (forall u: nat :: RoleOk(s, i, u)) && i in s.inodes &&
             LocalOk(s, t, i, x')
    requires TaskOk(Local(s, t, i, x', pc), t)
    ensures forall u: nat :: TaskOk(Local(s, t, i, x', pc), u)
  {
    var s' := Local(s, t, i, x', pc);
    forall u: nat ensures TaskOk(s', u) {
      assert TaskOk(s, u) && RoleOk(s, i, u);
      if u != t { OtherTask(s, t, i, x', pc, u); }
    }
  }

  lemma LocalKeeps(s: State, t: nat, i: nat, x': Inode, pc: Pc)
    requires Inv(s) && i in s.inodes && LocalOk(s, t, i, x') && MoveOk(s, t, i, x', pc)
    requires t !in s.waiters
    requires TaskOk(Local(s, t, i, x', pc), t) && InodeOk(Local(s, t, i, x', pc), i)
    ensures Inv(Local(s, t, i, x', pc))
  {
    var s' := Local(s, t, i, x', pc);
    LocalRoles(s, t, i, x', pc);
    LocalTasks(s, t, i, x', pc);
    SleepersKeep(s, s', t);
    TableSame(s, s');
    forall y: nat ensures InodeOk(s', y) { assert InodeOk(s, y); }
  }

  /** A task that only moves. */
  lemma MoveKeeps(s: State, t: nat, pc: Pc)
    requires Inv(s) && t !in s.waiters
    requires forall y: nat :: Owed(pc, y) == Owed(PcOf(s, t), y) && (Reaps(pc, y) <==> Reaps(PcOf(s, t), y))
    requires forall y: nat :: (Syncs(pc, y) <==> Syncs(PcOf(s, t), y)) && (Fills(pc, y) <==> Fills(PcOf(s, t), y))
    requires forall y: nat :: Owns(pc, y) <==> Owns(PcOf(s, t), y)
    requires Wakes(PcOf(s, t)) ==> Wakes(pc)
    requires TaskOk(SetPc(s, t, pc), t)
    ensures Inv(SetPc(s, t, pc))
  {
    var s' := SetPc(s, t, pc);
    TableSame(s, s');
    forall y: nat, u: nat ensures RefOk(s', y, u) && RoleOk(s', y, u) { assert RefOk(s, y, u) && RoleOk(s, y, u); }
    forall y: nat ensures InodeOk(s', y) { assert InodeOk(s, y); }
    forall u: nat ensures TaskOk(s', u) { assert TaskOk(s, u); if u != t { TaskKept(s, s', u); } }
    SleepersKeep(s, s', t);
  }

  /** Every inode is still there, as hashed and as valid or bad as it was, and untouched if not hashed. */
  predicate StillGood(s: State, s': State)
  {
    forall i: nat :: i in s.inodes ==>
      && i in s'.inodes && s'.inodes[i].hashed == s.inodes[i].hashed
      && (s.inodes[i].valid ==> s'.inodes[i].valid) && (s.inodes[i].bad ==> s'.inodes[i].bad)
      && (!s.inodes[i].hashed ==> s'.inodes[i] == s.inodes[i])
      && (Disposable(s.inodes[i]) ==> Disposable(s'.inodes[i]))
  }

  lemma TaskKept(s: State, s': State, u: nat)
    requires TaskOk(s, u) && StillGood(s, s') && PcOf(s', u) == PcOf(s, u)
    ensures TaskOk(s', u)
  {
  }

  /** What is on the disk is nothing to the table. */
  lemma DiskAside(s: State, disk: map<(nat, nat), nat>)
    requires Inv(s)
    ensures Inv(s.(disk := disk))
  {
    var s' := s.(disk := disk);
    TableSame(s, s');
    forall y: nat, u: nat ensures RefOk(s', y, u) && RoleOk(s', y, u) { assert RefOk(s, y, u) && RoleOk(s, y, u); }
    forall y: nat ensures InodeOk(s', y) { assert InodeOk(s, y); }
    forall u: nat ensures TaskOk(s', u) { assert TaskOk(s, u); TaskKept(s, s', u); }
    forall u: nat ensures AsleepOk(s', u) {
      assert AsleepOk(s, u);
      if u in s.waiters && !StillFreeing(s, AsleepOn(PcOf(s, u)).value) {
        var w: nat :| Wakes(PcOf(s, w));
        assert Wakes(PcOf(s', w));
      }
    }
  }

  /** A task whose program counter is not that of a sleeper is not registered. */
  lemma Awake(s: State, t: nat)
    requires Inv(s) && AsleepOn(PcOf(s, t)).None?
    ensures t !in s.waiters
  {
    Facts(s, 0, t);
  }
}
