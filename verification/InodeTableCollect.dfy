/** The two scans of the whole inode table: `inode_sync` and `inode_oom`. */
module InodeTableCollect {
  import opened Common
  import opened InodeTable
  import opened InodeTableInv
  import opened InodeTableLocal
  import opened InodeTableWork

  /** Each chain holds distinct inodes, and no inode is in two chains. */
  lemma ChainsSeparate(s: State)
    requires Table(s)
    ensures Separate(s.buckets)
    ensures forall i :: InSome(s.buckets, i) <==> i in s.inodes && s.inodes[i].hashed
  {
    forall k | 0 <= k < |s.buckets| ensures Distinct(s.buckets[k]) { assert ChainOk(s, k); }
    forall i, j, id | 0 <= i < |s.buckets| && 0 <= j < |s.buckets| && id in s.buckets[i] && id in s.buckets[j]
      ensures i == j
    {
      assert ChainOk(s, i) && ChainOk(s, j);
    }
    forall i ensures InSome(s.buckets, i) <==> i in s.inodes && s.inodes[i].hashed {
      if InSome(s.buckets, i) {
        var k :| 0 <= k < |s.buckets| && i in s.buckets[k];
        assert ChainOk(s, k);
      }
      if i in s.inodes && s.inodes[i].hashed { assert HashedOk(s, i); }
    }
  }

  /** The two scans list exactly the inodes they are to work on, each once. */
  lemma SyncList(s: State, only: Option<nat>)
    requires Table(s)
    ensures var ids := SyncIds(s, only);
            && Distinct(ids)
            && forall i :: i in ids <==>
                 && i in s.inodes && s.inodes[i].hashed && (only.Some? ==> s.inodes[i].sb == only.value)
                 && s.inodes[i].valid && s.inodes[i].dirty && !s.inodes[i].freeing
  {
    ChainsSeparate(s);
    SelectAllExact(s.buckets, i => i in s.inodes && ToSync(s.inodes[i], only));
  }

  lemma FreeList(s: State)
    requires Table(s)
    ensures var ids := FreeIds(s);
            && Distinct(ids)
            && forall i :: i in ids <==>
                 && i in s.inodes && s.inodes[i].hashed
                 && s.inodes[i].ref == 0 && s.inodes[i].valid && !s.inodes[i].freeing
  {
    ChainsSeparate(s);
    SelectAllExact(s.buckets, i => i in s.inodes && ToFree(s.inodes[i]));
  }

  // ---------------------------------------------------------------- the two new states

  function Rest(ids: seq<nat>, wait: bool, free: bool): Kont
  {
    if free then FinishRest(ids) else SyncRest(ids, wait)
  }

  /** Task `t` has listed `ids`, and marked each or counted a reference to each. */
  function Listed(s: State, t: nat, ids: seq<nat>, wait: bool, free: bool): State
  {
    SetPc(s.(inodes := if free then MarkAll(s.inodes, ids, t) else RefAll(s.inodes, ids, t)),
          t, Continue(Rest(ids, wait, free)))
  }

  ghost predicate CanList(s: State, t: nat, ids: seq<nat>, free: bool)
  {
    && PcOf(s, t) == Idle && Distinct(ids)
    && forall i :: i in ids ==> i in s.inodes && s.inodes[i].hashed && s.inodes[i].valid && !s.inodes[i].freeing
                                && (free ==> s.inodes[i].ref == 0)
  }

  lemma ListedRoles(s: State, t: nat, ids: seq<nat>, wait: bool, free: bool)
    requires Inv(s) && CanList(s, t, ids, free)
    ensures forall i: nat, u: nat :: RefOk(Listed(s, t, ids, wait, free), i, u)
    ensures forall i: nat, u: nat :: RoleOk(Listed(s, t, ids, wait, free), i, u)
  {
    var s' := Listed(s, t, ids, wait, free);
    forall i: nat, u: nat ensures RefOk(s', i, u) && RoleOk(s', i, u) {
      Facts(s, i, u);
      DistinctCount(ids, i);
      ContinueIs(Rest(ids, wait, free), i);
    }
  }

  lemma ListedTasks(s: State, t: nat, ids: seq<nat>, wait: bool, free: bool)
    requires Inv(s) && CanList(s, t, ids, free)
    ensures forall i: nat :: InodeOk(Listed(s, t, ids, wait, free), i)
    ensures forall u: nat :: TaskOk(Listed(s, t, ids, wait, free), u)
  {
    var s' := Listed(s, t, ids, wait, free);
    ListedRoles(s, t, ids, wait, free);
    assert StillGood(s, s');
    forall i: nat ensures InodeOk(s', i) { assert InodeOk(s, i); }
    ContinueOk(s', t, Rest(ids, wait, free));
    forall u: nat ensures TaskOk(s', u) {
      assert TaskOk(s, u);
      if u != t { TaskKept(s, s', u); }
    }
  }

  lemma ListedKeeps(s: State, t: nat, ids: seq<nat>, wait: bool, free: bool)
    requires Inv(s) && CanList(s, t, ids, free)
    ensures Inv(Listed(s, t, ids, wait, free))
  {
    var s' := Listed(s, t, ids, wait, free);
    ListedRoles(s, t, ids, wait, free);
    ListedTasks(s, t, ids, wait, free);
    TableSame(s, s');
    Awake(s, t);
    SleepersKeep(s, s', t);
  }

  lemma SyncCollectKeeps(s: State, t: nat, only: Option<nat>, wait: bool)
    requires Inv(s) && PcOf(s, t).Idle?
    ensures Inv(SyncCollectNext(s, t, only, wait))
  {
    SyncList(s, only);
    ListedKeeps(s, t, SyncIds(s, only), wait, false);
  }

  lemma OomCollectKeeps(s: State, t: nat)
    requires Inv(s) && PcOf(s, t).Idle?
    ensures Inv(OomCollectNext(s, t))
  {
    FreeList(s);
    ListedKeeps(s, t, FreeIds(s), true, true);
  }
}
