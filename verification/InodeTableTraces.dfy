/** Runs of the inode table from the start in which the code falls short. */
module InodeTableTraces {
  import opened Common
  import opened InodeTable
  import opened InodeTableInv
  import opened InodeTableCollect
  import opened InodeTableRuns
  import opened InodeTableSaved
  import opened InodeTableFlush

  // ---------------------------------------------------------------- three tasks and one inode

  /** The table with inode 0 in its chain, or with nothing in it. */
  function Chains(hashed: bool): (b: seq<seq<nat>>)
    ensures |b| == HASH_SIZE && b[0] == (if hashed then [0] else [])
  {
    seq(HASH_SIZE, k => if k == 0 && hashed then [0] else [])
  }

  lemma HashOfZero(sb: nat, ino: nat)
    requires sb == 0 && ino == 0
    ensures InodeHash(sb, ino) == 0
  {
    var halves := sb / 0x1_0000 + (sb % 0x1_0000) * 0x1_0000;
    assert halves == 0;
    assert Xor(sb, halves) == 0 && Xor(ino, 0) == 0;
  }

  lemma ChainsChange()
    ensures Chains(false)[0 := [0] + Chains(false)[0]] == Chains(true)
    ensures Chains(true)[0 := Without(Chains(true)[0], 0)] == Chains(false)
  {
    assert [0] + Chains(false)[0] == Chains(true)[0];
    assert Chains(true)[0][1..] == Chains(false)[0];
  }

  function Tasks(p0: Pc, p1: Pc, p2: Pc): map<nat, Pc>
  {
    map[0 := p0, 1 := p1, 2 := p2]
  }

  lemma Task0(p0: Pc, p1: Pc, p2: Pc, q: Pc)
    ensures Tasks(p0, p1, p2)[0 := q] == Tasks(q, p1, p2)
  {
  }

  lemma Task1(p0: Pc, p1: Pc, p2: Pc, q: Pc)
    ensures Tasks(p0, p1, p2)[1 := q] == Tasks(p0, q, p2)
  {
  }

  lemma Task2(p0: Pc, p1: Pc, p2: Pc, q: Pc)
    ensures Tasks(p0, p1, p2)[2 := q] == Tasks(p0, p1, q)
  {
  }

  function Empty(pcs: map<nat, Pc>): State
  {
    State(map[], Chains(false), {}, pcs, map[(0, 0) := 0])
  }

  /** Only inode 0 of super block 0 exists, under the name 0, with version `v` on the disk. */
  function With(x: Inode, pcs: map<nat, Pc>, v: nat): State
  {
    State(map[0 := x], Chains(x.hashed), {}, pcs, map[(0, 0) := v])
  }

  lemma LocalWith(x: Inode, pcs: map<nat, Pc>, v: nat, t: nat, y: Inode, q: Pc)
    requires x.hashed == y.hashed
    ensures Local(With(x, pcs, v), t, 0, y, q) == With(y, pcs[t := q], v)
  {
    assert map[0 := x][0 := y] == map[0 := y];
  }

  /** A step that changes the inode and moves a task. */
  lemma Changes1(x: Inode, pcs: map<nat, Pc>, v: nat, a: Act, t: nat, y: Inode, q: Pc)
    requires Reach(With(x, pcs, v)) && Enabled(With(x, pcs, v), a) && Allowed(With(x, pcs, v), a)
    requires Next(With(x, pcs, v), a) == Local(With(x, pcs, v), t, 0, y, q) && x.hashed == y.hashed
    ensures Reach(With(y, pcs[t := q], v))
  {
    LocalWith(x, pcs, v, t, y, q);
    Onward(With(x, pcs, v), a, With(y, pcs[t := q], v));
  }

  /** A step that only moves a task. */
  lemma Moves1(x: Inode, pcs: map<nat, Pc>, v: nat, a: Act, t: nat, q: Pc)
    requires Reach(With(x, pcs, v)) && Enabled(With(x, pcs, v), a) && Allowed(With(x, pcs, v), a)
    requires Next(With(x, pcs, v), a) == SetPc(With(x, pcs, v), t, q)
    ensures Reach(With(x, pcs[t := q], v))
  {
    Onward(With(x, pcs, v), a, With(x, pcs[t := q], v));
  }

  lemma SetTwice(pcs: map<nat, Pc>, t: nat, p: Pc, q: Pc)
    ensures pcs[t := p][t := q] == pcs[t := q]
  {
  }

  function Start(): map<nat, Pc>
  {
    Tasks(Idle, Idle, Idle)
  }

  /** Task `t` asks for the inode, which is not there. */
  lemma Creating(t: nat)
    ensures Reach(Empty(Start()[t := GetCreate(0, 0)]))
  {
    var p, q := GetFind(0, 0, None), GetCreate(0, 0);
    var s0, s1 := Empty(Start()), Empty(Start()[t := p]);
    Begins();
    assert PcOf(s0, t).Idle?;
    Onward(s0, StartGet(t, 0, 0), s1);
    MustCreate(Start()[t := p], t);
    SetTwice(Start(), t, p, q);
    Onward(s1, Get(t, FindStep), Empty(Start()[t := q]));
  }

  lemma Begins()
    ensures Reach(Empty(Start()))
  {
    var s0 := Empty(Start());
    assert Initial(s0) && Runs(s0, []) && After(s0, []) == s0;
  }

  lemma MustCreate(pcs: map<nat, Pc>, t: nat)
    ensures FindNext(Empty(pcs), t, 0, 0, None) == Empty(pcs[t := GetCreate(0, 0)])
  {
    NotThere(pcs);
  }

  lemma NotThere(pcs: map<nat, Pc>)
    ensures Lookup(Empty(pcs), 0, 0) == None
  {
    HashOfZero(0, 0);
  }

  /** It makes the inode, with one link, ... */
  lemma Created(t: nat)
    ensures Reach(With(NewInode(0, 0, 1, t), Start()[t := GetFind(0, 0, Some(0))], 0))
  {
    Creating(t);
    var pcs, q := Start()[t := GetCreate(0, 0)], GetFind(0, 0, Some(0));
    assert map[][0 := NewInode(0, 0, 1, t)] == map[0 := NewInode(0, 0, 1, t)];
    assert pcs[t := q] == Start()[t := q];
    Onward(Empty(pcs), Get(t, CreateStep(0, 1)), With(NewInode(0, 0, 1, t), Start()[t := q], 0));
  }

  /** An inode with one link that task `t` is to read. */
  function Unread(t: nat): Inode
  {
    NewInode(0, 0, 1, t).(hashed := true, home := None, filler := Some(t))
  }

  lemma AddsNew(t: nat, pcs: map<nat, Pc>)
    ensures HashAdd(With(NewInode(0, 0, 1, t), pcs, 0), 0) == With(NewInode(0, 0, 1, t).(hashed := true), pcs, 0)
  {
    HashOfZero(0, 0);
    ChainsChange();
    var x := NewInode(0, 0, 1, t);
    assert map[0 := x][0 := x.(hashed := true)] == map[0 := x.(hashed := true)];
  }

  lemma FindsNothing(t: nat, pcs: map<nat, Pc>)
    ensures FindNext(With(NewInode(0, 0, 1, t), pcs, 0), t, 0, 0, Some(0)) == With(Unread(t), pcs[t := GetFill(0)], 0)
  {
    AddsNew(t, pcs);
    LocalWith(NewInode(0, 0, 1, t).(hashed := true), pcs, 0, t, Unread(t), GetFill(0));
    assert Lookup(With(NewInode(0, 0, 1, t), pcs, 0), 0, 0) == None by { HashOfZero(0, 0); }
  }

  /** ... and puts it into the table. */
  lemma Filling(t: nat)
    ensures Reach(With(Unread(t), Start()[t := GetFill(0)], 0))
  {
    Created(t);
    var pcs := Start()[t := GetFind(0, 0, Some(0))];
    FindsNothing(t, pcs);
    assert pcs[t := GetFill(0)] == Start()[t := GetFill(0)];
    Onward(With(NewInode(0, 0, 1, t), pcs, 0), Get(t, FindStep), With(Unread(t), Start()[t := GetFill(0)], 0));
  }

  // ---------------------------------------------------------------- a change is lost

  /** The inode once it has been read, with no flag but DIRTY. */
  function Read(ref: nat, holders: multiset<nat>, mem: nat, dirty: bool): Inode
  {
    Inode(0, 0, ref, 1, mem, true, dirty, false, false, false, true, holders, None, None, None, None)
  }

  /** Task 0 reads the inode and changes it. */
  lemma FirstChange()
    ensures Reach(With(Read(1, multiset{0}, 1, true), Tasks(Held(0), Idle, Idle), 0))
  {
    Filling(0);
    var h := multiset{0};
    Task0(Idle, Idle, Idle, GetFill(0));
    Changes1(Unread(0), Tasks(GetFill(0), Idle, Idle), 0, Get(0, ReadOk), 0, Read(1, h, 0, false), Held(0));
    Task0(GetFill(0), Idle, Idle, Held(0));
    ChangedBy0(Read(1, h, 0, false), Idle, 0);
  }

  /** Task 0 changes the inode, whatever task 1 is doing. */
  lemma ChangedBy0(x: Inode, p: Pc, v: nat)
    requires Reach(With(x, Tasks(Held(0), p, Idle), v)) && x.nlinks == 1
    ensures Reach(With(x.(mem := x.mem + 1, dirty := true), Tasks(Held(0), p, Idle), v))
  {
    var y := x.(mem := x.mem + 1);
    Changes1(x, Tasks(Held(0), p, Idle), v, Client(0, Change(1)), 0, y, Changed(0));
    Task0(Held(0), p, Idle, Changed(0));
    Changes1(y, Tasks(Changed(0), p, Idle), v, Client(0, Mark), 0, y.(dirty := true), Held(0));
    Task0(Changed(0), p, Idle, Held(0));
  }

  lemma OneToSync(x: Inode, pcs: map<nat, Pc>, v: nat)
    requires Reach(With(x, pcs, v)) && x.hashed && ToSync(x, None)
    ensures SyncIds(With(x, pcs, v), None) == [0]
  {
    ReachInv(With(x, pcs, v));
    SyncList(With(x, pcs, v), None);
    OnlyElement(SyncIds(With(x, pcs, v), None), 0);
  }

  lemma OneToFree(x: Inode, pcs: map<nat, Pc>, v: nat)
    requires Reach(With(x, pcs, v)) && x.hashed && ToFree(x)
    ensures FreeIds(With(x, pcs, v)) == [0]
  {
    ReachInv(With(x, pcs, v));
    FreeList(With(x, pcs, v));
    OnlyElement(FreeIds(With(x, pcs, v)), 0);
  }

  /** What `inode_sync` does with a single dirty inode. */
  lemma SyncsOne(x: Inode, pcs: map<nat, Pc>, v: nat, t: nat)
    requires SyncIds(With(x, pcs, v), None) == [0]
    ensures SyncCollectNext(With(x, pcs, v), t, None, true) ==
            With(Ref1(x, t), pcs[t := Write(0, Test(true), ToPut(SyncRest([], true)))], v)
  {
    assert RefAll(map[0 := x], [0], t) == map[0 := Ref1(x, t)];
    var ids: seq<nat> := [0];
    assert ids[1..] == [];
  }

  /** What `inode_oom` does with a single unreferenced inode. */
  lemma FreesOne(x: Inode, pcs: map<nat, Pc>, v: nat, t: nat)
    requires FreeIds(With(x, pcs, v)) == [0]
    ensures OomCollectNext(With(x, pcs, v), t) ==
            With(MarkFreeing(x, t), pcs[t := Write(0, Test(true), ToUncache(FinishRest([])))], v)
  {
    assert MarkAll(map[0 := x], [0], t) == map[0 := MarkFreeing(x, t)];
    var ids: seq<nat> := [0];
    assert ids[1..] == [];
  }

  lemma SyncTakes(x: Inode, pcs: map<nat, Pc>, v: nat, t: nat)
    requires Reach(With(x, pcs, v)) && x.hashed && ToSync(x, None) && t in pcs && pcs[t].Idle?
    ensures Reach(With(Ref1(x, t), pcs[t := Write(0, Test(true), ToPut(SyncRest([], true)))], v))
  {
    OneToSync(x, pcs, v);
    SyncsOne(x, pcs, v, t);
    Onward(With(x, pcs, v), SyncCollect(t, None, true), SyncCollectNext(With(x, pcs, v), t, None, true));
  }

  lemma ReclaimTakes(x: Inode, pcs: map<nat, Pc>, v: nat, t: nat)
    requires Reach(With(x, pcs, v)) && x.hashed && ToFree(x) && t in pcs && pcs[t].Idle?
    ensures Reach(With(MarkFreeing(x, t), pcs[t := Write(0, Test(true), ToUncache(FinishRest([])))], v))
  {
    OneToFree(x, pcs, v);
    FreesOne(x, pcs, v, t);
    Onward(With(x, pcs, v), OomCollect(t), OomCollectNext(With(x, pcs, v), t));
  }

  /** Where task 1 is in its sync. */
  function Syncing(stage: Stage): Pc
  {
    Write(0, stage, ToPut(SyncRest([], true)))
  }

  /** A sync by task 1 takes the inode, ... */
  lemma Collecting()
    ensures Reach(With(Read(2, multiset{0, 1}, 1, true), Tasks(Held(0), Syncing(Test(true)), Idle), 0))
  {
    FirstChange();
    var x, y, p := Read(1, multiset{0}, 1, true), Read(2, multiset{0, 1}, 1, true), Tasks(Held(0), Idle, Idle);
    SyncTakes(x, p, 0, 1);
    Task1(Held(0), Idle, Idle, Syncing(Test(true)));
    assert Ref1(x, 1) == y by { assert multiset{0} + multiset{1} == multiset{0, 1}; }
  }

  /** ... copies it ... */
  lemma Copied()
    ensures Reach(With(Read(2, multiset{0, 1}, 1, true).(sync := true, syncer := Some(1)),
                       Tasks(Held(0), Syncing(Clearing), Idle), 1))
  {
    Collecting();
    var x := Read(2, multiset{0, 1}, 1, true);
    var y := x.(sync := true, syncer := Some(1));
    Changes1(x, Tasks(Held(0), Syncing(Test(true)), Idle), 0, Work(1, WriteStep), 1, y, Syncing(Copying));
    Task1(Held(0), Syncing(Test(true)), Idle, Syncing(Copying));
    Task1(Held(0), Syncing(Copying), Idle, Syncing(Clearing));
    assert map[(0, 0) := 0][(0, 0) := 1] == map[(0, 0) := 1];
    Onward(With(y, Tasks(Held(0), Syncing(Copying), Idle), 0), Work(1, CopyStep),
           With(y, Tasks(Held(0), Syncing(Clearing), Idle), 1));
  }

  /** ... and clears DIRTY after task 0 has changed the inode again. */
  lemma Cleared()
    ensures Reach(With(Read(2, multiset{0, 1}, 2, false), Tasks(Held(0), Put(0, SyncRest([], true)), Idle), 1))
  {
    Copied();
    var y := Read(2, multiset{0, 1}, 1, true).(sync := true, syncer := Some(1));
    ChangedBy0(y, Syncing(Clearing), 1);
    var z := Read(2, multiset{0, 1}, 2, true).(sync := true, syncer := Some(1));
    assert y.(mem := y.mem + 1, dirty := true) == z;
    ClearStep1(z);
  }

  lemma ClearStep1(y: Inode)
    requires y == Read(2, multiset{0, 1}, 2, true).(sync := true, syncer := Some(1))
    requires Reach(With(y, Tasks(Held(0), Syncing(Clearing), Idle), 1))
    ensures Reach(With(Read(2, multiset{0, 1}, 2, false), Tasks(Held(0), Put(0, SyncRest([], true)), Idle), 1))
  {
    Changes1(y, Tasks(Held(0), Syncing(Clearing), Idle), 1, Work(1, WriteDone), 1,
             Read(2, multiset{0, 1}, 2, false), Put(0, SyncRest([], true)));
    Task1(Held(0), Syncing(Clearing), Idle, Put(0, SyncRest([], true)));
  }

  // ---------------------------------------------------------------- a waiting write returns too early

  /** The run of one more step in front. */
  lemma StepBefore(s: State, a: Act, s': State, rest: seq<Act>)
    requires Enabled(s, a) && Allowed(s, a) && Next(s, a) == s' && Runs(s', rest)
    ensures Runs(s, [a] + rest) && After(s, [a] + rest) == After(s', rest)
    ensures Refreshed(s, [a] + rest, 0) <==> (0 in s.inodes && UpToDate(s, 0)) || Refreshed(s', rest, 0)
  {
    assert ([a] + rest)[1..] == rest;
  }

  /** Task 0 has changed the inode since task 1 copied it, and calls for a write that waits; the third state is that
      after task 1 has cleared DIRTY. */
  function Late(dirty: bool, p0: Pc, p1: Pc): State
  {
    var x := Read(2, multiset{0, 1}, 2, dirty);
    With(if dirty then x.(sync := true, syncer := Some(1)) else x, Tasks(p0, p1, Idle), 1)
  }

  lemma LateReached()
    ensures Reach(Late(true, Held(0), Syncing(Clearing)))
  {
    Copied();
    var y := Read(2, multiset{0, 1}, 1, true).(sync := true, syncer := Some(1));
    ChangedBy0(y, Syncing(Clearing), 1);
    assert y.(mem := y.mem + 1, dirty := true) == Read(2, multiset{0, 1}, 2, true).(sync := true, syncer := Some(1));
  }

  lemma LateStep1()
    ensures var s, a := Late(true, Held(0), Syncing(Clearing)), Client(0, StartWrite(true));
            && Enabled(s, a) && Allowed(s, a)
            && Next(s, a) == Late(true, Write(0, Test(true), ToHeld), Syncing(Clearing))
  {
    Task0(Held(0), Syncing(Clearing), Idle, Write(0, Test(true), ToHeld));
  }

  lemma LateStep2()
    ensures var s, a := Late(true, Write(0, Test(true), ToHeld), Syncing(Clearing)), Work(0, WriteStep);
            && Enabled(s, a) && Allowed(s, a)
            && Next(s, a) == Late(true, Write(0, Waiting, ToHeld), Syncing(Clearing))
  {
    Task0(Write(0, Test(true), ToHeld), Syncing(Clearing), Idle, Write(0, Waiting, ToHeld));
  }

  lemma LateStep3()
    ensures var s, a := Late(true, Write(0, Waiting, ToHeld), Syncing(Clearing)), Work(1, WriteDone);
            && Enabled(s, a) && Allowed(s, a)
            && Next(s, a) == Late(false, Write(0, Waiting, ToHeld), Put(0, SyncRest([], true)))
  {
    var p, q := Write(0, Waiting, ToHeld), Put(0, SyncRest([], true));
    var x, y := Read(2, multiset{0, 1}, 2, true).(sync := true, syncer := Some(1)), Read(2, multiset{0, 1}, 2, false);
    Task1(p, Syncing(Clearing), Idle, q);
    LocalWith(x, Tasks(p, Syncing(Clearing), Idle), 1, 1, y, q);
  }

  lemma LateStep4()
    ensures var s, a := Late(false, Write(0, Waiting, ToHeld), Put(0, SyncRest([], true))), Work(0, WriteWaitStep);
            && Enabled(s, a) && Allowed(s, a)
            && Next(s, a) == Late(false, Held(0), Put(0, SyncRest([], true)))
  {
    Task0(Write(0, Waiting, ToHeld), Put(0, SyncRest([], true)), Idle, Held(0));
  }

  /** From a reachable state, with a copy made before the change and DIRTY to be cleared after it, a write of the
      changed inode that waits comes back without the change ever having been on the disk. */
  lemma WriteReturnsEarly()
    ensures var s := Late(true, Held(0), Syncing(Clearing));
            var acts := [Client(0, StartWrite(true)), Work(0, WriteStep), Work(1, WriteDone), Work(0, WriteWaitStep)];
            && Reach(s) && PcOf(s, 0) == Held(0) && s.inodes[0].dirty && PastCopy(PcOf(s, 1), 0)
            && Runs(s, acts) && PcOf(After(s, acts), 0) == Held(0) && !Refreshed(s, acts, 0)
  {
    LateReached();
    LateRun();
  }

  lemma LateRun()
    ensures var s := Late(true, Held(0), Syncing(Clearing));
            var acts := [Client(0, StartWrite(true)), Work(0, WriteStep), Work(1, WriteDone), Work(0, WriteWaitStep)];
            Runs(s, acts) && PcOf(After(s, acts), 0) == Held(0) && !Refreshed(s, acts, 0)
  {
    var k := Put(0, SyncRest([], true));
    var s1, s2 := Late(true, Held(0), Syncing(Clearing)), Late(true, Write(0, Test(true), ToHeld), Syncing(Clearing));
    var s3, s4 := Late(true, Write(0, Waiting, ToHeld), Syncing(Clearing)), Late(false, Write(0, Waiting, ToHeld), k);
    var s5 := Late(false, Held(0), k);
    assert Runs(s5, []) && After(s5, []) == s5 && !Refreshed(s5, [], 0);
    LateStep4();
    StepBefore(s4, Work(0, WriteWaitStep), s5, []);
    LateStep3();
    StepBefore(s3, Work(1, WriteDone), s4, [Work(0, WriteWaitStep)] + []);
    LateStep2();
    StepBefore(s2, Work(0, WriteStep), s3, [Work(1, WriteDone)] + ([Work(0, WriteWaitStep)] + []));
    var rest := [Work(0, WriteStep)] + ([Work(1, WriteDone)] + ([Work(0, WriteWaitStep)] + []));
    LateStep1();
    StepBefore(s1, Client(0, StartWrite(true)), s2, rest);
    assert [Client(0, StartWrite(true))] + rest ==
           [Client(0, StartWrite(true)), Work(0, WriteStep), Work(1, WriteDone), Work(0, WriteWaitStep)];
  }

  // ---------------------------------------------------------------- the change is never written

  /** Both tasks drop the inode. */
  lemma Dropped()
    ensures Reach(With(Read(0, multiset{}, 2, false), Tasks(Idle, Idle, Idle), 1))
  {
    Cleared();
    var k := SyncRest([], true);
    var x, y := Read(2, multiset{0, 1}, 2, false), Read(1, multiset{0}, 2, false);
    assert multiset{0, 1} - multiset{1} == multiset{0};
    Changes1(x, Tasks(Held(0), Put(0, k), Idle), 1, Work(1, PutStep), 1, y, Idle);
    Task1(Held(0), Put(0, k), Idle, Idle);
    Moves1(y, Tasks(Held(0), Idle, Idle), 1, Client(0, StartPut), 0, Put(0, Return));
    Task0(Held(0), Idle, Idle, Put(0, Return));
    Changes1(y, Tasks(Put(0, Return), Idle, Idle), 1, Work(0, PutStep), 0, Read(0, multiset{}, 2, false), Idle);
    Task0(Put(0, Return), Idle, Idle, Idle);
  }

  /** The inode is being freed by task 2 and is out of the table. */
  function Freed(): Inode
  {
    Read(0, multiset{}, 2, false).(freeing := true, reaper := Some(2), hashed := false)
  }

  /** A reclaim by task 2 finds the inode clean ... */
  lemma Reclaimed()
    ensures Reach(With(Freed().(hashed := true), Tasks(Idle, Idle, Uncache(0, FinishRest([]))), 1))
  {
    Dropped();
    var x, y := Read(0, multiset{}, 2, false), Freed().(hashed := true);
    var p, q := Tasks(Idle, Idle, Idle), Write(0, Test(true), ToUncache(FinishRest([])));
    ReclaimTakes(x, p, 1, 2);
    Task2(Idle, Idle, Idle, q);
    assert MarkFreeing(x, 2) == y;
    Moves1(y, Tasks(Idle, Idle, q), 1, Work(2, WriteStep), 2, Uncache(0, FinishRest([])));
    Task2(Idle, Idle, q, Uncache(0, FinishRest([])));
  }

  lemma TakesOut(x: Inode, pcs: map<nat, Pc>, v: nat)
    requires x.hashed && x.sb == 0 && x.ino == 0
    ensures HashDel(With(x, pcs, v), 0) == With(x.(hashed := false), pcs, v)
  {
    HashOfZero(0, 0);
    ChainsChange();
    assert map[0 := x][0 := x.(hashed := false)] == map[0 := x.(hashed := false)];
  }

  /** ... and deallocates it: it has a link, and what it holds is not what the disk holds. */
  lemma ChangeLost()
    ensures var s := With(Freed(), Tasks(Idle, Idle, Dealloc(0, FinishRest([]))), 1);
            && Reach(s) && PcOf(s, 2) == Dealloc(0, FinishRest([])) && WorkEnabled(s, 2, DeallocStep)
            && s.inodes[0].nlinks == 1 && !UpToDate(s, 0)
  {
    Reclaimed();
    var x, p := Freed().(hashed := true), Tasks(Idle, Idle, Uncache(0, FinishRest([])));
    TakesOut(x, p, 1);
    Task2(Idle, Idle, Uncache(0, FinishRest([])), Dealloc(0, FinishRest([])));
    Onward(With(x, p, 1), Work(2, UncacheStep), With(Freed(), Tasks(Idle, Idle, Dealloc(0, FinishRest([]))), 1));
  }

  // ---------------------------------------------------------------- a bad inode with two waiters

  lemma LookupZero(x: Inode, pcs: map<nat, Pc>)
    requires x.hashed && x.sb == 0 && x.ino == 0
    ensures Lookup(With(x, pcs, 0), 0, 0) == Some(0)
  {
    HashOfZero(0, 0);
  }

  /** Task `t` finds the inode that is there and waits for it to be read. */
  lemma Finds(x: Inode, pcs: map<nat, Pc>, t: nat)
    requires Reach(With(x, pcs, 0)) && t in pcs && pcs[t].Idle?
    requires x.hashed && x.sb == 0 && x.ino == 0 && !x.freeing
    ensures Reach(With(Ref1(x, t), pcs[t := GetWait(0)], 0))
  {
    var p, q := GetFind(0, 0, None), GetFound(0, None);
    Moves1(x, pcs, 0, StartGet(t, 0, 0), t, p);
    LookupZero(x, pcs[t := p]);
    Changes1(x, pcs[t := p], 0, Get(t, FindStep), t, Ref1(x, t), q);
    SetTwice(pcs, t, p, q);
    Moves1(Ref1(x, t), pcs[t := q], 0, Get(t, FoundStep), t, GetWait(0));
    SetTwice(pcs, t, q, GetWait(0));
  }

  /** Task 2 makes the inode, and tasks 0 and 1 wait for it to be read. */
  lemma BothWait()
    ensures Reach(With(Ref1(Ref1(Unread(2), 0), 1), Tasks(GetWait(0), GetWait(0), GetFill(0)), 0))
  {
    Filling(2);
    Task2(Idle, Idle, Idle, GetFill(0));
    Finds(Unread(2), Tasks(Idle, Idle, GetFill(0)), 0);
    Task0(Idle, Idle, GetFill(0), GetWait(0));
    Finds(Ref1(Unread(2), 0), Tasks(GetWait(0), Idle, GetFill(0)), 1);
    Task1(GetWait(0), Idle, GetFill(0), GetWait(0));
  }

  /** The inode when its read has failed. */
  function Bad(): Inode
  {
    Inode(0, 0, 2, 1, 0, false, false, false, false, true, true, multiset{0, 1}, None, None, None, None)
  }

  /** The read fails, and task 0 is the first to notice. */
  function TwoWaiters(): State
  {
    With(Bad(), Tasks(GetCheck(0), GetWait(0), Idle), 0)
  }

  lemma TwoWaitersReached()
    ensures Reach(TwoWaiters())
  {
    BothWait();
    var x := Ref1(Ref1(Unread(2), 0), 1);
    assert x.holders - multiset{2} == multiset{0, 1};
    Changes1(x, Tasks(GetWait(0), GetWait(0), GetFill(0)), 0, Get(2, ReadFails), 2, Bad(), Idle);
    Task2(GetWait(0), GetWait(0), GetFill(0), Idle);
    Moves1(Bad(), Tasks(GetWait(0), GetWait(0), Idle), 0, Get(0, WaitStep), 0, GetCheck(0));
    Task0(GetWait(0), GetWait(0), Idle, GetCheck(0));
  }

  /** A run from the start reaches a state in which task 0 is about to free the inode task 1 refers to. */
  lemma TwoWaitersBreak()
    ensures var s, a := TwoWaiters(), Get(0, CheckStep); Reach(s) && Inv(s) && Enabled(s, a) && !Inv(Next(s, a))
  {
    TwoWaitersReached();
    ReachInv(TwoWaiters());
    assert |TwoWaiters().buckets| == HASH_SIZE;
    AllowedIffKept(TwoWaiters(), Get(0, CheckStep));
  }

  /** Two steps later task 1 refers to an inode that is gone. */
  lemma LeftDangling()
    ensures GetEnabled(TwoWaiters(), 0, CheckStep)
    ensures var s1 := GetNext(TwoWaiters(), 0, CheckStep);
            && GetEnabled(s1, 0, BadDeallocStep)
            && var s2 := GetNext(s1, 0, BadDeallocStep); Owed(PcOf(s2, 1), 0) > 0 && 0 !in s2.inodes
  {
    assert |TwoWaiters().buckets| == HASH_SIZE;
  }
}
