/** Whether changes to inodes reach the disk. */
module InodeTableSaved {
  import opened InodeTable
  import opened InodeTableInv
  import opened InodeTableWork
  import opened InodeTableRuns

  predicate UpToDate(s: State, i: nat)
    requires i in s.inodes
  {
    s.inodes[i].mem == OnDisk(s, s.inodes[i].sb, s.inodes[i].ino)
  }

  /** The task has changed the inode and is about to mark it dirty. */
  predicate Unmarked(s: State, t: nat, i: nat)
  {
    PcOf(s, t) == Changed(i)
  }

  /** An inode in the table that differs from the disk is dirty, or about to be marked so. */
  ghost predicate Tracked(s: State, i: nat)
  {
    i in s.inodes && s.inodes[i].hashed && s.inodes[i].valid ==>
      s.inodes[i].dirty || UpToDate(s, i) || exists t: nat :: Unmarked(s, t, i)
  }

  ghost predicate Saved(s: State)
  {
    forall i: nat :: Tracked(s, i)
  }

  // ---------------------------------------------------------------- steps that change no contents

  predicate CalmAt(s: State, s': State, i: nat)
  {
    i in s'.inodes && s'.inodes[i].hashed && s'.inodes[i].valid ==>
      && i in s.inodes && s.inodes[i].hashed && s.inodes[i].valid
      && s'.inodes[i].sb == s.inodes[i].sb && s'.inodes[i].ino == s.inodes[i].ino && s'.inodes[i].mem == s.inodes[i].mem
      && (s.inodes[i].dirty ==> s'.inodes[i].dirty)
  }

  /** Contents and disk stay, no flag is cleared, and nobody who is to mark an inode forgets. */
  ghost predicate Calm(s: State, s': State)
  {
    && s'.disk == s.disk && (forall i: nat :: CalmAt(s, s', i))
    && (forall t: nat, i: nat :: Unmarked(s, t, i) ==> Unmarked(s', t, i))
  }

  lemma CalmKeeps(s: State, s': State)
    requires Saved(s) && Calm(s, s')
    ensures Saved(s')
  {
    forall i: nat ensures Tracked(s', i) {
      assert Tracked(s, i) && CalmAt(s, s', i);
      if i in s.inodes && s.inodes[i].hashed && s.inodes[i].valid && !s.inodes[i].dirty && !UpToDate(s, i) {
        var t: nat :| Unmarked(s, t, i);
        assert Unmarked(s', t, i);
      }
    }
  }

  /** The steps that change contents, the disk or the flag DIRTY. */
  predicate Touchy(a: Act)
  {
    match a
    case Get(_, op) => op.ReadOk?
    case Client(_, op) => op.Change? || op.Mark?
    case Work(_, op) => op.CopyStep? || op.WriteDone?
    case _ => false
  }

  /** An inode that goes into the table is not valid yet. */
  lemma FindCalm(s: State, t: nat)
    requires Inv(s) && GetEnabled(s, t, FindStep)
    ensures Calm(s, GetNext(s, t, FindStep))
  {
    var new_ := PcOf(s, t).new_;
    if new_.Some? { Facts(s, new_.value, t); }
    forall i: nat ensures CalmAt(s, GetNext(s, t, FindStep), i) { }
  }

  lemma GetCalm(s: State, t: nat, op: GetOp)
    requires Inv(s) && GetEnabled(s, t, op) && !op.ReadOk?
    ensures Calm(s, GetNext(s, t, op))
  {
    if op.FindStep? {
      FindCalm(s, t);
    } else if op.CheckStep? || op.ReadFails? {
      BadCalm(s, t, op);
    } else {
      forall i: nat ensures CalmAt(s, GetNext(s, t, op), i) { }
    }
  }

  lemma BadCalm(s: State, t: nat, op: GetOp)
    requires GetEnabled(s, t, op) && (op.CheckStep? || op.ReadFails?)
    ensures Calm(s, GetNext(s, t, op))
  {
    forall i: nat ensures CalmAt(s, GetNext(s, t, op), i) { }
  }

  lemma WorkCalm(s: State, t: nat, op: WorkOp)
    requires WorkEnabled(s, t, op) && !op.CopyStep? && !op.WriteDone?
    ensures Calm(s, WorkNext(s, t, op))
  {
    forall i: nat ensures CalmAt(s, WorkNext(s, t, op), i) { }
  }

  lemma ClearCalm(s: State, t: nat, op: ClearOp)
    requires ClearEnabled(s, t, op)
    ensures Calm(s, ClearNext(s, t, op))
  {
    forall i: nat ensures CalmAt(s, ClearNext(s, t, op), i) { }
  }

  lemma ClientCalm(s: State, t: nat, op: ClientOp)
    requires ClientEnabled(s, t, op) && !op.Change? && !op.Mark?
    ensures Calm(s, ClientNext(s, t, op))
  {
    forall i: nat ensures CalmAt(s, ClientNext(s, t, op), i) { }
  }

  lemma StepCalm(s: State, a: Act)
    requires Inv(s) && Enabled(s, a) && !Touchy(a)
    ensures Calm(s, Next(s, a))
  {
    match a
    case StartGet(t, sb, ino) => forall i: nat ensures CalmAt(s, Next(s, a), i) { }
    case Get(t, op) => GetCalm(s, t, op);
    case Client(t, op) => ClientCalm(s, t, op);
    case Work(t, op) => WorkCalm(s, t, op);
    case Clear(t, op) => ClearCalm(s, t, op);
    case SyncCollect(t, only, wait) => forall i: nat ensures CalmAt(s, Next(s, a), i) { }
    case OomCollect(t) => forall i: nat ensures CalmAt(s, Next(s, a), i) { }
  }

  // ---------------------------------------------------------------- steps that do

  /** Clearing DIRTY forgets a change: the inode differs from the disk and nobody is about to mark it. */
  ghost predicate Loses(s: State, a: Act)
    requires Enabled(s, a)
  {
    a.Work? && a.work.WriteDone? &&
    var i := PcOf(s, a.t).i; !UpToDate(s, i) && forall u: nat :: !Unmarked(s, u, i)
  }

  /** The disk version of another inode in the table is not affected. */
  lemma CopyOther(s: State, t: nat, j: nat)
    requires Inv(s) && WorkEnabled(s, t, CopyStep) && j in s.inodes && s.inodes[j].hashed && j != PcOf(s, t).i
    ensures var s', x := WorkNext(s, t, CopyStep), s.inodes[j]; OnDisk(s', x.sb, x.ino) == OnDisk(s, x.sb, x.ino)
  {
    var i := PcOf(s, t).i;
    Facts(s, i, t);
    assert !SameName(s, i, j);
  }

  lemma CopySaved(s: State, t: nat)
    requires Inv(s) && Saved(s) && WorkEnabled(s, t, CopyStep)
    ensures Saved(WorkNext(s, t, CopyStep))
  {
    var s', i := WorkNext(s, t, CopyStep), PcOf(s, t).i;
    forall j: nat ensures Tracked(s', j) {
      assert Tracked(s, j);
      if j in s.inodes && s.inodes[j].hashed && j != i {
        CopyOther(s, t, j);
        if s.inodes[j].valid && !s.inodes[j].dirty && !UpToDate(s, j) {
          var u: nat :| Unmarked(s, u, j);
          assert Unmarked(s', u, j);
        }
      }
    }
  }

  /** A step that leaves the disk and every inode but `i` alone, and takes nobody but `t` from being about to
      mark `i`. */
  lemma OthersTracked(s: State, s': State, t: nat, i: nat)
    requires Saved(s) && s'.disk == s.disk && i in s.inodes && i in s'.inodes &&
             s'.inodes == s.inodes[i := s'.inodes[i]]
    requires forall u: nat, j: nat :: Unmarked(s, u, j) && (u != t || j != i) ==> Unmarked(s', u, j)
    ensures forall j: nat :: j != i ==> Tracked(s', j)
  {
    forall j: nat | j != i ensures Tracked(s', j) {
      assert Tracked(s, j);
      if j in s.inodes && s.inodes[j].hashed && s.inodes[j].valid && !s.inodes[j].dirty && !UpToDate(s, j) {
        var u: nat :| Unmarked(s, u, j);
        assert Unmarked(s', u, j);
      }
    }
  }

  lemma ClientSaved(s: State, t: nat, op: ClientOp)
    requires Saved(s) && ClientEnabled(s, t, op) && (op.Change? || op.Mark?)
    ensures Saved(ClientNext(s, t, op))
  {
    var s', i := ClientNext(s, t, op), PcOf(s, t).i;
    OthersTracked(s, s', t, i);
    if op.Change? { assert Unmarked(s', t, i); }
    assert Tracked(s', i);
  }

  lemma ReadSaved(s: State, t: nat)
    requires Saved(s) && GetEnabled(s, t, ReadOk)
    ensures Saved(GetNext(s, t, ReadOk))
  {
    var s', i := GetNext(s, t, ReadOk), PcOf(s, t).i;
    OthersTracked(s, s', t, i);
    assert Tracked(s', i);
  }

  lemma DoneSavedIff(s: State, t: nat)
    requires Inv(s) && Saved(s) && WorkEnabled(s, t, WriteDone)
    ensures Saved(WorkNext(s, t, WriteDone)) <==> !Loses(s, Work(t, WriteDone))
  {
    var s', i := WorkNext(s, t, WriteDone), PcOf(s, t).i;
    Facts(s, i, t);
    OthersTracked(s, s', t, i);
    assert forall u: nat :: Unmarked(s', u, i) <==> Unmarked(s, u, i);
    assert UpToDate(s', i) <==> UpToDate(s, i);
    assert Tracked(s', i) <==> !Loses(s, Work(t, WriteDone));
  }

  /** Changes are kept track of by every step but one that clears DIRTY over a change. */
  lemma SavedIff(s: State, a: Act)
    requires Inv(s) && Saved(s) && Enabled(s, a)
    ensures Saved(Next(s, a)) <==> !Loses(s, a)
  {
    if !Touchy(a) {
      StepCalm(s, a);
      CalmKeeps(s, Next(s, a));
    } else {
      match a
      case Get(t, op) => ReadSaved(s, t);
      case Client(t, op) => ClientSaved(s, t, op);
      case Work(t, op) => if op.CopyStep? { CopySaved(s, t); } else { DoneSavedIff(s, t); }
    }
  }

  // ---------------------------------------------------------------- from the copy to the clear

  /** The step is a change of inode `i`. */
  predicate ChangesIt(s: State, a: Act, i: nat)
  {
    a.Client? && a.client.Change? && PcOf(s, a.t) == Held(i)
  }

  /** How many changes of inode `i` there are in a run. */
  ghost function Changes(s: State, acts: seq<Act>, i: nat): nat
    requires Runs(s, acts)
    decreases |acts|
  {
    if acts == [] then 0
    else (if ChangesIt(s, acts[0], i) then 1 else 0) + Changes(Next(s, acts[0]), acts[1..], i)
  }

  predicate Clears(s: State, t: nat, i: nat)
  {
    PcOf(s, t).Write? && PcOf(s, t).stage.Clearing? && PcOf(s, t).i == i
  }

  /** Between its copy and its clear, an inode and its disk version are changed by clients only. */
  lemma WindowStep(s: State, a: Act, t: nat, i: nat)
    requires Inv(s) && Enabled(s, a) && Allowed(s, a) && Clears(s, t, i) && a.t != t
    ensures var s' := Next(s, a);
            && Inv(s') && Clears(s', t, i) && i in s.inodes && i in s'.inodes
            && var x, x' := s.inodes[i], s'.inodes[i];
               && OnDisk(s', x'.sb, x'.ino) == OnDisk(s, x.sb, x.ino)
               && x'.mem == x.mem + if ChangesIt(s, a, i) then 1 else 0
  {
    var s' := Next(s, a);
    StepKeeps(s, a);
    OtherPc(s, a, t);
    Facts(s, i, t);
    Facts(s', i, t);
    if !Touchy(a) {
      StepCalm(s, a);
      assert CalmAt(s, s', i);
    } else if a.Work? {
      Facts(s, PcOf(s, a.t).i, a.t);
      Facts(s, i, a.t);
      if a.work.CopyStep? { CopyOther(s, a.t, i); }
    } else if a.Get? {
      Facts(s, PcOf(s, a.t).i, a.t);
    }
  }

  /** A step of one task does not move another that is at work. */
  lemma OtherPc(s: State, a: Act, t: nat)
    requires Enabled(s, a) && a.t != t && !PcOf(s, t).Idle?
    ensures PcOf(Next(s, a), t) == PcOf(s, t)
  {
    match a
    case Get(u, op) => OtherGet(s, u, op, t);
    case Work(u, op) => OtherWork(s, u, op, t);
    case _ =>
  }

  lemma OtherGet(s: State, u: nat, op: GetOp, t: nat)
    requires GetEnabled(s, u, op) && u != t
    ensures PcOf(GetNext(s, u, op), t) == PcOf(s, t)
  {
  }

  lemma OtherWork(s: State, u: nat, op: WorkOp, t: nat)
    requires WorkEnabled(s, u, op) && u != t
    ensures PcOf(WorkNext(s, u, op), t) == PcOf(s, t)
  {
  }

  lemma {:induction false} Window(s: State, acts: seq<Act>, t: nat, i: nat)
    requires Inv(s) && Runs(s, acts) && Clears(s, t, i) && i in s.inodes && forall a :: a in acts ==> a.t != t
    ensures var s' := After(s, acts);
            && Inv(s') && Clears(s', t, i) && i in s'.inodes
            && var x, x' := s.inodes[i], s'.inodes[i];
               && OnDisk(s', x'.sb, x'.ino) == OnDisk(s, x.sb, x.ino)
               && x'.mem == x.mem + Changes(s, acts, i)
    decreases |acts|
  {
    if acts != [] {
      assert acts[0] in acts;
      WindowStep(s, acts[0], t, i);
      Window(Next(s, acts[0]), acts[1..], t, i);
    }
  }

  /** When a task comes to clear DIRTY, the inode is on the disk as it is in memory if and only if no change of
      it fell between the task's copy and now. */
  lemma ClearedUpToDateIff(s: State, t: nat, acts: seq<Act>)
    requires Inv(s) && WorkEnabled(s, t, CopyStep) && Runs(WorkNext(s, t, CopyStep), acts)
    requires forall a :: a in acts ==> a.t != t
    ensures var i, s1 := PcOf(s, t).i, WorkNext(s, t, CopyStep);
            var s2 := After(s1, acts);
            && WorkEnabled(s2, t, WriteDone) && PcOf(s2, t).i == i
            && (UpToDate(s2, i) <==> Changes(s1, acts, i) == 0)
  {
    var i, s1 := PcOf(s, t).i, WorkNext(s, t, CopyStep);
    CopyKeeps(s, t);
    Window(s1, acts, t, i);
  }

  // ---------------------------------------------------------------- careful runs

  /** Some task has copied the inode and is yet to clear its flags. */
  predicate InWindow(s: State, i: nat)
  {
    i in s.inodes && s.inodes[i].syncer.Some? && Clears(s, s.inodes[i].syncer.value, i)
  }

  /** Not a change of an inode that has been copied and not cleared. */
  predicate Careful(s: State, a: Act)
  {
    forall i :: i in s.inodes && ChangesIt(s, a, i) ==> !InWindow(s, i)
  }

  predicate WindowOk(s: State, i: nat)
  {
    InWindow(s, i) ==> UpToDate(s, i)
  }

  ghost predicate Fresh(s: State)
  {
    Saved(s) && forall i: nat :: WindowOk(s, i)
  }

  lemma WindowKept(s: State, a: Act, i: nat)
    requires Inv(s) && Fresh(s) && Enabled(s, a) && Allowed(s, a) && Careful(s, a)
    ensures WindowOk(Next(s, a), i)
  {
    var s' := Next(s, a);
    StepKeeps(s, a);
    if InWindow(s', i) {
      var t := s'.inodes[i].syncer.value;
      Facts(s', i, t);
      assert WindowOk(s, i);
      if Clears(s, t, i) {
        Facts(s, i, t);
        if a.t == t {
          OwnWindow(s, a, t, i);
        } else {
          WindowStep(s, a, t, i);
        }
      } else {
        NewWindow(s, a, t, i);
      }
    }
  }

  /** A task that is clearing an inode can only finish. */
  lemma OwnWindow(s: State, a: Act, t: nat, i: nat)
    requires Enabled(s, a) && a.t == t && Clears(s, t, i)
    ensures a == Work(t, WriteDone) && !Clears(Next(s, a), t, i)
  {
  }

  /** A task comes to clear an inode by copying it. */
  lemma NewWindow(s: State, a: Act, t: nat, i: nat)
    requires Enabled(s, a) && !Clears(s, t, i) && Clears(Next(s, a), t, i)
    ensures a == Work(t, CopyStep) && i in Next(s, a).inodes && UpToDate(Next(s, a), i)
  {
    match a
    case Get(u, op) => GetClears(s, u, op, t, i);
    case Work(u, op) => WorkClears(s, u, op, t, i);
    case _ =>
  }

  lemma GetClears(s: State, u: nat, op: GetOp, t: nat, i: nat)
    requires GetEnabled(s, u, op)
    ensures Clears(GetNext(s, u, op), t, i) ==> Clears(s, t, i)
  {
  }

  lemma WorkClears(s: State, u: nat, op: WorkOp, t: nat, i: nat)
    requires WorkEnabled(s, u, op)
    ensures Clears(WorkNext(s, u, op), t, i) ==> Clears(s, t, i) || (op.CopyStep? && u == t && PcOf(s, t).i == i)
  {
  }

  /** Whatever the interleaving, changes are not lost in runs without a change between a copy and its clear. */
  lemma CarefulKeeps(s: State, a: Act)
    requires Inv(s) && Fresh(s) && Enabled(s, a) && Allowed(s, a) && Careful(s, a)
    ensures Fresh(Next(s, a))
  {
    forall i: nat ensures WindowOk(Next(s, a), i) { WindowKept(s, a, i); }
    if a.Work? && a.work.WriteDone? {
      var i := PcOf(s, a.t).i;
      Facts(s, i, a.t);
      assert WindowOk(s, i);
    }
    SavedIff(s, a);
  }

  ghost predicate AllCareful(s: State, acts: seq<Act>)
    requires Runs(s, acts)
    decreases |acts|
  {
    acts == [] || (Careful(s, acts[0]) && AllCareful(Next(s, acts[0]), acts[1..]))
  }

  lemma {:induction false} CarefulRun(s: State, acts: seq<Act>)
    requires Inv(s) && Fresh(s) && Runs(s, acts) && AllCareful(s, acts)
    ensures Inv(After(s, acts)) && Fresh(After(s, acts))
    decreases |acts|
  {
    if acts != [] {
      StepKeeps(s, acts[0]);
      CarefulKeeps(s, acts[0]);
      CarefulRun(Next(s, acts[0]), acts[1..]);
    }
  }

  /** In such a run a linked inode leaves the table only with every change to it on the disk. */
  lemma LeavesSaved(s: State, acts: seq<Act>, t: nat)
    requires Initial(s) && Runs(s, acts) && AllCareful(s, acts)
    ensures var s' := After(s, acts);
            PcOf(s', t).Uncache? ==>
              var i := PcOf(s', t).i; i in s'.inodes && (s'.inodes[i].nlinks == 0 || UpToDate(s', i))
  {
    InitialInv(s);
    CarefulRun(s, acts);
    var s' := After(s, acts);
    if PcOf(s', t).Uncache? {
      var i := PcOf(s', t).i;
      Facts(s', i, t);
      assert Tracked(s', i);
      forall u: nat ensures !Unmarked(s', u, i) { Facts(s', i, u); }
    }
  }
}
