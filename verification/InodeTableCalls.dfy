/** Which inode a task comes to have: the one it asked for, as its own calls say. */
module InodeTableCalls {
  import opened Common
  import opened InodeTable
  import opened InodeTableInv
  import opened InodeTableRuns
  import opened InodeTableSaved

  // ---------------------------------------------------------------- calls, read off the steps

  /** The inode a task has asked for with `inode_get`, or been given by another, and not put back; and whether it is
      in `inode_clear_super` with it. */
  datatype Call = Call(sb: nat, ino: nat, clearing: bool)

  /** What the tasks have called, one step on. */
  function CallsNow(calls: map<nat, Call>, a: Act): map<nat, Call>
  {
    match a
    case StartGet(t, sb, ino) => calls[t := Call(sb, ino, false)]
    case Get(t, ReadFails) => calls - {t}
    case Get(t, BadDeallocStep) => calls - {t}
    case Client(t, Dup(u)) => if t in calls then calls[u := calls[t]] else calls - {u}
    case Client(t, StartPut) => calls - {t}
    case Client(t, StartClear) => if t in calls then calls[t := calls[t].(clearing := true)] else calls
    case Clear(t, ClearBusy) => if t in calls then calls[t := calls[t].(clearing := false)] else calls
    case Clear(t, ClearRoot) => calls - {t}
    case _ => calls
  }

  function CallsAfter(calls: map<nat, Call>, acts: seq<Act>): map<nat, Call>
    decreases |acts|
  {
    if acts == [] then calls else CallsAfter(CallsNow(calls, acts[0]), acts[1..])
  }

  // ---------------------------------------------------------------- where the calls lead

  predicate Named(s: State, i: nat, c: Call)
  {
    i in s.inodes && s.inodes[i].sb == c.sb && s.inodes[i].ino == c.ino
  }

  /** The rest of a clear of the super block of that inode. */
  predicate ClearsWith(s: State, k: Kont, c: Call)
  {
    k.ClearAgain? && k.sb == c.sb && Named(s, k.root, c)
  }

  /** A task that has called `inode_get` is still looking, or has the inode of that name. */
  predicate HasCalled(s: State, pc: Pc, c: Call)
  {
    match pc
    case GetFind(sb, ino, _) => sb == c.sb && ino == c.ino && !c.clearing
    case GetAsleep(sb, ino, _, _) => sb == c.sb && ino == c.ino && !c.clearing
    case GetCreate(sb, ino) => sb == c.sb && ino == c.ino && !c.clearing
    case GetFound(i, _) => Named(s, i, c) && !c.clearing
    case GetWait(i) => Named(s, i, c) && !c.clearing
    case GetCheck(i) => Named(s, i, c) && !c.clearing
    case GetFill(i) => Named(s, i, c) && !c.clearing
    case BadDealloc(_) => !c.clearing
    case Held(i) => Named(s, i, c) && !c.clearing
    case Changed(i) => Named(s, i, c) && !c.clearing
    case Write(i, _, wk) =>
      if wk.ToHeld? then Named(s, i, c) && !c.clearing else wk.ToUncache? && ClearsWith(s, wk.k, c) && c.clearing
    case Uncache(_, k) => ClearsWith(s, k, c) && c.clearing
    case Dealloc(_, k) => ClearsWith(s, k, c) && c.clearing
    case WakeAll(k) => ClearsWith(s, k, c) && c.clearing
    case ClearScan(sb, root) => ClearsWith(s, ClearAgain(sb, root), c) && c.clearing
    case ClearAsleep(sb, root, _) => ClearsWith(s, ClearAgain(sb, root), c) && c.clearing
    case _ => false
  }

  /** A task that has no inode is idle, putting one, syncing or freeing. */
  predicate HasNone(pc: Pc)
  {
    match pc
    case Idle => true
    case BadDealloc(_) => true
    case Put(_, k) => !k.ClearAgain?
    case Write(_, _, wk) => !wk.ToHeld? && !wk.k.ClearAgain?
    case Uncache(_, k) => !k.ClearAgain?
    case Dealloc(_, k) => !k.ClearAgain?
    case WakeAll(k) => !k.ClearAgain?
    case _ => false
  }

  predicate CallOk(s: State, t: nat, calls: map<nat, Call>)
  {
    if t in calls then HasCalled(s, PcOf(s, t), calls[t]) else HasNone(PcOf(s, t))
  }

  ghost predicate CallsOk(s: State, calls: map<nat, Call>)
  {
    forall t: nat :: CallOk(s, t, calls)
  }

  // ---------------------------------------------------------------- other tasks' steps

  /** An inode keeps its name. */
  predicate NameKept(s: State, s': State, i: nat)
  {
    i in s.inodes && i in s'.inodes ==> s'.inodes[i].sb == s.inodes[i].sb && s'.inodes[i].ino == s.inodes[i].ino
  }

  lemma GetNames(s: State, t: nat, op: GetOp, i: nat)
    requires GetEnabled(s, t, op)
    ensures NameKept(s, GetNext(s, t, op), i)
  {
  }

  lemma WorkNames(s: State, t: nat, op: WorkOp, i: nat)
    requires WorkEnabled(s, t, op)
    ensures NameKept(s, WorkNext(s, t, op), i)
  {
  }

  lemma NamesKept(s: State, a: Act, i: nat)
    requires Enabled(s, a)
    ensures NameKept(s, Next(s, a), i)
  {
    match a
    case Get(t, op) => GetNames(s, t, op, i);
    case Work(t, op) => WorkNames(s, t, op, i);
    case _ =>
  }

  /** The inode that `HasCalled` speaks of. */
  function Mine(pc: Pc): Option<nat>
  {
    match pc
    case GetFound(i, _) => Some(i)
    case GetWait(i) => Some(i)
    case GetCheck(i) => Some(i)
    case GetFill(i) => Some(i)
    case Held(i) => Some(i)
    case Changed(i) => Some(i)
    case Write(i, _, wk) =>
      if wk.ToHeld? then Some(i) else if wk.ToUncache? && wk.k.ClearAgain? then Some(wk.k.root) else None
    case Uncache(_, k) => if k.ClearAgain? then Some(k.root) else None
    case Dealloc(_, k) => if k.ClearAgain? then Some(k.root) else None
    case WakeAll(k) => if k.ClearAgain? then Some(k.root) else None
    case ClearScan(_, root) => Some(root)
    case ClearAsleep(_, root, _) => Some(root)
    case _ => None
  }

  lemma MineStays(s: State, t: nat)
    requires Inv(s) && Mine(PcOf(s, t)).Some?
    ensures Mine(PcOf(s, t)).value in s.inodes
  {
    Facts(s, Mine(PcOf(s, t)).value, t);
  }

  /** A step that does not move task `t` leaves its call as it is. */
  lemma OtherCall(s: State, s': State, t: nat, c: Call)
    requires Inv(s) && Inv(s') && PcOf(s', t) == PcOf(s, t) && HasCalled(s, PcOf(s, t), c)
    requires forall i: nat :: NameKept(s, s', i)
    ensures HasCalled(s', PcOf(s', t), c)
  {
    if Mine(PcOf(s, t)).Some? {
      MineStays(s, t);
      MineStays(s', t);
      assert NameKept(s, s', Mine(PcOf(s, t)).value);
    }
  }

  // ---------------------------------------------------------------- a task's own steps

  lemma FindCall(s: State, t: nat, c: Call)
    requires Inv(s) && GetEnabled(s, t, FindStep) && HasCalled(s, PcOf(s, t), c)
    ensures var s' := GetNext(s, t, FindStep); HasCalled(s', PcOf(s', t), c)
  {
    LookupExact(s, PcOf(s, t).sb, PcOf(s, t).ino);
    Facts(s, 0, t);
  }

  lemma GetCall(s: State, t: nat, op: GetOp, c: Call)
    requires Inv(s) && GetEnabled(s, t, op) && HasCalled(s, PcOf(s, t), c) && !op.ReadFails? && !op.BadDeallocStep?
    ensures var s' := GetNext(s, t, op); HasCalled(s', PcOf(s', t), c)
  {
    Facts(s, 0, t);
    if op.FindStep? {
      FindCall(s, t, c);
    } else if op.FoundStep? {
      Facts(s, PcOf(s, t).i, t);
    }
  }

  lemma ClientCall(s: State, t: nat, op: ClientOp, c: Call)
    requires Inv(s) && ClientEnabled(s, t, op) && HasCalled(s, PcOf(s, t), c) && !op.StartPut?
    ensures var s' := ClientNext(s, t, op);
            && (op.StartClear? ==> HasCalled(s', PcOf(s', t), c.(clearing := true)))
            && (op.Dup? ==> HasCalled(s', PcOf(s', op.u), c))
            && (!op.StartClear? ==> HasCalled(s', PcOf(s', t), c))
  {
  }

  lemma WorkCall(s: State, t: nat, op: WorkOp, c: Call)
    requires Inv(s) && WorkEnabled(s, t, op) && Inv(WorkNext(s, t, op)) && HasCalled(s, PcOf(s, t), c)
    ensures var s' := WorkNext(s, t, op); HasCalled(s', PcOf(s', t), c)
  {
    var s' := WorkNext(s, t, op);
    Facts(s, 0, t);
    if Mine(PcOf(s', t)).Some? {
      MineStays(s', t);
      MineStays(s, t);
      WorkNames(s, t, op, Mine(PcOf(s', t)).value);
    }
  }

  lemma ClearCall(s: State, t: nat, op: ClearOp, c: Call)
    requires ClearEnabled(s, t, op) && HasCalled(s, PcOf(s, t), c) && !op.ClearRoot?
    ensures var s' := ClearNext(s, t, op);
            HasCalled(s', PcOf(s', t), if op.ClearBusy? then c.(clearing := false) else c)
  {
  }

  /** A task without an inode gets one only by asking. */
  lemma NoneStays(s: State, a: Act)
    requires Enabled(s, a) && HasNone(PcOf(s, a.t)) && !a.StartGet?
    ensures HasNone(PcOf(Next(s, a), a.t)) && !a.Client? && !a.Clear?
  {
  }

  lemma OwnCall(s: State, a: Act, calls: map<nat, Call>)
    requires Inv(s) && Enabled(s, a) && Allowed(s, a) && Inv(Next(s, a)) && CallOk(s, a.t, calls)
    ensures CallOk(Next(s, a), a.t, CallsNow(calls, a))
  {
    if a.t !in calls && !a.StartGet? {
      NoneStays(s, a);
    } else {
      match a
      case StartGet(t, sb, ino) =>
      case Get(t, op) => if !op.ReadFails? && !op.BadDeallocStep? { GetCall(s, t, op, calls[t]); }
      case Client(t, op) => if !op.StartPut? { ClientCall(s, t, op, calls[t]); }
      case Work(t, op) => WorkCall(s, t, op, calls[t]);
      case Clear(t, op) => if !op.ClearRoot? { ClearCall(s, t, op, calls[t]); }
      case SyncCollect(t, only, wait) =>
      case OomCollect(t) =>
    }
  }

  /** A step of another task, which may hand this one an inode. */
  lemma OthersCall(s: State, a: Act, calls: map<nat, Call>, u: nat)
    requires Inv(s) && Enabled(s, a) && Allowed(s, a) && Inv(Next(s, a)) && CallsOk(s, calls) && u != a.t
    ensures CallOk(Next(s, a), u, CallsNow(calls, a))
  {
    var s' := Next(s, a);
    assert CallOk(s, u, calls) && CallOk(s, a.t, calls);
    if a.Client? && a.client.Dup? && a.client.u == u {
      if a.t in calls { ClientCall(s, a.t, a.client, calls[a.t]); }
    } else {
      StaysPut(s, a, u);
      forall i: nat ensures NameKept(s, s', i) { NamesKept(s, a, i); }
      if u in calls { OtherCall(s, s', u, calls[u]); }
    }
  }

  lemma StaysPut(s: State, a: Act, u: nat)
    requires Enabled(s, a) && a.t != u && !(a.Client? && a.client.Dup? && a.client.u == u)
    ensures PcOf(Next(s, a), u) == PcOf(s, u)
  {
    match a
    case Get(t, op) => OtherGet(s, t, op, u);
    case Work(t, op) => OtherWork(s, t, op, u);
    case _ =>
  }

  lemma {:induction false} CallsKept(s: State, acts: seq<Act>, calls: map<nat, Call>)
    requires Inv(s) && Runs(s, acts) && CallsOk(s, calls)
    ensures CallsOk(After(s, acts), CallsAfter(calls, acts))
    decreases |acts|
  {
    if acts != [] {
      var s1, calls1 := Next(s, acts[0]), CallsNow(calls, acts[0]);
      StepKeeps(s, acts[0]);
      forall t: nat ensures CallOk(s1, t, calls1) {
        assert CallOk(s, t, calls);
        if t == acts[0].t { OwnCall(s, acts[0], calls); } else { OthersCall(s, acts[0], calls, t); }
      }
      CallsKept(s1, acts[1..], calls1);
    }
  }

  /** In every run from the empty table, across sleeping, creation and the second lookup: a task that has called
      `inode_get` is still at it or has an inode of the name it asked for, unless reading it failed; and a task
      has an inode only by having asked for it or having been given it by one that had. */
  lemma GetsWhatItAskedFor(s: State, acts: seq<Act>, t: nat)
    requires Initial(s) && Runs(s, acts)
    ensures CallOk(After(s, acts), t, CallsAfter(map[], acts))
    ensures var pc, calls := PcOf(After(s, acts), t), CallsAfter(map[], acts);
            && (pc.Held? || pc.GetWait? || pc.GetCheck? || pc.GetFill? ==>
                  t in calls && Named(After(s, acts), pc.i, calls[t]))
            && (pc.Idle? ==> t !in calls)
  {
    InitialInv(s);
    CallsKept(s, acts, map[]);
    assert CallOk(After(s, acts), t, CallsAfter(map[], acts));
  }
}
