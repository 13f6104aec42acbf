/** Runs of the block cache from the start in which the code falls short. */
module BlockCacheTraces {
  import opened Common
  import opened BlockCache
  import opened BlockCacheInv
  import opened BlockCacheCollect
  import opened BlockCacheSteady
  import opened BlockCacheRuns

  // ---------------------------------------------------------------- runs of any enabled steps

  ghost predicate Can(s: State, acts: seq<Act>)
    decreases |acts|
  {
    acts == [] || (Shape(s) && Enabled(s, acts[0]) && Can(Next(s, acts[0]), acts[1..]))
  }

  ghost function End(s: State, acts: seq<Act>): State
    requires Can(s, acts)
    decreases |acts|
  {
    if acts == [] then s else End(Next(s, acts[0]), acts[1..])
  }

  /** The events of the run other than the silent ones. */
  ghost function Seen(s: State, acts: seq<Act>): seq<Event>
    requires Can(s, acts)
    decreases |acts|
  {
    if acts == [] then [] else Loud(EventOf(s, acts[0])) + Seen(Next(s, acts[0]), acts[1..])
  }

  function Loud(e: Event): seq<Event>
  {
    if e.Silent? then [] else [e]
  }

  lemma {:induction false} OneMoreStep(s0: State, acts: seq<Act>, a: Act)
    requires Can(s0, acts) && Shape(End(s0, acts)) && Enabled(End(s0, acts), a)
    ensures Can(s0, acts + [a]) && End(s0, acts + [a]) == Next(End(s0, acts), a)
    decreases |acts|
  {
    if acts == [] {
      assert acts + [a] == [a];
      assert Can(Next(s0, a), []);
    } else {
      assert (acts + [a])[1..] == acts[1..] + [a];
      OneMoreStep(Next(s0, acts[0]), acts[1..], a);
    }
  }

  lemma {:induction false} OneMoreSeen(s0: State, acts: seq<Act>, a: Act)
    requires Can(s0, acts) && Shape(End(s0, acts)) && Enabled(End(s0, acts), a)
    requires Can(s0, acts + [a])
    ensures Seen(s0, acts + [a]) == Seen(s0, acts) + Loud(EventOf(End(s0, acts), a))
    decreases |acts|
  {
    if acts == [] {
      assert acts + [a] == [a];
      assert Seen(Next(s0, a), []) == [];
    } else {
      assert (acts + [a])[1..] == acts[1..] + [a];
      OneMoreSeen(Next(s0, acts[0]), acts[1..], a);
    }
  }

  /** The steps of the run are allowed ones. */
  lemma {:induction false} OneMoreAllowed(s0: State, acts: seq<Act>, a: Act)
    requires Can(s0, acts) && Shape(End(s0, acts)) && Enabled(End(s0, acts), a)
    requires Runs(s0, acts) && Allowed(End(s0, acts), a)
    ensures Runs(s0, acts + [a])
    decreases |acts|
  {
    if acts == [] {
      assert acts + [a] == [a];
      assert Runs(Next(s0, a), []);
    } else {
      assert (acts + [a])[1..] == acts[1..] + [a];
      OneMoreAllowed(Next(s0, acts[0]), acts[1..], a);
    }
  }

  // ---------------------------------------------------------------- one task, one block

  /** DMA, one hardware sector to a block; the cache is full with one block in it. */
  const CFG: Config := Config(0, 1, 512, 1, 1, true)

  function Word(k: nat, word: int): Data
  {
    [if k == 0 then word else 7]
  }

  ghost predicate OneEach(disk: imap<nat, Data>)
  {
    forall k: nat :: k in disk && |disk[k]| == 1
  }

  /** The disk with `word` in sector 0 and sevens everywhere else. */
  ghost function Disk(word: int): (d: imap<nat, Data>)
    ensures OneEach(d) && d[0] == [word]
  {
    imap k: nat :: Word(k, word)
  }

  lemma DiskSet(word: int, new_: int)
    ensures Disk(word)[0 := [new_]] == Disk(new_)
  {
  }

  /** No step is one of a sync. */
  predicate NoSync(acts: seq<Act>)
  {
    forall a :: a in acts ==> !a.Sync?
  }

  /** The step is allowed or, in a run that need not be of allowed steps, not one of a sync. */
  predicate MayTake(s: State, a: Act, ok: bool)
    requires Enabled(s, a)
  {
    if ok then Allowed(s, a) else !a.Sync?
  }

  /** A run from the empty cache over `Disk(7)` ends in `s` and shows `es`; all its steps are allowed or, if not
      `ok`, none of them is one of a sync. */
  ghost predicate Reached(s: State, es: seq<Event>, ok: bool)
  {
    exists s0: State, acts: seq<Act> :: Leads(s0, acts, s, es, ok)
  }

  ghost predicate Leads(s0: State, acts: seq<Act>, s: State, es: seq<Event>, ok: bool)
  {
    && Initial(s0) && s0.disk == Disk(7) && Can(s0, acts) && End(s0, acts) == s && Seen(s0, acts) == es
    && (if ok then Runs(s0, acts) else NoSync(acts))
  }

  lemma Onward(s: State, es: seq<Event>, ok: bool, a: Act, s': State)
    requires Reached(s, es, ok) && Shape(s) && Enabled(s, a) && MayTake(s, a, ok) && Next(s, a) == s'
    ensures Reached(s', es + Loud(EventOf(s, a)), ok)
  {
    var s0: State, acts: seq<Act> :| Leads(s0, acts, s, es, ok);
    OneMoreStep(s0, acts, a);
    OneMoreSeen(s0, acts, a);
    if ok { OneMoreAllowed(s0, acts, a); }
    assert Leads(s0, acts + [a], s', es + Loud(EventOf(s, a)), ok);
  }

  /** The table with block 0 in its chain, or with nothing in it. */
  function Chains(cached: bool): (b: seq<seq<nat>>)
    ensures |b| == HASH_SIZE && b[0] == (if cached then [0] else [])
  {
    seq(HASH_SIZE, k => if k == 0 && cached then [0] else [])
  }

  lemma ChainsChange()
    ensures Chains(false)[0 := [0] + Chains(false)[0]] == Chains(true)
    ensures Chains(true)[0 := Without(Chains(true)[0], 0)] == Chains(false)
  {
    assert [0] + Chains(false)[0] == Chains(true)[0];
    assert Chains(true)[0][1..] == Chains(false)[0];
  }

  /** Task 0 is at `pc`, and no block is cached. */
  ghost function Empty(pc: Pc): State
  {
    State(CFG, map[], Chains(false), [], 0, Disk(7), [], None, 1, None, map[0 := pc])
  }

  /** What there is besides: block 0, cached; where task 0 is; what the drive works on; who has the sync
      mutex; and what sector 0 of the disk holds. */
  datatype View = View(b: Block, pc: Pc, current: Option<nat>, mutex: Option<nat>, word: int)

  ghost function With(v: View): State
  {
    State(CFG, map[0 := v.b], Chains(true), [0], 512, Disk(v.word), [], v.current, 1, v.mutex, map[0 := v.pc])
  }

  lemma Shapes(v: View)
    requires |v.b.data| == 1
    ensures Shape(With(v))
  {
  }

  ghost function Step(v: View, a: Act): State
    requires |v.b.data| == 1 && Enabled(With(v), a)
  {
    Shapes(v);
    Next(With(v), a)
  }

  lemma EmptyShapes(pc: Pc)
    ensures Shape(Empty(pc))
  {
  }

  lemma HashOfZero()
    ensures BlockHash(CFG, 0) == 0
  {
    assert Xor(0, 0) == 0;
  }

  lemma SetTwice(p: Pc, q: Pc)
    ensures map[0 := p][0 := q] == map[0 := q]
  {
  }

  lemma LocalWith(v: View, b: Block, q: Pc)
    ensures Local(With(v), 0, 0, b, q) == With(v.(b := b, pc := q))
  {
    SetTwice(v.pc, q);
    assert map[0 := v.b][0 := b] == map[0 := b];
  }

  /** A step that shows nothing. */
  lemma Quietly(s: State, es: seq<Event>, ok: bool, a: Act, s': State)
    requires Reached(s, es, ok) && Shape(s) && Enabled(s, a) && MayTake(s, a, ok) && Next(s, a) == s'
    requires EventOf(s, a).Silent?
    ensures Reached(s', es, ok)
  {
    assert es + Loud(EventOf(s, a)) == es;
    Onward(s, es, ok, a, s');
  }

  /** A step that changes the block and moves the task. */
  lemma Changes1(v: View, es: seq<Event>, ok: bool, a: Act, b: Block, q: Pc)
    requires Reached(With(v), es, ok) && |v.b.data| == 1 && Enabled(With(v), a) && MayTake(With(v), a, ok)
    requires EventOf(With(v), a).Silent? && Step(v, a) == Local(With(v), 0, 0, b, q)
    ensures Reached(With(v.(b := b, pc := q)), es, ok)
  {
    Shapes(v);
    LocalWith(v, b, q);
    Quietly(With(v), es, ok, a, With(v.(b := b, pc := q)));
  }

  /** A step that only moves the task. */
  lemma Moves1(v: View, es: seq<Event>, ok: bool, a: Act, q: Pc)
    requires Reached(With(v), es, ok) && |v.b.data| == 1 && Enabled(With(v), a) && MayTake(With(v), a, ok)
    requires EventOf(With(v), a).Silent? && Step(v, a) == SetPc(With(v), 0, q)
    ensures Reached(With(v.(pc := q)), es, ok)
  {
    Shapes(v);
    SetTwice(v.pc, q);
    Quietly(With(v), es, ok, a, With(v.(pc := q)));
  }

  // ---------------------------------------------------------------- block_get of a sector that is not cached

  lemma EmptyMoves(es: seq<Event>, ok: bool, p: Pc, a: Act, q: Pc)
    requires Reached(Empty(p), es, ok) && Enabled(Empty(p), a) && !a.Client? && !a.Zero? && !a.Sync?
    requires Shape(Empty(p)) && Next(Empty(p), a) == SetPc(Empty(p), 0, q)
    ensures Reached(Empty(q), es, ok)
  {
    SetTwice(p, q);
    Quietly(Empty(p), es, ok, a, Empty(q));
  }

  lemma EmptyFinds()
    ensures FindBlock(Empty(Find(0)), 0) == None
  {
    HashOfZero();
  }

  /** A lookup of sector 0 finds nothing. */
  lemma Misses(es: seq<Event>, ok: bool)
    requires Reached(Empty(Idle), es, ok)
    ensures Reached(Empty(Alloc(0)), es, ok)
  {
    EmptyShapes(Idle);
    EmptyMoves(es, ok, Idle, StartGet(0, 0), Find(0));
    EmptyShapes(Find(0));
    EmptyFinds();
    EmptyMoves(es, ok, Find(0), Get(0, FindStep), Alloc(0));
  }

  /** A block that has just been made, with one reference. */
  function Fresh(): Block
  {
    Block(0, [0], false, false, false, 1, None, multiset{Task(0)}, None)
  }

  /** The same block before it is cached. */
  ghost function Made(): State
  {
    var b := Fresh().(refs := 0, holders := multiset{}, home := Some(0));
    State(CFG, map[0 := b], Chains(false), [], 0, Disk(7), [], None, 1, None, map[0 := Insert(0, 0)])
  }

  lemma Makes(es: seq<Event>, ok: bool)
    requires Reached(Empty(Alloc(0)), es, ok)
    ensures Reached(Made(), es, ok)
  {
    var s := Empty(Alloc(0));
    EmptyShapes(Alloc(0));
    SetTwice(Alloc(0), Insert(0, 0));
    assert Zeros(s) == [0];
    Quietly(s, es, ok, Get(0, AllocStep(0)), Made());
  }

  ghost function Cached(b: Block, pc: Pc): View
  {
    View(b, pc, None, None, 7)
  }

  lemma CachesMade()
    ensures Cache(Made(), 0) == With(Cached(Fresh().(refs := 0, holders := multiset{}), Insert(0, 0)))
  {
    HashOfZero();
    ChainsChange();
    var b := Fresh().(refs := 0, holders := multiset{}, home := Some(0));
    assert map[0 := b][0 := b.(home := None)] == map[0 := b.(home := None)];
  }

  lemma TakesFresh()
    ensures TakeRef(With(Cached(Fresh().(refs := 0, holders := multiset{}), Insert(0, 0))), 0, 0) ==
            With(Cached(Fresh(), Insert(0, 0)))
  {
    var b := Fresh().(refs := 0, holders := multiset{});
    assert multiset{} + multiset{Task(0)} == multiset{Task(0)};
    assert map[0 := b][0 := Fresh()] == map[0 := Fresh()];
    var lru: seq<nat> := [0];
    assert Without(lru, 0) + [0] == lru by { assert lru[1..] == []; }
  }

  lemma InsertsMade()
    ensures InsertNext(Made(), 0, 0, 0) == With(Cached(Fresh(), Got(0)))
  {
    CachesMade();
    TakesFresh();
    SetTwice(Insert(0, 0), Got(0));
    assert FindBlock(Made(), 0) == None by { HashOfZero(); }
  }

  lemma MadeShape()
    ensures Shape(Made()) && Enabled(Made(), Get(0, InsertStep))
  {
  }

  /** `block_get_nosync` of sector 0, from an empty cache. */
  lemma Fetches(es: seq<Event>, ok: bool)
    requires Reached(Empty(Idle), es, ok)
    ensures Reached(With(Cached(Fresh(), Got(0))), es, ok)
  {
    Misses(es, ok);
    Makes(es, ok);
    Inserts(es, ok);
  }

  lemma Inserts(es: seq<Event>, ok: bool)
    requires Reached(Made(), es, ok)
    ensures Reached(With(Cached(Fresh(), Got(0))), es, ok)
  {
    MadeShape();
    InsertsMade();
    Quietly(Made(), es, ok, Get(0, InsertStep), With(Cached(Fresh(), Got(0))));
  }

  /** The block while the drive reads it, and when it has been read. */
  function Reading(): Block
  {
    Block(0, [0], false, false, true, 2, Some(Drive), multiset{Task(0), Drive}, None)
  }

  function Loaded(): Block
  {
    Block(0, [7], true, false, false, 1, None, multiset{Task(0)}, None)
  }

  /** `block_get` finds the block not valid, ... */
  lemma Checks(es: seq<Event>, ok: bool)
    requires Reached(With(Cached(Fresh(), Got(0))), es, ok)
    ensures Reached(With(Cached(Fresh(), WantLock(0))), es, ok)
  {
    Moves1(Cached(Fresh(), Got(0)), es, ok, Get(0, GotStep), Check(0));
    Moves1(Cached(Fresh(), Check(0)), es, ok, Get(0, CheckStep), WantLock(0));
  }

  /** `ata_sync_block` of a block that is dirty or not valid. */
  lemma Submits(v: View)
    requires v.current.None? && |v.b.data| == 1 && !(v.b.valid && !v.b.dirty) && Shape(With(v))
    ensures SyncBlock(With(v), 0) == With(v.(b := Ref1(v.b, Drive).(owner := Some(Drive)), current := Some(0)))
  {
    var b := Ref1(v.b, Drive).(owner := Some(Drive));
    assert map[0 := v.b][0 := b] == map[0 := b];
    var queue: seq<nat> := [0];
    assert [] + queue == queue && queue[1..] == [];
  }

  /** ... locks it and has it read ... */
  lemma Asks(es: seq<Event>, ok: bool)
    requires Reached(With(Cached(Lock(Fresh(), Task(0)), Submit(0))), es, ok)
    ensures Reached(With(Cached(Reading(), WaitSync(0)).(current := Some(0))), es, ok)
  {
    var v := Cached(Lock(Fresh(), Task(0)), Submit(0));
    Shapes(v);
    Submits(v);
    SetTwice(Submit(0), WaitSync(0));
    assert multiset{Task(0)} + multiset{Drive} == multiset{Task(0), Drive};
    Quietly(With(v), es, ok, Get(0, SubmitStep), With(Cached(Reading(), WaitSync(0)).(current := Some(0))));
  }

  /** The block after the interrupt: data has gone to the disk or come from there. */
  function Served(v: View): View
    requires |v.b.data| == 1
  {
    var data := if v.b.dirty then v.b.data else [v.word];
    v.(b := Put(Unlock(v.b.(data := data, valid := true, dirty := false)), Drive), current := None, word := data[0])
  }

  lemma Transfers(v: View)
    requires v.current == Some(0) && |v.b.data| == 1 && v.b.sector == 0
    ensures DmaTransfer(With(v), 0) ==
            With(v.(b := v.b.(data := if v.b.dirty then v.b.data else [v.word]), word := Served(v).word))
  {
    if v.b.dirty {
      assert v.b.data == [v.b.data[0]];
      DiskSet(v.word, v.b.data[0]);
    } else {
      assert map[0 := v.b][0 := v.b.(data := [v.word])] == map[0 := v.b.(data := [v.word])];
    }
  }

  lemma Completes(v: View)
    requires v.current == Some(0) && |v.b.data| == 1 && Shape(With(v))
    ensures Complete(With(v), 0) ==
            With(v.(b := Put(Unlock(v.b.(valid := true, dirty := false)), Drive), current := None))
  {
    var b := Put(Unlock(v.b.(valid := true, dirty := false)), Drive);
    assert map[0 := v.b][0 := b] == map[0 := b];
  }

  lemma Interrupts(v: View, es: seq<Event>, ok: bool)
    requires Reached(With(v), es, ok) && v.current == Some(0) && |v.b.data| == 1 && v.b.sector == 0
    ensures Reached(With(Served(v)), es, ok)
  {
    var v1 := v.(b := v.b.(data := if v.b.dirty then v.b.data else [v.word]), word := Served(v).word);
    Shapes(v);
    Shapes(v1);
    Transfers(v);
    Completes(v1);
    Quietly(With(v), es, ok, Intr, With(Served(v)));
  }

  /** ... and has it valid. */
  lemma Loads(es: seq<Event>, ok: bool)
    requires Reached(With(Cached(Reading(), WaitSync(0)).(current := Some(0))), es, ok)
    ensures Reached(With(Cached(Loaded(), Ref(0))), es, ok)
  {
    var v := Cached(Reading(), WaitSync(0)).(current := Some(0));
    Interrupts(v, es, ok);
    assert multiset{Task(0), Drive} - multiset{Drive} == multiset{Task(0)};
    assert Served(v) == Cached(Loaded(), WaitSync(0));
    Moves1(Cached(Loaded(), WaitSync(0)), es, ok, Get(0, WaitStep), Ref(0));
  }

  /** `block_get` of sector 0, once `block_get_nosync` has made the block. */
  lemma Gets(es: seq<Event>, ok: bool)
    requires Reached(Empty(Idle), es, ok)
    ensures Reached(With(Cached(Loaded(), Ref(0))), es, ok)
  {
    Fetches(es, ok);
    Checks(es, ok);
    Changes1(Cached(Fresh(), WantLock(0)), es, ok, Get(0, LockStep), Lock(Fresh(), Task(0)), Submit(0));
    Asks(es, ok);
    Loads(es, ok);
  }

  lemma LocksLoaded(es: seq<Event>, ok: bool)
    requires Reached(With(Cached(Loaded(), Ref(0))), es, ok)
    ensures Reached(With(Cached(Lock(Loaded(), Task(0)), Locked(0))), es, ok)
  {
    Changes1(Cached(Loaded(), Ref(0)), es, ok, Client(0, ClientLock), Lock(Loaded(), Task(0)), Locked(0));
  }

  lemma Begins(ok: bool)
    ensures Reached(Empty(Idle), [], ok)
  {
    var s0 := Empty(Idle);
    assert Can(s0, []) && End(s0, []) == s0 && Seen(s0, []) == [] && Runs(s0, []);
    assert Leads(s0, [], s0, [], ok);
  }

  // ---------------------------------------------------------------- a cleared block is lost

  function Cleared(): Block
  {
    Fresh().(valid := true)
  }

  /** `ext2_alloc_block_zero` of sector 0 locks the block, ... */
  lemma LocksNew()
    ensures Reached(With(Cached(Lock(Fresh(), Task(0)), Clearing(0))), [], false)
  {
    Begins(false);
    Fetches([], false);
    Changes1(Cached(Fresh(), Got(0)), [], false, Zero(0, ZeroLock), Lock(Fresh(), Task(0)), Clearing(0));
  }

  lemma ClearsIt(v: View)
    requires v == Cached(Lock(Fresh(), Task(0)), Clearing(0))
    ensures Shape(With(v)) && Zeros(With(v)) == [0]
    ensures Next(With(v), Zero(0, ZeroClear(false))) == With(Cached(Lock(Cleared(), Task(0)), Locked(0)))
  {
    Shapes(v);
    LocalWith(v, Lock(Cleared(), Task(0)), Locked(0));
  }

  /** ... clears it, marks it synced, ... */
  lemma Clears()
    ensures Reached(With(Cached(Lock(Cleared(), Task(0)), Locked(0))), [Write(0, [0])], false)
  {
    LocksNew();
    var v := Cached(Lock(Fresh(), Task(0)), Clearing(0));
    ClearsIt(v);
    assert [] + Loud(Write(0, [0])) == [Write(0, [0])];
    Onward(With(v), [], false, Zero(0, ZeroClear(false)), With(Cached(Lock(Cleared(), Task(0)), Locked(0))));
  }

  /** ... and lets go of it. */
  lemma LetsGo()
    ensures Reached(With(Cached(Cleared().(refs := 0, holders := multiset{}), Idle)), [Write(0, [0])], false)
  {
    Clears();
    var es := [Write(0, [0])];
    Changes1(Cached(Lock(Cleared(), Task(0)), Locked(0)), es, false, Client(0, ClientUnlock), Cleared(), Ref(0));
    assert multiset{Task(0)} - multiset{Task(0)} == multiset{};
    Changes1(Cached(Cleared(), Ref(0)), es, false, Client(0, ClientPut),
             Cleared().(refs := 0, holders := multiset{}), Idle);
  }

  lemma UncachesIt(b: Block)
    requires b.sector == 0
    ensures Uncache(With(Cached(b, Idle)), 0) == Empty(Idle)
  {
    HashOfZero();
    ChainsChange();
    assert map[0 := b] - {0} == map[];
    var lru: seq<nat> := [0];
    assert Without(lru, 0) == [] by { assert lru[1..] == []; }
  }

  /** An out-of-memory call takes a clean block without references out of the cache. */
  lemma Evicts(b: Block)
    requires b.sector == 0 && Evictable(b) && |b.data| == 1
    ensures var s := With(Cached(b, Idle)); Shape(s) && Next(s, Oom(0)) == Empty(Idle)
  {
    var s := With(Cached(b, Idle));
    Shapes(Cached(b, Idle));
    UncachesIt(b);
    var lru: seq<nat> := [0];
    assert lru[1..] == [];
    assert ShrinkPass(s, lru, 0) == ShrinkPass(Empty(Idle), [], 512) == (Empty(Idle), 512);
    SetTwice(Idle, Idle);
  }

  /** A flat disk that has been written zeros does not return sevens. */
  lemma NotFlat(d: imap<nat, Data>, d': imap<nat, Data>)
    requires forall k: nat :: k in d
    ensures !Flat(d, [Write(0, [0]), Read(0, [7])], d')
  {
    var es := [Write(0, [0]), Read(0, [7])];
    assert es[1..] == [Read(0, [7])];
  }

  /** The cleared block is evicted ... */
  lemma Evicted()
    ensures Reached(Empty(Idle), [Write(0, [0])], false)
  {
    LetsGo();
    var b := Cleared().(refs := 0, holders := multiset{});
    Evicts(b);
    Quietly(With(Cached(b, Idle)), [Write(0, [0])], false, Oom(0), Empty(Idle));
  }

  /** ... and read again: the run shows a write of zeros and then a read of sevens. */
  lemma ReadBack()
    ensures Reached(With(Cached(Lock(Loaded(), Task(0)), Locked(0))), [Write(0, [0]), Read(0, [7])], false)
  {
    Evicted();
    var es := [Write(0, [0])];
    Gets(es, false);
    LocksLoaded(es, false);
    ReadsSevens(Cached(Lock(Loaded(), Task(0)), Locked(0)), es);
    assert es + [Read(0, [7])] == [Write(0, [0]), Read(0, [7])];
  }

  lemma ReadsSevens(v: View, es: seq<Event>)
    requires v == Cached(Lock(Loaded(), Task(0)), Locked(0)) && Reached(With(v), es, false)
    ensures Reached(With(v), es + [Read(0, [7])], false)
  {
    Shapes(v);
    Onward(With(v), es, false, Client(0, ClientRead), With(v));
  }

  lemma {:induction false} RunsCan(s: State, acts: seq<Act>)
    requires Runs(s, acts)
    ensures Can(s, acts) && End(s, acts) == After(s, acts)
    decreases |acts|
  {
    if acts != [] { RunsCan(Next(s, acts[0]), acts[1..]); }
  }

  /** Of a run of allowed steps, what is seen is flat if and only if the whole trace is. */
  lemma {:induction false} SeenFlat(s: State, acts: seq<Act>, d: imap<nat, Data>, d': imap<nat, Data>)
    requires Runs(s, acts) && Can(s, acts) && forall k: nat :: k in d
    ensures Flat(d, Trace(s, acts), d') <==> Flat(d, Seen(s, acts), d')
    decreases |acts|
  {
    if acts != [] {
      var s1, e := Next(s, acts[0]), EventOf(s, acts[0]);
      var d1 := if e.Write? then d[e.sector := e.data] else d;
      SeenFlat(s1, acts[1..], d1, d');
      FlatStep(d, e, Trace(s1, acts[1..]), d1, d');
      FlatStep(d, e, Seen(s1, acts[1..]), d1, d');
    }
  }

  lemma FlatStep(d: imap<nat, Data>, e: Event, es: seq<Event>, d1: imap<nat, Data>, d': imap<nat, Data>)
    requires (forall k: nat :: k in d) && d1 == if e.Write? then d[e.sector := e.data] else d
    ensures Flat(d, [e] + es, d') <==> (e.Read? ==> d[e.sector] == e.data) && Flat(d1, es, d')
    ensures Loud(e) + es == if e.Silent? then es else [e] + es
  {
    assert ([e] + es)[1..] == es;
  }

  /** The step of `ext2_alloc_block_zero` that clears a block and marks it synced. */
  predicate MarksSynced(a: Act)
  {
    a.Zero? && a.zero == ZeroClear(false)
  }

  lemma {:induction false} NoSyncRuns(s: State, acts: seq<Act>)
    requires Can(s, acts) && NoSync(acts)
    ensures SyncRuns(s, acts)
    decreases |acts|
  {
    if acts != [] {
      assert acts[0] in acts;
      NoSyncRuns(Next(s, acts[0]), acts[1..]);
    }
  }

  /** Without syncs, a run in which no cleared block is marked synced is one of a flat disk. */
  lemma UnmarkedIsFlat(s: State, acts: seq<Act>)
    requires Initial(s) && Can(s, acts) && NoSync(acts) && forall a :: a in acts ==> !MarksSynced(a)
    ensures exists d: imap<nat, Data> :: Flat(s.disk, Seen(s, acts), d)
  {
    NoSyncRuns(s, acts);
    ClearedDirtyIsFlat(s, acts);
    SeenFlat(s, acts, s.disk, Contents(After(s, acts)));
  }

  /** A run from the empty cache that no flat disk can have. It takes no step of a sync, so that all that is left
      to be wrong with it is that it marks a cleared block synced, which it does. */
  lemma ClearingLost()
    ensures exists s0: State, acts: seq<Act> ::
              && Initial(s0) && Can(s0, acts) && NoSync(acts) && (exists a :: a in acts && MarksSynced(a))
              && forall d: imap<nat, Data> :: !Flat(s0.disk, Seen(s0, acts), d)
  {
    ReadBack();
    var es := [Write(0, [0]), Read(0, [7])];
    var s0: State, acts: seq<Act> :| Leads(s0, acts, With(Cached(Lock(Loaded(), Task(0)), Locked(0))), es, false);
    forall d: imap<nat, Data> ensures !Flat(s0.disk, Seen(s0, acts), d) { NotFlat(s0.disk, d); }
    if forall a :: a in acts ==> !MarksSynced(a) {
      UnmarkedIsFlat(s0, acts);
      assert false;
    }
  }

  // ---------------------------------------------------------------- a block cleaned before a waiting sync locks it

  /** Block 0 written with an eight, not yet on the disk. */
  function Dirty(): Block
  {
    Block(0, [8], true, true, false, 0, None, multiset{}, None)
  }

  function Eight(): seq<Event>
  {
    [Write(0, [8])]
  }

  lemma WritesEight()
    ensures Reached(With(Cached(Lock(Loaded().(data := [8]), Task(0)), Written(0))), Eight(), true)
  {
    Begins(true);
    Gets([], true);
    LocksLoaded([], true);
    WritesWord(Cached(Lock(Loaded(), Task(0)), Locked(0)));
  }

  lemma WritesWord(v: View)
    requires v == Cached(Lock(Loaded(), Task(0)), Locked(0)) && Reached(With(v), [], true)
    ensures Reached(With(Cached(Lock(Loaded().(data := [8]), Task(0)), Written(0))), Eight(), true)
  {
    Shapes(v);
    LocalWith(v, Lock(Loaded().(data := [8]), Task(0)), Written(0));
    assert [] + Loud(Write(0, [8])) == Eight();
    Onward(With(v), [], true, Client(0, ClientWrite([8])),
           With(Cached(Lock(Loaded().(data := [8]), Task(0)), Written(0))));
  }

  /** Task 0 writes to block 0 and puts it back. */
  lemma WritesAndPuts()
    ensures Reached(With(Cached(Dirty(), Idle)), Eight(), true)
  {
    WritesEight();
    var b := Loaded().(data := [8], dirty := true);
    Changes1(Cached(Lock(Loaded().(data := [8]), Task(0)), Written(0)), Eight(), true, Client(0, ClientMarkDirty),
             Lock(b, Task(0)), Locked(0));
    Changes1(Cached(Lock(b, Task(0)), Locked(0)), Eight(), true, Client(0, ClientUnlock), b, Ref(0));
    PutsBack(b);
  }

  lemma PutsBack(b: Block)
    requires b == Loaded().(data := [8], dirty := true) && Reached(With(Cached(b, Ref(0))), Eight(), true)
    ensures Reached(With(Cached(Dirty(), Idle)), Eight(), true)
  {
    assert multiset{Task(0)} - multiset{Task(0)} == multiset{};
    Changes1(Cached(b, Ref(0)), Eight(), true, Client(0, ClientPut), Dirty(), Idle);
  }

  // The first steps of a sync by task 0.

  lemma Enters(v: View, es: seq<Event>, a: SyncArgs)
    requires Reached(With(v), es, true) && |v.b.data| == 1 && v.pc == Idle && v.mutex.None? && a.k.Return?
    ensures Reached(With(v.(pc := SyncCollect(a), mutex := Some(0))), es, true)
  {
    Moves1(v, es, true, StartSync(0, a.wait, a.recheck), SyncWant(a));
    var v1, v2 := v.(pc := SyncWant(a)), v.(pc := SyncCollect(a), mutex := Some(0));
    Shapes(v1);
    SetTwice(SyncWant(a), SyncCollect(a));
    Quietly(With(v1), es, true, Sync(0, SyncEnter), With(v2));
  }

  lemma ReachedGood(s: State, es: seq<Event>)
    requires Reached(s, es, true)
    ensures Good(s)
  {
    var s0: State, acts: seq<Act> :| Leads(s0, acts, s, es, true);
    RunsCan(s0, acts);
    CacheIsDisk(s0, acts);
  }

  lemma CollectsIt(v: View, a: SyncArgs)
    requires CollectAll(map[0 := v.b], Chains(true)) == [0] && v.pc == SyncCollect(a)
    ensures CollectNext(With(v), 0, a) == With(v.(b := Ref1(v.b, Task(0)), pc := SyncLock([0], [], a)))
  {
    assert RefAll(map[0 := v.b], [0], 0) == map[0 := Ref1(v.b, Task(0))];
    SetTwice(SyncCollect(a), SyncLock([0], [], a));
  }

  lemma OneToCollect(v: View, es: seq<Event>)
    requires Reached(With(v), es, true) && v.b.valid && v.b.dirty
    ensures CollectAll(map[0 := v.b], Chains(true)) == [0]
  {
    ReachedGood(With(v), es);
    Collected(With(v));
    OnlyElement(CollectAll(map[0 := v.b], Chains(true)), 0);
  }

  lemma CollectStepIs(v: View, a: SyncArgs)
    requires CollectAll(map[0 := v.b], Chains(true)) == [0] && v.pc == SyncCollect(a) && |v.b.data| == 1
    ensures Shape(With(v)) && Enabled(With(v), Sync(0, CollectStep)) && Allowed(With(v), Sync(0, CollectStep))
    ensures Next(With(v), Sync(0, CollectStep)) == With(v.(b := Ref1(v.b, Task(0)), pc := SyncLock([0], [], a)))
  {
    CollectsIt(v, a);
    Shapes(v);
  }

  lemma Collects(v: View, es: seq<Event>, a: SyncArgs)
    requires Reached(With(v), es, true) && |v.b.data| == 1 && v.b.valid && v.b.dirty && v.pc == SyncCollect(a)
    ensures Reached(With(v.(b := Ref1(v.b, Task(0)), pc := SyncLock([0], [], a))), es, true)
  {
    OneToCollect(v, es);
    CollectStepIs(v, a);
    Quietly(With(v), es, true, Sync(0, CollectStep), With(v.(b := Ref1(v.b, Task(0)), pc := SyncLock([0], [], a))));
  }

  /** `block_sync_all` without and with waiting. */
  const QUICK: SyncArgs := SyncArgs(false, true, Return)
  const WAITING: SyncArgs := SyncArgs(true, true, Return)

  /** The block while the drive writes it. */
  function Leaving(): Block
  {
    Block(0, [8], true, true, true, 1, Some(Drive), multiset{Drive}, None)
  }

  /** A sync that does not wait locks the block ... */
  lemma QuickLocks()
    ensures Reached(With(View(Lock(Ref1(Dirty(), Task(0)), Task(0)), SyncSubmit([0], [], QUICK), None, Some(0), 7)),
            Eight(), true)
  {
    WritesAndPuts();
    var v := Cached(Dirty(), Idle);
    Enters(v, Eight(), QUICK);
    Collects(v.(pc := SyncCollect(QUICK), mutex := Some(0)), Eight(), QUICK);
    LocksListed(View(Ref1(Dirty(), Task(0)), SyncLock([0], [], QUICK), None, Some(0), 7), QUICK);
  }

  lemma LocksListed(v: View, a: SyncArgs)
    requires Reached(With(v), Eight(), true) && |v.b.data| == 1 && v.pc == SyncLock([0], [], a) && !v.b.locked
    ensures Reached(With(v.(b := Lock(v.b, Task(0)), pc := SyncSubmit([0], [], a))), Eight(), true)
  {
    Changes1(v, Eight(), true, Sync(0, SyncLockStep), Lock(v.b, Task(0)), SyncSubmit([0], [], a));
  }

  lemma QuickSubmits(v: View)
    requires v == View(Lock(Ref1(Dirty(), Task(0)), Task(0)), SyncSubmit([0], [], QUICK), None, Some(0), 7)
    ensures Shape(With(v))
    ensures SyncSubmitNext(With(v), 0, [0], [], QUICK) ==
            With(View(Leaving(), SyncLock([], [], QUICK), Some(0), Some(0), 7))
  {
    Shapes(v);
    Submits(v);
    var v1 := v.(b := Ref1(v.b, Drive).(owner := Some(Drive)), current := Some(0));
    assert Put(v1.b, Task(0)) == Leaving() by {
      assert multiset{} + multiset{Task(0)} + multiset{Drive} - multiset{Task(0)} == multiset{Drive};
    }
    var todo: seq<nat> := [0];
    assert todo[1..] == [];
    LocalWith(v1, Leaving(), SyncLock([], [], QUICK));
  }

  /** ... hands it to the drive and returns. */
  lemma QuickReturns()
    ensures Reached(With(View(Leaving(), Idle, Some(0), None, 7)), Eight(), true)
  {
    QuickLocks();
    var v := View(Lock(Ref1(Dirty(), Task(0)), Task(0)), SyncSubmit([0], [], QUICK), None, Some(0), 7);
    QuickSubmits(v);
    var v1 := View(Leaving(), SyncLock([], [], QUICK), Some(0), Some(0), 7);
    Quietly(With(v), Eight(), true, Sync(0, SyncSubmitStep), With(v1));
    QuickEnds(v1);
  }

  lemma QuickEnds(v: View)
    requires v == View(Leaving(), SyncLock([], [], QUICK), Some(0), Some(0), 7) && Reached(With(v), Eight(), true)
    ensures Reached(With(v.(pc := Idle, mutex := None)), Eight(), true)
  {
    Shapes(v);
    SetTwice(SyncLock([], [], QUICK), Idle);
    Quietly(With(v), Eight(), true, Sync(0, SyncNext), With(v.(pc := Idle, mutex := None)));
  }

  /** A waiting sync lists the block, which the drive has written by the time the sync locks it. */
  function CleanedMeanwhile(): View
  {
    View(Block(0, [8], true, false, true, 1, Some(Task(0)), multiset{Task(0)}, None),
         SyncSubmit([0], [], WAITING), None, Some(0), 8)
  }

  lemma CleanedReached()
    ensures Reached(With(CleanedMeanwhile()), Eight(), true)
  {
    QuickReturns();
    var v := View(Leaving(), Idle, Some(0), None, 7);
    Enters(v, Eight(), WAITING);
    Collects(v.(pc := SyncCollect(WAITING), mutex := Some(0)), Eight(), WAITING);
    CleanedWhileListed(v.(b := Ref1(Leaving(), Task(0)), pc := SyncLock([0], [], WAITING), mutex := Some(0)));
  }

  lemma CleanedWhileListed(v: View)
    requires v == View(Ref1(Leaving(), Task(0)), SyncLock([0], [], WAITING), Some(0), Some(0), 7)
    requires Reached(With(v), Eight(), true)
    ensures Reached(With(CleanedMeanwhile()), Eight(), true)
  {
    Interrupts(v, Eight(), true);
    var b := Block(0, [8], true, false, false, 1, None, multiset{Task(0)}, None);
    assert Served(v) == v.(b := b, current := None, word := 8) by {
      assert multiset{Drive} + multiset{Task(0)} - multiset{Drive} == multiset{Task(0)};
    }
    LocksListed(v.(b := b, current := None, word := 8), WAITING);
  }

  /** A run from the empty cache reaches a state in which the early continue of a waiting sync is next, and
      it breaks the accounting. */
  lemma EarlyContinueBreaks()
    ensures var s, a := With(CleanedMeanwhile()), Sync(0, SyncSubmitStep);
            && (exists s0: State, acts: seq<Act> :: Initial(s0) && Runs(s0, acts) && After(s0, acts) == s)
            && Good(s) && Shape(s) && Enabled(s, a) && EarlyContinue(s, 0) && !Inv(Next(s, a))
  {
    CleanedReached();
    var s := With(CleanedMeanwhile());
    ReachedGood(s, Eight());
    Shapes(CleanedMeanwhile());
    AllowedIffKept(s, Sync(0, SyncSubmitStep));
    ReachedRuns(s, Eight());
  }

  lemma ReachedRuns(s: State, es: seq<Event>)
    requires Reached(s, es, true)
    ensures exists s0: State, acts: seq<Act> :: Initial(s0) && Runs(s0, acts) && After(s0, acts) == s
  {
    var s0: State, acts: seq<Act> :| Leads(s0, acts, s, es, true);
    RunsCan(s0, acts);
  }
}
