/** The sleeping reader/writer lock of include/protura/rwlock.h, taken by any number of tasks. Each section
    under its spinlock is one step; waking a queue (src/kernel/sched/wait_queue.c) empties it. */
module RwLock {

  datatype Pc = Idle | ReadTry | ReadAsleep | Reading | WriteTry | WriteAsleep | Writing

  /** The lock and its two queues; `reading` and `writing` record who has it. */
  datatype State = State(count: int, readers: set<nat>, writers: set<nat>, pcs: map<nat, Pc>,
                         reading: set<nat>, writing: set<nat>)

  function PcOf(s: State, t: nat): Pc
  {
    if t in s.pcs then s.pcs[t] else Idle
  }

  function SetPc(s: State, t: nat, pc: Pc): State
  {
    s.(pcs := s.pcs[t := pc])
  }

  datatype Op = ReadLock | ReadCheck | ReadWake | ReadUnlock | WriteLock | WriteCheck | WriteWake | WriteUnlock

  predicate Enabled(s: State, t: nat, op: Op)
  {
    match op
    case ReadLock => PcOf(s, t).Idle?
    case ReadCheck => PcOf(s, t).ReadTry?
    case ReadWake => PcOf(s, t).ReadAsleep? && t !in s.readers
    case ReadUnlock => PcOf(s, t).Reading?
    case WriteLock => PcOf(s, t).Idle?
    case WriteCheck => PcOf(s, t).WriteTry?
    case WriteWake => PcOf(s, t).WriteAsleep? && t !in s.writers
    case WriteUnlock => PcOf(s, t).Writing?
  }

  /** `__rwlock_rlock`: one turn of the wait loop */
  function ReadCheckNext(s: State, t: nat): State
  {
    if s.count >= 0 then SetPc(s, t, Reading).(count := s.count + 1, reading := s.reading + {t})
    else SetPc(s, t, ReadAsleep).(readers := s.readers + {t})
  }

  /** `__rwlock_runlock` */
  function ReadUnlockNext(s: State, t: nat): State
  {
    var s' := SetPc(s, t, Idle).(count := s.count - 1, reading := s.reading - {t});
    if s'.count == 0 then s'.(writers := {}) else s'.(readers := {})
  }

  /** `__rwlock_wlock`: one turn of the wait loop */
  function WriteCheckNext(s: State, t: nat): State
  {
    if s.count == 0 then SetPc(s, t, Writing).(count := s.count - 1, writing := s.writing + {t})
    else SetPc(s, t, WriteAsleep).(writers := s.writers + {t})
  }

  /** `__rwlock_wunlock`: the readers are woken only if there was no writer to wake. */
  function WriteUnlockNext(s: State, t: nat): State
  {
    var s' := SetPc(s, t, Idle).(count := 0, writers := {}, writing := s.writing - {t});
    if s.writers == {} then s'.(readers := {}) else s'
  }

  function Next(s: State, t: nat, op: Op): State
    requires Enabled(s, t, op)
  {
    match op
    case ReadLock => SetPc(s, t, ReadTry)
    case ReadCheck => ReadCheckNext(s, t)
    case ReadWake => SetPc(s, t, ReadTry)
    case ReadUnlock => ReadUnlockNext(s, t)
    case WriteLock => SetPc(s, t, WriteTry)
    case WriteCheck => WriteCheckNext(s, t)
    case WriteWake => SetPc(s, t, WriteTry)
    case WriteUnlock => WriteUnlockNext(s, t)
  }

  // ---------------------------------------------------------------- the invariant

  predicate TaskOk(s: State, t: nat)
  {
    && (t in s.reading <==> PcOf(s, t).Reading?) && (t in s.writing <==> PcOf(s, t).Writing?)
    && (t in s.readers ==> PcOf(s, t).ReadAsleep?) && (t in s.writers ==> PcOf(s, t).WriteAsleep?)
  }

  /** Wants the lock for writing, or has it. */
  predicate Writer(s: State, t: nat)
  {
    PcOf(s, t) in {WriteTry, WriteAsleep, Writing}
  }

  ghost predicate Inv(s: State)
  {
    && (forall t: nat :: TaskOk(s, t))
    && s.count == |s.reading| - |s.writing| && |s.writing| <= 1 && (s.writing == {} || s.reading == {})
    && (s.writers != {} ==> s.count != 0)
    && (s.readers != {} ==> exists t: nat :: Writer(s, t))
  }

  lemma NoneOf(s: set<nat>)
    ensures |s| == 0 <==> s == {}
  {
  }

  lemma OnlyOne(s: set<nat>, t: nat, u: nat)
    requires |s| <= 1 && t in s && u in s
    ensures t == u
  {
    var rest := s - {t};
    assert |rest| == |s| - 1;
    NoneOf(rest);
    assert u !in rest;
  }

  /** Some writer is left after a step that keeps all of them. */
  lemma WritersStay(s: State, s': State)
    requires Inv(s) && s'.readers <= s.readers && forall t: nat :: Writer(s, t) ==> Writer(s', t)
    ensures s'.readers != {} ==> exists t: nat :: Writer(s', t)
  {
    if s'.readers != {} {
      assert s.readers != {};
      var t: nat :| Writer(s, t);
      assert Writer(s', t);
    }
  }

  lemma ReadSleeps(s: State, t: nat)
    requires Inv(s) && Enabled(s, t, ReadCheck) && s.count < 0
    ensures Inv(ReadCheckNext(s, t))
  {
    var s' := ReadCheckNext(s, t);
    forall u: nat ensures TaskOk(s', u) { assert TaskOk(s, u); }
    NoneOf(s.writing);
    var w :| w in s.writing;
    assert TaskOk(s, w);
    assert Writer(s', w);
  }

  lemma ReadTakes(s: State, t: nat)
    requires Inv(s) && Enabled(s, t, ReadCheck) && s.count >= 0
    ensures Inv(ReadCheckNext(s, t))
  {
    var s' := ReadCheckNext(s, t);
    forall u: nat ensures TaskOk(s', u) { assert TaskOk(s, u); }
    assert t !in s.reading by { assert TaskOk(s, t); }
    assert |s'.reading| == |s.reading| + 1;
    NoneOf(s.writing);
    NoneOf(s.reading);
    WritersStay(s, s');
  }

  lemma ReadUnlockKeeps(s: State, t: nat)
    requires Inv(s) && Enabled(s, t, ReadUnlock)
    ensures Inv(ReadUnlockNext(s, t))
  {
    var s' := ReadUnlockNext(s, t);
    forall u: nat ensures TaskOk(s', u) { assert TaskOk(s, u); }
    assert t in s.reading by { assert TaskOk(s, t); }
    assert |s.reading - {t}| == |s.reading| - 1;
    WritersStay(s, s');
  }

  lemma WriteCheckKeeps(s: State, t: nat)
    requires Inv(s) && Enabled(s, t, WriteCheck)
    ensures Inv(WriteCheckNext(s, t))
  {
    var s' := WriteCheckNext(s, t);
    forall u: nat ensures TaskOk(s', u) { assert TaskOk(s, u); }
    assert Writer(s', t);
    if s.count == 0 { Free(s); }
  }

  /** A count of zero means that nobody has the lock. */
  lemma Free(s: State)
    requires Inv(s) && s.count == 0
    ensures s.reading == {} && s.writing == {}
  {
    NoneOf(s.reading);
    NoneOf(s.writing);
  }

  lemma WriteUnlockKeeps(s: State, t: nat)
    requires Inv(s) && Enabled(s, t, WriteUnlock)
    ensures Inv(WriteUnlockNext(s, t))
  {
    var s' := WriteUnlockNext(s, t);
    forall u: nat ensures TaskOk(s', u) { assert TaskOk(s, u); }
    assert t in s.writing by { assert TaskOk(s, t); }
    forall u | u in s.writing ensures u == t { OnlyOne(s.writing, t, u); }
    assert s'.writing == {};
    if s.writers != {} {
      var w :| w in s.writers;
      assert TaskOk(s, w);
      assert Writer(s', w);
    }
  }

  /** Every step keeps the invariant. */
  lemma StepKeeps(s: State, t: nat, op: Op)
    requires Inv(s) && Enabled(s, t, op)
    ensures Inv(Next(s, t, op))
  {
    match op
    case ReadCheck => if s.count < 0 { ReadSleeps(s, t); } else { ReadTakes(s, t); }
    case ReadUnlock => ReadUnlockKeeps(s, t);
    case WriteCheck => WriteCheckKeeps(s, t);
    case WriteUnlock => WriteUnlockKeeps(s, t);
    case _ =>
      var s' := Next(s, t, op);
      forall u: nat ensures TaskOk(s', u) { assert TaskOk(s, u); }
      WritersStay(s, s');
  }

  // ---------------------------------------------------------------- whole runs

  ghost predicate Runs(s: State, acts: seq<(nat, Op)>)
    decreases |acts|
  {
    acts == [] || (Enabled(s, acts[0].0, acts[0].1) && Runs(Next(s, acts[0].0, acts[0].1), acts[1..]))
  }

  ghost function After(s: State, acts: seq<(nat, Op)>): State
    requires Runs(s, acts)
    decreases |acts|
  {
    if acts == [] then s else After(Next(s, acts[0].0, acts[0].1), acts[1..])
  }

  lemma {:induction false} RunKeeps(s: State, acts: seq<(nat, Op)>)
    requires Inv(s) && Runs(s, acts)
    ensures Inv(After(s, acts))
    decreases |acts|
  {
    if acts != [] {
      StepKeeps(s, acts[0].0, acts[0].1);
      RunKeeps(Next(s, acts[0].0, acts[0].1), acts[1..]);
    }
  }

  // ---------------------------------------------------------------- who called what

  /** What a task has called and not undone. */
  datatype Call = NoCall | ForReading | ForWriting

  function CallNow(u: nat, op: Op, t: nat, call: Call): Call
  {
    if u != t then call
    else match op
      case ReadLock => ForReading
      case WriteLock => ForWriting
      case ReadUnlock => NoCall
      case WriteUnlock => NoCall
      case _ => call
  }

  /** The call task `t` is in after these steps, read off the steps alone. */
  function CallAfter(acts: seq<(nat, Op)>, t: nat, call: Call): Call
  {
    if acts == [] then call else CallAfter(acts[1..], t, CallNow(acts[0].0, acts[0].1, t, call))
  }

  predicate CallOk(s: State, t: nat, call: Call)
  {
    match call
    case NoCall => PcOf(s, t) == Idle
    case ForReading => PcOf(s, t) in {ReadTry, ReadAsleep, Reading}
    case ForWriting => PcOf(s, t) in {WriteTry, WriteAsleep, Writing}
  }

  lemma {:induction false} CallsKept(s: State, acts: seq<(nat, Op)>, t: nat, call: Call)
    requires Runs(s, acts) && CallOk(s, t, call)
    ensures CallOk(After(s, acts), t, CallAfter(acts, t, call))
    decreases |acts|
  {
    if acts != [] {
      CallsKept(Next(s, acts[0].0, acts[0].1), acts[1..], t, CallNow(acts[0].0, acts[0].1, t, call));
    }
  }

  /** The task has come back from its call: it is not waiting for the lock. */
  predicate LetIn(s: State, t: nat)
  {
    Enabled(s, t, ReadUnlock) || Enabled(s, t, WriteUnlock)
  }

  /** Whoever has called `rwlock_wlock` and been let in is alone, whatever the others called. */
  lemma WriterAlone(acts: seq<(nat, Op)>, t: nat, u: nat)
    requires Runs(INITIAL, acts)
    ensures var s := After(INITIAL, acts);
            && CallOk(s, t, CallAfter(acts, t, NoCall))
            && (CallAfter(acts, t, NoCall) == ForWriting && LetIn(s, t) && LetIn(s, u) ==> t == u)
  {
    CallsKept(INITIAL, acts, t, NoCall);
    Reachable(acts, t, u);
  }

  const INITIAL := State(0, {}, {}, map[], {}, {})

  /** In every reachable state: the count is -1 if and only if one writer has the lock and no reader does,
      and otherwise it is the number of readers; no writer sleeps while the lock is free; and a reader
      sleeps only while some task has the lock for writing or is still after it. */
  lemma Reachable(acts: seq<(nat, Op)>, t: nat, u: nat)
    requires Runs(INITIAL, acts)
    ensures var s := After(INITIAL, acts);
            && (PcOf(s, t) == Writing && PcOf(s, u) in {Reading, Writing} ==> t == u)
            && (s.count == -1 <==> exists w: nat :: PcOf(s, w) == Writing)
            && (s.count != -1 ==> s.count == |s.reading|)
            && (t in s.reading <==> PcOf(s, t) == Reading)
            && (s.writers != {} ==> s.count != 0)
            && (s.readers != {} ==> exists w: nat :: Writer(s, w))
  {
    RunKeeps(INITIAL, acts);
    var s := After(INITIAL, acts);
    assert TaskOk(s, t) && TaskOk(s, u);
    if t in s.writing && u in s.writing { OnlyOne(s.writing, t, u); }
    NoneOf(s.writing);
    NoneOf(s.reading);
    if s.writing != {} {
      var w :| w in s.writing;
      assert TaskOk(s, w);
    }
    forall w: nat ensures w in s.writing <==> PcOf(s, w) == Writing { assert TaskOk(s, w); }
  }

  /** A registered sleeper is never forgotten: somebody has the lock, or somebody awake is about to try
      for it. */
  lemma SomebodyMoves(s: State, t: nat) returns (u: nat)
    requires Inv(s) && (t in s.readers || t in s.writers)
    ensures u in s.reading || u in s.writing || Enabled(s, u, WriteCheck) || Enabled(s, u, WriteWake)
  {
    assert TaskOk(s, t);
    if t in s.readers {
      u :| Writer(s, u);
      assert TaskOk(s, u);
      if u !in s.writers { return; }
    }
    NoneOf(s.reading);
    NoneOf(s.writing);
    if s.writing != {} { u :| u in s.writing; } else { u :| u in s.reading; }
  }
}
