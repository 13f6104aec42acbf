/** The kernel timers of src/kernel/ktimer.c: a list sorted by wake-up tick, run from the timer interrupt. */
module KTimer {
  import opened Common

  const TICKS_PER_MS: nat := 2

  function TickOf(ticks: map<nat, nat>, x: nat): nat
  {
    if x in ticks then ticks[x] else 0
  }

  ghost predicate Sorted(q: seq<nat>, ticks: map<nat, nat>)
  {
    forall i, j :: 0 <= i < j < |q| ==> TickOf(ticks, q[i]) <= TickOf(ticks, q[j])
  }

  /** Where `timer_add` puts a timer: before the first that does not go off sooner. */
  function Insert(q: seq<nat>, ticks: map<nat, nat>, x: nat, wake: nat): seq<nat>
  {
    if q == [] || wake <= TickOf(ticks, q[0]) then [x] + q else [q[0]] + Insert(q[1..], ticks, x, wake)
  }

  lemma {:induction false} InsertAt(q: seq<nat>, ticks: map<nat, nat>, x: nat, wake: nat, k: nat)
    requires k <= |q| && (forall j :: 0 <= j < k ==> TickOf(ticks, q[j]) < wake) &&
             (k < |q| ==> wake <= TickOf(ticks, q[k]))
    ensures Insert(q, ticks, x, wake) == q[..k] + [x] + q[k..]
  {
    if k > 0 {
      InsertAt(q[1..], ticks, x, wake, k - 1);
      assert q[..k] + [x] + q[k..] == [q[0]] + (q[1..][..k - 1] + [x] + q[1..][k - 1..]);
    }
  }

  lemma {:induction false} InsertMembers(q: seq<nat>, ticks: map<nat, nat>, x: nat, wake: nat)
    ensures |Insert(q, ticks, x, wake)| == |q| + 1 && forall y :: y in Insert(q, ticks, x, wake) <==> y in q || y == x
  {
    if q != [] && wake > TickOf(ticks, q[0]) {
      assert q == [q[0]] + q[1..];
      InsertMembers(q[1..], ticks, x, wake);
    }
  }

  lemma {:induction false} InsertDistinct(q: seq<nat>, ticks: map<nat, nat>, x: nat, wake: nat)
    requires Distinct(q) && x !in q
    ensures Distinct(Insert(q, ticks, x, wake))
  {
    if q != [] && wake > TickOf(ticks, q[0]) {
      DistinctTail(q);
      InsertDistinct(q[1..], ticks, x, wake);
      InsertMembers(q[1..], ticks, x, wake);
      DistinctPrepend(Insert(q[1..], ticks, x, wake), q[0]);
    } else {
      DistinctPrepend(q, x);
    }
  }

  /** The list stays sorted. */
  lemma {:induction false} InsertSorted(q: seq<nat>, ticks: map<nat, nat>, x: nat, wake: nat)
    requires Sorted(q, ticks) && x !in q
    ensures Sorted(Insert(q, ticks, x, wake), ticks[x := wake])
  {
    var ticks' := ticks[x := wake];
    assert forall j :: 0 <= j < |q| ==> q[j] in q && TickOf(ticks', q[j]) == TickOf(ticks, q[j]);
    if q != [] && wake > TickOf(ticks, q[0]) {
      InsertSorted(q[1..], ticks, x, wake);
      InsertMembers(q[1..], ticks, x, wake);
      HeadSorted(q[0], Insert(q[1..], ticks, x, wake), ticks');
    } else {
      HeadSorted(x, q, ticks');
    }
  }

  lemma HeadSorted(x: nat, q: seq<nat>, ticks: map<nat, nat>)
    requires Sorted(q, ticks) && forall y :: y in q ==> TickOf(ticks, x) <= TickOf(ticks, y)
    ensures Sorted([x] + q, ticks)
  {
  }

  /** How many timers at the front of the list go off by tick `t`. */
  function Due(q: seq<nat>, ticks: map<nat, nat>, t: nat): (k: nat)
    ensures k <= |q|
  {
    if q == [] || TickOf(ticks, q[0]) > t then 0 else 1 + Due(q[1..], ticks, t)
  }

  lemma {:induction false} DueExact(q: seq<nat>, ticks: map<nat, nat>, t: nat)
    requires Sorted(q, ticks)
    ensures forall j :: 0 <= j < |q| ==> (TickOf(ticks, q[j]) <= t <==> j < Due(q, ticks, t))
  {
    if q != [] && TickOf(ticks, q[0]) <= t {
      var r := q[1..];
      DueExact(r, ticks, t);
      assert forall j :: 0 < j < |q| ==> q[j] == r[j - 1];
    }
  }

  lemma DueMembers(q: seq<nat>, ticks: map<nat, nat>, t: nat)
    requires Sorted(q, ticks)
    ensures forall y :: y in q[..Due(q, ticks, t)] <==> y in q && TickOf(ticks, y) <= t
  {
    DueExact(q, ticks, t);
  }

  /** A timer set for later goes behind those that are due. */
  lemma {:induction false} InsertBehind(q: seq<nat>, ticks: map<nat, nat>, x: nat, wake: nat, t: nat)
    requires x !in q && wake > t
    ensures var q', k := Insert(q, ticks, x, wake), Due(q, ticks, t);
            Due(q', ticks[x := wake], t) == k && q'[..k] == q[..k]
  {
    if q != [] && TickOf(ticks, q[0]) <= t {
      assert q[0] != x && x !in q[1..];
      InsertBehind(q[1..], ticks, x, wake, t);
      var r, k := Insert(q[1..], ticks, x, wake), Due(q[1..], ticks, t);
      assert ([q[0]] + r)[1..] == r;
      assert ([q[0]] + r)[..k + 1] == [q[0]] + r[..k] && q[..k + 1] == [q[0]] + q[1..][..k];
    } else if q != [] {
      assert q[0] in q;
    }
  }

  /** The due timers are the first of a sorted list, and those with an early tick. */
  lemma DuePrefix(q: seq<nat>, ticks: map<nat, nat>, t: nat)
    requires Distinct(q) && Sorted(q, ticks)
    ensures var due := DuePart(q, ticks, t);
            && Distinct(due) && Sorted(due, ticks)
            && forall y :: y in due <==> y in q && TickOf(ticks, y) <= t
  {
    DueMembers(q, ticks, t);
  }

  // ---------------------------------------------------------------- what callbacks do

  /** A call of `timer_add`, given the tick it works out, or of `timer_del`. */
  datatype TimerOp = Arm(timer: nat, wake: nat) | Disarm(timer: nat)

  function OpsOf(plan: map<nat, seq<TimerOp>>, x: nat): seq<TimerOp>
  {
    if x in plan then plan[x] else []
  }

  /** The timers that go off by tick `t`. */
  function DuePart(q: seq<nat>, ticks: map<nat, nat>, t: nat): seq<nat>
  {
    q[..Due(q, ticks, t)]
  }

  function QueuedAfter(queued: set<nat>, ops: seq<TimerOp>): set<nat>
    decreases |ops|
  {
    if ops == [] then queued
    else match ops[0]
      case Arm(y, _) => QueuedAfter(queued + {y}, ops[1..])
      case Disarm(y) => QueuedAfter(queued - {y}, ops[1..])
  }

  /** The timers still due once a callback is done: the ones it deletes are not. */
  function DueAfter(due: seq<nat>, ops: seq<TimerOp>): (r: seq<nat>)
    ensures |r| <= |due|
    decreases |ops|
  {
    if ops == [] then due
    else match ops[0]
      case Arm(_, _) => DueAfter(due, ops[1..])
      case Disarm(y) => WithoutShorter(due, y); DueAfter(Without(due, y), ops[1..])
  }

  lemma {:induction false} WithoutShorter(q: seq<nat>, x: nat)
    ensures |Without(q, x)| <= |q|
  {
    if q != [] && q[0] != x { WithoutShorter(q[1..], x); }
  }

  /** A timer is added only when it is not queued, and for later than `tick`. */
  predicate OpsFine(queued: set<nat>, ops: seq<TimerOp>, tick: nat)
    decreases |ops|
  {
    if ops == [] then true
    else match ops[0]
      case Arm(y, wake) => y !in queued && wake > tick && OpsFine(queued + {y}, ops[1..], tick)
      case Disarm(y) => OpsFine(queued - {y}, ops[1..], tick)
  }

  /** All callbacks that get to run do so. */
  predicate Fine(due: seq<nat>, queued: set<nat>, plan: map<nat, seq<TimerOp>>, tick: nat)
    decreases |due|
  {
    due != [] ==>
      var ops := OpsOf(plan, due[0]);
      && OpsFine(queued - {due[0]}, ops, tick)
      && Fine(DueAfter(due[1..], ops), QueuedAfter(queued - {due[0]}, ops), plan, tick)
  }

  /** The timers that are fired: the first one due, then those its callback leaves due, and so on. */
  function Fired(due: seq<nat>, plan: map<nat, seq<TimerOp>>): seq<nat>
    decreases |due|
  {
    if due == [] then [] else [due[0]] + Fired(DueAfter(due[1..], OpsOf(plan, due[0])), plan)
  }

  /** The timers that are queued in the end. */
  function QueuedEnd(due: seq<nat>, queued: set<nat>, plan: map<nat, seq<TimerOp>>): set<nat>
    decreases |due|
  {
    if due == [] then queued
    else
      var ops := OpsOf(plan, due[0]);
      QueuedEnd(DueAfter(due[1..], ops), QueuedAfter(queued - {due[0]}, ops), plan)
  }

  predicate NoDisarm(plan: map<nat, seq<TimerOp>>)
  {
    forall x, i :: x in plan && 0 <= i < |plan[x]| ==> plan[x][i].Arm?
  }

  lemma {:induction false} OnlyArms(due: seq<nat>, ops: seq<TimerOp>)
    requires forall i :: 0 <= i < |ops| ==> ops[i].Arm?
    ensures DueAfter(due, ops) == due
    decreases |ops|
  {
    if ops != [] { OnlyArms(due, ops[1..]); }
  }

  /** Without deletions everything due is fired. */
  lemma {:induction false} AllFired(due: seq<nat>, plan: map<nat, seq<TimerOp>>)
    requires NoDisarm(plan)
    ensures Fired(due, plan) == due
    decreases |due|
  {
    if due != [] {
      OnlyArms(due[1..], OpsOf(plan, due[0]));
      AllFired(due[1..], plan);
    }
  }

  lemma {:induction false} DueAfterPart(due: seq<nat>, ops: seq<TimerOp>, ticks: map<nat, nat>)
    requires Distinct(due) && Sorted(due, ticks)
    ensures var r := DueAfter(due, ops); Distinct(r) && Sorted(r, ticks) && forall x :: x in r ==> x in due
    decreases |ops|
  {
    if ops != [] {
      if ops[0].Disarm? {
        WithoutExact(due, ops[0].timer);
        WithoutSorted(due, ticks, ops[0].timer);
        DueAfterPart(Without(due, ops[0].timer), ops[1..], ticks);
      } else {
        DueAfterPart(due, ops[1..], ticks);
      }
    }
  }

  /** With or without deletions, nothing is fired twice, out of order or without being due. */
  lemma {:induction false} FiredOnce(due: seq<nat>, plan: map<nat, seq<TimerOp>>, ticks: map<nat, nat>)
    requires Distinct(due) && Sorted(due, ticks)
    ensures var r := Fired(due, plan); Distinct(r) && Sorted(r, ticks) && forall x :: x in r ==> x in due
    decreases |due|
  {
    if due != [] {
      var rest := DueAfter(due[1..], OpsOf(plan, due[0]));
      DistinctTail(due);
      DueAfterPart(due[1..], OpsOf(plan, due[0]), ticks);
      FiredOnce(rest, plan, ticks);
      assert due == [due[0]] + due[1..];
      DistinctPrepend(Fired(rest, plan), due[0]);
      HeadSorted(due[0], Fired(rest, plan), ticks);
    }
  }

  /** A callback leaves due exactly what was due and what it does not delete. */
  lemma {:induction false} DueAfterIff(due: seq<nat>, ops: seq<TimerOp>, y: nat)
    requires Distinct(due) && y in due
    ensures y in DueAfter(due, ops) <==> Disarm(y) !in ops
    decreases |ops|
  {
    if ops != [] {
      assert ops == [ops[0]] + ops[1..];
      if ops[0].Disarm? {
        var x := ops[0].timer;
        WithoutExact(due, x);
        if x == y { DueAfterWithin(Without(due, x), ops[1..], y); } else { DueAfterIff(Without(due, x), ops[1..], y); }
      } else {
        DueAfterIff(due, ops[1..], y);
      }
    }
  }

  lemma {:induction false} DueAfterWithin(due: seq<nat>, ops: seq<TimerOp>, y: nat)
    requires Distinct(due) && y !in due
    ensures y !in DueAfter(due, ops)
    decreases |ops|
  {
    if ops != [] {
      if ops[0].Disarm? { WithoutExact(due, ops[0].timer); }
      DueAfterWithin(if ops[0].Disarm? then Without(due, ops[0].timer) else due, ops[1..], y);
    }
  }

  /** No timer is fired after a callback that deletes it. */
  ghost predicate NoneDeleted(fired: seq<nat>, plan: map<nat, seq<TimerOp>>)
  {
    forall i, j :: 0 <= i < j < |fired| ==> Disarm(fired[j]) !in OpsOf(plan, fired[i])
  }

  /** The callback of a timer that is fired deletes `y`. */
  ghost predicate Deleted(fired: seq<nat>, plan: map<nat, seq<TimerOp>>, y: nat)
  {
    exists x :: x in fired && Disarm(y) in OpsOf(plan, x)
  }

  /** The callback of a timer that is fired adds `y`. */
  ghost predicate Added(fired: seq<nat>, plan: map<nat, seq<TimerOp>>, y: nat)
  {
    exists x, wake :: x in fired && Arm(y, wake) in OpsOf(plan, x)
  }

  /** The timers that are due and not fired are those a callback deleted, and it did so in time. */
  lemma {:induction false} FiredUnlessDeleted(due: seq<nat>, plan: map<nat, seq<TimerOp>>, ticks: map<nat, nat>)
    requires Distinct(due) && Sorted(due, ticks)
    ensures NoneDeleted(Fired(due, plan), plan)
    ensures forall y :: y in due && y !in Fired(due, plan) ==> Deleted(Fired(due, plan), plan, y)
    decreases |due|
  {
    if due != [] {
      var head, tail, ops := due[0], due[1..], OpsOf(plan, due[0]);
      var rest := DueAfter(tail, ops);
      var fired := Fired(rest, plan);
      assert due == [head] + tail && Fired(due, plan) == [head] + fired;
      DistinctTail(due);
      DueAfterPart(tail, ops, ticks);
      FiredOnce(rest, plan, ticks);
      FiredUnlessDeleted(rest, plan, ticks);
      forall y | y in tail ensures y in rest <==> Disarm(y) !in ops { DueAfterIff(tail, ops, y); }
      NoneDeletedMore(head, fired, plan);
      forall y | y in due && y !in Fired(due, plan) ensures Deleted([head] + fired, plan, y) {
        if y in rest {
          var x :| x in fired && Disarm(y) in OpsOf(plan, x);
          assert x in [head] + fired;
        } else {
          assert head in [head] + fired;
        }
      }
    }
  }

  lemma NoneDeletedMore(x: nat, fired: seq<nat>, plan: map<nat, seq<TimerOp>>)
    requires NoneDeleted(fired, plan) && forall y :: y in fired ==> Disarm(y) !in OpsOf(plan, x)
    ensures NoneDeleted([x] + fired, plan)
  {
    var r := [x] + fired;
    forall i, j | 0 <= i < j < |r| ensures Disarm(r[j]) !in OpsOf(plan, r[i]) {
      assert r[j] == fired[j - 1] && r[j] in fired;
      if i > 0 { assert r[i] == fired[i - 1]; }
    }
  }

  // ---------------------------------------------------------------- who is queued in the end

  /** All that the callbacks do, in order. */
  function Script(fired: seq<nat>, plan: map<nat, seq<TimerOp>>): seq<TimerOp>
  {
    if fired == [] then [] else OpsOf(plan, fired[0]) + Script(fired[1..], plan)
  }

  /** The last thing done to timer `y`, if anything. */
  function LastOp(ops: seq<TimerOp>, y: nat): (r: Option<TimerOp>)
    ensures r.Some? ==> r.value in ops && r.value.timer == y
    ensures r.None? ==> forall op :: op in ops ==> op.timer != y
  {
    if ops == [] then None
    else
      assert ops == [ops[0]] + ops[1..];
      var later := LastOp(ops[1..], y);
      if later.Some? then later else if ops[0].timer == y then Some(ops[0]) else None
  }

  lemma {:induction false} LastOpConcat(a: seq<TimerOp>, b: seq<TimerOp>, y: nat)
    ensures LastOp(a + b, y) == if LastOp(b, y).Some? then LastOp(b, y) else LastOp(a, y)
  {
    if a == [] {
      assert a + b == b;
    } else {
      assert (a + b)[1..] == a[1..] + b;
      LastOpConcat(a[1..], b, y);
    }
  }

  /** A timer that is not touched after position `j` was last touched there. */
  lemma {:induction false} LastOpIs(ops: seq<TimerOp>, j: nat, y: nat)
    requires j < |ops| && ops[j].timer == y && forall k :: j < k < |ops| ==> ops[k].timer != y
    ensures LastOp(ops, y) == Some(ops[j])
  {
    if j > 0 {
      LastOpIs(ops[1..], j - 1, y);
    } else {
      forall op | op in ops[1..] ensures op.timer != y {
        var k :| 0 <= k < |ops[1..]| && ops[1..][k] == op;
        assert ops[k + 1] == op;
      }
    }
  }

  lemma {:induction false} InScript(fired: seq<nat>, plan: map<nat, seq<TimerOp>>, op: TimerOp)
    ensures op in Script(fired, plan) <==> exists x :: x in fired && op in OpsOf(plan, x)
  {
    if fired != [] {
      assert fired == [fired[0]] + fired[1..];
      InScript(fired[1..], plan, op);
    }
  }

  lemma {:induction false} ScriptMore(fired: seq<nat>, x: nat, plan: map<nat, seq<TimerOp>>)
    ensures Script(fired + [x], plan) == Script(fired, plan) + OpsOf(plan, x)
  {
    if fired == [] {
      assert fired + [x] == [x] && Script([x][1..], plan) == [];
    } else {
      assert (fired + [x])[1..] == fired[1..] + [x];
      ScriptMore(fired[1..], x, plan);
    }
  }

  lemma {:induction false} QueuedAfterIff(queued: set<nat>, ops: seq<TimerOp>, y: nat)
    ensures y in QueuedAfter(queued, ops) <==>
            var last := LastOp(ops, y); if last.None? then y in queued else last.value.Arm?
    decreases |ops|
  {
    if ops != [] {
      QueuedAfterIff(if ops[0].Arm? then queued + {ops[0].timer} else queued - {ops[0].timer}, ops[1..], y);
    }
  }

  /** A timer a callback adds is not one of those still due. */
  lemma {:induction false} ArmedNotDue(due: seq<nat>, queued: set<nat>, ops: seq<TimerOp>, tick: nat, y: nat)
    requires Distinct(due) && (forall x :: x in due ==> x in queued) && OpsFine(queued, ops, tick)
    requires exists op :: op in ops && op.Arm? && op.timer == y
    ensures y !in DueAfter(due, ops)
    decreases |ops|
  {
    assert ops == [ops[0]] + ops[1..];
    match ops[0]
    case Arm(x, _) =>
      if x == y { DueAfterWithin(due, ops[1..], y); } else { ArmedNotDue(due, queued + {x}, ops[1..], tick, y); }
    case Disarm(x) =>
      WithoutExact(due, x);
      ArmedNotDue(Without(due, x), queued - {x}, ops[1..], tick, y);
  }

  lemma {:induction false} DueStaysQueued(due: seq<nat>, queued: set<nat>, ops: seq<TimerOp>, y: nat)
    requires Distinct(due) && (forall x :: x in due ==> x in queued) && y in DueAfter(due, ops)
    ensures y in due && y in QueuedAfter(queued, ops)
    decreases |ops|
  {
    if ops != [] {
      match ops[0]
      case Arm(x, _) => DueStaysQueued(due, queued + {x}, ops[1..], y);
      case Disarm(x) =>
        WithoutExact(due, x);
        DueStaysQueued(Without(due, x), queued - {x}, ops[1..], y);
    }
  }

  /** A timer is queued in the end if and only if the last thing done to it was to add it or, if nothing was done to
      it, it was queued and has not been fired. */
  lemma {:induction false} QueuedEndIff(due: seq<nat>, queued: set<nat>, plan: map<nat, seq<TimerOp>>, tick: nat,
                                        ticks: map<nat, nat>, y: nat)
    requires Distinct(due) && Sorted(due, ticks) && (forall x :: x in due ==> x in queued)
    requires Fine(due, queued, plan, tick)
    ensures var fired := Fired(due, plan);
            var last := LastOp(Script(fired, plan), y);
            y in QueuedEnd(due, queued, plan) <==> if last.None? then y in queued && y !in fired else last.value.Arm?
    decreases |due|
  {
    if due != [] {
      var h, tail, ops := due[0], due[1..], OpsOf(plan, due[0]);
      var rest, queued' := DueAfter(tail, ops), QueuedAfter(queued - {h}, ops);
      assert due == [h] + tail;
      DistinctTail(due);
      DueAfterPart(tail, ops, ticks);
      FiredOnce(rest, plan, ticks);
      forall x | x in rest ensures x in queued' { DueStaysQueued(tail, queued - {h}, ops, x); }
      QueuedEndIff(rest, queued', plan, tick, ticks, y);
      var fired := Fired(rest, plan);
      assert Fired(due, plan) == [h] + fired && ([h] + fired)[1..] == fired;
      LastOpConcat(ops, Script(fired, plan), y);
      QueuedAfterIff(queued - {h}, ops, y);
      if LastOp(ops, y).Some? && LastOp(ops, y).value.Arm? { ArmedNotDue(tail, queued - {h}, ops, tick, y); }
    }
  }

  /** What is still to come after the first due timer has been fired. */
  lemma Turned(fired: seq<nat>, due: seq<nat>, queued: set<nat>, plan: map<nat, seq<TimerOp>>, tick: nat)
    requires due != [] && Fine(due, queued, plan, tick)
    ensures var ops := OpsOf(plan, due[0]);
            var due', queued' := DueAfter(due[1..], ops), QueuedAfter(queued - {due[0]}, ops);
            && Fine(due', queued', plan, tick) && QueuedEnd(due, queued, plan) == QueuedEnd(due', queued', plan)
            && fired + Fired(due, plan) == (fired + [due[0]]) + Fired(due', plan)
    ensures Script(fired + [due[0]], plan) == Script(fired, plan) + OpsOf(plan, due[0])
  {
    var due' := DueAfter(due[1..], OpsOf(plan, due[0]));
    assert Fired(due, plan) == [due[0]] + Fired(due', plan);
    Regroup(fired, due[0], Fired(due', plan));
    ScriptMore(fired, due[0], plan);
  }

  lemma Regroup(a: seq<nat>, x: nat, b: seq<nat>)
    ensures a + ([x] + b) == (a + [x]) + b
  {
  }

  /** The ticks after a list of calls. */
  function TicksAfter(ticks: map<nat, nat>, ops: seq<TimerOp>): map<nat, nat>
    decreases |ops|
  {
    if ops == [] then ticks
    else TicksAfter(if ops[0].Arm? then ticks[ops[0].timer := ops[0].wake] else ticks, ops[1..])
  }

  lemma {:induction false} TicksConcat(ticks: map<nat, nat>, a: seq<TimerOp>, b: seq<TimerOp>)
    ensures TicksAfter(ticks, a + b) == TicksAfter(TicksAfter(ticks, a), b)
    decreases |a|
  {
    if a == [] {
      assert a + b == b;
    } else {
      assert (a + b)[1..] == a[1..] + b;
      TicksConcat(if a[0].Arm? then ticks[a[0].timer := a[0].wake] else ticks, a[1..], b);
    }
  }

  lemma {:induction false} TicksAre(ticks: map<nat, nat>, ops: seq<TimerOp>, y: nat)
    ensures var last := LastOp(ops, y);
            && (last.None? ==> TickOf(TicksAfter(ticks, ops), y) == TickOf(ticks, y))
            && (last.Some? && last.value.Arm? ==> TickOf(TicksAfter(ticks, ops), y) == last.value.wake)
    decreases |ops|
  {
    if ops != [] {
      TicksAre(if ops[0].Arm? then ticks[ops[0].timer := ops[0].wake] else ticks, ops[1..], y);
    }
  }

  /** Deleting a timer takes it out of the due ones. */
  lemma {:induction false} WithoutDue(q: seq<nat>, ticks: map<nat, nat>, t: nat, x: nat)
    requires Sorted(q, ticks)
    ensures DuePart(Without(q, x), ticks, t) == Without(DuePart(q, ticks, t), x)
  {
    if q != [] {
      var r := q[1..];
      assert forall i :: 0 <= i < |r| ==> r[i] == q[i + 1];
      if TickOf(ticks, q[0]) <= t {
        assert DuePart(q, ticks, t) == [q[0]] + DuePart(r, ticks, t);
        if q[0] != x {
          WithoutDue(r, ticks, t, x);
          assert Without(q, x) == [q[0]] + Without(r, x);
          assert DuePart(Without(q, x), ticks, t) == [q[0]] + DuePart(Without(r, x), ticks, t);
        }
      } else if q[0] == x {
        DueExact(r, ticks, t);
        assert r != [] ==> TickOf(ticks, r[0]) > t;
      }
    }
  }

  /** Taking the first timer takes it off the due ones. */
  lemma TookFirst(q: seq<nat>, r: seq<nat>, ticks: map<nat, nat>, t: nat)
    requires Distinct(q) && q != [] && Due(q, ticks, t) > 0 && r == q[1..]
    ensures DuePart(q, ticks, t) == [q[0]] + DuePart(r, ticks, t) && Elements(r) == Elements(q) - {q[0]}
  {
    assert q == [q[0]] + r;
    assert q[0] !in r;
  }

  /** Adding a timer that is queued already only changes its tick, in place: the list stays sorted if and
      only if the new tick still lies between those of its neighbours. */
  lemma ReAddSortedIff(q: seq<nat>, ticks: map<nat, nat>, k: nat, wake: nat)
    requires Distinct(q) && Sorted(q, ticks) && k < |q|
    ensures Sorted(q, ticks[q[k] := wake]) <==>
            (k > 0 ==> TickOf(ticks, q[k - 1]) <= wake) && (k + 1 < |q| ==> wake <= TickOf(ticks, q[k + 1]))
  {
    var ticks' := ticks[q[k] := wake];
    assert forall j :: 0 <= j < |q| && j != k ==> TickOf(ticks', q[j]) == TickOf(ticks, q[j]);
    if Sorted(q, ticks') {
      assert k > 0 ==> TickOf(ticks', q[k - 1]) <= TickOf(ticks', q[k]);
      assert k + 1 < |q| ==> TickOf(ticks', q[k]) <= TickOf(ticks', q[k + 1]);
    }
    if (k > 0 ==> TickOf(ticks, q[k - 1]) <= wake) && (k + 1 < |q| ==> wake <= TickOf(ticks, q[k + 1])) {
      forall i, j | 0 <= i < j < |q| ensures TickOf(ticks', q[i]) <= TickOf(ticks', q[j]) {
        if j == k && i < k - 1 { assert TickOf(ticks, q[i]) <= TickOf(ticks, q[k - 1]); }
        if i == k && k + 1 < j { assert TickOf(ticks, q[k + 1]) <= TickOf(ticks, q[j]); }
      }
    }
  }

  // ---------------------------------------------------------------- cancelling

  /** What other tasks and the interrupt can see of the timers between two locked sections. */
  datatype View = View(queue: seq<nat>, running: Option<nat>)

  /** A section that does not add timer `x`: `x` is not queued by it, and runs only if it was taken off the
      list or was running. */
  predicate Section(s: View, s': View, x: nat)
  {
    && (x in s'.queue ==> x in s.queue)
    && (s'.running == Some(x) ==> s.running == Some(x) || (x in s.queue && x !in s'.queue))
  }

  predicate Gone(s: View, x: nat)
  {
    x !in s.queue && s.running != Some(x)
  }

  /** The timer is not queued while its callback runs. */
  predicate Quiet(s: View, x: nat)
  {
    !(x in s.queue && s.running == Some(x))
  }

  /** Sections keep it so; adding the timer does if and only if its callback is not running. */
  lemma QuietKept(s: View, s': View, x: nat)
    ensures Section(s, s', x) && Quiet(s, x) ==> Quiet(s', x)
    ensures x in s'.queue && s'.running == s.running ==> (Quiet(s', x) <==> s.running != Some(x))
  {
  }

  ghost predicate Run(run: seq<View>, x: nat)
  {
    run != [] && forall i, j :: 0 <= i < j < |run| && j == i + 1 ==> Section(run[i], run[j], x)
  }

  /** `timer_cancel`, whatever the other sections in between: either `timer_del` takes the timer off the
      list, or it fails and the timer is then seen not to be the one running. From then on, unless it is
      added again, the timer is neither queued nor running, if and only if it was not both to begin with. */
  lemma {:induction false} CancelledIff(run: seq<View>, x: nat, seen: nat)
    requires Run(run, x) && seen < |run|
    requires x in run[0].queue ==> seen == 1 && x !in run[1].queue && run[1].running == run[0].running
    requires x !in run[0].queue ==> run[seen].running != Some(x)
    ensures (forall i :: seen <= i < |run| ==> Gone(run[i], x)) <==> Quiet(run[0], x)
  {
    if Quiet(run[0], x) {
      NotQueued(run, x, if x in run[0].queue then 1 else 0);
      NotQueued(run, x, seen);
    } else {
      assert !Gone(run[1], x);
    }
  }

  lemma {:induction false} NotQueued(run: seq<View>, x: nat, from: nat)
    requires Run(run, x) && from < |run| && x !in run[from].queue
    ensures forall i :: from <= i < |run| ==> x !in run[i].queue
    ensures run[from].running != Some(x) ==> forall i :: from <= i < |run| ==> run[i].running != Some(x)
    decreases |run| - from
  {
    if from + 1 < |run| {
      assert Section(run[from], run[from + 1], x);
      NotQueued(run, x, from + 1);
    }
  }

  // ---------------------------------------------------------------- the timers

  class Timers {
    var queue: seq<nat>
    var ticks: map<nat, nat>
    var running: Option<nat>

    function Now(): View
      reads this
    {
      View(queue, running)
    }

    ghost predicate Valid()
      reads this
    {
      Distinct(queue) && Sorted(queue, ticks)
    }

    constructor ()
      ensures Valid() && queue == [] && running == None
    {
      queue, ticks, running := [], map[], None;
    }

    /** `timer_add` at tick `now` */
    method Add(x: nat, now: nat, ms: nat) returns (ok: bool)
      requires Valid()
      modifies `queue, `ticks
      ensures (ok <==> x !in old(queue)) && ticks == old(ticks)[x := now + ms * TICKS_PER_MS]
      ensures ok ==> Valid() && queue == Insert(old(queue), old(ticks), x, now + ms * TICKS_PER_MS)
      ensures !ok ==> queue == old(queue)
    {
      ok := AddAt(x, now + ms * TICKS_PER_MS);
    }

    method AddAt(x: nat, wake: nat) returns (ok: bool)
      requires Valid()
      modifies `queue, `ticks
      ensures (ok <==> x !in old(queue)) && ticks == old(ticks)[x := wake]
      ensures ok ==> Valid() && queue == Insert(old(queue), old(ticks), x, wake)
      ensures !ok ==> queue == old(queue)
      ensures forall y :: y != x ==> Section(old(Now()), Now(), y)
    {
      ticks := ticks[x := wake];
      ok := x !in queue;
      if ok {
        InsertDistinct(queue, old(ticks), x, wake);
        InsertSorted(queue, old(ticks), x, wake);
        assert forall j :: 0 <= j < |queue| ==> queue[j] in queue;
        var k := 0;
        while k < |queue| && TickOf(ticks, queue[k]) < wake
          invariant k <= |queue| && forall j :: 0 <= j < k ==> TickOf(old(ticks), queue[j]) < wake
        {
          k := k + 1;
        }
        InsertAt(queue, old(ticks), x, wake, k);
        InsertMembers(queue, old(ticks), x, wake);
        queue := queue[..k] + [x] + queue[k..];
      }
    }

    /** `timer_del` */
    method Del(x: nat) returns (ok: bool)
      requires Valid()
      modifies `queue
      ensures Valid() && (ok <==> x in old(queue)) && queue == Without(old(queue), x) && x !in queue
      ensures forall y :: Section(old(Now()), Now(), y)
    {
      ok := x in queue;
      WithoutExact(queue, x);
      WithoutSorted(queue, ticks, x);
      if ok {
        queue := Without(queue, x);
      } else {
        NotIn(queue, x);
      }
    }

    /** The check of `timer_cancel` once `timer_del` has failed. */
    method NotRunning(x: nat) returns (done: bool)
      ensures done ==> running != Some(x)
      ensures x !in queue ==> (done <==> Gone(Now(), x))
    {
      done := running != Some(x);
    }

    /** One locked section of `timer_handle_timers`: takes the first timer if it is due. */
    method TakeDue(tick: nat) returns (x: Option<nat>)
      requires Valid()
      modifies `queue, `running
      ensures Valid() && running == x
      ensures var k := Due(old(queue), ticks, tick);
              && (x.Some? <==> k > 0)
              && (k > 0 ==>
                    && x == Some(old(queue)[0])
                    && queue == old(queue)[1..]
                    && x.value !in queue
                    && Due(queue, ticks, tick) == k - 1)
              && (k == 0 ==> queue == old(queue))
      ensures forall y :: Section(old(Now()), Now(), y)
    {
      running := None;
      if queue == [] || TickOf(ticks, queue[0]) > tick {
        return None;
      }
      x := Some(queue[0]);
      DistinctTail(queue);
      queue := queue[1..];
      running := x;
    }

    /** What a callback does, one `timer_add` or `timer_del` after the other. */
    method Perform(ops: seq<TimerOp>, tick: nat)
      requires Valid() && OpsFine(Elements(queue), ops, tick)
      modifies `queue, `ticks
      ensures Valid() && Elements(queue) == QueuedAfter(old(Elements(queue)), ops)
      ensures DuePart(queue, ticks, tick) == DueAfter(old(DuePart(queue, ticks, tick)), ops)
      ensures ticks == TicksAfter(old(ticks), ops)
    {
      for i := 0 to |ops|
        invariant Valid() && OpsFine(Elements(queue), ops[i..], tick)
        invariant QueuedAfter(Elements(queue), ops[i..]) == QueuedAfter(old(Elements(queue)), ops)
        invariant DueAfter(DuePart(queue, ticks, tick), ops[i..]) == DueAfter(old(DuePart(queue, ticks, tick)), ops)
        invariant TicksAfter(ticks, ops[i..]) == TicksAfter(old(ticks), ops)
      {
        ghost var q := queue;
        assert ops[i..][1..] == ops[i + 1..];
        match ops[i] {
          case Arm(y, wake) =>
            InsertMembers(queue, ticks, y, wake);
            InsertBehind(queue, ticks, y, wake, tick);
            var _ := AddAt(y, wake);
            assert Elements(queue) == Elements(q) + {y};
          case Disarm(y) =>
            WithoutExact(queue, y);
            WithoutDue(queue, ticks, tick, y);
            var _ := Del(y);
            assert Elements(queue) == Elements(q) - {y};
        }
      }
      assert ops[|ops|..] == [];
    }

    /** One turn of the loop of `timer_handle_timers` */
    method FireNext(tick: nat, plan: map<nat, seq<TimerOp>>) returns (x: Option<nat>)
      requires Valid() && Fine(DuePart(queue, ticks, tick), Elements(queue), plan, tick)
      modifies this
      ensures Valid()
      ensures x.None? ==>
                && running == None && queue == old(queue) && ticks == old(ticks) && DuePart(queue, ticks, tick) == []
                && Due(queue, ticks, tick) == 0
      ensures x.Some? ==>
                var due, ops := old(DuePart(queue, ticks, tick)), OpsOf(plan, x.value);
                && due != [] && x.value == due[0] && DuePart(queue, ticks, tick) == DueAfter(due[1..], ops)
                && Elements(queue) == QueuedAfter(old(Elements(queue)) - {x.value}, ops)
                && ticks == TicksAfter(old(ticks), ops)
    {
      ghost var q := queue;
      x := TakeDue(tick);
      if x.Some? {
        TookFirst(q, queue, ticks, tick);
        Perform(OpsOf(plan, x.value), tick);
      }
    }

    /** The loop of `timer_handle_timers` */
    method FireAll(tick: nat, plan: map<nat, seq<TimerOp>>) returns (fired: seq<nat>)
      requires Valid() && Fine(DuePart(queue, ticks, tick), Elements(queue), plan, tick)
      modifies this
      ensures Valid() && running == None && Due(queue, ticks, tick) == 0
      ensures fired == Fired(old(DuePart(queue, ticks, tick)), plan)
      ensures Elements(queue) == QueuedEnd(old(DuePart(queue, ticks, tick)), old(Elements(queue)), plan)
      ensures ticks == TicksAfter(old(ticks), Script(fired, plan))
    {
      fired := [];
      ghost var due, queued := DuePart(queue, ticks, tick), Elements(queue);
      while true
        invariant Valid() && Fine(DuePart(queue, ticks, tick), Elements(queue), plan, tick)
        invariant fired + Fired(DuePart(queue, ticks, tick), plan) == Fired(due, plan)
        invariant QueuedEnd(DuePart(queue, ticks, tick), Elements(queue), plan) == QueuedEnd(due, queued, plan)
        invariant ticks == TicksAfter(old(ticks), Script(fired, plan))
        decreases |DuePart(queue, ticks, tick)|
      {
        ghost var d, q := DuePart(queue, ticks, tick), Elements(queue);
        var x := FireNext(tick, plan);
        if x.None? {
          return;
        }
        Turned(fired, d, q, plan, tick);
        TicksConcat(old(ticks), Script(fired, plan), OpsOf(plan, x.value));
        fired := fired + [x.value];
      }
    }

    /** `timer_handle_timers`, with callbacks that add and delete any timers: as long as a timer is added
        only when it is not queued and for later than `tick`, it ends, and the timers that were due by
        `tick`, and not deleted by the callback of one before, have been fired, each once, in the order of their
        ticks. */
    method HandleTimers(tick: nat, plan: map<nat, seq<TimerOp>>) returns (fired: seq<nat>)
      requires Valid() && Fine(DuePart(queue, ticks, tick), Elements(queue), plan, tick)
      modifies this
      ensures Valid() && running == None
      ensures fired == Fired(old(DuePart(queue, ticks, tick)), plan)
      ensures Distinct(fired) && Sorted(fired, old(ticks))
      ensures forall y :: y in fired ==> y in old(queue) && TickOf(old(ticks), y) <= tick
      // A timer that was due is fired unless a callback before its turn deletes it.
      ensures NoneDeleted(fired, plan)
      ensures forall y :: y in old(queue) && TickOf(old(ticks), y) <= tick && y !in fired ==> Deleted(fired, plan, y)
      ensures NoDisarm(plan) ==>
                && fired == old(DuePart(queue, ticks, tick))
                && forall y :: y in fired <==> y in old(queue) && TickOf(old(ticks), y) <= tick
      ensures forall y :: y in queue ==> TickOf(ticks, y) > tick
      // A timer is queued afterwards if the last thing a callback did to it was to add it, with that tick, or if
      // none did anything to it and it was queued and is not due yet.
      ensures forall y :: var last := LastOp(Script(fired, plan), y);
                y in queue <==> if last.Some? then last.value.Arm? else y in old(queue) && TickOf(old(ticks), y) > tick
      ensures forall y :: y in queue ==>
                var last := LastOp(Script(fired, plan), y);
                TickOf(ticks, y) == if last.Some? then last.value.wake else TickOf(old(ticks), y)
      ensures forall y :: y in old(queue) && TickOf(old(ticks), y) > tick && !Deleted(fired, plan, y) ==> y in queue
      ensures NoDisarm(plan) ==> forall y ::
                y in queue <==> (y in old(queue) && TickOf(old(ticks), y) > tick) || Added(fired, plan, y)
    {
      DueMembers(queue, ticks, tick);
      ghost var due := DuePart(queue, ticks, tick);
      if NoDisarm(plan) { AllFired(due, plan); }
      FiredOnce(due, plan, ticks);
      FiredUnlessDeleted(due, plan, ticks);
      fired := FireAll(tick, plan);
      DueExact(queue, ticks, tick);
      Settled(tick, plan, fired, old(queue), old(ticks));
    }

    /** What the contract of `HandleTimers` says of the queue. */
    lemma Settled(tick: nat, plan: map<nat, seq<TimerOp>>, fired: seq<nat>, was: seq<nat>, before: map<nat, nat>)
      requires Distinct(was) && Sorted(was, before)
      requires Fine(DuePart(was, before, tick), Elements(was), plan, tick)
      requires fired == Fired(DuePart(was, before, tick), plan)
      requires Elements(queue) == QueuedEnd(DuePart(was, before, tick), Elements(was), plan)
      requires ticks == TicksAfter(before, Script(fired, plan))
      ensures forall y :: var last := LastOp(Script(fired, plan), y);
                y in queue <==> if last.Some? then last.value.Arm? else y in was && TickOf(before, y) > tick
      ensures forall y :: y in queue ==>
                var last := LastOp(Script(fired, plan), y);
                TickOf(ticks, y) == if last.Some? then last.value.wake else TickOf(before, y)
      ensures forall y :: y in was && TickOf(before, y) > tick && !Deleted(fired, plan, y) ==> y in queue
      ensures NoDisarm(plan) ==> forall y ::
                y in queue <==> (y in was && TickOf(before, y) > tick) || Added(fired, plan, y)
    {
      forall y
        ensures var last := LastOp(Script(fired, plan), y);
                y in queue <==> if last.Some? then last.value.Arm? else y in was && TickOf(before, y) > tick
        ensures y in queue ==>
                  var last := LastOp(Script(fired, plan), y);
                  TickOf(ticks, y) == if last.Some? then last.value.wake else TickOf(before, y)
        ensures y in was && TickOf(before, y) > tick && !Deleted(fired, plan, y) ==> y in queue
        ensures NoDisarm(plan) ==> (y in queue <==> (y in was && TickOf(before, y) > tick) || Added(fired, plan, y))
      {
        SettledAt(tick, plan, fired, was, before, y);
      }
    }

    lemma SettledAt(tick: nat, plan: map<nat, seq<TimerOp>>, fired: seq<nat>, was: seq<nat>,
                    before: map<nat, nat>, y: nat)
      requires Distinct(was) && Sorted(was, before)
      requires Fine(DuePart(was, before, tick), Elements(was), plan, tick)
      requires fired == Fired(DuePart(was, before, tick), plan)
      requires Elements(queue) == QueuedEnd(DuePart(was, before, tick), Elements(was), plan)
      requires ticks == TicksAfter(before, Script(fired, plan))
      ensures var last := LastOp(Script(fired, plan), y);
              y in queue <==> if last.Some? then last.value.Arm? else y in was && TickOf(before, y) > tick
      ensures y in queue ==>
                var last := LastOp(Script(fired, plan), y);
                TickOf(ticks, y) == if last.Some? then last.value.wake else TickOf(before, y)
      ensures y in was && TickOf(before, y) > tick && !Deleted(fired, plan, y) ==> y in queue
      ensures NoDisarm(plan) ==> (y in queue <==> (y in was && TickOf(before, y) > tick) || Added(fired, plan, y))
    {
      var due, last := DuePart(was, before, tick), LastOp(Script(fired, plan), y);
      DuePrefix(was, before, tick);
      FiredUnlessDeleted(due, plan, before);
      FiredOnce(due, plan, before);
      QueuedEndIff(due, Elements(was), plan, tick, before, y);
      assert y in queue <==> y in Elements(queue);
      TicksAre(before, Script(fired, plan), y);
      InScript(fired, plan, Disarm(y));
      if last.Some? { InScript(fired, plan, last.value); }
      if Added(fired, plan, y) {
        var x, wake :| x in fired && Arm(y, wake) in OpsOf(plan, x);
        InScript(fired, plan, Arm(y, wake));
      }
    }
  }

  lemma {:induction false} NotIn(q: seq<nat>, x: nat)
    requires x !in q
    ensures Without(q, x) == q
  {
    if q != [] { NotIn(q[1..], x); }
  }

  lemma {:induction false} WithoutSorted(q: seq<nat>, ticks: map<nat, nat>, x: nat)
    requires Distinct(q) && Sorted(q, ticks)
    ensures Sorted(Without(q, x), ticks)
  {
    if q != [] && q[0] != x {
      var t := q[1..];
      DistinctTail(q);
      assert forall i :: 0 <= i < |t| ==> t[i] == q[i + 1];
      WithoutSorted(t, ticks, x);
      WithoutExact(t, x);
      var r := Without(t, x);
      forall j | 0 <= j < |r| ensures TickOf(ticks, q[0]) <= TickOf(ticks, r[j]) {
        assert r[j] in r && r[j] in t;
      }
    }
  }
}
