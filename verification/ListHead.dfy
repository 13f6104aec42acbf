/** The circular intrusive lists of include/uapi/protura/list.h, on the heap. */
module ListHead {
  import opened Common

  /** `list_node_t` and `list_head_t` */
  class Node {
    var next: Node
    var prev: Node

    /** `list_head_init` on a new node */
    constructor ()
      ensures next == this && prev == this
    {
      next, prev := this, this;
    }
  }

  ghost predicate Linked(a: Node, b: Node)
    reads a, b
  {
    a.next == b && b.prev == a
  }

  /** Following `next` from the first node visits the others in order and comes back, and following
      `prev` does so backwards. */
  ghost predicate Ring(r: seq<Node>)
    reads r
  {
    && r != [] && Distinct(r) && Linked(r[|r| - 1], r[0])
    && forall i, j :: 0 <= i < j < |r| && j == i + 1 ==> Linked(r[i], r[j])
  }

  /** The list with this head and these entries. */
  ghost predicate List(head: Node, s: seq<Node>)
    reads head, s
  {
    Ring([head] + s)
  }

  /** A ring has no distinguished node. */
  lemma Rotated(r: seq<Node>, k: nat)
    requires Ring(r) && k <= |r|
    ensures Ring(r[k..] + r[..k])
  {
    var q := r[k..] + r[..k];
    forall i, j | 0 <= i < j < |q| ensures q[i] != q[j] { }
    forall i, j | 0 <= i < j < |q| && j == i + 1 ensures Linked(q[i], q[j]) {
      if i < |r| - k - 1 { assert Linked(r[i + k], r[j + k]); }
      if i >= |r| - k { assert Linked(r[i + k - |r|], r[j + k - |r|]); }
    }
    if 0 < k < |r| { assert Linked(r[k - 1], r[k]); }
  }

  /** Links inside a list. */
  lemma Inside(head: Node, s: seq<Node>)
    requires List(head, s)
    ensures Distinct(s) && head !in s
    ensures forall i, j :: 0 <= i < j < |s| && j == i + 1 ==> Linked(s[i], s[j])
  {
    var r := [head] + s;
    forall i, j | 0 <= i < j < |s| ensures s[i] != s[j] { assert r[i + 1] != r[j + 1]; }
    forall k | 0 <= k < |s| ensures s[k] != head { assert r[0] != r[k + 1]; }
    forall i, j | 0 <= i < j < |s| && j == i + 1 ensures Linked(s[i], s[j]) { assert Linked(r[i + 1], r[j + 1]); }
  }

  // ---------------------------------------------------------------- adding and removing

  /** `__list_add` */
  method AddBetween(n: Node, prev: Node, next: Node, ghost r: seq<Node>)
    requires Ring(r) && n !in r && prev == r[|r| - 1] && next == r[0]
    modifies n, prev, next
    ensures Ring(r + [n])
  {
    next.prev := n;
    n.next := next;
    n.prev := prev;
    prev.next := n;
  }

  /** `list_add` */
  method Add(head: Node, n: Node, ghost s: seq<Node>)
    requires List(head, s) && n !in [head] + s
    modifies n, head, head.next
    ensures List(head, [n] + s)
  {
    ghost var r := [head] + s;
    Rotated(r, 1);
    assert r[1..] + r[..1] == s + [head];
    NextOfHead(head, s);
    AddBetween(n, head, head.next, s + [head]);
    ghost var q := s + [head] + [n];
    Rotated(q, |s|);
    assert q[|s|..] + q[..|s|] == [head] + ([n] + s);
  }

  /** `list_add_tail` */
  method AddTail(head: Node, n: Node, ghost s: seq<Node>)
    requires List(head, s) && n !in [head] + s
    modifies n, head, head.prev
    ensures List(head, s + [n])
  {
    NextOfHead(head, s);
    AddBetween(n, head.prev, head, [head] + s);
    assert [head] + s + [n] == [head] + (s + [n]);
  }

  /** The first and the last entry are next to the head, and so is the head itself in an empty list. */
  lemma NextOfHead(head: Node, s: seq<Node>)
    requires List(head, s)
    ensures head.next == (if s == [] then head else s[0])
    ensures head.prev == (if s == [] then head else s[|s| - 1])
  {
    var r := [head] + s;
    if s != [] { assert Linked(r[0], r[1]); }
  }

  /** `__list_del_entry`: the rest of the ring closes up, and the entry is left as it was. */
  method Unlink(entry: Node, ghost t: seq<Node>)
    requires Ring(t + [entry])
    modifies entry.prev, entry.next
    ensures entry !in t && (t != [] ==> Ring(t))
    ensures t != [] ==> entry.next == old(entry.next) && entry.prev == old(entry.prev)
  {
    ghost var r := t + [entry];
    assert forall i :: 0 <= i < |t| ==> t[i] == r[i] && r[i] != r[|t|];
    if t != [] { assert Linked(r[|t| - 1], r[|t|]); }
    var prev, next := entry.prev, entry.next;
    next.prev := prev;
    prev.next := next;
  }

  /** Any entry can be brought to the end of its ring. */
  lemma EntryLast(head: Node, s: seq<Node>, i: nat)
    requires List(head, s) && i < |s|
    ensures Ring(s[i + 1..] + [head] + s[..i] + [s[i]])
  {
    var r := [head] + s;
    Rotated(r, i + 2);
    assert r[i + 2..] + r[..i + 2] == s[i + 1..] + [head] + s[..i] + [s[i]];
  }

  /** Back from a ring to the list of its head. */
  lemma HeadFirst(head: Node, a: seq<Node>, b: seq<Node>)
    requires Ring(b + [head] + a)
    ensures List(head, a + b)
  {
    var r := b + [head] + a;
    Rotated(r, |b|);
    assert r[|b|..] + r[..|b|] == [head] + (a + b);
  }

  /** `list_del` */
  method Del(entry: Node, ghost head: Node, ghost s: seq<Node>, ghost i: nat)
    requires List(head, s) && i < |s| && s[i] == entry
    modifies entry, entry.prev, entry.next
    ensures List(head, s[..i] + s[i + 1..]) && List(entry, [])
  {
    EntryLast(head, s, i);
    Unlink(entry, s[i + 1..] + [head] + s[..i]);
    entry.next, entry.prev := entry, entry;
    HeadFirst(head, s[..i], s[i + 1..]);
  }

  /** `list_empty` */
  method Empty(head: Node, ghost s: seq<Node>) returns (e: bool)
    requires List(head, s)
    ensures e <==> s == []
  {
    NextOfHead(head, s);
    Inside(head, s);
    e := head == head.next;
  }

  /** `__list_take_first` */
  method TakeFirst(head: Node, ghost s: seq<Node>) returns (n: Node)
    requires List(head, s) && s != []
    modifies head, s
    ensures n == s[0] && List(head, s[1..]) && List(n, [])
  {
    NextOfHead(head, s);
    n := head.next;
    Neighbours(head, s, 0);
    Del(n, head, s, 0);
    assert s[..0] + s[1..] == s[1..];
  }

  /** `__list_take_last` */
  method TakeLast(head: Node, ghost s: seq<Node>) returns (n: Node)
    requires List(head, s) && s != []
    modifies head, s
    ensures n == s[|s| - 1] && List(head, s[..|s| - 1]) && List(n, [])
  {
    NextOfHead(head, s);
    n := head.prev;
    Neighbours(head, s, |s| - 1);
    Del(n, head, s, |s| - 1);
    assert s[..|s| - 1] + s[|s|..] == s[..|s| - 1];
  }

  /** The neighbours of an entry are in its list. */
  lemma Neighbours(head: Node, s: seq<Node>, i: nat)
    requires List(head, s) && i < |s|
    ensures s[i].next == (if i + 1 < |s| then s[i + 1] else head)
    ensures s[i].prev == (if i > 0 then s[i - 1] else head)
  {
    var r := [head] + s;
    assert Linked(r[i], r[i + 1]);
    if i + 1 < |s| { assert Linked(r[i + 1], r[i + 2]); }
  }

  // ---------------------------------------------------------------- moving

  /** `list_move` from one list to another */
  method MoveFrom(head: Node, entry: Node, ghost s: seq<Node>, ghost from: Node, ghost t: seq<Node>, ghost i: nat)
    requires List(head, s) && List(from, t) && i < |t| && t[i] == entry
    requires forall n :: n in [head] + s ==> n !in [from] + t
    modifies head, head.next, entry, entry.prev, entry.next
    ensures List(head, [entry] + s) && List(from, t[..i] + t[i + 1..])
  {
    EntryLast(from, t, i);
    Neighbours(from, t, i);
    NextOfHead(head, s);
    assert entry in [from] + t && entry.prev in [from] + t && entry.next in [from] + t;
    Unlink(entry, t[i + 1..] + [from] + t[..i]);
    HeadFirst(from, t[..i], t[i + 1..]);
    ghost var rest := [from] + (t[..i] + t[i + 1..]);
    assert forall n :: n in rest ==> n in [from] + t && n in t[i + 1..] + [from] + t[..i];
    assert head in [head] + s && head.next in [head] + s;
    Add(head, entry, s);
  }

  /** `list_move` within a list */
  method Move(head: Node, entry: Node, ghost s: seq<Node>, ghost i: nat)
    requires List(head, s) && i < |s| && s[i] == entry
    modifies head, s
    ensures List(head, [entry] + (s[..i] + s[i + 1..]))
  {
    Neighbours(head, s, i);
    EntryLast(head, s, i);
    Unlink(entry, s[i + 1..] + [head] + s[..i]);
    HeadFirst(head, s[..i], s[i + 1..]);
    NextOfHead(head, s[..i] + s[i + 1..]);
    Add(head, entry, s[..i] + s[i + 1..]);
  }

  /** `list_move_tail` within a list */
  method MoveTail(head: Node, entry: Node, ghost s: seq<Node>, ghost i: nat)
    requires List(head, s) && i < |s| && s[i] == entry
    modifies head, s
    ensures List(head, s[..i] + s[i + 1..] + [entry])
  {
    Neighbours(head, s, i);
    EntryLast(head, s, i);
    Unlink(entry, s[i + 1..] + [head] + s[..i]);
    HeadFirst(head, s[..i], s[i + 1..]);
    NextOfHead(head, s[..i] + s[i + 1..]);
    AddTail(head, entry, s[..i] + s[i + 1..]);
  }

  lemma SingleRotations<T>(s: seq<T>)
    requires s != []
    ensures s[..0] + s[1..] + [s[0]] == Rotation(s, 1)
    ensures var k := |s| - 1; [s[k]] + (s[..k] + s[k + 1..]) == Rotation(s, k)
  {
  }

  /** `list_rotate_left` */
  method RotateLeft(head: Node, ghost s: seq<Node>)
    requires List(head, s)
    modifies head, s
    ensures List(head, Rotation(s, 1))
  {
    var e := Empty(head, s);
    NextOfHead(head, s);
    if !e {
      SingleRotations(s);
      MoveTail(head, head.next, s, 0);
    }
  }

  /** `list_rotate_right` */
  method RotateRight(head: Node, ghost s: seq<Node>)
    requires List(head, s)
    modifies head, s
    ensures List(head, if s == [] then s else Rotation(s, |s| - 1))
  {
    var e := Empty(head, s);
    NextOfHead(head, s);
    if !e {
      SingleRotations(s);
      Move(head, head.prev, s, |s| - 1);
    }
  }

  /** The first `k` entries go to the end. */
  function Rotation<T>(s: seq<T>, k: nat): seq<T>
  {
    if k <= |s| then s[k..] + s[..k] else s
  }

  /** Single rotations to the left, one after the other. */
  function RotateTimes<T>(s: seq<T>, k: nat): seq<T>
  {
    if k == 0 then s else Rotation(RotateTimes(s, k - 1), 1)
  }

  /** Going to a new first or last entry is doing that many single rotations at once, and rotating right is
      undoing one to the left. */
  lemma {:induction false} ManyRotations<T>(s: seq<T>, k: nat)
    requires k <= |s|
    ensures RotateTimes(s, k) == Rotation(s, k)
    ensures s != [] ==> Rotation(Rotation(s, 1), |s| - 1) == s
  {
    if k == 0 {
      assert s[0..] + s[..0] == s;
    } else {
      ManyRotations(s, k - 1);
      OneMoreRotation(s, k - 1);
    }
    if s != [] { BackAgain(s); }
  }

  lemma OneMoreRotation<T>(s: seq<T>, k: nat)
    requires k < |s|
    ensures Rotation(Rotation(s, k), 1) == Rotation(s, k + 1)
  {
    var r := Rotation(s, k);
    assert r[1..] == s[k + 1..] + s[..k] && r[..1] == [s[k]];
    assert s[..k + 1] == s[..k] + [s[k]];
  }

  lemma BackAgain<T>(s: seq<T>)
    requires s != []
    ensures Rotation(Rotation(s, 1), |s| - 1) == s
  {
    var r := Rotation(s, 1);
    assert r[|s| - 1..] == [s[0]] && r[..|s| - 1] == s[1..];
  }

  /** A list out of two chains, the second one first. */
  lemma Swapped(head: Node, a: seq<Node>, b: seq<Node>)
    requires a != [] && b != [] && Distinct([head] + a + b)
    requires forall i, j :: 0 <= i < j < |a| && j == i + 1 ==> Linked(a[i], a[j])
    requires forall i, j :: 0 <= i < j < |b| && j == i + 1 ==> Linked(b[i], b[j])
    requires Linked(head, b[0]) && Linked(b[|b| - 1], a[0]) && Linked(a[|a| - 1], head)
    ensures List(head, b + a)
  {
    var q, r := [head] + a + b, [head] + (b + a);
    forall i, j | 0 <= i < j < |r| ensures r[i] != r[j] {
      assert q[Place(i, |a|, |b|)] == r[i] && q[Place(j, |a|, |b|)] == r[j];
    }
    forall i, j | 0 <= i < j < |r| && j == i + 1 ensures Linked(r[i], r[j]) {
      if 0 < i < |b| { assert Linked(b[i - 1], b[i]); }
      if |b| < i { assert Linked(a[i - |b| - 1], a[i - |b|]); }
    }
  }

  /** Where position `i` of `[head] + (b + a)` is in `[head] + a + b`. */
  function Place(i: nat, a: nat, b: nat): nat
  {
    if i == 0 then 0 else if i <= b then i + a else i - b
  }

  /** The pointer writes that `list_new_first` and `list_new_last` share. */
  method Rejoin(head: Node, last: Node, first: Node, newLast: Node, newFirst: Node,
                ghost a: seq<Node>, ghost b: seq<Node>)
    requires List(head, a + b) && a != [] && b != []
    requires first == a[0] && newLast == a[|a| - 1] && newFirst == b[0] && last == b[|b| - 1]
    modifies head, last, first, newLast, newFirst
    ensures List(head, b + a)
  {
    ghost var s := a + b;
    Inside(head, s);
    assert forall i :: 0 <= i < |a| ==> s[i] == a[i];
    assert forall i :: 0 <= i < |b| ==> s[|a| + i] == b[i];
    assert [head] + s == [head] + a + b;
    last.next := first;
    first.prev := last;
    newLast.next := head;
    newFirst.prev := head;
    head.prev := newLast;
    head.next := newFirst;
    Swapped(head, a, b);
  }

  /** `list_new_first` */
  method NewFirst(head: Node, newFirst: Node, ghost s: seq<Node>, ghost k: nat)
    requires List(head, s) && k < |s| && s[k] == newFirst
    modifies head, s
    ensures List(head, Rotation(s, k))
  {
    NextOfHead(head, s);
    Neighbours(head, s, k);
    Inside(head, s);
    var last, first, newLast := head.prev, head.next, newFirst.prev;
    assert s[..k] + s[k..] == s && s[0..] + s[..0] == s;
    if first != newFirst {
      Rejoin(head, last, first, newLast, newFirst, s[..k], s[k..]);
    }
  }

  /** `list_new_last` */
  method NewLast(head: Node, newLast: Node, ghost s: seq<Node>, ghost k: nat)
    requires List(head, s) && k < |s| && s[k] == newLast
    modifies head, s
    ensures List(head, Rotation(s, k + 1))
  {
    NextOfHead(head, s);
    Neighbours(head, s, k);
    Inside(head, s);
    var last, first, newFirst := head.prev, head.next, newLast.next;
    assert s[..k + 1] + s[k + 1..] == s && s[|s|..] + s[..|s|] == s;
    if last != newLast {
      Rejoin(head, last, first, newLast, newFirst, s[..k + 1], s[k + 1..]);
    }
  }

  // ---------------------------------------------------------------- splicing and replacing

  /** `__list_splice`: a whole list goes between the end and the start of a ring. */
  method SpliceBetween(prev: Node, next: Node, other: Node, ghost r: seq<Node>, ghost t: seq<Node>)
    requires Ring(r) && prev == r[|r| - 1] && next == r[0]
    requires List(other, t) && t != [] && forall n :: n in r ==> n !in [other] + t
    modifies prev, next, other.next, other.prev
    ensures Ring(r + t) && other.next == old(other.next) && other.prev == old(other.prev)
  {
    Inside(other, t);
    NextOfHead(other, t);
    assert forall n :: n in t ==> n in [other] + t;
    assert other in [other] + t;
    var first, last := other.next, other.prev;
    assert first in t && last in t && prev in r && next in r;
    first.prev := prev;
    prev.next := first;
    last.next := next;
    next.prev := last;
    forall i, j | 0 <= i < j < |r| && j == i + 1 ensures Linked(r[i], r[j]) { assert r[i] in r && r[j] in r; }
    forall i, j | 0 <= i < j < |t| && j == i + 1 ensures Linked(t[i], t[j]) { assert t[i] in t && t[j] in t; }
    Joined(r, t);
  }

  /** Two chains linked end to end both ways are a ring. */
  lemma Joined(a: seq<Node>, b: seq<Node>)
    requires a != [] && b != [] && Distinct(a) && Distinct(b) && forall n :: n in a ==> n !in b
    requires forall i, j :: 0 <= i < j < |a| && j == i + 1 ==> Linked(a[i], a[j])
    requires forall i, j :: 0 <= i < j < |b| && j == i + 1 ==> Linked(b[i], b[j])
    requires Linked(a[|a| - 1], b[0]) && Linked(b[|b| - 1], a[0])
    ensures Ring(a + b)
  {
    var r := a + b;
    forall i, j | 0 <= i < j < |r| ensures r[i] != r[j] {
      if i < |a| <= j { assert a[i] in a && b[j - |a|] in b; }
    }
    forall i, j | 0 <= i < j < |r| && j == i + 1 ensures Linked(r[i], r[j]) {
      if j < |a| { assert Linked(a[i], a[j]); }
      if i >= |a| { assert Linked(b[i - |a|], b[j - |a|]); }
    }
  }

  /** `list_splice` and `list_splice_init` */
  method Splice(head: Node, other: Node, init: bool, ghost s: seq<Node>, ghost t: seq<Node>)
    requires List(head, s) && List(other, t) && forall n :: n in [head] + s ==> n !in [other] + t
    modifies head, head.next, other, other.next, other.prev
    ensures List(head, t + s)
    ensures init ==> List(other, [])
    ensures !init ==> other.next == old(other.next) && other.prev == old(other.prev)
  {
    var e := Empty(other, t);
    assert e ==> t + s == s;
    if !e {
      HeadLast(head, s);
      NextOfHead(head, s);
      SpliceBetween(head, head.next, other, s + [head], t);
      HeadFirst(head, t, s);
      Separated(head, other, s, t);
      if init { other.next, other.prev := other, other; }
    }
  }

  /** The head can be brought to the end of its ring. */
  lemma HeadLast(head: Node, s: seq<Node>)
    requires List(head, s)
    ensures Ring(s + [head]) && forall n :: n in s + [head] <==> n in [head] + s
  {
    var r := [head] + s;
    Rotated(r, 1);
    assert r[1..] + r[..1] == s + [head];
  }

  /** `list_splice_tail` and `list_splice_tail_init` */
  method SpliceTail(head: Node, other: Node, init: bool, ghost s: seq<Node>, ghost t: seq<Node>)
    requires List(head, s) && List(other, t) && forall n :: n in [head] + s ==> n !in [other] + t
    modifies head, head.prev, other, other.next, other.prev
    ensures List(head, s + t)
    ensures init ==> List(other, [])
    ensures !init ==> other.next == old(other.next) && other.prev == old(other.prev)
  {
    var e := Empty(other, t);
    assert e ==> s + t == s;
    if !e {
      NextOfHead(head, s);
      Separated(head, other, s, t);
      SpliceBetween(head.prev, head, other, [head] + s, t);
      assert [head] + s + t == [head] + (s + t);
      if init { other.next, other.prev := other, other; }
    }
  }

  lemma Separated(head: Node, other: Node, s: seq<Node>, t: seq<Node>)
    requires Distinct([other] + t) && forall n :: n in [head] + s ==> n !in [other] + t
    ensures other !in [head] + s + t && other !in [head] + (t + s)
  {
    assert other in [other] + t;
    forall k | 0 <= k < |t| ensures t[k] != other { assert ([other] + t)[k + 1] != ([other] + t)[0]; }
  }

  /** `list_replace_init`: `n` takes the place of `head`, even when the list is empty. */
  method ReplaceInit(head: Node, n: Node, ghost s: seq<Node>)
    requires List(head, s) && n !in [head] + s
    modifies head, n, head.next, head.prev
    ensures List(n, s) && List(head, [])
  {
    Inside(head, s);
    NextOfHead(head, s);
    n.next := head.next;
    n.next.prev := n;
    n.prev := head.prev;
    n.prev.next := n;
    head.next, head.prev := head, head;
    if s == [] { assert [n] + s == [n]; } else { Joined([n], s); }
  }
}
