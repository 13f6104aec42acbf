/** Values and list facts that several components share. */
module Common {
  datatype Option<+T> = None | Some(value: T)

  ghost predicate Distinct<T>(s: seq<T>)
  {
    forall i, j :: 0 <= i < j < |s| ==> s[i] != s[j]
  }

  /** `list_del` on a list that holds `x` at most once. */
  function Without<T(==)>(s: seq<T>, x: T): seq<T>
  {
    if s == [] then [] else if s[0] == x then s[1..] else [s[0]] + Without(s[1..], x)
  }

  lemma {:induction false} WithoutExact<T>(s: seq<T>, x: T)
    requires Distinct(s)
    ensures |Without(s, x)| == |s| - (if x in s then 1 else 0) && Distinct(Without(s, x))
    ensures forall y :: y in Without(s, x) <==> y in s && y != x
  {
    if s != [] {
      var t := s[1..];
      assert s == [s[0]] + t;
      assert s[0] !in t;
      if s[0] != x { WithoutExact(t, x); }
    }
  }

  lemma DistinctPrepend<T>(s: seq<T>, x: T)
    requires Distinct(s) && x !in s
    ensures Distinct([x] + s) && forall y :: y in [x] + s <==> y in s || y == x
  {
  }

  lemma DistinctAppend<T>(s: seq<T>, x: T)
    requires Distinct(s) && x !in s
    ensures Distinct(s + [x]) && forall y :: y in s + [x] <==> y in s || y == x
  {
  }

  lemma DistinctConcat<T>(s: seq<T>, t: seq<T>)
    requires Distinct(s) && Distinct(t) && forall x :: x in s ==> x !in t
    ensures Distinct(s + t) && forall y :: y in s + t <==> y in s || y in t
  {
    var st := s + t;
    forall i, j | 0 <= i < j < |st| ensures st[i] != st[j] {
      if i < |s| <= j { assert st[i] in s && st[j] in t; }
    }
  }

  lemma DistinctTail<T>(s: seq<T>)
    requires Distinct(s) && s != []
    ensures Distinct(s[1..]) && s[0] !in s[1..] && forall y :: y in s <==> y == s[0] || y in s[1..]
  {
    assert s == [s[0]] + s[1..];
  }

  lemma {:induction false} DistinctCount<T>(s: seq<T>, x: T)
    requires Distinct(s)
    ensures multiset(s)[x] == if x in s then 1 else 0
  {
    if s != [] {
      DistinctTail(s);
      DistinctCount(s[1..], x);
      HeadCount(s, x);
    }
  }

  lemma HeadCount<T>(s: seq<T>, x: T)
    requires s != []
    ensures multiset(s)[x] == multiset(s[1..])[x] + if x == s[0] then 1 else 0
  {
    assert s == [s[0]] + s[1..];
  }

  lemma LastCount<T>(s: seq<T>, y: T, x: T)
    ensures multiset(s + [y])[x] == multiset(s)[x] + if x == y then 1 else 0
  {
  }

  function Elements<T(==)>(s: seq<T>): set<T>
  {
    set x | x in s
  }

  // ---------------------------------------------------------------- scans of a chained hash table

  /** The members of a chain that satisfy `p`, in order. */
  function Select(chain: seq<nat>, p: nat -> bool): seq<nat>
  {
    if chain == [] then [] else (if p(chain[0]) then [chain[0]] else []) + Select(chain[1..], p)
  }

  function SelectAll(buckets: seq<seq<nat>>, p: nat -> bool): seq<nat>
  {
    if buckets == [] then [] else Select(buckets[0], p) + SelectAll(buckets[1..], p)
  }

  ghost predicate InSome(buckets: seq<seq<nat>>, id: nat)
  {
    exists k :: 0 <= k < |buckets| && id in buckets[k]
  }

  /** No chain holds anything twice, and no two chains hold the same thing. */
  ghost predicate Separate(buckets: seq<seq<nat>>)
  {
    && (forall k :: 0 <= k < |buckets| ==> Distinct(buckets[k]))
    && (forall i, j, id :: 0 <= i < |buckets| && 0 <= j < |buckets| && id in buckets[i] && id in buckets[j] ==> i == j)
  }

  lemma {:induction false} SelectExact(chain: seq<nat>, p: nat -> bool)
    requires Distinct(chain)
    ensures Distinct(Select(chain, p))
    ensures forall id :: id in Select(chain, p) <==> id in chain && p(id)
  {
    if chain != [] {
      DistinctTail(chain);
      SelectExact(chain[1..], p);
    }
  }

  /** A scan lists exactly what satisfies `p`, once. */
  lemma {:induction false} SelectAllExact(buckets: seq<seq<nat>>, p: nat -> bool)
    requires Separate(buckets)
    ensures Distinct(SelectAll(buckets, p))
    ensures forall id :: id in SelectAll(buckets, p) <==> InSome(buckets, id) && p(id)
  {
    if buckets != [] {
      var rest := buckets[1..];
      assert Separate(rest) by {
        forall i, j, id | 0 <= i < |rest| && 0 <= j < |rest| && id in rest[i] && id in rest[j] ensures i == j {
          assert id in buckets[i + 1] && id in buckets[j + 1];
        }
      }
      SelectAllExact(rest, p);
      SelectExact(buckets[0], p);
      forall id ensures InSome(buckets, id) <==> id in buckets[0] || InSome(rest, id) {
        if InSome(rest, id) { var k :| 0 <= k < |rest| && id in rest[k]; assert id in buckets[k + 1]; }
        if InSome(buckets, id) && id !in buckets[0] {
          var k :| 0 <= k < |buckets| && id in buckets[k];
          assert id in rest[k - 1];
        }
      }
      forall id | id in Select(buckets[0], p) ensures id !in SelectAll(rest, p) {
        forall k | 0 <= k < |rest| ensures id !in rest[k] { assert rest[k] == buckets[k + 1]; }
      }
      DistinctConcat(Select(buckets[0], p), SelectAll(rest, p));
    }
  }

  lemma Repeats(s: seq<nat>, x: nat)
    ensures |s| > 1 && (forall y :: y in s ==> y == x) ==> !Distinct(s)
  {
    if |s| > 1 { assert s[0] in s && s[1] in s; }
  }

  lemma OnlyElement(s: seq<nat>, x: nat)
    requires Distinct(s) && forall y :: y in s <==> y == x
    ensures s == [x]
  {
    assert x in s;
    Repeats(s, x);
  }

  // ---------------------------------------------------------------- bytes and pages

  newtype byte = x: int | 0 <= x < 0x100

  const PG_SIZE: nat := 4096

  function Min(a: nat, b: nat): nat
  {
    if a < b then a else b
  }

  /** Bitwise exclusive or. */
  function Xor(a: nat, b: nat): nat
  {
    if a == 0 && b == 0 then 0 else 2 * Xor(a / 2, b / 2) + (a % 2 + b % 2) % 2
  }
}
