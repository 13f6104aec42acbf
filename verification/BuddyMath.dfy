/** Power-of-two block arithmetic for the buddy allocator of src/mm/palloc.c:
    block sizes, natural alignment, and the bit tricks `pn ^ (1 << order)` and
    `pn & ~(1 << order)` that find a buddy and the head of a merged block.
    All of it is bit by bit, so every fact holds for every order. */
module BuddyMath {

  /** `1 << k` */
  function Size(k: nat): (s: nat)
    ensures s >= 1
  {
    if k == 0 then 1 else 2 * Size(k - 1)
  }

  /** The low `k` bits of `p` are clear. */
  predicate Aligned(p: nat, k: nat)
  {
    k == 0 || (p % 2 == 0 && Aligned(p / 2, k - 1))
  }

  /** `n ^ (1 << k)` */
  function FlipBit(n: nat, k: nat): nat
  {
    if k == 0 then (if n % 2 == 0 then n + 1 else n - 1)
    else 2 * FlipBit(n / 2, k - 1) + n % 2
  }

  /** `n & ~(1 << k)` */
  function ClearBit(n: nat, k: nat): nat
  {
    if k == 0 then n - n % 2
    else 2 * ClearBit(n / 2, k - 1) + n % 2
  }

  /** Page `q` lies in the block of `2^k` pages headed by `p`. */
  predicate InBlock(q: int, p: int, k: nat)
  {
    p <= q < p + Size(k)
  }

  lemma {:induction false} AlignedWeaken(p: nat, j: nat, k: nat)
    requires k <= j && Aligned(p, j)
    ensures Aligned(p, k) && Size(k) <= Size(j)
  {
    if k > 0 { AlignedWeaken(p / 2, j - 1, k - 1); }
  }

  /** Aligned blocks nest: a block that starts inside a block at least as large lies wholly inside it. */
  lemma {:induction false} StartNests(p: nat, j: nat, q: nat, k: nat)
    requires k <= j && Aligned(p, j) && Aligned(q, k)
    requires p <= q < p + Size(j)
    ensures q + Size(k) <= p + Size(j)
  {
    if k > 0 { StartNests(p / 2, j - 1, q / 2, k - 1); }
  }

  /** Aligned blocks that share a page nest. */
  lemma SharedNests(p: nat, j: nat, q: nat, k: nat, x: int)
    requires k <= j && Aligned(p, j) && Aligned(q, k)
    requires InBlock(x, p, j) && InBlock(x, q, k)
    ensures p <= q && q + Size(k) <= p + Size(j)
  {
    if p <= q {
      StartNests(p, j, q, k);
    } else {
      AlignedWeaken(p, j, k);
      StartNests(q, k, p, k);
      assert false;
    }
  }

  /** A block that starts before an aligned limit ends before it. */
  lemma {:induction false} Fits(p: nat, k: nat, limit: nat)
    requires Aligned(p, k) && Aligned(limit, k) && p < limit
    ensures p + Size(k) <= limit
  {
    if k > 0 { Fits(p / 2, k - 1, limit / 2); }
  }

  /** Flipping a bit twice does nothing, and clearing it forgets the flip. */
  lemma {:induction false} FlipTwice(p: nat, k: nat)
    ensures FlipBit(FlipBit(p, k), k) == p && ClearBit(FlipBit(p, k), k) == ClearBit(p, k)
  {
    if k > 0 { FlipTwice(p / 2, k - 1); }
  }

  lemma {:induction false} HeadOfPair(p: nat, k: nat)
    requires Aligned(p, k)
    ensures var b, h := FlipBit(p, k), ClearBit(p, k);
            Aligned(h, k + 1) && ((p == h && b == h + Size(k)) || (b == h && p == h + Size(k)))
  {
    if k > 0 { HeadOfPair(p / 2, k - 1); }
  }

  lemma Doubled(n: nat)
    ensures (2 * n) % 2 == 0 && (2 * n) / 2 == n
  {
  }

  lemma {:induction false} FlipAligned(p: nat, k: nat)
    requires Aligned(p, k)
    ensures Aligned(FlipBit(p, k), k)
  {
    if k > 0 {
      FlipAligned(p / 2, k - 1);
      assert FlipBit(p, k) == 2 * FlipBit(p / 2, k - 1);
      Doubled(FlipBit(p / 2, k - 1));
    }
  }

  /** The bit tricks are buddy arithmetic: the two buddies are the halves of one aligned block of
      the next order, whose head is the lower buddy; being buddies is symmetric. */
  lemma BuddyHalves(p: nat, k: nat)
    requires Aligned(p, k)
    ensures var b, h := FlipBit(p, k), ClearBit(p, k);
            && Aligned(b, k) && FlipBit(b, k) == p && ClearBit(b, k) == h
            && Aligned(h, k + 1) && FlipBit(h, k) == h + Size(k)
            && ((p == h && b == h + Size(k)) || (b == h && p == h + Size(k)))
  {
    FlipTwice(p, k);
    FlipAligned(p, k);
    HeadOfPair(p, k);
  }

  /** Splitting the head of a block of order `k + 1` gives the block's own halves. */
  lemma {:induction false} SplitHalves(p: nat, k: nat)
    requires Aligned(p, k + 1)
    ensures Aligned(p, k) && FlipBit(p, k) == p + Size(k) && ClearBit(p, k) == p
  {
    if k > 0 { SplitHalves(p / 2, k - 1); }
  }

  /** The lowest set bit of a number that is not aligned to `k`. */
  lemma {:induction false} LowestBit(n: nat, k: nat) returns (j: nat, p: nat)
    requires !Aligned(n, k)
    ensures j < k && Aligned(p, j + 1) && n == p + Size(j)
  {
    if n % 2 == 1 {
      j, p := 0, n - 1;
    } else {
      var i, h := LowestBit(n / 2, k - 1);
      j, p := i + 1, 2 * h;
      assert p / 2 == h && Size(j) == 2 * Size(i);
    }
  }

  /** No buddy of a block inside a page array of `n` pages can be looked up out of bounds. */
  ghost predicate LookupsInBounds(n: nat, top: nat)
  {
    forall p: nat, k: nat :: k < top && Aligned(p, k) && p + Size(k) <= n ==> FlipBit(p, k) < n
  }

  /** The unchecked lookup at src/mm/palloc.c:93 stays inside the page array exactly when the
      page count is a multiple of the largest block. */
  lemma LookupsInBoundsIff(n: nat, top: nat)
    ensures LookupsInBounds(n, top) <==> Aligned(n, top)
  {
    if Aligned(n, top) {
      forall p: nat, k: nat | k < top && Aligned(p, k) && p + Size(k) <= n
        ensures FlipBit(p, k) < n
      {
        BuddyHalves(p, k);
        AlignedWeaken(n, top, k + 1);
        Fits(ClearBit(p, k), k + 1, n);
      }
    } else {
      var k, p := LowestBit(n, top);
      SplitHalves(p, k);
      assert FlipBit(p, k) == n;
    }
  }
}
