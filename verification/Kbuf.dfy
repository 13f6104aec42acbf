/** The growable buffer of src/kernel/kbuf.c: a list of pages written at the end and read anywhere. */
module Kbuf {
  import opened Common

  predicate Sized(pages: seq<seq<byte>>)
  {
    forall i :: 0 <= i < |pages| ==> |pages[i]| == PG_SIZE
  }

  /** The byte at position `k` of the pages laid end to end. */
  function At(pages: seq<seq<byte>>, k: nat): byte
    requires Sized(pages) && k < |pages| * PG_SIZE
  {
    pages[k / PG_SIZE][k % PG_SIZE]
  }

  function Slice(pages: seq<seq<byte>>, from: nat, to: nat): (s: seq<byte>)
    requires Sized(pages) && from <= to <= |pages| * PG_SIZE
    ensures |s| == to - from && forall k :: 0 <= k < |s| ==> s[k] == At(pages, from + k)
  {
    seq(to - from, k requires 0 <= k < to - from => At(pages, from + k))
  }

  /** `chunk` copied into page `i` at `o`. */
  function Patch(pages: seq<seq<byte>>, i: nat, o: nat, chunk: seq<byte>): seq<seq<byte>>
    requires Sized(pages) && i < |pages| && o + |chunk| <= PG_SIZE
  {
    pages[i := pages[i][..o] + chunk + pages[i][o + |chunk|..]]
  }

  lemma PatchAt(pages: seq<seq<byte>>, i: nat, o: nat, chunk: seq<byte>, k: nat)
    requires Sized(pages) && i < |pages| && o + |chunk| <= PG_SIZE && k < |pages| * PG_SIZE
    ensures Sized(Patch(pages, i, o, chunk))
    ensures var at := i * PG_SIZE + o;
            At(Patch(pages, i, o, chunk), k) == if at <= k < at + |chunk| then chunk[k - at] else At(pages, k)
  {
    var p := pages[i][..o] + chunk + pages[i][o + |chunk|..];
    assert |p| == PG_SIZE;
    assert k == k / PG_SIZE * PG_SIZE + k % PG_SIZE;
  }

  /** Copying a chunk into a page extends what lies before it. */
  lemma Patched(pages: seq<seq<byte>>, i: nat, o: nat, chunk: seq<byte>)
    requires Sized(pages) && i < |pages| && o + |chunk| <= PG_SIZE
    ensures var pages', at := Patch(pages, i, o, chunk), i * PG_SIZE + o;
            Sized(pages') && Slice(pages', 0, at + |chunk|) == Slice(pages, 0, at) + chunk
  {
    var pages', at := Patch(pages, i, o, chunk), i * PG_SIZE + o;
    PatchAt(pages, i, o, chunk, 0);
    forall k | 0 <= k < at + |chunk|
      ensures At(pages', k) == if k < at then At(pages, k) else chunk[k - at]
    {
      PatchAt(pages, i, o, chunk, k);
    }
  }

  lemma CopyStep(pages: seq<seq<byte>>, i: nat, o: nat, was: seq<byte>, buf: seq<byte>, n: nat, c: nat)
    requires Sized(pages) && i < |pages| && o + c <= PG_SIZE && n + c <= |buf|
    requires Slice(pages, 0, i * PG_SIZE + o) == was + buf[..n]
    ensures var pages' := Patch(pages, i, o, buf[n..n + c]);
            && Sized(pages') && |pages'| == |pages| && i * PG_SIZE + o + c <= |pages| * PG_SIZE
            && Slice(pages', 0, i * PG_SIZE + o + c) == was + buf[..n + c]
  {
    Patched(pages, i, o, buf[n..n + c]);
    assert buf[..n] + buf[n..n + c] == buf[..n + c];
  }

  /** Byte `pos` is byte `o` of page `i`. */
  predicate Here(i: int, o: int, pos: nat)
  {
    0 <= o < PG_SIZE && i * PG_SIZE + o == pos
  }

  lemma Extended(pages: seq<seq<byte>>, loc: nat, i: nat, o: nat, c: nat)
    requires Sized(pages) && i < |pages| && o + c <= PG_SIZE && loc <= i * PG_SIZE + o
    ensures var at := i * PG_SIZE + o;
            at + c <= |pages| * PG_SIZE && Slice(pages, loc, at + c) == Slice(pages, loc, at) + pages[i][o..o + c]
  {
    var at := i * PG_SIZE + o;
    assert (i + 1) * PG_SIZE <= |pages| * PG_SIZE;
    assert forall k :: at <= k < at + c ==> At(pages, k) == pages[i][o + (k - at)];
  }

  const SIZE_MAX: nat := 0xFFFF_FFFF

  /** `a + b` as a 32-bit `size_t` */
  function Plus(a: nat, b: nat): nat
    requires a <= SIZE_MAX && b <= SIZE_MAX
  {
    if a + b <= SIZE_MAX then a + b else a + b - (SIZE_MAX + 1)
  }

  /** `a - b` as a 32-bit `size_t` */
  function Minus(a: nat, b: nat): (d: nat)
    requires b <= SIZE_MAX
  {
    if b <= a then a - b else a + (SIZE_MAX + 1 - b)
  }

  /** What a read returns for a buffer of `total` bytes of which `length` are written. */
  function ReadLength(total: nat, length: nat, loc: nat, len: nat): nat
    requires loc <= SIZE_MAX && len <= SIZE_MAX
  {
    if total <= loc then 0 else Min(if length < Plus(loc, len) then Minus(length, loc) else len, total - loc)
  }

  /** A read stays inside what was written if and only if it starts past every page, or it starts inside and
      its end does not wrap around, or it wraps around and the pages are full. */
  lemma ReadInsideIff(total: nat, length: nat, loc: nat, len: nat)
    requires length <= total <= SIZE_MAX + 1 && loc <= SIZE_MAX && len <= SIZE_MAX
    ensures ReadLength(total, length, loc, len) == (if loc <= length then Min(len, length - loc) else 0)
            <==> total <= loc || (if loc + len <= SIZE_MAX then loc <= length else length == total)
  {
  }

  class Buffer {
    var pages: seq<seq<byte>>
    var pageCount: nat
    var offset: nat

    predicate Valid()
      reads this
    {
      Sized(pages) && pageCount == |pages| && offset <= pageCount * PG_SIZE
    }

    ghost function Contents(): (s: seq<byte>)
      requires Valid()
      reads this
      ensures |s| == offset
    {
      Slice(pages, 0, offset)
    }

    /** `kbuf_get_free_length` */
    function Free(): nat
      requires Valid()
      reads this
    {
      pageCount * PG_SIZE - offset
    }

    constructor ()
      ensures Valid() && Contents() == [] && pages == []
    {
      pages, pageCount, offset := [], 0, 0;
    }

    /** `kbuf_add_page`, which fails when there is no page to be had */
    method AddPage(page: Option<seq<byte>>) returns (ok: bool)
      requires Valid() && (page.Some? ==> |page.value| == PG_SIZE)
      modifies `pages, `pageCount
      ensures Valid() && Contents() == old(Contents()) && ok == page.Some?
      ensures Free() == old(Free()) + (if ok then PG_SIZE else 0)
    {
      ok := page.Some?;
      if ok {
        pageCount := pageCount + 1;
        pages := pages + [page.value];
      }
    }

    /** `kbuf_clear` */
    method Clear()
      modifies this
      ensures Valid() && Contents() == []
    {
      pages, pageCount, offset := [], 0, 0;
    }

    /** `kbuf_reset_pos`: taking the write position back undoes everything written since. */
    method ResetPos(pos: nat)
      requires Valid() && pos <= offset
      modifies `offset
      ensures Valid() && Contents() == old(Contents())[..pos] && Free() == old(Free()) + old(offset) - pos
    {
      offset := pos;
    }

    /** The copy loop of `kbuf_write`. It reaches the end of the data before it runs out of pages. */
    method CopyIn(buf: seq<byte>) returns (n: nat)
      requires Valid() && |buf| <= Free() && offset < |pages| * PG_SIZE
      modifies `pages
      ensures Valid() && n == |buf| && Slice(pages, 0, offset + n) == old(Contents()) + buf
    {
      ghost var was := Contents();
      n := 0;
      var cur, pageOffset := offset / PG_SIZE, offset % PG_SIZE;
      while n < |buf|
        invariant n <= |buf| && Sized(pages) && |pages| == pageCount
        invariant n < |buf| ==> Here(cur, pageOffset, offset + n) && 0 <= cur < |pages|
        invariant Slice(pages, 0, offset + n) == was + buf[..n]
      {
        var c := Min(|buf| - n, PG_SIZE - pageOffset);
        CopyStep(pages, cur, pageOffset, was, buf, n, c);
        pages := Patch(pages, cur, pageOffset, buf[n..n + c]);
        pageOffset := 0;
        n := n + c;
        cur := cur + 1;
        if cur == |pages| {
          break;
        }
      }
      assert buf[..n] == buf;
    }

    /** `kbuf_write`: as much as there is room for, appended. */
    method Write(buf: seq<byte>) returns (n: nat)
      requires Valid()
      modifies `pages, `offset
      ensures Valid() && pageCount == old(pageCount)
      ensures n == Min(|buf|, old(Free())) && Contents() == old(Contents()) + buf[..n]
    {
      if offset / PG_SIZE >= |pages| {
        return 0;
      }
      var len := Min(|buf|, Free());
      n := CopyIn(buf[..len]);
      offset := offset + n;
    }

    /** The copy loop of `kbuf_read`, which stops at the end of the pages if not before. */
    method CopyOut(loc: nat, len: nat) returns (out: seq<byte>)
      requires Valid() && loc < |pages| * PG_SIZE
      ensures |out| == Min(len, |pages| * PG_SIZE - loc) && out == Slice(pages, loc, loc + |out|)
    {
      var cur, pageOffset := loc / PG_SIZE, loc % PG_SIZE;
      out := [];
      while |out| < len
        invariant |out| <= Min(len, |pages| * PG_SIZE - loc) && out == Slice(pages, loc, loc + |out|)
        invariant |out| < len ==> Here(cur, pageOffset, loc + |out|) && 0 <= cur < |pages|
      {
        var c := Min(len - |out|, PG_SIZE - pageOffset);
        Extended(pages, loc, cur, pageOffset, c);
        out := out + pages[cur][pageOffset..pageOffset + c];
        pageOffset := 0;
        cur := cur + 1;
        if cur == |pages| {
          break;
        }
      }
    }

    /** `kbuf_read`. A position past what was written makes the remaining length wrap around, and a length that
        is too large makes the end do so. */
    method Read(loc: nat, len0: nat) returns (out: seq<byte>)
      requires Valid() && loc <= SIZE_MAX && len0 <= SIZE_MAX
      ensures |out| == ReadLength(pageCount * PG_SIZE, offset, loc, len0)
      ensures out != [] ==> loc + |out| <= pageCount * PG_SIZE && out == Slice(pages, loc, loc + |out|)
      ensures loc <= offset && loc + len0 <= SIZE_MAX ==> out == Contents()[loc..loc + Min(len0, offset - loc)]
    {
      out := [];
      if loc / PG_SIZE < |pages| {
        var len := if offset < Plus(loc, len0) then Minus(offset, loc) else len0;
        out := CopyOut(loc, len);
      }
    }
  }
}
