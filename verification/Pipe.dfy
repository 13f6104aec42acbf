/** The pipe of src/fs/pipe.c: pages of data in a bounded queue, read and written in mutex sections that
    any number of readers and writers interleave. */
module Pipe {
  import opened Common

  const MAX_PAGES: nat := 10

  /** A `struct page` of the pipe: `lenb` bytes of data from `startb` on. */
  datatype Page = Page(mem: seq<byte>, startb: nat, lenb: nat)

  predicate PageOk(p: Page)
  {
    |p.mem| == PG_SIZE && p.startb + p.lenb <= PG_SIZE
  }

  function Payload(p: Page): (d: seq<byte>)
    requires PageOk(p)
    ensures |d| == p.lenb
  {
    p.mem[p.startb..p.startb + p.lenb]
  }

  predicate AllOk(pages: seq<Page>)
  {
    forall p :: p in pages ==> PageOk(p)
  }

  /** The bytes of a list of pages, in order. */
  function Bytes(pages: seq<Page>): seq<byte>
    requires AllOk(pages)
  {
    if pages == [] then [] else Payload(pages[0]) + Bytes(pages[1..])
  }

  lemma {:induction false} BytesAppend(pages: seq<Page>, p: Page)
    requires AllOk(pages) && PageOk(p)
    ensures AllOk(pages + [p]) && Bytes(pages + [p]) == Bytes(pages) + Payload(p)
  {
    if pages == [] {
      assert pages + [p] == [p];
    } else {
      assert (pages + [p])[1..] == pages[1..] + [p];
      BytesAppend(pages[1..], p);
    }
  }

  lemma NonEmpty(pages: seq<Page>)
    requires AllOk(pages) && forall p :: p in pages ==> p.lenb > 0
    ensures Bytes(pages) == [] <==> pages == []
  {
    if pages != [] { assert pages[0] in pages; }
  }

  lemma SplitAt(c: seq<byte>, out: seq<byte>, rest: seq<byte>, size: nat)
    requires out + rest == c && |out| <= size && (rest == [] || |out| == size)
    ensures var n := Min(size, |c|); out == c[..n] && rest == c[n..]
  {
  }

  /** How much of `size` bytes fits into `pages` pages. */
  function Room(size: nat, pages: nat): nat
  {
    Min(size, pages * PG_SIZE)
  }

  /** How a mutex section of a read or a write ends: the call returns, or sleeps and then goes on. */
  datatype Outcome = Done | Again | BrokenPipe | Fault | Sleep

  class PipeInfo {
    var bufs: seq<Page>
    var freePages: seq<Page>
    var totalPages: nat
    var readers: nat
    var writers: nat

    // History: everything ever appended, everything ever delivered, the pages lost to faulting copies,
    // and whether data went with them.
    ghost var appended: seq<byte>
    ghost var delivered: seq<byte>
    ghost var lost: nat
    ghost var broken: bool

    predicate PagesOk()
      reads this
    {
      AllOk(bufs) && AllOk(freePages) && forall p :: p in bufs ==> p.lenb > 0
    }

    /** The bytes in the pipe. */
    ghost function Contents(): seq<byte>
      requires PagesOk()
      reads this
    {
      Bytes(bufs)
    }

    /** The pages a writer can still fill. */
    ghost function Space(): nat
      reads this
    {
      if |bufs| + lost <= MAX_PAGES then MAX_PAGES - |bufs| - lost else 0
    }

    /** Every page is accounted for, and the pipe is a queue: what was delivered, then what is still
        buffered, is what was appended. Once a read has faulted, there are bytes that are neither. */
    ghost predicate Valid()
      reads this
    {
      && PagesOk()
      && totalPages == |bufs| + |freePages| + lost && totalPages <= MAX_PAGES
      && (!broken ==> delivered + Contents() == appended)
      && (broken ==> |delivered| + |Contents()| < |appended|)
    }

    constructor ()
      ensures Valid() && Contents() == [] && readers == 0 && writers == 0 && lost == 0 && !broken
      ensures appended == delivered == []
    {
      bufs, freePages, totalPages, readers, writers := [], [], 0, 0, 0;
      appended, delivered, lost, broken := [], [], 0, false;
    }

    // -------------------------------------------------------------- reading

    /** Takes `n` bytes off the first page, which goes to the free pages once it is empty. */
    method TakeFront(n: nat) returns (piece: seq<byte>, freed: bool)
      requires PagesOk() && bufs != [] && 0 < n <= bufs[0].lenb
      modifies `bufs, `freePages
      ensures PagesOk() && |bufs| + |freePages| == old(|bufs| + |freePages|)
      ensures |piece| == n && piece + Contents() == old(Contents())
      ensures |freePages| == old(|freePages|) + (if freed then 1 else 0)
    {
      var p := bufs[0];
      assert p in bufs;
      var q := p.(startb := p.startb + n, lenb := p.lenb - n);
      piece := p.mem[p.startb..p.startb + n];
      assert Payload(p) == piece + Payload(q);
      freed := q.lenb == 0;
      if freed {
        bufs, freePages := bufs[1..], [q] + freePages;
      } else {
        bufs := [q] + bufs[1..];
      }
    }

    /** The same, after `out` has been taken. */
    method TakeMore(out: seq<byte>, n: nat) returns (more: seq<byte>)
      requires PagesOk() && bufs != [] && 0 < n <= bufs[0].lenb
      modifies `bufs, `freePages
      ensures PagesOk() && |bufs| + |freePages| == old(|bufs| + |freePages|) && |freePages| >= old(|freePages|)
      ensures |more| == |out| + n && more + Contents() == out + old(Contents())
    {
      var piece, _ := TakeFront(n);
      more := out + piece;
      assert out + (piece + Contents()) == more + Contents();
    }

    /** What is left of `c` begins past `limit`. */
    static ghost predicate LeftPast(c: seq<byte>, rest: seq<byte>, limit: nat)
    {
      exists k :: limit < k <= |c| && rest == c[k..]
    }

    static lemma CutAt(c: seq<byte>, a: seq<byte>, b: seq<byte>, rest: seq<byte>)
      requires c == a + (b + rest)
      ensures |a| + |b| <= |c| && rest == c[|a| + |b|..]
    {
    }

    /** A faulting copy, after `out` of the contents `c` has been taken: the page has been taken off its list
        and goes nowhere. */
    method LoseFront(ghost c: seq<byte>, ghost out: seq<byte>, ghost limit: nat)
      requires PagesOk() && bufs != [] && out + Contents() == c && |out| + bufs[0].lenb > limit
      modifies `bufs, `lost, `broken
      ensures PagesOk() && |bufs| + lost == old(|bufs| + lost) && lost == old(lost) + 1 && broken
      ensures LeftPast(c, Contents(), limit) && |out| + old(bufs[0].lenb) <= |c|
    {
      ghost var p := bufs[0];
      assert p in bufs;
      bufs := bufs[1..];
      lost, broken := lost + 1, true;
      CutAt(c, out, Payload(p), Contents());
    }

    /** The copy loop of `pipe_read`: takes as much as there is and is asked for. Copying faults at user
        offset `limit`; then the page in hand is lost, and so is everything up to its end, which is past
        `limit`. */
    method ReadPass(size: nat, limit: nat) returns (out: seq<byte>, fault: bool)
      requires PagesOk()
      modifies `bufs, `freePages, `lost, `broken
      ensures PagesOk() && |bufs| + |freePages| + lost == old(|bufs| + |freePages| + lost)
      ensures var c, n := old(Contents()), Min(size, |old(Contents())|);
              && (fault <==> limit < n)
              && (fault ==> broken && lost == old(lost) + 1 && LeftPast(c, Contents(), limit))
              && (!fault ==> out == c[..n] && Contents() == c[n..] && lost == old(lost) && broken == old(broken))
      ensures |freePages| >= old(|freePages|)
    {
      ghost var c := Contents();
      out, fault := [], false;
      while bufs != [] && |out| < size
        invariant PagesOk() && |bufs| + |freePages| + lost == old(|bufs| + |freePages| + lost)
        invariant out + Contents() == c && |out| <= size && |out| <= limit
        invariant lost == old(lost) && broken == old(broken) && |freePages| >= old(|freePages|)
        decreases size - |out|
      {
        var n := Min(bufs[0].lenb, size - |out|);
        if |out| + n > limit {
          fault := true;
          LoseFront(c, out, limit);
          return;
        }
        out := TakeMore(out, n);
      }
      SplitAt(c, out, Contents(), size);
    }

    static lemma Regroup(d: seq<byte>, c: seq<byte>, n: nat)
      requires n <= |c|
      ensures (d + c[..n]) + c[n..] == d + c
    {
    }

    /** The copy loop, with its result counted as delivered. */
    method Deliver(size: nat, limit: nat) returns (out: seq<byte>, fault: bool)
      requires Valid()
      modifies `bufs, `freePages, `delivered, `lost, `broken
      ensures Valid() && |freePages| >= old(|freePages|)
      ensures var c, n := old(Contents()), Min(size, |old(Contents())|);
              && (fault <==> limit < n) && (broken <==> old(broken) || fault)
              && (fault ==> out == [] && delivered == old(delivered) && lost == old(lost) + 1)
              && (fault ==> LeftPast(c, Contents(), limit))
              && (!fault ==> out == c[..n] && Contents() == c[n..])
              && (!fault ==> delivered == old(delivered) + out && lost == old(lost))
    {
      ghost var c := Contents();
      out, fault := ReadPass(size, limit);
      if fault {
        out := [];
      } else {
        Regroup(delivered, c, Min(size, |c|));
        delivered := delivered + out;
      }
    }

    /** One mutex section of `pipe_read`. The writers are woken if a page was freed. If the copy to user memory
        faults, a page is lost for good, and with it the bytes up to its end; nothing of them was delivered. */
    method ReadSection(size: nat, nonblock: bool, limit: nat)
      returns (out: seq<byte>, r: Outcome, wakeReaders: bool, wakeWriters: bool)
      requires Valid() && size > 0
      modifies `bufs, `freePages, `delivered, `lost, `broken
      ensures Valid()
      ensures var c, n := old(Contents()), Min(size, |old(Contents())|);
              && (r == Fault <==> limit < n)
              && (r == Done ==> out == c[..n] && Contents() == c[n..])
              && (r == Again <==> c == [] && writers > 0 && nonblock)
              && (r == Sleep <==> c == [] && writers > 0 && !nonblock)
              && r != BrokenPipe && (r in {Again, Sleep} ==> out == [] && Contents() == [])
              && (r != Fault ==> delivered == old(delivered) + out && lost == old(lost))
              && (r == Fault ==> delivered == old(delivered) && lost == old(lost) + 1 && LeftPast(c, Contents(), limit))
              && (broken <==> old(broken) || r == Fault)
      // The pipe is still a queue if and only if no read has faulted.
      ensures var n := Min(size, |old(Contents())|);
              delivered + Contents() == appended <==> !old(broken) && n <= limit
      ensures wakeReaders <==> r != Fault && (Contents() != [] || writers == 0)
      ensures wakeWriters <==> r != Fault && |freePages| > old(|freePages|)
    {
      var before := |freePages|;
      var fault;
      out, fault := Deliver(size, limit);
      wakeReaders, wakeWriters := !fault && (bufs != [] || writers == 0), !fault && |freePages| > before;
      if fault {
        r := Fault;
      } else {
        r := if out == [] && writers != 0 then (if nonblock then Again else Sleep) else Done;
      }
      NonEmpty(bufs);
    }

    // -------------------------------------------------------------- writing

    /** Fills the first free page and appends it to the data. */
    method FillPage(data: seq<byte>)
      requires PagesOk() && freePages != [] && 0 < |data| <= PG_SIZE
      modifies `bufs, `freePages
      ensures PagesOk() && |bufs| == old(|bufs|) + 1 && |freePages| == old(|freePages|) - 1
      ensures Contents() == old(Contents()) + data
    {
      var p := freePages[0];
      assert p in freePages;
      var q := Page(data + p.mem[|data|..], 0, |data|);
      assert Payload(q) == data;
      BytesAppend(bufs, q);
      bufs, freePages := bufs + [q], freePages[1..];
    }

    /** The copy loop of `pipe_write` over the free pages. `done` bytes have been copied before. */
    method FillPass(data: seq<byte>, done: nat, limit: nat) returns (k: nat, fault: bool)
      requires PagesOk() && done <= limit
      modifies `bufs, `freePages, `lost
      ensures PagesOk() && |bufs| + |freePages| + lost == old(|bufs| + |freePages| + lost)
      ensures k <= |data| && Contents() == old(Contents()) + data[..k]
      ensures var n := Room(|data|, old(|freePages|));
              && (fault <==> limit < done + n)
              && (!fault ==> k == n && lost == old(lost) && (k < |data| ==> freePages == []))
              && (fault ==> lost == old(lost) + 1 && done + k <= limit)
    {
      ghost var c, f := Contents(), |freePages|;
      k, fault := 0, false;
      while freePages != [] && k < |data|
        invariant PagesOk() && |bufs| + |freePages| + lost == old(|bufs| + |freePages| + lost) && lost == old(lost)
        invariant k <= |data| && Contents() == c + data[..k] && done + k <= limit
        invariant k == Room(|data|, f - |freePages|) && |freePages| <= f
        decreases |freePages|
      {
        var n := Min(PG_SIZE, |data| - k);
        if done + k + n > limit {
          freePages := freePages[1..];
          lost, fault := lost + 1, true;
          return;
        }
        FillPage(data[k..k + n]);
        assert data[..k] + data[k..k + n] == data[..k + n];
        k := k + n;
      }
    }

    /** Adds free pages up to the limit, as many as the rest of the data may need. */
    method Grow(size: nat)
      requires PagesOk() && freePages == [] && totalPages == |bufs| + lost < MAX_PAGES
      modifies `freePages, `totalPages
      ensures PagesOk() && totalPages == |bufs| + |freePages| + lost <= MAX_PAGES && totalPages > old(totalPages)
      ensures |freePages| == Min(size / PG_SIZE + 1, MAX_PAGES - old(totalPages))
    {
      var maxPages := Min(size / PG_SIZE + 1, MAX_PAGES - totalPages);
      ghost var wanted := maxPages;
      totalPages := totalPages + maxPages;
      while maxPages > 0
        invariant AllOk(freePages) && |freePages| + maxPages == wanted && totalPages == old(totalPages) + wanted
      {
        freePages := [Page(seq(PG_SIZE, _ => 0), 0, 0)] + freePages;
        maxPages := maxPages - 1;
      }
    }

    static lemma NextPiece(c: seq<byte>, data: seq<byte>, k: nat, n: nat)
      requires k + n <= |data|
      ensures (c + data[..k]) + data[k..][..n] == c + data[..k + n]
    {
      assert data[..k] + data[k..][..n] == data[..k + n];
    }

    /** The loop of `pipe_write` up to the point where it is done or has to sleep: with the pages it may
        add, the pipe takes exactly as much as `MAX_PAGES` leaves room for. */
    method Append(data: seq<byte>, limit: nat) returns (k: nat, fault: bool)
      requires PagesOk() && totalPages == |bufs| + |freePages| + lost <= MAX_PAGES
      modifies `bufs, `freePages, `totalPages, `lost
      ensures PagesOk() && totalPages == |bufs| + |freePages| + lost <= MAX_PAGES
      ensures k <= |data| && Contents() == old(Contents()) + data[..k]
      ensures fault <==> limit < Room(|data|, old(Space()))
      ensures !fault ==> k == Room(|data|, old(Space())) && lost == old(lost) && (k < |data| ==> Space() == 0)
      ensures fault ==> lost == old(lost) + 1 && k <= limit
    {
      ghost var c, space := Contents(), Space();
      k, fault := 0, false;
      while k < |data|
        invariant PagesOk() && totalPages == |bufs| + |freePages| + lost <= MAX_PAGES && lost == old(lost)
        invariant k <= |data| && Contents() == c + data[..k] && k <= limit
        invariant k + Room(|data| - k, Space()) == Room(|data|, space)
        decreases MAX_PAGES - totalPages, |data| - k
      {
        var n;
        n, fault := FillPass(data[k..], k, limit);
        NextPiece(c, data, k, n);
        k := k + n;
        if fault {
          return;
        }
        if k < |data| {
          if totalPages == MAX_PAGES {
            return;
          }
          Grow(|data| - k);
        }
      }
    }

    /** One mutex section of `pipe_write`. A call that has written before is no longer `first`. */
    method WriteSection(data: seq<byte>, first: bool, nonblock: bool, limit: nat)
      returns (k: nat, r: Outcome, wakeReaders: bool, wakeWriters: bool)
      requires Valid() && data != []
      modifies `bufs, `freePages, `totalPages, `appended, `lost
      ensures Valid() && k <= |data|
      ensures Contents() == old(Contents()) + data[..k] && appended == old(appended) + data[..k]
      ensures var n := Room(|data|, old(Space()));
              && (r == BrokenPipe <==> readers == 0) && (readers == 0 ==> k == 0)
              && (r == Fault <==> readers > 0 && limit < n)
              && (r !in {BrokenPipe, Fault} ==> k == n)
              && (r == Fault ==> k <= limit) && lost == old(lost) + (if r == Fault then 1 else 0)
              && (r == Again <==> readers > 0 && nonblock && first && n == 0)
              && (r == Sleep <==> readers > 0 && !nonblock && n < |data| && n <= limit)
      // A write of at most a page goes in whole or not at all, and a blocking one sleeps until it does.
      ensures |data| <= PG_SIZE && r != Fault ==> k == 0 || k == |data|
      ensures |data| <= PG_SIZE && !nonblock ==> (r == Sleep ==> k == 0) && (r == Done ==> k == |data|)
      ensures wakeReaders <==> k > 0 && r != Fault
      ensures wakeWriters <==> readers == 0 || (r != Fault && freePages != [])
    {
      k, r, wakeReaders, wakeWriters := 0, BrokenPipe, false, true;
      if readers > 0 {
        var fault;
        k, fault := Append(data, limit);
        appended := appended + data[..k];
        wakeReaders, wakeWriters := !fault && k > 0, !fault && freePages != [];
        r := if fault then Fault
             else if nonblock then (if first && k == 0 then Again else Done)
             else if k < |data| then Sleep else Done;
      }
    }

    // -------------------------------------------------------------- poll and release

    /** `pipe_poll`: readiness is promised exactly when a non-blocking call would not be turned away. `hup`
        tells a reader of end of file, but a writer of a broken pipe only when there is no space left. */
    method Poll(wantIn: bool, wantOut: bool) returns (in_: bool, out: bool, hup: bool)
      requires Valid()
      ensures in_ <==> wantIn && !(Contents() == [] && writers > 0)
      ensures out <==> wantOut && !(Space() == 0 && readers > 0)
      ensures hup <==> (wantIn && Contents() == [] && writers == 0) || (wantOut && Space() == 0 && readers == 0)
    {
      NonEmpty(bufs);
      in_, out, hup := false, false, false;
      if wantIn {
        if bufs != [] {
          in_ := true;
        } else if writers == 0 {
          in_, hup := true, true;
        }
      }
      if wantOut {
        if freePages != [] || totalPages < MAX_PAGES {
          out := true;
        } else if readers == 0 {
          out, hup := true, true;
        }
      }
    }

    /** `pipe_release` */
    method Release(reader: bool, writer: bool) returns (wakeReaders: bool, wakeWriters: bool)
      requires Valid() && (reader ==> readers > 0) && (writer ==> writers > 0)
      modifies `readers, `writers
      ensures Valid() && Contents() == old(Contents())
      ensures readers == old(readers) - (if reader then 1 else 0) && writers == old(writers) - (if writer then 1 else 0)
      ensures (wakeWriters <==> reader && readers == 0) && (wakeReaders <==> writer && writers == 0)
    {
      wakeReaders, wakeWriters := false, false;
      if reader {
        readers := readers - 1;
        wakeWriters := readers == 0;
      }
      if writer {
        writers := writers - 1;
        wakeReaders := writers == 0;
      }
    }
  }

  /** One byte goes in, and a read of it faults at once: the byte and its page are gone. Whatever the pipe
      still takes, that page is missing. */
  method FaultLosesByte(b: byte) returns (p: PipeInfo)
    ensures fresh(p) && p.Valid() && p.appended == [b] && p.delivered == [] && p.Contents() == []
    ensures p.lost == 1 && p.Space() == MAX_PAGES - 1
  {
    p := new PipeInfo();
    p.readers, p.writers := 1, 1;
    var k, r, _, _ := p.WriteSection([b], true, true, 1);
    assert Room(1, MAX_PAGES) == 1 && [b][..1] == [b];
    var _, r', _, _ := p.ReadSection(1, true, 0);
  }

  /** A writer without readers: the write breaks, but polling before it reports the hang-up if and only if
      the pipe is full. */
  method PollThenWrite(p: PipeInfo, data: seq<byte>, limit: nat) returns (hup: bool, r: Outcome)
    requires p.Valid() && p.readers == 0 && data != []
    modifies p
    ensures r == BrokenPipe && (hup <==> old(p.Space()) == 0)
  {
    var _, _, h := p.Poll(false, true);
    hup := h;
    var _, outcome, _, _ := p.WriteSection(data, true, true, limit);
    r := outcome;
  }
}
