/** The restartable renderer of src/fs/seq_file.c over a stable list. */
module SeqFile {
  import opened Common
  import opened Kbuf

  /** The text of an entry, as the pieces its render function prints one by one. */
  type Entry = seq<seq<byte>>

  function Text(e: Entry): seq<byte>
  {
    if e == [] then [] else e[0] + Text(e[1..])
  }

  function Texts(es: seq<Entry>): seq<byte>
  {
    if es == [] then [] else Texts(es[..|es| - 1]) + Text(es[|es| - 1])
  }

  lemma TextsStep(es: seq<Entry>, i: nat)
    requires i < |es|
    ensures Texts(es[..i + 1]) == Texts(es[..i]) + Text(es[i])
  {
    assert es[..i + 1][..i] == es[..i];
  }

  lemma {:induction false} TextTake(e: Entry, i: nat)
    requires i < |e|
    ensures Text(e[..i + 1]) == Text(e[..i]) + e[i]
  {
    if i == 0 {
      assert e[..1] == [e[0]] && Text([e[0]]) == e[0] + Text([]);
    } else {
      assert e[..i + 1][1..] == e[1..][..i] && e[..i][1..] == e[1..][..i - 1];
      TextTake(e[1..], i - 1);
    }
  }

  lemma Longer(a: seq<byte>, b: seq<byte>, c: seq<byte>)
    ensures a + b + c == a + (b + c)
  {
  }

  /** The list a seq file shows, with or without a header line before it. */
  datatype Ops = Ops(list: seq<Entry>, header: Option<Entry>)

  function Entries(ops: Ops): seq<Entry>
  {
    if ops.header.Some? then [ops.header.value] + ops.list else ops.list
  }

  // ---------------------------------------------------------------- rounds

  /** Where entry `k` starts in the text. */
  function Off(ops: Ops, k: nat): nat
    requires k <= |Entries(ops)|
  {
    |Texts(Entries(ops)[..k])|
  }

  /** The pages after the space check at the top of `__seq_file_fill`'s loop. */
  function Grown(pages: nat, offset: nat): nat
  {
    if pages * PG_SIZE < offset + PG_SIZE then pages + 1 else pages
  }

  lemma GrownOnce(pages: nat, offset: nat)
    requires offset <= pages * PG_SIZE
    ensures Grown(Grown(pages, offset), offset) == Grown(pages, offset) >= pages
  {
  }

  /** How far the inner loop gets from entry `i` on with so many pages. */
  function Stop(ops: Ops, i: nat, pages: nat): (j: nat)
    requires i <= |Entries(ops)|
    ensures i <= j <= |Entries(ops)|
    decreases |Entries(ops)| - i
  {
    if i == |Entries(ops)| || Off(ops, i + 1) > pages * PG_SIZE then i else Stop(ops, i + 1, pages)
  }

  lemma {:induction false} StopInside(ops: Ops, i: nat, pages: nat)
    requires i <= |Entries(ops)| && Off(ops, i) <= pages * PG_SIZE
    ensures Off(ops, Stop(ops, i, pages)) <= pages * PG_SIZE
    decreases |Entries(ops)| - i
  {
    if i < |Entries(ops)| && Off(ops, i + 1) <= pages * PG_SIZE { StopInside(ops, i + 1, pages); }
  }

  /** Every entry from `i` on fits, at the latest once a page has been added for it. */
  predicate Fits(ops: Ops, i: nat, pages: nat)
    requires i <= |Entries(ops)|
    decreases |Entries(ops)| - i
  {
    i < |Entries(ops)| ==>
      && Off(ops, i + 1) <= Grown(pages, Off(ops, i)) * PG_SIZE
      && Fits(ops, i + 1, if Off(ops, i + 1) <= pages * PG_SIZE then pages else Grown(pages, Off(ops, i)))
  }

  /** `n` rounds of the outer loop: the entry reached, and the pages. */
  function Rounds(ops: Ops, i: nat, pages: nat, n: nat): (r: (nat, nat))
    requires i <= |Entries(ops)|
    ensures r.0 <= |Entries(ops)|
    decreases n
  {
    if n == 0 then (i, pages)
    else var p := Grown(pages, Off(ops, i)); Rounds(ops, Stop(ops, i, p), p, n - 1)
  }

  /** The entries a round gets through make no difference to whether the rest fits. */
  lemma {:induction false} StopFits(ops: Ops, i: nat, pages: nat)
    requires i <= |Entries(ops)| && Off(ops, i) <= pages * PG_SIZE
    ensures Fits(ops, i, pages) <==> Fits(ops, Stop(ops, i, pages), pages)
    decreases |Entries(ops)| - i
  {
    if i < |Entries(ops)| && Off(ops, i + 1) <= pages * PG_SIZE {
      GrownOnce(pages, Off(ops, i));
      StopFits(ops, i + 1, pages);
    }
  }

  /** Neither does starting a new round at an entry that did not fit. */
  lemma AgainFits(ops: Ops, i: nat, pages: nat)
    requires i <= |Entries(ops)| && Off(ops, i) <= pages * PG_SIZE && Stop(ops, i, pages) == i
    ensures Fits(ops, i, pages) <==> Fits(ops, i, Grown(pages, Off(ops, i)))
  {
    GrownOnce(pages, Off(ops, i));
    assert i < |Entries(ops)| ==> Off(ops, i + 1) > pages * PG_SIZE;
  }

  /** A round keeps the question whether everything fits, and if it does, gets on. */
  lemma RoundFits(ops: Ops, i: nat, pages: nat)
    requires i < |Entries(ops)| && Off(ops, i) <= pages * PG_SIZE
    ensures var p := Grown(pages, Off(ops, i));
            var j := Stop(ops, i, p);
            && Off(ops, j) <= p * PG_SIZE
            && (Fits(ops, i, p) <==> Fits(ops, j, Grown(p, Off(ops, j))))
            && (Fits(ops, i, p) ==> j > i)
  {
    var p := Grown(pages, Off(ops, i));
    var j := Stop(ops, i, p);
    GrownOnce(pages, Off(ops, i));
    StopInside(ops, i, p);
    StopFits(ops, i, p);
    StopStays(ops, i, p);
    AgainFits(ops, j, p);
  }

  lemma {:induction false} StopStays(ops: Ops, i: nat, pages: nat)
    requires i <= |Entries(ops)|
    ensures Stop(ops, Stop(ops, i, pages), pages) == Stop(ops, i, pages)
    decreases |Entries(ops)| - i
  {
    if i < |Entries(ops)| && Off(ops, i + 1) <= pages * PG_SIZE { StopStays(ops, i + 1, pages); }
  }

  lemma {:induction false} NeverEnds(ops: Ops, i: nat, pages: nat, n: nat)
    requires i <= |Entries(ops)| && Off(ops, i) <= pages * PG_SIZE && !Fits(ops, i, Grown(pages, Off(ops, i)))
    ensures Rounds(ops, i, pages, n).0 < |Entries(ops)|
    decreases n
  {
    if n > 0 {
      RoundFits(ops, i, pages);
      var p := Grown(pages, Off(ops, i));
      NeverEnds(ops, Stop(ops, i, p), p, n - 1);
    }
  }

  lemma {:induction false} Ends(ops: Ops, i: nat, pages: nat) returns (n: nat)
    requires i <= |Entries(ops)| && Off(ops, i) <= pages * PG_SIZE && Fits(ops, i, Grown(pages, Off(ops, i)))
    ensures Rounds(ops, i, pages, n).0 == |Entries(ops)|
    decreases |Entries(ops)| - i
  {
    if i == |Entries(ops)| {
      n := 0;
    } else {
      RoundFits(ops, i, pages);
      var p := Grown(pages, Off(ops, i));
      n := Ends(ops, Stop(ops, i, p), p);
      n := n + 1;
    }
  }

  /** The loop of `__seq_file_fill` gets through the list in some number of rounds if and only if every entry
      fits, at its place in the text, into the pages there are by then or one more. */
  lemma EndsIff(ops: Ops, i: nat, pages: nat)
    requires i <= |Entries(ops)| && Off(ops, i) <= pages * PG_SIZE
    ensures (exists n: nat :: Rounds(ops, i, pages, n).0 == |Entries(ops)|) <==> Fits(ops, i, Grown(pages, Off(ops, i)))
  {
    if Fits(ops, i, Grown(pages, Off(ops, i))) {
      var n := Ends(ops, i, pages);
    } else {
      forall n: nat ensures Rounds(ops, i, pages, n).0 < |Entries(ops)| { NeverEnds(ops, i, pages, n); }
    }
  }

  /** Entries of at most a page always fit. */
  lemma {:induction false} SmallFits(ops: Ops, i: nat, pages: nat)
    requires i <= |Entries(ops)| && Off(ops, i) <= pages * PG_SIZE
    requires forall e :: e in Entries(ops) ==> |Text(e)| <= PG_SIZE
    ensures Fits(ops, i, pages)
    decreases |Entries(ops)| - i
  {
    if i < |Entries(ops)| {
      TextsStep(Entries(ops), i);
      assert Entries(ops)[i] in Entries(ops);
      SmallFits(ops, i + 1, if Off(ops, i + 1) <= pages * PG_SIZE then pages else Grown(pages, Off(ops, i)));
    }
  }

  /** A single entry longer than a page: the loop goes round for ever. */
  lemma OversizedEntry(text: seq<byte>, n: nat)
    requires |text| > PG_SIZE
    ensures var ops := Ops([[text]], None); Rounds(ops, 0, 0, n).0 < |Entries(ops)|
  {
    var ops := Ops([[text]], None);
    assert Text([text]) == text + Text([]);
    TextsStep(Entries(ops), 0);
    assert Off(ops, 0) == 0 && Off(ops, 1) == |text|;
    NeverEnds(ops, 0, 0, n);
  }

  class File {
    const ops: Ops
    const buf: Buffer
    var iterOffset: nat
    var done: bool
    var priv: Option<nat>       // the current node of the list
    var locks: nat              // taken by `start` and not yet given back by `end`
    var pos: int                // the offset of the open file

    ghost predicate Valid()
      reads this, buf
    {
      && buf.Valid() && iterOffset <= |Entries(ops)|
      && buf.Contents() == Texts(Entries(ops)[..iterOffset])
      && (done ==> iterOffset == |Entries(ops)|)
      && (!done ==> iterOffset < |Entries(ops)| || Entries(ops) == [])
    }

    /** The current entry is the one at `iterOffset`. */
    predicate AtEntry()
      reads this
    {
      && iterOffset < |Entries(ops)|
      && priv == (if ops.header.None? then Some(iterOffset) else if iterOffset == 0 then None else Some(iterOffset - 1))
    }

    constructor (ops: Ops)
      ensures this.ops == ops && Valid() && fresh(buf) && !done && iterOffset == 0 && locks == 0 && pos == 0
    {
      this.ops := ops;
      this.buf := new Buffer();
      iterOffset, done, priv, locks, pos := 0, false, None, 0, 0;
    }

    /** `__seq_list_iter`: walks from the first node to the one at `iterOffset`. */
    method ListIter(startOffset: nat) returns (node: Option<nat>)
      requires startOffset <= iterOffset
      modifies `done
      ensures var k := iterOffset - startOffset;
              if k < |ops.list| then node == Some(k) && done == old(done) else node == None && done
    {
      if ops.list == [] {
        done := true;
        return None;
      }
      var n := 0;
      var i := startOffset;
      while i < iterOffset
        invariant startOffset <= i <= iterOffset && n == i - startOffset && n < |ops.list| && done == old(done)
      {
        if n + 1 == |ops.list| {
          done := true;
          return None;
        }
        n, i := n + 1, i + 1;
      }
      return Some(n);
    }

    /** `seq_list_start` and `seq_list_start_header` */
    method Start()
      requires !done && iterOffset <= |Entries(ops)|
      modifies `done, `priv, `locks
      ensures locks == old(locks) + 1
      ensures if iterOffset < |Entries(ops)| then AtEntry() && !done else done
    {
      locks := locks + 1;
      if ops.header.None? {
        priv := ListIter(0);
      } else if iterOffset == 0 {
        priv := None;
      } else {
        priv := ListIter(1);
      }
    }

    /** `seq_list_next` */
    method Next()
      requires AtEntry() && !done
      modifies `done, `priv, `iterOffset
      ensures iterOffset == old(iterOffset) + 1
      ensures if iterOffset < |Entries(ops)| then AtEntry() && !done else done
    {
      iterOffset := iterOffset + 1;
      if priv.None? {
        if ops.list == [] {
          done := true;
        } else {
          priv := Some(0);
        }
      } else if priv.value + 1 == |ops.list| {
        done, priv := true, None;
      } else {
        priv := Some(priv.value + 1);
      }
    }

    /** A render function that prints the current entry with `seq_printf`, piece by piece. */
    method Render() returns (overflowed: bool)
      requires buf.Valid() && AtEntry()
      modifies buf
      ensures buf.Valid() && buf.pageCount == old(buf.pageCount)
      ensures var text := Text(Entries(ops)[iterOffset]);
              && (overflowed <==> |text| > old(buf.Free()))
              && (!overflowed ==> buf.Contents() == old(buf.Contents()) + text)
              && (overflowed ==> old(buf.Contents()) <= buf.Contents())
    {
      var e := if priv.None? then ops.header.value else ops.list[priv.value];
      ghost var was, free, shown := buf.Contents(), buf.Free(), [];
      overflowed := false;
      for i := 0 to |e|
        invariant buf.Valid() && buf.pageCount == old(buf.pageCount)
        invariant buf.Contents() == was + shown
        invariant if overflowed then |Text(e[..i])| > free else shown == Text(e[..i])
      {
        TextTake(e, i);
        var n := buf.Write(e[i]);
        Longer(was, shown, e[i][..n]);
        shown := shown + e[i][..n];
        if n < |e[i]| {
          overflowed := true;
        } else {
          assert e[i][..n] == e[i];
        }
      }
      assert e[..|e|] == e;
    }

    /** Renders the current entry and goes on to the next, or rolls back the entry that does not fit. */
    method RenderOne() returns (overflowed: bool)
      requires Valid() && AtEntry() && !done
      modifies buf, `iterOffset, `done, `priv
      ensures Valid() && buf.pageCount == old(buf.pageCount) && (!done ==> AtEntry())
      ensures overflowed <==> Off(ops, old(iterOffset) + 1) > buf.pageCount * PG_SIZE
      ensures if overflowed then iterOffset == old(iterOffset) && !done else iterOffset == old(iterOffset) + 1
      ensures Stop(ops, old(iterOffset), buf.pageCount) == Stop(ops, iterOffset, buf.pageCount)
      ensures overflowed ==> Stop(ops, iterOffset, buf.pageCount) == iterOffset
    {
      var start := buf.offset;
      TextsStep(Entries(ops), iterOffset);
      overflowed := Render();
      if overflowed {
        buf.ResetPos(start);
      } else {
        Next();
      }
    }

    /** The inner loop of `__seq_file_fill`: renders entries until the list is done or the space is. */
    method Round() returns (full: bool)
      requires Valid() && AtEntry() && !done
      modifies buf, `iterOffset, `done, `priv
      ensures Valid() && full == !done && buf.pageCount == old(buf.pageCount)
      ensures iterOffset == Stop(ops, old(iterOffset), buf.pageCount)
    {
      full := false;
      ghost var pages, stop := buf.pageCount, Stop(ops, iterOffset, buf.pageCount);
      while !full && !done
        invariant Valid() && (!done ==> AtEntry()) && (full ==> !done) && buf.pageCount == pages
        invariant Stop(ops, iterOffset, pages) == stop && (full ==> iterOffset == stop)
        decreases |Entries(ops)| - iterOffset, if full then 0 else 1
      {
        full := RenderOne();
      }
    }

    /** Everything still to be rendered fits. */
    predicate CanFill()
      reads this, buf
    {
      done || (iterOffset <= |Entries(ops)| && Fits(ops, iterOffset, Grown(buf.pageCount, buf.offset)))
    }

    /** The space check: at least a page is free afterwards. */
    method MakeSpace()
      requires Valid()
      modifies buf
      ensures Valid() && buf.pageCount == Grown(old(buf.pageCount), buf.offset) && buf.offset == old(buf.offset)
    {
      if buf.Free() < PG_SIZE {
        var _ := buf.AddPage(Some(seq(PG_SIZE, _ => 0)));
      }
    }

    /** One round of the outer loop, with a list that is not done. */
    method Turn()
      requires Valid() && CanFill() && !done && iterOffset < |Entries(ops)|
      modifies this`iterOffset, this`done, this`priv, this`locks, buf
      ensures Valid() && CanFill() && iterOffset > old(iterOffset) && locks == old(locks)
    {
      RoundFits(ops, iterOffset, buf.pageCount);
      MakeSpace();
      Start();
      var _ := Round();
      locks := locks - 1;
    }

    /** `__seq_file_fill`: however often it has to start again with more space, every entry is rendered
        exactly once and in order. Only for a list that is empty from the start is `end` not called. */
    method Fill()
      requires Valid() && CanFill()
      modifies this`iterOffset, this`done, this`priv, this`locks, buf
      ensures Valid() && done && buf.Contents() == Texts(Entries(ops))
      ensures locks == old(locks) + (if !old(done) && Entries(ops) == [] then 1 else 0)
    {
      assert Entries(ops)[..|Entries(ops)|] == Entries(ops);
      if Entries(ops) == [] {
        if !done {
          MakeSpace();
          Start();
        }
        return;
      }
      while !done
        invariant Valid() && CanFill() && locks == old(locks)
        decreases |Entries(ops)| - iterOffset
      {
        Turn();
      }
    }

    /** `seq_read` and `seq_file_read`: from a position in the text, the next part of it. */
    method SeqRead(len: nat) returns (r: Option<seq<byte>>)
      requires Valid() && CanFill() && pos <= OFF_MAX
      modifies this, buf
      ensures Valid() && CanFill()
      ensures (r.None? <==> old(pos) < 0 || len > OFF_MAX) && (r.None? ==> pos == old(pos))
      ensures r.Some? ==> done && pos == old(pos) + |r.value| && buf.Contents() == Texts(Entries(ops))
      ensures locks == old(locks) + if r.Some? && !old(done) && Entries(ops) == [] then 1 else 0
      ensures var text := Texts(Entries(ops));
              r.Some? && 0 <= old(pos) <= |text| ==> r.value == Chunk(text, old(pos), len)
    {
      if pos < 0 || len > OFF_MAX {
        return None;
      }
      Fill();
      var out := buf.Read(pos, len);
      pos := pos + |out|;
      r := Some(out);
    }

    /** `seq_lseek`: going back to the start throws the text away, to be rendered again. */
    method Lseek(off: int, whence: Whence)
      requires Valid() && (whence.End? ==> CanFill())
      modifies this, buf
      ensures Valid() && pos >= 0
      ensures var at := (match whence case Set => 0 case Current => old(pos) case End => |Texts(Entries(ops))|) + off;
              pos == if at < 0 then 0 else at
      ensures pos == 0 ==> !done && buf.Contents() == []
      ensures pos > 0 ==> if whence.End? then done && buf.Contents() == Texts(Entries(ops))
                          else done == old(done) && buf.Contents() == old(buf.Contents())
      ensures locks == old(locks) + if whence.End? && !old(done) && Entries(ops) == [] then 1 else 0
    {
      match whence {
        case Set => pos := off;
        case Current => pos := pos + off;
        case End =>
          Fill();
          pos := buf.offset + off;
      }
      if pos < 0 {
        pos := 0;
      }
      if pos == 0 {
        done, iterOffset := false, 0;
        buf.Clear();
      }
    }
  }

  // ---------------------------------------------------------------- successive reads

  const OFF_MAX: nat := 0x7FFF_FFFF

  datatype Whence = Set | Current | End

  /** Where a read of `len` bytes at `pos` ends. */
  function EndOf(size: nat, pos: nat, len: nat): (end: nat)
    requires pos <= size
    ensures pos <= end <= size
  {
    pos + Min(len, size - pos)
  }

  /** The next `len` bytes of a text, or what is left of it. */
  function Chunk(text: seq<byte>, pos: nat, len: nat): seq<byte>
    requires pos <= |text|
  {
    text[pos..EndOf(|text|, pos, len)]
  }

  /** Where reads of these sizes end, one after the other. */
  function EndOfAll(size: nat, pos: nat, lens: seq<nat>): (end: nat)
    requires pos <= size
    ensures pos <= end <= size
    decreases |lens|
  {
    if lens == [] then pos else EndOfAll(size, EndOf(size, pos, lens[0]), lens[1..])
  }

  function Sum(lens: seq<nat>): nat
  {
    if lens == [] then 0 else lens[0] + Sum(lens[1..])
  }

  /** Together they get as far as one read of all of it. */
  lemma {:induction false} ReadsAddUp(size: nat, pos: nat, lens: seq<nat>)
    requires pos <= size
    ensures EndOfAll(size, pos, lens) == EndOf(size, pos, Sum(lens))
    decreases |lens|
  {
    if lens != [] { ReadsAddUp(size, EndOf(size, pos, lens[0]), lens[1..]); }
  }

  lemma Cut(text: seq<byte>, a: nat, b: nat, c: nat)
    requires a <= b <= c <= |text|
    ensures text[a..b] + text[b..c] == text[a..c]
  {
  }

  /** A call of `seq_read` from inside the text. */
  method ReadOn(f: File, len: nat) returns (out: seq<byte>)
    requires f.Valid() && f.CanFill() && 0 <= f.pos <= |Texts(Entries(f.ops))| <= OFF_MAX && len <= OFF_MAX
    modifies f, f.buf
    ensures f.Valid() && f.CanFill() && 0 <= old(f.pos) <= f.pos == EndOf(|Texts(Entries(f.ops))|, old(f.pos), len)
    ensures out == Texts(Entries(f.ops))[old(f.pos)..f.pos]
  {
    var r := f.SeqRead(len);
    out := r.value;
  }

  /** Successive calls of `seq_read`, of any sizes: their results cut the text up without gap or repetition,
      and reach its end once they have asked for that much. */
  method ReadMany(f: File, lens: seq<nat>) returns (out: seq<byte>)
    requires f.Valid() && f.CanFill() && 0 <= f.pos <= |Texts(Entries(f.ops))| <= OFF_MAX
    requires forall i :: 0 <= i < |lens| ==> lens[i] <= OFF_MAX
    modifies f, f.buf
    ensures f.Valid() && f.pos == old(f.pos) + |out|
    ensures var text := Texts(Entries(f.ops)); out == Chunk(text, old(f.pos), Sum(lens))
  {
    ghost var text, size := Texts(Entries(f.ops)), |Texts(Entries(f.ops))|;
    out := [];
    for i := 0 to |lens|
      invariant f.Valid() && f.CanFill() && 0 <= old(f.pos) <= f.pos <= size
      invariant out == text[old(f.pos)..f.pos]
      invariant EndOfAll(size, f.pos, lens[i..]) == EndOfAll(size, old(f.pos), lens)
    {
      assert lens[i..][1..] == lens[i + 1..];
      ghost var at := f.pos;
      var r := ReadOn(f, lens[i]);
      Cut(text, old(f.pos), at, f.pos);
      out := out + r;
    }
    assert lens[|lens|..] == [];
    ReadsAddUp(size, old(f.pos), lens);
  }
}
