/** Reading and writing files through their block maps: the generic functions of src/fs/file.c. */
module FileIo {
  import opened Common

  const OFF_MAX: nat := 0x7FFF_FFFF

  /** A file: its size and the device blocks its sectors are in. A sector without one is a hole. */
  datatype Inode = Inode(size: nat, bmap: map<nat, nat>)

  datatype Disk = Disk(blockSize: nat, blocks: map<nat, seq<byte>>, free: seq<nat>, files: map<nat, Inode>)

  // ---------------------------------------------------------------- sectors

  /** The sector of byte `k`, and where a sector starts. */
  function Sec(k: nat, size: nat): nat
    requires size > 0
  {
    if k < size then 0 else 1 + Sec(k - size, size)
  }

  function Start(s: nat, size: nat): nat
  {
    if s == 0 then 0 else Start(s - 1, size) + size
  }

  lemma {:induction false} StartIsProduct(s: nat, size: nat)
    ensures Start(s, size) == s * size
  {
    if s > 0 { StartIsProduct(s - 1, size); }
  }

  lemma {:induction false} SecAt(s: nat, o: nat, size: nat)
    requires o < size
    ensures Sec(Start(s, size) + o, size) == s
  {
    if s > 0 { SecAt(s - 1, o, size); }
  }

  lemma {:induction false} InSec(k: nat, size: nat)
    requires size > 0
    ensures Start(Sec(k, size), size) <= k < Start(Sec(k, size), size) + size
  {
    if k >= size { InSec(k - size, size); }
  }

  lemma Grows(a: nat, b: nat, size: nat)
    requires a <= b
    ensures a * size <= b * size
  {
  }

  lemma SecIsDivision(k: nat, size: nat)
    requires size > 0
    ensures Sec(k, size) == k / size
  {
    InSec(k, size);
    StartIsProduct(Sec(k, size), size);
    DivisionBounds(k, size);
    OneQuotient(k, size, Sec(k, size), k / size);
  }

  lemma DivisionBounds(k: nat, size: nat)
    requires size > 0
    ensures (k / size) * size <= k < (k / size) * size + size
  {
  }

  lemma OneQuotient(k: nat, size: nat, s: nat, q: nat)
    requires s * size <= k < s * size + size && q * size <= k < q * size + size
    ensures s == q
  {
    if q < s { Grows(q + 1, s, size); }
    if s < q { Grows(s + 1, q, size); }
  }

  // ---------------------------------------------------------------- contents

  predicate Sized(d: Disk)
  {
    d.blockSize > 0 && forall b :: b in d.blocks ==> |d.blocks[b]| == d.blockSize
  }

  /** Byte `k` of a file, whether or not it is inside its size. */
  function ByteAt(d: Disk, i: nat, k: nat): byte
    requires Sized(d) && i in d.files
  {
    var s, bmap := Sec(k, d.blockSize), d.files[i].bmap;
    if s in bmap && bmap[s] in d.blocks then
      InSec(k, d.blockSize);
      d.blocks[bmap[s]][k - Start(s, d.blockSize)]
    else 0
  }

  function Bytes(d: Disk, i: nat, from: nat, n: nat): (r: seq<byte>)
    requires Sized(d) && i in d.files
    ensures |r| == n && forall k :: 0 <= k < n ==> r[k] == ByteAt(d, i, from + k)
  {
    seq(n, k requires 0 <= k < n => ByteAt(d, i, from + k))
  }

  /** What the file holds. */
  function Content(d: Disk, i: nat): seq<byte>
    requires Sized(d) && i in d.files
  {
    Bytes(d, i, 0, d.files[i].size)
  }

  predicate InFile(d: Disk, i: nat, s: nat)
  {
    i in d.files && s in d.files[i].bmap
  }

  function DevBlock(d: Disk, i: nat, s: nat): nat
    requires InFile(d, i, s)
  {
    d.files[i].bmap[s]
  }

  /** Every mapped block is on the device, belongs to one sector of one file and is not free. */
  ghost predicate MapsOk(d: Disk)
  {
    && Distinct(d.free) && (forall b :: b in d.free ==> b in d.blocks)
    && (forall i, s :: InFile(d, i, s) ==> DevBlock(d, i, s) in d.blocks && DevBlock(d, i, s) !in d.free)
    && (forall i, s, j, t :: InFile(d, i, s) && InFile(d, j, t) && DevBlock(d, i, s) == DevBlock(d, j, t) ==>
          i == j && s == t)
  }

  lemma SameMaps(d: Disk, d': Disk)
    requires MapsOk(d) && d'.free == d.free && d'.blocks.Keys == d.blocks.Keys && d'.files.Keys == d.files.Keys
    requires forall i :: i in d.files ==> d'.files[i].bmap == d.files[i].bmap
    ensures MapsOk(d')
  {
    forall i, s | InFile(d', i, s) ensures DevBlock(d', i, s) in d'.blocks && DevBlock(d', i, s) !in d'.free {
      assert InFile(d, i, s);
    }
    forall i, s, j, t | InFile(d', i, s) && InFile(d', j, t) && DevBlock(d', i, s) == DevBlock(d', j, t)
      ensures i == j && s == t
    {
      assert InFile(d, i, s) && InFile(d, j, t);
    }
  }

  /** The block maps are sound, and nothing but zeros lies past the end of a file. */
  ghost predicate Valid(d: Disk)
  {
    && Sized(d) && MapsOk(d)
    && (forall i, k: nat :: i in d.files && d.files[i].size <= k ==> ByteAt(d, i, k) == 0)
  }

  // ---------------------------------------------------------------- reading

  /** A byte of a block, or of a hole. */
  function BlockByte(d: Disk, i: nat, s: nat, o: nat): byte
    requires Sized(d) && i in d.files && o < d.blockSize
  {
    if s in d.files[i].bmap && d.files[i].bmap[s] in d.blocks then d.blocks[d.files[i].bmap[s]][o] else 0
  }

  lemma AtBlock(d: Disk, i: nat, s: nat, o: nat)
    requires Sized(d) && i in d.files && o < d.blockSize
    ensures ByteAt(d, i, Start(s, d.blockSize) + o) == BlockByte(d, i, s, o)
  {
    SecAt(s, o, d.blockSize);
  }

  /** One turn of the read loop extends what was read. */
  lemma Extended(d: Disk, i: nat, off: nat, n: nat, s: nat, o: nat, piece: seq<byte>)
    requires Sized(d) && i in d.files && o + |piece| <= d.blockSize && Start(s, d.blockSize) + o == off + n
    requires forall k :: 0 <= k < |piece| ==> piece[k] == BlockByte(d, i, s, o + k)
    ensures Bytes(d, i, off, n) + piece == Bytes(d, i, off, n + |piece|)
  {
    forall k | 0 <= k < |piece| ensures ByteAt(d, i, off + (n + k)) == piece[k] { AtBlock(d, i, s, o + k); }
    var a, b := Bytes(d, i, off, n) + piece, Bytes(d, i, off, n + |piece|);
    forall k | 0 <= k < |a| ensures a[k] == b[k] {
      if k >= n { assert ByteAt(d, i, off + (n + (k - n))) == piece[k - n]; }
    }
  }

  /** `off + len` in a 32-bit `off_t` */
  function Add32(a: nat, b: nat): int
  {
    if a + b <= OFF_MAX then a + b else a + b - 2 * (OFF_MAX + 1)
  }

  /** How many bytes `fs_file_generic_pread` sets out to read; none if negative. */
  function Clip(size: nat, off: nat, len: nat): int
  {
    if Add32(off, len) > size then size - off else len
  }

  function Positive(n: int): nat
  {
    if n < 0 then 0 else n
  }

  /** Reading stops at the end of the file if and only if `off + len` does not overflow. */
  lemma ClipExactIff(size: nat, off: nat, len: nat)
    requires size <= OFF_MAX && off <= OFF_MAX && len <= OFF_MAX
    ensures Positive(Clip(size, off, len)) == Min(len, Positive(size - off)) <==> off + len <= OFF_MAX
  {
  }

  // ---------------------------------------------------------------- writing

  /** `(off_t)len` */
  function Signed(len: nat): int
  {
    if len <= OFF_MAX then len else len - 2 * (OFF_MAX + 1)
  }

  /** The test of `fs_file_generic_write` for lengths that are too large rejects none, and the length it goes on
      with is the one asked for if and only if that fits in `off_t`. */
  lemma LengthKeptIff(len: nat)
    requires len < 2 * (OFF_MAX + 1)
    ensures !(Signed(len) > OFF_MAX && Signed(len) > 0)
    ensures Positive(Signed(len)) == len <==> len <= OFF_MAX
  {
  }

  /** `bmap_alloc`: a hole gets a free block, cleared. */
  function BmapAlloc(d: Disk, i: nat, s: nat): (r: (Disk, Option<nat>))
    requires i in d.files
  {
    var x := d.files[i];
    if s in x.bmap then (d, Some(x.bmap[s]))
    else if d.free == [] then (d, None)
    else
      var b := d.free[0];
      (d.(blocks := d.blocks[b := seq(d.blockSize, _ => 0)], free := d.free[1..],
          files := d.files[i := x.(bmap := x.bmap[s := b])]),
       Some(b))
  }

  /** The same files with the same sizes. */
  predicate SameFiles(d: Disk, d': Disk)
  {
    && d'.blockSize == d.blockSize && d'.files.Keys == d.files.Keys
    && forall i :: i in d.files ==> d'.files[i].size == d.files[i].size
  }

  lemma AllocSized(d: Disk, i: nat, s: nat)
    requires Sized(d) && i in d.files
    ensures var (d', b) := BmapAlloc(d, i, s);
            Sized(d') && SameFiles(d, d') && (b.Some? ==> InFile(d', i, s) && DevBlock(d', i, s) == b.value)
  {
  }

  /** Filling a hole with a cleared block changes no byte of any file. */
  lemma AllocBytes(d: Disk, i: nat, s: nat, j: nat, k: nat)
    requires Valid(d) && i in d.files && j in d.files
    ensures AllocFine(d, i, s) && ByteAt(BmapAlloc(d, i, s).0, j, k) == ByteAt(d, j, k)
  {
    AllocSized(d, i, s);
    var t := Sec(k, d.blockSize);
    InSec(k, d.blockSize);
    assert InFile(d, j, t) ==> DevBlock(d, j, t) !in d.free;
    assert InFile(d, i, s) || d.free == [] || d.free[0] in d.free;
  }

  predicate AllocFine(d: Disk, i: nat, s: nat)
    requires i in d.files
  {
    Sized(BmapAlloc(d, i, s).0) && SameFiles(d, BmapAlloc(d, i, s).0)
  }

  lemma AllocKeeps(d: Disk, i: nat, s: nat)
    requires Valid(d) && i in d.files
    ensures Valid(BmapAlloc(d, i, s).0)
  {
    AllocSized(d, i, s);
    var d' := BmapAlloc(d, i, s).0;
    if d' != d {
      assert d.free == [d.free[0]] + d.free[1..];
      DistinctTail(d.free);
      forall j, t | InFile(d', j, t) ensures DevBlock(d', j, t) in d'.blocks && DevBlock(d', j, t) !in d'.free {
        assert InFile(d, j, t) || (j == i && t == s);
      }
      forall j, t, j2, t2 | InFile(d', j, t) && InFile(d', j2, t2) && DevBlock(d', j, t) == DevBlock(d', j2, t2)
        ensures j == j2 && t == t2
      {
        assert InFile(d, j, t) ==> DevBlock(d, j, t) !in d.free;
        assert InFile(d, j2, t2) ==> DevBlock(d, j2, t2) !in d.free;
      }
      forall j, k: nat | j in d'.files && d'.files[j].size <= k ensures ByteAt(d', j, k) == 0 {
        AllocBytes(d, i, s, j, k);
      }
    }
  }

  /** `piece` copied into a file's block. */
  function Poke(d: Disk, i: nat, s: nat, o: nat, piece: seq<byte>): Disk
    requires Sized(d) && InFile(d, i, s) && DevBlock(d, i, s) in d.blocks && o + |piece| <= d.blockSize
  {
    var b := DevBlock(d, i, s);
    d.(blocks := d.blocks[b := d.blocks[b][..o] + piece + d.blocks[b][o + |piece|..]])
  }

  /** Only the bytes of that file at that place change. */
  lemma PokeBytes(d: Disk, i: nat, s: nat, o: nat, piece: seq<byte>, j: nat, k: nat)
    requires Valid(d) && InFile(d, i, s) && o + |piece| <= d.blockSize && j in d.files
    ensures var d', at := Poke(d, i, s, o, piece), Start(s, d.blockSize) + o;
            Sized(d') && ByteAt(d', j, k) == if j == i && at <= k < at + |piece| then piece[k - at] else ByteAt(d, j, k)
  {
    var t, at := Sec(k, d.blockSize), Start(s, d.blockSize) + o;
    var d', b := Poke(d, i, s, o, piece), DevBlock(d, i, s);
    assert |d'.blocks[b]| == d.blockSize && Sized(d');
    InSec(k, d.blockSize);
    if at <= k < at + |piece| { SecAt(s, k - Start(s, d.blockSize), d.blockSize); }
    assert InFile(d, j, t) && DevBlock(d, j, t) == b ==> j == i && t == s;
    if j == i && t == s {
      assert ByteAt(d', j, k) == d'.blocks[b][k - Start(s, d.blockSize)];
    } else {
      assert ByteAt(d', j, k) == ByteAt(d, j, k);
    }
  }

  lemma PokeKeeps(d: Disk, i: nat, s: nat, o: nat, piece: seq<byte>)
    requires Valid(d) && InFile(d, i, s) && o + |piece| <= d.blockSize
    requires Start(s, d.blockSize) + o + |piece| <= d.files[i].size
    ensures Valid(Poke(d, i, s, o, piece))
  {
    var d' := Poke(d, i, s, o, piece);
    PokeBytes(d, i, s, o, piece, i, 0);
    forall j, k: nat | j in d'.files && d'.files[j].size <= k ensures ByteAt(d', j, k) == 0 {
      PokeBytes(d, i, s, o, piece, j, k);
    }
    SameMaps(d, d');
  }

  /** `d` is `d0` with `data` written into file `i` at `off`, and nothing else changed anywhere. */
  ghost predicate Wrote(d0: Disk, d: Disk, i: nat, off: nat, data: seq<byte>)
    requires Sized(d0) && Sized(d)
  {
    && SameFiles(d0, d)
    && forall j, k: nat :: j in d.files ==>
         ByteAt(d, j, k) == if j == i && off <= k < off + |data| then data[k - off] else ByteAt(d0, j, k)
  }

  /** One turn of the write loop. */
  lemma WroteMore(d0: Disk, d: Disk, i: nat, off: nat, data: seq<byte>, n: nat, c: nat, s: nat, o: nat)
    requires Sized(d0) && Valid(d) && n + c <= |data| && Wrote(d0, d, i, off, data[..n]) && i in d.files
    requires o + c <= d.blockSize && Start(s, d.blockSize) + o == off + n && off + n + c <= d.files[i].size
    requires BmapAlloc(d, i, s).1.Some?
    ensures var d1 := BmapAlloc(d, i, s).0;
            && Sized(d1) && InFile(d1, i, s) && DevBlock(d1, i, s) in d1.blocks && d1.blockSize == d.blockSize
            && var d2 := Poke(d1, i, s, o, data[n..n + c]);
               Valid(d2) && Wrote(d0, d2, i, off, data[..n + c])
  {
    AllocKeeps(d, i, s);
    AllocSized(d, i, s);
    var d1 := BmapAlloc(d, i, s).0;
    PokeKeeps(d1, i, s, o, data[n..n + c]);
    var d2 := Poke(d1, i, s, o, data[n..n + c]);
    forall j, k: nat | j in d2.files
      ensures ByteAt(d2, j, k) == if j == i && off <= k < off + |data[..n + c]| then data[..n + c][k - off]
              else ByteAt(d0, j, k)
    {
      PokeBytes(d1, i, s, o, data[n..n + c], j, k);
      AllocBytes(d, i, s, j, k);
    }
  }

  /** `data` laid over a file at `at`, after the file is zero-extended to reach `at + len`. */
  function Overlay(c: seq<byte>, at: nat, len: nat, data: seq<byte>): (r: seq<byte>)
    requires |data| <= len
    ensures |r| == (if at + len > |c| then at + len else |c|) && r[at..at + |data|] == data
    ensures forall k :: 0 <= k < |r| && !(at <= k < at + |data|) ==> r[k] == if k < |c| then c[k] else 0
  {
    var size := if at + len > |c| then at + len else |c|;
    seq(size, k requires 0 <= k < size => if at <= k < at + |data| then data[k - at] else if k < |c| then c[k] else 0)
  }

  /** `truncate` to a larger size */
  function Grow(d: Disk, i: nat, size: nat): Disk
    requires i in d.files
  {
    d.(files := d.files[i := d.files[i].(size := size)])
  }

  /** Growing a file moves no byte, so what it now shows is zeros. */
  lemma GrowKeeps(d: Disk, i: nat, size: nat)
    requires Valid(d) && i in d.files && size >= d.files[i].size
    ensures Valid(Grow(d, i, size)) && Grow(d, i, size).files.Keys == d.files.Keys
    ensures forall j, k: nat :: j in d.files ==> ByteAt(Grow(d, i, size), j, k) == ByteAt(d, j, k)
  {
    var d' := Grow(d, i, size);
    forall j, k: nat | j in d.files ensures ByteAt(d', j, k) == ByteAt(d, j, k) { InSec(k, d.blockSize); }
    SameMaps(d, d');
  }

  lemma WroteContents(d0: Disk, d1: Disk, d: Disk, i: nat, at: nat, len: nat, data: seq<byte>)
    requires Valid(d0) && Sized(d1) && Sized(d) && i in d0.files && |data| <= len
    requires d1.files.Keys == d0.files.Keys
    requires forall j, k: nat :: j in d0.files ==> ByteAt(d1, j, k) == ByteAt(d0, j, k)
    requires forall j :: j in d0.files && j != i ==> d1.files[j].size == d0.files[j].size
    requires d1.files[i].size == if at + len > d0.files[i].size then at + len else d0.files[i].size
    requires Wrote(d1, d, i, at, data)
    ensures Content(d, i) == Overlay(Content(d0, i), at, len, data)
    ensures forall j :: j in d.files && j != i ==> Content(d, j) == Content(d0, j)
  {
    var a, b := Content(d, i), Overlay(Content(d0, i), at, len, data);
    forall k | 0 <= k < |a| ensures a[k] == b[k] {
      assert a[k] == ByteAt(d, i, 0 + k);
      if k < d0.files[i].size { assert Content(d0, i)[k] == ByteAt(d0, i, 0 + k); }
    }
    forall j | j in d.files && j != i ensures Content(d, j) == Content(d0, j) {
      forall k: nat | k < d.files[j].size ensures ByteAt(d, j, k) == ByteAt(d0, j, k) { }
    }
  }

  datatype Result<T> = Ok(value: T) | Err(error: Error)
  datatype Error = BadFile | Invalid | NoSpace

  class Volume {
    var d: Disk

    /** `fs_file_generic_pread` */
    method Pread(i: nat, readable: bool, off: int, len0: nat) returns (r: Result<seq<byte>>)
      requires Valid(d) && i in d.files && d.files[i].size <= OFF_MAX && off <= OFF_MAX
      ensures r.Err? <==> !readable || off < 0 || len0 > OFF_MAX
      ensures r.Ok? ==> r.value == Bytes(d, i, off, Positive(Clip(d.files[i].size, off, len0)))
      ensures r.Ok? && off + len0 <= OFF_MAX ==>
                r.value == (if off <= d.files[i].size then Content(d, i)[off..Min(off + len0, d.files[i].size)] else [])
    {
      if !readable {
        return Err(BadFile);
      }
      if off < 0 || len0 > OFF_MAX {
        return Err(Invalid);
      }
      var out := ReadLoop(i, off, Clip(d.files[i].size, off, len0));
      r := Ok(out);
    }

    method ReadLoop(i: nat, off: nat, len: int) returns (out: seq<byte>)
      requires Valid(d) && i in d.files
      ensures out == Bytes(d, i, off, Positive(len))
    {
      var blockSize := d.blockSize;
      var sec: nat := off / blockSize;
      var secOff: int := off - sec * blockSize;
      SecIsDivision(off, blockSize);
      StartIsProduct(sec, blockSize);
      InSec(off, blockSize);
      out := [];
      while |out| < len
        invariant |out| <= Positive(len) && out == Bytes(d, i, off, |out|)
        invariant |out| < len ==> 0 <= secOff < blockSize && Start(sec, blockSize) + secOff == off + |out|
      {
        var left := Min(len - |out|, blockSize - secOff);
        var bmap := d.files[i].bmap;
        var piece := if sec in bmap && bmap[sec] in d.blocks then d.blocks[bmap[sec]][secOff..secOff + left]
            else seq(left, _ => 0);
        Extended(d, i, off, |out|, sec, secOff, piece);
        out := out + piece;
        secOff := 0;
        sec := sec + 1;
      }
    }

    /** The loop of `fs_file_generic_write`. It stops early only when a hole cannot be given a block. */
    method WriteLoop(i: nat, off: nat, data: seq<byte>) returns (n: nat)
      requires Valid(d) && i in d.files && off + |data| <= d.files[i].size
      modifies this
      ensures Valid(d) && n <= |data| && Wrote(old(d), d, i, off, data[..n])
      ensures n < |data| ==> d.free == []
    {
      var blockSize := d.blockSize;
      var sec: nat := off / blockSize;
      var secOff: int := off - sec * blockSize;
      SecIsDivision(off, blockSize);
      StartIsProduct(sec, blockSize);
      InSec(off, blockSize);
      n := 0;
      while n < |data|
        invariant n <= |data| && Valid(d) && d.blockSize == blockSize && Wrote(old(d), d, i, off, data[..n])
        invariant n < |data| ==> 0 <= secOff < blockSize && Start(sec, blockSize) + secOff == off + n
      {
        var left := Min(|data| - n, blockSize - secOff);
        var (d1, onDev) := BmapAlloc(d, i, sec);
        if onDev.None? {
          return;
        }
        WroteMore(old(d), d, i, off, data, n, left, sec, secOff);
        d := Poke(d1, i, sec, secOff, data[n..n + left]);
        n := n + left;
        secOff := 0;
        sec := sec + 1;
      }
    }

    /** Extends the file if the range reaches past its end. */
    method MakeRoom(i: nat, pos: nat, len: int)
      requires Valid(d) && i in d.files
      modifies this
      ensures Valid(d) && d.files.Keys == old(d.files.Keys)
      ensures forall j, k: nat :: j in d.files ==> ByteAt(d, j, k) == ByteAt(old(d), j, k)
      ensures forall j :: j in d.files && j != i ==> d.files[j].size == old(d).files[j].size
      ensures d.files[i].size == if pos + len > old(d).files[i].size then pos + len else old(d).files[i].size
    {
      if d.files[i].size - pos < len {
        GrowKeeps(d, i, pos + len);
        d := Grow(d, i, pos + len);
      }
    }

    /** `fs_file_generic_write`, with the position of the open file. The range written is replaced and the
        file zero-extended to hold it; no other file changes, and there is no room exactly when some hole
        finds no free block. A length that does not fit in `off_t` is taken for a negative one: nothing is
        written, success is reported, and the file may still be extended. */
    method Write(i: nat, writable: bool, append: bool, pos0: nat, data: seq<byte>) returns (r: Result<nat>, pos: nat)
      requires Valid(d) && i in d.files
      requires var at := if append then d.files[i].size else pos0;
               if |data| <= OFF_MAX then at + |data| <= OFF_MAX else at <= OFF_MAX && |data| < 2 * (OFF_MAX + 1)
      modifies this
      ensures Valid(d) && d.files.Keys == old(d.files.Keys)
      ensures r.Err? && r.error == BadFile <==> !writable
      ensures !writable ==> d == old(d) && pos == pos0
      ensures forall j :: j in d.files && j != i ==> Content(d, j) == Content(old(d), j)
      ensures var at := if append then old(d).files[i].size else pos0;
              && (r.Ok? && |data| <= OFF_MAX ==>
                    && r.value == |data|
                    && pos == at + |data|
                    && Content(d, i) == Overlay(Content(old(d), i), at, |data|, data))
              && (writable && r.Err? ==> && r.error == NoSpace && d.free == [] && pos == at
                                         && exists n | 0 <= n < |data| ::
                                              Content(d, i) == Overlay(Content(old(d), i), at, |data|, data[..n]))
              && (writable && |data| > OFF_MAX ==>
                    && r == Ok(0) && pos == at
                    && Content(d, i) == Overlay(Content(old(d), i), Positive(at + Signed(|data|)), 0, []))
    {
      pos := pos0;
      if !writable {
        return Err(BadFile), pos;
      }
      if append {
        pos := d.files[i].size;
      }
      ghost var d0 := d;
      var len := Signed(|data|);
      MakeRoom(i, pos, len);
      ghost var d1 := d;
      if len < 0 {
        WroteContents(d0, d1, d, i, Positive(pos + len), 0, []);
        return Ok(0), pos;
      }
      var n := WriteLoop(i, pos, data);
      WroteContents(d0, d1, d, i, pos, |data|, data[..n]);
      if n < |data| {
        r := Err(NoSpace);
      } else {
        assert data[..n] == data;
        r, pos := Ok(n), pos + n;
      }
    }
  }

  /** What a successful write wrote is what reading that range then returns. */
  method WriteThenRead(v: Volume, i: nat, pos: nat, data: seq<byte>) returns (w: Result<nat>, r: Result<seq<byte>>)
    requires Valid(v.d) && i in v.d.files && v.d.files[i].size <= OFF_MAX && pos + |data| <= OFF_MAX
    modifies v
    ensures Valid(v.d) && (w.Ok? ==> r == Ok(data))
  {
    var end;
    w, end := v.Write(i, true, false, pos, data);
    if w.Ok? {
      ghost var c := Content(v.d, i);
      assert |c| == v.d.files[i].size && c[pos..pos + |data|] == data;
      r := v.Pread(i, true, pos, |data|);
    } else {
      r := Err(w.error);
    }
  }
}
