/**
The MTD RAM flash and the tool that flashes a file onto one of its partitions.

`MtdChip` is the driver. `MtdFile` is an open partition device: the MTD core's range
checks and partition offset, and the character device's clamping at the end.
`InFile` is the file being flashed; each read returns any number of bytes from one
to what was asked for and is left, so both loops see arbitrary chunk sizes. Reads
do not fail and the file does not shrink while the tool runs.
*/
module VirtMtd {
  import opened Arithmetic
  import opened Memory
  import opened Kernel

  const BUFSIZE: nat := 10 * 1024

  // -------------------------------------------------------------- the driver

  class MtdChip {
    const buffer: array<byte>
    const erasesize: nat

    constructor (buffer: array<byte>, erasesize: nat)
      requires erasesize > 0
      ensures this.buffer == buffer && this.erasesize == erasesize
    {
      this.buffer := buffer;
      this.erasesize := erasesize;
    }

    /** virt_mtd_erase */
    method Erase(addr: nat, len: nat) returns (ret: int)
      requires erasesize > 0 && addr + len <= buffer.Length
      modifies buffer
      ensures ret == if addr % erasesize == 0 && len % erasesize == 0 then 0 else -EINVAL
      ensures buffer[..] == if ret == 0 then Splice(old(buffer[..]), addr, Repeat(0xff, len)) else old(buffer[..])
    {
      if addr % erasesize != 0 {
        return -EINVAL;
      }
      if len % erasesize != 0 {
        return -EINVAL;
      }
      MemSet(buffer, addr, 0xff, len);
      return 0;
    }

    /** virt_mtd_read */
    method Read(from: nat, len: nat, buf: array<byte>) returns (retlen: nat)
      requires buf != buffer && from + len <= buffer.Length && len <= buf.Length
      modifies buf
      ensures retlen == len && buf[..] == Splice(old(buf[..]), 0, buffer[from..from + len])
    {
      MemCpy(buf, 0, buffer, from, len);
      retlen := len;
    }

    /** virt_mtd_write */
    method Write(to: nat, len: nat, buf: array<byte>) returns (retlen: nat)
      requires buf != buffer && to + len <= buffer.Length && len <= buf.Length
      modifies buffer
      ensures retlen == len && buffer[..] == Splice(old(buffer[..]), to, buf[..len])
    {
      MemCpy(buffer, to, buf, 0, len);
      retlen := len;
    }
  }

  // ---------------------------------------------------------- the partitions

  /** A table entry; None stands for MTDPART_SIZ_FULL and MTDPART_OFS_APPEND. */
  datatype PartSpec = PartSpec(size: Option<nat>, offset: Option<nat>)

  datatype Part = Part(offset: nat, size: nat)

  predicate Placeable(spec: PartSpec, at: nat, total: nat) {
    var offset := if spec.offset.Some? then spec.offset.value else at;
    offset <= total && (spec.size.Some? ==> offset + spec.size.value <= total)
  }

  function Place(spec: PartSpec, at: nat, total: nat): (p: Part)
    requires Placeable(spec, at, total)
    ensures p.offset + p.size <= total
  {
    var offset := if spec.offset.Some? then spec.offset.value else at;
    Part(offset, if spec.size.Some? then spec.size.value else total - offset)
  }

  const PART1 := PartSpec(Some(16 * 1024), Some(0))
  const PART2 := PartSpec(None, None)

  /** The driver's table cuts any chip of 16K or more in two: nothing shared, nothing left over. */
  lemma TableTiles(total: nat)
    requires total >= 16 * 1024
    ensures Placeable(PART1, 0, total)
    ensures var a := Place(PART1, 0, total);
            && a.offset == 0 && a.size == 16 * 1024
            && Placeable(PART2, a.offset + a.size, total)
            && (var b := Place(PART2, a.offset + a.size, total);
                && b.offset == a.offset + a.size
                && b.offset + b.size == total
                && (total % 512 == 0 ==> a.size % 512 == b.offset % 512 == b.size % 512 == 0))
  {
  }

  /** An open partition device. */
  class MtdFile {
    const chip: MtdChip
    const part: Part
    var pos: nat

    constructor (chip: MtdChip, part: Part)
      ensures this.chip == chip && this.part == part && pos == 0
    {
      this.chip := chip;
      this.part := part;
      pos := 0;
    }

    ghost predicate Valid()
      reads this
    {
      chip.erasesize > 0 && part.offset + part.size <= chip.buffer.Length && pos <= part.size
    }

    /** MEMERASE, through mtd_erase: range check, nothing to do for length 0. */
    method MemErase(start: nat, len: nat) returns (ret: int)
      requires Valid()
      modifies chip.buffer
      ensures ret == 0 || ret == -EINVAL
      ensures ret == 0 <==>
              && start < part.size && start + len <= part.size
              && (len == 0 || ((part.offset + start) % chip.erasesize == 0 && len % chip.erasesize == 0))
      ensures chip.buffer[..] == if ret == 0 && len > 0
                                 then Splice(old(chip.buffer[..]), part.offset + start, Repeat(0xff, len))
                                 else old(chip.buffer[..])
    {
      if start >= part.size || len > part.size - start {
        return -EINVAL;
      }
      if len == 0 {
        return 0;
      }
      ret := chip.Erase(part.offset + start, len);
    }

    method Write(buf: array<byte>, len: nat) returns (ret: int)
      requires Valid() && buf != chip.buffer && len <= buf.Length
      modifies chip.buffer, this`pos
      ensures Valid()
      ensures var n := if old(pos) + len > part.size then part.size - old(pos) else len;
              && ret == (if old(pos) == part.size then -ENOSPC else n)
              && pos == old(pos) + n
              && chip.buffer[..] == Splice(old(chip.buffer[..]), part.offset + old(pos), buf[..n])
    {
      if pos == part.size {
        assert Splice(chip.buffer[..], part.offset + pos, buf[..0]) == chip.buffer[..];
        return -ENOSPC;
      }
      var count := if pos + len > part.size then part.size - pos else len;
      var retlen := chip.Write(part.offset + pos, count, buf);
      pos := pos + retlen;
      ret := retlen;
    }

    method Read(buf: array<byte>, len: nat) returns (ret: nat)
      requires Valid() && buf != chip.buffer && len <= buf.Length
      modifies buf, this`pos
      ensures Valid()
      ensures ret == if old(pos) + len > part.size then part.size - old(pos) else len
      ensures pos == old(pos) + ret
      ensures buf[..ret] == chip.buffer[part.offset + old(pos)..part.offset + pos] && buf[ret..] == old(buf[ret..])
    {
      var count := if pos + len > part.size then part.size - pos else len;
      ret := chip.Read(part.offset + pos, count, buf);
      pos := pos + ret;
    }
  }

  /** The file to flash. */
  class InFile {
    const data: seq<byte>
    var pos: nat

    constructor (data: seq<byte>)
      ensures this.data == data && pos == 0
    {
      this.data := data;
      pos := 0;
    }

    ghost predicate Valid()
      reads this
    {
      pos <= |data|
    }

    method Read(buf: array<byte>, len: nat) returns (ret: nat)
      requires Valid() && 0 < len <= buf.Length
      modifies buf, this`pos
      ensures Valid() && pos == old(pos) + ret && ret <= len
      ensures old(pos) < |data| ==> ret > 0
      ensures buf[..ret] == data[old(pos)..pos] && buf[ret..] == old(buf[ret..])
    {
      var left := |data| - pos;
      if left == 0 {
        ret := 0;
      } else {
        ret :| 1 <= ret <= len && ret <= left;
      }
      var at := pos;
      for i := 0 to ret
        invariant pos == at && buf[..i] == data[at..at + i] && buf[i..] == old(buf[i..])
      {
        buf[i] := data[at + i];
      }
      pos := at + ret;
    }
  }

  // ---------------------------------------------------------------- the tool

  /** erase.length: the file size brought up to whole erase blocks. */
  function EraseLength(size: nat, erasesize: nat): nat
    requires erasesize > 0
  {
    if size % erasesize == 0 then size else (size / erasesize + 1) * erasesize
  }

  /** It is the least multiple of the block size that covers the file. */
  lemma EraseLengthIsLeast(size: nat, erasesize: nat, other: nat)
    requires erasesize > 0
    ensures EraseLength(size, erasesize) % erasesize == 0
    ensures size <= EraseLength(size, erasesize) < size + erasesize
    ensures other % erasesize == 0 && other >= size ==> other >= EraseLength(size, erasesize)
  {
    var e := EraseLength(size, erasesize);
    var q := size / erasesize;
    assert size == erasesize * q + size % erasesize;
    assert (q + 1) * erasesize == erasesize * (q + 1) == erasesize * q + erasesize;
    if size % erasesize != 0 {
      ModUnique(e, erasesize, q + 1, 0);
    }
    if other % erasesize == 0 && size <= other < e {
      var o := other / erasesize;
      assert other == erasesize * o == o * erasesize;
      if o <= q {
        MulMono(o, q, erasesize);
      } else {
        MulMono(q + 1, o, erasesize);
      }
      assert false;
    }
  }

  /** The least multiple of the block size that covers `size` bytes. */
  predicate LeastCover(end: nat, size: nat, erasesize: nat)
    requires erasesize > 0
  {
    end % erasesize == 0 && size <= end < size + erasesize
  }

  /** There is exactly one. */
  lemma LeastCoverIs(end: nat, size: nat, erasesize: nat)
    requires erasesize > 0
    ensures LeastCover(end, size, erasesize) <==> end == EraseLength(size, erasesize)
  {
    EraseLengthIsLeast(size, erasesize, end);
    var e := EraseLength(size, erasesize);
    if LeastCover(end, size, erasesize) && end > e {
      var a, b := end / erasesize, e / erasesize;
      assert end == erasesize * a && e == erasesize * b;
      if a <= b {
        MulMono(a, b, erasesize);
      } else {
        MulMono(b + 1, a, erasesize);
      }
      assert false;
    }
  }

  ghost predicate Ready(file: InFile, dev: MtdFile)
    reads file, dev
  {
    file.Valid() && dev.Valid() && file.pos == dev.pos == 0
  }

  /** The first `at` bytes of data have reached the chip at base; nothing else has changed since `was`. */
  ghost predicate Landed(now: seq<byte>, was: seq<byte>, base: nat, data: seq<byte>, at: nat) {
    && |now| == |was| && at <= |data| && base + |data| <= |was|
    && forall j :: 0 <= j < |was| ==> now[j] == if base <= j < base + at then data[j - base] else was[j]
  }

  lemma LandedMore(now: seq<byte>, was: seq<byte>, base: nat, data: seq<byte>, at: nat, n: nat)
    requires Landed(now, was, base, data, at) && at + n <= |data|
    ensures Landed(Splice(now, base + at, data[at..at + n]), was, base, data, at + n)
  {
    var more := data[at..at + n];
    var now' := Splice(now, base + at, more);
    forall j | 0 <= j < |was|
      ensures now'[j] == if base <= j < base + at + n then data[j - base] else was[j]
    {
      if base + at <= j < base + at + n {
        assert now'[base + at..base + at + n][j - base - at] == more[j - base - at];
      }
    }
  }

  lemma LandedAll(now: seq<byte>, was: seq<byte>, base: nat, data: seq<byte>)
    requires Landed(now, was, base, data, |data|)
    ensures now == Splice(was, base, data)
  {
    var s := Splice(was, base, data);
    forall j | 0 <= j < |was|
      ensures now[j] == s[j]
    {
      if base <= j < base + |data| {
        assert s[base..base + |data|][j - base] == data[j - base];
      }
    }
  }

  /** The read and the write of one pass of the writing loop. */
  method WriteChunk(file: InFile, dev: MtdFile, src: array<byte>) returns (n: nat, result: int)
    requires file.Valid() && dev.Valid() && file.pos == dev.pos < |file.data| <= dev.part.size
    requires src != dev.chip.buffer && src.Length == BUFSIZE
    modifies file`pos, dev`pos, dev.chip.buffer, src
    ensures file.Valid() && dev.Valid() && file.pos == dev.pos == old(file.pos) + n
    ensures result == n > 0
    ensures dev.chip.buffer[..]
              == Splice(old(dev.chip.buffer[..]), dev.part.offset + old(dev.pos), file.data[old(dev.pos)..dev.pos])
  {
    n := file.Read(src, BUFSIZE);
    assert src[..n] == file.data[old(dev.pos)..file.pos];
    result := dev.Write(src, n);
  }

  /** The writing loop: whatever the chunks, the file lands at the start of the partition. */
  method WriteAll(file: InFile, dev: MtdFile, src: array<byte>) returns (ret: int)
    requires Ready(file, dev) && |file.data| <= dev.part.size
    requires src != dev.chip.buffer && src.Length == BUFSIZE
    modifies file`pos, dev`pos, dev.chip.buffer, src
    ensures ret == 0 && file.Valid() && dev.Valid()
    ensures dev.chip.buffer[..] == Splice(old(dev.chip.buffer[..]), dev.part.offset, file.data)
  {
    var size := |file.data|;
    ghost var was := dev.chip.buffer[..];
    while size != 0
      invariant file.Valid() && dev.Valid() && file.pos == dev.pos
      invariant size == |file.data| - file.pos
      invariant Landed(dev.chip.buffer[..], was, dev.part.offset, file.data, file.pos)
    {
      ghost var at, pre := file.pos, dev.chip.buffer[..];
      var n, result := WriteChunk(file, dev, src);
      if result != n {
        assert false;
        return -1;
      }
      LandedMore(pre, was, dev.part.offset, file.data, at, n);
      size := size - n;
    }
    LandedAll(dev.chip.buffer[..], was, dev.part.offset, file.data);
    return 0;
  }

  lemma SliceSlice(s: seq<byte>, base: nat, len: nat, at: nat, n: nat)
    requires at + n <= len && base + len <= |s|
    ensures s[base..base + len][at..at + n] == s[base + at..base + at + n]
  {
    var a, b := s[base..base + len][at..at + n], s[base + at..base + at + n];
    assert forall i :: 0 <= i < n ==> a[i] == b[i];
  }

  lemma ChunkDecides(a: seq<byte>, b: seq<byte>, at: nat, n: nat)
    requires |a| == |b| && at + n <= |a| && a[..at] == b[..at]
    ensures a[at..at + n] == b[at..at + n] ==> a[..at + n] == b[..at + n]
    ensures a[at..at + n] != b[at..at + n] ==> a != b
  {
    assert a[..at + n] == a[..at] + a[at..at + n];
    assert b[..at + n] == b[..at] + b[at..at + n];
  }

  /** The two reads of one pass of the verifying loop. */
  method ReadChunks(file: InFile, dev: MtdFile, src: array<byte>, dest: array<byte>) returns (n: nat, result: int)
    requires file.Valid() && dev.Valid() && file.pos == dev.pos < |file.data| <= dev.part.size
    requires src != dev.chip.buffer && dest != dev.chip.buffer && src != dest
    requires src.Length == dest.Length == BUFSIZE
    modifies file`pos, dev`pos, src, dest
    ensures file.Valid() && dev.Valid() && file.pos == dev.pos == old(file.pos) + n
    ensures result == n && 0 < n <= BUFSIZE
    ensures src[..n] == file.data[old(file.pos)..file.pos]
    ensures dest[..n] == dev.chip.buffer[dev.part.offset + old(dev.pos)..dev.part.offset + dev.pos]
  {
    n := file.Read(src, BUFSIZE);
    result := dev.Read(dest, n);
  }

  /** The verifying loop finds any difference and reports nothing else, whatever the chunks. */
  method VerifyAll(file: InFile, dev: MtdFile, src: array<byte>, dest: array<byte>) returns (ret: int)
    requires Ready(file, dev) && |file.data| <= dev.part.size
    requires src != dev.chip.buffer && dest != dev.chip.buffer && src != dest
    requires src.Length == dest.Length == BUFSIZE
    modifies file`pos, dev`pos, src, dest
    ensures ret == 0 || ret == -1
    ensures ret == 0 <==> dev.chip.buffer[dev.part.offset..dev.part.offset + |file.data|] == file.data
  {
    var size := |file.data|;
    ghost var base := dev.part.offset;
    ghost var disk := dev.chip.buffer[..];
    ghost var held := disk[base..base + size];
    while size != 0
      invariant file.Valid() && dev.Valid() && file.pos == dev.pos
      invariant size == |file.data| - file.pos
      invariant dev.chip.buffer[..] == disk
      invariant held[..file.pos] == file.data[..file.pos]
    {
      ghost var at := file.pos;
      var n, result := ReadChunks(file, dev, src, dest);
      if result != n {
        assert false;
        return -1;
      }
      assert dest[..n] == disk[base + at..base + at + n];
      SliceSlice(disk, base, |file.data|, at, n);
      ChunkDecides(held, file.data, at, n);
      if src[..n] != dest[..n] {
        return -1;
      }
      size := size - n;
    }
    assert file.data[..file.pos] == file.data && held[..file.pos] == held;
    return 0;
  }

  /** What the device must offer for the tool to succeed. */
  predicate Flashable(size: nat, part: Part, erasesize: nat)
    requires erasesize > 0
  {
    && 0 < part.size
    && EraseLength(size, erasesize) <= part.size
    && (size == 0 || part.offset % erasesize == 0)
  }

  /** In a partition of whole erase blocks: that the file is no larger. */
  lemma FlashableWholeBlocks(size: nat, part: Part, erasesize: nat)
    requires erasesize > 0 && 0 < part.size
    requires part.offset % erasesize == 0 && part.size % erasesize == 0
    ensures Flashable(size, part, erasesize) <==> size <= part.size
  {
    EraseLengthIsLeast(size, erasesize, part.size);
  }

  /** The chip after a file was flashed up to `end` of the partition, and what lies outside. */
  twostate predicate Flashed(dev: MtdFile, data: seq<byte>, end: nat)
    reads dev.chip.buffer
  {
    var base := dev.part.offset;
    var size := |data|;
    && size <= end && base + end <= dev.chip.buffer.Length
    && dev.chip.buffer[base..base + size] == data
    && (forall i :: base + size <= i < base + end ==> dev.chip.buffer[i] == 0xff)
    && (forall i :: 0 <= i < dev.chip.buffer.Length && !(base <= i < base + end)
          ==> dev.chip.buffer[i] == old(dev.chip.buffer[i]))
  }

  /** main, from the size check on. */
  method Flash(file: InFile, dev: MtdFile) returns (ret: int)
    requires Ready(file, dev)
    requires dev.part.size + dev.chip.erasesize <= 0x1_0000_0000
    modifies file, dev, dev.chip.buffer
    ensures ret == if Flashable(|file.data|, dev.part, dev.chip.erasesize) then 0 else -1
    ensures ret != 0 ==> dev.chip.buffer[..] == old(dev.chip.buffer[..])
    ensures ret == 0 ==> Flashed(dev, file.data, EraseLength(|file.data|, dev.chip.erasesize))
  {
    var size := |file.data|;
    var eb := dev.chip.erasesize;
    EraseLengthIsLeast(size, eb, 0);
    if size > dev.part.size {
      return -1;
    }
    var length := if size % eb == 0 then size else (size / eb + 1) * eb;
    var erased := dev.MemErase(0, length);
    if erased < 0 {
      return -1;
    }
    var src, dest := new byte[BUFSIZE], new byte[BUFSIZE];
    ret := WriteAll(file, dev, src);
    file.pos := 0;
    dev.pos := 0;
    ret := VerifyAll(file, dev, src, dest);
  }

  /**
  The tool on any partition. One made of whole erase blocks: it succeeds exactly if the
  file is no larger than the partition. Any other: exactly if the file's least cover in
  whole blocks fits and the partition starts on a block. Then the partition starts with
  the file, the rest of the erased blocks is 0xff and every other byte of the chip, in
  this partition or another, is as it was. Otherwise nothing on the chip changes.
  */
  method FlashAndVerify(file: InFile, dev: MtdFile) returns (ret: int)
    requires Ready(file, dev)
    requires dev.part.size + dev.chip.erasesize <= 0x1_0000_0000
    modifies file, dev, dev.chip.buffer
    ensures ret == 0 || ret == -1
    ensures (0 < dev.part.size && dev.part.offset % dev.chip.erasesize == dev.part.size % dev.chip.erasesize == 0)
            ==> (ret == 0 <==> |file.data| <= dev.part.size)
    ensures ret == 0 <==>
              && 0 < dev.part.size
              && (file.data == [] || dev.part.offset % dev.chip.erasesize == 0)
              && exists end: nat :: LeastCover(end, |file.data|, dev.chip.erasesize) && end <= dev.part.size
    ensures ret != 0 ==> dev.chip.buffer[..] == old(dev.chip.buffer[..])
    ensures ret == 0 ==> forall end: nat :: LeastCover(end, |file.data|, dev.chip.erasesize) ==>
              Flashed(dev, file.data, end)
  {
    var size, eb := |file.data|, dev.chip.erasesize;
    ret := Flash(file, dev);
    if 0 < dev.part.size && dev.part.offset % eb == dev.part.size % eb == 0 {
      FlashableWholeBlocks(size, dev.part, eb);
    }
    forall end: nat
      ensures LeastCover(end, size, eb) <==> end == EraseLength(size, eb)
    {
      LeastCoverIs(end, size, eb);
    }
    assert LeastCover(EraseLength(size, eb), size, eb);
  }
}
