/**
The character device: one block of memory shared by every open file, each with a
cursor of its own. Opening clears the memory. File positions do not come near the
end of a 64-bit offset, and calls on the device are atomic.
*/
module CharDevice {
  import opened Memory
  import opened Kernel

  const SEEK_SET := 0
  const SEEK_CUR := 1

  // ------------------------------------------------- one call on one cursor

  /** Bytes of a request of `len` that lie before the end. */
  function Clip(size: nat, p: nat, len: nat): (n: nat)
    ensures n <= len && (p <= size ==> p + n <= size)
  {
    if p >= size then 0 else if len > size - p then size - p else len
  }

  datatype Result = Result(mem: seq<byte>, pos: nat, ret: int, data: seq<byte>)

  /** char_dev_write from a buffer readable for `readable` bytes. */
  function Written(mem: seq<byte>, p: nat, buf: seq<byte>, readable: nat): (r: Result)
    ensures |r.mem| == |mem|
  {
    var n := Clip(|mem|, p, |buf|);
    if p >= |mem| then Result(mem, p, 0, [])
    else
      var mem' := Splice(mem, p, CopiedFromUser(buf, n, readable));
      if n <= readable then Result(mem', p + n, n, []) else Result(mem', p, -EFAULT, [])
  }

  /** char_dev_read into a buffer that can take `writable` bytes. */
  function ReadOut(mem: seq<byte>, p: nat, len: nat, writable: nat): Result {
    var n := Clip(|mem|, p, len);
    if p >= |mem| then Result(mem, p, 0, [])
    else if n <= writable then Result(mem, p + n, n, mem[p..p + n])
    else Result(mem, p, -EFAULT, mem[p..p + writable])
  }

  /**
  Memory and cursor before and after a write, and its result: the bytes up to the end of
  the memory, counted and passed over; after a fault the readable bytes with zeros
  behind, and the cursor where it was.
  */
  predicate Stores(was: seq<byte>, now: seq<byte>, p: nat, p': nat, buf: seq<byte>, readable: nat, ret: int) {
    var n := if p >= |was| then 0 else if |buf| < |was| - p then |buf| else |was| - p;
    && |now| == |was|
    && ret == (if n <= readable then n else -EFAULT)
    && p' == (if n <= readable then p + n else p)
    && forall k :: 0 <= k < |was| ==>
         now[k] == if !(p <= k < p + n) then was[k] else if k - p < readable then buf[k - p] else 0
  }

  lemma WrittenStores(mem: seq<byte>, p: nat, buf: seq<byte>, readable: nat)
    ensures var r := Written(mem, p, buf, readable);
            Stores(mem, r.mem, p, r.pos, buf, readable, r.ret)
  {
    if p < |mem| {
      var n := Clip(|mem|, p, |buf|);
      var data := CopiedFromUser(buf, n, readable);
      var s := Splice(mem, p, data);
      forall k | p <= k < p + n
        ensures s[k] == data[k - p]
      {
        assert s[p..p + n][k - p] == data[k - p];
      }
    }
  }

  /** Where a seek would land; None for an unknown origin. */
  function Target(p: nat, offset: int, orig: int): Option<int> {
    if orig == SEEK_SET then Some(offset) else if orig == SEEK_CUR then Some(p + offset) else None
  }

  function Sought(mem: seq<byte>, p: nat, offset: int, orig: int): Result {
    match Target(p, offset, orig)
    case Some(t) => if 0 <= t < |mem| then Result(mem, t, t, []) else Result(mem, p, -EINVAL, [])
    case None => Result(mem, p, -EINVAL, [])
  }

  // -------------------------------------------------------------- the driver

  class CharDev {
    const mem: array<byte>

    constructor (mem: array<byte>)
      ensures this.mem == mem
    {
      this.mem := mem;
    }
  }

  class CharFile {
    const dev: CharDev
    var pos: nat

    /** char_dev_open */
    constructor (dev: CharDev)
      modifies dev.mem
      ensures this.dev == dev && pos == 0
      ensures dev.mem[..] == Repeat(0, dev.mem.Length)
    {
      this.dev := dev;
      pos := 0;
      new;
      MemSet(dev.mem, 0, 0, dev.mem.Length);
    }

    /** char_dev_write */
    method Write(buf: seq<byte>, readable: nat) returns (ret: int)
      modifies dev.mem, this`pos
      ensures Result(dev.mem[..], pos, ret, []) == Written(old(dev.mem[..]), old(pos), buf, readable)
      ensures Stores(old(dev.mem[..]), dev.mem[..], old(pos), pos, buf, readable, ret)
    {
      WrittenStores(dev.mem[..], pos, buf, readable);
      var p := pos;
      var len := |buf|;
      if p >= dev.mem.Length {
        return 0;
      }
      if len > dev.mem.Length - p {
        len := dev.mem.Length - p;
      }
      var left := CopyFromUser(dev.mem, p, buf, len, readable);
      if left == 0 {
        pos := pos + len;
        ret := len;
      } else {
        ret := -EFAULT;
      }
    }

    /** char_dev_read; `data` is what reached the user's buffer. */
    method Read(count: nat, writable: nat) returns (ret: int, data: seq<byte>)
      modifies this`pos
      ensures Result(dev.mem[..], pos, ret, data) == ReadOut(old(dev.mem[..]), old(pos), count, writable)
      ensures var left := if old(pos) >= dev.mem.Length then 0 else dev.mem.Length - old(pos);
              var n := if count < left then count else left;
              if n <= writable
              then ret == n && pos == old(pos) + n && |data| == n && (n > 0 ==> data == dev.mem[old(pos)..pos])
              else ret == -EFAULT && pos == old(pos) && data == dev.mem[pos..pos + writable]
    {
      var p := pos;
      var len := count;
      if p >= dev.mem.Length {
        return 0, [];
      }
      if len > dev.mem.Length - p {
        len := dev.mem.Length - p;
      }
      if len <= writable {
        data := dev.mem[p..p + len];
        pos := pos + len;
        ret := len;
      } else {
        data := dev.mem[p..p + writable];
        ret := -EFAULT;
      }
    }

    /**
    char_dev_llseek. It succeeds exactly when the origin is known and the target lies
    inside the memory, the end excluded, and then returns the new cursor.
    */
    method Llseek(offset: int, orig: int) returns (ret: int)
      modifies this`pos
      ensures Result(dev.mem[..], pos, ret, []) == Sought(old(dev.mem[..]), old(pos), offset, orig)
      ensures ret >= 0 <==>
                || (orig == SEEK_SET && 0 <= offset < dev.mem.Length)
                || (orig == SEEK_CUR && 0 <= old(pos) + offset < dev.mem.Length)
      ensures ret >= 0 ==> pos == ret == if orig == SEEK_SET then offset else old(pos) + offset
      ensures ret < 0 ==> ret == -EINVAL && pos == old(pos)
    {
      ret := -EINVAL;
      if orig == SEEK_SET {
        if !(offset < 0 || offset >= dev.mem.Length) {
          pos := offset;
          ret := pos;
        }
      } else if orig == SEEK_CUR {
        if !(pos + offset >= dev.mem.Length || pos + offset < 0) {
          pos := pos + offset;
          ret := pos;
        }
      }
    }
  }

  // ------------------------------------------------- many files, whole runs

  /** The shared memory and one cursor per file ever opened. */
  datatype State = State(mem: seq<byte>, pos: seq<nat>)

  datatype Op =
    | Open
    | Write(i: nat, buf: seq<byte>, readable: nat)
    | Read(i: nat, len: nat, writable: nat)
    | Seek(i: nat, offset: int, orig: int)

  predicate Callable(s: State, op: Op) {
    op.Open? || op.i < |s.pos|
  }

  /** What the call does, seen through its own cursor. */
  function Call(mem: seq<byte>, p: nat, op: Op): Result
    requires !op.Open?
  {
    match op
    case Write(_, buf, readable) => Written(mem, p, buf, readable)
    case Read(_, len, writable) => ReadOut(mem, p, len, writable)
    case Seek(_, offset, orig) => Sought(mem, p, offset, orig)
  }

  function Apply(s: State, op: Op): State
    requires Callable(s, op)
  {
    if op.Open? then State(Repeat(0, |s.mem|), s.pos + [0])
    else
      var r := Call(s.mem, s.pos[op.i], op);
      State(r.mem, s.pos[op.i := r.pos])
  }

  ghost predicate CanRun(s: State, ops: seq<Op>)
    decreases |ops|
  {
    ops == [] || (Callable(s, ops[0]) && CanRun(Apply(s, ops[0]), ops[1..]))
  }

  ghost function Run(s: State, ops: seq<Op>): State
    requires CanRun(s, ops)
    decreases |ops|
  {
    if ops == [] then s else Run(Apply(s, ops[0]), ops[1..])
  }

  /** The bytes a call returns to file i: those of a successful read of its own. */
  function Got(s: State, op: Op, i: nat): seq<byte>
    requires Callable(s, op)
  {
    if op.Read? && op.i == i && ReadOut(s.mem, s.pos[i], op.len, op.writable).ret >= 0
    then ReadOut(s.mem, s.pos[i], op.len, op.writable).data
    else []
  }

  /** What file i's reads return over a run, in order. */
  ghost function Returned(s: State, ops: seq<Op>, i: nat): seq<byte>
    requires CanRun(s, ops)
    decreases |ops|
  {
    if ops == [] then [] else Got(s, ops[0], i) + Returned(Apply(s, ops[0]), ops[1..], i)
  }

  lemma RunFirst(s: State, op: Op, rest: seq<Op>, i: nat)
    requires CanRun(s, [op] + rest)
    ensures Callable(s, op) && CanRun(Apply(s, op), rest)
    ensures Returned(s, [op] + rest, i) == Got(s, op, i) + Returned(Apply(s, op), rest, i)
  {
    assert ([op] + rest)[1..] == rest;
  }

  ghost predicate CursorsOk(s: State) {
    forall k :: 0 <= k < |s.pos| ==> s.pos[k] <= |s.mem|
  }

  /** Over any run on any number of files, no cursor leaves the memory. */
  lemma {:induction false} CursorsStayInside(s: State, ops: seq<Op>)
    requires CursorsOk(s) && CanRun(s, ops)
    ensures CursorsOk(Run(s, ops)) && |Run(s, ops).mem| == |s.mem|
    decreases |ops|
  {
    if ops != [] {
      CursorsStayInside(Apply(s, ops[0]), ops[1..]);
    }
  }

  // ----------------------------------------------------------- relative seeks

  function Steps(i: nat, offs: seq<int>): seq<Op> {
    if offs == [] then [] else [Seek(i, offs[0], SEEK_CUR)] + Steps(i, offs[1..])
  }

  function Total(offs: seq<int>): int {
    if offs == [] then 0 else offs[0] + Total(offs[1..])
  }

  /** From p, every one of the relative seeks succeeds. */
  predicate AllLand(size: nat, p: int, offs: seq<int>)
    decreases |offs|
  {
    offs == [] || (0 <= p + offs[0] < size && AllLand(size, p + offs[0], offs[1..]))
  }

  lemma StepTo(s: State, i: nat, offset: int)
    requires i < |s.pos|
    ensures var t := s.pos[i] + offset;
            Apply(s, Seek(i, offset, SEEK_CUR)) == if 0 <= t < |s.mem| then s.(pos := s.pos[i := t]) else s
  {
    assert s.pos[i := s.pos[i]] == s.pos;
  }

  /** Relative seeks that succeed add up. */
  lemma {:induction false} SeeksAddUp(s: State, i: nat, offs: seq<int>)
    requires i < |s.pos| && AllLand(|s.mem|, s.pos[i], offs)
    ensures CanRun(s, Steps(i, offs))
    ensures 0 <= s.pos[i] + Total(offs)
    ensures Run(s, Steps(i, offs)) == s.(pos := s.pos[i := s.pos[i] + Total(offs)])
    ensures offs != [] ==> s.pos[i] + Total(offs) < |s.mem|
    decreases |offs|
  {
    if offs != [] {
      assert Steps(i, offs)[1..] == Steps(i, offs[1..]);
      StepTo(s, i, offs[0]);
      SeeksAddUp(s.(pos := s.pos[i := s.pos[i] + offs[0]]), i, offs[1..]);
    }
  }

  lemma StepBack(s: State, i: nat, q: nat)
    requires i < |s.pos| && s.pos[i] <= |s.mem| && q < |s.mem|
    ensures var there := s.(pos := s.pos[i := q]);
            Apply(there, Seek(i, s.pos[i] - q, SEEK_CUR)) == s <==> s.pos[i] < |s.mem|
  {
    var there := s.(pos := s.pos[i := q]);
    StepTo(there, i, s.pos[i] - q);
    assert there.pos[i := s.pos[i]] == s.pos;
  }

  /**
  One seek by the opposite of their sum undoes any relative seeks that succeeded,
  except from a cursor at the very end, where reads and writes leave it but no seek
  may put it.
  */
  lemma SeekBackIff(s: State, i: nat, offs: seq<int>)
    requires CursorsOk(s) && i < |s.pos| && offs != [] && AllLand(|s.mem|, s.pos[i], offs)
    ensures CanRun(s, Steps(i, offs))
    ensures var there := Run(s, Steps(i, offs));
            var back := Seek(i, -Total(offs), SEEK_CUR);
            Callable(there, back) && (Apply(there, back) == s <==> s.pos[i] < |s.mem|)
  {
    SeeksAddUp(s, i, offs);
    var q: nat := s.pos[i] + Total(offs);
    assert Seek(i, -Total(offs), SEEK_CUR) == Seek(i, s.pos[i] - q, SEEK_CUR);
    StepBack(s, i, q);
  }

  // --------------------------------------------------- others do not disturb

  /** Everything in the run is file i's own, or a read or seek of another file. */
  ghost predicate OnlyReadersBeside(ops: seq<Op>, i: nat) {
    forall k :: 0 <= k < |ops| ==> !ops[k].Open? && (ops[k].i == i || !ops[k].Write?)
  }

  function Own(ops: seq<Op>, i: nat): seq<Op>
    decreases |ops|
  {
    if ops == [] then []
    else (if !ops[0].Open? && ops[0].i == i then [ops[0]] else []) + Own(ops[1..], i)
  }

  /** Two states look alike to file i. */
  predicate Alike(s: State, t: State, i: nat) {
    i < |s.pos| && i < |t.pos| && s.mem == t.mem && s.pos[i] == t.pos[i]
  }

  lemma {:induction false} OthersInvisible(s: State, t: State, ops: seq<Op>, i: nat)
    requires CanRun(s, ops) && OnlyReadersBeside(ops, i) && Alike(s, t, i)
    ensures CanRun(t, Own(ops, i)) && Alike(Run(s, ops), Run(t, Own(ops, i)), i)
    ensures Returned(s, ops, i) == Returned(t, Own(ops, i), i)
    decreases |ops|
  {
    if ops != [] {
      var op := ops[0];
      assert OnlyReadersBeside(ops[1..], i);
      if op.i == i {
        assert Own(ops, i)[1..] == Own(ops[1..], i);
        OthersInvisible(Apply(s, op), Apply(t, op), ops[1..], i);
      } else {
        assert Own(ops, i) == Own(ops[1..], i);
        OthersInvisible(Apply(s, op), t, ops[1..], i);
      }
    }
  }

  // ----------------------------------------------------- chunked round trip

  function Concat(bufs: seq<seq<byte>>): seq<byte> {
    if bufs == [] then [] else bufs[0] + Concat(bufs[1..])
  }

  function Sum(lens: seq<nat>): nat {
    if lens == [] then 0 else lens[0] + Sum(lens[1..])
  }

  lemma ClipTwice(size: nat, p: nat, a: nat, b: nat)
    requires p <= size
    ensures Clip(size, p, a) + Clip(size, p + Clip(size, p, a), b) == Clip(size, p, a + b)
  {
  }

  /** The whole of a buffer that can be read in full, written at p. */
  function Put(mem: seq<byte>, p: nat, data: seq<byte>): (mem': seq<byte>)
    requires p <= |mem|
    ensures |mem'| == |mem|
  {
    Splice(mem, p, data[..Clip(|mem|, p, |data|)])
  }

  lemma WriteIsPut(mem: seq<byte>, p: nat, buf: seq<byte>)
    requires p <= |mem|
    ensures Written(mem, p, buf, |buf|).mem == Put(mem, p, buf)
    ensures Written(mem, p, buf, |buf|).pos == p + Clip(|mem|, p, |buf|)
  {
    if p == |mem| {
      assert Put(mem, p, buf) == mem;
    }
  }

  /** Two writes one after the other are one write. */
  lemma PutTwice(mem: seq<byte>, p: nat, a: seq<byte>, b: seq<byte>)
    requires p <= |mem|
    ensures Put(Put(mem, p, a), p + Clip(|mem|, p, |a|), b) == Put(mem, p, a + b)
  {
    var n := Clip(|mem|, p, |a|);
    var m := Clip(|mem|, p + n, |b|);
    ClipTwice(|mem|, p, |a|, |b|);
    SpliceTwice(mem, p, a[..n], b[..m]);
    assert (a + b)[..n + m] == a[..n] + b[..m];
  }

  function Writes(i: nat, bufs: seq<seq<byte>>): seq<Op> {
    if bufs == [] then [] else [Write(i, bufs[0], |bufs[0]|)] + Writes(i, bufs[1..])
  }

  function Reads(i: nat, lens: seq<nat>): seq<Op> {
    if lens == [] then [] else [Read(i, lens[0], lens[0])] + Reads(i, lens[1..])
  }

  /** The state once file i has written data. */
  function Having(s: State, i: nat, data: seq<byte>): (s': State)
    requires i < |s.pos| && s.pos[i] <= |s.mem|
    ensures |s'.pos| == |s.pos| && s'.pos[i] <= |s'.mem| == |s.mem|
  {
    State(Put(s.mem, s.pos[i], data), s.pos[i := s.pos[i] + Clip(|s.mem|, s.pos[i], |data|)])
  }

  lemma HavingTwice(s: State, i: nat, a: seq<byte>, b: seq<byte>)
    requires i < |s.pos| && s.pos[i] <= |s.mem|
    ensures Having(Having(s, i, a), i, b) == Having(s, i, a + b)
  {
    PutTwice(s.mem, s.pos[i], a, b);
    ClipTwice(|s.mem|, s.pos[i], |a|, |b|);
  }

  lemma HavingNothing(s: State, i: nat)
    requires i < |s.pos| && s.pos[i] <= |s.mem|
    ensures Having(s, i, []) == s
  {
    assert Put(s.mem, s.pos[i], []) == s.mem;
  }

  lemma WriteHas(s: State, i: nat, buf: seq<byte>)
    requires i < |s.pos| && s.pos[i] <= |s.mem|
    ensures Apply(s, Write(i, buf, |buf|)) == Having(s, i, buf)
  {
    WriteIsPut(s.mem, s.pos[i], buf);
  }

  /** A call that is no read returns nothing and the run goes on. */
  lemma SkipFirst(s: State, op: Op, rest: seq<Op>, i: nat)
    requires CanRun(s, [op] + rest) && !op.Read?
    ensures Callable(s, op) && CanRun(Apply(s, op), rest)
    ensures Returned(s, [op] + rest, i) == Returned(Apply(s, op), rest, i)
  {
    RunFirst(s, op, rest, i);
    assert Got(s, op, i) == [];
  }

  lemma WriteFirst(s: State, i: nat, bufs: seq<seq<byte>>, tail: seq<Op>)
    requires i < |s.pos| && s.pos[i] <= |s.mem| && bufs != [] && CanRun(s, Writes(i, bufs) + tail)
    ensures var s1 := Having(s, i, bufs[0]);
            var rest := Writes(i, bufs[1..]) + tail;
            CanRun(s1, rest) && Returned(s, Writes(i, bufs) + tail, i) == Returned(s1, rest, i)
  {
    var op := Write(i, bufs[0], |bufs[0]|);
    var rest := Writes(i, bufs[1..]) + tail;
    assert Writes(i, bufs) + tail == [op] + rest;
    SkipFirst(s, op, rest, i);
    WriteHas(s, i, bufs[0]);
  }

  /** Writing in chunks is writing the whole, cut off at the end of the memory. */
  lemma {:induction false} WritesAsOne(s: State, i: nat, bufs: seq<seq<byte>>, tail: seq<Op>)
    requires i < |s.pos| && s.pos[i] <= |s.mem| && CanRun(s, Writes(i, bufs) + tail)
    ensures CanRun(Having(s, i, Concat(bufs)), tail)
    ensures Returned(s, Writes(i, bufs) + tail, i) == Returned(Having(s, i, Concat(bufs)), tail, i)
    decreases |bufs|
  {
    if bufs == [] {
      assert Writes(i, bufs) + tail == tail;
      HavingNothing(s, i);
    } else {
      WriteFirst(s, i, bufs, tail);
      HavingTwice(s, i, bufs[0], Concat(bufs[1..]));
      WritesAsOne(Having(s, i, bufs[0]), i, bufs[1..], tail);
    }
  }

  /** What lies from p on, `len` bytes of it at most. */
  function Window(mem: seq<byte>, p: nat, len: nat): (s: seq<byte>)
    requires p <= |mem|
    ensures |s| == Clip(|mem|, p, len)
  {
    mem[p..p + Clip(|mem|, p, len)]
  }

  lemma WindowJoin(mem: seq<byte>, p: nat, a: nat, b: nat)
    requires p <= |mem|
    ensures Window(mem, p, a) + Window(mem, p + Clip(|mem|, p, a), b) == Window(mem, p, a + b)
  {
    ClipTwice(|mem|, p, a, b);
  }

  /** The state once file i's cursor has moved over `len` bytes. */
  function Past(s: State, i: nat, len: nat): (s': State)
    requires i < |s.pos| && s.pos[i] <= |s.mem|
    ensures |s'.pos| == |s.pos| && s'.mem == s.mem && s'.pos[i] == s.pos[i] + Clip(|s.mem|, s.pos[i], len)
  {
    s.(pos := s.pos[i := s.pos[i] + Clip(|s.mem|, s.pos[i], len)])
  }

  /** A read into a buffer that can be filled: one stretch of memory, and the cursor past it. */
  lemma ReadIs(mem: seq<byte>, p: nat, len: nat)
    requires p <= |mem|
    ensures ReadOut(mem, p, len, len) == Result(mem, p + Clip(|mem|, p, len), Clip(|mem|, p, len), Window(mem, p, len))
  {
  }

  lemma ReadMoves(s: State, i: nat, len: nat)
    requires i < |s.pos| && s.pos[i] <= |s.mem|
    ensures Apply(s, Read(i, len, len)) == Past(s, i, len)
    ensures Got(s, Read(i, len, len), i) == Window(s.mem, s.pos[i], len)
  {
    ReadIs(s.mem, s.pos[i], len);
  }

  lemma ReadFirst(s: State, i: nat, len: nat, rest: seq<Op>)
    requires i < |s.pos| && s.pos[i] <= |s.mem| && CanRun(s, [Read(i, len, len)] + rest)
    ensures CanRun(Past(s, i, len), rest)
    ensures Returned(s, [Read(i, len, len)] + rest, i)
              == Window(s.mem, s.pos[i], len) + Returned(Past(s, i, len), rest, i)
  {
    var op := Read(i, len, len);
    RunFirst(s, op, rest, i);
    ReadMoves(s, i, len);
  }

  /** Reading in chunks returns one stretch of memory from the cursor on. */
  lemma {:induction false} ReadsAsOne(s: State, i: nat, lens: seq<nat>)
    requires i < |s.pos| && s.pos[i] <= |s.mem| && CanRun(s, Reads(i, lens))
    ensures Returned(s, Reads(i, lens), i) == Window(s.mem, s.pos[i], Sum(lens))
    decreases |lens|
  {
    if lens != [] {
      var rest := Reads(i, lens[1..]);
      var s1 := Past(s, i, lens[0]);
      ReadFirst(s, i, lens[0], rest);
      ReadsAsOne(s1, i, lens[1..]);
      assert Returned(s1, rest, i) == Window(s.mem, s1.pos[i], Sum(lens[1..]));
      WindowJoin(s.mem, s.pos[i], lens[0], Sum(lens[1..]));
    }
  }

  /** Opening clears: until something is written, any file reads zeros, wherever it stands. */
  lemma ZerosAfterOpen(s: State, i: nat, lens: seq<nat>)
    requires CursorsOk(s) && i <= |s.pos| && CanRun(s, [Open] + Reads(i, lens))
    ensures forall k :: 0 <= k < |Returned(s, [Open] + Reads(i, lens), i)|
                        ==> Returned(s, [Open] + Reads(i, lens), i)[k] == 0
  {
    SkipFirst(s, Open, Reads(i, lens), i);
    ReadsAsOne(Apply(s, Open), i, lens);
  }

  /** Written from the start, then read from the start. */
  lemma PutThenGet(mem: seq<byte>, data: seq<byte>, n: nat)
    requires n <= |mem|
    ensures var kept := Clip(|mem|, 0, |data|);
            var got := Put(mem, 0, data)[0..n];
            && (n <= kept ==> got == data[..n])
            && (n >= kept ==> got[..kept] == data[..kept])
  {
    var kept := Clip(|mem|, 0, |data|);
    assert Put(mem, 0, data)[0..kept] == data[..kept];
    if n <= kept {
      assert Put(mem, 0, data)[0..n] == Put(mem, 0, data)[0..kept][..n];
      assert data[..kept][..n] == data[..n];
    } else {
      assert Put(mem, 0, data)[0..n][..kept] == Put(mem, 0, data)[0..kept];
    }
  }

  /** The three phases of a round trip by file i. */
  function Trip(i: nat, bufs: seq<seq<byte>>, lens: seq<nat>): seq<Op> {
    Writes(i, bufs) + ([Seek(i, 0, SEEK_SET)] + Reads(i, lens))
  }

  lemma TripReturns(s: State, i: nat, bufs: seq<seq<byte>>, lens: seq<nat>)
    requires i < |s.pos| && s.pos[i] == 0 && 0 < |s.mem| && CanRun(s, Trip(i, bufs, lens))
    ensures Returned(s, Trip(i, bufs, lens), i) == Window(Put(s.mem, 0, Concat(bufs)), 0, Sum(lens))
  {
    var back := Seek(i, 0, SEEK_SET);
    var s1 := Having(s, i, Concat(bufs));
    WritesAsOne(s, i, bufs, [back] + Reads(i, lens));
    SkipFirst(s1, back, Reads(i, lens), i);
    ReadsAsOne(Apply(s1, back), i, lens);
  }

  /**
  Round trip: file i, at the start, writes in any chunks, seeks to 0 and reads in any
  chunks, while other files read and seek as they like in between. As far as it
  reads, it gets what it wrote, cut off at the end of the memory.
  */
  lemma RoundTrip(s: State, ops: seq<Op>, i: nat, bufs: seq<seq<byte>>, lens: seq<nat>)
    requires i < |s.pos| && s.pos[i] == 0 && 0 < |s.mem|
    requires CanRun(s, ops) && OnlyReadersBeside(ops, i) && Own(ops, i) == Trip(i, bufs, lens)
    ensures var got := Returned(s, ops, i);
            var kept := Clip(|s.mem|, 0, |Concat(bufs)|);
            && |got| == Clip(|s.mem|, 0, Sum(lens))
            && (|got| <= kept ==> got == Concat(bufs)[..|got|])
            && (|got| >= kept ==> got[..kept] == Concat(bufs)[..kept])
  {
    OthersInvisible(s, s, ops, i);
    TripReturns(s, i, bufs, lens);
    PutThenGet(s.mem, Concat(bufs), Clip(|s.mem|, 0, Sum(lens)));
  }
}
