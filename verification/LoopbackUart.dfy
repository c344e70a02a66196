/**
The loopback UART: `start_tx` drains a power-of-two ring into the receive side, at
most a FIFO's worth per call. Ring arithmetic is the kernel's own: a difference of
two `int` indices, or an index plus one, masked with the size minus one.

The serial core's part is `PutChar` (uart_put_char), the x_char slot and the stop
flag. The port lock makes every call atomic; inserted characters are never ignored
and the flip buffer has room.
*/
module LoopbackUart {
  import opened Arithmetic
  import opened Memory
  import opened Kernel

  const WAKEUP_CHARS: nat := 256

  // ------------------------------------------------------- mask arithmetic

  function Pow2(k: nat): (p: nat)
    ensures p >= 1
  {
    if k == 0 then 1 else 2 * Pow2(k - 1)
  }

  /** Bitwise and, bit by bit. */
  function And(x: nat, y: nat): nat {
    if x == 0 || y == 0 then 0
    else 2 * And(x / 2, y / 2) + (if x % 2 == 1 && y % 2 == 1 then 1 else 0)
  }

  /** The bit pattern of a C int. */
  function Word(x: int): nat {
    x % WORD
  }

  /** An unsigned value stored in a C int. */
  function Int32(x: nat): int {
    var w := x % WORD;
    if w < 0x8000_0000 then w else w - WORD
  }

  lemma {:induction false} MaskIsMod(x: nat, k: nat)
    ensures And(x, Pow2(k) - 1) == x % Pow2(k)
  {
    if k > 0 {
      var p := Pow2(k - 1);
      MaskIsMod(x / 2, k - 1);
      assert x % (2 * p) == 2 * ((x / 2) % p) + x % 2 by {
        ModHalves(x, p);
      }
      assert (Pow2(k) - 1) / 2 == p - 1 && (Pow2(k) - 1) % 2 == 1;
      if x == 0 {
        assert (0 / 2) % p == 0;
      }
    }
  }

  lemma ModHalves(x: nat, p: nat)
    requires p > 0
    ensures x % (2 * p) == 2 * ((x / 2) % p) + x % 2
  {
    var q := (x / 2) / p;
    var r := (x / 2) % p;
    assert x == (2 * p) * q + (2 * r + x % 2) by {
      assert x / 2 == p * q + r;
    }
    ModUnique(x, 2 * p, q, 2 * r + x % 2);
  }

  lemma {:induction false} PowDivides(k: nat, n: nat)
    requires k <= n
    ensures Pow2(n) == Pow2(k) * Pow2(n - k)
    decreases n
  {
    if k < n {
      PowDivides(k, n - 1);
      assert Pow2(n) == 2 * Pow2(n - 1);
      assert Pow2(k) * Pow2(n - k) == Pow2(k) * (2 * Pow2(n - 1 - k));
    }
  }

  lemma WordIsPow()
    ensures Pow2(32) == WORD
  {
    assert Pow2(8) == 256;
    PowDivides(8, 16);
    PowDivides(16, 32);
  }

  lemma ModMod(x: int, p: int, c: int)
    requires p > 0 && c > 0
    ensures (x % (p * c)) % p == x % p
  {
    var m := p * c;
    var w := x % m;
    assert w == p * (w / p) + w % p;
    assert x == m * (x / m) + w;
    assert m * (x / m) == p * (c * (x / m));
    assert p * (c * (x / m)) + p * (w / p) == p * (c * (x / m) + w / p);
    ModUnique(x, p, c * (x / m) + w / p, w % p);
  }

  /** The masked difference of two ring indices, negative or not, is the difference modulo the size. */
  lemma MaskedDifference(x: int, k: nat)
    requires k <= 31
    ensures And(Word(x), Pow2(k) - 1) == x % Pow2(k)
  {
    WordIsPow();
    PowDivides(k, 32);
    MaskIsMod(Word(x), k);
    ModMod(x, Pow2(k), Pow2(32 - k));
  }

  // ------------------------------------------------------------- the ring

  /** Position x of a ring of n cells, for x less than 2n. */
  function Wrap(x: nat, n: nat): nat
    requires n > 0 && x < 2 * n
  {
    if x < n then x else x - n
  }

  function Distance(head: nat, tail: nat, n: nat): nat
    requires head < n && tail < n
  {
    if head >= tail then head - tail else head + n - tail
  }

  lemma SmallMod(x: int, n: nat)
    requires n > 0 && 0 <= x + n && x < 2 * n
    ensures x % n == if x < 0 then x + n else if x < n then x else x - n
  {
    ModUnique(x, n, if x < 0 then -1 else if x < n then 0 else 1, if x < 0 then x + n else if x < n then x else x - n);
  }

  lemma MaskedIndex(x: int, k: nat)
    requires k <= 31 && 0 <= x + Pow2(k) && x < 2 * Pow2(k)
    ensures And(Word(x), Pow2(k) - 1) == if x < 0 then x + Pow2(k) else if x < Pow2(k) then x else x - Pow2(k)
  {
    MaskedDifference(x, k);
    SmallMod(x, Pow2(k));
  }

  /** The masks in the driver and in the ring macros do what the names say. */
  lemma RingMasks(head: nat, tail: nat, k: nat)
    requires k <= 31 && head < Pow2(k) && tail < Pow2(k)
    ensures And(tail + 1, Pow2(k) - 1) == Wrap(tail + 1, Pow2(k))
    ensures And(Word(head - tail), Pow2(k) - 1) == Distance(head, tail, Pow2(k))
    ensures And(Word(tail - (head + 1)), Pow2(k) - 1) == Pow2(k) - 1 - Distance(head, tail, Pow2(k))
  {
    var n := Pow2(k);
    MaskIsMod(tail + 1, k);
    SmallMod(tail + 1, n);
    MaskedIndex(head - tail, k);
    MaskedIndex(tail - (head + 1), k);
  }

  /** `count` cells from `tail` on, in ring order. */
  function Ring(data: seq<byte>, tail: nat, count: nat): (s: seq<byte>)
    requires tail < |data| && count <= |data|
    ensures |s| == count && forall i :: 0 <= i < count ==> s[i] == data[Wrap(tail + i, |data|)]
  {
    seq(count, i requires 0 <= i < count => data[Wrap(tail + i, |data|)])
  }

  lemma RingPush(data: seq<byte>, tail: nat, count: nat, c: byte)
    requires tail < |data| && count < |data|
    ensures var at := Wrap(tail + count, |data|);
            Ring(data[at := c], tail, count + 1) == Ring(data, tail, count) + [c]
  {
  }

  lemma RingPop(data: seq<byte>, tail: nat, count: nat)
    requires tail < |data| && 0 < count <= |data|
    ensures Ring(data, tail, count)[0] == data[tail]
    ensures Ring(data, Wrap(tail + 1, |data|), count - 1) == Ring(data, tail, count)[1..]
  {
  }

  // ------------------------------------------------------ abstract behaviour

  /** The port as its users see it: what waits, what was looped back, the out-of-band byte. */
  datatype Port = Port(pending: seq<byte>, looped: seq<byte>, xChar: byte, tx: nat, stopped: bool)

  function Min(a: int, b: int): int {
    if a < b then a else b
  }

  /** Characters one call may send: `do ... while (--count > 0)` runs at least once. */
  function Budget(fifosize: nat): (b: nat)
    ensures b >= 1
  {
    if Int32(fifosize) > 1 then Int32(fifosize) else 1
  }

  function Bump(tx: nat, more: nat): nat {
    (tx + more) % WORD
  }

  lemma BumpBump(tx: nat, a: nat, b: nat)
    ensures Bump(Bump(tx, a), b) == Bump(tx, a + b)
  {
  }

  /** n bytes moved from the front of what waits to the end of what was looped back. */
  function SentN(p: Port, n: nat): Port
    requires n <= |p.pending|
  {
    p.(pending := p.pending[n..], looped := p.looped + p.pending[..n], tx := Bump(p.tx, n))
  }

  lemma SentMore(p: Port, n: nat, m: nat)
    requires n + m <= |p.pending|
    ensures SentN(SentN(p, n), m) == SentN(p, n + m)
  {
    BumpBump(p.tx, n, m);
    assert p.pending[..n + m] == p.pending[..n] + p.pending[n..][..m];
  }

  function Drained(p: Port, fifosize: nat): Port {
    if p.xChar != 0 then p.(xChar := 0, tx := Bump(p.tx, 1))
    else if p.stopped then p
    else SentN(p, Min(|p.pending|, Budget(fifosize)))
  }

  /** What one call takes of `waiting` bytes: as many as the FIFO holds, but at least one. */
  function FirstCall(waiting: nat, fifo: int): (n: nat)
    requires waiting > 0
    ensures 1 <= n <= waiting
    ensures n == 1 || n <= fifo
    ensures n < waiting ==> n >= fifo
  {
    if fifo <= 1 then 1 else if waiting < fifo then waiting else fifo
  }

  lemma DrainedIs(p: Port, fifosize: nat)
    requires p.tx < WORD
    ensures p.xChar != 0 ==> Drained(p, fifosize) == p.(xChar := 0, tx := (p.tx + 1) % WORD)
    ensures p.xChar == 0 && (p.stopped || p.pending == []) ==> Drained(p, fifosize) == p
    ensures p.xChar == 0 && !p.stopped && p.pending != [] ==>
              var n := FirstCall(|p.pending|, Int32(fifosize));
              Drained(p, fifosize)
                == p.(pending := p.pending[n..], looped := p.looped + p.pending[..n], tx := (p.tx + n) % WORD)
  {
    if p.pending == [] {
      SentNone(p);
    }
  }

  /** uart_put_char keeps one cell free. */
  function Put(p: Port, cap: nat, c: byte): Port {
    if |p.pending| < cap then p.(pending := p.pending + [c]) else p
  }

  // ------------------------------------------------------------ the driver

  class UartPort {
    ghost const k: nat
    const buf: array<byte>
    const size: nat
    const fifosize: nat
    var head: nat
    var tail: nat
    var xChar: byte
    var tx: nat          // icount.tx, a 32-bit counter
    var stopped: bool
    var flip: seq<byte>  // characters inserted on the receive side
    var delivered: nat   // how many of them were pushed up to the line discipline
    var wakeups: nat

    ghost predicate Valid()
      reads this
    {
      k <= 31 && size == Pow2(k) == buf.Length && head < size && tail < size && tx < WORD
    }

    ghost function Model(): Port
      requires Valid()
      reads this, buf
    {
      Port(Ring(buf[..], tail, Distance(head, tail, size)), flip, xChar, tx, stopped)
    }

    constructor (ghost k: nat, buf: array<byte>, fifosize: nat)
      requires k <= 31 && buf.Length == Pow2(k)
      ensures Valid() && this.buf == buf && this.fifosize == fifosize
      ensures Model() == Port([], [], 0, 0, false)
    {
      this.k := k;
      this.buf := buf;
      this.fifosize := fifosize;
      size := buf.Length;
      head, tail, xChar, tx, stopped, flip, delivered, wakeups := 0, 0, 0, 0, false, [], 0, 0;
    }

    /** uart_circ_chars_pending */
    method CharsPending() returns (n: nat)
      requires Valid()
      ensures n == |Model().pending|
    {
      RingMasks(head, tail, k);
      n := And(Word(head - tail), size - 1);
    }

    /** uart_circ_chars_free */
    method CharsFree() returns (n: nat)
      requires Valid()
      ensures n == size - 1 - |Model().pending|
    {
      RingMasks(head, tail, k);
      n := And(Word(tail - (head + 1)), size - 1);
    }

    /** (index + 1) & (UART_XMIT_SIZE - 1) */
    method Following(index: nat) returns (next: nat)
      requires Valid() && index < size
      ensures next == Wrap(index + 1, size)
    {
      RingMasks(0, index, k);
      next := And(index + 1, size - 1);
    }

    /** virt_uart_tx_empty */
    method TxEmpty() returns (empty: bool)
      requires Valid()
      ensures empty == (Model().pending == [])
    {
      empty := head == tail;
    }

    /** uart_put_char */
    method PutChar(c: byte) returns (stored: bool)
      requires Valid()
      modifies this`head, buf
      ensures Valid()
      ensures Model() == Put(old(Model()), size - 1, c)
      ensures stored == (|old(Model()).pending| < size - 1)
      ensures Model().pending == old(Model()).pending + if stored then [c] else []
    {
      var free := CharsFree();
      stored := free != 0;
      if stored {
        RingPush(buf[..], tail, Distance(head, tail, size), c);
        buf[head] := c;
        head := Following(head);
      }
    }

    /** The body of the sending loop: the byte at the tail moves to the receive side. */
    method SendOne()
      requires Valid() && Model().pending != []
      modifies this`tail, this`tx, this`flip
      ensures Valid()
      ensures Model() == SentN(old(Model()), 1)
    {
      RingPop(buf[..], tail, Distance(head, tail, size));
      flip := flip + [buf[tail]];
      tail := Following(tail);
      tx := (tx + 1) % WORD;
    }

    /** The sending loop, entered with something to send. */
    method SendLoop()
      requires Valid() && Model().pending != []
      modifies this`tail, this`tx, this`flip
      ensures Valid()
      ensures Model() == SentN(old(Model()), Min(|old(Model()).pending|, Budget(fifosize)))
    {
      ghost var was := Model();
      ghost var sent := 0;
      var count := Int32(fifosize);
      while true
        invariant Valid()
        invariant 0 <= sent < |was.pending| && sent < Budget(fifosize)
        invariant count == Int32(fifosize) - sent
        invariant Model() == SentN(was, sent)
        decreases |was.pending| - sent
      {
        SendOne();
        SentMore(was, sent, 1);
        sent := sent + 1;
        var empty := TxEmpty();
        if empty {
          break;
        }
        count := count - 1;
        if count <= 0 {
          break;
        }
      }
    }

    /**
    virt_uart_start_tx. A pending x_char goes out alone and is forgotten; a stopped or
    empty port does nothing; otherwise the first bytes that wait, as many as the FIFO
    holds and at least one, are looped back.
    */
    method StartTx()
      requires Valid()
      modifies this`tail, this`xChar, this`tx, this`flip, this`delivered, this`wakeups
      ensures Valid()
      ensures Model() == Drained(old(Model()), fifosize)
      ensures var was, now := old(Model()), Model();
              && (was.xChar != 0 ==> now == was.(xChar := 0, tx := (was.tx + 1) % WORD))
              && (was.xChar == 0 && (was.stopped || was.pending == []) ==> now == was)
              && (was.xChar == 0 && !was.stopped && was.pending != [] ==>
                    var n := FirstCall(|was.pending|, Int32(fifosize));
                    now == was.(pending := was.pending[n..], looped := was.looped + was.pending[..n],
                                tx := (was.tx + n) % WORD))
      ensures if old(xChar) != 0 || stopped || old(Model()).pending == []
              then delivered == old(delivered) && wakeups == old(wakeups)
              else && delivered == |flip|
                   && wakeups == old(wakeups) + if |Model().pending| < WAKEUP_CHARS then 1 else 0
    {
      DrainedIs(Model(), fifosize);
      if xChar != 0 {
        tx := (tx + 1) % WORD;
        xChar := 0;
        return;
      }
      var empty := TxEmpty();
      if empty || stopped {
        return;
      }
      SendLoop();
      var pending := CharsPending();
      if pending < WAKEUP_CHARS {
        wakeups := wakeups + 1;
      }
      delivered := |flip|;
    }
  }

  // -------------------------------------------------------------- whole runs

  datatype Op = Push(c: byte) | Start | SendX(x: byte) | Flow(stop: bool)

  function Apply(p: Port, cap: nat, fifosize: nat, op: Op): Port {
    match op
    case Push(c) => Put(p, cap, c)
    case Start => Drained(p, fifosize)
    case SendX(x) => p.(xChar := x)
    case Flow(stop) => p.(stopped := stop)
  }

  function ApplyAll(p: Port, cap: nat, fifosize: nat, ops: seq<Op>): Port
    decreases |ops|
  {
    if ops == [] then p else ApplyAll(Apply(p, cap, fifosize, ops[0]), cap, fifosize, ops[1..])
  }

  /** The pushed bytes that found room. */
  function Accepted(p: Port, cap: nat, fifosize: nat, ops: seq<Op>): seq<byte>
    decreases |ops|
  {
    if ops == [] then []
    else (if ops[0].Push? && |p.pending| < cap then [ops[0].c] else [])
         + Accepted(Apply(p, cap, fifosize, ops[0]), cap, fifosize, ops[1..])
  }

  /** Calls that sent the out-of-band byte. */
  function XSent(p: Port, cap: nat, fifosize: nat, ops: seq<Op>): nat
    decreases |ops|
  {
    if ops == [] then 0
    else (if ops[0].Start? && p.xChar != 0 then 1 else 0)
         + XSent(Apply(p, cap, fifosize, ops[0]), cap, fifosize, ops[1..])
  }

  /**
  FIFO over any run: what was looped back followed by what still waits is what was
  looped back and waiting before, followed by every byte accepted since, in order.
  */
  lemma {:induction false} FifoOverRun(p: Port, cap: nat, fifosize: nat, ops: seq<Op>)
    ensures var p' := ApplyAll(p, cap, fifosize, ops);
            p'.looped + p'.pending == p.looped + p.pending + Accepted(p, cap, fifosize, ops)
    decreases |ops|
  {
    if ops != [] {
      var p1 := Apply(p, cap, fifosize, ops[0]);
      FifoOverRun(p1, cap, fifosize, ops[1..]);
      var one := if ops[0].Push? && |p.pending| < cap then [ops[0].c] else [];
      assert p1.looped + p1.pending == p.looped + p.pending + one by {
        if ops[0].Start? && p.xChar == 0 && !p.stopped {
          var n := Min(|p.pending|, Budget(fifosize));
          assert p.pending == p.pending[..n] + p.pending[n..];
        }
      }
    }
  }

  /** The transmit count moves by the bytes looped back plus the x_chars sent, modulo 2^32. */
  lemma {:induction false} TxOverRun(p: Port, cap: nat, fifosize: nat, ops: seq<Op>)
    requires p.tx < WORD
    ensures var p' := ApplyAll(p, cap, fifosize, ops);
            && |p'.looped| >= |p.looped|
            && p'.tx == Bump(p.tx, |p'.looped| - |p.looped| + XSent(p, cap, fifosize, ops))
    decreases |ops|
  {
    if ops != [] {
      var p1 := Apply(p, cap, fifosize, ops[0]);
      var x := if ops[0].Start? && p.xChar != 0 then 1 else 0;
      TxOverRun(p1, cap, fifosize, ops[1..]);
      var n := |p1.looped| - |p.looped|;
      assert p1.tx == Bump(p.tx, n + x);
      BumpBump(p.tx, n + x, |ApplyAll(p, cap, fifosize, ops).looped| - |p1.looped| + XSent(p1, cap, fifosize, ops[1..]));
    }
  }

  function Starts(n: nat): (ops: seq<Op>)
    ensures |ops| == n
  {
    seq(n, _ => Start)
  }

  /** What n calls with a budget of b take from len bytes. */
  function Taken(len: nat, b: nat, n: nat): (c: nat)
    ensures c <= len
    decreases n
  {
    if n == 0 then 0 else Min(len, b) + Taken(len - Min(len, b), b, n - 1)
  }

  lemma {:induction false} TakenIs(len: nat, b: nat, n: nat)
    ensures Taken(len, b, n) == Min(len, n * b)
    decreases n
  {
    if n > 0 {
      TakenIs(len - Min(len, b), b, n - 1);
      assert n * b == (n - 1) * b + b;
      assert (n - 1) * b >= 0;
    }
  }

  lemma SentNone(p: Port)
    requires p.tx < WORD
    ensures SentN(p, 0) == p
  {
    assert p.pending[0..] == p.pending && p.looped + p.pending[..0] == p.looped;
  }

  lemma StartFirst(p: Port, cap: nat, fifosize: nat, n: nat)
    requires n > 0
    ensures ApplyAll(p, cap, fifosize, Starts(n)) == ApplyAll(Drained(p, fifosize), cap, fifosize, Starts(n - 1))
  {
    assert Starts(n)[1..] == Starts(n - 1);
  }

  /** One more call, after k bytes have gone. */
  lemma DrainedMore(p: Port, fifosize: nat, k: nat)
    requires p.xChar == 0 && !p.stopped && k <= |p.pending|
    ensures Drained(SentN(p, k), fifosize) == SentN(p, k + Min(|p.pending| - k, Budget(fifosize)))
  {
    SentMore(p, k, Min(|p.pending| - k, Budget(fifosize)));
  }

  lemma {:induction false} DrainTaken(p: Port, cap: nat, fifosize: nat, k: nat, n: nat)
    requires p.xChar == 0 && !p.stopped && k <= |p.pending|
    ensures ApplyAll(SentN(p, k), cap, fifosize, Starts(n))
              == SentN(p, k + Taken(|p.pending| - k, Budget(fifosize), n))
    decreases n
  {
    if n > 0 {
      StartFirst(SentN(p, k), cap, fifosize, n);
      DrainedMore(p, fifosize, k);
      DrainTaken(p, cap, fifosize, k + Min(|p.pending| - k, Budget(fifosize)), n - 1);
    }
  }

  /** With no pushes, n calls leave exactly what n budgets do not cover. */
  lemma DrainProgress(p: Port, cap: nat, fifosize: nat, n: nat)
    requires p.xChar == 0 && !p.stopped && p.tx < WORD
    ensures var p' := ApplyAll(p, cap, fifosize, Starts(n));
            var gone := Min(|p.pending|, n * Budget(fifosize));
            gone >= 0 && p' == SentN(p, gone)
  {
    SentNone(p);
    DrainTaken(p, cap, fifosize, 0, n);
    TakenIs(|p.pending|, Budget(fifosize), n);
  }

  // ----------------------------------------------------- the out-of-band byte

  /** x_chars handed to the port. */
  function XAsked(ops: seq<Op>): nat {
    if ops == [] then 0 else (if ops[0].SendX? && ops[0].x != 0 then 1 else 0) + XAsked(ops[1..])
  }

  function XPending(p: Port): nat {
    if p.xChar != 0 then 1 else 0
  }

  /** No x_char is sent twice: those sent and the one that still waits are no more than were asked for. */
  lemma {:induction false} XSentOnce(p: Port, cap: nat, fifosize: nat, ops: seq<Op>)
    ensures XSent(p, cap, fifosize, ops) + XPending(ApplyAll(p, cap, fifosize, ops)) <= XAsked(ops) + XPending(p)
    decreases |ops|
  {
    if ops != [] {
      XSentOnce(Apply(p, cap, fifosize, ops[0]), cap, fifosize, ops[1..]);
    }
  }

  /**
  A pending x_char takes one call of its own, even on a stopped port: n + 1 calls then
  do what n calls do without it, and the count has moved by one.
  */
  lemma XCharFirst(p: Port, cap: nat, fifosize: nat, n: nat)
    requires p.xChar != 0
    ensures ApplyAll(p, cap, fifosize, Starts(n + 1))
              == ApplyAll(p.(xChar := 0, tx := (p.tx + 1) % WORD), cap, fifosize, Starts(n))
    ensures !p.stopped ==>
              var sent := Min(|p.pending|, n * Budget(fifosize));
              && sent >= 0
              && ApplyAll(p, cap, fifosize, Starts(n + 1)).looped == p.looped + p.pending[..sent]
              && ApplyAll(p, cap, fifosize, Starts(n + 1)).pending == p.pending[sent..]
  {
    StartFirst(p, cap, fifosize, n + 1);
    if !p.stopped {
      DrainProgress(p.(xChar := 0, tx := (p.tx + 1) % WORD), cap, fifosize, n);
    }
  }

  /** A stopped port without an x_char keeps everything, however often it is called. */
  lemma {:induction false} StoppedKeepsAll(p: Port, cap: nat, fifosize: nat, n: nat)
    requires p.xChar == 0 && p.stopped
    ensures ApplyAll(p, cap, fifosize, Starts(n)) == p
    decreases n
  {
    if n > 0 {
      StartFirst(p, cap, fifosize, n);
      StoppedKeepsAll(p, cap, fifosize, n - 1);
    }
  }

  lemma OpFirst(p: Port, cap: nat, fifosize: nat, op: Op, n: nat)
    ensures ApplyAll(p, cap, fifosize, [op] + Starts(n)) == ApplyAll(Apply(p, cap, fifosize, op), cap, fifosize, Starts(n))
  {
    assert ([op] + Starts(n))[1..] == Starts(n);
  }

  /** Stopping holds everything back for any number of calls; going on sends as if it had never been stopped. */
  lemma StopAndGo(p: Port, cap: nat, fifosize: nat, n: nat)
    requires p.xChar == 0 && p.tx < WORD
    ensures ApplyAll(p, cap, fifosize, [Flow(true)] + Starts(n)) == p.(stopped := true)
    ensures var sent := Min(|p.pending|, n * Budget(fifosize));
            var p' := ApplyAll(p, cap, fifosize, [Flow(false)] + Starts(n));
            && sent >= 0 && !p'.stopped
            && p'.looped == p.looped + p.pending[..sent] && p'.pending == p.pending[sent..]
  {
    OpFirst(p, cap, fifosize, Flow(true), n);
    StoppedKeepsAll(p.(stopped := true), cap, fifosize, n);
    OpFirst(p, cap, fifosize, Flow(false), n);
    DrainProgress(p.(stopped := false), cap, fifosize, n);
  }

  /** An x_char handed over goes out with the next call, ahead of everything that waits. */
  lemma SendXGoesFirst(p: Port, cap: nat, fifosize: nat, x: byte)
    requires x != 0
    ensures ApplyAll(p, cap, fifosize, [SendX(x)] + Starts(1)) == p.(xChar := 0, tx := (p.tx + 1) % WORD)
  {
    OpFirst(p, cap, fifosize, SendX(x), 1);
    XCharFirst(p.(xChar := x), cap, fifosize, 0);
    assert Starts(0) == [];
  }
}
