/**
The light sensor's handlers interleaved: the tick handler, the trigger handler and
any number of configuration writers, each holding the mutex over its own accesses,
one byte read or written per step. The trigger handler pushes its sample after it
has let the mutex go. There is one timer and one trigger thread.
*/
module FakeIioInterleaving {
  import FakeIio
  import opened Memory

  datatype Who = Ticker | Trigger | Writer(i: nat)

  datatype TickPc = TickLock | Count | Halve | Compare(i: nat) | TickUnlock
  datatype TrigPc = TrigLock | Fetch(i: nat) | TrigUnlock | Push
  datatype WritePc = WriteLock | Store | WriteUnlock

  /** A pushed sample and the number of ticks that had happened when it was taken. */
  datatype Sample = Sample(data: seq<byte>, tick: nat)

  datatype State = State(
    owner: Option<Who>,
    lux: seq<byte>,
    high: seq<byte>,
    ticker: TickPc,
    trigger: TrigPc,
    writers: seq<WritePc>,
    data: seq<byte>,     // the trigger handler's local buffer
    taken: nat,          // ticks when it was filled
    ticks: nat,          // increments of the counter so far
    events: nat,
    samples: seq<Sample>)

  /** A writer's step says which byte it stores. */
  datatype Move = TickMove | TrigMove | WriteMove(i: nat, chan: nat, val: byte)

  function Init(writers: nat): State {
    State(None, [0, 0], [0, 0], TickLock, TrigLock, seq(writers, _ => WriteLock), [0, 0], 0, 0, 0, [])
  }

  predicate Sized(s: State) {
    |s.lux| == |s.high| == |s.data| == 2
  }

  predicate Enabled(s: State, m: Move) {
    match m
    case TickMove => (s.ticker.TickLock? ==> s.owner == None) && (s.ticker.Compare? ==> s.ticker.i < 2)
    case TrigMove => (s.trigger.TrigLock? ==> s.owner == None) && (s.trigger.Fetch? ==> s.trigger.i < 2)
    case WriteMove(i, chan, _) => i < |s.writers| && chan < 2 && (s.writers[i].WriteLock? ==> s.owner == None)
  }

  function TickStep(s: State): State
    requires Sized(s) && Enabled(s, TickMove)
  {
    match s.ticker
    case TickLock => s.(owner := Some(Ticker), ticker := Count)
    case Count => s.(lux := s.lux[0 := FakeIio.Next(s.lux[0])], ticks := s.ticks + 1, ticker := Halve)
    case Halve => s.(lux := s.lux[1 := s.lux[0] / 2], ticker := Compare(0))
    case Compare(i) =>
      s.(events := if s.lux[i] == s.high[i] then s.events + 1 else s.events,
         ticker := if i == 0 then Compare(1) else TickUnlock)
    case TickUnlock => s.(owner := None, ticker := TickLock)
  }

  function TrigStep(s: State): State
    requires Sized(s) && Enabled(s, TrigMove)
  {
    match s.trigger
    case TrigLock => s.(owner := Some(Trigger), trigger := Fetch(0))
    case Fetch(i) =>
      s.(data := s.data[i := s.lux[i]], taken := s.ticks, trigger := if i == 0 then Fetch(1) else TrigUnlock)
    case TrigUnlock => s.(owner := None, trigger := Push)
    case Push => s.(samples := s.samples + [Sample(s.data, s.taken)], trigger := TrigLock)
  }

  function WriteStep(s: State, i: nat, chan: nat, val: byte): State
    requires Sized(s) && Enabled(s, WriteMove(i, chan, val))
  {
    match s.writers[i]
    case WriteLock => s.(owner := Some(Writer(i)), writers := s.writers[i := Store])
    case Store => s.(high := s.high[chan := val], writers := s.writers[i := WriteUnlock])
    case WriteUnlock => s.(owner := None, writers := s.writers[i := WriteLock])
  }

  function Next(s: State, m: Move): State
    requires Sized(s) && Enabled(s, m)
  {
    match m
    case TickMove => TickStep(s)
    case TrigMove => TrigStep(s)
    case WriteMove(i, chan, val) => WriteStep(s, i, chan, val)
  }

  // ------------------------------------------------------------- invariants

  /** The mutex is held exactly by the one process inside its locked region. */
  ghost predicate Locked(s: State) {
    && (s.owner == Some(Ticker) <==> !s.ticker.TickLock?)
    && (s.owner == Some(Trigger) <==> s.trigger.Fetch? || s.trigger.TrigUnlock?)
    && (s.owner.Some? && s.owner.value.Writer? ==> s.owner.value.i < |s.writers|)
    && (forall i :: 0 <= i < |s.writers| ==> (s.owner == Some(Writer(i)) <==> !s.writers[i].WriteLock?))
  }

  predicate Consistent(data: seq<byte>, tick: nat) {
    |data| == 2 && data[1] == data[0] / 2 && data[0] == tick % 256
  }

  ghost predicate Inv(s: State) {
    && Sized(s) && Locked(s)
    && s.lux[0] == s.ticks % 256
    && (!s.ticker.Halve? ==> Consistent(s.lux, s.ticks))
    && (s.trigger.Fetch? ==> s.trigger.i <= 1)
    && (s.ticker.Compare? ==> s.ticker.i <= 1)
    && (s.trigger == Fetch(1) ==> s.data[0] == s.lux[0] && s.taken == s.ticks)
    && (s.trigger.TrigUnlock? || s.trigger.Push? ==> Consistent(s.data, s.taken))
    && s.taken <= s.ticks
    && (forall k :: 0 <= k < |s.samples| ==> Consistent(s.samples[k].data, s.samples[k].tick))
    && (forall k :: 0 <= k < |s.samples| ==> s.samples[k].tick <= s.taken)
    && (forall j, k :: 0 <= j < k < |s.samples| ==> s.samples[j].tick <= s.samples[k].tick)
  }

  lemma TickKeepsLocked(s: State)
    requires Inv(s) && Enabled(s, TickMove)
    ensures Locked(TickStep(s))
  {
  }

  lemma TickKeepsBytes(s: State)
    requires Inv(s) && Enabled(s, TickMove)
    ensures var s' := TickStep(s);
            && Sized(s') && s'.lux[0] == s'.ticks % 256 && s'.ticks >= s.ticks
            && (!s'.ticker.Halve? ==> Consistent(s'.lux, s'.ticks))
            && (s.trigger == Fetch(1) ==> s'.lux[0] == s.lux[0] && s'.ticks == s.ticks)
            && (s'.ticker.Compare? ==> s'.ticker.i <= 1)
  {
  }

  lemma TickKeepsInv(s: State)
    requires Inv(s) && Enabled(s, TickMove)
    ensures Inv(TickStep(s))
  {
    TickKeepsLocked(s);
    TickKeepsBytes(s);
  }

  lemma TrigKeepsInv(s: State)
    requires Inv(s) && Enabled(s, TrigMove)
    ensures Inv(TrigStep(s))
  {
  }

  lemma WriteKeepsInv(s: State, i: nat, chan: nat, val: byte)
    requires Inv(s) && Enabled(s, WriteMove(i, chan, val))
    ensures Inv(WriteStep(s, i, chan, val))
  {
  }

  lemma StepKeepsInv(s: State, m: Move)
    requires Inv(s) && Enabled(s, m)
    ensures Inv(Next(s, m))
  {
    match m
    case TickMove => TickKeepsInv(s);
    case TrigMove => TrigKeepsInv(s);
    case WriteMove(i, chan, val) => WriteKeepsInv(s, i, chan, val);
  }

  ghost predicate CanRun(s: State, run: seq<Move>)
    decreases |run|
  {
    run == [] || (Sized(s) && Enabled(s, run[0]) && CanRun(Next(s, run[0]), run[1..]))
  }

  ghost function Exec(s: State, run: seq<Move>): State
    requires CanRun(s, run)
    decreases |run|
  {
    if run == [] then s else Exec(Next(s, run[0]), run[1..])
  }

  lemma {:induction false} RunKeepsInv(s: State, run: seq<Move>)
    requires Inv(s) && CanRun(s, run)
    ensures Inv(Exec(s, run))
    decreases |run|
  {
    if run != [] {
      StepKeepsInv(s, run[0]);
      RunKeepsInv(Next(s, run[0]), run[1..]);
    }
  }

  /**
  In every interleaving each pushed sample is one moment of the sensor: its second
  byte is half its first, its first is the tick count modulo 256 at one instant, and
  samples come out in tick order.
  */
  lemma SnapshotsConsistent(writers: nat, run: seq<Move>)
    requires CanRun(Init(writers), run)
    ensures var s := Exec(Init(writers), run);
            && (forall k :: 0 <= k < |s.samples| ==> Consistent(s.samples[k].data, s.samples[k].tick))
            && (forall k :: 0 <= k < |s.samples| ==> s.samples[k].tick <= s.ticks)
            && (forall j, k :: 0 <= j < k < |s.samples| ==> s.samples[j].tick <= s.samples[k].tick)
  {
    RunKeepsInv(Init(writers), run);
  }

  /** No interleaving gets stuck: some process can always move. */
  lemma NeverStuck(s: State)
    requires Inv(s)
    ensures exists m :: Enabled(s, m)
  {
    if s.owner == None {
      assert Enabled(s, TickMove);
    } else {
      match s.owner.value
      case Ticker => assert Enabled(s, TickMove);
      case Trigger => assert Enabled(s, TrigMove);
      case Writer(i) => assert Enabled(s, WriteMove(i, 0, 0));
    }
  }

  function Triggers(n: nat): (run: seq<Move>)
    ensures |run| == n && forall k :: 0 <= k < n ==> run[k] == TrigMove
  {
    seq(n, _ => TrigMove)
  }

  /** Undisturbed, the trigger handler pushes the sensor's bytes as they are and leaves all else alone. */
  lemma TriggerTakesSample(s: State)
    requires Inv(s) && s.owner == None && s.trigger.TrigLock?
    ensures CanRun(s, Triggers(5))
    ensures Exec(s, Triggers(5))
              == s.(data := s.lux, taken := s.ticks, samples := s.samples + [Sample(s.lux, s.ticks)])
  {
    var s1 := s.(owner := Some(Trigger), trigger := Fetch(0));
    var s2 := s1.(data := s.data[0 := s.lux[0]], taken := s.ticks, trigger := Fetch(1));
    var s3 := s2.(data := s.lux, trigger := TrigUnlock);
    var s4 := s3.(owner := None, trigger := Push);
    var s5 := s.(data := s.lux, taken := s.ticks, samples := s.samples + [Sample(s.lux, s.ticks)]);
    assert Next(s, TrigMove) == s1 && Next(s1, TrigMove) == s2;
    assert s2.data[1 := s.lux[1]] == s.lux;
    assert Next(s2, TrigMove) == s3 && Next(s3, TrigMove) == s4 && Next(s4, TrigMove) == s5;
    assert Triggers(5)[1..] == Triggers(4) && Triggers(4)[1..] == Triggers(3);
    assert Triggers(3)[1..] == Triggers(2) && Triggers(2)[1..] == Triggers(1) && Triggers(1)[1..] == [];
    assert CanRun(s5, []);
    assert CanRun(s4, Triggers(1)) && Exec(s4, Triggers(1)) == s5;
    assert CanRun(s3, Triggers(2)) && Exec(s3, Triggers(2)) == s5;
    assert CanRun(s2, Triggers(3)) && Exec(s2, Triggers(3)) == s5;
    assert CanRun(s1, Triggers(4)) && Exec(s1, Triggers(4)) == s5;
  }

  // ---------------------------------------------------------- serialisation

  /** What the mutex protects, and what the tick handler tells the outside. */
  datatype Core = Core(lux: seq<byte>, high: seq<byte>, ticks: nat, events: nat)

  /** A handler's locked region as one indivisible operation. */
  datatype Atomic = Tick | Set(chan: nat, val: byte)

  function CoreOf(s: State): Core {
    Core(s.lux, s.high, s.ticks, s.events)
  }

  predicate CoreOk(c: Core) {
    |c.lux| == |c.high| == 2
  }

  function Meets(lux: byte, high: byte): nat {
    if lux == high then 1 else 0
  }

  /** A whole tick: the counter steps and wraps, its half follows, both are compared. */
  function Ticked(c: Core): Core
    requires CoreOk(c)
  {
    var before: int := c.lux[0];
    var value: byte := (before + 1) % 256;
    Core([value, value / 2], c.high, c.ticks + 1,
         c.events + Meets(value, c.high[0]) + Meets(value / 2, c.high[1]))
  }

  function Done(c: Core, a: Atomic): Core
    requires CoreOk(c)
  {
    match a
    case Tick => Ticked(c)
    case Set(chan, val) => if chan < 2 then c.(high := c.high[chan := val]) else c
  }

  function DoneAll(c: Core, ops: seq<Atomic>): (c': Core)
    requires CoreOk(c)
    ensures CoreOk(c')
  {
    if ops == [] then c else Done(DoneAll(c, ops[..|ops| - 1]), ops[|ops| - 1])
  }

  /** The operation a move belongs to, if it is the move that first writes to what is protected. */
  function Takes(s: State, m: Move): seq<Atomic>
    requires Enabled(s, m)
  {
    match m
    case TickMove => if s.ticker.Count? then [Tick] else []
    case TrigMove => []
    case WriteMove(i, chan, val) => if s.writers[i].Store? then [Set(chan, val)] else []
  }

  ghost function Order(s: State, run: seq<Move>): seq<Atomic>
    requires CanRun(s, run)
    decreases |run|
  {
    if run == [] then [] else Takes(s, run[0]) + Order(Next(s, run[0]), run[1..])
  }

  /** The protected data is what the operations so far make of it, but for the rest of a tick under way. */
  ghost predicate Keeps(s: State, c: Core) {
    && CoreOk(c) && Sized(s)
    && s.high == c.high && s.ticks == c.ticks && s.lux[0] == c.lux[0]
    && (if s.ticker.Halve? then c.lux[1] == s.lux[0] / 2 else c.lux[1] == s.lux[1])
    && c.events == s.events + (match s.ticker
                               case Halve => Meets(c.lux[0], c.high[0]) + Meets(c.lux[1], c.high[1])
                               case Compare(i) => (if i == 0 then Meets(c.lux[0], c.high[0]) else 0)
                                                  + Meets(c.lux[1], c.high[1])
                               case _ => 0)
  }

  lemma TickKeepsCore(s: State, c: Core)
    requires Inv(s) && Enabled(s, TickMove) && Keeps(s, c)
    ensures Keeps(TickStep(s), if s.ticker.Count? then Ticked(c) else c)
  {
  }

  lemma WriteKeepsCore(s: State, c: Core, i: nat, chan: nat, val: byte)
    requires Inv(s) && Enabled(s, WriteMove(i, chan, val)) && Keeps(s, c)
    ensures Keeps(WriteStep(s, i, chan, val), if s.writers[i].Store? then Done(c, Set(chan, val)) else c)
  {
    if s.writers[i].Store? {
      assert s.owner == Some(Writer(i));
      assert s.ticker.TickLock?;
    }
  }

  lemma DoneSnoc(c: Core, ops: seq<Atomic>, a: Atomic)
    requires CoreOk(c)
    ensures DoneAll(c, ops + [a]) == Done(DoneAll(c, ops), a)
  {
    assert (ops + [a])[..|ops|] == ops;
  }

  lemma {:induction false} DoneConcat(c: Core, a: seq<Atomic>, b: seq<Atomic>)
    requires CoreOk(c)
    ensures DoneAll(c, a + b) == DoneAll(DoneAll(c, a), b)
    decreases |b|
  {
    if b == [] {
      assert a + b == a;
    } else {
      var front, last := b[..|b| - 1], b[|b| - 1];
      assert a + b == (a + front) + [last];
      DoneSnoc(c, a + front, last);
      DoneConcat(c, a, front);
    }
  }

  lemma StepKeepsCore(s: State, c: Core, m: Move)
    requires Inv(s) && Enabled(s, m) && Keeps(s, c)
    ensures Keeps(Next(s, m), DoneAll(c, Takes(s, m)))
  {
    assert DoneAll(c, []) == c;
    match m
    case TickMove =>
      DoneSnoc(c, [], Tick);
      assert [] + [Tick] == [Tick];
      TickKeepsCore(s, c);
    case TrigMove =>
    case WriteMove(i, chan, val) =>
      DoneSnoc(c, [], Set(chan, val));
      assert [] + [Set(chan, val)] == [Set(chan, val)];
      WriteKeepsCore(s, c, i, chan, val);
  }

  lemma {:induction false} RunKeepsCore(s: State, c: Core, run: seq<Move>)
    requires Inv(s) && Keeps(s, c) && CanRun(s, run)
    ensures Keeps(Exec(s, run), DoneAll(c, Order(s, run)))
    decreases |run|
  {
    if run == [] {
      assert DoneAll(c, []) == c;
    } else {
      StepKeepsInv(s, run[0]);
      StepKeepsCore(s, c, run[0]);
      var c1 := DoneAll(c, Takes(s, run[0]));
      RunKeepsCore(Next(s, run[0]), c1, run[1..]);
      DoneConcat(c, Takes(s, run[0]), Order(Next(s, run[0]), run[1..]));
    }
  }

  /**
  Every interleaving is equivalent to a sequential one: whenever no tick is under way,
  counter, half, thresholds, tick count and event count are what whole ticks and whole
  threshold writes make of the start, one after the other.
  */
  lemma Serialised(writers: nat, run: seq<Move>)
    requires CanRun(Init(writers), run) && Exec(Init(writers), run).ticker.TickLock?
    ensures CoreOf(Exec(Init(writers), run)) == DoneAll(CoreOf(Init(writers)), Order(Init(writers), run))
  {
    RunKeepsInv(Init(writers), run);
    RunKeepsCore(Init(writers), CoreOf(Init(writers)), run);
  }

  function TickMoves(n: nat): (run: seq<Move>)
    ensures |run| == n && forall k :: 0 <= k < n ==> run[k] == TickMove
  {
    seq(n, _ => TickMove)
  }

  lemma TickFirst(s: State, n: nat)
    requires n > 0 && Sized(s) && Enabled(s, TickMove) && CanRun(Next(s, TickMove), TickMoves(n - 1))
    ensures CanRun(s, TickMoves(n))
    ensures Exec(s, TickMoves(n)) == Exec(Next(s, TickMove), TickMoves(n - 1))
  {
    assert TickMoves(n)[1..] == TickMoves(n - 1);
  }

  /** Undisturbed, the tick handler does one whole tick in six moves and changes nothing else. */
  lemma WholeTick(s: State)
    requires Inv(s) && s.owner == None && s.ticker.TickLock?
    ensures CanRun(s, TickMoves(6))
    ensures var c := Ticked(CoreOf(s));
            Exec(s, TickMoves(6)) == s.(lux := c.lux, ticks := s.ticks + 1, events := c.events)
  {
    var c := Ticked(CoreOf(s));
    Counts(s);
    ComparesAndUnlocks(s.(owner := Some(Ticker), lux := c.lux, ticks := s.ticks + 1, ticker := Compare(0)));
    TickFirst(s.(owner := Some(Ticker), lux := s.lux[0 := c.lux[0]], ticks := s.ticks + 1, ticker := Halve), 4);
    TickFirst(s.(owner := Some(Ticker), ticker := Count), 5);
    TickFirst(s, 6);
  }

  /** The first half of a tick: the mutex, the counter, its half. */
  lemma Counts(s: State)
    requires Sized(s) && s.owner == None && s.ticker.TickLock?
    ensures var c := Ticked(CoreOf(s));
            var s1 := s.(owner := Some(Ticker), ticker := Count);
            var s2 := s.(owner := Some(Ticker), lux := s.lux[0 := c.lux[0]], ticks := s.ticks + 1, ticker := Halve);
            var s3 := s.(owner := Some(Ticker), lux := c.lux, ticks := s.ticks + 1, ticker := Compare(0));
            && Next(s, TickMove) == s1
            && Next(s1, TickMove) == s2
            && Next(s2, TickMove) == s3
  {
    var c := Ticked(CoreOf(s));
    assert s.lux[0 := c.lux[0]][1 := c.lux[0] / 2] == c.lux;
  }

  /** The second half of a tick: both comparisons, then the mutex. */
  lemma ComparesAndUnlocks(s: State)
    requires Sized(s) && s.ticker == Compare(0)
    ensures CanRun(s, TickMoves(3))
    ensures Exec(s, TickMoves(3))
              == s.(owner := None, ticker := TickLock,
                    events := s.events + Meets(s.lux[0], s.high[0]) + Meets(s.lux[1], s.high[1]))
  {
    var s1 := s.(events := s.events + Meets(s.lux[0], s.high[0]), ticker := Compare(1));
    var s2 := s1.(events := s1.events + Meets(s.lux[1], s.high[1]), ticker := TickUnlock);
    var s3 := s2.(owner := None, ticker := TickLock);
    assert Next(s, TickMove) == s1 && Next(s1, TickMove) == s2 && Next(s2, TickMove) == s3;
    assert TickMoves(0) == [] && CanRun(s3, TickMoves(0));
    TickFirst(s2, 1);
    TickFirst(s1, 2);
    TickFirst(s, 3);
  }

  /** Undisturbed, a writer stores its byte and leaves the mutex free. */
  lemma WriterStores(s: State, i: nat, chan: nat, val: byte)
    requires Inv(s) && s.owner == None && i < |s.writers| && chan < 2
    ensures var run := [WriteMove(i, chan, val), WriteMove(i, chan, val), WriteMove(i, chan, val)];
            CanRun(s, run) && Exec(s, run) == s.(high := s.high[chan := val])
  {
    var m := WriteMove(i, chan, val);
    var s1 := Next(s, m);
    var s2 := Next(s1, m);
    var s3 := Next(s2, m);
    assert s3.writers == s.writers;
    assert [m, m, m][1..] == [m, m] && [m, m][1..] == [m] && [m][1..] == [];
    assert CanRun(s3, []);
    assert CanRun(s2, [m]) && Exec(s2, [m]) == s3;
    assert CanRun(s1, [m, m]) && Exec(s1, [m, m]) == s3;
  }
}
