/**
The button driver: an interrupt arms a debounce timer, the timer callback sets an
atomic flag and wakes the wait queue, and any number of blocking and non-blocking
readers and pollers consume the flag.

The test of the flag, the entry into the wait queue, the recheck, the sleep, the
second read and the clear are separate atomic steps of a reader, and so are the
callback's read of the pin, its store and its wake-up. `wait_event_interruptible`,
`poll` and the timer are spelled out as the kernel defines them; one timer's
callback never runs twice at once, and time does not wrap.
*/
module ButtonWait {
  import opened Memory

  /** Where a reader is inside `read`; `signalled` was sampled on entering the queue. */
  datatype ReaderPc =
    | Outside
    | Test
    | FastCheck
    | Prepare
    | Recheck(signalled: bool)
    | Sleep
    | Finish
    | Reread
    | Clear(value: nat)

  /** `running` is the task state, false while TASK_INTERRUPTIBLE. */
  datatype Reader = Reader(pc: ReaderPc, nonblock: bool, running: bool, queued: bool, signal: bool)

  datatype PollerPc = Away | Register | Mask | Wait

  datatype Poller = Poller(pc: PollerPc, registered: bool, triggered: bool)

  datatype Handler = Idle | ReadPin | Set | Wake

  /** One timer callback: when it ran, and when the latest interrupt before it was. */
  datatype Firing = Firing(at: nat, irq: nat)

  datatype State = State(
    key: nat,
    handler: Handler,
    readers: seq<Reader>,
    pollers: seq<Poller>,
    now: nat,
    armed: Option<nat>,
    lastIrq: nat,
    irqs: nat,
    firings: seq<Firing>,
    lows: nat,           // callbacks that found the pin low and stored 1
    values: seq<nat>)    // what successful reads handed to user space

  datatype Event =
    | Tick(d: nat)
    | Interrupt
    | Fire
    | Callback(low: bool)
    | Begin(i: nat, nonblock: bool)
    | Read(i: nat)
    | Signal(i: nat)
    | Poll(j: nat)

  const AWAKE := Reader(Outside, false, true, false, false)

  function Init(readers: nat, pollers: nat): State {
    State(0, Idle, seq(readers, _ => AWAKE), seq(pollers, _ => Poller(Away, false, false)),
          0, None, 0, 0, [], 0, [])
  }

  // -------------------------------------------------------------- the steps

  /** One atomic step of `char_dev_read`; the second result is what it returns, if it does. */
  function ReadStep(r: Reader, key: nat): (Reader, Option<nat>)
    requires !r.pc.Outside?
  {
    match r.pc
    case Test =>
      if key != 0 then (r.(pc := Reread), None)
      else if r.nonblock then (r.(pc := Outside), None)
      else (r.(pc := FastCheck), None)
    case FastCheck => (r.(pc := if key != 0 then Reread else Prepare), None)
    case Prepare =>
      if r.signal then (r.(pc := Recheck(true), queued := false), None)
      else (r.(pc := Recheck(false), queued := true, running := false), None)
    case Recheck(signalled) =>
      if key != 0 then (r.(pc := Finish), None)
      else if signalled then (r.(pc := Outside, signal := false), None)
      else (r.(pc := Sleep), None)
    case Sleep => (r.(pc := Prepare), None)
    case Finish => (r.(pc := Reread, running := true, queued := false), None)
    case Reread => (r.(pc := Clear(key)), None)
    case Clear(value) => (r.(pc := Outside), Some(value))
  }

  /** Asleep: `schedule` was called in TASK_INTERRUPTIBLE and nothing has woken the task. */
  predicate Asleep(r: Reader) {
    r.pc.Sleep? && !r.running
  }

  predicate PollerAsleep(q: Poller) {
    q.pc.Wait? && !q.triggered
  }

  /** One step of a process in `poll`: `char_dev_poll` registers, then tests. */
  function PollStep(q: Poller, key: nat): Poller {
    match q.pc
    case Away => Poller(Register, false, false)
    case Register => q.(pc := Mask, registered := true)
    case Mask => if key != 0 then Poller(Away, false, q.triggered) else q.(pc := Wait)
    case Wait => q.(pc := Mask, triggered := false)
  }

  /** wake_up_interruptible, for one queue entry. */
  function WakeReader(r: Reader): Reader {
    if r.queued && !r.running then r.(running := true, queued := false) else r
  }

  function WakePoller(q: Poller): Poller {
    if q.registered then q.(triggered := true) else q
  }

  function WakeAll(s: State): (s': State)
    ensures |s'.readers| == |s.readers| && |s'.pollers| == |s.pollers|
    ensures forall i :: 0 <= i < |s.readers| ==> s'.readers[i] == WakeReader(s.readers[i])
    ensures forall j :: 0 <= j < |s.pollers| ==> s'.pollers[j] == WakePoller(s.pollers[j])
  {
    s.(readers := seq(|s.readers|, i requires 0 <= i < |s.readers| => WakeReader(s.readers[i])),
       pollers := seq(|s.pollers|, j requires 0 <= j < |s.pollers| => WakePoller(s.pollers[j])))
  }

  predicate Enabled(s: State, e: Event) {
    match e
    case Tick(_) => true
    case Interrupt => true
    case Fire => s.handler.Idle? && s.armed.Some? && s.armed.value <= s.now
    case Callback(_) => !s.handler.Idle?
    case Begin(i, _) => i < |s.readers| && s.readers[i].pc.Outside?
    case Read(i) => i < |s.readers| && !s.readers[i].pc.Outside? && !Asleep(s.readers[i])
    case Signal(i) => i < |s.readers|
    case Poll(j) => j < |s.pollers| && !PollerAsleep(s.pollers[j])
  }

  /** The debounce interval is `d`. */
  function Next(d: nat, s: State, e: Event): State
    requires Enabled(s, e)
  {
    match e
    case Tick(t) => s.(now := s.now + t)
    case Interrupt => s.(armed := Some(s.now + d), lastIrq := s.now, irqs := s.irqs + 1)
    case Fire => s.(armed := None, handler := ReadPin, firings := s.firings + [Firing(s.now, s.lastIrq)])
    case Callback(low) =>
      (match s.handler
       case ReadPin => s.(handler := if low then Set else Idle)
       case Set => s.(key := 1, handler := Wake, lows := s.lows + 1)
       case Wake => WakeAll(s).(handler := Idle))
    case Begin(i, nonblock) => s.(readers := s.readers[i := s.readers[i].(pc := Test, nonblock := nonblock)])
    case Read(i) =>
      var (r, done) := ReadStep(s.readers[i], s.key);
      var s1 := s.(readers := s.readers[i := r]);
      if done.Some? then s1.(key := 0, values := s.values + [done.value]) else s1
    case Signal(i) => s.(readers := s.readers[i := s.readers[i].(signal := true, running := true)])
    case Poll(j) => s.(pollers := s.pollers[j := PollStep(s.pollers[j], s.key)])
  }

  ghost predicate CanRun(d: nat, s: State, run: seq<Event>)
    decreases |run|
  {
    run == [] || (Enabled(s, run[0]) && CanRun(d, Next(d, s, run[0]), run[1..]))
  }

  ghost function Exec(d: nat, s: State, run: seq<Event>): State
    requires CanRun(d, s, run)
    decreases |run|
  {
    if run == [] then s else Exec(d, Next(d, s, run[0]), run[1..])
  }

  ghost predicate Reached(d: nat, readers: nat, pollers: nat, s: State) {
    exists run :: CanRun(d, Init(readers, pollers), run) && s == Exec(d, Init(readers, pollers), run)
  }

  // ------------------------------------------------------------- invariants

  /**
  A reader that is not runnable is still in the queue, and it saw the flag clear; only
  the wait macro's code is ever queued.
  */
  predicate ReaderOk(s: State, r: Reader) {
    && (!r.running ==> r.queued && (r.pc.Sleep? || r.pc == Recheck(false) || r.pc.Finish?))
    && (r.nonblock ==> r.pc.Outside? || r.pc.Test? || r.pc.Reread? || r.pc.Clear?)
    && (r.queued ==> r.pc.Prepare? || r.pc.Recheck? || r.pc.Sleep? || r.pc.Finish?)
    && (r.pc == Recheck(true) ==> r.signal && !r.queued)
    && (Asleep(r) && s.key != 0 ==> s.handler.Wake?)
  }

  predicate PollerOk(s: State, q: Poller) {
    && (q.pc.Mask? || q.pc.Wait? ==> q.registered)
    && (PollerAsleep(q) && s.key != 0 ==> s.handler.Wake?)
  }

  ghost predicate WaitInv(s: State) {
    && (forall i :: 0 <= i < |s.readers| ==> ReaderOk(s, s.readers[i]))
    && (forall j :: 0 <= j < |s.pollers| ==> PollerOk(s, s.pollers[j]))
  }

  /** The debounced trace so far. */
  ghost predicate TraceInv(d: nat, s: State) {
    && (forall k :: 0 <= k < |s.firings| ==> s.firings[k].irq + d <= s.firings[k].at <= s.now)
    && (forall k :: 0 < k < |s.firings| ==> s.firings[k - 1].at <= s.firings[k].irq)
    && s.lastIrq <= s.now
    && (s.armed.Some? ==> s.armed.value == s.lastIrq + d)
    && (s.armed.Some? && s.firings != [] ==> s.firings[|s.firings| - 1].at <= s.lastIrq)
    && |s.firings| + (if s.armed.Some? then 1 else 0) <= s.irqs
    && s.lows + (if s.handler.Set? || s.handler.ReadPin? then 1 else 0) <= |s.firings|
  }

  /** With a single reader nobody else clears the flag behind its back. */
  ghost predicate SoleReaderInv(s: State) {
    && |s.readers| <= 1
    && s.key <= 1
    && |s.values| + s.key <= s.lows
    && (forall k :: 0 <= k < |s.values| ==> s.values[k] == 1)
    && (forall i :: 0 <= i < |s.readers| ==>
          && (s.readers[i].pc.Finish? || s.readers[i].pc.Reread? || s.readers[i].pc.Clear? ==> s.key == 1)
          && (s.readers[i].pc.Clear? ==> s.readers[i].pc.value == 1))
  }

  /** A reader's own step, with the flag as it leaves it. */
  lemma ReadKeepsReader(s: State, r: Reader)
    requires ReaderOk(s, r) && !r.pc.Outside? && !Asleep(r)
    ensures var (r', done) := ReadStep(r, s.key);
            ReaderOk(if done.Some? then s.(key := 0) else s, r')
  {
  }

  lemma ReadKeepsWait(d: nat, s: State, i: nat)
    requires WaitInv(s) && Enabled(s, Read(i))
    ensures WaitInv(Next(d, s, Read(i)))
  {
    ReadKeepsReader(s, s.readers[i]);
    var s' := Next(d, s, Read(i));
    assert s'.handler == s.handler && (s'.key != 0 ==> s.key != 0);
  }

  lemma CallbackKeepsWait(d: nat, s: State, low: bool)
    requires WaitInv(s) && Enabled(s, Callback(low))
    ensures WaitInv(Next(d, s, Callback(low)))
  {
  }

  lemma StepKeepsWait(d: nat, s: State, e: Event)
    requires WaitInv(s) && Enabled(s, e)
    ensures WaitInv(Next(d, s, e))
  {
    match e
    case Read(i) => ReadKeepsWait(d, s, i);
    case Callback(low) => CallbackKeepsWait(d, s, low);
    case _ =>
  }

  lemma StepKeepsTrace(d: nat, s: State, e: Event)
    requires TraceInv(d, s) && Enabled(s, e)
    ensures TraceInv(d, Next(d, s, e))
  {
  }

  lemma StepKeepsSole(d: nat, s: State, e: Event)
    requires SoleReaderInv(s) && Enabled(s, e)
    ensures SoleReaderInv(Next(d, s, e))
  {
  }

  lemma {:induction false} RunKeepsInv(d: nat, s: State, run: seq<Event>)
    requires CanRun(d, s, run) && WaitInv(s) && TraceInv(d, s)
    ensures WaitInv(Exec(d, s, run)) && TraceInv(d, Exec(d, s, run))
    ensures SoleReaderInv(s) ==> SoleReaderInv(Exec(d, s, run))
    decreases |run|
  {
    if run != [] {
      StepKeepsWait(d, s, run[0]);
      StepKeepsTrace(d, s, run[0]);
      if SoleReaderInv(s) {
        StepKeepsSole(d, s, run[0]);
      }
      RunKeepsInv(d, Next(d, s, run[0]), run[1..]);
    }
  }

  // ------------------------------------------------------------ main results

  /**
  No lost wake-up: with any number of readers and pollers in any interleaving,
  none is asleep while the flag is set and the callback has done its wake-up.
  */
  lemma NoLostWakeup(d: nat, readers: nat, pollers: nat, s: State)
    requires Reached(d, readers, pollers, s) && s.key != 0 && !s.handler.Wake?
    ensures forall i :: 0 <= i < |s.readers| ==> !Asleep(s.readers[i])
    ensures forall j :: 0 <= j < |s.pollers| ==> !PollerAsleep(s.pollers[j])
  {
    var run :| CanRun(d, Init(readers, pollers), run) && s == Exec(d, Init(readers, pollers), run);
    RunKeepsInv(d, Init(readers, pollers), run);
  }

  /** n steps of reader i on its own. */
  function Alone(i: nat, n: nat): (run: seq<Event>)
    ensures |run| == n && forall k :: 0 <= k < n ==> run[k] == Read(i)
  {
    seq(n, _ => Read(i))
  }

  lemma AloneFirst(d: nat, s: State, i: nat, n: nat)
    requires n > 0 && Enabled(s, Read(i)) && CanRun(d, Next(d, s, Read(i)), Alone(i, n - 1))
    ensures CanRun(d, s, Alone(i, n))
    ensures Exec(d, s, Alone(i, n)) == Exec(d, Next(d, s, Read(i)), Alone(i, n - 1))
  {
    assert Alone(i, n)[1..] == Alone(i, n - 1);
  }

  /** Steps from here to the end of a read that finds the flag set. */
  function StepsLeft(pc: ReaderPc): nat {
    match pc
    case Outside => 0
    case Sleep => 6
    case Prepare => 5
    case Recheck(_) => 4
    case Test => 3
    case FastCheck => 3
    case Finish => 3
    case Reread => 2
    case Clear(_) => 1
  }

  /** Reader i has returned v to user space, cleared the flag and left everything else alone. */
  predicate Returned(s: State, s': State, i: nat, v: nat)
    requires i < |s.readers|
  {
    && s'.key == 0 && s'.values == s.values + [v]
    && s' == s.(key := 0, values := s'.values, readers := s'.readers)
    && |s'.readers| == |s.readers|
    && s'.readers[i] == Reader(Outside, s.readers[i].nonblock, true, false, s.readers[i].signal)
    && forall k :: 0 <= k < |s.readers| && k != i ==> s'.readers[k] == s.readers[k]
  }

  /**
  With the flag set a read that is under way anywhere in its code, woken sleepers
  included and with a signal pending or not, returns the flag's value and clears it.
  */
  lemma {:induction false} ReadReturns(d: nat, s: State, i: nat)
    requires s.key != 0 && i < |s.readers| && ReaderOk(s, s.readers[i])
    requires !s.readers[i].pc.Outside? && !Asleep(s.readers[i])
    ensures var n := StepsLeft(s.readers[i].pc);
            && CanRun(d, s, Alone(i, n))
            && Returned(s, Exec(d, s, Alone(i, n)), i, if s.readers[i].pc.Clear? then s.readers[i].pc.value else s.key)
    decreases StepsLeft(s.readers[i].pc)
  {
    var n := StepsLeft(s.readers[i].pc);
    var s1 := Next(d, s, Read(i));
    if n == 1 {
      assert Alone(i, 0) == [];
      assert CanRun(d, s1, Alone(i, 0));
    } else {
      ReadKeepsReader(s, s.readers[i]);
      ReadReturns(d, s1, i);
    }
    AloneFirst(d, s, i, n);
  }

  /** Where a read that finds the flag clear ends, or waits. */
  datatype Blocked = Again | Restart | Waiting

  function WhenClear(r: Reader): Blocked {
    if r.nonblock then Again else if r.signal then Restart else Waiting
  }

  /**
  With the flag clear a read that starts ends at once with -EAGAIN if it must not block,
  with -ERESTARTSYS after three more steps if a signal is pending, and otherwise goes to
  sleep in the queue at its fourth step. Nothing else changes.
  */
  lemma ReadBlocks(d: nat, s: State, i: nat)
    requires s.key == 0 && i < |s.readers| && s.readers[i].pc.Test?
    requires s.readers[i].running && !s.readers[i].queued
    ensures var r := s.readers[i];
            var n := if r.nonblock then 1 else 4;
            && CanRun(d, s, Alone(i, n))
            && Exec(d, s, Alone(i, n)) == s.(readers := s.readers[i := match WhenClear(r)
                 case Again => r.(pc := Outside)
                 case Restart => r.(pc := Outside, signal := false)
                 case Waiting => r.(pc := Sleep, running := false, queued := true)])
  {
    var r := s.readers[i];
    var s1 := Next(d, s, Read(i));
    assert Alone(i, 0) == [];
    if r.nonblock {
      assert CanRun(d, s1, Alone(i, 0));
    } else {
      var s2 := s.(readers := s.readers[i := r.(pc := Prepare)]);
      var s3 := s.(readers := s.readers[i := if r.signal then r.(pc := Recheck(true))
                                             else r.(pc := Recheck(false), running := false, queued := true)]);
      assert Next(d, s1, Read(i)) == s2 && Next(d, s2, Read(i)) == s3;
      var s4 := Next(d, s3, Read(i));
      assert CanRun(d, s4, Alone(i, 0));
      AloneFirst(d, s3, i, 1);
      AloneFirst(d, s2, i, 2);
      AloneFirst(d, s1, i, 3);
    }
    AloneFirst(d, s, i, if r.nonblock then 1 else 4);
  }

  /** A call of `read`, undisturbed: the flag's value, or whatever ReadBlocks says of the file's mode. */
  lemma ReadCall(d: nat, s: State, i: nat, nonblock: bool)
    requires i < |s.readers| && s.readers[i].pc.Outside? && ReaderOk(s, s.readers[i])
    ensures Enabled(s, Begin(i, nonblock))
    ensures var s0 := Next(d, s, Begin(i, nonblock));
            var r := s.readers[i];
            && |s0.readers| == |s.readers|
            && (s.key != 0 ==> CanRun(d, s0, Alone(i, 3)) && Returned(s0, Exec(d, s0, Alone(i, 3)), i, s.key))
            && (s.key == 0 && nonblock ==>
                  && CanRun(d, s0, Alone(i, 1))
                  && Exec(d, s0, Alone(i, 1)) == s.(readers := s.readers[i := r.(nonblock := true)]))
            && (s.key == 0 && !nonblock ==>
                  && CanRun(d, s0, Alone(i, 4))
                  && Exec(d, s0, Alone(i, 4))
                       == s.(readers := s.readers[i := if r.signal then r.(nonblock := false, signal := false)
                                                       else Reader(Sleep, false, false, true, false)]))
  {
    var s0 := Next(d, s, Begin(i, nonblock));
    if s.key != 0 {
      ReadReturns(d, s0, i);
    } else {
      ReadBlocks(d, s0, i);
    }
  }

  /** A signal gets a sleeping reader out: in three steps it is back with -ERESTARTSYS and off the queue. */
  lemma SignalEndsSleep(d: nat, s: State, i: nat)
    requires s.key == 0 && i < |s.readers| && Asleep(s.readers[i])
    ensures var s0 := Next(d, s, Signal(i));
            && |s0.readers| == |s.readers|
            && CanRun(d, s0, Alone(i, 3))
            && Exec(d, s0, Alone(i, 3))
                 == s.(readers := s.readers[i := Reader(Outside, s.readers[i].nonblock, true, false, false)])
  {
    var r := s.readers[i];
    var s0 := s.(readers := s.readers[i := r.(signal := true, running := true)]);
    var s1 := s.(readers := s.readers[i := r.(pc := Prepare, signal := true, running := true)]);
    var s2 := s.(readers := s.readers[i := Reader(Recheck(true), r.nonblock, true, false, true)]);
    var s3 := s.(readers := s.readers[i := Reader(Outside, r.nonblock, true, false, false)]);
    assert Next(d, s, Signal(i)) == s0 && Next(d, s0, Read(i)) == s1;
    assert Next(d, s1, Read(i)) == s2 && Next(d, s2, Read(i)) == s3;
    assert Alone(i, 0) == [] && CanRun(d, s3, Alone(i, 0));
    AloneFirst(d, s2, i, 1);
    AloneFirst(d, s1, i, 2);
    AloneFirst(d, s0, i, 3);
  }

  /**
  A blocking reader that finds the flag clear does go to sleep: its fourth step puts
  it there, queued, and the callback's wake-up lets it run again.
  */
  lemma BlocksUntilWoken(d: nat, s: State, i: nat)
    requires s.key == 0 && i < |s.readers|
    requires s.readers[i] == Reader(Test, false, true, false, false)
    ensures CanRun(d, s, Alone(i, 4))
    ensures var s4 := Exec(d, s, Alone(i, 4));
            && s4 == s.(readers := s.readers[i := Reader(Sleep, false, false, true, false)])
            && Asleep(s4.readers[i])
            && (s.handler.Wake? ==> !Asleep(Next(d, s4, Callback(false)).readers[i]))
  {
    ReadBlocks(d, s, i);
  }

  lemma StepEnds(s: State, r: Reader)
    requires ReaderOk(s, r) && !r.pc.Outside? && !Asleep(r) && ReadStep(r, s.key).0.pc.Outside?
    ensures var (r', done) := ReadStep(r, s.key);
            && r' == Reader(Outside, r.nonblock, true, false, r'.signal)
            && (done.Some? ==> r.pc == Clear(done.value) && r'.signal == r.signal)
            && (done.None? ==> s.key == 0 && (r.nonblock || (r.signal && !r'.signal)))
  {
  }

  /**
  How a read ends, in any reachable state: with a value and the flag clear, with the
  flag clear and O_NONBLOCK, or with the flag clear and a signal, which it uses up.
  */
  lemma ReadEnds(d: nat, readers: nat, pollers: nat, s: State, i: nat)
    requires Reached(d, readers, pollers, s) && Enabled(s, Read(i)) && Next(d, s, Read(i)).readers[i].pc.Outside?
    ensures var r := s.readers[i];
            var s' := Next(d, s, Read(i));
            var r' := s'.readers[i];
            && s'.key == 0 && r'.running && !r'.queued
            && if s'.values != s.values then r.pc.Clear? && Returned(s, s', i, r.pc.value) && r'.signal == r.signal
               else && s.key == 0 && s' == s.(readers := s.readers[i := r'])
                    && (r.nonblock || (r.signal && !r'.signal))
  {
    var run :| CanRun(d, Init(readers, pollers), run) && s == Exec(d, Init(readers, pollers), run);
    RunKeepsInv(d, Init(readers, pollers), run);
    StepEnds(s, s.readers[i]);
  }

  /** A reader before and after a wake-up: taken off the queue and runnable if it was not running. */
  predicate Woken(r: Reader, r': Reader) {
    !Asleep(r') && r' == if r.running then r else r.(running := true, queued := false)
  }

  /** Three steps of the timer callback, of which the first reads the pin. */
  function Callbacks(low: bool): seq<Event> {
    if low then [Callback(true), Callback(true), Callback(true)] else [Callback(false)]
  }

  /**
  A callback that finds the pin low sets the flag and leaves nobody asleep; one that
  finds it high does nothing.
  */
  lemma CallbackDoes(d: nat, s: State, low: bool)
    requires WaitInv(s) && s.handler.ReadPin?
    ensures CanRun(d, s, Callbacks(low))
    ensures var s' := Exec(d, s, Callbacks(low));
            if !low then s' == s.(handler := Idle)
            else && s' == s.(key := 1, handler := Idle, lows := s.lows + 1, readers := s'.readers, pollers := s'.pollers)
                 && |s'.readers| == |s.readers| && |s'.pollers| == |s.pollers|
                 && (forall i :: 0 <= i < |s.readers| ==> Woken(s.readers[i], s'.readers[i]))
                 && (forall j :: 0 <= j < |s.pollers| ==>
                       s'.pollers[j] == s.pollers[j].(triggered := s.pollers[j].triggered || s.pollers[j].registered)
                       && !PollerAsleep(s'.pollers[j]))
  {
    var run := Callbacks(low);
    var s1 := Next(d, s, run[0]);
    if low {
      var s2 := Next(d, s1, run[1]);
      var s3 := Next(d, s2, run[2]);
      assert run[1..][1..][1..] == [] && run[1..][0] == run[1] && run[1..][1..][0] == run[2];
      assert CanRun(d, s3, []);
      assert CanRun(d, s2, run[1..][1..]) && Exec(d, s2, run[1..][1..]) == s3;
      assert CanRun(d, s1, run[1..]) && Exec(d, s1, run[1..]) == s3;
      StepKeepsWait(d, s, run[0]);
      StepKeepsWait(d, s1, run[1]);
      StepKeepsWait(d, s2, run[2]);
    } else {
      assert run[1..] == [];
      assert CanRun(d, s1, []);
    }
  }

  /**
  From the interrupt on, with the callback idle and nobody else stepping in: d later the
  timer fires, and the pin as it is then decides. Low sets the flag and leaves nobody
  asleep, high leaves everything as it was.
  */
  lemma InterruptDecidesLater(d: nat, s: State, low: bool)
    requires WaitInv(s) && s.handler.Idle?
    ensures var run := [Interrupt, Tick(d), Fire] + Callbacks(low);
            && CanRun(d, s, run)
            && (var s' := Exec(d, s, run);
                && s'.handler.Idle? && s'.armed == None && s'.now == s.now + d && s'.irqs == s.irqs + 1
                && s'.firings == s.firings + [Firing(s.now + d, s.now)]
                && s'.key == (if low then 1 else s.key) && s'.lows == s.lows + (if low then 1 else 0)
                && |s'.readers| == |s.readers| && s'.values == s.values
                && (!low ==> s'.readers == s.readers && s'.pollers == s.pollers)
                && (low ==> forall i :: 0 <= i < |s.readers| ==> Woken(s.readers[i], s'.readers[i])))
  {
    var run := [Interrupt, Tick(d), Fire] + Callbacks(low);
    var s1 := s.(armed := Some(s.now + d), lastIrq := s.now, irqs := s.irqs + 1);
    var s2 := s1.(now := s.now + d);
    var s3 := s2.(armed := None, handler := ReadPin, firings := s.firings + [Firing(s.now + d, s.now)]);
    assert Next(d, s, Interrupt) == s1 && Next(d, s1, Tick(d)) == s2 && Next(d, s2, Fire) == s3;
    CallbackDoes(d, s3, low);
    assert run[1..] == [Tick(d), Fire] + Callbacks(low);
    assert run[1..][1..] == [Fire] + Callbacks(low);
    assert run[1..][1..][1..] == Callbacks(low);
    assert CanRun(d, s2, run[1..][1..]) && Exec(d, s2, run[1..][1..]) == Exec(d, s3, Callbacks(low));
    assert CanRun(d, s1, run[1..]) && Exec(d, s1, run[1..]) == Exec(d, s3, Callbacks(low));
  }

  /**
  From the press to user space: a reader asleep on a clear flag, a callback that finds
  the pin low, six steps of the reader: `read` returns 1 and the flag is clear again.
  */
  lemma PressReachesSleeper(d: nat, s: State, i: nat)
    requires WaitInv(s) && s.handler.ReadPin? && s.key == 0 && i < |s.readers|
    requires Asleep(s.readers[i])
    ensures CanRun(d, s, Callbacks(true))
    ensures var s1 := Exec(d, s, Callbacks(true));
            && |s1.readers| == |s.readers|
            && CanRun(d, s1, Alone(i, 6)) && Returned(s1, Exec(d, s1, Alone(i, 6)), i, 1)
            && Exec(d, s1, Alone(i, 6)).values == s.values + [1]
  {
    CallbackDoes(d, s, true);
    ReadReturns(d, Exec(d, s, Callbacks(true)), i);
  }

  /** n steps of a poller on its own, the flag staying as it is. */
  function PollSteps(q: Poller, key: nat, n: nat): Poller
    decreases n
  {
    if n == 0 then q else PollSteps(PollStep(q, key), key, n - 1)
  }

  /**
  A poll under way on a set flag reports it and leaves the queue, after two steps if it
  was woken or has yet to register and one if it is testing; on a clear flag it goes to
  sleep, once a wake-up that came too early has been used up. It never ends on a clear
  flag.
  */
  lemma PollEnds(key: nat, q: Poller)
    requires !q.pc.Away? && !PollerAsleep(q)
    ensures key != 0 ==> var q' := PollSteps(q, key, if q.pc.Mask? then 1 else 2); q'.pc.Away? && !q'.registered
    ensures key == 0 ==>
              var n := (match q.pc case Register => 2 case Mask => 1 case _ => 0) + (if q.triggered then 2 else 0);
              var q' := PollSteps(q, key, n);
              PollerAsleep(q') && (q'.registered <==> q.registered || q.pc.Register?)
    ensures PollStep(q, key).pc.Away? ==> key != 0
  {
    var q1 := PollStep(q, key);
    var q2 := PollStep(q1, key);
    var q3 := PollStep(q2, key);
    var q4 := PollStep(q3, key);
    assert PollSteps(q, key, 1) == PollSteps(q1, key, 0) == q1;
    assert PollSteps(q, key, 2) == PollSteps(q1, key, 1) == PollSteps(q2, key, 0) == q2;
    assert PollSteps(q, key, 3) == PollSteps(q1, key, 2) == PollSteps(q2, key, 1) == PollSteps(q3, key, 0) == q3;
    assert PollSteps(q, key, 4) == PollSteps(q1, key, 3) == PollSteps(q2, key, 2) == PollSteps(q3, key, 1)
        == PollSteps(q4, key, 0) == q4;
  }

  /** O_NONBLOCK: such a reader is never asleep and never in the wait queue's code. */
  lemma NonblockNeverWaits(d: nat, readers: nat, pollers: nat, s: State, i: nat)
    requires Reached(d, readers, pollers, s) && i < |s.readers|
    requires s.readers[i].nonblock && !s.readers[i].pc.Outside?
    ensures s.readers[i].running && Enabled(s, Read(i))
    ensures s.key == 0 && s.readers[i].pc.Test? ==> Next(d, s, Read(i)).readers[i].pc.Outside?
  {
    var run :| CanRun(d, Init(readers, pollers), run) && s == Exec(d, Init(readers, pollers), run);
    RunKeepsInv(d, Init(readers, pollers), run);
  }

  /**
  Debounce: every callback runs at least d after the latest interrupt before it,
  callbacks are at least d apart, and there are no more callbacks than interrupts.
  */
  lemma DebounceLaw(d: nat, readers: nat, pollers: nat, s: State)
    requires Reached(d, readers, pollers, s)
    ensures forall k :: 0 <= k < |s.firings| ==> s.firings[k].at >= s.firings[k].irq + d
    ensures forall k :: 0 < k < |s.firings| ==> s.firings[k].at >= s.firings[k - 1].at + d
    ensures s.lows <= |s.firings| <= s.irqs
  {
    var run :| CanRun(d, Init(readers, pollers), run) && s == Exec(d, Init(readers, pollers), run);
    RunKeepsInv(d, Init(readers, pollers), run);
  }

  /** A single reader: every successful read yields 1 and uses up a press of its own. */
  lemma SoleReaderCounts(d: nat, readers: nat, pollers: nat, s: State)
    requires Reached(d, readers, pollers, s) && readers <= 1
    ensures forall k :: 0 <= k < |s.values| ==> s.values[k] == 1
    ensures |s.values| <= s.lows <= s.irqs
  {
    var run :| CanRun(d, Init(readers, pollers), run) && s == Exec(d, Init(readers, pollers), run);
    RunKeepsInv(d, Init(readers, pollers), run);
  }

  /** Exactly then can a successful read yield 0: when there are two readers or more. */
  lemma ZeroReadIffRivals(d: nat, readers: nat, pollers: nat)
    ensures (exists s :: Reached(d, readers, pollers, s) && 0 in s.values) <==> readers >= 2
  {
    if readers >= 2 {
      var s := RaceEnds(d, readers, pollers);
    } else if s :| Reached(d, readers, pollers, s) && 0 in s.values {
      SoleReaderCounts(d, readers, pollers, s);
      assert false;
    }
  }

  lemma {:induction false} RunSnoc(d: nat, s: State, run: seq<Event>, e: Event)
    requires CanRun(d, s, run) && Enabled(Exec(d, s, run), e)
    ensures CanRun(d, s, run + [e]) && Exec(d, s, run + [e]) == Next(d, Exec(d, s, run), e)
    decreases |run|
  {
    if run == [] {
      assert CanRun(d, Next(d, s, e), []);
    } else {
      assert (run + [e])[1..] == run[1..] + [e];
      RunSnoc(d, Next(d, s, run[0]), run[1..], e);
    }
  }

  lemma After(d: nat, readers: nat, pollers: nat, s: State, e: Event) returns (s': State)
    requires Reached(d, readers, pollers, s) && Enabled(s, e)
    ensures s' == Next(d, s, e) && Reached(d, readers, pollers, s')
  {
    var run :| CanRun(d, Init(readers, pollers), run) && s == Exec(d, Init(readers, pollers), run);
    RunSnoc(d, Init(readers, pollers), run, e);
    s' := Next(d, s, e);
  }

  /** One debounced press. */
  lemma Press(d: nat, readers: nat, pollers: nat) returns (s: State)
    ensures Reached(d, readers, pollers, s) && s.key == 1 && s.values == []
    ensures s.readers == Init(readers, pollers).readers
  {
    s := Init(readers, pollers);
    assert CanRun(d, s, []);
    s := After(d, readers, pollers, s, Interrupt);
    s := After(d, readers, pollers, s, Tick(d));
    s := After(d, readers, pollers, s, Fire);
    s := After(d, readers, pollers, s, Callback(true));
    s := After(d, readers, pollers, s, Callback(true));
  }

  /** Reader i enters `read` and passes the test. */
  lemma Pass(d: nat, readers: nat, pollers: nat, s: State, i: nat) returns (s': State)
    requires Reached(d, readers, pollers, s) && s.key == 1 && i < |s.readers| && s.readers[i].pc.Outside?
    ensures Reached(d, readers, pollers, s')
    ensures s' == s.(readers := s.readers[i := s.readers[i].(pc := Reread, nonblock := false)])
  {
    s' := After(d, readers, pollers, s, Begin(i, false));
    s' := After(d, readers, pollers, s', Read(i));
  }

  /** Reader i does its second read and clears the flag. */
  lemma Take(d: nat, readers: nat, pollers: nat, s: State, i: nat) returns (s': State)
    requires Reached(d, readers, pollers, s) && i < |s.readers| && s.readers[i].pc.Reread?
    ensures Reached(d, readers, pollers, s')
    ensures s' == s.(key := 0, values := s.values + [s.key], readers := s'.readers)
    ensures |s'.readers| == |s.readers| && forall k :: 0 <= k < |s.readers| && k != i ==> s'.readers[k] == s.readers[k]
  {
    s' := After(d, readers, pollers, s, Read(i));
    s' := After(d, readers, pollers, s', Read(i));
  }

  /** Two readers both pass the test before either clears the flag. */
  lemma RaceEnds(d: nat, readers: nat, pollers: nat) returns (s: State)
    requires readers >= 2
    ensures Reached(d, readers, pollers, s) && s.values == [1, 0]
  {
    s := Press(d, readers, pollers);
    s := Pass(d, readers, pollers, s, 0);
    s := Pass(d, readers, pollers, s, 1);
    s := Take(d, readers, pollers, s, 0);
    s := Take(d, readers, pollers, s, 1);
  }
}
