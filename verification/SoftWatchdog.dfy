/**
The software watchdog: a family of devices, each with a fire timer that reboots the
system and a pre timer that warns before it, and one module reference count that
keeps the module loaded while a fire timer is pending.

The watchdog core's checks on the timeout fields are part of the model, and so is
the timer wheel: a timer runs at or after its expiry and never before one that
expires earlier. A ping reads the clock twice; `lag` is what passes in between, and
nothing bounds it. Jiffies do not wrap. Reboots and pretimeout notifications are
recorded, and a reboot does not end the run.
*/
module SoftWatchdog {
  import opened Arithmetic
  import opened Memory
  import opened Kernel

  const MAX_TIMEOUT: nat := 65535

  /** `fire` and `pre` are expiry times of pending timers; `fedAt` and `fedFor` what the last ping saw. */
  datatype Dev = Dev(timeout: nat, pretimeout: nat, fire: Option<nat>, pre: Option<nat>, fedAt: nat, fedFor: nat)

  datatype Reboot = Reboot(dev: nat, at: nat, fedAt: nat, fedFor: nat)

  /** Something that device `dev` did at time `at`. */
  datatype Entry = Entry(dev: nat, at: nat)

  datatype State = State(devs: seq<Dev>, refs: int, now: nat, reboots: seq<Reboot>, warnings: seq<Entry>)

  datatype Event =
    | Tick(d: nat)
    | Ping(i: nat, lag: nat)
    | Stop(i: nat)
    | Fire(i: nat)
    | Warn(i: nat)
    | SetTimeout(i: nat, t: nat)
    | SetPretimeout(i: nat, t: nat)

  /** HZ for which no timeout in range overflows; true of every HZ up to 65536. */
  predicate HzOk(hz: nat) {
    0 < hz && MAX_TIMEOUT * hz < WORD
  }

  lemma JiffiesExact(seconds: nat, hz: nat)
    requires HzOk(hz) && seconds <= MAX_TIMEOUT
    ensures Jiffies(seconds, hz) == seconds * hz
  {
    MulMono(seconds, MAX_TIMEOUT, hz);
  }

  /** No pending timer of any device expires before e. */
  ghost predicate Earliest(s: State, e: nat) {
    forall k :: 0 <= k < |s.devs| ==>
      && (s.devs[k].fire.Some? ==> e <= s.devs[k].fire.value)
      && (s.devs[k].pre.Some? ==> e <= s.devs[k].pre.value)
  }

  ghost predicate Due(s: State, timer: Option<nat>) {
    timer.Some? && timer.value <= s.now && Earliest(s, timer.value)
  }

  ghost predicate Enabled(s: State, e: Event) {
    match e
    case Tick(_) => true
    case Ping(i, _) => i < |s.devs|
    case Stop(i) => i < |s.devs|
    case Fire(i) => i < |s.devs| && Due(s, s.devs[i].fire)
    case Warn(i) => i < |s.devs| && Due(s, s.devs[i].pre)
    case SetTimeout(i, t) => i < |s.devs| && 1 <= t <= MAX_TIMEOUT
    case SetPretimeout(i, t) => i < |s.devs| && t < WORD && (t == 0 || s.devs[i].timeout == 0 || t < s.devs[i].timeout)
  }

  /** softdog_ping's effect on its device. */
  function Fed(v: Dev, now: nat, lag: nat, hz: nat): Dev {
    v.(fire := Some(now + Jiffies(v.timeout, hz)),
       pre := if v.pretimeout != 0 then Some(now + lag + Jiffies(v.timeout - v.pretimeout, hz)) else None,
       fedAt := now,
       fedFor := Jiffies(v.timeout, hz))
  }

  function Next(hz: nat, s: State, e: Event): State
    requires e.Ping? || e.Stop? || e.Fire? || e.Warn? || e.SetTimeout? || e.SetPretimeout? ==> e.i < |s.devs|
  {
    match e
    case Tick(d) => s.(now := s.now + d)
    case Ping(i, lag) =>
      s.(devs := s.devs[i := Fed(s.devs[i], s.now, lag, hz)],
         refs := if s.devs[i].fire.Some? then s.refs else s.refs + 1,
         now := s.now + lag)
    case Stop(i) =>
      s.(devs := s.devs[i := s.devs[i].(fire := None, pre := None)],
         refs := if s.devs[i].fire.Some? then s.refs - 1 else s.refs)
    case Fire(i) =>
      var v := s.devs[i];
      s.(devs := s.devs[i := v.(fire := None)], refs := s.refs - 1,
         reboots := s.reboots + [Reboot(i, s.now, v.fedAt, v.fedFor)])
    case Warn(i) =>
      s.(devs := s.devs[i := s.devs[i].(pre := None)], warnings := s.warnings + [Entry(i, s.now)])
    case SetTimeout(i, t) =>
      var v := s.devs[i];
      s.(devs := s.devs[i := v.(timeout := t, pretimeout := if v.pretimeout >= t then 0 else v.pretimeout)])
    case SetPretimeout(i, t) => s.(devs := s.devs[i := s.devs[i].(pretimeout := t)])
  }

  // ---------------------------------------------------------------- the count

  function Count(v: Dev): nat {
    if v.fire.Some? then 1 else 0
  }

  /** Pending fire timers. */
  function Armed(devs: seq<Dev>): nat {
    if devs == [] then 0 else Armed(devs[..|devs| - 1]) + Count(devs[|devs| - 1])
  }

  lemma {:induction false} ArmedUpdate(devs: seq<Dev>, i: nat, v: Dev)
    requires i < |devs|
    ensures Armed(devs[i := v]) == Armed(devs) - Count(devs[i]) + Count(v)
  {
    var last := |devs| - 1;
    if i == last {
      assert devs[i := v][..last] == devs[..last];
    } else {
      assert devs[i := v][..last] == devs[..last][i := v];
      ArmedUpdate(devs[..last], i, v);
    }
  }

  lemma {:induction false} ArmedZero(devs: seq<Dev>)
    ensures Armed(devs) == 0 <==> forall k :: 0 <= k < |devs| ==> devs[k].fire == None
  {
    if devs != [] {
      ArmedZero(devs[..|devs| - 1]);
    }
  }

  /** The module references the driver holds are its pending fire timers, after every event. */
  lemma RefsAreTimers(hz: nat, s: State, e: Event)
    requires s.refs == Armed(s.devs) && Enabled(s, e)
    ensures var s' := Next(hz, s, e); s'.refs == Armed(s'.devs)
  {
    if !e.Tick? {
      ArmedUpdate(s.devs, e.i, Next(hz, s, e).devs[e.i]);
    }
  }

  // --------------------------------------------------------------- the timers

  predicate FieldsOk(v: Dev) {
    && v.timeout <= MAX_TIMEOUT && v.pretimeout < WORD
    && (v.pretimeout == 0 || v.timeout == 0 || v.pretimeout < v.timeout)
  }

  ghost predicate Inv(s: State) {
    && s.refs == Armed(s.devs)
    && (forall k :: 0 <= k < |s.devs| ==> FieldsOk(s.devs[k]))
    && (forall k :: 0 <= k < |s.devs| && s.devs[k].fire.Some? ==>
          s.devs[k].fire.value == s.devs[k].fedAt + s.devs[k].fedFor)
    && (forall k :: 0 <= k < |s.reboots| ==> s.reboots[k].at >= s.reboots[k].fedAt + s.reboots[k].fedFor)
  }

  lemma StepKeepsInv(hz: nat, s: State, e: Event)
    requires Inv(s) && Enabled(s, e)
    ensures Inv(Next(hz, s, e))
  {
    RefsAreTimers(hz, s, e);
  }

  /** A pending warning expires before the reboot it announces. */
  predicate WarnsFirst(v: Dev) {
    v.pre.Some? ==> v.fire.Some? && v.pre.value < v.fire.value
  }

  ghost predicate AllWarnFirst(s: State) {
    forall k :: 0 <= k < |s.devs| ==> WarnsFirst(s.devs[k])
  }

  /**
  A ping is prompt if it does not spend a whole pretimeout between its two clock
  reads. No ping with a pretimeout but no timeout is: the difference wraps.
  */
  predicate Prompt(hz: nat, v: Dev, lag: nat) {
    v.pretimeout != 0 ==> v.timeout != 0 && lag < v.pretimeout * hz
  }

  predicate PromptEvent(hz: nat, s: State, e: Event) {
    e.Ping? && e.i < |s.devs| ==> Prompt(hz, s.devs[e.i], e.lag)
  }

  /**
  A ping leaves a warning pending exactly when there is a pretimeout, and arms it
  strictly before the reboot exactly when the ping is prompt.
  */
  lemma WarningFirstIff(hz: nat, v: Dev, now: nat, lag: nat)
    requires HzOk(hz) && FieldsOk(v)
    ensures var v' := Fed(v, now, lag, hz);
            && v'.fire == Some(now + v.timeout * hz)
            && (v'.pre.Some? <==> v.pretimeout != 0)
            && (WarnsFirst(v') <==> Prompt(hz, v, lag))
  {
    JiffiesExact(v.timeout, hz);
    if 0 < v.pretimeout < v.timeout {
      JiffiesExact(v.timeout - v.pretimeout, hz);
      assert (v.timeout - v.pretimeout) * hz == v.timeout * hz - v.pretimeout * hz;
    }
  }

  /**
  A new timeout counts from the next ping on; the pretimeout survives it only if it is
  below.
  */
  lemma SetThenPing(hz: nat, s: State, i: nat, secs: nat, lag: nat)
    requires HzOk(hz) && Inv(s) && Enabled(s, SetTimeout(i, secs))
    ensures var s1 := Next(hz, s, SetTimeout(i, secs));
            var v := Next(hz, s1, Ping(i, lag)).devs[i];
            var p := s.devs[i].pretimeout;
            && s1.devs[i].fire == s.devs[i].fire && s1.devs[i].pre == s.devs[i].pre
            && v.fire == Some(s.now + secs * hz)
            && v.pre == if 0 < p < secs then Some(s.now + lag + (secs - p) * hz) else None
  {
    JiffiesExact(secs, hz);
    if 0 < s.devs[i].pretimeout < secs {
      JiffiesExact(secs - s.devs[i].pretimeout, hz);
    }
  }

  lemma StepWarnsFirstIff(hz: nat, s: State, e: Event)
    requires HzOk(hz) && Inv(s) && AllWarnFirst(s) && Enabled(s, e)
    ensures AllWarnFirst(Next(hz, s, e)) <==> PromptEvent(hz, s, e)
  {
    if e.Ping? {
      WarningFirstIff(hz, s.devs[e.i], s.now, e.lag);
      var s' := Next(hz, s, e);
      assert s'.devs[e.i] == Fed(s.devs[e.i], s.now, e.lag, hz);
    }
  }

  // --------------------------------------------------------------- whole runs

  ghost predicate CanRun(hz: nat, s: State, run: seq<Event>)
    decreases |run|
  {
    run == [] || (Enabled(s, run[0]) && CanRun(hz, Next(hz, s, run[0]), run[1..]))
  }

  ghost function Exec(hz: nat, s: State, run: seq<Event>): (s': State)
    requires CanRun(hz, s, run)
    ensures |s'.devs| == |s.devs|
    decreases |run|
  {
    if run == [] then s else Exec(hz, Next(hz, s, run[0]), run[1..])
  }

  lemma {:induction false} RunKeepsInv(hz: nat, s: State, run: seq<Event>)
    requires Inv(s) && CanRun(hz, s, run)
    ensures Inv(Exec(hz, s, run))
    decreases |run|
  {
    if run != [] {
      StepKeepsInv(hz, s, run[0]);
      RunKeepsInv(hz, Next(hz, s, run[0]), run[1..]);
    }
  }

  /** watchdog_init_timeout: an out-of-range module parameter leaves the timeout at 0. */
  function InitialTimeout(margin: nat): nat {
    if 1 <= margin <= MAX_TIMEOUT then margin else 0
  }

  function Probed(num: nat, margin: nat): State {
    State(seq(num, _ => Dev(InitialTimeout(margin), 0, None, None, 0, 0)), 0, 0, [], [])
  }

  lemma ProbedInv(num: nat, margin: nat)
    ensures Inv(Probed(num, margin)) && AllWarnFirst(Probed(num, margin))
  {
    ArmedZero(Probed(num, margin).devs);
  }

  /** Every ping of the run is prompt. */
  ghost predicate AllPrompt(hz: nat, s: State, run: seq<Event>)
    requires CanRun(hz, s, run)
    decreases |run|
  {
    run != [] ==> PromptEvent(hz, s, run[0]) && AllPrompt(hz, Next(hz, s, run[0]), run[1..])
  }

  ghost predicate AlwaysWarnsFirst(hz: nat, s: State, run: seq<Event>)
    requires CanRun(hz, s, run)
    decreases |run|
  {
    AllWarnFirst(s) && (run != [] ==> AlwaysWarnsFirst(hz, Next(hz, s, run[0]), run[1..]))
  }

  /**
  In every state of a run all pending warnings come before their reboots, whatever
  became of the fields since the ping, if and only if every ping was prompt.
  */
  lemma {:induction false} WarnsFirstIffPrompt(hz: nat, s: State, run: seq<Event>)
    requires HzOk(hz) && Inv(s) && AllWarnFirst(s) && CanRun(hz, s, run)
    ensures AlwaysWarnsFirst(hz, s, run) <==> AllPrompt(hz, s, run)
    ensures AllPrompt(hz, s, run) ==> AllWarnFirst(Exec(hz, s, run))
    decreases |run|
  {
    if run != [] {
      var s1 := Next(hz, s, run[0]);
      StepKeepsInv(hz, s, run[0]);
      StepWarnsFirstIff(hz, s, run[0]);
      if AllWarnFirst(s1) {
        WarnsFirstIffPrompt(hz, s1, run[1..]);
      }
    }
  }

  /** No reference left means no timer of either kind is armed, so the module can go. */
  ghost predicate Quiet(s: State) {
    s.refs == 0 ==> forall k :: 0 <= k < |s.devs| ==> s.devs[k].fire == None && s.devs[k].pre == None
  }

  lemma WarnsFirstQuiet(s: State)
    requires Inv(s) && AllWarnFirst(s)
    ensures Quiet(s)
  {
    ArmedZero(s.devs);
  }

  /**
  Over any run, from any module parameters: references are pending fire timers; and
  with prompt pings none left means no timer of either kind is armed.
  */
  lemma QuietWhenUnreferenced(hz: nat, num: nat, margin: nat, run: seq<Event>)
    requires CanRun(hz, Probed(num, margin), run)
    ensures var s := Exec(hz, Probed(num, margin), run);
            && s.refs == Armed(s.devs)
            && (s.refs == 0 <==> forall k :: 0 <= k < |s.devs| ==> s.devs[k].fire == None)
            && (HzOk(hz) && AllPrompt(hz, Probed(num, margin), run) ==> Quiet(s))
  {
    var s := Exec(hz, Probed(num, margin), run);
    ProbedInv(num, margin);
    RunKeepsInv(hz, Probed(num, margin), run);
    ArmedZero(s.devs);
    if HzOk(hz) && AllPrompt(hz, Probed(num, margin), run) {
      WarnsFirstIffPrompt(hz, Probed(num, margin), run);
      WarnsFirstQuiet(s);
    }
  }

  /**
  Over any run: every reboot comes at least the ping-time timeout after that device's
  last ping; and with prompt pings a pending warning expires before its reboot.
  */
  lemma TimingOverRun(hz: nat, num: nat, margin: nat, run: seq<Event>)
    requires CanRun(hz, Probed(num, margin), run)
    ensures var s := Exec(hz, Probed(num, margin), run);
            && (forall k :: 0 <= k < |s.reboots| ==> s.reboots[k].at >= s.reboots[k].fedAt + s.reboots[k].fedFor)
            && (HzOk(hz) && AllPrompt(hz, Probed(num, margin), run) ==> AllWarnFirst(s))
  {
    ProbedInv(num, margin);
    RunKeepsInv(hz, Probed(num, margin), run);
    if HzOk(hz) && AllPrompt(hz, Probed(num, margin), run) {
      WarnsFirstIffPrompt(hz, Probed(num, margin), run);
    }
  }

  // ------------------------------------------------------ what a slow ping does

  ghost predicate PingFree(run: seq<Event>) {
    forall k :: 0 <= k < |run| ==> !run[k].Ping?
  }

  /** Whatever happens short of another ping, the last reference does not go before the last timer. */
  ghost predicate QuietAhead(hz: nat, s: State) {
    forall run :: CanRun(hz, s, run) && PingFree(run) ==> Quiet(Exec(hz, s, run))
  }

  lemma {:induction false} PingFreePrompt(hz: nat, s: State, run: seq<Event>)
    requires CanRun(hz, s, run) && PingFree(run)
    ensures AllPrompt(hz, s, run)
    decreases |run|
  {
    if run != [] {
      assert forall k :: 0 <= k < |run[1..]| ==> run[1..][k] == run[k + 1];
      PingFreePrompt(hz, Next(hz, s, run[0]), run[1..]);
    }
  }

  lemma {:induction false} RunSnoc(hz: nat, s: State, run: seq<Event>, e: Event)
    requires CanRun(hz, s, run) && Enabled(Exec(hz, s, run), e)
    ensures CanRun(hz, s, run + [e])
    ensures Exec(hz, s, run + [e]) == Next(hz, Exec(hz, s, run), e)
    decreases |run|
  {
    if run == [] {
      assert [] + [e] == [e] && [e][1..] == [];
      assert CanRun(hz, Next(hz, s, e), []);
    } else {
      assert (run + [e])[1..] == run[1..] + [e];
      RunSnoc(hz, Next(hz, s, run[0]), run[1..], e);
    }
  }

  /** The first n devices other than i. */
  lemma {:induction false} StopOthers(hz: nat, s: State, i: nat, n: nat) returns (run: seq<Event>)
    requires i < |s.devs| && n <= |s.devs|
    ensures CanRun(hz, s, run) && PingFree(run)
    ensures var s' := Exec(hz, s, run);
            && s'.now == s.now && s'.devs[i] == s.devs[i]
            && forall k :: 0 <= k < n && k != i ==> s'.devs[k].fire == None && s'.devs[k].pre == None
    decreases n
  {
    if n == 0 {
      run := [];
    } else {
      run := StopOthers(hz, s, i, n - 1);
      if n - 1 != i {
        RunSnoc(hz, s, run, Stop(n - 1));
        run := run + [Stop(n - 1)];
      }
    }
  }

  /** A device whose warning is late: everything else stopped, it reboots and the warning stays. */
  lemma LateWarningStays(hz: nat, s: State, i: nat) returns (run: seq<Event>)
    requires Inv(s) && i < |s.devs| && !WarnsFirst(s.devs[i])
    ensures CanRun(hz, s, run) && PingFree(run)
    ensures Exec(hz, s, run).refs == 0 && Exec(hz, s, run).devs[i].pre.Some?
  {
    run := StopOthers(hz, s, i, |s.devs|);
    if s.devs[i].fire.Some? {
      var at := s.devs[i].fire.value;
      var wait := Tick(if at > s.now then at - s.now else 0);
      RunSnoc(hz, s, run, wait);
      RunSnoc(hz, s, run + [wait], Fire(i));
      run := run + [wait] + [Fire(i)];
    }
    RunKeepsInv(hz, s, run);
    ArmedZero(Exec(hz, s, run).devs);
  }

  lemma QuietAheadIff(hz: nat, s: State)
    requires HzOk(hz) && Inv(s)
    ensures QuietAhead(hz, s) <==> AllWarnFirst(s)
  {
    if AllWarnFirst(s) {
      forall run | CanRun(hz, s, run) && PingFree(run)
        ensures Quiet(Exec(hz, s, run))
      {
        PingFreePrompt(hz, s, run);
        WarnsFirstIffPrompt(hz, s, run);
        RunKeepsInv(hz, s, run);
        WarnsFirstQuiet(Exec(hz, s, run));
      }
    } else {
      var i :| 0 <= i < |s.devs| && !WarnsFirst(s.devs[i]);
      var run := LateWarningStays(hz, s, i);
      assert !Quiet(Exec(hz, s, run));
    }
  }

  ghost predicate AlwaysQuietAhead(hz: nat, s: State, run: seq<Event>)
    requires CanRun(hz, s, run)
    decreases |run|
  {
    QuietAhead(hz, s) && (run != [] ==> AlwaysQuietAhead(hz, Next(hz, s, run[0]), run[1..]))
  }

  /**
  The last reference can never go before the last timer, at any point of a run and
  whatever follows short of another ping, if and only if every ping was prompt.
  */
  lemma {:induction false} QuietIffPrompt(hz: nat, s: State, run: seq<Event>)
    requires HzOk(hz) && Inv(s) && AllWarnFirst(s) && CanRun(hz, s, run)
    ensures AlwaysQuietAhead(hz, s, run) <==> AllPrompt(hz, s, run)
    decreases |run|
  {
    QuietAheadIff(hz, s);
    if run != [] {
      var s1 := Next(hz, s, run[0]);
      StepKeepsInv(hz, s, run[0]);
      StepWarnsFirstIff(hz, s, run[0]);
      if AllWarnFirst(s1) {
        QuietIffPrompt(hz, s1, run[1..]);
      } else {
        QuietAheadIff(hz, s1);
      }
    }
  }

  /** One device, pretimeout 1 of 10 seconds, a ping held up for a second: no reference, a timer armed. */
  lemma SlowPingBreaksQuiet(hz: nat)
    requires HzOk(hz)
    ensures var run := [SetPretimeout(0, 1), Ping(0, hz), Tick(9 * hz), Fire(0)];
            && CanRun(hz, Probed(1, 10), run)
            && Exec(hz, Probed(1, 10), run).refs == 0
            && Exec(hz, Probed(1, 10), run).devs[0].pre.Some?
  {
    var s1 := Next(hz, Probed(1, 10), SetPretimeout(0, 1));
    var s2 := Next(hz, s1, Ping(0, hz));
    WarningFirstIff(hz, s1.devs[0], 0, hz);
    JiffiesExact(9, hz);
    assert s2.devs[0].pre == Some(10 * hz) == s2.devs[0].fire;
    FourSteps(hz, Probed(1, 10), SetPretimeout(0, 1), Ping(0, hz), Tick(9 * hz), Fire(0));
  }

  /** With the timeout left at 0 by a bad parameter even an instant ping does it. */
  lemma ZeroTimeoutBreaksQuiet(hz: nat)
    requires HzOk(hz)
    ensures var run := [SetPretimeout(0, 1), Ping(0, 0), Tick(0), Fire(0)];
            && CanRun(hz, Probed(1, 0), run)
            && Exec(hz, Probed(1, 0), run).refs == 0
            && Exec(hz, Probed(1, 0), run).devs[0].pre.Some?
  {
    var s1 := Next(hz, Probed(1, 0), SetPretimeout(0, 1));
    var s2 := Next(hz, s1, Ping(0, 0));
    WarningFirstIff(hz, s1.devs[0], 0, 0);
    assert s2.devs[0].fire == Some(0);
    FourSteps(hz, Probed(1, 0), SetPretimeout(0, 1), Ping(0, 0), Tick(0), Fire(0));
  }

  lemma FourSteps(hz: nat, s: State, a: Event, b: Event, c: Event, d: Event)
    requires Enabled(s, a)
    requires Enabled(Next(hz, s, a), b)
    requires Enabled(Next(hz, Next(hz, s, a), b), c)
    requires Enabled(Next(hz, Next(hz, Next(hz, s, a), b), c), d)
    ensures CanRun(hz, s, [a, b, c, d])
    ensures Exec(hz, s, [a, b, c, d]) == Next(hz, Next(hz, Next(hz, Next(hz, s, a), b), c), d)
  {
    assert CanRun(hz, s, []);
    RunSnoc(hz, s, [], a);
    RunSnoc(hz, s, [a], b);
    RunSnoc(hz, s, [a, b], c);
    RunSnoc(hz, s, [a, b, c], d);
    assert [] + [a] == [a] && [a] + [b] == [a, b] && [a, b] + [c] == [a, b, c] && [a, b, c] + [d] == [a, b, c, d];
  }

  // ------------------------------------------------------- when a reboot comes

  /** In every state of the run, less than the ping-time timeout has passed since device i's last ping. */
  ghost predicate AlwaysFed(hz: nat, s: State, run: seq<Event>, i: nat)
    requires CanRun(hz, s, run) && i < |s.devs|
    decreases |run|
  {
    && (s.devs[i].fire.Some? ==> s.now < s.devs[i].fedAt + s.devs[i].fedFor)
    && (run != [] ==> AlwaysFed(hz, Next(hz, s, run[0]), run[1..], i))
  }

  lemma {:induction false} FedNeverFires(hz: nat, s: State, run: seq<Event>, i: nat)
    requires Inv(s) && CanRun(hz, s, run) && i < |s.devs| && AlwaysFed(hz, s, run, i)
    ensures Fire(i) !in run
    decreases |run|
  {
    if run != [] {
      StepKeepsInv(hz, s, run[0]);
      FedNeverFires(hz, Next(hz, s, run[0]), run[1..], i);
      assert run == [run[0]] + run[1..];
    }
  }

  /** A device fed in time causes none of the reboots of the run. */
  lemma FedNeverReboots(hz: nat, s: State, run: seq<Event>, i: nat)
    requires Inv(s) && CanRun(hz, s, run) && i < |s.devs| && AlwaysFed(hz, s, run, i)
    ensures Fire(i) !in run && NothingNew(hz, s, run, REBOOT, i)
  {
    FedNeverFires(hz, s, run, i);
    SilentUnlessGoesOff(hz, s, run, REBOOT, i);
  }

  /** The state after the first n events. */
  ghost function At(hz: nat, s: State, run: seq<Event>, n: nat): (s': State)
    requires CanRun(hz, s, run) && n <= |run|
    ensures |s'.devs| == |s.devs|
    decreases n
  {
    if n == 0 then s else At(hz, Next(hz, s, run[0]), run[1..], n - 1)
  }

  lemma {:induction false} AtOk(hz: nat, s: State, run: seq<Event>, n: nat)
    requires Inv(s) && CanRun(hz, s, run) && n <= |run|
    ensures Inv(At(hz, s, run, n))
    ensures n < |run| ==> Enabled(At(hz, s, run, n), run[n])
    decreases n
  {
    if n > 0 {
      StepKeepsInv(hz, s, run[0]);
      AtOk(hz, Next(hz, s, run[0]), run[1..], n - 1);
    }
  }

  // ------------------------------------------- reboots and warnings on record

  datatype Kind = REBOOT | WARNING

  /** The event by which device i's timer of this kind goes off. */
  function GoesOff(kind: Kind, i: nat): Event {
    if kind == REBOOT then Fire(i) else Warn(i)
  }

  function Pending(v: Dev, kind: Kind): Option<nat> {
    if kind == REBOOT then v.fire else v.pre
  }

  function Plain(reboots: seq<Reboot>): (log: seq<Entry>)
    ensures |log| == |reboots|
    ensures forall k :: 0 <= k < |log| ==> log[k] == Entry(reboots[k].dev, reboots[k].at)
  {
    seq(|reboots|, k requires 0 <= k < |reboots| => Entry(reboots[k].dev, reboots[k].at))
  }

  function Recorded(s: State, kind: Kind): seq<Entry> {
    if kind == REBOOT then Plain(s.reboots) else s.warnings
  }

  function Entries(s: State, e: Event, kind: Kind): seq<Entry> {
    match e
    case Fire(i) => if kind == REBOOT then [Entry(i, s.now)] else []
    case Warn(i) => if kind == WARNING then [Entry(i, s.now)] else []
    case _ => []
  }

  /** The timers of this kind that go off in a run, with their devices and times. */
  ghost function Log(hz: nat, s: State, run: seq<Event>, kind: Kind): seq<Entry>
    requires CanRun(hz, s, run)
    decreases |run|
  {
    if run == [] then [] else Entries(s, run[0], kind) + Log(hz, Next(hz, s, run[0]), run[1..], kind)
  }

  lemma RecordStep(hz: nat, s: State, e: Event, kind: Kind)
    requires Enabled(s, e)
    ensures Recorded(Next(hz, s, e), kind) == Recorded(s, kind) + Entries(s, e, kind)
  {
    assert Recorded(Next(hz, s, e), kind) == Recorded(s, kind) + Entries(s, e, kind);
  }

  /**
  Over any run the system reboots exactly once for every fire timer that goes off, and
  a pretimeout is notified exactly once for every pre timer, in that order, by that
  device and at that time.
  */
  lemma {:induction false} RecordedExactly(hz: nat, s: State, run: seq<Event>, kind: Kind)
    requires CanRun(hz, s, run)
    ensures Recorded(Exec(hz, s, run), kind) == Recorded(s, kind) + Log(hz, s, run, kind)
    decreases |run|
  {
    if run != [] {
      var s1 := Next(hz, s, run[0]);
      RecordStep(hz, s, run[0], kind);
      RecordedExactly(hz, s1, run[1..], kind);
    }
  }

  /** The event behind an entry. */
  lemma {:induction false} LogEvent(hz: nat, s: State, run: seq<Event>, kind: Kind, k: nat) returns (n: nat)
    requires CanRun(hz, s, run) && k < |Log(hz, s, run, kind)|
    ensures n < |run| && run[n] == GoesOff(kind, Log(hz, s, run, kind)[k].dev)
    ensures At(hz, s, run, n).now == Log(hz, s, run, kind)[k].at
    decreases |run|
  {
    var s1 := Next(hz, s, run[0]);
    var rest := Log(hz, s1, run[1..], kind);
    var first := |Log(hz, s, run, kind)| - |rest|;
    if k < first {
      n := 0;
    } else {
      assert Log(hz, s, run, kind)[k] == rest[k - first];
      n := LogEvent(hz, s1, run[1..], kind, k - first);
      n := n + 1;
    }
  }

  /** The run adds no entry of device i to the record. */
  ghost predicate NothingNew(hz: nat, s: State, run: seq<Event>, kind: Kind, i: nat)
    requires CanRun(hz, s, run)
  {
    var was, now := Recorded(s, kind), Recorded(Exec(hz, s, run), kind);
    |was| <= |now| && forall k :: |was| <= k < |now| ==> now[k].dev != i
  }

  lemma SilentUnlessGoesOff(hz: nat, s: State, run: seq<Event>, kind: Kind, i: nat)
    requires CanRun(hz, s, run) && GoesOff(kind, i) !in run
    ensures NothingNew(hz, s, run, kind, i)
  {
    RecordedExactly(hz, s, run, kind);
    var log := Log(hz, s, run, kind);
    forall k | 0 <= k < |log|
      ensures log[k].dev != i
    {
      var n := LogEvent(hz, s, run, kind, k);
    }
  }

  /** Between a and b nothing pings or stops device i, nor does its timer of this kind go off. */
  ghost predicate Untouched(run: seq<Event>, kind: Kind, a: nat, b: nat, i: nat)
    requires b <= |run|
  {
    forall m :: a <= m < b ==>
      run[m] != Stop(i) && run[m] != GoesOff(kind, i) && !(run[m].Ping? && run[m].i == i)
  }

  /** The expiry a ping with this lag gives the timer. */
  function SetTo(hz: nat, v: Dev, now: nat, lag: nat, kind: Kind): nat {
    if kind == REBOOT then now + Jiffies(v.timeout, hz) else now + lag + Jiffies(v.timeout - v.pretimeout, hz)
  }

  /** Event j is device i's last ping before n, nothing has touched its timer since, and that ping set it. */
  ghost predicate LastPing(hz: nat, s: State, run: seq<Event>, kind: Kind, i: nat, j: nat, n: nat)
    requires CanRun(hz, s, run) && i < |s.devs|
  {
    && j < n <= |run| && run[j].Ping? && run[j].i == i && Untouched(run, kind, j + 1, n, i)
    && (var fed := At(hz, s, run, j);
        && (kind == WARNING ==> fed.devs[i].pretimeout != 0)
        && Pending(At(hz, s, run, n).devs[i], kind) == Some(SetTo(hz, fed.devs[i], fed.now, run[j].lag, kind)))
  }

  lemma UntouchedLater(run: seq<Event>, kind: Kind, a: nat, b: nat, i: nat)
    requires b < |run| && Untouched(run[1..], kind, a, b, i)
    ensures Untouched(run, kind, a + 1, b + 1, i)
  {
    assert forall m :: a + 1 <= m < b + 1 ==> run[m] == run[1..][m - 1];
  }

  lemma {:induction false} PendingSince(hz: nat, s: State, run: seq<Event>, kind: Kind, i: nat, n: nat)
    requires CanRun(hz, s, run) && i < |s.devs| && n <= |run| && Pending(At(hz, s, run, n).devs[i], kind).Some?
    ensures (exists j :: LastPing(hz, s, run, kind, i, j, n))
            || (Untouched(run, kind, 0, n, i) && Pending(At(hz, s, run, n).devs[i], kind) == Pending(s.devs[i], kind))
    decreases n
  {
    if n > 0 {
      var s1, rest := Next(hz, s, run[0]), run[1..];
      var n1 := n - 1;
      PendingSince(hz, s1, rest, kind, i, n1);
      if j: nat :| LastPing(hz, s1, rest, kind, i, j, n1) {
        UntouchedLater(run, kind, j + 1, n1, i);
        assert LastPing(hz, s, run, kind, i, j + 1, n);
      } else {
        UntouchedLater(run, kind, 0, n1, i);
        if run[0].Ping? && run[0].i == i {
          assert LastPing(hz, s, run, kind, i, 0, n);
        }
      }
    }
  }

  /** Whatever went off was set by that device's last ping, and no earlier than that ping set it to. */
  lemma EntryAfterPing(hz: nat, num: nat, margin: nat, run: seq<Event>, kind: Kind, k: nat) returns (n: nat, j: nat)
    requires CanRun(hz, Probed(num, margin), run) && k < |Recorded(Exec(hz, Probed(num, margin), run), kind)|
    ensures var s := Probed(num, margin);
            var e := Recorded(Exec(hz, s, run), kind)[k];
            && n < |run| && run[n] == GoesOff(kind, e.dev) && At(hz, s, run, n).now == e.at && e.dev < num
            && LastPing(hz, s, run, kind, e.dev, j, n)
            && Inv(At(hz, s, run, j))
            && e.at >= SetTo(hz, At(hz, s, run, j).devs[e.dev], At(hz, s, run, j).now, run[j].lag, kind)
  {
    var s := Probed(num, margin);
    RecordedExactly(hz, s, run, kind);
    assert Recorded(s, kind) == [];
    ProbedInv(num, margin);
    n := LogEvent(hz, s, run, kind, k);
    var i := Recorded(Exec(hz, s, run), kind)[k].dev;
    AtOk(hz, s, run, n);
    PendingSince(hz, s, run, kind, i, n);
    j :| LastPing(hz, s, run, kind, i, j, n);
    AtOk(hz, s, run, j);
  }

  /**
  Every reboot on record was set off by the last ping of its device: nothing pinged,
  stopped or rebooted that device in between, and at least the timeout in force at that
  ping had passed.
  */
  lemma RebootAfterLastPing(hz: nat, num: nat, margin: nat, run: seq<Event>, k: nat) returns (n: nat, j: nat)
    requires HzOk(hz) && CanRun(hz, Probed(num, margin), run)
    requires k < |Exec(hz, Probed(num, margin), run).reboots|
    ensures var s := Probed(num, margin);
            var r := Exec(hz, s, run).reboots[k];
            && n < |run| && run[n] == Fire(r.dev) && At(hz, s, run, n).now == r.at && r.dev < num
            && LastPing(hz, s, run, REBOOT, r.dev, j, n)
            && r.at >= At(hz, s, run, j).now + At(hz, s, run, j).devs[r.dev].timeout * hz
  {
    n, j := EntryAfterPing(hz, num, margin, run, REBOOT, k);
    JiffiesExact(At(hz, Probed(num, margin), run, j).devs[Exec(hz, Probed(num, margin), run).reboots[k].dev].timeout, hz);
  }

  /**
  Every notification on record was set off by the last ping of its device, which found a
  pretimeout; with a timeout, at least the time from that ping to the pretimeout had
  passed.
  */
  lemma WarningAfterLastPing(hz: nat, num: nat, margin: nat, run: seq<Event>, k: nat) returns (n: nat, j: nat)
    requires HzOk(hz) && CanRun(hz, Probed(num, margin), run)
    requires k < |Exec(hz, Probed(num, margin), run).warnings|
    ensures var s := Probed(num, margin);
            var r := Exec(hz, s, run).warnings[k];
            && n < |run| && run[n] == Warn(r.dev) && At(hz, s, run, n).now == r.at && r.dev < num
            && LastPing(hz, s, run, WARNING, r.dev, j, n)
            && (var fed := At(hz, s, run, j);
                fed.devs[r.dev].timeout != 0 ==>
                  r.at >= fed.now + run[j].lag + (fed.devs[r.dev].timeout - fed.devs[r.dev].pretimeout) * hz)
  {
    n, j := EntryAfterPing(hz, num, margin, run, WARNING, k);
    var v := At(hz, Probed(num, margin), run, j).devs[Exec(hz, Probed(num, margin), run).warnings[k].dev];
    if v.timeout != 0 {
      JiffiesExact(v.timeout - v.pretimeout, hz);
    }
  }

  lemma {:induction false} StoppedNeverGoesOff(hz: nat, s: State, run: seq<Event>, i: nat)
    requires i < |s.devs| && s.devs[i].fire == None && s.devs[i].pre == None
    requires CanRun(hz, s, run) && forall k :: 0 <= k < |run| && run[k].Ping? ==> run[k].i != i
    ensures forall k :: 0 <= k < |run| ==> run[k] != Fire(i) && run[k] != Warn(i)
    decreases |run|
  {
    if run != [] {
      var s1 := Next(hz, s, run[0]);
      var rest := run[1..];
      assert forall k :: 0 <= k < |rest| ==> rest[k] == run[k + 1];
      StoppedNeverGoesOff(hz, s1, rest, i);
      forall k | 0 <= k < |run|
        ensures run[k] != Fire(i) && run[k] != Warn(i)
      {
        assert k > 0 ==> run[k] == rest[k - 1];
      }
    }
  }

  /** A stopped device neither warns nor reboots until its next ping. */
  lemma StoppedStaysQuiet(hz: nat, s: State, run: seq<Event>, i: nat)
    requires i < |s.devs| && s.devs[i].fire == None && s.devs[i].pre == None
    requires CanRun(hz, s, run) && forall k :: 0 <= k < |run| && run[k].Ping? ==> run[k].i != i
    ensures forall k :: 0 <= k < |run| ==> run[k] != Fire(i) && run[k] != Warn(i)
    ensures NothingNew(hz, s, run, REBOOT, i) && NothingNew(hz, s, run, WARNING, i)
  {
    StoppedNeverGoesOff(hz, s, run, i);
    SilentUnlessGoesOff(hz, s, run, REBOOT, i);
    SilentUnlessGoesOff(hz, s, run, WARNING, i);
  }

  lemma StopDisarms(hz: nat, s: State, i: nat)
    requires i < |s.devs| && s.refs == Armed(s.devs)
    ensures var s' := Next(hz, s, Stop(i));
            && s'.devs[i].fire == None && s'.devs[i].pre == None
            && s'.refs == Armed(s'.devs) == Armed(s.devs) - Count(s.devs[i])
  {
    ArmedUpdate(s.devs, i, Next(hz, s, Stop(i)).devs[i]);
  }

  // -------------------------------------------------------------- the driver

  class Softdog {
    const hz: nat
    var devs: seq<Dev>
    var refs: int
    var now: nat
    var reboots: seq<Reboot>
    var warnings: seq<Entry>
    var registered: seq<bool>
    var live: bool

    ghost function Model(): State
      reads this
    {
      State(devs, refs, now, reboots, warnings)
    }

    constructor (hz: nat)
      ensures this.hz == hz && Model() == State([], 0, 0, [], []) && registered == [] && !live
    {
      this.hz := hz;
      devs, refs, now, reboots, warnings, registered, live := [], 0, 0, [], [], [], false;
    }

    /** mod_timer: tells whether the timer was pending. */
    method ModFire(i: nat, at: nat) returns (pending: bool)
      requires i < |devs|
      modifies this`devs
      ensures pending == old(devs)[i].fire.Some?
      ensures devs == old(devs)[i := old(devs)[i].(fire := Some(at))]
    {
      pending := devs[i].fire.Some?;
      devs := devs[i := devs[i].(fire := Some(at))];
    }

    /** softdog_ping; `lag` passes between its two reads of the clock. */
    method PingDev(i: nat, lag: nat)
      requires i < |devs|
      modifies this`devs, this`refs, this`now
      ensures Model() == Next(hz, old(Model()), Ping(i, lag))
      ensures |devs| == |old(devs)| && forall k :: 0 <= k < |devs| && k != i ==> devs[k] == old(devs)[k]
      ensures var w, w' := old(devs)[i], devs[i];
              && w'.timeout == w.timeout && w'.pretimeout == w.pretimeout
              && w'.fire == Some(old(now) + Jiffies(w.timeout, hz))
              && w'.pre == (if w.pretimeout == 0 then None
                            else Some(old(now) + lag + Jiffies(w.timeout - w.pretimeout, hz)))
              && refs == old(refs) + (if w.fire == None then 1 else 0)
    {
      var w := devs[i];
      var pending := ModFire(i, now + Jiffies(w.timeout, hz));
      if !pending {
        refs := refs + 1;
      }
      devs := devs[i := devs[i].(fedAt := now, fedFor := Jiffies(w.timeout, hz))];
      now := now + lag;
      if w.pretimeout != 0 {
        devs := devs[i := devs[i].(pre := Some(now + Jiffies(w.timeout - w.pretimeout, hz)))];
      } else {
        devs := devs[i := devs[i].(pre := None)];
      }
    }

    /** softdog_stop */
    method StopDev(i: nat)
      requires i < |devs|
      modifies this`devs, this`refs
      ensures Model() == Next(hz, old(Model()), Stop(i))
      ensures devs == old(devs)[i := old(devs)[i].(fire := None, pre := None)]
      ensures refs == old(refs) - (if old(devs)[i].fire == None then 0 else 1)
    {
      if devs[i].fire.Some? {
        devs := devs[i := devs[i].(fire := None)];
        refs := refs - 1;
      }
      devs := devs[i := devs[i].(pre := None)];
    }

    /** softdog_fire, run by the timer wheel, which has already detached the timer. */
    method FireDev(i: nat)
      requires i < |devs| && devs[i].fire.Some?
      modifies this`devs, this`refs, this`reboots
      ensures Model() == Next(hz, old(Model()), Fire(i))
      ensures devs == old(devs)[i := old(devs)[i].(fire := None)] && refs == old(refs) - 1
      ensures |reboots| == |old(reboots)| + 1 && reboots[..|old(reboots)|] == old(reboots)
      ensures reboots[|old(reboots)|].dev == i && reboots[|old(reboots)|].at == now
    {
      var w := devs[i];
      devs := devs[i := w.(fire := None)];
      refs := refs - 1;
      reboots := reboots + [Reboot(i, now, w.fedAt, w.fedFor)];
    }

    /** softdog_pretimeout */
    method WarnDev(i: nat)
      requires i < |devs| && devs[i].pre.Some?
      modifies this`devs, this`warnings
      ensures Model() == Next(hz, old(Model()), Warn(i))
      ensures devs == old(devs)[i := old(devs)[i].(pre := None)] && warnings == old(warnings) + [Entry(i, now)]
    {
      devs := devs[i := devs[i].(pre := None)];
      warnings := warnings + [Entry(i, now)];
    }

    /** Every device number is registered, or none is. */
    ghost predicate AllRegistered(yes: bool)
      reads this
    {
      |registered| == |devs| && forall k :: 0 <= k < |devs| ==> registered[k] == yes
    }

    /**
    softdog_init. `memory` is whether kcalloc succeeds, `fails` the device whose
    registration fails, if any. It leaves all devices registered or none.
    */
    method Init(num: nat, margin: nat, memory: bool, fails: Option<nat>, error: int) returns (ret: int)
      requires error < 0 && devs == [] && registered == [] && !live
      modifies this
      ensures memory && (fails == None || fails.value >= num) ==>
                && ret == 0 && live && AllRegistered(true) && Model() == Probed(num, margin)
                && |devs| == num && refs == 0
                && (forall k :: 0 <= k < num ==>
                      && devs[k].timeout == (if 0 < margin < 65536 then margin else 0)
                      && devs[k].pretimeout == 0 && devs[k].fire == None && devs[k].pre == None)
      ensures !memory ==> ret == -ENOMEM && !live && AllRegistered(false)
      ensures memory && fails.Some? && fails.value < num ==> ret == error && !live && AllRegistered(false)
    {
      if !memory {
        return -ENOMEM;
      }
      live := true;
      devs := seq(num, _ => Dev(0, 0, None, None, 0, 0));
      registered := seq(num, _ => false);
      refs, now, reboots, warnings := 0, 0, [], [];
      var i := 0;
      while i < num
        invariant 0 <= i <= num && live && refs == 0 && now == 0 && reboots == [] && warnings == []
        invariant |registered| == num && forall k :: 0 <= k < num ==> registered[k] == (k < i)
        invariant fails.Some? ==> i <= fails.value
        invariant |devs| == num
        invariant forall k :: 0 <= k < num ==>
                    devs[k] == Dev(if k < i then InitialTimeout(margin) else 0, 0, None, None, 0, 0)
      {
        devs := devs[i := devs[i].(timeout := InitialTimeout(margin))];
        if fails == Some(i) {
          var j := 0;
          while j < i
            invariant 0 <= j <= i && |registered| == num == |devs|
            invariant forall k :: 0 <= k < num ==> registered[k] == (j <= k < i)
          {
            registered := registered[j := false];
            j := j + 1;
          }
          live := false;
          return error;
        }
        registered := registered[i := true];
        i := i + 1;
      }
      assert devs == Probed(num, margin).devs;
      return 0;
    }

    /**
    softdog_exit. The module can only be unloaded while nothing references it; the
    memory it frees then holds no pending fire timer, and no timer at all exactly if
    every warning precedes its reboot.
    */
    method Exit()
      requires refs == 0 == Armed(devs) && AllRegistered(true)
      modifies this`registered, this`live
      ensures AllRegistered(false) && !live
      ensures forall k :: 0 <= k < |devs| ==> devs[k].fire == None
      ensures (forall k :: 0 <= k < |devs| ==> devs[k].pre == None) <==> AllWarnFirst(Model())
    {
      var i := 0;
      while i < |devs|
        invariant 0 <= i <= |devs| == |registered|
        invariant forall k :: 0 <= k < |devs| ==> registered[k] == (i <= k)
      {
        registered := registered[i := false];
        i := i + 1;
      }
      live := false;
      ArmedZero(devs);
    }
  }
}
