/**
What the experiment can print without a lock. LockedCounter bounds every printed
value; here every list of values within those bounds is produced by some
interleaving, so the bounds are exact and each round is independent of the ones
before it. With n and m at least 2 the values are 2 to n * m, with m = 1 they are 1
to n, and with a single thread n * m alone.

To lose x + y increments in a round: thread 0 loads 0, the others run x iterations
of which thread 1 keeps at least one back, thread 0 stores 1; thread 1 loads 1,
thread 0 runs y iterations, thread 1 stores 2. The rest runs without loss.
*/
module RacyOutcomes {
  import opened Arithmetic
  import opened Kernel
  import opened LockedCounter

  /** Some interleaving leads from s to s'. */
  ghost predicate Reach(p: Params, s: State, s': State) {
    exists run :: CanRun(p, s, run) && s' == Exec(p, s, run)
  }

  lemma {:induction false} RunConcat(p: Params, s: State, a: seq<Move>, b: seq<Move>)
    requires CanRun(p, s, a) && CanRun(p, Exec(p, s, a), b)
    ensures CanRun(p, s, a + b) && Exec(p, s, a + b) == Exec(p, Exec(p, s, a), b)
    decreases |a|
  {
    if a == [] {
      assert a + b == b;
    } else {
      assert (a + b)[1..] == a[1..] + b;
      RunConcat(p, Next(p, s, a[0]), a[1..], b);
    }
  }

  lemma ReachSelf(p: Params, s: State)
    ensures Reach(p, s, s)
  {
    assert CanRun(p, s, []);
  }

  lemma ReachTrans(p: Params, s: State, t: State, u: State)
    requires Reach(p, s, t) && Reach(p, t, u)
    ensures Reach(p, s, u)
  {
    var a :| CanRun(p, s, a) && t == Exec(p, s, a);
    var b :| CanRun(p, t, b) && u == Exec(p, t, b);
    RunConcat(p, s, a, b);
  }

  lemma OneMove(p: Params, s: State, a: Move)
    requires Enabled(p, s, a)
    ensures CanRun(p, s, [a]) && Exec(p, s, [a]) == Next(p, s, a)
  {
    var s1 := Next(p, s, a);
    var none: seq<Move> := [];
    assert [a][0] == a && [a][1..] == none;
    assert CanRun(p, s1, none) && Exec(p, s1, none) == s1;
  }

  lemma ReachStep(p: Params, s: State, t: State, a: Move)
    requires Reach(p, s, t) && Enabled(p, t, a)
    ensures Reach(p, s, Next(p, t, a))
  {
    OneMove(p, t, a);
    assert Reach(p, t, Next(p, t, a));
    ReachTrans(p, s, t, Next(p, t, a));
  }

  lemma ReachInv(p: Params, s: State, t: State)
    requires Inv(p, s) && Reach(p, s, t)
    ensures Inv(p, t)
  {
    var run :| CanRun(p, s, run) && t == Exec(p, s, run);
    RunKeepsInv(p, s, run);
  }

  // --------------------------------------------------- moves of one thread

  /** A thread takes its (empty) lock step and loads the counter. */
  lemma LoadOf(p: Params, s: State, k: nat) returns (s': State)
    requires !Locks(p) && k < |s.cur| && s.cur[k].pc.AtLock?
    ensures Reach(p, s, s')
    ensures s' == s.(cur := s.cur[k := s.cur[k].(pc := AtStore(s.sh.result))])
  {
    ReachSelf(p, s);
    var a := CurMove(k);
    var s1 := Next(p, s, a);
    ReachStep(p, s, s, a);
    s' := Next(p, s1, a);
    ReachStep(p, s, s1, a);
  }

  /** A thread that has loaded stores and goes back to its loop head. */
  lemma StoreOf(p: Params, s: State, k: nat) returns (s': State)
    requires !Locks(p) && k < |s.cur| && s.cur[k].pc.AtStore?
    ensures Reach(p, s, s')
    ensures s' == s.(sh := s.sh.(result := (s.cur[k].pc.reg + 1) % WORD),
                     cur := s.cur[k := s.cur[k].(i := s.cur[k].i + 1, pc := LoopHead(p, s.cur[k].i + 1))])
  {
    ReachSelf(p, s);
    var a := CurMove(k);
    var s1 := Next(p, s, a);
    ReachStep(p, s, s, a);
    s' := Next(p, s1, a);
    ReachStep(p, s, s1, a);
  }

  // ------------------------------------------------------- many iterations

  function Turns(t: Thread): nat {
    t.i
  }

  function Total(lim: seq<nat>): nat {
    if lim == [] then 0 else Total(lim[..|lim| - 1]) + lim[|lim| - 1]
  }

  /** If the limits add up to more than the turns taken, some thread is below its limit. */
  lemma {:induction false} SomeBelow(ts: seq<Thread>, lim: seq<nat>)
    requires |ts| == |lim| && SumOf(Turns, ts) < Total(lim)
    ensures exists k :: 0 <= k < |ts| && ts[k].i < lim[k]
  {
    var last := |ts| - 1;
    if ts[last].i >= lim[last] {
      SomeBelow(ts[..last], lim[..last]);
      var k :| 0 <= k < last && ts[..last][k].i < lim[..last][k];
      assert ts[k].i < lim[k];
    }
  }

  /** Between turns: at the loop head, or out of the loop. */
  predicate AtHead(p: Params, t: Thread) {
    t.pc == LoopHead(p, t.i)
  }

  /** Thread k may still be run up to its limit. */
  ghost predicate Runnable(p: Params, ts: seq<Thread>, lim: seq<nat>) {
    && |ts| == |lim|
    && forall k :: 0 <= k < |ts| ==> ts[k].i <= lim[k] <= p.m && (ts[k].i < lim[k] ==> AtHead(p, ts[k]))
  }

  /** Where x undisturbed iterations can take the threads of `ts`. */
  ghost predicate Advanced(p: Params, ts: seq<Thread>, ts': seq<Thread>, lim: seq<nat>, x: nat) {
    && |ts| == |ts'| == |lim|
    && SumOf(Turns, ts') == SumOf(Turns, ts) + x
    && forall k :: 0 <= k < |ts| ==>
         && ts[k].i <= ts'[k].i <= lim[k]
         && ts'[k].slot == ts[k].slot
         && (if ts'[k].i == ts[k].i then ts'[k] == ts[k] else AtHead(p, ts'[k]))
  }

  lemma AdvancedTrans(p: Params, a: seq<Thread>, b: seq<Thread>, c: seq<Thread>, lim: seq<nat>, x: nat, y: nat)
    requires Advanced(p, a, b, lim, x) && Advanced(p, b, c, lim, y)
    ensures Advanced(p, a, c, lim, x + y)
  {
  }

  /** One turn of thread k. */
  lemma OneTurn(p: Params, s: State, lim: seq<nat>, k: nat) returns (s': State)
    requires !Locks(p) && Runnable(p, s.cur, lim) && k < |s.cur| && s.cur[k].i < lim[k]
    ensures Reach(p, s, s')
    ensures Advanced(p, s.cur, s'.cur, lim, 1) && Runnable(p, s'.cur, lim)
    ensures s' == s.(cur := s'.cur, sh := s.sh.(result := (s.sh.result + 1) % WORD))
  {
    var s1 := LoadOf(p, s, k);
    s' := StoreOf(p, s1, k);
    ReachTrans(p, s, s1, s');
    assert s'.cur == s.cur[k := s'.cur[k]];
    SumUpdate(Turns, s.cur, k, s'.cur[k]);
  }

  function Plus(r: nat, x: nat): nat {
    (r + x) % WORD
  }

  lemma PlusPlus(r: nat, x: nat, y: nat)
    ensures Plus(Plus(r, x), y) == Plus(r, x + y) < WORD
  {
  }

  /** One turn of some thread that is below its limit. */
  lemma SomeTurn(p: Params, s: State, lim: seq<nat>) returns (s': State)
    requires !Locks(p) && Runnable(p, s.cur, lim) && SumOf(Turns, s.cur) < Total(lim)
    ensures Reach(p, s, s')
    ensures Advanced(p, s.cur, s'.cur, lim, 1) && Runnable(p, s'.cur, lim)
    ensures s' == s.(cur := s'.cur, sh := s.sh.(result := Plus(s.sh.result, 1)))
  {
    SomeBelow(s.cur, lim);
    var k :| 0 <= k < |s.cur| && s.cur[k].i < lim[k];
    s' := OneTurn(p, s, lim, k);
  }

  lemma StayPut(p: Params, s: State, lim: seq<nat>)
    requires Runnable(p, s.cur, lim) && s.sh.result < WORD
    ensures Reach(p, s, s) && Advanced(p, s.cur, s.cur, lim, 0)
    ensures s == s.(cur := s.cur, sh := s.sh.(result := Plus(s.sh.result, 0)))
  {
    ReachSelf(p, s);
  }

  /** Without a lock any x of the permitted iterations can run one after the other. */
  lemma {:induction false} Advance(p: Params, s: State, lim: seq<nat>, x: nat) returns (s': State)
    requires !Locks(p) && Runnable(p, s.cur, lim)
    requires SumOf(Turns, s.cur) + x <= Total(lim)
    requires s.sh.result < WORD
    ensures Reach(p, s, s')
    ensures Advanced(p, s.cur, s'.cur, lim, x)
    ensures s' == s.(cur := s'.cur, sh := s.sh.(result := Plus(s.sh.result, x)))
    decreases x
  {
    if x == 0 {
      StayPut(p, s, lim);
      s' := s;
    } else {
      var s1 := SomeTurn(p, s, lim);
      assert SumOf(Turns, s1.cur) == SumOf(Turns, s.cur) + 1;
      PlusPlus(s.sh.result, 1, x - 1);
      s' := Advance(p, s1, lim, x - 1);
      ReachTrans(p, s, s1, s');
      AdvancedTrans(p, s.cur, s1.cur, s'.cur, lim, 1, x - 1);
    }
  }

  // ------------------------------------------------- start and end of a round

  ghost predicate Fresh(p: Params, ts: seq<Thread>) {
    forall k :: 0 <= k < |ts| ==> ts[k] == Thread(k, 0, LoopHead(p, 0))
  }

  /** The main thread starts the threads that are still missing. */
  lemma {:induction false} SpawnAll(p: Params, s: State) returns (s': State)
    requires s.main.AtSpawn? && s.main.i == |s.cur| <= p.n && Fresh(p, s.cur)
    ensures Reach(p, s, s')
    ensures s' == s.(main := AtWait(0), cur := s'.cur) && |s'.cur| == p.n && Fresh(p, s'.cur)
    decreases p.n - s.main.i
  {
    var s1 := Next(p, s, MainMove);
    ReachSelf(p, s);
    ReachStep(p, s, s, MainMove);
    if s.main.i == p.n {
      s' := s1;
    } else {
      s' := SpawnAll(p, s1);
      ReachTrans(p, s, s1, s');
    }
  }

  lemma StartRound(p: Params, s: State) returns (s': State)
    requires s.main.AtRound? && |s.printed| < p.rounds
    ensures Reach(p, s, s')
    ensures s'.main == AtWait(0) && |s'.cur| == p.n && Fresh(p, s'.cur)
    ensures s'.sh.result == 0 && s'.printed == s.printed
  {
    var s1 := Next(p, s, MainMove);
    ReachSelf(p, s);
    ReachStep(p, s, s, MainMove);
    s' := SpawnAll(p, s1);
    ReachTrans(p, s, s1, s');
  }

  /** Threads complete and are waited for in turn; then the round prints. */
  lemma {:induction false} FinishRound(p: Params, s: State) returns (s': State)
    requires Inv(p, s) && s.main.AtWait?
    requires forall k :: s.main.i <= k < p.n ==> s.cur[k].pc == AtComplete
    ensures Reach(p, s, s')
    ensures s'.main.AtRound? && s'.printed == s.printed + [s.sh.result]
    decreases p.n - s.main.i
  {
    var k := s.main.i;
    ReachSelf(p, s);
    if k == p.n {
      s' := Next(p, s, MainMove);
      ReachStep(p, s, s, MainMove);
    } else {
      var s1 := Next(p, s, CurMove(k));
      StepKeepsInv(p, s, CurMove(k));
      ReachStep(p, s, s, CurMove(k));
      assert s1.sh.done[k] == DoneCount(s1, k) == 1;
      var s2 := Next(p, s1, MainMove);
      StepKeepsInv(p, s1, MainMove);
      ReachStep(p, s, s1, MainMove);
      s' := FinishRound(p, s2);
      ReachTrans(p, s, s2, s');
    }
  }

  // ---------------------------------------------------- losing x + y updates

  function Same(n: nat, v: nat): (lim: seq<nat>) {
    seq(n, _ => v)
  }

  function TurnsOf(ts: seq<Thread>): (lim: seq<nat>)
    ensures |lim| == |ts| && forall k :: 0 <= k < |ts| ==> lim[k] == ts[k].i
  {
    seq(|ts|, k requires 0 <= k < |ts| => ts[k].i)
  }

  lemma {:induction false} TotalSame(n: nat, v: nat)
    ensures Total(Same(n, v)) == n * v
  {
    if n > 0 {
      assert Same(n, v)[..n - 1] == Same(n - 1, v);
      TotalSame(n - 1, v);
      assert n * v == (n - 1) * v + v;
    }
  }

  lemma {:induction false} TotalUpdate(lim: seq<nat>, k: nat, v: nat)
    requires k < |lim|
    ensures Total(lim[k := v]) == Total(lim) - lim[k] + v
  {
    var last := |lim| - 1;
    if k == last {
      assert lim[k := v][..last] == lim[..last];
    } else {
      assert lim[k := v][..last] == lim[..last][k := v];
      TotalUpdate(lim[..last], k, v);
    }
  }

  lemma {:induction false} TotalTurns(ts: seq<Thread>)
    ensures Total(TurnsOf(ts)) == SumOf(Turns, ts)
  {
    if ts != [] {
      assert TurnsOf(ts)[..|ts| - 1] == TurnsOf(ts[..|ts| - 1]);
      TotalTurns(ts[..|ts| - 1]);
    }
  }

  lemma AllFull(ts: seq<Thread>, m: nat)
    requires forall k :: 0 <= k < |ts| ==> ts[k].i <= m
    requires SumOf(Turns, ts) == |ts| * m
    ensures forall k :: 0 <= k < |ts| ==> ts[k].i == m
  {
    forall k | 0 <= k < |ts|
      ensures ts[k].i == m
    {
      var full := ts[k := ts[k].(i := m)];
      SumUpdate(Turns, ts, k, full[k]);
      SumAtMost(Turns, full, m);
    }
  }

  /** How far the threads may run while thread 0 holds its first load and thread 1 stops at `keep`. */
  function StaleLimits(p: Params, keep: nat): (lim: seq<nat>)
    requires p.n >= 2
    ensures |lim| == p.n && lim[0] == 0 && lim[1] == keep
    ensures forall k :: 2 <= k < p.n ==> lim[k] == p.m
  {
    var all: seq<nat> := Same(p.n, p.m);
    all[0 := 0][1 := keep]
  }

  /** Iterations that can run meanwhile. */
  function Stale(p: Params, keep: nat): int {
    (p.n - 2) * p.m + keep
  }

  lemma StaleRoom(p: Params, keep: nat)
    requires p.n >= 2
    ensures Stale(p, keep) == p.n * p.m - 2 * p.m + keep >= 0
  {
    MulMono(0, p.n - 2, p.m);
  }

  lemma StaleTotal(p: Params, keep: nat)
    requires p.n >= 2
    ensures Total(StaleLimits(p, keep)) == Stale(p, keep)
  {
    var all: seq<nat> := Same(p.n, p.m);
    TotalSame(p.n, p.m);
    TotalUpdate(all, 0, 0);
    TotalUpdate(all[0 := 0], 1, keep);
    StaleRoom(p, keep);
  }

  lemma FreshTurns(p: Params, ts: seq<Thread>)
    requires Fresh(p, ts)
    ensures SumOf(Turns, ts) == 0
  {
    SumZero(Turns, ts);
  }

  /** Thread 0 loads 0, and thread 1 can still be run `keep` times, the others to the end. */
  lemma LoadFirst(p: Params, s: State, keep: nat) returns (s': State)
    requires !Locks(p) && p.n >= 2 && 1 <= keep <= p.m
    requires |s.cur| == p.n && Fresh(p, s.cur) && s.sh.result == 0
    ensures Reach(p, s, s')
    ensures s' == s.(cur := s.cur[0 := Thread(0, 0, AtStore(0))])
    ensures Runnable(p, s'.cur, StaleLimits(p, keep)) && SumOf(Turns, s'.cur) == 0
  {
    s' := LoadOf(p, s, 0);
    FreshTurns(p, s.cur);
    SumUpdate(Turns, s.cur, 0, s'.cur[0]);
  }

  /** Thread 0 overwrites x iterations of the others with 1. */
  lemma LoseFirst(p: Params, s: State, x: nat, keep: nat) returns (s': State)
    requires !Locks(p) && p.n >= 2 && 1 <= keep <= p.m
    requires |s.cur| == p.n && Fresh(p, s.cur) && s.sh.result == 0
    requires x <= Stale(p, keep)
    ensures Reach(p, s, s')
    ensures s' == s.(cur := s'.cur, sh := s.sh.(result := 1)) && |s'.cur| == p.n
    ensures SumOf(Turns, s'.cur) == 1 + x
    ensures forall k :: 0 <= k < p.n ==> s'.cur[k].i <= p.m && AtHead(p, s'.cur[k])
    ensures s'.cur[0].i == 1 && s'.cur[1].i <= keep
  {
    var lim := StaleLimits(p, keep);
    StaleTotal(p, keep);
    var s1 := LoadFirst(p, s, keep);
    var s2 := Advance(p, s1, lim, x);
    ReachTrans(p, s, s1, s2);
    assert s2.cur[0] == s1.cur[0];
    s' := StoreOf(p, s2, 0);
    ReachTrans(p, s, s2, s');
    SumUpdate(Turns, s2.cur, 0, s'.cur[0]);
  }

  /** Thread 0 alone runs y iterations. */
  lemma RunFirstThread(p: Params, s: State, y: nat) returns (s': State)
    requires !Locks(p) && |s.cur| >= 2 && s.cur[0].i + y <= p.m && AtHead(p, s.cur[0])
    requires forall k :: 0 <= k < |s.cur| ==> s.cur[k].i <= p.m
    requires s.sh.result < WORD
    ensures Reach(p, s, s') && |s'.cur| == |s.cur|
    ensures s' == s.(cur := s'.cur, sh := s.sh.(result := Plus(s.sh.result, y)))
    ensures SumOf(Turns, s'.cur) == SumOf(Turns, s.cur) + y
    ensures s'.cur[0].i <= p.m && AtHead(p, s'.cur[0])
    ensures forall k :: 1 <= k < |s.cur| ==> s'.cur[k] == s.cur[k]
  {
    var now := TurnsOf(s.cur);
    TotalTurns(s.cur);
    TotalUpdate(now, 0, s.cur[0].i + y);
    s' := Advance(p, s, now[0 := s.cur[0].i + y], y);
  }

  /** Thread 1 overwrites y iterations of thread 0 with 2. */
  lemma LoseSecond(p: Params, s: State, y: nat) returns (s': State)
    requires !Locks(p) && p.m >= 2 && |s.cur| >= 2 && y <= p.m - 1
    requires forall k :: 0 <= k < |s.cur| ==> s.cur[k].i <= p.m && AtHead(p, s.cur[k])
    requires s.cur[0].i == 1 && s.cur[1].i < p.m && s.sh.result == 1
    ensures Reach(p, s, s')
    ensures s' == s.(cur := s'.cur, sh := s.sh.(result := 2)) && |s'.cur| == |s.cur|
    ensures SumOf(Turns, s'.cur) == SumOf(Turns, s.cur) + y + 1
    ensures forall k :: 0 <= k < |s.cur| ==> s'.cur[k].i <= p.m && AtHead(p, s'.cur[k])
  {
    var s1 := LoadOf(p, s, 1);
    SumUpdate(Turns, s.cur, 1, s1.cur[1]);
    var s2 := RunFirstThread(p, s1, y);
    ReachTrans(p, s, s1, s2);
    s' := StoreOf(p, s2, 1);
    ReachTrans(p, s, s2, s');
    SumUpdate(Turns, s2.cur, 1, s'.cur[1]);
  }

  /** The rest of the round, without loss: every thread to the end of its loop. */
  lemma RunLoopsOut(p: Params, s: State) returns (s': State)
    requires Shape(p, s) && !Locks(p) && s.main == AtWait(0)
    requires forall k :: 0 <= k < p.n ==> s.cur[k].i <= p.m && AtHead(p, s.cur[k])
    requires SumOf(Turns, s.cur) <= p.n * p.m && s.sh.result < WORD
    ensures Reach(p, s, s')
    ensures s' == s.(cur := s'.cur,
                     sh := s.sh.(result := Plus(s.sh.result, p.n * p.m - SumOf(Turns, s.cur))))
    ensures |s'.cur| == p.n && forall k :: 0 <= k < p.n ==> s'.cur[k].pc == AtComplete
  {
    var lim := Same(p.n, p.m);
    var left := p.n * p.m - SumOf(Turns, s.cur);
    TotalSame(p.n, p.m);
    assert Runnable(p, s.cur, lim);
    s' := Advance(p, s, lim, left);
    assert |s'.cur| == p.n && SumOf(Turns, s'.cur) == p.n * p.m;
    AllFull(s'.cur, p.m);
  }

  lemma RunOut(p: Params, s: State) returns (s': State)
    requires Inv(p, s) && !Locks(p) && s.main == AtWait(0)
    requires forall k :: 0 <= k < p.n ==> s.cur[k].i <= p.m && AtHead(p, s.cur[k])
    requires SumOf(Turns, s.cur) <= p.n * p.m && s.sh.result < WORD
    ensures Reach(p, s, s')
    ensures s'.main.AtRound?
    ensures s'.printed == s.printed + [Plus(s.sh.result, p.n * p.m - SumOf(Turns, s.cur))]
  {
    var s1 := RunLoopsOut(p, s);
    ReachInv(p, s, s1);
    s' := FinishRound(p, s1);
    ReachTrans(p, s, s1, s');
  }

  /** A round in which nothing is lost. */
  lemma RoundLossless(p: Params, s: State) returns (s': State)
    requires Inv(p, s) && !Locks(p) && s.main.AtRound? && |s.printed| < p.rounds
    ensures Reach(p, s, s')
    ensures s'.main.AtRound? && s'.printed == s.printed + [(p.n * p.m) % WORD]
  {
    var s1 := StartRound(p, s);
    ReachInv(p, s, s1);
    FreshTurns(p, s1.cur);
    s' := RunOut(p, s1);
    ReachTrans(p, s, s1, s');
  }

  /** A round in which thread 0's first store costs the others x increments. */
  lemma RoundLosingOnce(p: Params, s: State, x: nat) returns (s': State)
    requires Inv(p, s) && !Locks(p) && p.n >= 2 && p.m >= 1
    requires s.main.AtRound? && |s.printed| < p.rounds
    requires x <= Stale(p, p.m)
    ensures Reach(p, s, s')
    ensures s'.main.AtRound? && s'.printed == s.printed + [(p.n * p.m - x) % WORD]
  {
    StaleRoom(p, p.m);
    var s1 := StartRound(p, s);
    var s2 := LoseFirst(p, s1, x, p.m);
    ReachTrans(p, s, s1, s2);
    ReachInv(p, s, s2);
    s' := RunOut(p, s2);
    ReachTrans(p, s, s2, s');
  }

  /** A round that loses x increments to thread 0's first store and y to thread 1's. */
  lemma LoseBoth(p: Params, s: State, x: nat, y: nat) returns (s': State)
    requires !Locks(p) && p.n >= 2 && p.m >= 2
    requires s.main.AtRound? && |s.printed| < p.rounds
    requires x <= Stale(p, p.m - 1) && y <= p.m - 1
    ensures Reach(p, s, s')
    ensures s'.main == AtWait(0) && s'.printed == s.printed && s'.sh.result == 2 && |s'.cur| == p.n
    ensures SumOf(Turns, s'.cur) == 2 + x + y
    ensures forall k :: 0 <= k < p.n ==> s'.cur[k].i <= p.m && AtHead(p, s'.cur[k])
  {
    var s1 := StartRound(p, s);
    var s2 := LoseFirst(p, s1, x, p.m - 1);
    ReachTrans(p, s, s1, s2);
    s' := LoseSecond(p, s2, y);
    ReachTrans(p, s, s2, s');
  }

  lemma RoundLosing(p: Params, s: State, x: nat, y: nat) returns (s': State)
    requires Inv(p, s) && !Locks(p) && p.n >= 2 && p.m >= 2
    requires s.main.AtRound? && |s.printed| < p.rounds
    requires x <= Stale(p, p.m - 1) && y <= p.m - 1
    ensures Reach(p, s, s')
    ensures s'.main.AtRound? && s'.printed == s.printed + [(p.n * p.m - x - y) % WORD]
  {
    StaleRoom(p, p.m - 1);
    var s1 := LoseBoth(p, s, x, y);
    ReachInv(p, s, s1);
    s' := RunOut(p, s1);
    ReachTrans(p, s, s1, s');
  }

  // ------------------------------------------------------------ main results

  /** The values a round can print: n * m alone if there is no one to race with. */
  predicate Possible(p: Params, v: nat) {
    (if p.n <= 1 then p.n * p.m else Least(p)) <= v <= p.n * p.m
  }

  /** How much each of the two stale stores has to cost. */
  lemma SplitLoss(p: Params, v: nat) returns (x: nat, y: nat)
    requires p.n >= 2 && p.m >= 2 && 2 <= v <= p.n * p.m
    ensures x <= Stale(p, p.m - 1) && y <= p.m - 1 && p.n * p.m - x - y == v
  {
    StaleRoom(p, p.m - 1);
    var lost := p.n * p.m - v;
    var most := Stale(p, p.m - 1);
    x := if lost <= most then lost else most;
    y := lost - x;
  }

  lemma StaleOnce(p: Params, v: nat)
    requires p.n >= 2 && p.m == 1 && 1 <= v <= p.n
    ensures p.n * p.m - v <= Stale(p, p.m)
  {
  }

  /** From any round boundary, a round can print any possible value, as a 32-bit word. */
  lemma AnyValueNext(p: Params, s: State, v: nat) returns (s': State)
    requires Inv(p, s) && !Locks(p)
    requires s.main.AtRound? && |s.printed| < p.rounds && Possible(p, v)
    ensures Reach(p, s, s')
    ensures s'.main.AtRound? && s'.printed == s.printed + [v % WORD]
  {
    if p.n <= 1 || p.m == 0 {
      s' := RoundLossless(p, s);
    } else if p.m == 1 {
      StaleOnce(p, v);
      s' := RoundLosingOnce(p, s, p.n * p.m - v);
    } else {
      var x, y := SplitLoss(p, v);
      s' := RoundLosing(p, s, x, y);
    }
  }

  lemma OneMore(p: Params, s: State, v: nat) returns (s': State)
    requires !Locks(p) && Fits(p) && Possible(p, v)
    requires Reach(p, Init(p), s) && s.main.AtRound? && |s.printed| < p.rounds
    ensures Reach(p, Init(p), s') && s'.main.AtRound? && s'.printed == s.printed + [v]
  {
    InitInv(p);
    ReachInv(p, Init(p), s);
    s' := AnyValueNext(p, s, v);
    ReachTrans(p, Init(p), s, s');
    ModSmall(v);
  }

  lemma {:induction false} AnyValues(p: Params, vs: seq<nat>) returns (s': State)
    requires !Locks(p) && Fits(p) && |vs| <= p.rounds
    requires forall j :: 0 <= j < |vs| ==> Possible(p, vs[j])
    ensures Reach(p, Init(p), s') && s'.main.AtRound? && s'.printed == vs
    decreases |vs|
  {
    if vs == [] {
      s' := Init(p);
      ReachSelf(p, s');
    } else {
      var front, last := vs[..|vs| - 1], vs[|vs| - 1];
      var s1 := AnyValues(p, front);
      s' := OneMore(p, s1, last);
      assert vs == front + [last];
    }
  }

  lemma PrintedPossible(p: Params, s: State)
    requires Fits(p) && Reach(p, Init(p), s)
    ensures forall j :: 0 <= j < |s.printed| ==> Possible(p, s.printed[j])
    ensures s.main.Finished? ==> |s.printed| == p.rounds
  {
    InitInv(p);
    ReachInv(p, Init(p), s);
    ModSmall(p.n * p.m);
  }

  lemma ModSmall(x: nat)
    ensures x < WORD ==> x % WORD == x
  {
  }

  /**
  Every value any interleaving prints is possible in this sense exactly when a round
  cannot wrap the 32-bit counter.
  */
  lemma BoundsIffFits(p: Params)
    requires !Locks(p) && p.rounds >= 1
    ensures (forall s, j :: Reach(p, Init(p), s) && 0 <= j < |s.printed| ==> Possible(p, s.printed[j])) <==> Fits(p)
  {
    if Fits(p) {
      forall s, j | Reach(p, Init(p), s) && 0 <= j < |s.printed|
        ensures Possible(p, s.printed[j])
      {
        PrintedPossible(p, s);
      }
    } else {
      var s := WrappedRound(p);
      assert !Possible(p, s.printed[0]);
    }
  }

  /** Too many increments for the counter: some round prints what it should not. */
  lemma WrappedRound(p: Params) returns (s: State)
    requires !Locks(p) && p.rounds >= 1 && !Fits(p)
    ensures Reach(p, Init(p), s) && |s.printed| == 1 && !Possible(p, s.printed[0])
  {
    NonZero(p.n, p.m);
    var v := if p.n <= 1 then p.n * p.m else WORD;
    InitInv(p);
    s := AnyValueNext(p, Init(p), v);
    assert s.printed[0] == v % WORD < WORD;
  }

  lemma NonZero(n: nat, m: nat)
    requires n * m > 0
    ensures n > 0 && m > 0
  {
  }

  /** Some interleaving of the whole experiment prints exactly vs. */
  ghost predicate CanPrint(p: Params, vs: seq<nat>) {
    exists s :: Reach(p, Init(p), s) && s.main.Finished? && s.printed == vs
  }

  /** Without a lock, what the experiment can print is exactly every list of possible values. */
  lemma RacyOutcomesExactly(p: Params, vs: seq<nat>)
    requires !Locks(p) && Fits(p)
    ensures CanPrint(p, vs) <==> |vs| == p.rounds && forall j :: 0 <= j < |vs| ==> Possible(p, vs[j])
  {
    if CanPrint(p, vs) {
      var s :| Reach(p, Init(p), s) && s.main.Finished? && s.printed == vs;
      PrintedPossible(p, s);
    }
    if |vs| == p.rounds && forall j :: 0 <= j < |vs| ==> Possible(p, vs[j]) {
      var s := AnyValues(p, vs);
      var s' := Next(p, s, MainMove);
      ReachStep(p, Init(p), s, MainMove);
      assert s'.main.Finished? && s'.printed == vs;
    }
  }
}
