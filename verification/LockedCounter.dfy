/**
The locked-counter experiment: `n` kernel threads each increment one shared
counter `m` times under a spinlock, a mutex or no lock at all, and the main
thread repeats this for a number of rounds on completions it never re-initialises.

Every atomic action of every thread is one step. `result++` is two steps, a load
into a register and a store of the register plus one, as the compiler emits it.
A run is any sequence of enabled steps, so every statement about runs is a
statement about every interleaving.
*/
module LockedCounter {
  import opened Arithmetic
  import opened Kernel

  const SPINLOCK := 1
  const MUTEX := 2

  /** The module parameter `type` and the three compile-time constants. */
  datatype Params = Params(kind: int, n: nat, m: nat, rounds: nat)

  predicate Locks(p: Params) {
    p.kind == SPINLOCK || p.kind == MUTEX
  }

  /** Where a thread is in its loop. `AtStore` holds the register. */
  datatype Pc = AtLock | AtLoad | AtStore(reg: nat) | AtUnlock | AtComplete | AtReturn | Exited

  datatype Thread = Thread(slot: nat, i: nat, pc: Pc)

  /** What all threads share: the counter, both locks, and the completion counts. */
  datatype Shared = Shared(result: nat, spin: bool, mutex: bool, done: seq<nat>)

  /** Where the main thread is; its round number is the number of values printed. */
  datatype Main = AtRound | AtSpawn(i: nat) | AtWait(i: nat) | Finished

  /**
  `cur` are the threads of the current round in slot order, `past` those of earlier
  rounds, which may still be on their way out.
  */
  datatype State = State(main: Main, sh: Shared, cur: seq<Thread>, past: seq<Thread>, printed: seq<nat>)

  datatype Move = MainMove | CurMove(k: nat) | PastMove(k: nat)

  // ------------------------------------------------------------------ steps

  function Zeros(n: nat): (z: seq<nat>) {
    seq(n, _ => 0)
  }

  function Init(p: Params): State {
    State(AtRound, Shared(0, false, false, Zeros(p.n)), [], [], [])
  }

  predicate LockFree(p: Params, sh: Shared) {
    if p.kind == SPINLOCK then !sh.spin else if p.kind == MUTEX then !sh.mutex else true
  }

  function SetLock(p: Params, sh: Shared, held: bool): Shared {
    if p.kind == SPINLOCK then sh.(spin := held)
    else if p.kind == MUTEX then sh.(mutex := held)
    else sh
  }

  /** The head of the `for` loop: another iteration, or out to `complete`. */
  function LoopHead(p: Params, i: nat): Pc {
    if i < p.m then AtLock else AtComplete
  }

  predicate ThreadEnabled(p: Params, sh: Shared, t: Thread) {
    match t.pc
    case AtLock => LockFree(p, sh)
    case AtComplete => t.slot < |sh.done|
    case Exited => false
    case _ => true
  }

  /** One atomic action of `thread_func`. */
  function ThreadStep(p: Params, sh: Shared, t: Thread): (Shared, Thread)
    requires ThreadEnabled(p, sh, t)
  {
    match t.pc
    case AtLock => (SetLock(p, sh, true), t.(pc := AtLoad))
    case AtLoad => (sh, t.(pc := AtStore(sh.result)))
    case AtStore(reg) => (sh.(result := (reg + 1) % WORD), t.(pc := AtUnlock))
    case AtUnlock => (SetLock(p, sh, false), t.(i := t.i + 1, pc := LoopHead(p, t.i + 1)))
    case AtComplete => (sh.(done := sh.done[t.slot := sh.done[t.slot] + 1]), t.(pc := AtReturn))
    case AtReturn => (sh, t.(pc := Exited))
  }

  predicate Enabled(p: Params, s: State, a: Move) {
    match a
    case MainMove =>
      (match s.main
       case AtWait(i) => i < p.n ==> i < |s.sh.done| && s.sh.done[i] > 0
       case Finished => false
       case _ => true)
    case CurMove(k) => k < |s.cur| && ThreadEnabled(p, s.sh, s.cur[k])
    case PastMove(k) => k < |s.past| && ThreadEnabled(p, s.sh, s.past[k])
  }

  /** One atomic action of the main thread. */
  function MainStep(p: Params, s: State): State
    requires Enabled(p, s, MainMove)
  {
    match s.main
    case AtRound =>
      if |s.printed| < p.rounds
      then s.(main := AtSpawn(0), sh := s.sh.(result := 0), past := s.past + s.cur, cur := [])
      else s.(main := Finished)
    case AtSpawn(i) =>
      if i < p.n
      then s.(main := AtSpawn(i + 1), cur := s.cur + [Thread(i, 0, LoopHead(p, 0))])
      else s.(main := AtWait(0))
    case AtWait(i) =>
      if i < p.n
      then s.(main := AtWait(i + 1), sh := s.sh.(done := s.sh.done[i := s.sh.done[i] - 1]))
      else s.(main := AtRound, printed := s.printed + [s.sh.result])
  }

  function Next(p: Params, s: State, a: Move): State
    requires Enabled(p, s, a)
  {
    match a
    case MainMove => MainStep(p, s)
    case CurMove(k) =>
      var (sh, t) := ThreadStep(p, s.sh, s.cur[k]);
      s.(sh := sh, cur := s.cur[k := t])
    case PastMove(k) =>
      var (sh, t) := ThreadStep(p, s.sh, s.past[k]);
      s.(sh := sh, past := s.past[k := t])
  }

  ghost predicate CanRun(p: Params, s: State, run: seq<Move>)
    decreases |run|
  {
    run == [] || (Enabled(p, s, run[0]) && CanRun(p, Next(p, s, run[0]), run[1..]))
  }

  ghost function Exec(p: Params, s: State, run: seq<Move>): State
    requires CanRun(p, s, run)
    decreases |run|
  {
    if run == [] then s else Exec(p, Next(p, s, run[0]), run[1..])
  }

  // ------------------------------------------------------------- invariants

  /** Past `complete`: nothing left but to return. */
  predicate Signalled(t: Thread) {
    t.pc == AtReturn || t.pc == Exited
  }

  predicate InCritical(t: Thread) {
    t.pc.AtLoad? || t.pc.AtStore? || t.pc.AtUnlock?
  }

  /** The main thread has consumed slot k's completion for this round. */
  predicate Waited(s: State, k: nat) {
    s.main.AtRound? || s.main.Finished? || (s.main.AtWait? && k < s.main.i)
  }

  predicate ThreadOk(p: Params, t: Thread) {
    if t.pc.AtLock? || InCritical(t) then t.i < p.m else t.i == p.m
  }

  predicate MainOk(p: Params, s: State) {
    match s.main
    case AtRound => |s.printed| <= p.rounds && (|s.cur| == p.n || (s.cur == [] && s.printed == []))
    case AtSpawn(i) => |s.printed| < p.rounds && i == |s.cur| <= p.n
    case AtWait(i) => |s.printed| < p.rounds && i <= p.n == |s.cur|
    case Finished => |s.printed| == p.rounds && (|s.cur| == p.n || s.cur == [])
  }

  function DoneCount(s: State, k: nat): nat {
    if k < |s.cur| && Signalled(s.cur[k]) && !Waited(s, k) then 1 else 0
  }

  /** Control flow and completions. */
  ghost predicate Shape(p: Params, s: State) {
    && MainOk(p, s)
    && |s.sh.done| == p.n
    && (forall k :: 0 <= k < |s.cur| ==> s.cur[k].slot == k && ThreadOk(p, s.cur[k]))
    && (forall k :: 0 <= k < |s.cur| && Waited(s, k) ==> Signalled(s.cur[k]))
    && (forall k :: 0 <= k < p.n ==> s.sh.done[k] == DoneCount(s, k))
    && (forall k :: 0 <= k < |s.past| ==> Signalled(s.past[k]))
  }

  /** Each lock is held exactly while one thread is between taking and releasing it. */
  ghost predicate Exclusive(p: Params, s: State) {
    && (s.sh.spin ==> p.kind == SPINLOCK)
    && (s.sh.mutex ==> p.kind == MUTEX)
    && (Locks(p) ==>
      && (forall j, k :: 0 <= j < k < |s.cur| ==> !(InCritical(s.cur[j]) && InCritical(s.cur[k])))
      && (forall k :: 0 <= k < |s.cur| && InCritical(s.cur[k]) ==> !LockFree(p, s.sh))
      && (!LockFree(p, s.sh) ==> exists k :: 0 <= k < |s.cur| && InCritical(s.cur[k])))
  }

  /** Stores a thread has done in its round. */
  function Stored(t: Thread): nat {
    if t.pc.AtUnlock? then t.i + 1 else t.i
  }

  function SumOf(f: Thread -> nat, ts: seq<Thread>): nat {
    if ts == [] then 0 else SumOf(f, ts[..|ts| - 1]) + f(ts[|ts| - 1])
  }

  function Sum(ts: seq<Thread>): nat {
    SumOf(Stored, ts)
  }

  /** No two threads can be inside an increment: there is a lock, or at most one thread. */
  predicate Serial(p: Params) {
    Locks(p) || p.n <= 1
  }

  /** Then no increment is lost. */
  ghost predicate Exact(p: Params, s: State) {
    Serial(p) ==>
      && s.sh.result == Sum(s.cur) % WORD
      && (forall k :: 0 <= k < |s.cur| && s.cur[k].pc.AtStore? ==> s.cur[k].pc.reg == s.sh.result)
  }

  ghost predicate AllStored(p: Params, s: State) {
    |s.cur| == p.n && forall k :: 0 <= k < |s.cur| ==> Stored(s.cur[k]) == p.m
  }

  /** Nothing in the counter or a register exceeds the stores done. */
  ghost predicate Upper(s: State) {
    && s.sh.result <= Sum(s.cur)
    && (forall k :: 0 <= k < |s.cur| && s.cur[k].pc.AtStore? ==> s.cur[k].pc.reg <= Sum(s.cur))
  }

  /** Once a thread has stored, neither the counter nor its own later loads are 0. */
  ghost predicate Positive(s: State) {
    && (forall k :: 0 <= k < |s.cur| && Stored(s.cur[k]) >= 1 ==> s.sh.result >= 1)
    && (forall k :: 0 <= k < |s.cur| && s.cur[k].pc.AtStore? && s.cur[k].i >= 1 ==> s.cur[k].pc.reg >= 1)
  }

  /**
  With or without a lock: what is in the counter and in every register stays
  between these bounds.
  */
  ghost predicate Bounded(p: Params, s: State) {
    && Upper(s)
    && Positive(s)
    && (p.n >= 1 && p.m >= 2 && AllStored(p, s) ==> s.sh.result >= 2)
  }

  /** No round can wrap the counter; 2 threads of 2000000 iterations cannot. */
  predicate Fits(p: Params) {
    p.n * p.m < WORD
  }

  function Least(p: Params): nat {
    if p.n == 0 then 0 else if p.m < 2 then p.m else 2
  }

  predicate PrintedOk(p: Params, v: nat) {
    && (Serial(p) ==> v == (p.n * p.m) % WORD)
    && (Fits(p) ==> Least(p) <= v <= p.n * p.m)
  }

  ghost predicate Inv(p: Params, s: State) {
    && Shape(p, s)
    && Exclusive(p, s)
    && Exact(p, s)
    && (Fits(p) ==> Bounded(p, s))
    && (forall j :: 0 <= j < |s.printed| ==> PrintedOk(p, s.printed[j]))
  }

  // ------------------------------------------------------------------- sums

  lemma {:induction false} SumUpdate(f: Thread -> nat, ts: seq<Thread>, k: nat, t: Thread)
    requires k < |ts|
    ensures SumOf(f, ts[k := t]) == SumOf(f, ts) - f(ts[k]) + f(t)
  {
    var last := |ts| - 1;
    if k == last {
      assert ts[k := t][..last] == ts[..last];
    } else {
      assert ts[k := t][..last] == ts[..last][k := t];
      SumUpdate(f, ts[..last], k, t);
    }
  }

  lemma {:induction false} SumAtMost(f: Thread -> nat, ts: seq<Thread>, m: nat)
    requires forall k :: 0 <= k < |ts| ==> f(ts[k]) <= m
    ensures SumOf(f, ts) <= |ts| * m
    ensures (forall k :: 0 <= k < |ts| ==> f(ts[k]) == m) ==> SumOf(f, ts) == |ts| * m
  {
    if ts != [] {
      var front := ts[..|ts| - 1];
      SumAtMost(f, front, m);
      assert |ts| * m == |front| * m + m;
    }
  }

  lemma {:induction false} SumConcat(f: Thread -> nat, a: seq<Thread>, b: seq<Thread>)
    ensures SumOf(f, a + b) == SumOf(f, a) + SumOf(f, b)
  {
    if b == [] {
      assert a + b == a;
    } else {
      assert (a + b)[..|a + b| - 1] == a + b[..|b| - 1];
      SumConcat(f, a, b[..|b| - 1]);
    }
  }

  lemma {:induction false} SumZero(f: Thread -> nat, ts: seq<Thread>)
    ensures SumOf(f, ts) == 0 <==> forall k :: 0 <= k < |ts| ==> f(ts[k]) == 0
  {
    if ts != [] {
      SumZero(f, ts[..|ts| - 1]);
    }
  }

  // ---------------------------------------------------- what every step keeps

  /** A thread's own part of the control flow: it signals in one step, once. */
  lemma ThreadAdvances(p: Params, sh: Shared, t: Thread)
    requires ThreadOk(p, t) && ThreadEnabled(p, sh, t)
    ensures var (sh', t') := ThreadStep(p, sh, t);
            && t'.slot == t.slot && ThreadOk(p, t')
            && (Signalled(t') <==> Signalled(t) || t.pc.AtComplete?)
            && sh'.done == if t.pc.AtComplete? then sh.done[t.slot := sh.done[t.slot] + 1] else sh.done
  {
  }

  lemma ThreadShape(p: Params, s: State, k: nat)
    requires Shape(p, s) && Enabled(p, s, CurMove(k))
    ensures Shape(p, Next(p, s, CurMove(k)))
  {
    ThreadAdvances(p, s.sh, s.cur[k]);
  }

  lemma ThreadExclusive(p: Params, s: State, k: nat)
    requires Shape(p, s) && Exclusive(p, s) && Enabled(p, s, CurMove(k))
    ensures Exclusive(p, Next(p, s, CurMove(k)))
  {
    var s' := Next(p, s, CurMove(k));
    if Locks(p) && !LockFree(p, s'.sh) {
      if s.cur[k].pc.AtLock? {
        assert InCritical(s'.cur[k]);
      } else {
        var j :| 0 <= j < |s.cur| && InCritical(s.cur[j]);
        assert InCritical(s'.cur[j]);
      }
    }
  }

  lemma WordStep(sum: nat)
    ensures (sum % WORD + 1) % WORD == (sum + 1) % WORD
  {
  }

  /** A step that is no store leaves counter and stores done alone. */
  lemma NoStore(p: Params, s: State, k: nat)
    requires Enabled(p, s, CurMove(k)) && !s.cur[k].pc.AtStore?
    ensures var s' := Next(p, s, CurMove(k));
            && s'.sh.result == s.sh.result
            && Stored(s'.cur[k]) == Stored(s.cur[k])
            && Sum(s'.cur) == Sum(s.cur)
            && (s'.cur[k].pc.AtStore? ==> s'.cur[k].pc.reg == s.sh.result && s'.cur[k].i == s.cur[k].i)
  {
    SumUpdate(Stored, s.cur, k, Next(p, s, CurMove(k)).cur[k]);
  }

  /** A store is one more store done, and leaves the register plus one. */
  lemma OneStore(p: Params, s: State, k: nat)
    requires Enabled(p, s, CurMove(k)) && s.cur[k].pc.AtStore?
    ensures var s' := Next(p, s, CurMove(k));
            && s'.sh.result == (s.cur[k].pc.reg + 1) % WORD
            && Stored(s'.cur[k]) == Stored(s.cur[k]) + 1
            && s'.cur[k].pc.AtUnlock?
            && Sum(s'.cur) == Sum(s.cur) + 1
  {
    SumUpdate(Stored, s.cur, k, Next(p, s, CurMove(k)).cur[k]);
  }

  lemma ThreadExact(p: Params, s: State, k: nat)
    requires Shape(p, s) && Exclusive(p, s) && Exact(p, s) && Enabled(p, s, CurMove(k))
    ensures Exact(p, Next(p, s, CurMove(k)))
  {
    if Serial(p) {
      if s.cur[k].pc.AtStore? {
        OneStore(p, s, k);
        WordStep(Sum(s.cur));
        OnlyOneInside(p, s, k);
      } else {
        NoStore(p, s, k);
      }
    }
  }

  lemma OnlyOneInside(p: Params, s: State, k: nat)
    requires Shape(p, s) && Exclusive(p, s) && Serial(p) && k < |s.cur| && InCritical(s.cur[k])
    ensures forall j :: 0 <= j < |s.cur| && j != k ==> !InCritical(s.cur[j])
  {
  }

  /** Fewer than WORD stores happen in a round that fits. */
  lemma SumFits(p: Params, s: State)
    requires Shape(p, s) && Fits(p)
    ensures Sum(s.cur) <= p.n * p.m < WORD
  {
    assert |s.cur| <= p.n;
    SumAtMost(Stored, s.cur, p.m);
    MulMono(|s.cur|, p.n, p.m);
  }

  lemma StoreUpper(p: Params, s: State, k: nat)
    requires Shape(p, s) && Fits(p) && Upper(s) && Enabled(p, s, CurMove(k)) && s.cur[k].pc.AtStore?
    ensures Next(p, s, CurMove(k)).sh.result == s.cur[k].pc.reg + 1
    ensures Upper(Next(p, s, CurMove(k)))
  {
    ThreadShape(p, s, k);
    OneStore(p, s, k);
    SumFits(p, Next(p, s, CurMove(k)));
  }

  lemma StoreBounded(p: Params, s: State, k: nat)
    requires Shape(p, s) && Fits(p) && Bounded(p, s) && Enabled(p, s, CurMove(k))
    requires s.cur[k].pc.AtStore?
    ensures Bounded(p, Next(p, s, CurMove(k)))
  {
    var s' := Next(p, s, CurMove(k));
    StoreUpper(p, s, k);
    OneStore(p, s, k);
    if p.m >= 2 && AllStored(p, s') {
      assert Stored(s'.cur[k]) == p.m;
    }
  }

  lemma ThreadBounded(p: Params, s: State, k: nat)
    requires Shape(p, s) && Fits(p) && Bounded(p, s) && Enabled(p, s, CurMove(k))
    ensures Bounded(p, Next(p, s, CurMove(k)))
  {
    if s.cur[k].pc.AtStore? {
      StoreBounded(p, s, k);
    } else {
      NoStore(p, s, k);
      var s' := Next(p, s, CurMove(k));
      assert forall j :: 0 <= j < |s.cur| ==> Stored(s.cur[j]) == Stored(s'.cur[j]);
      assert Upper(s') && Positive(s');
    }
  }

  lemma MainShape(p: Params, s: State)
    requires Shape(p, s) && Enabled(p, s, MainMove)
    ensures Shape(p, MainStep(p, s))
  {
  }

  lemma MainExclusive(p: Params, s: State)
    requires Shape(p, s) && Exclusive(p, s) && Enabled(p, s, MainMove)
    ensures Exclusive(p, MainStep(p, s))
  {
    var s' := MainStep(p, s);
    if Locks(p) && !LockFree(p, s.sh) {
      var j :| 0 <= j < |s.cur| && InCritical(s.cur[j]);
      assert !s.main.AtRound?;
      assert s'.cur[j] == s.cur[j];
    }
  }

  /** The main thread does not change the stores done, except to start a round. */
  lemma MainSum(p: Params, s: State)
    requires Enabled(p, s, MainMove)
    ensures Sum(MainStep(p, s).cur) == if MainStep(p, s).main == AtSpawn(0) then 0 else Sum(s.cur)
  {
    if s.main.AtSpawn? && s.main.i < p.n {
      var t := Thread(s.main.i, 0, LoopHead(p, 0));
      SumConcat(Stored, s.cur, [t]);
      assert SumOf(Stored, [t]) == Stored(t) == 0;
    }
  }

  lemma MainExact(p: Params, s: State)
    requires Shape(p, s) && Exact(p, s) && Enabled(p, s, MainMove)
    ensures Exact(p, MainStep(p, s))
  {
    MainSum(p, s);
  }

  lemma MainBounded(p: Params, s: State)
    requires Shape(p, s) && Bounded(p, s) && Enabled(p, s, MainMove)
    ensures Bounded(p, MainStep(p, s))
  {
    var s' := MainStep(p, s);
    MainSum(p, s);
    if s'.cur == s.cur {
      assert AllStored(p, s') ==> AllStored(p, s);
    }
  }

  lemma MainPrints(p: Params, s: State)
    requires Inv(p, s) && Enabled(p, s, MainMove)
    ensures forall v :: v in MainStep(p, s).printed && v !in s.printed ==> PrintedOk(p, v)
  {
    if s.main.AtWait? && s.main.i == p.n {
      SumAtMost(Stored, s.cur, p.m);
    }
  }

  lemma MainKeepsInv(p: Params, s: State)
    requires Inv(p, s) && Enabled(p, s, MainMove)
    ensures Inv(p, MainStep(p, s))
  {
    MainShape(p, s);
    MainExclusive(p, s);
    MainExact(p, s);
    if Fits(p) {
      MainBounded(p, s);
    }
    MainPrints(p, s);
  }

  lemma ThreadKeepsInv(p: Params, s: State, k: nat)
    requires Inv(p, s) && Enabled(p, s, CurMove(k))
    ensures Inv(p, Next(p, s, CurMove(k)))
  {
    ThreadShape(p, s, k);
    ThreadExclusive(p, s, k);
    ThreadExact(p, s, k);
    if Fits(p) {
      ThreadBounded(p, s, k);
    }
  }

  lemma PastKeepsInv(p: Params, s: State, k: nat)
    requires Inv(p, s) && Enabled(p, s, PastMove(k))
    ensures Inv(p, Next(p, s, PastMove(k)))
  {
    assert Signalled(s.past[k]);
  }

  lemma StepKeepsInv(p: Params, s: State, a: Move)
    requires Inv(p, s) && Enabled(p, s, a)
    ensures Inv(p, Next(p, s, a))
  {
    match a
    case MainMove => MainKeepsInv(p, s);
    case CurMove(k) => ThreadKeepsInv(p, s, k);
    case PastMove(k) => PastKeepsInv(p, s, k);
  }

  lemma {:induction false} RunKeepsInv(p: Params, s: State, run: seq<Move>)
    requires Inv(p, s) && CanRun(p, s, run)
    ensures Inv(p, Exec(p, s, run))
    decreases |run|
  {
    if run != [] {
      StepKeepsInv(p, s, run[0]);
      RunKeepsInv(p, Next(p, s, run[0]), run[1..]);
    }
  }

  lemma InitInv(p: Params)
    ensures Inv(p, Init(p))
  {
  }

  /** Any state any interleaving can reach. */
  ghost predicate Reached(p: Params, s: State) {
    exists run :: CanRun(p, Init(p), run) && s == Exec(p, Init(p), run)
  }

  lemma ReachedInv(p: Params, s: State)
    requires Reached(p, s)
    ensures Inv(p, s)
  {
    var run :| CanRun(p, Init(p), run) && s == Exec(p, Init(p), run);
    InitInv(p);
    RunKeepsInv(p, Init(p), run);
  }

  // --------------------------------------------------- safety over every run

  /** In both locked modes at most one thread is between lock and unlock. */
  lemma MutualExclusion(p: Params, s: State)
    requires Reached(p, s) && Locks(p)
    ensures var all := s.past + s.cur;
            forall j, k :: 0 <= j < k < |all| ==> !(InCritical(all[j]) && InCritical(all[k]))
  {
    ReachedInv(p, s);
    var all := s.past + s.cur;
    forall j, k | 0 <= j < k < |all|
      ensures !(InCritical(all[j]) && InCritical(all[k]))
    {
      if j < |s.past| {
        assert Signalled(s.past[j]);
      } else {
        assert all[j] == s.cur[j - |s.past|] && all[k] == s.cur[k - |s.past|];
      }
    }
  }

  /** In both locked modes, and with a single thread in any mode, every round prints the full count. */
  lemma LockedTotal(p: Params, s: State)
    requires Reached(p, s) && Serial(p)
    ensures forall j :: 0 <= j < |s.printed| ==> s.printed[j] == (p.n * p.m) % WORD
    ensures Fits(p) ==> forall j :: 0 <= j < |s.printed| ==> s.printed[j] == p.n * p.m
  {
    ReachedInv(p, s);
    if Fits(p) {
      assert (p.n * p.m) % WORD == p.n * p.m;
    }
  }

  /** In every mode, racy included, a round prints at least 2 and at most the full count. */
  lemma RacyBounds(p: Params, s: State)
    requires Reached(p, s) && Fits(p) && p.n >= 1 && p.m >= 2
    ensures forall j :: 0 <= j < |s.printed| ==> 2 <= s.printed[j] <= p.n * p.m
  {
    ReachedInv(p, s);
  }

  /**
  When the main thread is about to reset `result`, every completion count is zero,
  every thread ever started is past `complete`, and no move of any of them touches
  the counter, a lock or a completion again.
  */
  lemma RoundIsolation(p: Params, s: State)
    requires Reached(p, s) && s.main.AtRound?
    ensures s.sh.done == Zeros(p.n)
    ensures forall a :: Enabled(p, s, a) && a != MainMove ==> Next(p, s, a).sh == s.sh
  {
    ReachedInv(p, s);
  }

  /** A thread left over from an earlier round never touches shared state, at any time. */
  lemma StragglersAreHarmless(p: Params, s: State, k: nat)
    requires Reached(p, s) && Enabled(p, s, PastMove(k))
    ensures Next(p, s, PastMove(k)).sh == s.sh
  {
    ReachedInv(p, s);
  }

  // ------------------------------------------- termination, no deadlock

  predicate Final(s: State) {
    && s.main.Finished?
    && (forall k :: 0 <= k < |s.cur| ==> s.cur[k].pc.Exited?)
    && (forall k :: 0 <= k < |s.past| ==> s.past[k].pc.Exited?)
  }

  /** Some thread of this round can move unless all of them have exited. */
  lemma SomeThreadMoves(p: Params, s: State, k: nat)
    requires Shape(p, s) && Exclusive(p, s) && k < |s.cur| && !s.cur[k].pc.Exited?
    ensures exists a :: Enabled(p, s, a)
  {
    if Enabled(p, s, CurMove(k)) {
    } else {
      assert !LockFree(p, s.sh);
      assert Locks(p);
      var j :| 0 <= j < |s.cur| && InCritical(s.cur[j]);
      assert Enabled(p, s, CurMove(j));
    }
  }

  /** In all lock modes a state that is not final can take a step. */
  lemma DeadlockFreedom(p: Params, s: State)
    requires Inv(p, s) && !Final(s)
    ensures exists a :: Enabled(p, s, a)
  {
    if Enabled(p, s, MainMove) {
    } else if s.main.AtWait? {
      var k := s.main.i;
      assert s.sh.done[k] == DoneCount(s, k);
      SomeThreadMoves(p, s, k);
    } else if k :| 0 <= k < |s.cur| && !s.cur[k].pc.Exited? {
      SomeThreadMoves(p, s, k);
    } else {
      var k :| 0 <= k < |s.past| && !s.past[k].pc.Exited?;
      assert Enabled(p, s, PastMove(k));
    }
  }

  /** Steps a thread still has to take. */
  function Weight(p: Params, t: Thread): nat {
    var left := if t.i <= p.m then 4 * (p.m - t.i) else 0;
    match t.pc
    case AtLock => left + 2
    case AtLoad => left + 1
    case AtStore(_) => left
    case AtUnlock => if left == 0 then 0 else left - 1
    case AtComplete => 2
    case AtReturn => 1
    case Exited => 0
  }

  function Weights(p: Params): Thread -> nat {
    t => Weight(p, t)
  }

  function Minus(a: nat, b: nat): nat {
    if a >= b then a - b else 0
  }

  /** Steps of k threads and of starting them. */
  function SpawnSteps(p: Params, k: nat): nat {
    if k == 0 then 0 else SpawnSteps(p, k - 1) + 4 * p.m + 3
  }

  /** Steps of one whole round: the main thread's own, and every thread's. */
  function RoundSteps(p: Params): nat {
    SpawnSteps(p, p.n) + p.n + 3
  }

  function RoundsSteps(p: Params, r: nat): nat {
    if r == 0 then 0 else RoundsSteps(p, r - 1) + RoundSteps(p)
  }

  /** Steps the main thread and the threads it has yet to start will take. */
  function MainWeight(p: Params, s: State): nat {
    var later := RoundsSteps(p, Minus(p.rounds, |s.printed| + 1)) + 1;
    match s.main
    case AtRound => RoundsSteps(p, Minus(p.rounds, |s.printed|)) + 1
    case AtSpawn(i) => later + SpawnSteps(p, Minus(p.n, i)) + p.n + 2
    case AtWait(i) => later + Minus(p.n, i) + 1
    case Finished => 0
  }

  function Measure(p: Params, s: State): nat {
    MainWeight(p, s) + SumOf(Weights(p), s.cur) + SumOf(Weights(p), s.past)
  }

  lemma {:induction false} SpawnStepsIs(p: Params, k: nat)
    ensures SpawnSteps(p, k) == k * (4 * p.m + 3)
  {
    if k > 0 {
      SpawnStepsIs(p, k - 1);
      Peel(k, 4 * p.m + 3);
    }
  }

  lemma {:induction false} RoundsStepsIs(p: Params, r: nat)
    ensures RoundsSteps(p, r) == r * RoundSteps(p)
  {
    if r > 0 {
      RoundsStepsIs(p, r - 1);
      Peel(r, RoundSteps(p));
    }
  }

  lemma Peel(r: int, x: int)
    ensures r * x == (r - 1) * x + x
  {
  }

  lemma RoundMeasure(p: Params, s: State)
    requires MainOk(p, s) && s.main.AtRound?
    ensures Measure(p, MainStep(p, s)) + 1 == Measure(p, s)
  {
    SumConcat(Weights(p), s.past, s.cur);
  }

  lemma SpawnMeasure(p: Params, s: State)
    requires MainOk(p, s) && s.main.AtSpawn?
    ensures Measure(p, MainStep(p, s)) + 1 == Measure(p, s)
  {
    var i := s.main.i;
    if i < p.n {
      var t := MainStep(p, s).cur[i];
      SumConcat(Weights(p), s.cur, [t]);
      assert Weights(p)(t) == 4 * p.m + 2;
    }
  }

  lemma WaitMeasure(p: Params, s: State)
    requires MainOk(p, s) && s.main.AtWait? && Enabled(p, s, MainMove)
    ensures Measure(p, MainStep(p, s)) + 1 == Measure(p, s)
  {
  }

  lemma ThreadWeight(p: Params, sh: Shared, t: Thread)
    requires ThreadOk(p, t) && ThreadEnabled(p, sh, t)
    ensures Weight(p, ThreadStep(p, sh, t).1) == Weight(p, t) - 1
  {
  }

  lemma StragglerWeight(p: Params, sh: Shared, t: Thread)
    requires Signalled(t) && ThreadEnabled(p, sh, t)
    ensures Weight(p, ThreadStep(p, sh, t).1) == Weight(p, t) - 1
  {
  }

  /** Every step, in every lock mode, brings the end exactly one step nearer. */
  lemma StepMeasure(p: Params, s: State, a: Move)
    requires Shape(p, s) && Enabled(p, s, a)
    ensures Measure(p, Next(p, s, a)) + 1 == Measure(p, s)
  {
    match a
    case MainMove =>
      if s.main.AtRound? {
        RoundMeasure(p, s);
      } else if s.main.AtSpawn? {
        SpawnMeasure(p, s);
      } else {
        WaitMeasure(p, s);
      }
    case CurMove(k) =>
      ThreadWeight(p, s.sh, s.cur[k]);
      SumUpdate(Weights(p), s.cur, k, Next(p, s, a).cur[k]);
    case PastMove(k) =>
      StragglerWeight(p, s.sh, s.past[k]);
      SumUpdate(Weights(p), s.past, k, Next(p, s, a).past[k]);
  }

  lemma MainWeightAtEnd(p: Params, s: State)
    requires MainOk(p, s)
    ensures MainWeight(p, s) == 0 <==> s.main.Finished?
  {
  }

  lemma MeasureAtEnd(p: Params, s: State)
    requires Inv(p, s)
    ensures Measure(p, s) == 0 <==> Final(s)
  {
    var f := Weights(p);
    MainWeightAtEnd(p, s);
    SumZero(f, s.cur);
    SumZero(f, s.past);
    forall k | 0 <= k < |s.cur|
      ensures f(s.cur[k]) == 0 <==> s.cur[k].pc.Exited?
    {
      assert ThreadOk(p, s.cur[k]);
    }
  }

  /**
  Any run of the experiment ends, after a number of steps that depends on the
  constants alone and not on the schedule.
  */
  lemma {:induction false} RunLength(p: Params, s: State, run: seq<Move>)
    requires Inv(p, s) && CanRun(p, s, run)
    ensures Measure(p, s) == |run| + Measure(p, Exec(p, s, run))
    decreases |run|
  {
    if run != [] {
      StepMeasure(p, s, run[0]);
      StepKeepsInv(p, s, run[0]);
      RunLength(p, Next(p, s, run[0]), run[1..]);
    }
  }

  lemma EndsWithMeasure(p: Params, s: State, run: seq<Move>)
    requires Inv(p, s) && CanRun(p, s, run)
    ensures |run| <= Measure(p, s)
    ensures Final(Exec(p, s, run)) <==> |run| == Measure(p, s)
    ensures Final(Exec(p, s, run)) ==> |Exec(p, s, run).printed| == p.rounds
  {
    RunLength(p, s, run);
    RunKeepsInv(p, s, run);
    MeasureAtEnd(p, Exec(p, s, run));
  }

  /** Steps of the whole experiment. */
  function TotalSteps(p: Params): nat {
    p.rounds * RoundSteps(p) + 1
  }

  /** The steps of a round: 3 + n of the main thread's own, its n starts, and 4 * m + 2 of each thread. */
  lemma RoundStepsIs(p: Params)
    ensures RoundSteps(p) == 3 + 2 * p.n + p.n * (4 * p.m + 2)
  {
    SpawnStepsIs(p, p.n);
    assert p.n * (4 * p.m + 3) == p.n * (4 * p.m + 2) + p.n;
  }

  lemma InitMeasure(p: Params)
    ensures Measure(p, Init(p)) == TotalSteps(p)
  {
    RoundsStepsIs(p, p.rounds);
  }

  lemma WholeRunLength(p: Params, run: seq<Move>)
    requires CanRun(p, Init(p), run)
    ensures |run| <= TotalSteps(p)
    ensures Final(Exec(p, Init(p), run)) <==> |run| == TotalSteps(p)
    ensures Final(Exec(p, Init(p), run)) ==> |Exec(p, Init(p), run).printed| == p.rounds
  {
    InitInv(p);
    InitMeasure(p);
    EndsWithMeasure(p, Init(p), run);
  }

  /**
  The experiment run to its end by a scheduler that picks any enabled step: it
  never blocks, it ends, and it prints one value per round.
  */
  method RunExperiment(p: Params) returns (printed: seq<nat>)
    ensures |printed| == p.rounds
    ensures Locks(p) ==> forall j :: 0 <= j < p.rounds ==> printed[j] == (p.n * p.m) % WORD
    ensures Fits(p) ==> forall j :: 0 <= j < p.rounds ==> Least(p) <= printed[j] <= p.n * p.m
  {
    var s := Init(p);
    while !Final(s)
      invariant Inv(p, s)
      decreases Measure(p, s)
    {
      DeadlockFreedom(p, s);
      var a :| Enabled(p, s, a);
      StepKeepsInv(p, s, a);
      StepMeasure(p, s, a);
      s := Next(p, s, a);
    }
    printed := s.printed;
  }
}
