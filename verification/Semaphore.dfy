/** fio_sem.c: a semaphore built from a mutex and a condition variable, with threads that may
    barge in and wake up spuriously.  One step is what a thread does between two points where
    it may be descheduled; the mutex is explicit. */
module Semaphore {
  import opened Counting

  /** Outside: not in a call.  DownEnter, TryEnter, UpEnter: about to lock the mutex.  DownTest,
      TryTest, UpTest: holding it.  Asleep: in pthread_cond_wait.  Woken: signalled (or woken
      for no reason), about to lock the mutex again.  Retest: holding it after a wait.
      DownExit: decremented, about to unlock.  Other exits likewise. */
  datatype At =
    | Outside | DownEnter | DownTest | Asleep | Woken | Retest | TryEnter | TryTest | UpEnter | UpTest | Exit

  /** `own` says that the thread has taken the semaphore and not yet given it back. */
  datatype Thread = Thread(at: At, own: bool)

  datatype Sem = Sem(value: int, waiters: int, locked: bool, threads: seq<Thread>)

  datatype Action =
    | CallDown(t: nat)
    | CallTry(t: nat)
    | CallUp(t: nat)
    | Move(t: nat)
    | Signal(t: nat, woken: nat)
    | Spurious(t: nat)

  function Set(s: Sem, t: nat, at: At): Sem
    requires t < |s.threads|
  {
    s.(threads := s.threads[t := s.threads[t].(at := at)])
  }

  predicate HoldsMutex(at: At) {
    at == DownTest || at == Retest || at == TryTest || at == UpTest || at == Exit
  }

  predicate WantsMutex(at: At) {
    at == DownEnter || at == Woken || at == TryEnter || at == UpEnter
  }

  /** fio_sem_up must wake a thread: nobody could take the semaphore and some thread waits. */
  predicate MustWake(s: Sem) {
    s.value == 0 && s.waiters > 0
  }

  predicate Sleeping(s: Sem, t: nat) {
    t < |s.threads| && s.threads[t].at == Asleep
  }

  /** Move covers every step but the up that signals a sleeping thread. */
  predicate Enabled(s: Sem, a: Action) {
    match a
    case CallDown(t) => t < |s.threads| && s.threads[t].at == Outside
    case CallTry(t) => t < |s.threads| && s.threads[t].at == Outside
    case CallUp(t) => t < |s.threads| && s.threads[t].at == Outside
    case Spurious(t) => Sleeping(s, t)
    case Signal(t, u) => t < |s.threads| && s.threads[t].at == UpTest && MustWake(s) && Sleeping(s, u)
    case Move(t) =>
      && t < |s.threads| && s.threads[t].at != Outside && s.threads[t].at != Asleep
      && (WantsMutex(s.threads[t].at) ==> !s.locked)
      && (s.threads[t].at == UpTest && MustWake(s) ==> forall u :: 0 <= u < |s.threads| ==> !Sleeping(s, u))
  }

  /** A test that succeeds takes the semaphore. */
  function TakeIt(s: Sem, t: nat): Sem
    requires t < |s.threads|
  {
    s.(value := s.value - 1, threads := s.threads[t := Thread(Exit, true)])
  }

  function GiveBack(s: Sem, t: nat): Sem
    requires t < |s.threads|
  {
    s.(value := s.value + 1, threads := s.threads[t := Thread(Exit, false)])
  }

  function Step(s: Sem, a: Action): Sem
    requires Enabled(s, a)
  {
    match a
    case CallDown(t) => Set(s, t, DownEnter)
    case CallTry(t) => Set(s, t, TryEnter)
    case CallUp(t) => Set(s, t, UpEnter)
    case Spurious(t) => Set(s, t, Woken)
    case Signal(t, u) => Set(GiveBack(s, t), u, Woken)
    case Move(t) =>
      match s.threads[t].at
      case DownEnter => Set(s, t, DownTest).(locked := true)
      case TryEnter => Set(s, t, TryTest).(locked := true)
      case UpEnter => Set(s, t, UpTest).(locked := true)
      case Woken => Set(s, t, Retest).(locked := true)
      // waiters++ and pthread_cond_wait, which lets go of the mutex
      case DownTest =>
        if s.value == 0 then Set(s, t, Asleep).(waiters := s.waiters + 1, locked := false) else TakeIt(s, t)
      // waiters-- after the wait, then the loop test again
      case Retest =>
        if s.value == 0 then Set(s, t, Asleep).(locked := false) else TakeIt(s, t).(waiters := s.waiters - 1)
      case TryTest => if s.value == 0 then Set(s, t, Exit) else TakeIt(s, t)
      case UpTest => GiveBack(s, t)
      case Exit => Set(s, t, Outside).(locked := false)
      case Outside => s
      case Asleep => s
  }

  // ----- counting threads

  datatype Role = Mutex | Owner | Sleeper | Waker | Waiter

  predicate Plays(x: Thread, r: Role) {
    match r
    case Mutex => HoldsMutex(x.at)
    case Owner => x.own
    case Sleeper => x.at == Asleep
    case Waker => x.at == Woken || x.at == Retest
    case Waiter => x.at == Asleep || x.at == Woken || x.at == Retest
  }

  function Players(threads: seq<Thread>, r: Role): set<nat> {
    set t | t in Below(|threads|) && Plays(threads[t], r)
  }

  lemma PlayersAfter(threads: seq<Thread>, t: nat, x: Thread, r: Role)
    requires t < |threads|
    ensures |Players(threads[t := x], r)| == |Players(threads, r)| + B(Plays(x, r)) - B(Plays(threads[t], r))
  {
    OneMoreOrLess(Players(threads, r), Players(threads[t := x], r), t, Plays(threads[t], r), Plays(x, r));
  }

  // ----- what holds in every state

  /** For any use: the mutex excludes, and `waiters` counts the threads in the wait loop. */
  ghost predicate Basic(s: Sem) {
    && |Players(s.threads, Mutex)| == B(s.locked)
    && s.waiters == |Players(s.threads, Waiter)|
    && s.value >= 0
  }

  /** Owners and the value make one; only owners are on their way to give back. */
  ghost predicate Owned(s: Sem) {
    && s.value + |Players(s.threads, Owner)| == 1
    && (forall t :: 0 <= t < |s.threads| && (s.threads[t].at == UpEnter || s.threads[t].at == UpTest) ==>
      s.threads[t].own)
    && (forall t :: 0 <= t < |s.threads| && InDown(s.threads[t].at) ==> !s.threads[t].own)
  }

  predicate InDown(at: At) {
    at == DownEnter || at == DownTest || at == Asleep || at == Woken || at == Retest || at == TryEnter || at == TryTest
  }

  /** No lost wakeup: a thread sleeps beside a free semaphore only while another thread that
      has been woken is still on its way to the test. */
  ghost predicate NoLostWakeup(s: Sem) {
    s.value > 0 && |Players(s.threads, Sleeper)| > 0 ==> |Players(s.threads, Waker)| > 0
  }

  /** The step is an up that finds the semaphore already free. */
  predicate UpOnFree(s: Sem, a: Action)
    requires Enabled(s, a)
  {
    a.Move? && s.threads[a.t].at == UpTest && s.value > 0
  }

  /** The discipline of a lock: only an owner calls fio_sem_up, only others the other two. */
  predicate Disciplined(s: Sem, a: Action)
    requires Enabled(s, a)
  {
    match a
    case CallUp(t) => s.threads[t].own
    case CallDown(t) => !s.threads[t].own
    case CallTry(t) => !s.threads[t].own
    case _ => true
  }

  function Init(n: nat, value: nat): Sem {
    Sem(value, 0, false, seq(n, i => Thread(Outside, false)))
  }

  lemma InitInv(n: nat, value: nat)
    ensures Basic(Init(n, value)) && NoLostWakeup(Init(n, value)) && (value == 1 ==> Owned(Init(n, value)))
  {
    var s := Init(n, value);
    assert Players(s.threads, Mutex) == {} && Players(s.threads, Waiter) == {} && Players(s.threads, Sleeper) == {};
    assert Players(s.threads, Owner) == {};
  }

  lemma MutexHeld(s: Sem, t: nat)
    requires Basic(s) && t < |s.threads| && HoldsMutex(s.threads[t].at)
    ensures s.locked
  {
    assert t in Players(s.threads, Mutex);
  }

  predicate InWait(at: At) {
    at == Asleep || at == Woken || at == Retest
  }

  predicate OnTheWay(at: At) {
    at == Woken || at == Retest
  }

  /** One thread moves from `x` to `y`, and lock flag, waiter count and value change to match. */
  predicate Fits(s: Sem, s': Sem, x: Thread, y: Thread) {
    && B(s'.locked) == B(s.locked) + B(HoldsMutex(y.at)) - B(HoldsMutex(x.at))
    && s'.waiters == s.waiters + B(InWait(y.at)) - B(InWait(x.at))
    && s'.value >= 0
    && (s'.value > 0 ==> s.value > 0 && y.at != Asleep && (OnTheWay(x.at) ==> OnTheWay(y.at)))
  }

  lemma OneThread(s: Sem, s': Sem, t: nat, y: Thread)
    requires Basic(s) && t < |s.threads| && s'.threads == s.threads[t := y] && Fits(s, s', s.threads[t], y)
    ensures Basic(s') && (NoLostWakeup(s) ==> NoLostWakeup(s'))
  {
    PlayersAfter(s.threads, t, y, Mutex);
    PlayersAfter(s.threads, t, y, Waiter);
    PlayersAfter(s.threads, t, y, Sleeper);
    PlayersAfter(s.threads, t, y, Waker);
    assert y.at == Woken ==> t in Players(s'.threads, Waker);
  }

  /** An up that signals nobody leaves nobody asleep. */
  lemma NoSleeper(s: Sem, t: nat)
    requires Basic(s) && Enabled(s, Move(t)) && s.threads[t].at == UpTest && s.value == 0
    ensures |Players(s.threads, Sleeper)| == 0
  {
    if MustWake(s) {
      forall u | u in Below(|s.threads|)
        ensures !Plays(s.threads[u], Sleeper)
      {
        assert !Sleeping(s, u);
      }
      assert Players(s.threads, Sleeper) == {};
    } else {
      SubsetSize(Players(s.threads, Sleeper), Players(s.threads, Waiter));
    }
  }

  lemma GiveBackBasic(s: Sem, t: nat, s': Sem)
    requires Basic(s) && t < |s.threads| && s.threads[t].at == UpTest && s' == GiveBack(s, t)
    ensures Basic(s') && |Players(s'.threads, Sleeper)| == |Players(s.threads, Sleeper)|
  {
    PlayersAfter(s.threads, t, Thread(Exit, false), Mutex);
    PlayersAfter(s.threads, t, Thread(Exit, false), Waiter);
    PlayersAfter(s.threads, t, Thread(Exit, false), Sleeper);
  }

  /** Where a step of one thread that is not an up leads fits. */
  lemma MoveFits(s: Sem, t: nat, s': Sem)
    requires Enabled(s, Move(t)) && s' == Step(s, Move(t)) && s.threads[t].at != UpTest && 0 <= s.value <= 1
    requires HoldsMutex(s.threads[t].at) ==> s.locked
    ensures s'.threads == s.threads[t := s'.threads[t]] && Fits(s, s', s.threads[t], s'.threads[t])
  {
  }

  lemma WokenBasic(m: Sem, u: nat, s': Sem)
    requires Basic(m) && u < |m.threads| && m.threads[u].at == Asleep && s' == Set(m, u, Woken)
    ensures Basic(s') && NoLostWakeup(s')
  {
    var y := m.threads[u].(at := Woken);
    PlayersAfter(m.threads, u, y, Mutex);
    PlayersAfter(m.threads, u, y, Waiter);
    assert u in Players(s'.threads, Waker);
  }

  lemma SignalKeeps(s: Sem, t: nat, u: nat, s': Sem)
    requires Basic(s) && Enabled(s, Signal(t, u)) && s' == Step(s, Signal(t, u))
    ensures Basic(s') && s'.value == 1 && NoLostWakeup(s')
  {
    GiveBackBasic(s, t, GiveBack(s, t));
    WokenBasic(GiveBack(s, t), u, s');
  }

  lemma MoveKeeps(s: Sem, t: nat, s': Sem)
    requires Basic(s) && s.value <= 1 && NoLostWakeup(s) && Enabled(s, Move(t)) && s' == Step(s, Move(t))
    requires s.threads[t].at != UpTest
    ensures Basic(s') && s'.value <= 1 && NoLostWakeup(s')
  {
    if HoldsMutex(s.threads[t].at) { MutexHeld(s, t); }
    MoveFits(s, t, s');
    OneThread(s, s', t, s'.threads[t]);
  }

  lemma UpKeeps(s: Sem, t: nat, s': Sem)
    requires Basic(s) && Enabled(s, Move(t)) && s.threads[t].at == UpTest && s.value == 0
    requires s' == GiveBack(s, t)
    ensures Basic(s') && s'.value <= 1 && NoLostWakeup(s')
  {
    NoSleeper(s, t);
    GiveBackBasic(s, t, s');
  }

  /** Starting a call, or waking up for no reason. */
  lemma CallKeeps(s: Sem, t: nat, at: At, s': Sem)
    requires Basic(s) && s.value <= 1 && NoLostWakeup(s) && t < |s.threads| && s' == Set(s, t, at)
    requires if s.threads[t].at == Asleep then at == Woken
             else s.threads[t].at == Outside && WantsMutex(at) && at != Woken
    ensures Basic(s') && s'.value <= 1 && NoLostWakeup(s')
  {
    OneThread(s, s', t, s'.threads[t]);
  }

  /** Any step but an up on a free semaphore keeps the wakeup property. */
  lemma StepKeeps(s: Sem, a: Action, s': Sem)
    requires Basic(s) && s.value <= 1 && NoLostWakeup(s) && Enabled(s, a) && s' == Step(s, a) && !UpOnFree(s, a)
    ensures Basic(s') && s'.value <= 1 && NoLostWakeup(s')
  {
    match a
    case Signal(t, u) => SignalKeeps(s, t, u, s');
    case Move(t) =>
      if s.threads[t].at == UpTest {
        UpKeeps(s, t, s');
      } else {
        MoveKeeps(s, t, s');
      }
    case _ => CallKeeps(s, a.t, s'.threads[a.t].at, s');
  }

  /** The owner bookkeeping fits when one thread moves from `x` to `y`. */
  predicate OwnFits(s: Sem, s': Sem, x: Thread, y: Thread) {
    && s'.value + B(y.own) == s.value + B(x.own)
    && (y.at == UpEnter || y.at == UpTest ==> y.own) && (InDown(y.at) ==> !y.own)
  }

  lemma OneOwner(s: Sem, s': Sem, t: nat, y: Thread)
    requires Owned(s) && t < |s.threads| && s'.threads == s.threads[t := y] && OwnFits(s, s', s.threads[t], y)
    ensures Owned(s')
  {
    PlayersAfter(s.threads, t, y, Owner);
  }

  lemma MoveOwnFits(s: Sem, t: nat, s': Sem)
    requires Enabled(s, Move(t)) && s' == Step(s, Move(t))
    requires s.threads[t].at == UpEnter || s.threads[t].at == UpTest ==> s.threads[t].own
    requires InDown(s.threads[t].at) ==> !s.threads[t].own
    ensures s'.threads == s.threads[t := s'.threads[t]] && OwnFits(s, s', s.threads[t], s'.threads[t])
  {
  }

  /** Used as a lock, the semaphore is never given back while free, and stays owned by at most
      one thread. */
  lemma DisciplineKeeps(s: Sem, a: Action, s': Sem)
    requires Owned(s) && s.value >= 0 && Enabled(s, a) && Disciplined(s, a) && s' == Step(s, a)
    ensures Owned(s') && !UpOnFree(s, a)
  {
    match a
    case Signal(t, u) =>
      var m := GiveBack(s, t);
      OneOwner(s, m, t, m.threads[t]);
      OneOwner(m, s', u, s'.threads[u]);
    case Move(t) =>
      assert s.threads[t].at == UpTest ==> t in Players(s.threads, Owner);
      MoveOwnFits(s, t, s');
      OneOwner(s, s', t, s'.threads[t]);
    case _ => OneOwner(s, s', a.t, s'.threads[a.t]);
  }

  // ----- every run

  ghost predicate IsRun(n: nat, value: nat, acts: seq<Action>, trace: seq<Sem>) {
    && |trace| == |acts| + 1 && trace[0] == Init(n, value)
    && forall i :: 0 <= i < |acts| ==> Enabled(trace[i], acts[i]) && trace[i + 1] == Step(trace[i], acts[i])
  }

  /** No wakeup is lost in any interleaving in which no up finds the semaphore free, for a
      semaphore created locked or unlocked. */
  lemma {:induction false} NoWakeupLost(n: nat, value: nat, acts: seq<Action>, trace: seq<Sem>, k: nat)
    requires IsRun(n, value, acts, trace) && value <= 1 && k < |trace|
    requires forall i :: 0 <= i < k ==> Enabled(trace[i], acts[i]) && !UpOnFree(trace[i], acts[i])
    ensures Basic(trace[k]) && trace[k].value <= 1 && NoLostWakeup(trace[k])
  {
    if k == 0 {
      InitInv(n, value);
    } else {
      NoWakeupLost(n, value, acts, trace, k - 1);
      StepKeeps(trace[k - 1], acts[k - 1], trace[k]);
    }
  }

  /** Used as a lock, in any interleaving with barging and spurious wakeups: at most one thread
      owns the semaphore, and no wakeup is lost. */
  lemma {:induction false} LockRun(n: nat, acts: seq<Action>, trace: seq<Sem>, k: nat)
    requires IsRun(n, 1, acts, trace) && k < |trace|
    requires forall i :: 0 <= i < |acts| ==> Enabled(trace[i], acts[i]) && Disciplined(trace[i], acts[i])
    ensures Basic(trace[k]) && Owned(trace[k]) && trace[k].value <= 1 && NoLostWakeup(trace[k])
  {
    if k == 0 {
      InitInv(n, 1);
    } else {
      LockRun(n, acts, trace, k - 1);
      DisciplineKeeps(trace[k - 1], acts[k - 1], trace[k]);
      StepKeeps(trace[k - 1], acts[k - 1], trace[k]);
    }
  }

  /** Hence a free semaphore never leaves all its waiters stuck: some thread that waits, or
      holds the mutex, can move. */
  lemma WaiterServed(s: Sem)
    requires Basic(s) && NoLostWakeup(s) && s.value > 0 && |Players(s.threads, Sleeper)| > 0
    ensures exists t: nat :: Enabled(s, Move(t)) && (Plays(s.threads[t], Waker) || Plays(s.threads[t], Mutex))
  {
    if s.locked {
      assert |Players(s.threads, Mutex)| > 0;
      var t :| t in Players(s.threads, Mutex);
      assert Enabled(s, Move(t));
    } else {
      assert |Players(s.threads, Waker)| > 0;
      var t :| t in Players(s.threads, Waker);
      assert Enabled(s, Move(t));
    }
  }

  // ----- counting use

  lemma Extend(n: nat, value: nat, acts: seq<Action>, trace: seq<Sem>, a: Action, s': Sem)
    returns (acts': seq<Action>, trace': seq<Sem>)
    requires IsRun(n, value, acts, trace) && Enabled(trace[|acts|], a)
    requires var r := Step(trace[|acts|], a);
      r.value == s'.value && r.waiters == s'.waiters && r.locked == s'.locked && r.threads == s'.threads
    ensures acts' == acts + [a] && trace' == trace + [s'] && IsRun(n, value, acts', trace')
  {
    acts', trace' := acts + [a], trace + [s'];
  }

  function Three(value: int, waiters: int, locked: bool, a: At, b: At, c: At): Sem {
    Sem(value, waiters, locked, [Thread(a, false), Thread(b, false), Thread(c, false)])
  }

  /** Two threads go to sleep on a locked semaphore. */
  lemma TwoSleep() returns (acts: seq<Action>, trace: seq<Sem>)
    ensures IsRun(3, 0, acts, trace) && trace[|acts|] == Three(0, 2, false, Asleep, Asleep, Outside)
  {
    acts, trace := [], [Three(0, 0, false, Outside, Outside, Outside)];
    assert trace[0].threads == Init(3, 0).threads;
    acts, trace := Extend(3, 0, acts, trace, CallDown(0), Three(0, 0, false, DownEnter, Outside, Outside));
    acts, trace := Extend(3, 0, acts, trace, Move(0), Three(0, 0, true, DownTest, Outside, Outside));
    acts, trace := Extend(3, 0, acts, trace, Move(0), Three(0, 1, false, Asleep, Outside, Outside));
    acts, trace := Extend(3, 0, acts, trace, CallDown(1), Three(0, 1, false, Asleep, DownEnter, Outside));
    acts, trace := Extend(3, 0, acts, trace, Move(1), Three(0, 1, true, Asleep, DownTest, Outside));
    acts, trace := Extend(3, 0, acts, trace, Move(1), Three(0, 2, false, Asleep, Asleep, Outside));
  }

  /** A third thread gives back and wakes the first. */
  lemma OneUp() returns (acts: seq<Action>, trace: seq<Sem>)
    ensures IsRun(3, 0, acts, trace) && trace[|acts|] == Three(1, 2, true, Woken, Asleep, Exit)
  {
    acts, trace := TwoSleep();
    acts, trace := Extend(3, 0, acts, trace, CallUp(2), Three(0, 2, false, Asleep, Asleep, UpEnter));
    acts, trace := Extend(3, 0, acts, trace, Move(2), Three(0, 2, true, Asleep, Asleep, UpTest));
    acts, trace := Extend(3, 0, acts, trace, Signal(2, 0), Three(1, 2, true, Woken, Asleep, Exit));
  }

  lemma SecondUpStarts() returns (acts: seq<Action>, trace: seq<Sem>)
    ensures IsRun(3, 0, acts, trace) && trace[|acts|] == Three(1, 2, false, Woken, Asleep, UpEnter)
  {
    acts, trace := OneUp();
    acts, trace := Extend(3, 0, acts, trace, Move(2), Three(1, 2, false, Woken, Asleep, Outside));
    acts, trace := Extend(3, 0, acts, trace, CallUp(2), Three(1, 2, false, Woken, Asleep, UpEnter));
  }

  /** Giving back again finds the semaphore free and signals nobody. */
  lemma SecondUp() returns (acts: seq<Action>, trace: seq<Sem>)
    ensures IsRun(3, 0, acts, trace) && trace[|acts|] == Three(2, 2, true, Woken, Asleep, Exit)
  {
    acts, trace := SecondUpStarts();
    acts, trace := Extend(3, 0, acts, trace, Move(2), Three(1, 2, true, Woken, Asleep, UpTest));
    acts, trace := Extend(3, 0, acts, trace, Move(2), Three(2, 2, true, Woken, Asleep, Exit));
  }

  const LOST := Sem(1, 1, true, [Thread(Exit, true), Thread(Asleep, false), Thread(Outside, false)])

  lemma LostWakeup()
    ensures !NoLostWakeup(LOST)
  {
    assert 1 in Players(LOST.threads, Sleeper);
    assert Players(LOST.threads, Waker) == {};
  }

  /** With a count above one wakeups are lost: one thread sleeps on beside a free semaphore. */
  lemma CountingLosesWakeup() returns (acts: seq<Action>, trace: seq<Sem>)
    ensures IsRun(3, 0, acts, trace) && !NoLostWakeup(trace[|acts|])
  {
    acts, trace := SecondUp();
    acts, trace := Extend(3, 0, acts, trace, Move(2), Three(2, 2, false, Woken, Asleep, Outside));
    acts, trace := Extend(3, 0, acts, trace, Move(0), Three(2, 2, true, Retest, Asleep, Outside));
    acts, trace := Extend(3, 0, acts, trace, Move(0), LOST);
    LostWakeup();
  }
}
