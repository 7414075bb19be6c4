/** What a call of fio_sem.c does for its caller, from the call to the return, whatever the other
    threads do in between and whether or not they follow the discipline of a lock. */
module SemaphoreCalls {
  import opened Counting
  import opened Semaphore

  predicate Calls(a: Action, t: nat) {
    (a.CallDown? || a.CallTry? || a.CallUp?) && a.t == t
  }

  /** The last call of thread `t` before state `k` is `acts[i]`. */
  ghost predicate LastCall(acts: seq<Action>, i: nat, k: nat, t: nat) {
    i < k <= |acts| && Calls(acts[i], t) && forall j :: i < j < k ==> !Calls(acts[j], t)
  }

  // ----- the mutex excludes in every run

  /** One thread moves from `x` to `y`, and lock flag and waiter count change to match. */
  predicate Matches(s: Sem, s': Sem, x: Thread, y: Thread) {
    && B(s'.locked) == B(s.locked) + B(HoldsMutex(y.at)) - B(HoldsMutex(x.at))
    && s'.waiters == s.waiters + B(InWait(y.at)) - B(InWait(x.at))
    && s'.value >= 0
  }

  lemma OneMoves(s: Sem, s': Sem, t: nat, y: Thread)
    requires Basic(s) && t < |s.threads| && s'.threads == s.threads[t := y] && Matches(s, s', s.threads[t], y)
    ensures Basic(s')
  {
    PlayersAfter(s.threads, t, y, Mutex);
    PlayersAfter(s.threads, t, y, Waiter);
  }

  lemma MoveMatches(s: Sem, t: nat, s': Sem)
    requires Enabled(s, Move(t)) && s' == Step(s, Move(t)) && s.value >= 0
    requires HoldsMutex(s.threads[t].at) ==> s.locked
    ensures s'.threads == s.threads[t := s'.threads[t]] && Matches(s, s', s.threads[t], s'.threads[t])
  {
  }

  lemma MoveBasic(s: Sem, t: nat, s': Sem)
    requires Basic(s) && Enabled(s, Move(t)) && s' == Step(s, Move(t))
    ensures Basic(s')
  {
    if HoldsMutex(s.threads[t].at) { MutexHeld(s, t); }
    MoveMatches(s, t, s');
    OneMoves(s, s', t, s'.threads[t]);
  }

  lemma CallBasic(s: Sem, t: nat, at: At, s': Sem)
    requires Basic(s) && t < |s.threads| && s' == Set(s, t, at) && HoldsMutex(at) == HoldsMutex(s.threads[t].at)
    requires InWait(at) == InWait(s.threads[t].at)
    ensures Basic(s')
  {
    OneMoves(s, s', t, s'.threads[t]);
  }

  lemma StepBasic(s: Sem, a: Action, s': Sem)
    requires Basic(s) && Enabled(s, a) && s' == Step(s, a)
    ensures Basic(s')
  {
    match a
    case Signal(t, u) => SignalKeeps(s, t, u, s');
    case Move(t) => MoveBasic(s, t, s');
    case CallDown(t) => CallBasic(s, t, DownEnter, s');
    case CallTry(t) => CallBasic(s, t, TryEnter, s');
    case CallUp(t) => CallBasic(s, t, UpEnter, s');
    case Spurious(t) => CallBasic(s, t, Woken, s');
  }

  lemma StepLength(s: Sem, a: Action, s': Sem)
    requires Enabled(s, a) && s' == Step(s, a)
    ensures |s'.threads| == |s.threads|
  {
  }

  lemma {:induction false} RunBasic(n: nat, value: nat, acts: seq<Action>, trace: seq<Sem>, k: nat)
    requires IsRun(n, value, acts, trace) && k < |trace|
    ensures Basic(trace[k]) && |trace[k].threads| == n
  {
    if k == 0 {
      InitInv(n, value);
    } else {
      RunBasic(n, value, acts, trace, k - 1);
      StepBasic(trace[k - 1], acts[k - 1], trace[k]);
      StepLength(trace[k - 1], acts[k - 1], trace[k]);
    }
  }

  /** Step `a` is thread `t` moving on by itself. */
  predicate Moves(a: Action, t: nat) {
    (a.Move? || a.Signal?) && a.t == t
  }

  /** While a thread holds the mutex nobody else touches the value. */
  lemma OthersWait(s: Sem, a: Action, t: nat)
    requires Basic(s) && Enabled(s, a) && t < |s.threads| && HoldsMutex(s.threads[t].at) && !Moves(a, t)
    ensures Step(s, a).value == s.value && Step(s, a).threads[t] == s.threads[t]
  {
    MutexHeld(s, t);
    if a.Move? || a.Signal? {
      if HoldsMutex(s.threads[a.t].at) { AtMostOne(Players(s.threads, Mutex), t, a.t); }
    }
  }

  /** A thread that is not in a call, or waits for the mutex, is moved by nobody else either. */
  lemma OthersPass(s: Sem, a: Action, t: nat)
    requires Enabled(s, a) && t < |s.threads| && s.threads[t].at != Asleep && !Moves(a, t) && !Calls(a, t)
    ensures Step(s, a).threads[t] == s.threads[t]
  {
  }

  // ----- what a step is to one thread

  predicate InMutex(s: Sem, t: nat) {
    t < |s.threads| && HoldsMutex(s.threads[t].at)
  }

  /** Holding the mutex, thread `t` finds the semaphore free and takes it, or finds it taken and
      leaves it alone. */
  predicate Decides(s: Sem, a: Action, s': Sem, t: nat, taken: bool) {
    && Moves(a, t) && t < |s.threads| == |s'.threads|
    && HoldsMutex(s.threads[t].at) && !s.threads[t].own && s'.threads[t].own == taken
    && s.value >= 0 && (taken <==> s.value > 0) && s'.value == (if taken then s.value - 1 else s.value)
  }

  /** Some thread sleeps in `s` and has been woken in `s'`. */
  ghost predicate WakesOne(s: Sem, s': Sem) {
    exists u: nat :: Sleeping(s, u) && u < |s'.threads| && s'.threads[u].at == Woken
  }

  ghost predicate AnySleeps(s: Sem) {
    exists u: nat :: Sleeping(s, u)
  }

  /** Holding the mutex, thread `t` gives the semaphore back, and when it was taken and threads
      sleep, one of them is woken. */
  ghost predicate Gives(s: Sem, a: Action, s': Sem, t: nat) {
    && Moves(a, t) && InMutex(s, t) && s'.value == s.value + 1
    && (s.value == 0 && AnySleeps(s) ==> WakesOne(s, s'))
  }

  /** The step of another thread wakes this one at most, and leaves the value alone while this one
      holds the mutex; its own step goes on with its call. */
  ghost predicate Turn(s: Sem, a: Action, s': Sem, t: nat) {
    && t < |s.threads| == |s'.threads|
    && var x, y := s.threads[t], s'.threads[t];
    if !Moves(a, t) then
      && (y == x || (x.at == Asleep && y == Thread(Woken, x.own)))
      && (InMutex(s, t) ==> s'.value == s.value)
    else
      match x.at
      case DownEnter => y == Thread(DownTest, x.own)
      case DownTest => !x.own ==> if y.own then y.at == Exit && Decides(s, a, s', t, true) else y.at == Asleep
      case Woken => y == Thread(Retest, x.own)
      case Retest => !x.own ==> if y.own then y.at == Exit && Decides(s, a, s', t, true) else y.at == Asleep
      case TryEnter => y == Thread(TryTest, x.own)
      case TryTest => !x.own ==> y.at == Exit && Decides(s, a, s', t, y.own)
      case UpEnter => y == Thread(UpTest, x.own)
      case UpTest => y == Thread(Exit, false) && Gives(s, a, s', t)
      case Exit => y == Thread(Outside, x.own)
      case _ => false
  }

  lemma GivesNow(s: Sem, a: Action, s': Sem, t: nat)
    requires Basic(s) && Enabled(s, a) && s' == Step(s, a) && Moves(a, t) && s.threads[t].at == UpTest
    ensures Gives(s, a, s', t) && s'.threads[t] == Thread(Exit, false)
  {
    if a.Signal? {
      assert Sleeping(s, a.woken) && s'.threads[a.woken].at == Woken;
    } else if AnySleeps(s) {
      var u: nat :| Sleeping(s, u);
      assert u in Players(s.threads, Waiter);
    }
  }

  lemma OthersTurn(s: Sem, a: Action, s': Sem, t: nat)
    requires Basic(s) && Enabled(s, a) && s' == Step(s, a) && t < |s.threads| && !Calls(a, t) && !Moves(a, t)
    ensures Turn(s, a, s', t)
  {
    StepLength(s, a, s');
    if InMutex(s, t) {
      OthersWait(s, a, t);
    } else if s.threads[t].at != Asleep {
      OthersPass(s, a, t);
    }
  }

  lemma StepTurn(s: Sem, a: Action, s': Sem, t: nat)
    requires Basic(s) && Enabled(s, a) && s' == Step(s, a) && t < |s.threads| && !Calls(a, t)
    ensures Turn(s, a, s', t)
  {
    if !Moves(a, t) {
      OthersTurn(s, a, s', t);
    } else if s.threads[t].at == UpTest {
      GivesNow(s, a, s', t);
      StepLength(s, a, s');
    }
  }

  /** From the call at `i` to state `k` thread `t` starts no other. */
  ghost predicate InCall(acts: seq<Action>, trace: seq<Sem>, i: nat, k: nat, t: nat) {
    && i < k <= |acts| < |trace|
    && Called(trace[i], acts[i], trace[i + 1], t)
    && forall m :: i < m < k ==> Turn(trace[m], acts[m], trace[m + 1], t)
  }

  ghost predicate Called(s: Sem, a: Action, s': Sem, t: nat) {
    && t < |s.threads| && t < |s'.threads|
    && s'.threads[t] ==
         Thread(if a.CallTry? then TryEnter else if a.CallDown? then DownEnter else UpEnter, s.threads[t].own)
  }

  lemma CallStep(s: Sem, a: Action, s': Sem, t: nat)
    requires Enabled(s, a) && s' == Step(s, a) && Calls(a, t)
    ensures Called(s, a, s', t)
  {
  }

  lemma RunInCall(n: nat, value: nat, acts: seq<Action>, trace: seq<Sem>, i: nat, k: nat, t: nat)
    requires IsRun(n, value, acts, trace) && LastCall(acts, i, k, t)
    ensures InCall(acts, trace, i, k, t)
  {
    assert Called(trace[i], acts[i], trace[i + 1], t) by { CallStep(trace[i], acts[i], trace[i + 1], t); }
    assert t < n by { RunBasic(n, value, acts, trace, i); }
    forall m | i < m < k
      ensures Turn(trace[m], acts[m], trace[m + 1], t)
    {
      RunBasic(n, value, acts, trace, m);
      StepTurn(trace[m], acts[m], trace[m + 1], t);
    }
  }

  // ----- fio_sem_down_trylock

  ghost predicate Decided(acts: seq<Action>, trace: seq<Sem>, i: nat, k: nat, t: nat, taken: bool)
    requires k <= |acts| < |trace|
  {
    exists m :: i < m < k && Decides(trace[m], acts[m], trace[m + 1], t, taken)
  }

  /** Whenever thread `t` held the mutex since the call the value was `v`. */
  ghost predicate Saw(trace: seq<Sem>, i: nat, k: nat, t: nat, v: int)
    requires k < |trace|
  {
    forall j :: i < j <= k && InMutex(trace[j], t) ==> trace[j].value == v
  }

  ghost predicate NoMutexYet(trace: seq<Sem>, i: nat, k: nat, t: nat)
    requires k < |trace|
  {
    forall j :: i < j <= k ==> !InMutex(trace[j], t)
  }

  ghost predicate TryPhase(acts: seq<Action>, trace: seq<Sem>, i: nat, k: nat, t: nat)
    requires k <= |acts| < |trace|
  {
    && t < |trace[k].threads|
    && var x := trace[k].threads[t];
    && (x.at == TryEnter ==> !x.own && NoMutexYet(trace, i, k, t))
    && (x.at == TryTest ==> !x.own && Saw(trace, i, k, t, trace[k].value))
    && (x.at == Exit ==> Decided(acts, trace, i, k, t, x.own) && (!x.own ==> trace[k].value == 0))
    && (x.at == Exit || x.at == Outside ==>
          Decided(acts, trace, i, k, t, x.own) && (!x.own ==> Saw(trace, i, k, t, 0)))
    && (x.at == TryEnter || x.at == TryTest || x.at == Exit || x.at == Outside)
  }

  lemma TryPhaseStep(acts: seq<Action>, trace: seq<Sem>, i: nat, k: nat, t: nat)
    requires i < k < |acts| < |trace| && TryPhase(acts, trace, i, k, t)
    requires Turn(trace[k], acts[k], trace[k + 1], t)
    ensures TryPhase(acts, trace, i, k + 1, t)
  {
    var x, y := trace[k].threads[t], trace[k + 1].threads[t];
    if x.at == TryTest && Moves(acts[k], t) {
      assert Decided(acts, trace, i, k + 1, t, y.own);
    }
    if x.at == Exit || x.at == Outside {
      assert Decided(acts, trace, i, k + 1, t, y.own);
    }
  }

  lemma {:induction false} TryPhases(acts: seq<Action>, trace: seq<Sem>, i: nat, k: nat, t: nat)
    requires InCall(acts, trace, i, k, t) && acts[i] == CallTry(t) && !trace[i].threads[t].own
    ensures TryPhase(acts, trace, i, k, t)
  {
    if k > i + 1 {
      TryPhases(acts, trace, i, k - 1, t);
      assert Turn(trace[k - 1], acts[k - 1], trace[k - 1 + 1], t);
      TryPhaseStep(acts, trace, i, k - 1, t);
    }
  }

  /** In every run a trylock comes back in one of two ways: it owns the semaphore, having found it
      free while it held the mutex and lowered the value by one; or it does not, and the value was
      zero at every moment at which it held the mutex. */
  lemma TrylockAnswers(n: nat, value: nat, acts: seq<Action>, trace: seq<Sem>, i: nat, k: nat, t: nat)
    requires IsRun(n, value, acts, trace) && LastCall(acts, i, k, t) && acts[i] == CallTry(t)
    requires t < |trace[i].threads| && !trace[i].threads[t].own
    requires t < |trace[k].threads| && trace[k].threads[t].at == Outside
    ensures Decided(acts, trace, i, k, t, trace[k].threads[t].own)
    ensures !trace[k].threads[t].own ==> Saw(trace, i, k, t, 0)
  {
    RunInCall(n, value, acts, trace, i, k, t);
    TryPhases(acts, trace, i, k, t);
  }

  // ----- fio_sem_down

  predicate BeforeTaking(at: At) {
    at == DownEnter || at == DownTest || InWait(at)
  }

  ghost predicate DownPhase(acts: seq<Action>, trace: seq<Sem>, i: nat, k: nat, t: nat)
    requires k <= |acts| < |trace|
  {
    && t < |trace[k].threads|
    && var x := trace[k].threads[t];
    if x.own then Decided(acts, trace, i, k, t, true) && (x.at == Exit || x.at == Outside)
    else BeforeTaking(x.at)
  }

  lemma DownPhaseStep(acts: seq<Action>, trace: seq<Sem>, i: nat, k: nat, t: nat)
    requires i < k < |acts| < |trace| && DownPhase(acts, trace, i, k, t)
    requires Turn(trace[k], acts[k], trace[k + 1], t)
    ensures DownPhase(acts, trace, i, k + 1, t)
  {
    if trace[k + 1].threads[t].own {
      assert Decided(acts, trace, i, k + 1, t, true);
    }
  }

  lemma {:induction false} DownPhases(acts: seq<Action>, trace: seq<Sem>, i: nat, k: nat, t: nat)
    requires InCall(acts, trace, i, k, t) && acts[i] == CallDown(t) && !trace[i].threads[t].own
    ensures DownPhase(acts, trace, i, k, t)
  {
    if k > i + 1 {
      DownPhases(acts, trace, i, k - 1, t);
      assert Turn(trace[k - 1], acts[k - 1], trace[k - 1 + 1], t);
      DownPhaseStep(acts, trace, i, k - 1, t);
    }
  }

  /** In every run a down comes back only with the semaphore, which it found free while it held the
      mutex. */
  lemma DownAnswers(n: nat, value: nat, acts: seq<Action>, trace: seq<Sem>, i: nat, k: nat, t: nat)
    requires IsRun(n, value, acts, trace) && LastCall(acts, i, k, t) && acts[i] == CallDown(t)
    requires t < |trace[i].threads| && !trace[i].threads[t].own
    requires t < |trace[k].threads| && trace[k].threads[t].at == Outside
    ensures trace[k].threads[t].own && Decided(acts, trace, i, k, t, true)
  {
    RunInCall(n, value, acts, trace, i, k, t);
    DownPhases(acts, trace, i, k, t);
  }

  // ----- fio_sem_up

  ghost predicate Given(acts: seq<Action>, trace: seq<Sem>, i: nat, k: nat, t: nat)
    requires k <= |acts| < |trace|
  {
    exists m :: i < m < k && Gives(trace[m], acts[m], trace[m + 1], t)
  }

  ghost predicate UpPhase(acts: seq<Action>, trace: seq<Sem>, i: nat, k: nat, t: nat)
    requires k <= |acts| < |trace|
  {
    && t < |trace[k].threads|
    && var x := trace[k].threads[t];
    if x.at == Exit || x.at == Outside then !x.own && Given(acts, trace, i, k, t)
    else x.at == UpEnter || x.at == UpTest
  }

  lemma UpPhaseStep(acts: seq<Action>, trace: seq<Sem>, i: nat, k: nat, t: nat)
    requires i < k < |acts| < |trace| && UpPhase(acts, trace, i, k, t)
    requires Turn(trace[k], acts[k], trace[k + 1], t)
    ensures UpPhase(acts, trace, i, k + 1, t)
  {
    if trace[k + 1].threads[t].at == Exit || trace[k + 1].threads[t].at == Outside {
      assert Given(acts, trace, i, k + 1, t);
    }
  }

  lemma {:induction false} UpPhases(acts: seq<Action>, trace: seq<Sem>, i: nat, k: nat, t: nat)
    requires InCall(acts, trace, i, k, t) && acts[i] == CallUp(t)
    ensures UpPhase(acts, trace, i, k, t)
  {
    if k > i + 1 {
      UpPhases(acts, trace, i, k - 1, t);
      assert Turn(trace[k - 1], acts[k - 1], trace[k - 1 + 1], t);
      UpPhaseStep(acts, trace, i, k - 1, t);
    }
  }

  /** In every run an up comes back without the semaphore, having raised the value by one while it
      held the mutex, and having woken a sleeper if the semaphore was taken and there was one. */
  lemma UpAnswers(n: nat, value: nat, acts: seq<Action>, trace: seq<Sem>, i: nat, k: nat, t: nat)
    requires IsRun(n, value, acts, trace) && LastCall(acts, i, k, t) && acts[i] == CallUp(t)
    requires t < |trace[i].threads| && t < |trace[k].threads| && trace[k].threads[t].at == Outside
    ensures !trace[k].threads[t].own && Given(acts, trace, i, k, t)
  {
    RunInCall(n, value, acts, trace, i, k, t);
    UpPhases(acts, trace, i, k, t);
  }
}
