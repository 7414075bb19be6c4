/** What fio_lock_file and fio_trylock_file do for the caller that asked, from the call to the
    return, whatever the other threads do in between. */
module FileLockCalls {
  import opened Counting
  import opened Options
  import opened FileLock

  /** The last call of thread `t` before state `k` that asks for a file is `acts[i]`. */
  ghost predicate LastLock(acts: seq<Action>, i: nat, k: nat, t: nat) {
    && i < k <= |acts| && acts[i].Lock? && acts[i].t == t
    && forall j :: i < j < k ==> !(acts[j].Lock? && acts[j].t == t)
  }

  /** What the calling thread can come across.  NoEntry: no active entry has the hash, and the pool
      is empty.  Taken: somebody is past the down of the hash's entry.  Shared, Sole: the thread
      references the hash's entry, with others or alone.  Locked: it has the lock. */
  datatype Sight = NoEntry | Taken | Shared | Sole | Locked

  ghost predicate Seen(s: State, t: nat, h: nat, w: Sight) {
    && t < |s.pc|
    && match w
       case NoEntry => s.free == [] && NoHash(s.list, s.entries, h)
       case Taken => exists e: EntryId :: Active(s.list, s.entries, h, e) && s.entries[e].val == 0
       case Shared => References(s, t, h) && SharesEntry(s, t)
       case Sole => References(s, t, h) && !SharesEntry(s, t)
       case Locked => s.pc[t].at == Holding
  }

  ghost predicate References(s: State, t: nat, h: nat) {
    t < |s.pc| && Uses(s.pc[t].at) && Active(s.list, s.entries, h, s.pc[t].ff)
  }

  ghost predicate Ever(trace: seq<State>, i: nat, k: nat, t: nat, h: nat, w: Sight)
    requires k <= |trace|
  {
    exists m :: i < m < k && Seen(trace[m], t, h, w)
  }

  // ----- what a step is to one thread

  predicate TryOnly(at: At) {
    at == Fail || at == TryDown || at == Recheck || at == Check || at == LeaveToGrab || at == LeaveFailed
  }

  predicate Unlocking(at: At) {
    at == UnlockStart || at == UnlockFind || at == UnlockUp || at == Recycle || at == UnlockLeave
  }

  /** Where a thread's own step can lead, and what it has seen then. */
  ghost predicate Leads(s: State, t: nat, y: Pc)
    requires t < |s.pc|
  {
    var x := s.pc[t];
    && y.h == x.h && y.trylock == x.trylock
    && match x.at
       case Start => y.at == Find
       case Find => y.at == AddRef || (y.at == Pop && !y.retry)
       case Pop =>
         if y.at == Fail then x.trylock && (x.retry || Seen(s, t, x.h, NoEntry))
         else if y.at == Nap then !x.trylock && s.free == []
         else if x.retry then y.at == Refind else y.at == Insert
       case Nap => y.at == Pop
       case Refind => y.at == AddRef || y.at == Insert
       case Insert => y.at == AddRef
       case AddRef => y.at == Leave
       case Leave => y.at == if x.trylock then TryDown else Down
       case Down => y.at == Holding
       case TryDown => y.at == Holding || (y.at == Recheck && Seen(s, t, x.h, Taken))
       case Recheck => y.at == Check
       case Check => if y.at == LeaveFailed then Seen(s, t, x.h, Shared)
                     else y.at == LeaveToGrab && Seen(s, t, x.h, Sole)
       case LeaveToGrab => y.at == Down
       case Holding => y.at == UnlockStart
       case UnlockLeave => y.at == Idle
       case Fail => y.at == Idle
       case LeaveFailed => y.at == Idle
       case _ => Unlocking(x.at) && Unlocking(y.at)
  }

  ghost predicate Turn(s: State, a: Action, s': State, t: nat) {
    && t < |s.pc| == |s'.pc|
    && if a.t == t then Leads(s, t, s'.pc[t]) else s'.pc[t] == s.pc[t]
  }

  lemma OnlyRunnerMoves(s: State, t: nat, s': State)
    requires CanRun(s, t) && s' == Run(s, t)
    ensures |s'.pc| == |s.pc| && s'.pc == s.pc[t := s'.pc[t]]
  {
  }

  lemma OnlyActorMoves(s: State, a: Action, s': State)
    requires Enabled(s, a) && s' == Step(s, a)
    ensures |s'.pc| == |s.pc| && a.t < |s.pc| && s'.pc == s.pc[a.t := s'.pc[a.t]]
  {
    if a.Move? { OnlyRunnerMoves(s, a.t, s'); }
  }

  /** The steps that look at the table before they decide. */
  lemma PopLeads(s: State, t: nat)
    requires Inv(s) && CanRun(s, t) && s.pc[t].at == Pop
    ensures |Run(s, t).pc| == |s.pc| && Leads(s, t, Run(s, t).pc[t])
  {
    assert PcOk(s.list, s.entries, s.pc[t]);
    LookupNone(s.list, s.entries, s.pc[t].h);
  }

  lemma TryDownLeads(s: State, t: nat)
    requires Inv(s) && CanRun(s, t) && s.pc[t].at == TryDown
    ensures |Run(s, t).pc| == |s.pc| && Leads(s, t, Run(s, t).pc[t])
  {
    assert PcOk(s.list, s.entries, s.pc[t]);
    if s.entries[s.pc[t].ff].val == 0 {
      assert Seen(s, t, s.pc[t].h, Taken);
    }
  }

  lemma CheckLeads(s: State, t: nat)
    requires Inv(s) && CanRun(s, t) && s.pc[t].at == Check
    ensures |Run(s, t).pc| == |s.pc| && Leads(s, t, Run(s, t).pc[t])
  {
    assert PcOk(s.list, s.entries, s.pc[t]);
    TrylockGivesUp(s, t, Run(s, t));
  }

  lemma RunLeads(s: State, t: nat)
    requires Inv(s) && CanRun(s, t)
    ensures |Run(s, t).pc| == |s.pc| && Leads(s, t, Run(s, t).pc[t])
  {
    match s.pc[t].at
    case Pop => PopLeads(s, t);
    case TryDown => TryDownLeads(s, t);
    case Check => CheckLeads(s, t);
    case _ =>
  }

  lemma StepTurn(s: State, a: Action, s': State, t: nat)
    requires Inv(s) && Enabled(s, a) && s' == Step(s, a) && t < |s.pc| && !(a.Lock? && a.t == t)
    ensures Turn(s, a, s', t)
  {
    OnlyActorMoves(s, a, s');
    if a == Move(t) { RunLeads(s, t); }
  }

  // ----- from the call on

  ghost predicate InCall(acts: seq<Action>, trace: seq<State>, i: nat, k: nat, t: nat) {
    && i < k <= |acts| < |trace| && acts[i].Lock?
    && t < |trace[i + 1].pc|
    && trace[i + 1].pc[t].at == Start && trace[i + 1].pc[t].h == acts[i].h
    && trace[i + 1].pc[t].trylock == acts[i].trylock
    && forall m :: i < m < k ==> Turn(trace[m], acts[m], trace[m + 1], t)
  }

  lemma LockStarts(s: State, a: Action, s': State)
    requires Enabled(s, a) && a.Lock? && s' == Step(s, a)
    ensures a.t < |s'.pc| && s'.pc[a.t].at == Start && s'.pc[a.t].h == a.h && s'.pc[a.t].trylock == a.trylock
  {
  }

  lemma {:induction false} RunLength(pool: nat, threads: nat, acts: seq<Action>, trace: seq<State>, k: nat)
    requires IsRun(pool, threads, acts, trace) && k < |trace|
    ensures |trace[k].pc| == threads
  {
    if k > 0 {
      RunLength(pool, threads, acts, trace, k - 1);
      OnlyActorMoves(trace[k - 1], acts[k - 1], trace[k]);
    }
  }

  lemma RunTurn(pool: nat, threads: nat, acts: seq<Action>, trace: seq<State>, k: nat, t: nat)
    requires IsRun(pool, threads, acts, trace) && k < |acts| && t < threads && !(acts[k].Lock? && acts[k].t == t)
    ensures Turn(trace[k], acts[k], trace[k + 1], t)
  {
    RunLength(pool, threads, acts, trace, k);
    RunInv(pool, threads, acts, trace, k);
    StepTurn(trace[k], acts[k], trace[k + 1], t);
  }

  lemma RunInCall(pool: nat, threads: nat, acts: seq<Action>, trace: seq<State>, i: nat, k: nat, t: nat)
    requires IsRun(pool, threads, acts, trace) && LastLock(acts, i, k, t)
    ensures InCall(acts, trace, i, k, t)
  {
    LockStarts(trace[i], acts[i], trace[i + 1]);
    RunLength(pool, threads, acts, trace, i + 1);
    forall m | i < m < k
      ensures Turn(trace[m], acts[m], trace[m + 1], t)
    {
      RunTurn(pool, threads, acts, trace, m, t);
    }
  }

  /** A call that asked to wait never gives up, and is back only after it has had the lock. */
  ghost predicate Waits(trace: seq<State>, i: nat, k: nat, t: nat, x: Pc)
    requires k < |trace|
  {
    && !x.trylock && !TryOnly(x.at)
    && (Unlocking(x.at) || x.at == Idle ==> Ever(trace, i, k, t, x.h, Locked))
  }

  /** A call that asked not to wait for an entry does not; it waits for the lock only after it was
      alone with the entry, and it is back without having had the lock only for one of two
      reasons. */
  ghost predicate Tries(trace: seq<State>, i: nat, k: nat, t: nat, x: Pc)
    requires k < |trace|
  {
    && x.trylock && x.at != Nap && x.at != Refind && (x.at == Pop ==> !x.retry)
    && TriesSaw(trace, i, k, t, x)
  }

  ghost predicate TriesSaw(trace: seq<State>, i: nat, k: nat, t: nat, x: Pc)
    requires k < |trace|
  {
    && (x.at == Fail ==> Ever(trace, i, k, t, x.h, NoEntry))
    && (x.at == Recheck || x.at == Check || x.at == LeaveToGrab || x.at == LeaveFailed || x.at == Down ==>
          Ever(trace, i, k, t, x.h, Taken))
    && (x.at == LeaveFailed ==> Ever(trace, i, k, t, x.h, Shared))
    && (x.at == LeaveToGrab || x.at == Down ==> Ever(trace, i, k, t, x.h, Sole))
    && (Unlocking(x.at) ==> Ever(trace, i, k, t, x.h, Locked))
    && (x.at == Idle ==> Ever(trace, i, k, t, x.h, Locked) || GaveUp(trace, i, k, t, x.h))
  }

  ghost predicate GaveUp(trace: seq<State>, i: nat, k: nat, t: nat, h: nat)
    requires k <= |trace|
  {
    Ever(trace, i, k, t, h, NoEntry) || (Ever(trace, i, k, t, h, Taken) && Ever(trace, i, k, t, h, Shared))
  }

  ghost predicate Phase(acts: seq<Action>, trace: seq<State>, i: nat, k: nat, t: nat) {
    && i < k <= |acts| < |trace| && acts[i].Lock? && t < |trace[k].pc|
    && var x := trace[k].pc[t];
    x.h == acts[i].h && if acts[i].trylock then Tries(trace, i, k, t, x) else Waits(trace, i, k, t, x)
  }

  lemma EverMore(trace: seq<State>, i: nat, k: nat, t: nat, h: nat)
    requires i < k < |trace|
    ensures forall w :: Seen(trace[k], t, h, w) ==> Ever(trace, i, k + 1, t, h, w)
    ensures forall w :: Ever(trace, i, k, t, h, w) ==> Ever(trace, i, k + 1, t, h, w)
  {
  }

  lemma WaitsStep(s: State, trace: seq<State>, i: nat, k: nat, t: nat, y: Pc)
    requires i < k < |trace| - 1 && s == trace[k] && t < |s.pc| && Leads(s, t, y)
    requires Waits(trace, i, k, t, s.pc[t])
    ensures Waits(trace, i, k + 1, t, y)
  {
    EverMore(trace, i, k, t, y.h);
    assert s.pc[t].at == Holding ==> Seen(s, t, y.h, Locked);
  }

  lemma TriesStep(s: State, trace: seq<State>, i: nat, k: nat, t: nat, y: Pc)
    requires i < k < |trace| - 1 && s == trace[k] && t < |s.pc| && Leads(s, t, y)
    requires Tries(trace, i, k, t, s.pc[t])
    ensures Tries(trace, i, k + 1, t, y)
  {
    EverMore(trace, i, k, t, y.h);
    TriesMore(trace, i, k, t, y, s.pc[t], s);
  }

  /** What the thread sees in the state it leaves is added to what it has seen. */
  lemma TriesMore(trace: seq<State>, i: nat, k: nat, t: nat, y: Pc, x: Pc, s: State)
    requires i < k < |trace| - 1 && s == trace[k] && t < |s.pc| && x == s.pc[t] && Leads(s, t, y)
    requires TriesSaw(trace, i, k, t, x) && x.trylock && x.at != Refind && (x.at == Pop ==> !x.retry)
    requires forall w :: Seen(s, t, y.h, w) ==> Ever(trace, i, k + 1, t, y.h, w)
    requires forall w :: Ever(trace, i, k, t, y.h, w) ==> Ever(trace, i, k + 1, t, y.h, w)
    ensures TriesSaw(trace, i, k + 1, t, y)
  {
    assert x.at == Holding ==> Seen(s, t, y.h, Locked);
  }

  lemma PhaseStep(acts: seq<Action>, trace: seq<State>, i: nat, k: nat, t: nat)
    requires Phase(acts, trace, i, k, t) && k < |acts| && Turn(trace[k], acts[k], trace[k + 1], t)
    ensures Phase(acts, trace, i, k + 1, t)
  {
    var y := trace[k + 1].pc[t];
    if acts[k].t != t {
      EverMore(trace, i, k, t, acts[i].h);
    } else if acts[i].trylock {
      TriesStep(trace[k], trace, i, k, t, y);
    } else {
      WaitsStep(trace[k], trace, i, k, t, y);
    }
  }

  lemma {:induction false} Phases(acts: seq<Action>, trace: seq<State>, i: nat, k: nat, t: nat)
    requires InCall(acts, trace, i, k, t)
    ensures Phase(acts, trace, i, k, t)
  {
    if k > i + 1 {
      Phases(acts, trace, i, k - 1, t);
      assert Turn(trace[k - 1], acts[k - 1], trace[k - 1 + 1], t);
      PhaseStep(acts, trace, i, k - 1, t);
    }
  }

  // ----- what the caller gets

  /** In every run a call of fio_lock_file works on the hash it asked for, never takes a way that
      gives up, and is back only after it has had the lock. */
  lemma LockAnswers(pool: nat, threads: nat, acts: seq<Action>, trace: seq<State>, i: nat, k: nat, t: nat, h: nat)
    requires IsRun(pool, threads, acts, trace) && LastLock(acts, i, k, t) && acts[i] == Lock(t, h, false)
    ensures t < |trace[k].pc| && trace[k].pc[t].h == h && !TryOnly(trace[k].pc[t].at)
    ensures trace[k].pc[t].at == Idle ==> Ever(trace, i, k, t, h, Locked)
  {
    RunInCall(pool, threads, acts, trace, i, k, t);
    Phases(acts, trace, i, k, t);
  }

  /** In every run a call of fio_trylock_file works on the hash it asked for and never waits for a
      free entry.  It waits for the entry's semaphore only after it found itself the only thread
      that references the entry.  It is back without having had the lock only if no entry had the
      hash while the pool was empty, or if it met the lock taken and then another thread that
      references the entry. */
  lemma TrylockAnswers(pool: nat, threads: nat, acts: seq<Action>, trace: seq<State>, i: nat, k: nat, t: nat, h: nat)
    requires IsRun(pool, threads, acts, trace) && LastLock(acts, i, k, t) && acts[i] == Lock(t, h, true)
    ensures t < |trace[k].pc| && trace[k].pc[t].h == h && trace[k].pc[t].at != Nap
    ensures trace[k].pc[t].at == Down ==> Ever(trace, i, k, t, h, Taken) && Ever(trace, i, k, t, h, Sole)
    ensures trace[k].pc[t].at == Idle ==> Ever(trace, i, k, t, h, Locked) || GaveUp(trace, i, k, t, h)
  {
    RunInCall(pool, threads, acts, trace, i, k, t);
    Phases(acts, trace, i, k, t);
  }

  /** The step of `t`, if any, that put it to wait for a free entry found the pool empty. */
  ghost predicate NapsOnEmptyPool(s: State, a: Action, s': State, t: nat) {
    a.t == t && t < |s.pc| && t < |s'.pc| && s'.pc[t].at == Nap ==> s.free == [] && !s.pc[t].trylock
  }

  lemma TurnNaps(s: State, a: Action, s': State, t: nat)
    requires Turn(s, a, s', t)
    ensures NapsOnEmptyPool(s, a, s', t)
  {
  }

  /** In every run a thread waits for a free entry only when the pool is empty. */
  lemma NapsOnlyOnEmptyPool(pool: nat, threads: nat, acts: seq<Action>, trace: seq<State>, k: nat, t: nat)
    requires IsRun(pool, threads, acts, trace) && k < |acts| && t < threads && !(acts[k].Lock? && acts[k].t == t)
    ensures NapsOnEmptyPool(trace[k], acts[k], trace[k + 1], t)
  {
    RunTurn(pool, threads, acts, trace, k, t);
    TurnNaps(trace[k], acts[k], trace[k + 1], t);
  }

  /** So of any number of threads whose last call asked for one hash, at most one is between having
      the lock and giving it back. */
  lemma AskedExclusion(pool: nat, threads: nat, acts: seq<Action>, trace: seq<State>,
                       i: nat, j: nat, k: nat, t: nat, u: nat)
    requires IsRun(pool, threads, acts, trace) && LastLock(acts, i, k, t) && LastLock(acts, j, k, u)
    requires acts[i].h == acts[j].h && t < |trace[k].pc| && u < |trace[k].pc|
    requires Holds(trace[k].pc[t].at) && Holds(trace[k].pc[u].at)
    ensures t == u
  {
    RunInCall(pool, threads, acts, trace, i, k, t);
    Phases(acts, trace, i, k, t);
    RunInCall(pool, threads, acts, trace, j, k, u);
    Phases(acts, trace, j, k, u);
    MutualExclusion(pool, threads, acts, trace, k, t, u);
  }
}
