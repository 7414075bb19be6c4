/** The exclusive file locks of filelock.c, over the semaphores of fio_sem.c: any number of
    threads, one atomic step at a time, each step being one access to the shared table, one
    operation on the master lock, or one on the semaphore of an entry.  Entries and threads
    are named by their index; a file is named by the hash of its name. */
module FileLock {
  import opened Counting
  import opened Options

  type EntryId = nat

  /** struct fio_filelock; `val` is the value of its semaphore. */
  datatype Entry = Entry(hash: nat, refs: int, val: int)

  /** The program points of __fio_lock_file, fio_hash_get, get_filelock and fio_unlock_file. */
  datatype At =
    | Idle | Start | Find | Pop | Nap | Refind | Insert | AddRef | Fail | Leave
    | Down | TryDown | Recheck | Check | LeaveToGrab | LeaveFailed
    | Holding | UnlockStart | UnlockFind | UnlockUp | Recycle | UnlockLeave

  /** A thread: where it is, and the locals of its call.  `last` says that an unlock saw the
      reference count reach zero. */
  datatype Pc = Pc(at: At, h: nat, trylock: bool, retry: bool, ff: EntryId, last: bool)

  /** struct filelock_data, the value of its master lock, and the threads. */
  datatype State = State(list: seq<EntryId>, free: seq<EntryId>, entries: seq<Entry>, master: int, pc: seq<Pc>)

  // ----- operations on the table

  /** fio_hash_find. */
  function Lookup(list: seq<EntryId>, entries: seq<Entry>, h: nat): (r: Option<EntryId>)
    ensures r.Some? ==> Active(list, entries, h, r.value)
  {
    if list == [] then None
    else if list[0] < |entries| && entries[list[0]].hash == h then Some(list[0])
    else Lookup(list[1..], entries, h)
  }

  predicate Active(list: seq<EntryId>, entries: seq<Entry>, h: nat, e: EntryId) {
    e in list && e < |entries| && entries[e].hash == h
  }

  predicate NoHash(list: seq<EntryId>, entries: seq<Entry>, h: nat) {
    forall e :: e in list && e < |entries| ==> entries[e].hash != h
  }

  /** The lookup fails exactly when no active entry has the hash. */
  lemma {:induction false} LookupNone(list: seq<EntryId>, entries: seq<Entry>, h: nat)
    ensures Lookup(list, entries, h).None? <==> NoHash(list, entries, h)
  {
    if list != [] {
      LookupNone(list[1..], entries, h);
      assert list == [list[0]] + list[1..];
    }
  }

  function Goto(s: State, t: nat, p: Pc): State
    requires t < |s.pc|
  {
    s.(pc := s.pc[t := p])
  }

  // ----- the steps

  predicate TakesMaster(at: At) {
    at == Start || at == Nap || at == Recheck || at == UnlockStart
  }

  /** The thread works with an entry of the pool. */
  predicate HasEntry(at: At) {
    at == Refind || at == Insert || at == AddRef || at == Leave || at == Down || at == TryDown || at == Recheck
    || at == Check || at == LeaveToGrab || at == Holding || at == UnlockStart || at == UnlockFind || at == UnlockUp
    || at == Recycle
  }

  /** A thread can move: it is inside a call, and not blocked on a semaphore at zero. */
  predicate CanRun(s: State, t: nat) {
    && t < |s.pc|
    && (HasEntry(s.pc[t].at) ==> s.pc[t].ff < |s.entries|)
    && s.pc[t].at != Idle && s.pc[t].at != Holding
    && (TakesMaster(s.pc[t].at) ==> s.master > 0)
    && (s.pc[t].at == Down ==> s.entries[s.pc[t].ff].val > 0)
  }

  function TakeMaster(s: State, t: nat, p: Pc): State
    requires t < |s.pc|
  {
    Goto(s, t, p).(master := s.master - 1)
  }

  function DropMaster(s: State, t: nat, p: Pc): State
    requires t < |s.pc|
  {
    Goto(s, t, p).(master := s.master + 1)
  }

  /** Add to the reference count, or to the semaphore, of the entry at hand. */
  function AddRefs(s: State, t: nat, p: Pc, n: int): State
    requires t < |s.pc| && p.ff < |s.entries|
  {
    Goto(s, t, p).(entries := s.entries[p.ff := s.entries[p.ff].(refs := s.entries[p.ff].refs + n)])
  }

  function AddVal(s: State, t: nat, p: Pc, n: int): State
    requires t < |s.pc| && p.ff < |s.entries|
  {
    Goto(s, t, p).(entries := s.entries[p.ff := s.entries[p.ff].(val := s.entries[p.ff].val + n)])
  }

  /** __get_filelock on a free list that is not empty. */
  function PopFree(s: State, t: nat, p: Pc): State
    requires t < |s.pc| && s.free != []
  {
    Goto(s, t, p).(free := s.free[1..])
  }

  /** put_filelock of `e`. */
  function PutFree(s: State, t: nat, p: Pc, e: EntryId): State
    requires t < |s.pc|
  {
    Goto(s, t, p).(free := [e] + s.free)
  }

  /** A popped entry joins the active list under hash `p.h`. */
  function Activate(s: State, t: nat, p: Pc): State
    requires t < |s.pc| && p.ff < |s.entries|
  {
    Goto(s, t, p).(entries := s.entries[p.ff := s.entries[p.ff].(hash := p.h, refs := 0)], list := [p.ff] + s.list)
  }

  /** An active entry goes back to the free list. */
  function Retire(s: State, t: nat, p: Pc): State
    requires t < |s.pc|
  {
    Goto(s, t, p).(list := Without(s.list, p.ff), free := [p.ff] + s.free)
  }

  /** The next step of thread `t` inside fio_lock_file, fio_trylock_file or fio_unlock_file. */
  function Run(s: State, t: nat): State
    requires CanRun(s, t)
  {
    var p := s.pc[t];
    match p.at
    case Start => TakeMaster(s, t, p.(at := Find))
    case Find =>
      (match Lookup(s.list, s.entries, p.h)
       case Some(e) => Goto(s, t, p.(at := AddRef, ff := e))
       case None => Goto(s, t, p.(at := Pop, retry := false)))
    case Pop =>
      if s.free != [] then PopFree(s, t, p.(at := if p.retry then Refind else Insert, ff := s.free[0]))
      else if p.trylock then Goto(s, t, p.(at := Fail))
      else DropMaster(s, t, p.(at := Nap))
    case Nap => TakeMaster(s, t, p.(at := Pop, retry := true))
    case Refind =>
      (match Lookup(s.list, s.entries, p.h)
       case Some(e) => PutFree(s, t, p.(at := AddRef, ff := e), p.ff)
       case None => Goto(s, t, p.(at := Insert)))
    case Insert => Activate(s, t, p.(at := AddRef))
    case AddRef => AddRefs(s, t, p.(at := Leave), 1)
    case Fail => DropMaster(s, t, p.(at := Idle))
    case Leave => DropMaster(s, t, p.(at := if p.trylock then TryDown else Down))
    case Down => AddVal(s, t, p.(at := Holding), -1)
    case TryDown =>
      if s.entries[p.ff].val != 0 then AddVal(s, t, p.(at := Holding), -1) else Goto(s, t, p.(at := Recheck))
    case Recheck => TakeMaster(s, t, p.(at := Check))
    case Check =>
      if s.entries[p.ff].refs != 1 then AddRefs(s, t, p.(at := LeaveFailed), -1)
      else Goto(s, t, p.(at := LeaveToGrab))
    case LeaveToGrab => DropMaster(s, t, p.(at := Down))
    case LeaveFailed => DropMaster(s, t, p.(at := Idle))
    case UnlockStart => TakeMaster(s, t, p.(at := UnlockFind))
    case UnlockFind =>
      (match Lookup(s.list, s.entries, p.h)
       case Some(e) => AddRefs(s, t, p.(at := UnlockUp, ff := e, last := s.entries[e].refs == 1), -1)
       case None => Goto(s, t, p.(at := UnlockLeave)))
    case UnlockUp => AddVal(s, t, p.(at := if p.last then Recycle else UnlockLeave), 1)
    case Recycle => Retire(s, t, p.(at := UnlockLeave))
    case UnlockLeave => DropMaster(s, t, p.(at := Idle))
    case Idle => s
    case Holding => s
  }

  /** A thread enters fio_lock_file or fio_trylock_file, a holder enters fio_unlock_file, or a
      thread inside a call moves. */
  datatype Action = Lock(t: nat, h: nat, trylock: bool) | Unlock(t: nat) | Move(t: nat)

  predicate Enabled(s: State, a: Action) {
    match a
    case Lock(t, _, _) => t < |s.pc| && s.pc[t].at == Idle
    case Unlock(t) => t < |s.pc| && s.pc[t].at == Holding
    case Move(t) => CanRun(s, t)
  }

  function Step(s: State, a: Action): State
    requires Enabled(s, a)
  {
    match a
    case Lock(t, h, trylock) => Goto(s, t, Pc(Start, h, trylock, false, 0, false))
    case Unlock(t) => Goto(s, t, s.pc[t].(at := UnlockStart))
    case Move(t) => Run(s, t)
  }

  /** fio_filelock_init. */
  function Init(pool: nat, threads: nat): State {
    State([], seq(pool, i => i), seq(pool, i => Entry(0, 0, 1)), 1,
          seq(threads, i => Pc(Idle, 0, false, false, 0, false)))
  }

  // ----- the roles of a thread

  /** Between down and up of the master lock. */
  predicate InMaster(at: At) {
    at == Find || at == Pop || at == Refind || at == Insert || at == AddRef || at == Fail || at == Leave
    || at == Check || at == LeaveToGrab || at == LeaveFailed || at == UnlockFind || at == UnlockUp || at == Recycle
    || at == UnlockLeave
  }

  /** Counted in `references` of the entry. */
  predicate Uses(at: At) {
    at == Leave || at == Down || at == TryDown || at == Recheck || at == Check || at == LeaveToGrab
    || at == Holding || at == UnlockStart || at == UnlockFind
  }

  /** Past the down of the entry's semaphore and before its up. */
  predicate Holds(at: At) {
    at == Holding || at == UnlockStart || at == UnlockFind || at == UnlockUp
  }

  /** Has the entry off both lists. */
  predicate HasPopped(at: At) {
    at == Refind || at == Insert
  }

  /** About to take the first reference, or to recycle after the last. */
  predicate Revives(p: Pc) {
    p.at == AddRef || (p.at == UnlockUp && p.last) || p.at == Recycle
  }

  datatype Role = Master | User(e: EntryId) | Holder(e: EntryId) | Popper(e: EntryId) | Reviver(e: EntryId)

  predicate Plays(p: Pc, r: Role) {
    match r
    case Master => InMaster(p.at)
    case User(e) => Uses(p.at) && p.ff == e
    case Holder(e) => Holds(p.at) && p.ff == e
    case Popper(e) => HasPopped(p.at) && p.ff == e
    case Reviver(e) => Revives(p) && p.ff == e
  }

  function Players(pc: seq<Pc>, r: Role): set<nat> {
    set t | t in Below(|pc|) && Plays(pc[t], r)
  }

  lemma PlayersAfter(pc: seq<Pc>, t: nat, p: Pc, r: Role)
    requires t < |pc|
    ensures |Players(pc[t := p], r)| == |Players(pc, r)| + B(Plays(p, r)) - B(Plays(pc[t], r))
  {
    OneMoreOrLess(Players(pc, r), Players(pc[t := p], r), t, Plays(pc[t], r), Plays(p, r));
  }

  // ----- the invariant

  /** What a thread may rely on where it stands. */
  predicate PcOk(list: seq<EntryId>, entries: seq<Entry>, p: Pc) {
    && (HasEntry(p.at) ==> p.ff < |entries|)
    && (Uses(p.at) || Revives(p) || p.at == UnlockUp ==> Active(list, entries, p.h, p.ff))
    && (p.at == Insert || (p.at == Pop && !p.retry) ==> Lookup(list, entries, p.h).None?)
    && (p.at == UnlockUp && p.last ==> entries[p.ff].refs == 0)
    && (p.at == UnlockUp && !p.last ==> entries[p.ff].refs != 0)
    && (p.at == Recycle ==> entries[p.ff].refs == 0)
  }

  /** The entry is on exactly one of the two lists or popped by one thread; its semaphore
      value and its holders make one; if active, `references` counts its users, and it does
      not sit at zero unless a thread is about to change that. */
  ghost predicate EntryOk(s: State, e: EntryId)
    requires e < |s.entries|
  {
    && s.entries[e].val >= 0 && s.entries[e].val + |Players(s.pc, Holder(e))| == 1
    && B(e in s.list) + B(e in s.free) + |Players(s.pc, Popper(e))| == 1
    && (e in s.list ==> s.entries[e].refs == |Players(s.pc, User(e))|)
    && (e in s.list && s.entries[e].refs == 0 ==> |Players(s.pc, Reviver(e))| > 0)
  }

  ghost predicate DistinctHashes(list: seq<EntryId>, entries: seq<Entry>) {
    forall i, j :: 0 <= i < j < |list| && list[i] < |entries| && list[j] < |entries| ==>
      entries[list[i]].hash != entries[list[j]].hash
  }

  ghost predicate Lists(s: State) {
    && NoDup(s.list) && NoDup(s.free) && DistinctHashes(s.list, s.entries)
    && (forall e :: e in s.list || e in s.free ==> e < |s.entries|)
  }

  ghost predicate AllEntriesOk(s: State) {
    forall e :: 0 <= e < |s.entries| ==> EntryOk(s, e)
  }

  ghost predicate AllPcsOk(s: State) {
    forall t :: 0 <= t < |s.pc| ==> PcOk(s.list, s.entries, s.pc[t])
  }

  ghost predicate OneInMaster(s: State) {
    s.master >= 0 && s.master + |Players(s.pc, Master)| == 1
  }

  ghost predicate Inv(s: State) {
    Lists(s) && OneInMaster(s) && AllEntriesOk(s) && AllPcsOk(s)
  }

  // ----- one step

  /** Entry `e` is as before, and the moving thread keeps its roles at it. */
  ghost predicate Same(s: State, s': State, p: Pc, p': Pc, e: EntryId)
    requires e < |s.entries| == |s'.entries|
  {
    && s'.entries[e] == s.entries[e] && (e in s'.list <==> e in s.list) && (e in s'.free <==> e in s.free)
    && (Plays(p, User(e)) <==> Plays(p', User(e))) && (Plays(p, Holder(e)) <==> Plays(p', Holder(e)))
    && (Plays(p, Popper(e)) <==> Plays(p', Popper(e))) && (Plays(p, Reviver(e)) ==> Plays(p', Reviver(e)))
  }

  /** The changes to entry `e` match the change of the moving thread's roles at it. */
  ghost predicate Balanced(s: State, s': State, p: Pc, p': Pc, e: EntryId)
    requires e < |s.entries| == |s'.entries|
  {
    var a, b := s.entries[e], s'.entries[e];
    && b.val >= 0 && b.val + B(Plays(p', Holder(e))) == a.val + B(Plays(p, Holder(e)))
    && B(e in s'.list) + B(e in s'.free) + B(Plays(p', Popper(e)))
      == B(e in s.list) + B(e in s.free) + B(Plays(p, Popper(e)))
    && (e in s'.list && e in s.list ==> b.refs - B(Plays(p', User(e))) == a.refs - B(Plays(p, User(e))))
    && (e in s'.list && e !in s.list ==> b.refs == 0 && !Plays(p', User(e)) && !Plays(p, User(e)))
    && (e in s'.list && b.refs == 0 ==> Plays(p', Reviver(e)))
  }

  lemma UsersActive(s: State, e: EntryId)
    requires AllPcsOk(s) && e !in s.list
    ensures Players(s.pc, User(e)) == {}
  {
    forall u | u in Below(|s.pc|)
      ensures !Plays(s.pc[u], User(e))
    {
      assert PcOk(s.list, s.entries, s.pc[u]);
    }
  }

  lemma BalancedOk(s: State, s': State, t: nat, p: Pc, e: EntryId)
    requires AllPcsOk(s) && t < |s.pc| && s'.pc == s.pc[t := p] && e < |s.entries| == |s'.entries|
    requires EntryOk(s, e) && Balanced(s, s', s.pc[t], p, e)
    ensures EntryOk(s', e)
  {
    PlayersAfter(s.pc, t, p, Holder(e));
    PlayersAfter(s.pc, t, p, Popper(e));
    PlayersAfter(s.pc, t, p, User(e));
    PlayersAfter(s.pc, t, p, Reviver(e));
    if e !in s.list { UsersActive(s, e); }
    assert Plays(p, Reviver(e)) ==> t in Players(s'.pc, Reviver(e));
  }

  lemma SameOk(s: State, s': State, t: nat, p: Pc, e: EntryId)
    requires t < |s.pc| && s'.pc == s.pc[t := p] && e < |s.entries| == |s'.entries|
    requires EntryOk(s, e) && Same(s, s', s.pc[t], p, e)
    ensures EntryOk(s', e)
  {
    PlayersAfter(s.pc, t, p, Holder(e));
    PlayersAfter(s.pc, t, p, Popper(e));
    PlayersAfter(s.pc, t, p, User(e));
    PlayersAfter(s.pc, t, p, Reviver(e));
  }

  /** A step of thread `t` to place `p` that changes at most entry `ff`. */
  lemma StepInv(s: State, s': State, t: nat, p: Pc, ff: EntryId)
    requires Inv(s) && t < |s.pc| && s'.pc == s.pc[t := p] && |s'.entries| == |s.entries|
    requires Lists(s')
    requires s'.master >= 0 && s'.master + B(InMaster(p.at)) == s.master + B(InMaster(s.pc[t].at))
    requires forall e :: 0 <= e < |s.entries| && e != ff ==> s'.entries[e] == s.entries[e]
    requires forall e :: e != ff ==> (e in s'.list <==> e in s.list) && (e in s'.free <==> e in s.free)
    requires Uses(s.pc[t].at) || Holds(s.pc[t].at) || HasPopped(s.pc[t].at) || Revives(s.pc[t]) ==> s.pc[t].ff == ff
    requires Uses(p.at) || Holds(p.at) || HasPopped(p.at) ==> p.ff == ff
    requires ff < |s.entries| && Balanced(s, s', s.pc[t], p, ff)
    requires PcOk(s'.list, s'.entries, p)
    requires forall u :: 0 <= u < |s.pc| && u != t ==> PcOk(s'.list, s'.entries, s.pc[u])
    ensures Inv(s')
  {
    assert OneInMaster(s') by { PlayersAfter(s.pc, t, p, Master); }
    assert AllEntriesOk(s') by {
      forall e | 0 <= e < |s.entries|
        ensures EntryOk(s', e)
      {
        assert EntryOk(s, e);
        if e == ff { BalancedOk(s, s', t, p, e); } else { SameOk(s, s', t, p, e); }
      }
    }
  }

  /** Steps that leave the table alone, but for the master lock. */
  lemma TableUntouched(s: State, s': State, t: nat, p: Pc)
    requires Inv(s) && t < |s.pc| && s' == s.(pc := s.pc[t := p], master := s'.master)
    requires s'.master >= 0 && s'.master + B(InMaster(p.at)) == s.master + B(InMaster(s.pc[t].at))
    requires Uses(p.at) == Uses(s.pc[t].at) && Holds(p.at) == Holds(s.pc[t].at)
    requires HasPopped(p.at) == HasPopped(s.pc[t].at) && !Revives(s.pc[t])
    requires Uses(p.at) || Holds(p.at) || HasPopped(p.at) ==> p.ff == s.pc[t].ff
    requires PcOk(s.list, s.entries, p)
    ensures Inv(s')
  {
    assert OneInMaster(s') by { PlayersAfter(s.pc, t, p, Master); }
    assert AllEntriesOk(s') by {
      forall e | 0 <= e < |s.entries|
        ensures EntryOk(s', e)
      {
        assert EntryOk(s, e);
        SameOk(s, s', t, p, e);
      }
    }
    assert AllPcsOk(s');
  }

  /** Two threads are never between down and up of the master lock together. */
  lemma OneMaster(s: State, t: nat, u: nat)
    requires OneInMaster(s) && t < |s.pc| && u < |s.pc| && InMaster(s.pc[t].at) && InMaster(s.pc[u].at)
    ensures t == u
  {
    AtMostOne(Players(s.pc, Master), t, u);
  }

  /** A thread outside the master lock relies only on the hash of the entry it uses. */
  lemma OutsiderOk(list: seq<EntryId>, entries: seq<Entry>, list': seq<EntryId>, entries': seq<Entry>, p: Pc)
    requires PcOk(list, entries, p) && !InMaster(p.at) && |entries'| == |entries|
    requires Uses(p.at) ==> p.ff in list' && entries'[p.ff].hash == entries[p.ff].hash
    ensures PcOk(list', entries', p)
  {
  }

  lemma OthersOutside(s: State, t: nat, u: nat)
    requires Inv(s) && t < |s.pc| && u < |s.pc| && u != t && InMaster(s.pc[t].at)
    ensures !InMaster(s.pc[u].at) && PcOk(s.list, s.entries, s.pc[u])
  {
    if InMaster(s.pc[u].at) { OneMaster(s, t, u); }
  }

  lemma OthersKept(s: State, s': State, t: nat)
    requires Inv(s) && t < |s.pc| && InMaster(s.pc[t].at) && |s'.entries| == |s.entries|
    requires forall u :: 0 <= u < |s.pc| && u != t && Uses(s.pc[u].at) && s.pc[u].ff < |s.entries| ==>
      s.pc[u].ff in s.list ==> s.pc[u].ff in s'.list && s'.entries[s.pc[u].ff].hash == s.entries[s.pc[u].ff].hash
    ensures forall u :: 0 <= u < |s.pc| && u != t ==> PcOk(s'.list, s'.entries, s.pc[u])
  {
    forall u | 0 <= u < |s.pc| && u != t
      ensures PcOk(s'.list, s'.entries, s.pc[u])
    {
      OthersOutside(s, t, u);
      OutsiderOk(s.list, s.entries, s'.list, s'.entries, s.pc[u]);
    }
  }

  lemma ValEntry(s: State, s': State, t: nat, p: Pc, n: int, e: EntryId)
    requires t < |s.pc| && p.ff == s.pc[t].ff < |s.entries| && s' == AddVal(s, t, p, n)
    requires Uses(p.at) == Uses(s.pc[t].at) && !HasPopped(p.at) && !HasPopped(s.pc[t].at)
    requires Revives(s.pc[t]) ==> Revives(p)
    requires s.entries[p.ff].val + n >= 0 && n + B(Holds(p.at)) == B(Holds(s.pc[t].at))
    requires e < |s.entries| && EntryOk(s, e)
    ensures EntryOk(s', e)
  {
    PlayersAfter(s.pc, t, p, Holder(e));
    PlayersAfter(s.pc, t, p, Popper(e));
    PlayersAfter(s.pc, t, p, User(e));
    PlayersAfter(s.pc, t, p, Reviver(e));
  }

  /** Up and down on an entry's semaphore change neither hashes nor reference counts. */
  lemma ValKeeps(s: State, t: nat, p: Pc, n: int) returns (s': State)
    requires Inv(s) && t < |s.pc| && p.ff == s.pc[t].ff < |s.entries|
    requires InMaster(p.at) == InMaster(s.pc[t].at) && Uses(p.at) == Uses(s.pc[t].at)
    requires !HasPopped(p.at) && !HasPopped(s.pc[t].at) && (Revives(s.pc[t]) ==> Revives(p))
    requires s.entries[p.ff].val + n >= 0 && n + B(Holds(p.at)) == B(Holds(s.pc[t].at))
    requires PcOk(s.list, s.entries, p)
    ensures s' == AddVal(s, t, p, n) && Inv(s')
  {
    s' := AddVal(s, t, p, n);
    assert OneInMaster(s') by { PlayersAfter(s.pc, t, p, Master); }
    assert AllEntriesOk(s') by {
      forall e | 0 <= e < |s.entries|
        ensures EntryOk(s', e)
      {
        assert EntryOk(s, e);
        ValEntry(s, s', t, p, n, e);
      }
    }
    assert AllPcsOk(s') by {
      forall u | 0 <= u < |s.pc|
        ensures PcOk(s'.list, s'.entries, s'.pc[u])
      {
        assert PcOk(s.list, s.entries, s.pc[u]);
        ValPcOk(s.list, s.entries, s'.entries, s'.pc[u]);
      }
    }
    assert Lists(s');
  }

  lemma {:induction false} LookupByHash(list: seq<EntryId>, entries: seq<Entry>, entries': seq<Entry>, h: nat)
    requires |entries'| == |entries| && forall e :: 0 <= e < |entries| ==> entries'[e].hash == entries[e].hash
    ensures Lookup(list, entries', h) == Lookup(list, entries, h)
  {
    if list != [] {
      LookupByHash(list[1..], entries, entries', h);
    }
  }

  /** Threads do not rely on semaphore values. */
  lemma ValPcOk(list: seq<EntryId>, entries: seq<Entry>, entries': seq<Entry>, p: Pc)
    requires PcOk(list, entries, p) && |entries'| == |entries|
    requires forall e :: 0 <= e < |entries| ==> entries'[e].hash == entries[e].hash && entries'[e].refs == entries[e].refs
    ensures PcOk(list, entries', p)
  {
    LookupByHash(list, entries, entries', p.h);
  }

  lemma RefsBalanced(s: State, t: nat, p: Pc, n: int, s': State)
    requires t < |s.pc| && p.ff == s.pc[t].ff < |s.entries| && s' == AddRefs(s, t, p, n)
    requires s.entries[p.ff].val >= 0
    requires Holds(p.at) == Holds(s.pc[t].at) && !HasPopped(p.at) && !HasPopped(s.pc[t].at)
    requires n + B(Uses(s.pc[t].at)) == B(Uses(p.at))
    requires s.entries[p.ff].refs + n == 0 ==> Revives(p)
    requires p.ff in s.list
    ensures Balanced(s, s', s.pc[t], p, p.ff)
  {
  }

  /** Reference counting under the master lock. */
  lemma RefsKeep(s: State, t: nat, p: Pc, n: int) returns (s': State)
    requires Inv(s) && t < |s.pc| && p.ff == s.pc[t].ff < |s.entries| && InMaster(s.pc[t].at) && InMaster(p.at)
    requires Holds(p.at) == Holds(s.pc[t].at) && !HasPopped(p.at) && !HasPopped(s.pc[t].at)
    requires n + B(Uses(s.pc[t].at)) == B(Uses(p.at))
    requires PcOk(s.list, AddRefs(s, t, p, n).entries, p) && p.ff in s.list
    requires s.entries[p.ff].refs + n == 0 ==> Revives(p)
    ensures s' == AddRefs(s, t, p, n) && Inv(s')
  {
    s' := AddRefs(s, t, p, n);
    assert Balanced(s, s', s.pc[t], p, p.ff) by {
      assert EntryOk(s, p.ff);
      RefsBalanced(s, t, p, n, s');
    }
    assert forall u :: 0 <= u < |s.pc| && u != t ==> PcOk(s'.list, s'.entries, s.pc[u]) by { OthersKept(s, s', t); }
    assert Lists(s');
    StepInv(s, s', t, p, p.ff);
  }

  /** A user is among those counted. */
  lemma UserCounted(s: State, t: nat)
    requires Inv(s) && t < |s.pc| && Active(s.list, s.entries, s.pc[t].h, s.pc[t].ff)
    ensures s.entries[s.pc[t].ff].refs >= B(Uses(s.pc[t].at))
  {
    var e := s.pc[t].ff;
    assert EntryOk(s, e);
    assert Uses(s.pc[t].at) ==> t in Players(s.pc, User(e));
  }

  lemma HashUnique(s: State, h: nat, d: EntryId, e: EntryId)
    requires Inv(s) && Active(s.list, s.entries, h, d) && Active(s.list, s.entries, h, e)
    ensures d == e
  {
    var i :| 0 <= i < |s.list| && s.list[i] == d;
    var j :| 0 <= j < |s.list| && s.list[j] == e;
    assert i == j;
  }

  /** The lookup of an unlock finds the entry its thread holds. */
  lemma UnlockFinds(s: State, t: nat)
    requires Inv(s) && t < |s.pc| && s.pc[t].at == UnlockFind
    ensures Lookup(s.list, s.entries, s.pc[t].h) == Some(s.pc[t].ff)
  {
    var p := s.pc[t];
    assert PcOk(s.list, s.entries, p);
    LookupNone(s.list, s.entries, p.h);
    HashUnique(s, p.h, p.ff, Lookup(s.list, s.entries, p.h).value);
  }

  lemma UnlockFindKeeps(s: State, t: nat, q: Pc) returns (s': State)
    requires Inv(s) && t < |s.pc| && s.pc[t].at == UnlockFind && s.pc[t].ff < |s.entries|
    requires q == s.pc[t].(at := UnlockUp, last := s.entries[s.pc[t].ff].refs == 1)
    ensures s' == AddRefs(s, t, q, -1) && Inv(s')
  {
    assert PcOk(s.list, s.entries, s.pc[t]);
    UserCounted(s, t);
    s' := RefsKeep(s, t, q, -1);
  }

  lemma DropFirst(s: seq<EntryId>)
    requires NoDup(s) && s != []
    ensures NoDup(s[1..]) && s[0] !in s[1..] && forall e :: e in s <==> e in s[1..] || e == s[0]
  {
    assert s == [s[0]] + s[1..];
  }

  lemma PopBalanced(s: State, t: nat, p: Pc, s': State)
    requires t < |s.pc| && s.pc[t].at == Pop && s.free != [] && p.ff == s.free[0] < |s.entries| && HasPopped(p.at)
    requires s' == PopFree(s, t, p) && p.ff !in s'.free && EntryOk(s, p.ff)
    ensures Balanced(s, s', s.pc[t], p, p.ff)
  {
  }

  lemma PopKeeps(s: State, t: nat, p: Pc) returns (s': State)
    requires Inv(s) && t < |s.pc| && s.pc[t].at == Pop && s.free != [] && p.ff == s.free[0] < |s.entries|
    requires HasPopped(p.at) && PcOk(s.list, s.entries, p)
    ensures s' == PopFree(s, t, p) && Inv(s')
  {
    s' := PopFree(s, t, p);
    DropFirst(s.free);
    assert Balanced(s, s', s.pc[t], p, p.ff) by {
      assert EntryOk(s, p.ff);
      PopBalanced(s, t, p, s');
    }
    assert AllPcsOk(s);
    StepInv(s, s', t, p, p.ff);
  }

  /** The popped entry is on neither list. */
  lemma PoppedAlone(s: State, t: nat, e: EntryId)
    requires Inv(s) && t < |s.pc| && e < |s.entries| && Plays(s.pc[t], Popper(e))
    ensures e !in s.list && e !in s.free
  {
    assert EntryOk(s, e) && t in Players(s.pc, Popper(e));
  }

  /** The hash appeared while the master lock was dropped: the popped entry goes back. */
  lemma PutBackKeeps(s: State, t: nat, p: Pc, e: EntryId) returns (s': State)
    requires Inv(s) && t < |s.pc| && s.pc[t].at == Refind && s.pc[t].ff == e < |s.entries|
    requires p.at == AddRef && PcOk(s.list, s.entries, p)
    ensures s' == PutFree(s, t, p, e) && Inv(s')
  {
    s' := PutFree(s, t, p, e);
    PoppedAlone(s, t, e);
    assert EntryOk(s, e);
    forall u | 0 <= u < |s.pc| && u != t
      ensures PcOk(s'.list, s'.entries, s.pc[u])
    {
      assert PcOk(s.list, s.entries, s.pc[u]);
    }
    StepInv(s, s', t, p, e);
  }

  lemma InsertLists(s: State, h: nat, ff: EntryId, s': State)
    requires Lists(s) && ff < |s.entries| && ff !in s.list && Lookup(s.list, s.entries, h).None?
    requires s'.list == [ff] + s.list && s'.free == s.free
    requires s'.entries == s.entries[ff := s.entries[ff].(hash := h, refs := 0)]
    ensures Lists(s')
  {
    LookupNone(s.list, s.entries, h);
    assert forall i :: 0 < i < |s'.list| ==> s'.list[i] == s.list[i - 1] && s.list[i - 1] in s.list;
  }

  lemma ActivateBalanced(s: State, t: nat, p: Pc, s': State)
    requires t < |s.pc| && s.pc[t].at == Insert && p == s.pc[t].(at := AddRef) && p.ff < |s.entries|
    requires s' == Activate(s, t, p) && p.ff !in s.list && s.entries[p.ff].val >= 0
    ensures Balanced(s, s', s.pc[t], p, p.ff)
  {
  }

  lemma ActivateKeeps(s: State, t: nat, p: Pc) returns (s': State)
    requires Inv(s) && t < |s.pc| && s.pc[t].at == Insert && p == s.pc[t].(at := AddRef)
    requires PcOk(s.list, s.entries, s.pc[t])
    ensures s' == Activate(s, t, p) && Inv(s')
  {
    s' := Activate(s, t, p);
    PoppedAlone(s, t, p.ff);
    assert Lists(s') by { InsertLists(s, p.h, p.ff, s'); }
    assert s.entries[p.ff].val >= 0 by { assert EntryOk(s, p.ff); }
    ActivateBalanced(s, t, p, s');
    OthersKept(s, s', t);
    StepInv(s, s', t, p, p.ff);
  }

  /** Hashes stay distinct on any part of the list. */
  lemma HashesOfPart(list: seq<EntryId>, part: seq<EntryId>, entries: seq<Entry>)
    requires DistinctHashes(list, entries) && NoDup(part) && forall d :: d in part ==> d in list
    ensures DistinctHashes(part, entries)
  {
    forall i, j | 0 <= i < j < |part| && part[i] < |entries| && part[j] < |entries|
      ensures entries[part[i]].hash != entries[part[j]].hash
    {
      assert part[i] in list && part[j] in list && part[i] != part[j];
      var k :| 0 <= k < |list| && list[k] == part[i];
      var l :| 0 <= l < |list| && list[l] == part[j];
      assert k < l || l < k;
    }
  }

  /** An entry is recycled only when no thread uses it or holds it. */
  lemma RecycledUnused(s: State, t: nat)
    requires Inv(s) && t < |s.pc| && s.pc[t].at == Recycle
    ensures s.pc[t].ff < |s.entries| && s.pc[t].ff in s.list && s.entries[s.pc[t].ff].val == 1
    ensures Players(s.pc, User(s.pc[t].ff)) == {} && Players(s.pc, Holder(s.pc[t].ff)) == {}
  {
    var e := s.pc[t].ff;
    assert PcOk(s.list, s.entries, s.pc[t]) && EntryOk(s, e);
    forall u | u in Below(|s.pc|)
      ensures !Plays(s.pc[u], Holder(e))
    {
      assert u !in Players(s.pc, User(e));
      if s.pc[u].at == UnlockUp { OneMaster(s, t, u); }
    }
    assert Players(s.pc, Holder(e)) == {};
  }

  lemma RetireLists(s: State, e: EntryId, s': State)
    requires Lists(s) && e in s.list && e !in s.free
    requires s'.list == Without(s.list, e) && s'.free == [e] + s.free && s'.entries == s.entries
    ensures Lists(s') && forall d :: d in s'.list <==> d in s.list && d != e
  {
    WithoutNoDup(s.list, e);
    HashesOfPart(s.list, s'.list, s.entries);
  }

  lemma RetireOthers(s: State, t: nat, s': State)
    requires Inv(s) && t < |s.pc| && InMaster(s.pc[t].at) && s'.entries == s.entries
    requires Players(s.pc, User(s.pc[t].ff)) == {}
    requires forall d :: d in s'.list <==> d in s.list && d != s.pc[t].ff
    ensures forall u :: 0 <= u < |s.pc| && u != t ==> PcOk(s'.list, s'.entries, s.pc[u])
  {
    assert forall u :: 0 <= u < |s.pc| && Uses(s.pc[u].at) ==> s.pc[u].ff != s.pc[t].ff by {
      NotUsed(s.pc, s.pc[t].ff);
    }
    OthersKept(s, s', t);
  }

  lemma NotUsed(pc: seq<Pc>, e: EntryId)
    requires Players(pc, User(e)) == {}
    ensures forall u :: 0 <= u < |pc| && Uses(pc[u].at) ==> pc[u].ff != e
  {
    forall u | 0 <= u < |pc| && Uses(pc[u].at)
      ensures pc[u].ff != e
    {
      assert u !in Players(pc, User(e));
    }
  }

  lemma RetireBalanced(s: State, t: nat, p: Pc, s': State)
    requires t < |s.pc| && s.pc[t].at == Recycle && p == s.pc[t].(at := UnlockLeave) && p.ff < |s.entries|
    requires p.ff in s.list && p.ff !in s.free && p.ff !in s'.list && p.ff in s'.free && s'.entries == s.entries
    requires s.entries[p.ff].val >= 0
    ensures Balanced(s, s', s.pc[t], p, p.ff)
  {
  }

  lemma RetireKeeps(s: State, t: nat, p: Pc) returns (s': State)
    requires Inv(s) && t < |s.pc| && s.pc[t].at == Recycle && p == s.pc[t].(at := UnlockLeave)
    ensures s' == Retire(s, t, p) && Inv(s')
  {
    s' := Retire(s, t, p);
    RecycledUnused(s, t);
    assert s.entries[p.ff].val >= 0 && p.ff !in s.free by { assert EntryOk(s, p.ff); }
    RetireLists(s, p.ff, s');
    RetireBalanced(s, t, p, s');
    RetireOthers(s, t, s');
    assert forall e :: e in s'.free <==> e == p.ff || e in s.free;
    assert PcOk(s'.list, s'.entries, p);
    StepInv(s, s', t, p, p.ff);
  }

  /** A step that only moves the thread. */
  lemma GotoKeeps(s: State, t: nat, p: Pc) returns (s': State)
    requires Inv(s) && t < |s.pc| && InMaster(p.at) == InMaster(s.pc[t].at)
    requires Uses(p.at) == Uses(s.pc[t].at) && Holds(p.at) == Holds(s.pc[t].at)
    requires HasPopped(p.at) == HasPopped(s.pc[t].at) && !Revives(s.pc[t])
    requires Uses(p.at) || Holds(p.at) || HasPopped(p.at) ==> p.ff == s.pc[t].ff
    requires PcOk(s.list, s.entries, p)
    ensures s' == Goto(s, t, p) && Inv(s')
  {
    s' := Goto(s, t, p);
    TableUntouched(s, s', t, p);
  }

  /** A step that takes the master lock, or drops it. */
  lemma MasterKeeps(s: State, t: nat, p: Pc) returns (s': State)
    requires Inv(s) && t < |s.pc| && InMaster(p.at) != InMaster(s.pc[t].at) && (InMaster(p.at) ==> s.master > 0)
    requires Uses(p.at) == Uses(s.pc[t].at) && Holds(p.at) == Holds(s.pc[t].at)
    requires !HasPopped(p.at) && !HasPopped(s.pc[t].at) && !Revives(s.pc[t])
    requires Uses(p.at) || Holds(p.at) ==> p.ff == s.pc[t].ff
    requires PcOk(s.list, s.entries, p)
    ensures s' == (if InMaster(p.at) then TakeMaster(s, t, p) else DropMaster(s, t, p)) && Inv(s')
  {
    s' := if InMaster(p.at) then TakeMaster(s, t, p) else DropMaster(s, t, p);
    TableUntouched(s, s', t, p);
  }

  lemma DownKeeps(s: State, t: nat, q: Pc) returns (s': State)
    requires Inv(s) && t < |s.pc| && (s.pc[t].at == Down || s.pc[t].at == TryDown)
    requires s.pc[t].ff < |s.entries| && s.entries[s.pc[t].ff].val != 0 && q == s.pc[t].(at := Holding)
    ensures s' == AddVal(s, t, q, -1) && Inv(s')
  {
    assert PcOk(s.list, s.entries, s.pc[t]) && EntryOk(s, q.ff);
    s' := ValKeeps(s, t, q, -1);
  }

  lemma CheckKeeps(s: State, t: nat, q: Pc) returns (s': State)
    requires Inv(s) && t < |s.pc| && s.pc[t].at == Check && q == s.pc[t].(at := LeaveFailed)
    requires s.pc[t].ff < |s.entries| && s.entries[s.pc[t].ff].refs != 1
    ensures s' == AddRefs(s, t, q, -1) && Inv(s')
  {
    assert PcOk(s.list, s.entries, s.pc[t]);
    UserCounted(s, t);
    s' := RefsKeep(s, t, q, -1);
  }

  lemma AddRefKeeps(s: State, t: nat, q: Pc) returns (s': State)
    requires Inv(s) && t < |s.pc| && s.pc[t].at == AddRef && s.pc[t].ff < |s.entries| && q == s.pc[t].(at := Leave)
    ensures s' == AddRefs(s, t, q, 1) && Inv(s')
  {
    assert PcOk(s.list, s.entries, s.pc[t]);
    UserCounted(s, t);
    s' := RefsKeep(s, t, q, 1);
  }

  lemma UnlockUpOk(list: seq<EntryId>, entries: seq<Entry>, p: Pc, q: Pc)
    requires PcOk(list, entries, p) && p.at == UnlockUp && q == p.(at := if p.last then Recycle else UnlockLeave)
    ensures PcOk(list, entries, q) && q.ff == p.ff < |entries|
    ensures InMaster(p.at) && InMaster(q.at) && Holds(p.at) && !Holds(q.at) && !Uses(p.at) && !Uses(q.at)
    ensures !HasPopped(p.at) && !HasPopped(q.at) && Revives(p) == Revives(q)
  {
  }

  lemma UnlockUpKeeps(s: State, t: nat, q: Pc) returns (s': State)
    requires Inv(s) && t < |s.pc| && s.pc[t].at == UnlockUp && s.pc[t].ff < |s.entries|
    requires q == s.pc[t].(at := if s.pc[t].last then Recycle else UnlockLeave)
    ensures s' == AddVal(s, t, q, 1) && Inv(s')
  {
    UnlockUpOk(s.list, s.entries, s.pc[t], q);
    assert s.entries[q.ff].val >= 0 by { assert EntryOk(s, q.ff); }
    s' := ValKeeps(s, t, q, 1);
  }

  // Each step is first spelled out, then shown to keep the invariant.

  predicate IsMasterStep(at: At) {
    at == Start || at == Nap || at == Recheck || at == UnlockStart || at == Fail || at == Leave || at == LeaveToGrab
    || at == LeaveFailed || at == UnlockLeave
  }

  /** Where a step that only takes or drops the master lock leads. */
  function AfterMaster(p: Pc): Pc {
    match p.at
    case Start => p.(at := Find)
    case Nap => p.(at := Pop, retry := true)
    case Recheck => p.(at := Check)
    case UnlockStart => p.(at := UnlockFind)
    case Leave => p.(at := if p.trylock then TryDown else Down)
    case LeaveToGrab => p.(at := Down)
    case _ => p.(at := Idle)
  }

  lemma AfterMasterRoles(p: Pc, q: Pc)
    requires IsMasterStep(p.at) && q == AfterMaster(p)
    ensures InMaster(q.at) == TakesMaster(p.at) != InMaster(p.at)
    ensures Uses(q.at) == Uses(p.at) && Holds(q.at) == Holds(p.at) && !HasPopped(p.at) && !HasPopped(q.at)
    ensures !Revives(p) && q.ff == p.ff && q.h == p.h
  {
  }

  lemma AfterMasterOk(list: seq<EntryId>, entries: seq<Entry>, p: Pc, q: Pc)
    requires IsMasterStep(p.at) && PcOk(list, entries, p) && q == AfterMaster(p)
    ensures PcOk(list, entries, q)
  {
    AfterMasterRoles(p, q);
    assert HasEntry(q.at) ==> HasEntry(p.at);
    assert !Revives(q) && q.at != UnlockUp && q.at != Insert && (q.at == Pop ==> q.retry);
  }

  lemma RunMaster(s: State, t: nat)
    requires CanRun(s, t) && IsMasterStep(s.pc[t].at)
    ensures Run(s, t) ==
      if TakesMaster(s.pc[t].at) then TakeMaster(s, t, AfterMaster(s.pc[t])) else DropMaster(s, t, AfterMaster(s.pc[t]))
  {
  }

  lemma MasterStep(s: State, t: nat) returns (s': State)
    requires Inv(s) && CanRun(s, t) && IsMasterStep(s.pc[t].at)
    ensures s' == Run(s, t) && Inv(s')
  {
    RunMaster(s, t);
    assert PcOk(s.list, s.entries, s.pc[t]);
    AfterMasterRoles(s.pc[t], AfterMaster(s.pc[t]));
    AfterMasterOk(s.list, s.entries, s.pc[t], AfterMaster(s.pc[t]));
    s' := MasterKeeps(s, t, AfterMaster(s.pc[t]));
  }

  /** Where a step that only moves the thread leads. */
  predicate OnlyMoves(s: State, p: Pc, q: Pc) {
    || (p.at == Find && Lookup(s.list, s.entries, p.h).Some?
        && q == p.(at := AddRef, ff := Lookup(s.list, s.entries, p.h).value))
    || (p.at == Find && Lookup(s.list, s.entries, p.h).None? && q == p.(at := Pop, retry := false))
    || (p.at == Pop && s.free == [] && p.trylock && q == p.(at := Fail))
    || (p.at == Refind && Lookup(s.list, s.entries, p.h).None? && q == p.(at := Insert))
    || (p.at == TryDown && p.ff < |s.entries| && s.entries[p.ff].val == 0 && q == p.(at := Recheck))
    || (p.at == Check && p.ff < |s.entries| && s.entries[p.ff].refs == 1 && q == p.(at := LeaveToGrab))
  }

  lemma OnlyMovesRoles(s: State, p: Pc, q: Pc)
    requires OnlyMoves(s, p, q) && PcOk(s.list, s.entries, p)
    ensures PcOk(s.list, s.entries, q) && InMaster(q.at) == InMaster(p.at) && !Revives(p)
    ensures Uses(q.at) == Uses(p.at) && Holds(q.at) == Holds(p.at) && HasPopped(p.at) == HasPopped(q.at)
    ensures Uses(q.at) || Holds(q.at) || HasPopped(q.at) ==> q.ff == p.ff
  {
  }

  lemma RunOnlyMoves(s: State, t: nat, q: Pc)
    requires CanRun(s, t) && OnlyMoves(s, s.pc[t], q)
    ensures Run(s, t) == Goto(s, t, q)
  {
  }

  lemma MoveStep(s: State, t: nat, q: Pc) returns (s': State)
    requires Inv(s) && CanRun(s, t) && OnlyMoves(s, s.pc[t], q)
    ensures s' == Run(s, t) && Inv(s')
  {
    RunOnlyMoves(s, t, q);
    assert PcOk(s.list, s.entries, s.pc[t]);
    OnlyMovesRoles(s, s.pc[t], q);
    s' := GotoKeeps(s, t, q);
  }

  lemma RunPop(s: State, t: nat)
    requires CanRun(s, t) && s.pc[t].at == Pop && s.free != []
    ensures Run(s, t) == PopFree(s, t, s.pc[t].(at := if s.pc[t].retry then Refind else Insert, ff := s.free[0]))
  {
  }

  lemma PopOk(list: seq<EntryId>, entries: seq<Entry>, p: Pc, q: Pc)
    requires PcOk(list, entries, p) && p.at == Pop && q.ff < |entries|
    requires q == p.(at := if p.retry then Refind else Insert, ff := q.ff)
    ensures PcOk(list, entries, q) && HasPopped(q.at)
  {
  }

  lemma PopStep(s: State, t: nat) returns (s': State)
    requires Inv(s) && CanRun(s, t) && s.pc[t].at == Pop && s.free != []
    ensures s' == Run(s, t) && Inv(s')
  {
    var q := s.pc[t].(at := if s.pc[t].retry then Refind else Insert, ff := s.free[0]);
    RunPop(s, t);
    assert PcOk(s.list, s.entries, s.pc[t]);
    assert s.free[0] in s.free;
    PopOk(s.list, s.entries, s.pc[t], q);
    s' := PopKeeps(s, t, q);
  }

  lemma RunNap(s: State, t: nat)
    requires CanRun(s, t) && s.pc[t].at == Pop && s.free == [] && !s.pc[t].trylock
    ensures Run(s, t) == DropMaster(s, t, s.pc[t].(at := Nap))
  {
  }

  lemma WaitStep(s: State, t: nat) returns (s': State)
    requires Inv(s) && CanRun(s, t) && s.pc[t].at == Pop && s.free == [] && !s.pc[t].trylock
    ensures s' == Run(s, t) && Inv(s')
  {
    RunNap(s, t);
    s' := MasterKeeps(s, t, s.pc[t].(at := Nap));
  }

  lemma RunPutBack(s: State, t: nat, e: EntryId)
    requires CanRun(s, t) && s.pc[t].at == Refind && Lookup(s.list, s.entries, s.pc[t].h) == Some(e)
    ensures Run(s, t) == PutFree(s, t, s.pc[t].(at := AddRef, ff := e), s.pc[t].ff)
  {
  }

  lemma PutBackStep(s: State, t: nat, e: EntryId) returns (s': State)
    requires Inv(s) && CanRun(s, t) && s.pc[t].at == Refind && Lookup(s.list, s.entries, s.pc[t].h) == Some(e)
    ensures s' == Run(s, t) && Inv(s')
  {
    RunPutBack(s, t, e);
    s' := PutBackKeeps(s, t, s.pc[t].(at := AddRef, ff := e), s.pc[t].ff);
  }

  lemma RunOnList(s: State, t: nat)
    requires CanRun(s, t)
    ensures s.pc[t].at == Insert ==> Run(s, t) == Activate(s, t, s.pc[t].(at := AddRef))
    ensures s.pc[t].at == AddRef ==> Run(s, t) == AddRefs(s, t, s.pc[t].(at := Leave), 1)
    ensures s.pc[t].at == Recycle ==> Run(s, t) == Retire(s, t, s.pc[t].(at := UnlockLeave))
  {
  }

  lemma ListStep(s: State, t: nat) returns (s': State)
    requires Inv(s) && CanRun(s, t) && (s.pc[t].at == Insert || s.pc[t].at == AddRef || s.pc[t].at == Recycle)
    ensures s' == Run(s, t) && Inv(s')
  {
    RunOnList(s, t);
    assert PcOk(s.list, s.entries, s.pc[t]);
    if s.pc[t].at == Insert {
      s' := ActivateKeeps(s, t, s.pc[t].(at := AddRef));
    } else if s.pc[t].at == AddRef {
      s' := AddRefKeeps(s, t, s.pc[t].(at := Leave));
    } else {
      s' := RetireKeeps(s, t, s.pc[t].(at := UnlockLeave));
    }
  }

  lemma RunOnEntry(s: State, t: nat)
    requires CanRun(s, t)
    ensures s.pc[t].at == Down || (s.pc[t].at == TryDown && s.entries[s.pc[t].ff].val != 0) ==>
      Run(s, t) == AddVal(s, t, s.pc[t].(at := Holding), -1)
    ensures s.pc[t].at == Check && s.entries[s.pc[t].ff].refs != 1 ==>
      Run(s, t) == AddRefs(s, t, s.pc[t].(at := LeaveFailed), -1)
    ensures s.pc[t].at == UnlockUp ==>
      Run(s, t) == AddVal(s, t, s.pc[t].(at := if s.pc[t].last then Recycle else UnlockLeave), 1)
    ensures s.pc[t].at == UnlockFind && Lookup(s.list, s.entries, s.pc[t].h) == Some(s.pc[t].ff) ==>
      Run(s, t) == AddRefs(s, t, s.pc[t].(at := UnlockUp, last := s.entries[s.pc[t].ff].refs == 1), -1)
  {
  }

  lemma DownOrCheckStep(s: State, t: nat) returns (s': State)
    requires Inv(s) && CanRun(s, t)
    requires s.pc[t].at == Down || (s.pc[t].at == TryDown && s.entries[s.pc[t].ff].val != 0)
      || (s.pc[t].at == Check && s.entries[s.pc[t].ff].refs != 1)
    ensures s' == Run(s, t) && Inv(s')
  {
    RunOnEntry(s, t);
    if s.pc[t].at == Check {
      s' := CheckKeeps(s, t, s.pc[t].(at := LeaveFailed));
    } else {
      s' := DownKeeps(s, t, s.pc[t].(at := Holding));
    }
  }

  lemma UnlockStep(s: State, t: nat) returns (s': State)
    requires Inv(s) && CanRun(s, t) && (s.pc[t].at == UnlockFind || s.pc[t].at == UnlockUp)
    ensures s' == Run(s, t) && Inv(s')
  {
    RunOnEntry(s, t);
    if s.pc[t].at == UnlockFind {
      UnlockFinds(s, t);
      s' := UnlockFindKeeps(s, t, s.pc[t].(at := UnlockUp, last := s.entries[s.pc[t].ff].refs == 1));
    } else {
      s' := UnlockUpKeeps(s, t, s.pc[t].(at := if s.pc[t].last then Recycle else UnlockLeave));
    }
  }

  lemma RunKeeps(s: State, t: nat) returns (s': State)
    requires Inv(s) && CanRun(s, t)
    ensures s' == Run(s, t) && Inv(s')
  {
    var p, r := s.pc[t], Lookup(s.list, s.entries, s.pc[t].h);
    match p.at
    case Find =>
      if r.Some? { s' := MoveStep(s, t, p.(at := AddRef, ff := r.value)); }
      else { s' := MoveStep(s, t, p.(at := Pop, retry := false)); }
    case Pop =>
      if s.free != [] { s' := PopStep(s, t); }
      else if p.trylock { s' := MoveStep(s, t, p.(at := Fail)); }
      else { s' := WaitStep(s, t); }
    case Refind =>
      if r.Some? { s' := PutBackStep(s, t, r.value); } else { s' := MoveStep(s, t, p.(at := Insert)); }
    case Insert => s' := ListStep(s, t);
    case AddRef => s' := ListStep(s, t);
    case Recycle => s' := ListStep(s, t);
    case Down => s' := DownOrCheckStep(s, t);
    case TryDown =>
      if s.entries[p.ff].val != 0 { s' := DownOrCheckStep(s, t); }
      else { s' := MoveStep(s, t, p.(at := Recheck)); }
    case Check =>
      if s.entries[p.ff].refs != 1 { s' := DownOrCheckStep(s, t); }
      else { s' := MoveStep(s, t, p.(at := LeaveToGrab)); }
    case UnlockFind => s' := UnlockStep(s, t);
    case UnlockUp => s' := UnlockStep(s, t);
    case _ => s' := MasterStep(s, t);
  }

  lemma InitInv(pool: nat, threads: nat)
    ensures Inv(Init(pool, threads))
  {
    var s := Init(pool, threads);
    assert forall r: Role :: Players(s.pc, r) == {};
    forall e | 0 <= e < pool
      ensures EntryOk(s, e)
    {
      assert s.free[e] == e;
      assert Players(s.pc, Holder(e)) == {} && Players(s.pc, Popper(e)) == {};
    }
    assert Players(s.pc, Master) == {};
  }

  // ----- every interleaving

  ghost predicate IsRun(pool: nat, threads: nat, acts: seq<Action>, trace: seq<State>) {
    && |trace| == |acts| + 1 && trace[0] == Init(pool, threads)
    && forall i :: 0 <= i < |acts| ==> Enabled(trace[i], acts[i]) && trace[i + 1] == Step(trace[i], acts[i])
  }

  lemma LockStep(s: State, t: nat, p: Pc) returns (s': State)
    requires Inv(s) && t < |s.pc| && s.pc[t].at == Idle && p.at == Start
    ensures s' == Goto(s, t, p) && Inv(s')
  {
    s' := GotoKeeps(s, t, p);
  }

  lemma StartUnlock(s: State, t: nat, p: Pc) returns (s': State)
    requires Inv(s) && t < |s.pc| && s.pc[t].at == Holding && p == s.pc[t].(at := UnlockStart)
    ensures s' == Goto(s, t, p) && Inv(s')
  {
    assert PcOk(s.list, s.entries, s.pc[t]);
    s' := GotoKeeps(s, t, p);
  }

  /** Every step of every thread keeps the invariant. */
  lemma StepKeeps(s: State, a: Action) returns (s': State)
    requires Inv(s) && Enabled(s, a)
    ensures s' == Step(s, a) && Inv(s')
  {
    match a
    case Lock(t, h, trylock) => s' := LockStep(s, t, Pc(Start, h, trylock, false, 0, false));
    case Unlock(t) => s' := StartUnlock(s, t, s.pc[t].(at := UnlockStart));
    case Move(t) => s' := RunKeeps(s, t);
  }

  lemma {:induction false} RunInv(pool: nat, threads: nat, acts: seq<Action>, trace: seq<State>, n: nat)
    requires IsRun(pool, threads, acts, trace) && n < |trace|
    ensures Inv(trace[n])
  {
    if n == 0 {
      InitInv(pool, threads);
    } else {
      RunInv(pool, threads, acts, trace, n - 1);
      assert Enabled(trace[n - 1], acts[n - 1]);
      var s' := StepKeeps(trace[n - 1], acts[n - 1]);
    }
  }

  /** In every interleaving at most one thread is between lock and unlock of a hash, and hence
      of a file name. */
  lemma MutualExclusion(pool: nat, threads: nat, acts: seq<Action>, trace: seq<State>, n: nat, t: nat, u: nat)
    requires IsRun(pool, threads, acts, trace) && n < |trace| && t < |trace[n].pc| && u < |trace[n].pc|
    requires Holds(trace[n].pc[t].at) && Holds(trace[n].pc[u].at) && trace[n].pc[t].h == trace[n].pc[u].h
    ensures t == u
  {
    var s := trace[n];
    RunInv(pool, threads, acts, trace, n);
    var e := s.pc[t].ff;
    assert PcOk(s.list, s.entries, s.pc[t]) && PcOk(s.list, s.entries, s.pc[u]);
    HashUnique(s, s.pc[t].h, e, s.pc[u].ff);
    assert EntryOk(s, e);
    AtMostOne(Players(s.pc, Holder(e)), t, u);
  }

  /** What holds of one entry: its place, its semaphore, its reference count, and that no
      active entry is left without a user once the master lock is free. */
  ghost predicate Consistent(s: State, e: EntryId)
    requires e < |s.entries|
  {
    && B(e in s.list) + B(e in s.free) + |Players(s.pc, Popper(e))| == 1
    && s.entries[e].val + |Players(s.pc, Holder(e))| == 1 && s.entries[e].val >= 0
    && (e in s.list ==> s.entries[e].refs == |Players(s.pc, User(e))|)
    && (e in s.list && s.master == 1 ==> s.entries[e].refs > 0)
  }

  lemma EntryConsistent(s: State, e: EntryId)
    requires Inv(s) && e < |s.entries|
    ensures Consistent(s, e)
  {
    assert EntryOk(s, e);
    SubsetSize(Players(s.pc, Reviver(e)), Players(s.pc, Master));
  }

  /** In every interleaving each entry is consistent and active entries have distinct hashes. */
  lemma TableConsistent(pool: nat, threads: nat, acts: seq<Action>, trace: seq<State>, n: nat, d: EntryId, e: EntryId)
    requires IsRun(pool, threads, acts, trace) && n < |trace| && d < |trace[n].entries| && e < |trace[n].entries|
    ensures Consistent(trace[n], e)
    ensures d in trace[n].list && e in trace[n].list && trace[n].entries[d].hash == trace[n].entries[e].hash ==> d == e
  {
    RunInv(pool, threads, acts, trace, n);
    EntryConsistent(trace[n], e);
    if d in trace[n].list && e in trace[n].list && trace[n].entries[d].hash == trace[n].entries[e].hash {
      HashUnique(trace[n], trace[n].entries[e].hash, d, e);
    }
  }

  lemma SecondEntryForHash(list: seq<EntryId>, entries: seq<Entry>, h: nat, ff: EntryId)
    requires ff < |entries| && ff !in list && entries[ff].hash == h && !NoHash(list, entries, h)
    ensures !DistinctHashes([ff] + list, entries)
  {
    var e :| e in list && e < |entries| && entries[e].hash == h;
    var i :| 0 <= i < |list| && list[i] == e;
    assert ([ff] + list)[0] == ff && ([ff] + list)[i + 1] == e;
  }

  /** Inserting a popped entry without looking the hash up again would break uniqueness
      whenever another thread has added the hash meanwhile. */
  lemma RelookupNeeded(s: State, t: nat, s': State)
    requires Inv(s) && CanRun(s, t) && s.pc[t].at == Refind && !NoHash(s.list, s.entries, s.pc[t].h)
    requires s' == Activate(s, t, s.pc[t].(at := AddRef))
    ensures !DistinctHashes(s'.list, s'.entries)
  {
    var p := s.pc[t];
    PoppedAlone(s, t, p.ff);
    assert !NoHash(s.list, s'.entries, p.h) by {
      var e :| e in s.list && e < |s.entries| && s.entries[e].hash == p.h;
      assert s'.entries[e].hash == p.h;
    }
    SecondEntryForHash(s.list, s'.entries, p.h, p.ff);
  }

  lemma InMasterRuns(s: State, t: nat)
    requires t < |s.pc| && PcOk(s.list, s.entries, s.pc[t]) && InMaster(s.pc[t].at)
    ensures CanRun(s, t)
  {
  }

  lemma MasterHolderRuns(s: State)
    requires Inv(s) && s.master == 0
    ensures exists t :: CanRun(s, t)
  {
    assert |Players(s.pc, Master)| > 0;
    var t :| t in Players(s.pc, Master);
    InMasterRuns(s, t);
  }

  /** A thread outside the master lock can move when that lock is free and it is not blocked. */
  lemma UnblockedRuns(s: State, t: nat)
    requires Inv(s) && s.master == 1 && t < |s.pc| && s.pc[t].at != Idle && s.pc[t].at != Holding
    requires s.pc[t].at == Down && s.pc[t].ff < |s.entries| ==> s.entries[s.pc[t].ff].val > 0
    ensures CanRun(s, t)
  {
    assert PcOk(s.list, s.entries, s.pc[t]);
  }

  /** Only a holder of the same entry can block a thread on the entry's semaphore. */
  lemma BlockedByHolder(s: State, t: nat)
    requires Inv(s) && t < |s.pc| && s.pc[t].at == Down && s.pc[t].ff < |s.entries|
    requires s.entries[s.pc[t].ff].val <= 0
    ensures exists u :: 0 <= u < |s.pc| && Holds(s.pc[u].at) && s.pc[u].ff == s.pc[t].ff
  {
    assert EntryOk(s, s.pc[t].ff);
    var u :| u in Players(s.pc, Holder(s.pc[t].ff));
  }

  /** No deadlock: while no caller keeps a file locked, a thread inside a call can move. */
  lemma SomeThreadMoves(pool: nat, threads: nat, acts: seq<Action>, trace: seq<State>, n: nat, t: nat)
    requires IsRun(pool, threads, acts, trace) && n < |trace| && t < |trace[n].pc|
    requires trace[n].pc[t].at != Idle && forall u :: 0 <= u < |trace[n].pc| ==> trace[n].pc[u].at != Holding
    ensures exists u :: CanRun(trace[n], u)
  {
    var s := trace[n];
    RunInv(pool, threads, acts, trace, n);
    if s.master == 0 {
      MasterHolderRuns(s);
    } else if s.pc[t].at == Down && s.pc[t].ff < |s.entries| && s.entries[s.pc[t].ff].val <= 0 {
      BlockedByHolder(s, t);
      var u :| 0 <= u < |s.pc| && Holds(s.pc[u].at) && s.pc[u].ff == s.pc[t].ff;
      UnblockedRuns(s, u);
    } else {
      UnblockedRuns(s, t);
    }
  }

  /** The reference count is one exactly when its user is alone. */
  lemma SoleUser(s: State, t: nat, e: EntryId)
    requires Inv(s) && t < |s.pc| && e < |s.entries| && e in s.list && Plays(s.pc[t], User(e))
    ensures s.entries[e].refs != 1 <==> exists u: nat :: u in Players(s.pc, User(e)) && u != t
  {
    assert s.entries[e].refs == |Players(s.pc, User(e))| by {
      assert EntryOk(s, e);
    }
    assert t in Players(s.pc, User(e));
    AloneIn(Players(s.pc, User(e)), t);
  }

  predicate Stands(s: State, t: nat, at: At) {
    t < |s.pc| && s.pc[t].at == at
  }

  /** Another thread references the entry of thread `t`. */
  ghost predicate SharesEntry(s: State, t: nat) {
    t < |s.pc| && exists u: nat :: u in Players(s.pc, User(s.pc[t].ff)) && u != t
  }

  /** A trylock that lost the race gives up exactly when another thread references the entry. */
  lemma TrylockGivesUp(s: State, t: nat, s': State)
    requires Inv(s) && CanRun(s, t) && s.pc[t].at == Check && s' == Run(s, t)
    ensures Stands(s', t, LeaveFailed) <==> SharesEntry(s, t)
  {
    assert PcOk(s.list, s.entries, s.pc[t]);
    SoleUser(s, t, s.pc[t].ff);
  }
}
