/** A run of filelock.c in which a thread that waited for a free entry finds its hash added
    meanwhile: the second lookup in fio_hash_get has something to find. */
module FileLockRuns {
  import opened Counting
  import opened Options
  import opened FileLock
  import opened FileLockTable

  lemma Extend(pool: nat, threads: nat, acts: seq<Action>, trace: seq<State>, a: Action, s: State)
    returns (acts': seq<Action>, trace': seq<State>)
    requires IsRun(pool, threads, acts, trace) && Enabled(trace[|acts|], a) && s == Step(trace[|acts|], a)
    ensures IsRun(pool, threads, acts', trace') && acts' == acts + [a] && trace' == trace + [s]
  {
    acts', trace' := acts + [a], trace + [s];
  }

  lemma WalkTail(t: nat, states: seq<State>)
    requires Walk(t, states) && |states| > 1
    ensures Walk(t, states[1..])
  {
    var rest := states[1..];
    forall i | 0 <= i < |rest| - 1
      ensures CanRun(rest[i], t) && rest[i + 1] == Run(rest[i], t)
    {
      var j := i + 1;
      assert CanRun(states[j], t) && states[j + 1] == Run(states[j], t);
    }
  }

  lemma {:induction false} ExtendWalk(pool: nat, threads: nat, acts: seq<Action>, trace: seq<State>, t: nat,
                                      states: seq<State>)
    returns (acts': seq<Action>, trace': seq<State>)
    requires IsRun(pool, threads, acts, trace) && Walk(t, states) && states[0] == trace[|acts|]
    ensures IsRun(pool, threads, acts', trace') && trace'[|acts'|] == states[|states| - 1]
    decreases |states|
  {
    acts', trace' := acts, trace;
    if |states| > 1 {
      assert CanRun(states[0], t) && states[0 + 1] == Run(states[0], t);
      acts', trace' := Extend(pool, threads, acts, trace, Move(t), states[1]);
      var rest := states[1..];
      WalkTail(t, states);
      acts', trace' := ExtendWalk(pool, threads, acts', trace', t, rest);
    }
  }

  // ----- a whole lock of a hash that is not active

  function Locked(s: State, t: nat, h: nat): State
    requires t < |s.pc| && s.free != [] && s.free[0] < |s.entries|
  {
    State([s.free[0]] + s.list, s.free[1..], s.entries[s.free[0] := Entry(h, 1, 0)], 1,
          s.pc[t := Pc(Holding, h, false, false, s.free[0], false)])
  }

  predicate CanLock(s: State, t: nat, h: nat) {
    && t < |s.pc| && s.pc[t].at == Idle && s.master == 1
    && s.free != [] && s.free[0] < |s.entries| && s.entries[s.free[0]].val == 1
    && Lookup(s.list, s.entries, h) == None
  }

  /** The call, and the down of the master lock. */
  lemma Enter(s: State, t: nat, h: nat) returns (s0: State, s1: State)
    requires t < |s.pc| && s.pc[t].at == Idle && s.master == 1
    ensures Enabled(s, Lock(t, h, false)) && s0 == Step(s, Lock(t, h, false))
    ensures CanRun(s0, t) && s1 == Run(s0, t)
    ensures s1 == s.(master := 0, pc := s.pc[t := Pc(Find, h, false, false, 0, false)])
  {
    s0 := Step(s, Lock(t, h, false));
    s1 := Run(s0, t);
    assert s1.pc == s.pc[t := Pc(Find, h, false, false, 0, false)];
  }

  lemma LeaveMaster(s: State, t: nat) returns (s1: State)
    requires t < |s.pc| && s.pc[t].at == Leave && !s.pc[t].trylock && s.pc[t].ff < |s.entries|
    ensures CanRun(s, t) && s1 == Run(s, t)
    ensures s1 == s.(master := s.master + 1, pc := s.pc[t := s.pc[t].(at := Down)])
  {
    s1 := Run(s, t);
  }

  lemma DownEntry(s: State, t: nat) returns (s1: State)
    requires t < |s.pc| && s.pc[t].at == Down && s.pc[t].ff < |s.entries| && s.entries[s.pc[t].ff].val > 0
    ensures CanRun(s, t) && s1 == Run(s, t)
    ensures s1 == AddVal(s, t, s.pc[t].(at := Holding), -1)
  {
    s1 := Run(s, t);
  }

  lemma LockedShape(s: State, s1: State, t: nat, h: nat, a: State, d: State)
    requires CanLock(s, t, h) && s1 == s.(master := 0, pc := s.pc[t := Pc(Find, h, false, false, 0, false)])
    requires a == AfterLock(s1, t, None)
    requires t < |a.pc| && d == a.(master := a.master + 1, pc := a.pc[t := a.pc[t].(at := Down)])
    requires d.pc[t].ff < |d.entries|
    ensures a.pc[t].at == Leave && !a.pc[t].trylock && a.pc[t].ff < |a.entries| && d.entries[d.pc[t].ff].val == 1
    ensures AddVal(d, t, d.pc[t].(at := Holding), -1) == Locked(s, t, h)
  {
    var f := AddVal(d, t, d.pc[t].(at := Holding), -1);
    assert f.entries == Locked(s, t, h).entries && f.pc == Locked(s, t, h).pc;
  }

  lemma ExtendMove(pool: nat, threads: nat, acts: seq<Action>, trace: seq<State>, t: nat, s: State)
    returns (acts': seq<Action>, trace': seq<State>)
    requires IsRun(pool, threads, acts, trace) && CanRun(trace[|acts|], t) && s == Run(trace[|acts|], t)
    ensures IsRun(pool, threads, acts', trace') && trace'[|acts'|] == s
  {
    acts', trace' := Extend(pool, threads, acts, trace, Move(t), s);
  }

  lemma ExtendEnter(pool: nat, threads: nat, acts: seq<Action>, trace: seq<State>, t: nat, h: nat, s1: State)
    returns (acts': seq<Action>, trace': seq<State>)
    requires IsRun(pool, threads, acts, trace) && t < |trace[|acts|].pc|
    requires trace[|acts|].pc[t].at == Idle && trace[|acts|].master == 1
    requires s1 == trace[|acts|].(master := 0, pc := trace[|acts|].pc[t := Pc(Find, h, false, false, 0, false)])
    ensures IsRun(pool, threads, acts', trace') && trace'[|acts'|] == s1
  {
    var s0, r := Enter(trace[|acts|], t, h);
    acts', trace' := Extend(pool, threads, acts, trace, Lock(t, h, false), s0);
    acts', trace' := ExtendMove(pool, threads, acts', trace', t, s1);
  }

  lemma ExtendFirstPass(pool: nat, threads: nat, acts: seq<Action>, trace: seq<State>, t: nat, a: State)
    returns (acts': seq<Action>, trace': seq<State>)
    requires IsRun(pool, threads, acts, trace) && t < |trace[|acts|].pc| && trace[|acts|].pc[t].at == Find
    requires Lookup(trace[|acts|].list, trace[|acts|].entries, trace[|acts|].pc[t].h) == None
    requires trace[|acts|].free != [] && trace[|acts|].free[0] < |trace[|acts|].entries|
    requires a == AfterLock(trace[|acts|], t, None)
    ensures IsRun(pool, threads, acts', trace') && trace'[|acts'|] == a
  {
    RunInv(pool, threads, acts, trace, |acts|);
    var walk := LockWalk(trace[|acts|], t, None);
    acts', trace' := ExtendWalk(pool, threads, acts, trace, t, walk);
  }

  lemma ExtendDown(pool: nat, threads: nat, acts: seq<Action>, trace: seq<State>, t: nat, a: State, d: State)
    returns (acts': seq<Action>, trace': seq<State>)
    requires IsRun(pool, threads, acts, trace) && a == trace[|acts|] && t < |a.pc|
    requires a.pc[t].at == Leave && !a.pc[t].trylock && a.pc[t].ff < |a.entries| && a.entries[a.pc[t].ff].val > 0
    requires d == a.(master := a.master + 1, pc := a.pc[t := a.pc[t].(at := Down)])
    ensures IsRun(pool, threads, acts', trace')
    ensures trace'[|acts'|] == AddVal(d, t, d.pc[t].(at := Holding), -1)
  {
    var l := LeaveMaster(a, t);
    acts', trace' := ExtendMove(pool, threads, acts, trace, t, d);
    var e := DownEntry(d, t);
    acts', trace' := ExtendMove(pool, threads, acts', trace', t, e);
  }

  lemma ExtendLock(pool: nat, threads: nat, acts: seq<Action>, trace: seq<State>, t: nat, h: nat)
    returns (acts': seq<Action>, trace': seq<State>)
    requires IsRun(pool, threads, acts, trace) && CanLock(trace[|acts|], t, h)
    ensures IsRun(pool, threads, acts', trace') && trace'[|acts'|] == Locked(trace[|acts|], t, h)
  {
    var s := trace[|acts|];
    var s1 := s.(master := 0, pc := s.pc[t := Pc(Find, h, false, false, 0, false)]);
    acts', trace' := ExtendEnter(pool, threads, acts, trace, t, h, s1);
    var a := AfterLock(s1, t, None);
    acts', trace' := ExtendFirstPass(pool, threads, acts', trace', t, a);
    assert t < |a.pc| && a.pc[t].ff < |a.entries|;
    var d := a.(master := a.master + 1, pc := a.pc[t := a.pc[t].(at := Down)]);
    LockedShape(s, s1, t, h, a, d);
    acts', trace' := ExtendDown(pool, threads, acts', trace', t, a, d);
  }

  // ----- a whole unlock that recycles the entry

  predicate CanUnlock(s: State, t: nat, f: EntryId) {
    && t < |s.pc| && s.pc[t].at == Holding && s.pc[t].ff == f < |s.entries| && s.master == 1
    && s.entries[f].refs == 1
  }

  function Unlocked(s: State, t: nat, f: EntryId): State
    requires CanUnlock(s, t, f)
  {
    var e := s.entries[f];
    State(Without(s.list, f), [f] + s.free, s.entries[f := e.(refs := 0, val := e.val + 1)], 1,
          s.pc[t := s.pc[t].(at := Idle, last := true)])
  }

  lemma EnterUnlock(s: State, t: nat, f: EntryId) returns (s0: State, s1: State)
    requires CanUnlock(s, t, f)
    ensures Enabled(s, Unlock(t)) && s0 == Step(s, Unlock(t)) && CanRun(s0, t) && s1 == Run(s0, t)
    ensures s1 == s.(master := 0, pc := s.pc[t := s.pc[t].(at := UnlockFind)])
  {
    s0 := Step(s, Unlock(t));
    s1 := Run(s0, t);
    assert s1.pc == s.pc[t := s.pc[t].(at := UnlockFind)];
  }

  lemma LeaveUnlock(s: State, t: nat) returns (s1: State)
    requires t < |s.pc| && s.pc[t].at == UnlockLeave
    ensures CanRun(s, t) && s1 == Run(s, t)
    ensures s1 == s.(master := s.master + 1, pc := s.pc[t := s.pc[t].(at := Idle)])
  {
    s1 := Run(s, t);
  }

  lemma UnlockedShape(s: State, s1: State, t: nat, f: EntryId, a: State)
    requires CanUnlock(s, t, f) && s1 == s.(master := 0, pc := s.pc[t := s.pc[t].(at := UnlockFind)])
    requires a == AfterUnlock(s1, t)
    ensures t < |a.pc| && a.pc[t].at == UnlockLeave
    ensures a.(master := a.master + 1, pc := a.pc[t := a.pc[t].(at := Idle)]) == Unlocked(s, t, f)
  {
    var l := a.(master := a.master + 1, pc := a.pc[t := a.pc[t].(at := Idle)]);
    assert l.entries == Unlocked(s, t, f).entries && l.pc == Unlocked(s, t, f).pc;
  }

  lemma ExtendEnterUnlock(pool: nat, threads: nat, acts: seq<Action>, trace: seq<State>, t: nat, f: EntryId, s1: State)
    returns (acts': seq<Action>, trace': seq<State>)
    requires IsRun(pool, threads, acts, trace) && CanUnlock(trace[|acts|], t, f)
    requires s1 == trace[|acts|].(master := 0, pc := trace[|acts|].pc[t := trace[|acts|].pc[t].(at := UnlockFind)])
    ensures IsRun(pool, threads, acts', trace') && trace'[|acts'|] == s1
  {
    var s0, r := EnterUnlock(trace[|acts|], t, f);
    acts', trace' := Extend(pool, threads, acts, trace, Unlock(t), s0);
    acts', trace' := ExtendMove(pool, threads, acts', trace', t, s1);
  }

  lemma ExtendRelease(pool: nat, threads: nat, acts: seq<Action>, trace: seq<State>, t: nat)
    returns (acts': seq<Action>, trace': seq<State>)
    requires IsRun(pool, threads, acts, trace) && t < |trace[|acts|].pc| && trace[|acts|].pc[t].at == UnlockFind
    requires trace[|acts|].pc[t].ff < |trace[|acts|].entries|
    ensures IsRun(pool, threads, acts', trace') && trace'[|acts'|] == AfterUnlock(trace[|acts|], t)
  {
    RunInv(pool, threads, acts, trace, |acts|);
    var walk := UnlockWalk(trace[|acts|], t);
    acts', trace' := ExtendWalk(pool, threads, acts, trace, t, walk);
  }

  lemma ExtendUnlock(pool: nat, threads: nat, acts: seq<Action>, trace: seq<State>, t: nat, f: EntryId)
    returns (acts': seq<Action>, trace': seq<State>)
    requires IsRun(pool, threads, acts, trace) && CanUnlock(trace[|acts|], t, f)
    ensures IsRun(pool, threads, acts', trace') && trace'[|acts'|] == Unlocked(trace[|acts|], t, f)
  {
    var s := trace[|acts|];
    var s1 := s.(master := 0, pc := s.pc[t := s.pc[t].(at := UnlockFind)]);
    acts', trace' := ExtendEnterUnlock(pool, threads, acts, trace, t, f, s1);
    acts', trace' := ExtendRelease(pool, threads, acts', trace', t);
    var a := AfterUnlock(s1, t);
    UnlockedShape(s, s1, t, f, a);
    var l := LeaveUnlock(a, t);
    acts', trace' := ExtendMove(pool, threads, acts', trace', t, l);
  }

  // ----- the run

  const IDLE := Pc(Idle, 0, false, false, 0, false)
  const FREE_ENTRY := Entry(0, 0, 1)

  function Has(t: nat, h: nat, f: EntryId): Pc {
    Pc(Holding, h, false, false, f, false)
  }

  /** Threads 0 and 1 hold the only two entries. */
  lemma TwoHold() returns (acts: seq<Action>, trace: seq<State>)
    ensures IsRun(2, 3, acts, trace)
    ensures trace[|acts|] == State([1, 0], [], [Entry(1, 1, 0), Entry(3, 1, 0)], 1, [Has(0, 1, 0), Has(1, 3, 1), IDLE])
  {
    var s0 := State([], [0, 1], [FREE_ENTRY, FREE_ENTRY], 1, [IDLE, IDLE, IDLE]);
    acts, trace := [], [s0];
    assert s0 == Init(2, 3);
    acts, trace := ExtendLock(2, 3, acts, trace, 0, 1);
    var s1 := State([0], [1], [Entry(1, 1, 0), FREE_ENTRY], 1, [Has(0, 1, 0), IDLE, IDLE]);
    assert Locked(s0, 0, 1) == s1 by { assert [0] + s0.list == s1.list && s0.free[1..] == s1.free; }
    assert Lookup(s1.list, s1.entries, 3) == None;
    acts, trace := ExtendLock(2, 3, acts, trace, 1, 3);
    var s2 := State([1, 0], [], [Entry(1, 1, 0), Entry(3, 1, 0)], 1, [Has(0, 1, 0), Has(1, 3, 1), IDLE]);
    assert Locked(s1, 1, 3) == s2 by { assert [1] + s1.list == s2.list && s1.free[1..] == s2.free; }
  }

  const NAPPING := Pc(Nap, 2, false, false, 0, false)

  /** Thread 2 wants a third hash and waits for a free entry. */
  lemma ThirdNaps() returns (acts: seq<Action>, trace: seq<State>)
    ensures IsRun(2, 3, acts, trace)
    ensures trace[|acts|]
      == State([1, 0], [], [Entry(1, 1, 0), Entry(3, 1, 0)], 1, [Has(0, 1, 0), Has(1, 3, 1), NAPPING])
  {
    acts, trace := TwoHold();
    var s := trace[|acts|];
    var s0, s1 := Enter(s, 2, 2);
    acts, trace := Extend(2, 3, acts, trace, Lock(2, 2, false), s0);
    acts, trace := Extend(2, 3, acts, trace, Move(2), s1);
    assert Lookup(s.list[1..], s.entries, 2) == None && s.list[1..] == [0];
    assert Lookup(s.list, s.entries, 2) == None;
    var popping := s1.(pc := s1.pc[2 := Pc(Pop, 2, false, false, 0, false)]);
    assert CanRun(s1, 2) && Run(s1, 2) == popping;
    acts, trace := Extend(2, 3, acts, trace, Move(2), popping);
    var napping := s1.(master := 1, pc := s1.pc[2 := NAPPING]);
    assert CanRun(popping, 2) && Run(popping, 2).pc == napping.pc;
    acts, trace := Extend(2, 3, acts, trace, Move(2), napping);
    assert napping.pc == [Has(0, 1, 0), Has(1, 3, 1), NAPPING];
  }

  const DONE0 := Pc(Idle, 1, false, false, 0, true)
  const DONE1 := Pc(Idle, 3, false, false, 1, true)

  /** Thread 0 gives its entry back and takes it again for the hash that thread 2 waits with. */
  lemma HashTaken() returns (acts: seq<Action>, trace: seq<State>)
    ensures IsRun(2, 3, acts, trace)
    ensures trace[|acts|] == State([0, 1], [], [Entry(2, 1, 0), Entry(3, 1, 0)], 1, [Has(0, 2, 0), Has(1, 3, 1), NAPPING])
  {
    acts, trace := ThirdNaps();
    var s0 := trace[|acts|];
    acts, trace := ExtendUnlock(2, 3, acts, trace, 0, 0);
    var s1 := State([1], [0], [Entry(1, 0, 1), Entry(3, 1, 0)], 1, [DONE0, Has(1, 3, 1), NAPPING]);
    assert Unlocked(s0, 0, 0) == s1 by {
      assert s0.list[1..] == [0] && s0.list[1..][1..] == [];
      assert Without(s0.list, 0) == [1] + Without([0], 0) == [1];
      assert [0] + s0.free == s1.free;
      assert Unlocked(s0, 0, 0).pc == s1.pc && Unlocked(s0, 0, 0).entries == s1.entries;
    }
    assert Lookup(s1.list, s1.entries, 2) == None;
    acts, trace := ExtendLock(2, 3, acts, trace, 0, 2);
    var s2 := State([0, 1], [], [Entry(2, 1, 0), Entry(3, 1, 0)], 1, [Has(0, 2, 0), Has(1, 3, 1), NAPPING]);
    assert Locked(s1, 0, 2) == s2 by { assert [0] + s1.list == s2.list && s1.free[1..] == s2.free; }
  }

  /** Thread 1 frees the other entry. */
  lemma OtherFreed() returns (acts: seq<Action>, trace: seq<State>)
    ensures IsRun(2, 3, acts, trace)
    ensures trace[|acts|] == State([0], [1], [Entry(2, 1, 0), Entry(3, 0, 1)], 1, [Has(0, 2, 0), DONE1, NAPPING])
  {
    acts, trace := HashTaken();
    var s0 := trace[|acts|];
    acts, trace := ExtendUnlock(2, 3, acts, trace, 1, 1);
    var s1 := State([0], [1], [Entry(2, 1, 0), Entry(3, 0, 1)], 1, [Has(0, 2, 0), DONE1, NAPPING]);
    assert Unlocked(s0, 1, 1) == s1 by {
      assert s0.list[1..] == [1] && Without([1], 1) == [];
      assert Without(s0.list, 1) == [0] + Without([1], 1) == [0];
      assert [1] + s0.free == s1.free;
      assert Unlocked(s0, 1, 1).pc == s1.pc && Unlocked(s0, 1, 1).entries == s1.entries;
    }
  }

  /** Thread 2 wakes up and pops that entry for a hash that is on the active list, so only the
      second lookup keeps it from adding the hash twice. */
  lemma RefindMeetsHash() returns (acts: seq<Action>, trace: seq<State>)
    ensures IsRun(2, 3, acts, trace)
    ensures var s := trace[|acts|];
      CanRun(s, 2) && s.pc[2].at == Refind && !NoHash(s.list, s.entries, s.pc[2].h)
  {
    acts, trace := OtherFreed();
    var s1 := trace[|acts|];
    var s2 := s1.(master := 0, pc := s1.pc[2 := NAPPING.(at := Pop, retry := true)]);
    assert CanRun(s1, 2) && Run(s1, 2) == s2;
    acts, trace := ExtendMove(2, 3, acts, trace, 2, s2);
    var s3 := s2.(free := [], pc := s2.pc[2 := NAPPING.(at := Refind, retry := true, ff := 1)]);
    assert CanRun(s2, 2) && Run(s2, 2).free == s3.free && Run(s2, 2).pc == s3.pc;
    acts, trace := ExtendMove(2, 3, acts, trace, 2, s3);
    assert Active(s3.list, s3.entries, 2, 0);
  }
}
