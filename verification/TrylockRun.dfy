/** A run of filelock.c in which a trylock waits for the lock of another thread. */
module TrylockRun {
  import opened Counting
  import opened Options
  import opened FileLock
  import opened FileLockRuns
  import Calls = FileLockCalls

  ghost predicate TryAt(acts: seq<Action>, trace: seq<State>, i: nat) {
    && IsRun(1, 2, acts, trace) && i < |acts| && acts[i] == Lock(1, 7, true)
    && forall j :: i < j < |acts| ==> !(acts[j].Lock? && acts[j].t == 1)
  }

  predicate SameParts(r: State, s: State) {
    r.list == s.list && r.free == s.free && r.entries == s.entries && r.master == s.master && r.pc == s.pc
  }

  lemma ExtendTry(acts: seq<Action>, trace: seq<State>, i: nat, a: Action, s: State)
    returns (acts': seq<Action>, trace': seq<State>)
    requires TryAt(acts, trace, i) && Enabled(trace[|acts|], a) && !(a.Lock? && a.t == 1)
    requires SameParts(Step(trace[|acts|], a), s)
    ensures TryAt(acts', trace', i) && |trace'| == |acts'| + 1 && trace'[|acts'|] == s
  {
    acts', trace' := Extend(1, 2, acts, trace, a, s);
  }

  function One(refs: int, val: int, master: int, a: At, b: At): State {
    State([0], [], [Entry(7, refs, val)], master, [Pc(a, 7, false, false, 0, false), Pc(b, 7, true, false, 0, false)])
  }

  lemma OneFound(s: State)
    requires s.list == [0] && |s.entries| == 1 && s.entries[0].hash == 7
    ensures Lookup(s.list, s.entries, 7) == Some(0)
  {
  }

  /** Thread 0 has the lock, and thread 1 has asked for it without waiting. */
  lemma TryStarts() returns (acts: seq<Action>, trace: seq<State>, i: nat)
    ensures TryAt(acts, trace, i) && |trace| == |acts| + 1 && trace[|acts|] == One(1, 0, 1, Holding, Start)
  {
    var s0 := Init(1, 2);
    acts, trace := [], [s0];
    acts, trace := ExtendLock(1, 2, acts, trace, 0, 7);
    var s1 := State([0], [], [Entry(7, 1, 0)], 1, [Pc(Holding, 7, false, false, 0, false), Pc(Idle, 0, false, false, 0, false)]);
    assert Locked(s0, 0, 7) == s1 by {
      assert s0.free == [0] && s0.free[1..] == [] && [0] + s0.list == [0];
      assert Locked(s0, 0, 7).entries == s1.entries && Locked(s0, 0, 7).pc == s1.pc;
    }
    i := |acts|;
    var s2 := One(1, 0, 1, Holding, Start);
    assert Step(s1, Lock(1, 7, true)).pc == s2.pc;
    acts, trace := acts + [Lock(1, 7, true)], trace + [s2];
  }

  lemma TryReferences() returns (acts: seq<Action>, trace: seq<State>, i: nat)
    ensures TryAt(acts, trace, i) && |trace| == |acts| + 1 && trace[|acts|] == One(2, 0, 0, Holding, Leave)
  {
    acts, trace, i := TryStarts();
    acts, trace := ExtendTry(acts, trace, i, Move(1), One(1, 0, 0, Holding, Find));
    OneFound(trace[|acts|]);
    acts, trace := ExtendTry(acts, trace, i, Move(1), One(1, 0, 0, Holding, AddRef));
    acts, trace := ExtendTry(acts, trace, i, Move(1), One(2, 0, 0, Holding, Leave));
  }

  /** Thread 1 references the entry and finds the lock taken. */
  lemma TryFindsTaken() returns (acts: seq<Action>, trace: seq<State>, i: nat)
    ensures TryAt(acts, trace, i) && |trace| == |acts| + 1 && trace[|acts|] == One(2, 0, 1, Holding, Recheck)
  {
    acts, trace, i := TryReferences();
    acts, trace := ExtendTry(acts, trace, i, Move(1), One(2, 0, 1, Holding, TryDown));
    acts, trace := ExtendTry(acts, trace, i, Move(1), One(2, 0, 1, Holding, Recheck));
  }

  lemma DropsReference(s: State, r: State)
    requires s == One(2, 0, 0, UnlockFind, Recheck) && r == One(1, 0, 0, UnlockUp, Recheck)
    ensures Enabled(s, Move(0)) && SameParts(Step(s, Move(0)), r)
  {
    OneFound(s);
    var q := s.pc[0].(at := UnlockUp, ff := 0, last := false);
    assert Run(s, 0) == AddRefs(s, 0, q, -1);
    assert AddRefs(s, 0, q, -1).entries == r.entries && AddRefs(s, 0, q, -1).pc == r.pc;
  }

  lemma GivesBack(s: State, r: State)
    requires s == One(1, 0, 0, UnlockUp, Recheck) && r == One(1, 1, 0, UnlockLeave, Recheck)
    ensures Enabled(s, Move(0)) && SameParts(Step(s, Move(0)), r)
  {
    var q := s.pc[0].(at := UnlockLeave);
    assert Run(s, 0) == AddVal(s, 0, q, 1);
    assert AddVal(s, 0, q, 1).entries == r.entries && AddVal(s, 0, q, 1).pc == r.pc;
  }

  lemma UnlockStarts() returns (acts: seq<Action>, trace: seq<State>, i: nat)
    ensures TryAt(acts, trace, i) && |trace| == |acts| + 1 && trace[|acts|] == One(2, 0, 0, UnlockFind, Recheck)
  {
    acts, trace, i := TryFindsTaken();
    acts, trace := ExtendTry(acts, trace, i, Unlock(0), One(2, 0, 1, UnlockStart, Recheck));
    acts, trace := ExtendTry(acts, trace, i, Move(0), One(2, 0, 0, UnlockFind, Recheck));
  }

  lemma ReferenceDropped() returns (acts: seq<Action>, trace: seq<State>, i: nat)
    ensures TryAt(acts, trace, i) && |trace| == |acts| + 1 && trace[|acts|] == One(1, 0, 0, UnlockUp, Recheck)
  {
    acts, trace, i := UnlockStarts();
    DropsReference(trace[|acts|], One(1, 0, 0, UnlockUp, Recheck));
    acts, trace := ExtendTry(acts, trace, i, Move(0), One(1, 0, 0, UnlockUp, Recheck));
  }

  lemma LockGivenBack() returns (acts: seq<Action>, trace: seq<State>, i: nat)
    ensures TryAt(acts, trace, i) && |trace| == |acts| + 1 && trace[|acts|] == One(1, 1, 0, UnlockLeave, Recheck)
  {
    acts, trace, i := ReferenceDropped();
    GivesBack(trace[|acts|], One(1, 1, 0, UnlockLeave, Recheck));
    acts, trace := ExtendTry(acts, trace, i, Move(0), One(1, 1, 0, UnlockLeave, Recheck));
  }

  /** Thread 0 has unlocked, and thread 1 is alone with the entry. */
  lemma TryAlone() returns (acts: seq<Action>, trace: seq<State>, i: nat)
    ensures TryAt(acts, trace, i) && |trace| == |acts| + 1 && trace[|acts|] == One(1, 1, 1, Idle, Recheck)
  {
    acts, trace, i := LockGivenBack();
    acts, trace := ExtendTry(acts, trace, i, Move(0), One(1, 1, 1, Idle, Recheck));
  }

  /** It decides to grab the lock, but thread 0 asks for it again. */
  lemma TryDecides() returns (acts: seq<Action>, trace: seq<State>, i: nat)
    ensures TryAt(acts, trace, i) && |trace| == |acts| + 1 && trace[|acts|] == One(1, 1, 1, Start, Down)
  {
    acts, trace, i := TryAlone();
    acts, trace := ExtendTry(acts, trace, i, Move(1), One(1, 1, 0, Idle, Check));
    acts, trace := ExtendTry(acts, trace, i, Move(1), One(1, 1, 0, Idle, LeaveToGrab));
    acts, trace := ExtendTry(acts, trace, i, Move(1), One(1, 1, 1, Idle, Down));
    acts, trace := ExtendTry(acts, trace, i, Lock(0, 7, false), One(1, 1, 1, Start, Down));
  }

  lemma OtherReferences() returns (acts: seq<Action>, trace: seq<State>, i: nat)
    ensures TryAt(acts, trace, i) && |trace| == |acts| + 1 && trace[|acts|] == One(2, 1, 1, Down, Down)
  {
    acts, trace, i := TryDecides();
    acts, trace := ExtendTry(acts, trace, i, Move(0), One(1, 1, 0, Find, Down));
    OneFound(trace[|acts|]);
    acts, trace := ExtendTry(acts, trace, i, Move(0), One(1, 1, 0, AddRef, Down));
    acts, trace := ExtendTry(acts, trace, i, Move(0), One(2, 1, 0, Leave, Down));
    acts, trace := ExtendTry(acts, trace, i, Move(0), One(2, 1, 1, Down, Down));
  }

  lemma OtherAhead() returns (acts: seq<Action>, trace: seq<State>, i: nat)
    ensures TryAt(acts, trace, i) && |trace| == |acts| + 1 && trace[|acts|] == One(2, 0, 1, Holding, Down)
  {
    acts, trace, i := OtherReferences();
    acts, trace := ExtendTry(acts, trace, i, Move(0), One(2, 0, 1, Holding, Down));
  }

  /** A trylock can wait: here thread 0 gets in between the check and the down of thread 1, which is
      then blocked on the semaphore that thread 0 holds. */
  lemma TrylockCanWait() returns (acts: seq<Action>, trace: seq<State>, i: nat)
    ensures IsRun(1, 2, acts, trace) && Calls.LastLock(acts, i, |acts|, 1) && acts[i] == Lock(1, 7, true)
    ensures var s := trace[|acts|];
      |s.pc| == 2 && s.pc[1].at == Down && !CanRun(s, 1) && s.pc[0].at == Holding && s.pc[0].h == s.pc[1].h
  {
    acts, trace, i := OtherAhead();
  }
}
