/** The table of filelock.c in place: the active list, the free list and the pool of entries,
    as the code under the master lock changes them, and the proof that those sections do
    what the steps of module FileLock do one at a time. */
module FileLockTable {
  import opened Counting
  import opened Options
  import opened FileLock

  datatype Table = Table(list: seq<EntryId>, free: seq<EntryId>, entries: seq<Entry>)

  function TableOf(s: State): Table {
    Table(s.list, s.free, s.entries)
  }

  /** The first pass of fio_hash_get and the reference taken after it; None when the pool is
      exhausted. */
  function Reference(t: Table, h: nat): (Table, Option<EntryId>)
    requires forall e :: e in t.free ==> e < |t.entries|
  {
    match Lookup(t.list, t.entries, h)
    case Some(e) => (t.(entries := t.entries[e := t.entries[e].(refs := t.entries[e].refs + 1)]), Some(e))
    case None =>
      if t.free == [] then (t, None)
      else
        var e := t.free[0];
        assert e in t.free;
        (Table([e] + t.list, t.free[1..], t.entries[e := t.entries[e].(hash := h, refs := 1)]), Some(e))
  }

  /** The whole of fio_unlock_file under the master lock. */
  function Release(t: Table, h: nat): (Table, bool) {
    match Lookup(t.list, t.entries, h)
    case None => (t, false)
    case Some(e) =>
      var x := t.entries[e];
      var u := t.(entries := t.entries[e := x.(refs := x.refs - 1, val := x.val + 1)]);
      (if x.refs == 1 then u.(list := Without(t.list, e), free := [e] + t.free) else u, true)
  }

  class FilelockData {
    var list: seq<EntryId>
    var free: seq<EntryId>
    const ffs: array<Entry>

    ghost function View(): Table
      reads this, ffs
    {
      Table(list, free, ffs[..])
    }

    /** fio_filelock_init. */
    constructor (max: nat)
      ensures View() == TableOf(Init(max, 0)) && fresh(ffs)
    {
      list, free := [], [];
      ffs := new Entry[max](i => Entry(0, 0, 1));
      new;
      for i := 0 to max
        invariant list == [] && free == seq(i, k => k) && ffs[..] == seq(max, k => Entry(0, 0, 1))
      {
        free := free + [i];
      }
    }

    /** fio_hash_find: walk the active list. */
    method FioHashFind(h: nat) returns (r: Option<EntryId>)
      ensures r == Lookup(list, ffs[..], h)
    {
      var i := 0;
      while i < |list|
        invariant i <= |list| && Lookup(list, ffs[..], h) == Lookup(list[i..], ffs[..], h)
      {
        if list[i] < ffs.Length && ffs[list[i]].hash == h {
          return Some(list[i]);
        }
        i := i + 1;
      }
      r := None;
    }

    /** Remove one entry from the active list. */
    method Unlink(e: EntryId)
      modifies this`list
      ensures list == Without(old(list), e)
    {
      ghost var l := list;
      var i := 0;
      while i < |list| && list[i] != e
        invariant i <= |list| && list == l
        invariant Without(l, e) == l[..i] + Without(l[i..], e)
      {
        WithoutStep(l, e, i);
        i := i + 1;
      }
      if i < |list| {
        assert l[i..][1..] == l[i + 1..];
        list := list[..i] + list[i + 1..];
      } else {
        assert l[i..] == [] && l[..i] + [] == l;
      }
    }

    /** fio_hash_get without the wait for a free entry, and `references++`. */
    method GetReference(h: nat) returns (ff: Option<EntryId>)
      requires forall e :: e in free ==> e < ffs.Length
      modifies this, ffs
      ensures (View(), ff) == Reference(old(View()), h)
      ensures ff.None? <==> NoHash(old(list), old(ffs[..]), h) && old(free) == []
      ensures if ff.None? then View() == old(View()) else Active(list, ffs[..], h, ff.value)
    {
      ghost var t := View();
      LookupNone(list, ffs[..], h);
      ff := FioHashFind(h);
      if ff.None? {
        if free == [] {
          return None;
        }
        assert free[0] in free;
        ff := Some(free[0]);
        free := free[1..];
        ffs[ff.value] := ffs[ff.value].(hash := h, refs := 0);
        list := [ff.value] + list;
      }
      ffs[ff.value] := ffs[ff.value].(refs := ffs[ff.value].refs + 1);
      assert ffs[..] == Reference(t, h).0.entries;
    }

    /** fio_unlock_file. */
    method UnlockFile(h: nat) returns (found: bool)
      modifies this, ffs
      ensures (View(), found) == Release(old(View()), h)
      ensures found <==> !NoHash(old(list), old(ffs[..]), h)
      ensures !found ==> View() == old(View())
    {
      ghost var t := View();
      LookupNone(list, ffs[..], h);
      var ff := FioHashFind(h);
      if ff.None? {
        return false;
      }
      var e := ff.value;
      ffs[e] := ffs[e].(refs := ffs[e].refs - 1);
      var refs := ffs[e].refs;
      ffs[e] := ffs[e].(val := ffs[e].val + 1);
      assert ffs[..] == Release(t, h).0.entries;
      if refs == 0 {
        Unlink(e);
        free := [e] + free;
      }
      found := true;
    }
  }

  lemma WithoutStep(l: seq<EntryId>, e: EntryId, i: nat)
    requires i < |l| && l[i] != e
    ensures l[..i] + Without(l[i..], e) == l[..i + 1] + Without(l[i + 1..], e)
  {
    assert l[i..][1..] == l[i + 1..];
    assert l[..i] + [l[i]] == l[..i + 1];
  }

  // ----- the sections under the master lock, step by step

  /** Steps of thread `t`, one after the other. */
  ghost predicate Walk(t: nat, states: seq<State>) {
    && states != []
    && forall i :: 0 <= i < |states| - 1 ==> CanRun(states[i], t) && states[i + 1] == Run(states[i], t)
  }

  lemma WalkFrom(s: State, t: nat, states: seq<State>)
    requires Walk(t, states) && CanRun(s, t) && states[0] == Run(s, t)
    ensures Walk(t, [s] + states)
  {
    var all := [s] + states;
    forall i | 0 <= i < |all| - 1
      ensures CanRun(all[i], t) && all[i + 1] == Run(all[i], t)
    {
      if i > 0 { assert all[i] == states[i - 1] && all[i + 1] == states[i]; }
    }
  }

  /** The next step inside the master lock. */
  lemma NextRun(s: State, t: nat) returns (s1: State)
    requires Inv(s) && t < |s.pc| && InMaster(s.pc[t].at)
    ensures CanRun(s, t) && s1 == Run(s, t) && Inv(s1)
  {
    assert CanRun(s, t) by {
      assert PcOk(s.list, s.entries, s.pc[t]);
      InMasterRuns(s, t);
    }
    s1 := RunKeeps(s, t);
  }

  function AtUnlockUp(s: State, t: nat): Pc
    requires t < |s.pc| && s.pc[t].ff < |s.entries|
  {
    s.pc[t].(at := UnlockUp, last := s.entries[s.pc[t].ff].refs == 1)
  }

  /** The table and the thread after the steps of an unlock. */
  function AfterUnlock(s: State, t: nat): State
    requires t < |s.pc| && s.pc[t].ff < |s.entries|
  {
    var p := AtUnlockUp(s, t);
    var s2 := AddVal(AddRefs(s, t, p, -1), t, p.(at := if p.last then Recycle else UnlockLeave), 1);
    if p.last then Retire(s2, t, p.(at := UnlockLeave)) else s2
  }

  lemma UnlockFirst(s: State, t: nat) returns (s1: State)
    requires Inv(s) && t < |s.pc| && s.pc[t].at == UnlockFind
    ensures CanRun(s, t) && s1 == Run(s, t) && Inv(s1)
    ensures s.pc[t].ff < |s.entries| && s1 == AddRefs(s, t, AtUnlockUp(s, t), -1)
  {
    s1 := NextRun(s, t);
    UnlockFinds(s, t);
  }

  lemma UnlockSecond(s: State, t: nat) returns (s1: State)
    requires Inv(s) && t < |s.pc| && s.pc[t].at == UnlockUp
    ensures CanRun(s, t) && s1 == Run(s, t) && Inv(s1)
    ensures s1 == AddVal(s, t, s.pc[t].(at := if s.pc[t].last then Recycle else UnlockLeave), 1)
  {
    s1 := NextRun(s, t);
  }

  lemma UnlockThird(s: State, t: nat) returns (s1: State)
    requires Inv(s) && t < |s.pc| && s.pc[t].at == Recycle
    ensures CanRun(s, t) && s1 == Run(s, t) && Inv(s1) && s1 == Retire(s, t, s.pc[t].(at := UnlockLeave))
  {
    s1 := NextRun(s, t);
  }

  /** From the up of the entry's semaphore on. */
  lemma UnlockRest(s: State, t: nat) returns (states: seq<State>)
    requires Inv(s) && t < |s.pc| && s.pc[t].at == UnlockUp && s.pc[t].ff < |s.entries|
    ensures Walk(t, states) && states[0] == s
    ensures var p := s.pc[t];
      var s2 := AddVal(s, t, p.(at := if p.last then Recycle else UnlockLeave), 1);
      states[|states| - 1] == if p.last then Retire(s2, t, p.(at := UnlockLeave)) else s2
  {
    var s1 := UnlockSecond(s, t);
    states := [s1];
    if s.pc[t].last {
      var s2 := UnlockThird(s1, t);
      states := [s1, s2];
    }
    WalkFrom(s, t, states);
    states := [s] + states;
  }

  lemma UnlockWalk(s: State, t: nat) returns (states: seq<State>)
    requires Inv(s) && t < |s.pc| && s.pc[t].at == UnlockFind
    ensures Walk(t, states) && states[0] == s
    ensures s.pc[t].ff < |s.entries| && states[|states| - 1] == AfterUnlock(s, t)
  {
    var s1 := UnlockFirst(s, t);
    var rest := UnlockRest(s1, t);
    WalkFrom(s, t, rest);
    states := [s] + rest;
  }

  lemma AfterUnlockReleases(s: State, t: nat)
    requires t < |s.pc| && Lookup(s.list, s.entries, s.pc[t].h) == Some(s.pc[t].ff)
    ensures t < |AfterUnlock(s, t).pc| && AfterUnlock(s, t).pc[t].at == UnlockLeave
    ensures (TableOf(AfterUnlock(s, t)), true) == Release(TableOf(s), s.pc[t].h)
  {
    var p := AtUnlockUp(s, t);
    var s1 := AddRefs(s, t, p, -1);
    var s2 := AddVal(s1, t, p.(at := if p.last then Recycle else UnlockLeave), 1);
    assert s2.entries == Release(TableOf(s), p.h).0.entries;
  }

  /** The steps of an unlock from its lookup on do what fio_unlock_file does under the master lock:
      the entry its hash finds is the one the thread holds. */
  lemma UnlockSection(s: State, t: nat) returns (states: seq<State>)
    requires Inv(s) && t < |s.pc| && s.pc[t].at == UnlockFind
    ensures Walk(t, states) && states[0] == s
    ensures var last := states[|states| - 1];
      && t < |last.pc| && last.pc[t].at == UnlockLeave
      && (TableOf(last), true) == Release(TableOf(s), s.pc[t].h)
  {
    states := UnlockWalk(s, t);
    UnlockFinds(s, t);
    AfterUnlockReleases(s, t);
  }

  /** The table and the thread after the steps of a lock's first pass, when the lookup found
      `found` or a free entry is there. */
  function AfterLock(s: State, t: nat, found: Option<EntryId>): State
    requires t < |s.pc| && (found.Some? ==> found.value < |s.entries|)
    requires found.None? ==> s.free != [] && s.free[0] < |s.entries|
  {
    var p := s.pc[t];
    match found
    case Some(e) => AddRefs(Goto(s, t, p.(at := AddRef, ff := e)), t, p.(at := Leave, ff := e), 1)
    case None =>
      var q := p.(retry := false, ff := s.free[0]);
      AddRefs(Activate(PopFree(s, t, q.(at := Insert)), t, q.(at := AddRef)), t, q.(at := Leave), 1)
  }

  lemma LockFirst(s: State, t: nat) returns (s1: State)
    requires Inv(s) && t < |s.pc| && s.pc[t].at == Find
    ensures CanRun(s, t) && s1 == Run(s, t) && Inv(s1)
    ensures s1 == match Lookup(s.list, s.entries, s.pc[t].h)
      case Some(e) => Goto(s, t, s.pc[t].(at := AddRef, ff := e))
      case None => Goto(s, t, s.pc[t].(at := Pop, retry := false))
  {
    s1 := NextRun(s, t);
  }

  lemma LockPop(s: State, t: nat) returns (s1: State)
    requires Inv(s) && t < |s.pc| && s.pc[t].at == Pop && !s.pc[t].retry && s.free != []
    ensures CanRun(s, t) && s1 == Run(s, t) && Inv(s1)
    ensures s1 == PopFree(s, t, s.pc[t].(at := Insert, ff := s.free[0]))
  {
    s1 := NextRun(s, t);
  }

  lemma LockInsert(s: State, t: nat) returns (s1: State)
    requires Inv(s) && t < |s.pc| && s.pc[t].at == Insert && s.pc[t].ff < |s.entries|
    ensures CanRun(s, t) && s1 == Run(s, t) && Inv(s1) && s1 == Activate(s, t, s.pc[t].(at := AddRef))
  {
    s1 := NextRun(s, t);
  }

  lemma LockReference(s: State, t: nat) returns (states: seq<State>)
    requires Inv(s) && t < |s.pc| && s.pc[t].at == AddRef && s.pc[t].ff < |s.entries|
    ensures Walk(t, states) && |states| == 2 && states[0] == s
    ensures Inv(states[1]) && states[1] == AddRefs(s, t, s.pc[t].(at := Leave), 1)
  {
    var s1 := NextRun(s, t);
    states := [s, s1];
  }

  lemma ReferenceAfterInsert(s: State, t: nat, a: State)
    requires t < |s.pc| && s.pc[t].ff < |s.entries| && a == Activate(s, t, s.pc[t].(at := AddRef))
    ensures t < |a.pc| && a.pc[t].ff < |a.entries| && a.pc[t] == s.pc[t].(at := AddRef)
    ensures AddRefs(a, t, a.pc[t].(at := Leave), 1) == AddRefs(a, t, s.pc[t].(at := Leave), 1)
  {
  }

  lemma LockInsertWalk(s: State, t: nat) returns (states: seq<State>)
    requires Inv(s) && t < |s.pc| && s.pc[t].at == Insert && s.pc[t].ff < |s.entries|
    ensures Walk(t, states) && states[0] == s
    ensures states[|states| - 1] == AddRefs(Activate(s, t, s.pc[t].(at := AddRef)), t, s.pc[t].(at := Leave), 1)
  {
    var a := LockInsert(s, t);
    ReferenceAfterInsert(s, t, a);
    var rest := LockReference(a, t);
    WalkFrom(s, t, rest);
    states := [s] + rest;
  }

  lemma LockPopWalk(s: State, t: nat) returns (states: seq<State>)
    requires Inv(s) && t < |s.pc| && s.pc[t].at == Pop && !s.pc[t].retry && s.free != [] && s.free[0] < |s.entries|
    ensures Walk(t, states) && states[0] == s
    ensures var q := s.pc[t].(ff := s.free[0]);
      states[|states| - 1]
        == AddRefs(Activate(PopFree(s, t, q.(at := Insert)), t, q.(at := AddRef)), t, q.(at := Leave), 1)
  {
    var s1 := LockPop(s, t);
    var rest := LockInsertWalk(s1, t);
    WalkFrom(s, t, rest);
    states := [s] + rest;
  }

  lemma LockWalkFound(s: State, t: nat, e: EntryId) returns (states: seq<State>)
    requires Inv(s) && t < |s.pc| && s.pc[t].at == Find && Lookup(s.list, s.entries, s.pc[t].h) == Some(e)
    ensures Walk(t, states) && states[0] == s
    ensures e < |s.entries| && states[|states| - 1] == AfterLock(s, t, Some(e))
  {
    var s1 := LockFirst(s, t);
    var rest := LockReference(s1, t);
    WalkFrom(s, t, rest);
    states := [s] + rest;
  }

  lemma LockWalkFree(s: State, t: nat) returns (states: seq<State>)
    requires Inv(s) && t < |s.pc| && s.pc[t].at == Find && Lookup(s.list, s.entries, s.pc[t].h) == None
    requires s.free != [] && s.free[0] < |s.entries|
    ensures Walk(t, states) && states[0] == s && states[|states| - 1] == AfterLock(s, t, None)
  {
    var s1 := LockFirst(s, t);
    var rest := LockPopWalk(s1, t);
    assert rest[|rest| - 1] == AfterLock(s, t, None) by {
      GotoFirst(s, t);
    }
    WalkFrom(s, t, rest);
    states := [s] + rest;
  }

  lemma LockWalk(s: State, t: nat, found: Option<EntryId>) returns (states: seq<State>)
    requires Inv(s) && t < |s.pc| && s.pc[t].at == Find && found == Lookup(s.list, s.entries, s.pc[t].h)
    requires found.None? ==> s.free != [] && s.free[0] < |s.entries|
    ensures Walk(t, states) && states[0] == s && states[|states| - 1] == AfterLock(s, t, found)
  {
    match found
    case Some(e) => states := LockWalkFound(s, t, e);
    case None => states := LockWalkFree(s, t);
  }

  /** Passing through the program point before the pop leaves no trace. */
  lemma GotoFirst(s: State, t: nat)
    requires t < |s.pc| && s.free != [] && s.free[0] < |s.entries|
    ensures var p := s.pc[t];
      var s1, q := Goto(s, t, p.(at := Pop, retry := false)), p.(retry := false, ff := s.free[0]);
      AddRefs(Activate(PopFree(s1, t, q.(at := Insert)), t, q.(at := AddRef)), t, q.(at := Leave), 1)
        == AfterLock(s, t, None)
  {
  }

  lemma AfterLockReferences(s: State, t: nat, found: Option<EntryId>, r: (Table, Option<EntryId>))
    requires t < |s.pc| && found == Lookup(s.list, s.entries, s.pc[t].h)
    requires forall e :: e in s.free ==> e < |s.entries|
    requires found.None? ==> s.free != [] && s.free[0] in s.free
    requires r == Reference(TableOf(s), s.pc[t].h)
    ensures var a := AfterLock(s, t, found);
      TableOf(a) == r.0 && t < |a.pc| && a.pc[t].at == Leave && r.1 == Some(a.pc[t].ff)
  {
    assert AfterLock(s, t, found).entries == r.0.entries;
  }

  /** The steps of a lock from its lookup on do what the first pass of fio_hash_get and the
      reference do, when an entry is found or a free one is there. */
  lemma LockSection(s: State, t: nat) returns (states: seq<State>)
    requires Inv(s) && t < |s.pc| && s.pc[t].at == Find
    requires Lookup(s.list, s.entries, s.pc[t].h).Some? || s.free != []
    ensures Walk(t, states) && states[0] == s && forall e :: e in s.free ==> e < |s.entries|
    ensures var last := states[|states| - 1];
      && t < |last.pc| && last.pc[t].at == Leave
      && (TableOf(last), Some(last.pc[t].ff)) == Reference(TableOf(s), s.pc[t].h)
  {
    var found := Lookup(s.list, s.entries, s.pc[t].h);
    assert s.free != [] ==> s.free[0] in s.free;
    AfterLockReferences(s, t, found, Reference(TableOf(s), s.pc[t].h));
    states := LockWalk(s, t, found);
  }
}
