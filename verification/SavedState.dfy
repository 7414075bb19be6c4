/** Saving the verify state while writes are in flight: get_all_io_list (verify.c) copies the
    slots of the in-flight log one at a time and loads inflight_issued, concurrently with
    log_inflight, which stores a slot and then publishes the count, and with
    invalidate_inflight.  verify_state_should_stop later reads what was saved. */
module SavedState {
  import opened Options

  /** The reader's order of loads: the source copies the slots first. */
  datatype Order = SlotsFirst | IssuedFirst

  /** `base` is the count at the last clear; `mid` says that log_inflight has stored the slot of
      write number `issued` but not published it.  `gone` are the invalidated numbers.  `pos`,
      `seen` and `loaded` are the reader's progress.  `late` are the numbers stored into a slot
      the reader had already copied, before it loaded the count. */
  datatype State = State(base: nat, slots: seq<Option<nat>>, issued: nat, mid: bool, gone: set<nat>,
                         pos: nat, seen: set<nat>, loaded: Option<nat>, late: set<nat>)

  datatype Action =
    | Store(slot: nat)
    | Publish
    | Invalidate(slot: nat)
    | CopySlot
    | LoadIssued

  predicate Enabled(o: Order, s: State, a: Action) {
    match a
    case Store(i) => i < |s.slots| && s.slots[i].None? && !s.mid
    case Publish => s.mid
    case Invalidate(i) => i < |s.slots| && s.slots[i].Some? && !s.mid
    case CopySlot => s.pos < |s.slots| && (o == IssuedFirst ==> s.loaded.Some?)
    case LoadIssued => s.loaded.None? && (o == SlotsFirst ==> s.pos == |s.slots|)
  }

  function Step(o: Order, s: State, a: Action): State
    requires Enabled(o, s, a)
  {
    match a
    case Store(i) =>
      s.(slots := s.slots[i := Some(s.issued)], mid := true,
         late := if i < s.pos && s.loaded.None? then s.late + {s.issued} else s.late)
    case Publish => s.(issued := s.issued + 1, mid := false)
    case Invalidate(i) => s.(slots := s.slots[i := None], gone := s.gone + {s.slots[i].value})
    case CopySlot =>
      s.(pos := s.pos + 1, seen := if s.slots[s.pos].Some? then s.seen + {s.slots[s.pos].value} else s.seen)
    case LoadIssued => s.(loaded := Some(s.issued))
  }

  function Cleared(base: nat, depth: nat): State {
    State(base, seq(depth, i => None), base, false, {}, 0, {}, None, {})
  }

  ghost predicate IsRun(o: Order, base: nat, depth: nat, acts: seq<Action>, trace: seq<State>) {
    && |trace| == |acts| + 1 && trace[0] == Cleared(base, depth)
    && forall i :: 0 <= i < |acts| ==> Enabled(o, trace[i], acts[i]) && trace[i + 1] == Step(o, trace[i], acts[i])
  }

  predicate Saved(s: State) {
    s.pos == |s.slots| && s.loaded.Some?
  }

  /** verify_state_should_stop on the saved state. */
  predicate ShouldStop(s: State, n: nat)
    requires Saved(s)
  {
    n >= s.loaded.value || n in s.seen
  }

  /** Write number `n` sits in a slot at or after `from`. */
  ghost predicate InSlot(s: State, n: nat, from: nat) {
    exists i :: from <= i < |s.slots| && s.slots[i] == Some(n)
  }

  /** The numbers whose slot has been stored since the clear. */
  predicate Stored(s: State, n: nat) {
    s.base <= n && (n < s.issued || (n == s.issued && s.mid))
  }

  ghost predicate Inv(o: Order, s: State) {
    && s.base <= s.issued && s.pos <= |s.slots|
    && (forall i :: 0 <= i < |s.slots| && s.slots[i].Some? ==> Stored(s, s.slots[i].value))
    && (forall i, j :: 0 <= i < j < |s.slots| && s.slots[i].Some? ==> s.slots[i] != s.slots[j])
    && (forall n :: n in s.gone || n in s.late || n in s.seen ==> Stored(s, n))
    && (s.loaded.Some? ==> s.base <= s.loaded.value <= s.issued)
    && (s.loaded.Some? && o == SlotsFirst ==> s.pos == |s.slots|)
    && (s.loaded.None? && o == IssuedFirst ==> s.pos == 0)
    && (o == IssuedFirst ==> s.late == {})
    && s.late !! s.seen
    && (forall n :: Stored(s, n) ==> Tracked(s, n))
  }

  /** Where a stored number may be: already saved, invalidated, ahead of the reader, stored
      behind the reader's back, or numbered after the count was loaded. */
  ghost predicate Tracked(s: State, n: nat) {
    && (n in s.seen || n in s.gone || InSlot(s, n, s.pos) || n in s.late || (s.loaded.Some? && n >= s.loaded.value))
    && (n in s.gone || InSlot(s, n, 0))
    && (n in s.late ==> !InSlot(s, n, s.pos))
    && (n in s.gone ==> !InSlot(s, n, 0))
  }

  lemma StoreKeeps(o: Order, s: State, i: nat)
    requires Inv(o, s) && Enabled(o, s, Store(i))
    ensures Inv(o, Step(o, s, Store(i)))
  {
    var t := Step(o, s, Store(i));
    assert t.slots[i] == Some(s.issued);
    assert !Stored(s, s.issued);
    forall n | Stored(t, n)
      ensures Tracked(t, n)
    {
      if n != s.issued {
        assert Stored(s, n) && Tracked(s, n);
        assert forall k :: 0 <= k < |s.slots| && s.slots[k] == Some(n) ==> t.slots[k] == Some(n);
        assert forall k :: 0 <= k < |s.slots| && t.slots[k] == Some(n) ==> s.slots[k] == Some(n);
      }
    }
  }

  lemma InvalidateKeeps(o: Order, s: State, i: nat)
    requires Inv(o, s) && Enabled(o, s, Invalidate(i))
    ensures Inv(o, Step(o, s, Invalidate(i)))
  {
    var t := Step(o, s, Invalidate(i));
    assert Stored(s, s.slots[i].value);
    forall n | Stored(t, n)
      ensures Tracked(t, n)
    {
      assert Stored(s, n) && Tracked(s, n);
      if n != s.slots[i].value {
        assert forall k :: 0 <= k < |s.slots| && s.slots[k] == Some(n) ==> t.slots[k] == Some(n);
        assert forall k :: 0 <= k < |s.slots| && t.slots[k] == Some(n) ==> s.slots[k] == Some(n);
      }
    }
  }

  lemma CopyKeeps(o: Order, s: State)
    requires Inv(o, s) && Enabled(o, s, CopySlot)
    ensures Inv(o, Step(o, s, CopySlot))
  {
    var t := Step(o, s, CopySlot);
    forall n | Stored(t, n)
      ensures Tracked(t, n)
    {
      assert Stored(s, n) && Tracked(s, n);
    }
    if s.slots[s.pos].Some? {
      var n := s.slots[s.pos].value;
      assert Stored(s, n) && Tracked(s, n) && InSlot(s, n, s.pos);
    }
  }

  lemma StepKeeps(o: Order, s: State, a: Action)
    requires Inv(o, s) && Enabled(o, s, a)
    ensures Inv(o, Step(o, s, a))
  {
    match a
    case Store(i) => StoreKeeps(o, s, i);
    case Publish =>
      var t := Step(o, s, a);
      assert forall n :: Stored(t, n) <==> Stored(s, n);
      assert forall n :: Stored(s, n) ==> Tracked(s, n);
      assert forall n :: Stored(s, n) ==> Tracked(t, n);
    case Invalidate(i) => InvalidateKeeps(o, s, i);
    case CopySlot => CopyKeeps(o, s);
    case LoadIssued =>
      var t := Step(o, s, a);
      assert forall n :: Stored(s, n) ==> Tracked(s, n);
      assert forall n :: Stored(s, n) ==> Tracked(t, n);
  }

  lemma {:induction false} RunInv(o: Order, base: nat, depth: nat, acts: seq<Action>, trace: seq<State>, n: nat)
    requires IsRun(o, base, depth, acts, trace) && n < |trace|
    ensures Inv(o, trace[n]) && trace[n].base == base
  {
    if n > 0 {
      RunInv(o, base, depth, acts, trace, n - 1);
      assert Enabled(o, trace[n - 1], acts[n - 1]);
      StepKeeps(o, trace[n - 1], acts[n - 1]);
    }
  }

  /** The saved state lets verification go past write `n` although `n` was not complete. */
  predicate Missed(s: State, n: nat)
    requires Saved(s)
  {
    s.base <= n && !ShouldStop(s, n) && n !in s.gone
  }

  /** A reader that loaded the count before the slots would never miss an incomplete write. */
  lemma IssuedFirstSound(base: nat, depth: nat, acts: seq<Action>, trace: seq<State>, k: nat, n: nat)
    requires IsRun(IssuedFirst, base, depth, acts, trace) && k < |trace| && Saved(trace[k])
    ensures !Missed(trace[k], n)
  {
    RunInv(IssuedFirst, base, depth, acts, trace, k);
    var s := trace[k];
    if base <= n < s.loaded.value {
      assert Stored(s, n) && Tracked(s, n);
    }
  }

  /** The source's reader misses exactly the incomplete writes below the loaded count that
      were stored behind its back. */
  lemma SlotsFirstExact(base: nat, depth: nat, acts: seq<Action>, trace: seq<State>, k: nat, n: nat)
    requires IsRun(SlotsFirst, base, depth, acts, trace) && k < |trace| && Saved(trace[k])
    ensures Missed(trace[k], n) <==> n in trace[k].late && n < trace[k].loaded.value && n !in trace[k].gone
  {
    RunInv(SlotsFirst, base, depth, acts, trace, k);
    var s := trace[k];
    if base <= n < s.loaded.value {
      assert Stored(s, n) && Tracked(s, n);
    }
    if n in s.late {
      assert Stored(s, n);
    }
  }

  /** Writes stored behind the reader's back were published after its first copy: a write that
      was already counted when the copying began is never missed. */
  lemma {:induction false} LateIsRecent(o: Order, base: nat, depth: nat, acts: seq<Action>, trace: seq<State>, k0: nat, k: nat)
    requires IsRun(o, base, depth, acts, trace) && k0 <= k < |trace| && trace[k0].pos == 0 && trace[k0].late == {}
    ensures forall n :: n in trace[k].late ==> n >= trace[k0].issued
    ensures trace[k].issued >= trace[k0].issued
    decreases k
  {
    if k > k0 {
      LateIsRecent(o, base, depth, acts, trace, k0, k - 1);
      assert Enabled(o, trace[k - 1], acts[k - 1]);
    }
  }

  lemma EarlierWritesSafe(base: nat, depth: nat, acts: seq<Action>, trace: seq<State>, k0: nat, k: nat, n: nat)
    requires IsRun(SlotsFirst, base, depth, acts, trace) && k0 <= k < |trace| && Saved(trace[k])
    requires trace[k0].pos == 0 && n < trace[k0].issued
    ensures !Missed(trace[k], n)
  {
    NothingLateBefore(SlotsFirst, base, depth, acts, trace, k0);
    LateIsRecent(SlotsFirst, base, depth, acts, trace, k0, k);
    SlotsFirstExact(base, depth, acts, trace, k, n);
  }

  lemma {:induction false} NothingLateBefore(o: Order, base: nat, depth: nat, acts: seq<Action>, trace: seq<State>, k: nat)
    requires IsRun(o, base, depth, acts, trace) && k < |trace| && trace[k].pos == 0
    ensures trace[k].late == {}
  {
    if k > 0 {
      assert Enabled(o, trace[k - 1], acts[k - 1]);
      NothingLateBefore(o, base, depth, acts, trace, k - 1);
    }
  }

  /** With the source's order a write logged between the copy and the load is missed: it was
      never completed, yet verification goes past it. */
  lemma SlotsFirstMisses() returns (acts: seq<Action>, trace: seq<State>)
    ensures IsRun(SlotsFirst, 0, 1, acts, trace) && Saved(trace[|acts|]) && Missed(trace[|acts|], 0)
  {
    var s0 := Cleared(0, 1);
    var s1 := s0.(pos := 1);
    var s2 := s1.(slots := [Some(0)], mid := true, late := {0});
    var s3 := s2.(issued := 1, mid := false);
    acts, trace := [CopySlot, Store(0), Publish, LoadIssued], [s0, s1, s2, s3, s3.(loaded := Some(1))];
    assert Step(SlotsFirst, s1, Store(0)).slots == [Some(0)];
  }
}
