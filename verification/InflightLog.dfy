/** The log of in-flight writes (backend.c: log_inflight, invalidate_inflight, clear_inflight)
    driven by rounds of do_io, by asynchronous completions, by the clears between loops and by
    resets of the statistics.  A free slot (INVALID_NUMBERIO) is None.  The consistency checks
    that end the program are verdicts. */
module InflightLog {
  import opened Counting
  import opened Options
  import opened UnitQueues

  /** `idx` is inflight_idx (-1 is None), `pattern` the flag PATTERN_DONE; `onFree` says that the
      unit lies on the freelist. */
  datatype WriteUnit = WriteUnit(idx: Option<nat>, numberio: nat, write: bool, pattern: bool, flight: bool, onFree: bool)

  /** `issues` is io_issues[DDIR_WRITE], `issued` is inflight_issued.  `owner` is bookkeeping of
      the model: the unit that stored the number in a slot. */
  datatype Log = Log(slots: seq<Option<nat>>, owner: seq<Option<UnitId>>, next: nat, issued: nat, issues: nat,
                     units: seq<WriteUnit>, ring: seq<UnitId>)

  datatype Verdict = Fine | AlreadySet | NumberMismatch | NoSlot | AlreadyInvalid | EntryMismatch

  predicate Sized(l: Log) {
    && |l.slots| == |l.owner| == |l.units| && (l.slots != [] ==> l.next < |l.slots|)
    && forall u :: u in l.ring ==> u < |l.units|
  }

  /** The circular scan for a free slot, `probes` slots long. */
  function FindFree(slots: seq<Option<nat>>, idx: nat, probes: nat): (r: Option<nat>)
    requires slots != [] ==> idx < |slots|
    requires slots == [] ==> probes == 0
    ensures r.Some? ==> r.value < |slots| && slots[r.value].None?
    decreases probes
  {
    if probes == 0 then None
    else if slots[idx].None? then Some(idx)
    else FindFree(slots, (idx + 1) % |slots|, probes - 1)
  }

  function SetUnit(l: Log, u: UnitId, x: WriteUnit): Log
    requires u < |l.units|
  {
    l.(units := l.units[u := x])
  }

  /** What log_inflight stores when slot `i` is free. */
  function Store(l: Log, u: UnitId, i: nat): Log
    requires u < |l.units| && i < |l.slots| == |l.owner|
  {
    var x := l.units[u];
    SetUnit(l, u, x.(idx := Some(i))).(slots := l.slots[i := Some(x.numberio)], owner := l.owner[i := Some(u)],
                                       next := (i + 1) % |l.slots|, issued := x.numberio + 1)
  }

  /** log_inflight. */
  function LogEntry(l: Log, u: UnitId): (Log, Verdict)
    requires Sized(l) && u < |l.units|
  {
    var x := l.units[u];
    if !x.write then (l, Fine)
    else if x.idx.Some? then (l, AlreadySet)
    else if l.issued != x.numberio then (l, NumberMismatch)
    else match FindFree(l.slots, l.next, |l.slots|)
      case None => (l, NoSlot)
      case Some(i) => (Store(l, u, i), Fine)
  }

  /** invalidate_inflight. */
  function Invalidate(l: Log, u: UnitId): (Log, Verdict)
    requires u < |l.units| && |l.slots| == |l.owner|
  {
    var x := l.units[u];
    if !x.write || x.idx.None? || x.idx.value >= |l.slots| then (l, Fine)
    else if l.slots[x.idx.value].None? then (l, AlreadyInvalid)
    else if l.slots[x.idx.value] != Some(x.numberio) then (l, EntryMismatch)
    else
      (SetUnit(l, u, x.(idx := None)).(slots := l.slots[x.idx.value := None], owner := l.owner[x.idx.value := None]),
       Fine)
  }

  /** clear_inflight. */
  function Clear(l: Log): Log {
    l.(slots := seq(|l.slots|, i => None), owner := seq(|l.slots|, i => None), next := 0, issued := l.issues)
  }

  // ----- the callers

  /** What becomes of the unit taken in one round of do_io: its preparation fails, it is refused
      (by the overlap check or by the engine), queued, moved in part, or completed. */
  datatype Result = PrepFails | Refused | Accepted | Short | Done

  /** ClearLog: clear_io_state between loops and before verification.  ResetStats:
      reset_all_stats at the end of the ramp time or of a latency search. */
  datatype Action =
    | Round(pick: UnitId, write: bool, res: Result)
    | Reaped(u: UnitId, short: bool)
    | ClearLog
    | ResetStats

  /** io_completed: both flags are cleared, then the log entry is invalidated. */
  function Completed(l: Log, u: UnitId): (r: (Log, Verdict))
    requires u < |l.units| && |l.slots| == |l.owner|
    ensures |r.0.units| == |l.units|
  {
    Invalidate(SetUnit(l, u, l.units[u].(flight := false, pattern := false)), u)
  }

  function Free(l: Log, u: UnitId): Log
    requires u < |l.units|
  {
    SetUnit(l, u, l.units[u].(onFree := true))
  }

  function Requeued(l: Log, u: UnitId): Log {
    l.(ring := l.ring + [u])
  }

  function FreeIfFine(r: (Log, Verdict), u: UnitId): (Log, Verdict)
    requires u < |r.0.units|
  {
    if r.1 == Fine then (Free(r.0, u), Fine) else r
  }

  /** The round logs the unit it took. */
  predicate Logs(x: WriteUnit) {
    x.write && !x.pattern
  }

  /** The part of do_io between get_io_u and submission. */
  function Issue(l: Log, u: UnitId): (Log, Verdict)
    requires Sized(l) && u < |l.units|
  {
    var x := l.units[u];
    if Logs(x) then LogEntry(SetUnit(l, u, x.(pattern := true, numberio := l.issues)), u) else (l, Fine)
  }

  /** td_io_queue counts an accepted write. */
  function Count(l: Log, u: UnitId): Log
    requires u < |l.units|
  {
    l.(issues := l.issues + if l.units[u].write then 1 else 0)
  }

  /** io_u_submit and io_queue_event; only writes count in `issues`. */
  function Finish(l: Log, u: UnitId, res: Result): (Log, Verdict)
    requires u < |l.units| && |l.slots| == |l.owner|
  {
    match res
    case PrepFails => (Free(l, u), Fine)
    case Refused => (Requeued(l, u), Fine)
    case Accepted => (SetUnit(Count(l, u), u, l.units[u].(flight := true)), Fine)
    case Short => (Requeued(l, u), Fine)
    case Done => FreeIfFine(Completed(Count(l, u), u), u)
  }

  /** get_io_u: the oldest requeued unit, else a unit of the freelist in the given direction. */
  function Take(l: Log, pick: UnitId, write: bool): (r: (Log, UnitId))
    requires Sized(l) && (l.ring == [] ==> pick < |l.units|)
    ensures Sized(r.0) && r.1 < |r.0.units| == |l.units|
  {
    if l.ring != [] then
      assert l.ring[0] in l.ring && forall u :: u in l.ring[1..] ==> u in l.ring;
      (l.(ring := l.ring[1..]), l.ring[0])
    else (SetUnit(l, pick, l.units[pick].(onFree := false, write := write)), pick)
  }

  predicate Enabled(l: Log, a: Action) {
    Sized(l) && match a
      case Round(pick, _, _) => l.ring == [] ==> pick < |l.units| && l.units[pick].onFree
      case Reaped(u, _) => u < |l.units| && l.units[u].flight
      case ClearLog => true
      case ResetStats => true
  }

  /** One round, one completion, a clear or a reset, and the verdict of its checks. */
  function Step(l: Log, a: Action): (Log, Verdict)
    requires Enabled(l, a)
  {
    match a
    case Round(pick, write, res) =>
      var (m, u) := Take(l, pick, write);
      if res == PrepFails then Finish(m, u, res)
      else
        var (n, v) := Issue(m, u);
        if v == Fine then Finish(n, u, res) else (n, v)
    case Reaped(u, short) =>
      var (m, v) := Completed(l, u);
      if v == Fine && short then (Requeued(m, u), Fine) else FreeIfFine((m, v), u)
    case ClearLog => (Clear(l), Fine)
    case ResetStats => (l.(issues := 0), Fine)
  }

  // ----- invariants of every run

  /** Every unit is on the freelist, in flight, or in the ring, except those in `out`, which
      the job is working on. */
  ghost predicate Located(l: Log, out: set<UnitId>) {
    && NoDup(l.ring)
    && forall v :: 0 <= v < |l.units| ==> Place(l.units[v], v in l.ring, v in out)
  }

  predicate Place(x: WriteUnit, inRing: bool, out: bool) {
    if out then !x.onFree && !x.flight && !inRing
    else if x.onFree then !x.flight && !inRing
    else x.flight != inRing
  }

  /** A marked unit has an index, and a write in flight is marked. */
  predicate UnitOk(slots: nat, x: WriteUnit) {
    && (x.idx.Some? ==> x.idx.value < slots)
    && (x.pattern ==> x.idx.Some?)
    && (x.write && x.flight ==> x.pattern)
  }

  /** An occupied slot has the one owner that stored it, whose index and number match it. */
  predicate SlotOk(slot: Option<nat>, owner: Option<UnitId>, i: nat, units: seq<WriteUnit>) {
    match owner
    case None => slot.None?
    case Some(u) => u < |units| && units[u].idx == Some(i) && slot == Some(units[u].numberio)
  }

  ghost predicate Owned(slots: seq<Option<nat>>, owner: seq<Option<UnitId>>, units: seq<WriteUnit>) {
    && |slots| == |owner|
    && (forall v :: 0 <= v < |units| ==> UnitOk(|slots|, units[v]))
    && (forall i :: 0 <= i < |slots| ==> SlotOk(slots[i], owner[i], i, units))
  }

  ghost predicate Inv(l: Log, out: set<UnitId>) {
    Sized(l) && Located(l, out) && Owned(l.slots, l.owner, l.units)
  }

  /** Marked units that are not in flight: logged writes that `issues` does not count yet. */
  function Pending(units: seq<WriteUnit>): set<UnitId> {
    set v | v in Below(|units|) && units[v].pattern && !units[v].flight
  }

  /** How far the two counters are apart. */
  ghost predicate Counted(l: Log, gap: int) {
    l.issued == l.issues + |Pending(l.units)| + gap
  }

  /** The slot that the unit names is its own. */
  predicate Attached(owner: seq<Option<UnitId>>, units: seq<WriteUnit>, v: UnitId)
    requires v < |units|
  {
    units[v].idx.Some? && units[v].idx.value < |owner| && owner[units[v].idx.value] == Some(v)
  }

  /** The unit may yet invalidate its entry: it is marked, and not in flight as a read. */
  predicate Live(x: WriteUnit) {
    x.pattern && (x.flight ==> x.write)
  }

  /** Every live unit (or, for `all`, every unit with an index) still owns the slot it names. */
  ghost predicate Sound(l: Log, all: bool) {
    forall v :: 0 <= v < |l.units| && (if all then l.units[v].idx.Some? else Live(l.units[v])) ==>
      Attached(l.owner, l.units, v)
  }

  // ----- a free slot is found

  function Dist(n: nat, idx: nat, i: nat): nat
    requires idx < n && i < n
  {
    if idx <= i then i - idx else i + n - idx
  }

  lemma NextSlot(idx: nat, n: nat)
    requires idx < n
    ensures (idx + 1) % n == if idx + 1 == n then 0 else idx + 1
  {
  }

  lemma {:induction false} ScanCovers(slots: seq<Option<nat>>, idx: nat, probes: nat)
    requires idx < |slots| && FindFree(slots, idx, probes).None?
    ensures forall i :: 0 <= i < |slots| && Dist(|slots|, idx, i) < probes ==> slots[i].Some?
    decreases probes
  {
    if probes > 0 {
      NextSlot(idx, |slots|);
      var next := if idx + 1 == |slots| then 0 else idx + 1;
      ScanCovers(slots, next, probes - 1);
      forall i | 0 <= i < |slots| && Dist(|slots|, idx, i) < probes
        ensures slots[i].Some?
      {
        if i != idx {
          assert Dist(|slots|, next, i) == Dist(|slots|, idx, i) - 1;
        }
      }
    }
  }

  /** The slots owned by the first `k` units. */
  function SlotsOf(units: seq<WriteUnit>, k: nat): (r: set<nat>)
    requires k <= |units|
    ensures forall v :: 0 <= v < k && units[v].idx.Some? ==> units[v].idx.value in r
  {
    if k == 0 then {}
    else SlotsOf(units, k - 1) + if units[k - 1].idx.Some? then {units[k - 1].idx.value} else {}
  }

  lemma {:induction false} SlotsOfSize(units: seq<WriteUnit>, k: nat, u: UnitId)
    requires k <= |units| && u < |units| && units[u].idx.None?
    ensures |SlotsOf(units, k)| <= if u < k then k - 1 else k
  {
    if k > 0 {
      SlotsOfSize(units, k - 1, u);
    }
  }

  /** With one unit unlogged, iodepth probes reach a free slot. */
  lemma FreeSlotFound(l: Log, u: UnitId)
    requires Sized(l) && Owned(l.slots, l.owner, l.units) && u < |l.units| && l.units[u].idx.None?
    ensures FindFree(l.slots, l.next, |l.slots|).Some?
  {
    if FindFree(l.slots, l.next, |l.slots|).None? {
      ScanCovers(l.slots, l.next, |l.slots|);
      forall i | i in Below(|l.slots|)
        ensures i in SlotsOf(l.units, |l.units|)
      {
        assert l.slots[i].Some? && SlotOk(l.slots[i], l.owner[i], i, l.units);
        assert l.units[l.owner[i].value].idx == Some(i);
      }
      SubsetSize(Below(|l.slots|), SlotsOf(l.units, |l.units|));
      SlotsOfSize(l.units, |l.units|, u);
    }
  }

  // ----- one unit changes

  lemma PendingAfter(units: seq<WriteUnit>, u: UnitId, x: WriteUnit)
    requires u < |units|
    ensures |Pending(units[u := x])| == |Pending(units)|
      + B(x.pattern && !x.flight) - B(units[u].pattern && !units[u].flight)
  {
    OneMoreOrLess(Pending(units), Pending(units[u := x]), u, units[u].pattern && !units[u].flight,
                  x.pattern && !x.flight);
  }

  /** Changing a unit but not its log entry. */
  lemma OwnedAfter(slots: seq<Option<nat>>, owner: seq<Option<UnitId>>, units: seq<WriteUnit>, u: UnitId, x: WriteUnit)
    requires Owned(slots, owner, units) && u < |units| && UnitOk(|slots|, x)
    requires x.idx == units[u].idx && x.numberio == units[u].numberio
    ensures Owned(slots, owner, units[u := x])
  {
    forall i | 0 <= i < |slots|
      ensures SlotOk(slots[i], owner[i], i, units[u := x])
    {
      assert SlotOk(slots[i], owner[i], i, units);
    }
  }

  /** A unit without an entry gets the free slot `i`. */
  lemma OwnedGain(slots: seq<Option<nat>>, owner: seq<Option<UnitId>>, units: seq<WriteUnit>, u: UnitId, x: WriteUnit,
                  i: nat)
    requires Owned(slots, owner, units) && u < |units| && i < |slots| && slots[i].None?
    requires units[u].idx.None? && x.idx == Some(i) && x.pattern
    ensures Owned(slots[i := Some(x.numberio)], owner[i := Some(u)], units[u := x])
  {
    var s', o' := slots[i := Some(x.numberio)], owner[i := Some(u)];
    forall j | 0 <= j < |s'|
      ensures SlotOk(s'[j], o'[j], j, units[u := x])
    {
      assert SlotOk(slots[j], owner[j], j, units);
    }
  }

  /** Slot `i` is emptied for a unit that named it, whoever owned it. */
  lemma OwnedDrop(slots: seq<Option<nat>>, owner: seq<Option<UnitId>>, units: seq<WriteUnit>, u: UnitId, x: WriteUnit,
                  i: nat)
    requires Owned(slots, owner, units) && u < |units| && i < |slots| && units[u].idx == Some(i)
    requires x.idx.None? && !x.pattern && !x.flight
    ensures Owned(slots[i := None], owner[i := None], units[u := x])
  {
    var s', o' := slots[i := None], owner[i := None];
    forall j | 0 <= j < |s'|
      ensures SlotOk(s'[j], o'[j], j, units[u := x])
    {
      assert SlotOk(slots[j], owner[j], j, units);
    }
  }

  lemma LocatedAfter(l: Log, m: Log, u: UnitId, out: set<UnitId>, out': set<UnitId>)
    requires Located(l, out) && u < |l.units| == |m.units| && NoDup(m.ring)
    requires forall v :: 0 <= v < |l.units| && v != u ==> m.units[v] == l.units[v]
    requires forall v :: v != u ==> (v in m.ring <==> v in l.ring) && (v in out' <==> v in out)
    requires Place(m.units[u], u in m.ring, u in out')
    ensures Located(m, out')
  {
    forall v | 0 <= v < |m.units|
      ensures Place(m.units[v], v in m.ring, v in out')
    {
      if v != u { assert Place(l.units[v], v in l.ring, v in out); }
    }
  }

  /** Which units keep their slots when only unit `u`, and slots not owned by others, change. */
  lemma SoundAfter(l: Log, m: Log, u: UnitId, all: bool)
    requires Sound(l, all) && u < |l.units| == |m.units| && |m.owner| == |l.owner|
    requires forall v :: 0 <= v < |l.units| && v != u ==> m.units[v] == l.units[v]
    requires forall i :: 0 <= i < |l.owner| && l.owner[i].Some? && l.owner[i] != Some(u) ==> m.owner[i] == l.owner[i]
    requires (if all then m.units[u].idx.Some? else Live(m.units[u])) ==> Attached(m.owner, m.units, u)
    ensures Sound(m, all)
  {
    forall v | 0 <= v < |m.units| && (if all then m.units[v].idx.Some? else Live(m.units[v]))
      ensures Attached(m.owner, m.units, v)
    {
      if v != u { assert Attached(l.owner, l.units, v); }
    }
  }

  // ----- the parts of a step

  /** The counters move `gap` further apart, beside the pending writes. */
  ghost predicate Accounted(l: Log, m: Log, gap: int) {
    |m.units| == |l.units| && forall g: int :: Counted(l, g) ==> Counted(m, g + gap)
  }

  /** Nobody who owned a slot has lost it. */
  ghost predicate Guarded(l: Log, m: Log) {
    (Sound(l, false) ==> Sound(m, false)) && (Sound(l, true) ==> Sound(m, true))
  }

  ghost predicate Kept(l: Log, m: Log, gap: int) {
    Accounted(l, m, gap) && Guarded(l, m)
  }

  /** A marked unit that goes out as a read: its logged number is never counted. */
  function Lost(x: WriteUnit, res: Result): int {
    B((res == Accepted || res == Done) && x.pattern && !x.write)
  }

  lemma TakeKeeps(l: Log, pick: UnitId, write: bool) returns (m: Log, u: UnitId)
    requires Inv(l, {}) && Enabled(l, Round(pick, write, Done))
    ensures (m, u) == Take(l, pick, write) && Inv(m, {u}) && u < |m.units| && Kept(l, m, 0)
    ensures m.units[u] == l.units[u].(onFree := false, write := m.units[u].write) && !l.units[u].flight
    ensures m.slots == l.slots && m.owner == l.owner && m.issued == l.issued && m.issues == l.issues
    ensures forall v :: 0 <= v < |l.units| && v != u ==> m.units[v] == l.units[v]
  {
    m, u := Take(l, pick, write).0, Take(l, pick, write).1;
    assert l.ring != [] ==> l.ring[0] in l.ring;
    assert Place(l.units[u], u in l.ring, false) && UnitOk(|l.slots|, l.units[u]);
    assert Owned(m.slots, m.owner, m.units) by {
      OwnedAfter(l.slots, l.owner, l.units, u, m.units[u]);
      assert m.units == l.units[u := m.units[u]];
    }
    if l.ring != [] {
      assert l.ring == [] + [u] + m.ring && m.ring == [] + m.ring;
      RemoveElement([], u, m.ring);
    }
    assert Located(m, {u}) by {
      LocatedAfter(l, m, u, {}, {u});
    }
    TakeCounts(l, m, u);
  }

  lemma TakeCounts(l: Log, m: Log, u: UnitId)
    requires u < |l.units| == |m.units| && m.units == l.units[u := m.units[u]] && m.owner == l.owner
    requires m.units[u] == l.units[u].(onFree := false, write := m.units[u].write) && !l.units[u].flight
    requires m.issued == l.issued && m.issues == l.issues
    ensures Kept(l, m, 0)
  {
    PendingAfter(l.units, u, m.units[u]);
    if Sound(l, false) { SoundAfter(l, m, u, false); }
    if Sound(l, true) { SoundAfter(l, m, u, true); }
  }

  /** The verdict of log_inflight in a round: the slot search never fails. */
  function IssueVerdict(l: Log, x: WriteUnit): Verdict {
    if !Logs(x) then Fine
    else if x.idx.Some? then AlreadySet
    else if l.issued != l.issues then NumberMismatch
    else Fine
  }

  /** The unit and the log after a write was logged in slot `i`. */
  lemma StoreKeeps(l: Log, u: UnitId, i: nat) returns (m: Log)
    requires Inv(l, {u}) && u < |l.units| && Logs(l.units[u]) && l.units[u].idx.None? && l.issued == l.issues
    requires i < |l.slots| && l.slots[i].None?
    ensures m == Store(SetUnit(l, u, l.units[u].(pattern := true, numberio := l.issues)), u, i)
    ensures Inv(m, {u}) && Kept(l, m, 0) && m.units[u].pattern && m.units[u].write && Attached(m.owner, m.units, u)
  {
    var x := l.units[u];
    var y := x.(pattern := true, numberio := l.issues, idx := Some(i));
    m := Store(SetUnit(l, u, x.(pattern := true, numberio := l.issues)), u, i);
    assert m.units == l.units[u := y];
    assert Place(x, u in l.ring, true) && SlotOk(l.slots[i], l.owner[i], i, l.units);
    assert Owned(m.slots, m.owner, m.units) by {
      OwnedGain(l.slots, l.owner, l.units, u, y, i);
    }
    assert Located(m, {u}) by {
      LocatedAfter(l, m, u, {u}, {u});
    }
    assert Sized(m) by {
      NextSlot(i, |l.slots|);
    }
    PendingAfter(l.units, u, y);
    if Sound(l, false) { SoundAfter(l, m, u, false); }
    if Sound(l, true) { SoundAfter(l, m, u, true); }
  }

  lemma IssueKeeps(l: Log, u: UnitId) returns (m: Log)
    requires Inv(l, {u}) && u < |l.units|
    ensures m == Issue(l, u).0 && Issue(l, u).1 == IssueVerdict(l, l.units[u])
    ensures IssueVerdict(l, l.units[u]) == Fine ==>
      && Inv(m, {u}) && Kept(l, m, 0) && m.units[u].write == l.units[u].write
      && (m.units[u].write ==> m.units[u].pattern)
      && (if Logs(l.units[u]) then Attached(m.owner, m.units, u) else m == l)
  {
    var x := l.units[u];
    m := Issue(l, u).0;
    if Logs(x) && x.idx.None? && l.issued == l.issues {
      FreeSlotFound(l, u);
      var n := StoreKeeps(l, u, FindFree(l.slots, l.next, |l.slots|).value);
    }
  }

  lemma FreeKeeps(l: Log, u: UnitId) returns (m: Log)
    requires Inv(l, {u}) && u < |l.units|
    ensures m == Free(l, u) && Inv(m, {}) && Kept(l, m, 0)
  {
    m := Free(l, u);
    assert Place(l.units[u], u in l.ring, true) && UnitOk(|l.slots|, l.units[u]);
    assert Owned(m.slots, m.owner, m.units) by {
      OwnedAfter(l.slots, l.owner, l.units, u, m.units[u]);
    }
    assert Located(m, {}) by {
      LocatedAfter(l, m, u, {u}, {});
    }
    PendingAfter(l.units, u, m.units[u]);
    if Sound(l, false) { SoundAfter(l, m, u, false); }
    if Sound(l, true) { SoundAfter(l, m, u, true); }
  }

  lemma RequeueKeeps(l: Log, u: UnitId) returns (m: Log)
    requires Inv(l, {u}) && u < |l.units|
    ensures m == Requeued(l, u) && Inv(m, {}) && Kept(l, m, 0)
  {
    m := Requeued(l, u);
    assert Place(l.units[u], u in l.ring, true);
    NoDupSnoc(l.ring, u);
    LocatedAfter(l, m, u, {u}, {});
  }

  /** Accepting counts a write; a marked read leaves its logged number uncounted for good. */
  lemma AcceptKeeps(l: Log, u: UnitId) returns (m: Log)
    requires Inv(l, {u}) && u < |l.units| && (l.units[u].write ==> l.units[u].pattern)
    ensures m == Finish(l, u, Accepted).0 && Inv(m, {}) && Kept(l, m, B(l.units[u].pattern && !l.units[u].write))
  {
    var x := l.units[u].(flight := true);
    m := Finish(l, u, Accepted).0;
    assert m.units == l.units[u := x];
    assert Place(l.units[u], u in l.ring, true) && UnitOk(|l.slots|, l.units[u]);
    assert Owned(m.slots, m.owner, m.units) by {
      OwnedAfter(l.slots, l.owner, l.units, u, x);
    }
    assert Located(m, {}) by {
      LocatedAfter(l, m, u, {u}, {});
    }
    PendingAfter(l.units, u, x);
    if Sound(l, false) { SoundAfter(l, m, u, false); }
    if Sound(l, true) { SoundAfter(l, m, u, true); }
  }

  /** The verdict of invalidate_inflight, by who owns the slot that the unit names. */
  function EntryVerdict(l: Log, u: UnitId, write: bool): Verdict
    requires u < |l.units| && Owned(l.slots, l.owner, l.units)
  {
    assert UnitOk(|l.slots|, l.units[u]);
    if !write || l.units[u].idx.None? then Fine
    else
      var i := l.units[u].idx.value;
      assert SlotOk(l.slots[i], l.owner[i], i, l.units);
      match l.owner[i]
      case None => AlreadyInvalid
      case Some(w) => if l.units[w].numberio == l.units[u].numberio then Fine else EntryMismatch
  }

  /** The unit after io_completed. */
  function Settled(x: WriteUnit): WriteUnit {
    x.(flight := false, pattern := false, idx := if x.write then None else x.idx)
  }

  lemma CompletedShape(l: Log, u: UnitId)
    requires u < |l.units| && Owned(l.slots, l.owner, l.units)
    ensures var (m, v) := Completed(l, u);
      && v == EntryVerdict(l, u, l.units[u].write)
      && (v == Fine ==>
            && m.units == l.units[u := Settled(l.units[u])]
            && m.ring == l.ring && m.next == l.next && m.issued == l.issued && m.issues == l.issues
            && (if l.units[u].write && l.units[u].idx.Some? && l.units[u].idx.value < |l.slots| then
                  && m.slots == l.slots[l.units[u].idx.value := None]
                  && m.owner == l.owner[l.units[u].idx.value := None]
                else m.slots == l.slots && m.owner == l.owner))
  {
    var x := l.units[u];
    assert UnitOk(|l.slots|, x);
    if x.write && x.idx.Some? {
      var i := x.idx.value;
      assert SlotOk(l.slots[i], l.owner[i], i, l.units);
    }
  }

  lemma SettledOwned(l: Log, u: UnitId, m: Log)
    requires u < |l.units| && Owned(l.slots, l.owner, l.units)
    requires Completed(l, u) == (m, Fine)
    ensures Owned(m.slots, m.owner, m.units)
  {
    var x := l.units[u];
    CompletedShape(l, u);
    assert UnitOk(|l.slots|, x);
    if x.write && x.idx.Some? {
      OwnedDrop(l.slots, l.owner, l.units, u, Settled(x), x.idx.value);
    } else {
      OwnedAfter(l.slots, l.owner, l.units, u, Settled(x));
    }
  }

  /** A unit that owns its entry invalidates no other. */
  lemma SettledSound(l: Log, u: UnitId, m: Log, all: bool)
    requires u < |l.units| && Owned(l.slots, l.owner, l.units) && Sound(l, all)
    requires Completed(l, u) == (m, Fine)
    requires l.units[u].write && l.units[u].idx.Some? ==> Attached(l.owner, l.units, u)
    ensures Sound(m, all)
  {
    CompletedShape(l, u);
    SoundAfter(l, m, u, all);
  }

  /** Completing a unit that is in flight (`out` empty) or at hand. */
  lemma CompleteKeeps(l: Log, u: UnitId, out: set<UnitId>, m: Log)
    requires Inv(l, out) && u < |l.units| && out <= {u} && !l.units[u].onFree && u !in l.ring
    requires Completed(l, u) == (m, Fine)
    ensures Inv(m, {u}) && |m.units| == |l.units| && m.issued == l.issued && m.issues == l.issues
    ensures |Pending(m.units)| == |Pending(l.units)| - B(l.units[u].pattern && !l.units[u].flight)
    ensures (l.units[u].write && l.units[u].idx.Some? ==> Attached(l.owner, l.units, u)) ==>
      (Sound(l, false) ==> Sound(m, false)) && (Sound(l, true) ==> Sound(m, true))
  {
    CompletedShape(l, u);
    SettledOwned(l, u, m);
    assert Located(m, {u}) by {
      assert Place(l.units[u], u in l.ring, u in out);
      LocatedAfter(l, m, u, out, {u});
    }
    PendingAfter(l.units, u, Settled(l.units[u]));
    if l.units[u].write && l.units[u].idx.Some? ==> Attached(l.owner, l.units, u) {
      if Sound(l, false) { SettledSound(l, u, m, false); }
      if Sound(l, true) { SettledSound(l, u, m, true); }
    }
  }

  // ----- whole steps

  lemma CountVerdict(l: Log, u: UnitId, n: Log)
    requires Inv(l, {u}) && u < |l.units| && n == Count(l, u)
    ensures Inv(n, {u}) && EntryVerdict(n, u, l.units[u].write) == EntryVerdict(l, u, l.units[u].write)
  {
  }

  /** Counting a marked unit and then taking it out of the pending ones. */
  lemma CountAccounted(l: Log, u: UnitId, m: Log)
    requires u < |l.units| == |m.units| && (l.units[u].write ==> l.units[u].pattern)
    requires m.issued == l.issued && m.issues == Count(l, u).issues
    requires |Pending(m.units)| == |Pending(l.units)| - B(l.units[u].pattern)
    ensures Accounted(l, m, B(l.units[u].pattern && !l.units[u].write))
  {
  }

  /** Unit `u` of `l` was completed and put on a list. */
  ghost predicate Ended(l: Log, u: UnitId, m: Log)
    requires u < |l.units|
  {
    && Inv(m, {}) && |m.units| == |l.units| && m.issued == l.issued && m.issues == l.issues
    && |Pending(m.units)| == |Pending(l.units)| - B(l.units[u].pattern && !l.units[u].flight)
    && ((l.units[u].write && l.units[u].idx.Some? ==> Attached(l.owner, l.units, u)) ==> Guarded(l, m))
  }

  lemma CompleteFree(l: Log, u: UnitId, out: set<UnitId>, c: Log) returns (m: Log)
    requires Inv(l, out) && u < |l.units| && out <= {u} && !l.units[u].onFree && u !in l.ring
    requires Completed(l, u) == (c, Fine)
    ensures m == Free(c, u) && Ended(l, u, m)
  {
    CompleteKeeps(l, u, out, c);
    m := FreeKeeps(c, u);
    CompletedShape(l, u);
    PendingAfter(c.units, u, m.units[u]);
  }

  lemma CompleteRequeue(l: Log, u: UnitId, out: set<UnitId>, c: Log) returns (m: Log)
    requires Inv(l, out) && u < |l.units| && out <= {u} && !l.units[u].onFree && u !in l.ring
    requires Completed(l, u) == (c, Fine)
    ensures m == Requeued(c, u) && Ended(l, u, m)
  {
    CompleteKeeps(l, u, out, c);
    m := RequeueKeeps(c, u);
  }

  lemma CompletedVerdict(l: Log, u: UnitId)
    requires u < |l.units| && Owned(l.slots, l.owner, l.units)
    ensures Completed(l, u).1 == EntryVerdict(l, u, l.units[u].write)
  {
    CompletedShape(l, u);
  }

  /** A completion on the spot, after td_io_queue counted the unit. */
  lemma DoneKeeps(l: Log, u: UnitId) returns (m: Log)
    requires Inv(l, {u}) && u < |l.units| && (l.units[u].write ==> l.units[u].pattern)
    ensures m == Finish(l, u, Done).0 && Finish(l, u, Done).1 == EntryVerdict(l, u, l.units[u].write)
    ensures Finish(l, u, Done).1 == Fine ==>
      Inv(m, {}) && Accounted(l, m, B(l.units[u].pattern && !l.units[u].write))
    ensures Finish(l, u, Done).1 == Fine && (l.units[u].write ==> Attached(l.owner, l.units, u)) ==> Guarded(l, m)
  {
    var n := Count(l, u);
    CountVerdict(l, u, n);
    CompletedVerdict(n, u);
    assert Place(l.units[u], u in l.ring, true);
    m := Finish(l, u, Done).0;
    if Completed(n, u).1 == Fine {
      var f := CompleteFree(n, u, {u}, Completed(n, u).0);
      assert f == m;
      CountAccounted(l, u, m);
      CountGuarded(l, n, m);
    }
  }

  lemma CountGuarded(l: Log, n: Log, m: Log)
    requires n.owner == l.owner && n.units == l.units && Guarded(n, m)
    ensures Guarded(l, m)
  {
  }

  lemma ReapShape(l: Log, u: UnitId, short: bool)
    requires Enabled(l, Reaped(u, short))
    ensures var (c, v) := Completed(l, u);
      Step(l, Reaped(u, short)) == if v != Fine then (c, v) else (if short then Requeued(c, u) else Free(c, u), Fine)
  {
  }

  lemma ReapKeeps(l: Log, u: UnitId, short: bool) returns (m: Log)
    requires Inv(l, {}) && Enabled(l, Reaped(u, short))
    ensures m == Step(l, Reaped(u, short)).0 && Step(l, Reaped(u, short)).1 == EntryVerdict(l, u, l.units[u].write)
    ensures Step(l, Reaped(u, short)).1 == Fine ==> Ended(l, u, m)
  {
    assert Place(l.units[u], u in l.ring, false);
    CompletedVerdict(l, u);
    ReapShape(l, u, short);
    m := Completed(l, u).0;
    if Completed(l, u).1 == Fine {
      if short {
        m := CompleteRequeue(l, u, {}, m);
      } else {
        m := CompleteFree(l, u, {}, m);
      }
    }
  }

  /** What follows the logging part of a round. */
  lemma FinishKeeps(l: Log, u: UnitId, res: Result) returns (m: Log)
    requires Inv(l, {u}) && u < |l.units| && (res == Done || res == Accepted ==> l.units[u].write ==> l.units[u].pattern)
    ensures m == Finish(l, u, res).0
    ensures Finish(l, u, res).1 == if res == Done then EntryVerdict(l, u, l.units[u].write) else Fine
    ensures Finish(l, u, res).1 == Fine ==> Inv(m, {}) && Accounted(l, m, Lost(l.units[u], res))
    ensures Finish(l, u, res).1 == Fine && (res == Done && l.units[u].write ==> Attached(l.owner, l.units, u)) ==>
      Guarded(l, m)
  {
    match res
    case PrepFails => m := FreeKeeps(l, u);
    case Refused => m := RequeueKeeps(l, u);
    case Short => m := RequeueKeeps(l, u);
    case Accepted => m := AcceptKeeps(l, u);
    case Done => m := DoneKeeps(l, u);
  }

  function TakenId(l: Log, a: Action): UnitId
    requires Enabled(l, a) && a.Round?
    ensures TakenId(l, a) < |l.units|
  {
    if l.ring != [] then assert l.ring[0] in l.ring; l.ring[0] else a.pick
  }

  /** The unit a round works on, after get_io_u: a requeued unit keeps its direction. */
  function Taken(l: Log, a: Action): WriteUnit
    requires Enabled(l, a) && a.Round?
  {
    var x := l.units[TakenId(l, a)].(onFree := false);
    if l.ring != [] then x else x.(write := a.write)
  }

  /** The verdict of a step, by the state before it. */
  function Expected(l: Log, a: Action): Verdict
    requires Inv(l, {}) && Enabled(l, a)
  {
    match a
    case Round(_, _, res) =>
      if res == PrepFails then Fine
      else if Logs(Taken(l, a)) then IssueVerdict(l, Taken(l, a))
      else if res == Done then EntryVerdict(l, TakenId(l, a), Taken(l, a).write)
      else Fine
    case Reaped(u, _) => EntryVerdict(l, u, l.units[u].write)
    case ClearLog => Fine
    case ResetStats => Fine
  }

  /** How a step moves the two counters apart: a marked unit that goes out as a read takes its
      logged number along, a reset forgets what was counted, a clear starts over. */
  function GapStep(l: Log, a: Action, gap: int): int
    requires Enabled(l, a)
  {
    match a
    case Round(_, _, res) => gap + Lost(Taken(l, a), res)
    case Reaped(_, _) => gap
    case ClearLog => -|Pending(l.units)|
    case ResetStats => gap + l.issues
  }

  /** In a round the taken unit is as Taken says, and the verdict does not depend on the taking. */
  lemma TakeExpected(l: Log, a: Action, m: Log, u: UnitId)
    requires Inv(l, {}) && Enabled(l, a) && a.Round? && Take(l, a.pick, a.write) == (m, u) && Inv(m, {u})
    requires m.owner == l.owner && m.units == l.units[u := m.units[u]]
    requires m.units[u] == l.units[u].(onFree := false, write := m.units[u].write)
    ensures u == TakenId(l, a) && m.units[u] == Taken(l, a)
    ensures EntryVerdict(m, u, m.units[u].write) == EntryVerdict(l, u, m.units[u].write)
  {
  }

  lemma OwnVerdict(l: Log, u: UnitId, write: bool)
    requires u < |l.units| && Owned(l.slots, l.owner, l.units) && Attached(l.owner, l.units, u)
    ensures EntryVerdict(l, u, write) == Fine
  {
  }

  lemma RoundKeeps(l: Log, a: Action) returns (s: Log)
    requires Inv(l, {}) && Enabled(l, a) && a.Round?
    ensures s == Step(l, a).0 && Step(l, a).1 == Expected(l, a)
    ensures Expected(l, a) == Fine ==> Inv(s, {}) && Accounted(l, s, Lost(Taken(l, a), a.res))
    ensures Expected(l, a) == Fine ==> (Sound(l, false) ==> Sound(s, false)) && (Sound(l, true) ==> Sound(s, true))
  {
    var m, u := TakeKeeps(l, a.pick, a.write);
    TakeExpected(l, a, m, u);
    if a.res == PrepFails {
      s := FinishKeeps(m, u, a.res);
    } else {
      var n := IssueKeeps(m, u);
      s := n;
      if IssueVerdict(m, m.units[u]) == Fine {
        s := FinishKeeps(n, u, a.res);
        if Logs(m.units[u]) { OwnVerdict(n, u, true); }
      }
    }
  }

  lemma ReapedKeeps(l: Log, a: Action) returns (s: Log)
    requires Inv(l, {}) && Enabled(l, a) && a.Reaped?
    ensures s == Step(l, a).0 && Step(l, a).1 == Expected(l, a)
    ensures Expected(l, a) == Fine ==> Inv(s, {}) && Accounted(l, s, 0)
    ensures Expected(l, a) == Fine ==> (Sound(l, false) ==> Sound(s, false)) && (Sound(l, true) ==> Sound(s, true))
  {
    s := ReapKeeps(l, a.u, a.short);
    assert UnitOk(|l.slots|, l.units[a.u]);
  }

  lemma ClearKeeps(l: Log) returns (s: Log)
    requires Inv(l, {})
    ensures s == Clear(l) && Inv(s, {}) && Counted(s, -|Pending(l.units)|)
    ensures Sound(s, false) <==> forall v :: 0 <= v < |l.units| ==> !Live(l.units[v])
    ensures Sound(s, true) <==> forall v :: 0 <= v < |l.units| ==> l.units[v].idx.None?
  {
    s := Clear(l);
    forall v | 0 <= v < |l.units|
      ensures !Attached(s.owner, s.units, v) && UnitOk(|s.slots|, s.units[v]) && (Live(s.units[v]) ==> s.units[v].idx.Some?)
    {
      assert UnitOk(|l.slots|, l.units[v]);
    }
  }

  /** The verdict of every step is the expected one; the slot search never fails.  While it is
      Fine, ownership and placement hold again. */
  lemma StepVerdict(l: Log, a: Action) returns (s: Log)
    requires Inv(l, {}) && Enabled(l, a)
    ensures s == Step(l, a).0 && Step(l, a).1 == Expected(l, a)
    ensures Expected(l, a) == Fine ==>
      && Inv(s, {}) && |s.units| == |l.units|
      && (forall g: int :: Counted(l, g) ==> Counted(s, GapStep(l, a, g)))
    ensures Expected(l, a) == Fine && !a.ClearLog? ==>
      (Sound(l, false) ==> Sound(s, false)) && (Sound(l, true) ==> Sound(s, true))
    ensures a.ClearLog? ==>
      && (Sound(s, false) <==> forall v :: 0 <= v < |l.units| ==> !Live(l.units[v]))
      && (Sound(s, true) <==> forall v :: 0 <= v < |l.units| ==> l.units[v].idx.None?)
  {
    match a
    case Round(_, _, _) => s := RoundKeeps(l, a);
    case Reaped(_, _) => s := ReapedKeeps(l, a);
    case ClearLog => s := ClearKeeps(l);
    case ResetStats => s := Step(l, a).0;
  }

  function Init(depth: nat, base: nat): Log {
    Log(seq(depth, i => None), seq(depth, i => None), 0, base, base,
        seq(depth, i => WriteUnit(None, 0, false, false, false, true)), [])
  }

  lemma InitInv(depth: nat, base: nat)
    ensures Inv(Init(depth, base), {}) && Counted(Init(depth, base), 0) && Sound(Init(depth, base), true)
  {
    assert Pending(Init(depth, base).units) == {};
  }

  // ----- every run

  /** A run in which no check has failed so far. */
  ghost predicate IsRun(depth: nat, base: nat, acts: seq<Action>, trace: seq<Log>) {
    && |trace| == |acts| + 1 && trace[0] == Init(depth, base)
    && forall i :: 0 <= i < |acts| ==> Enabled(trace[i], acts[i]) && Step(trace[i], acts[i]) == (trace[i + 1], Fine)
  }

  /** What the first `n` steps of a run did to the counters: the logged numbers that left as reads
      and the counts lost to resets, since the last clear and less what was pending then. */
  ghost function Gap(depth: nat, base: nat, acts: seq<Action>, trace: seq<Log>, n: nat): int
    requires IsRun(depth, base, acts, trace) && n < |trace|
  {
    if n == 0 then 0 else GapStep(trace[n - 1], acts[n - 1], Gap(depth, base, acts, trace, n - 1))
  }

  lemma {:induction false} RunInv(depth: nat, base: nat, acts: seq<Action>, trace: seq<Log>, n: nat)
    requires IsRun(depth, base, acts, trace) && n < |trace|
    ensures Inv(trace[n], {}) && |trace[n].units| == depth
    ensures Counted(trace[n], Gap(depth, base, acts, trace, n))
  {
    if n == 0 {
      InitInv(depth, base);
    } else {
      RunInv(depth, base, acts, trace, n - 1);
      var s := StepVerdict(trace[n - 1], acts[n - 1]);
    }
  }

  /** The unit whose entry a step invalidates. */
  function Closes(l: Log, a: Action): Option<UnitId>
    requires Enabled(l, a)
  {
    match a
    case Reaped(u, _) => if l.units[u].write && l.units[u].idx.Some? then Some(u) else None
    case Round(_, _, res) =>
      var x := Taken(l, a);
      if res == Done && x.write && !Logs(x) && x.idx.Some? then Some(TakenId(l, a)) else None
    case _ => None
  }

  /** The round reaches log_inflight with a write. */
  predicate LogsNow(l: Log, a: Action)
    requires Enabled(l, a)
  {
    a.Round? && a.res != PrepFails && Logs(Taken(l, a))
  }

  /** Who owns the slot that the unit names. */
  function OwnerOf(l: Log, u: UnitId): Option<UnitId> {
    if u < |l.units| && l.units[u].idx.Some? && l.units[u].idx.value < |l.owner| then l.owner[l.units[u].idx.value]
    else None
  }

  /** The slot that the step closes belongs to a unit with another number. */
  predicate ClosesOther(l: Log, a: Action)
    requires Enabled(l, a)
  {
    && Closes(l, a).Some? && Closes(l, a).value < |l.units|
    && OwnerOf(l, Closes(l, a).value).Some? && OwnerOf(l, Closes(l, a).value).value < |l.units|
    && l.units[OwnerOf(l, Closes(l, a).value).value].numberio != l.units[Closes(l, a).value].numberio
  }

  /** When each check ends the program, in every run, after any clears, resets and drops: the slot
      search never; the index check when a unit is logged that still has an index; the number check
      when the logged writes not yet counted and the gap do not cancel out; the two checks of
      invalidate_inflight when the unit's slot has no owner, or one with another number. */
  lemma RunVerdict(depth: nat, base: nat, acts: seq<Action>, trace: seq<Log>, n: nat, a: Action)
    requires IsRun(depth, base, acts, trace) && n < |trace| && Enabled(trace[n], a)
    ensures Step(trace[n], a).1 != NoSlot
    ensures Step(trace[n], a).1 == AlreadySet <==> LogsNow(trace[n], a) && Taken(trace[n], a).idx.Some?
    ensures Step(trace[n], a).1 == NumberMismatch <==>
      && LogsNow(trace[n], a) && Taken(trace[n], a).idx.None?
      && |Pending(trace[n].units)| + Gap(depth, base, acts, trace, n) != 0
    ensures Step(trace[n], a).1 == AlreadyInvalid <==>
      Closes(trace[n], a).Some? && OwnerOf(trace[n], Closes(trace[n], a).value).None?
    ensures Step(trace[n], a).1 == EntryMismatch <==> ClosesOther(trace[n], a)
  {
    RunInv(depth, base, acts, trace, n);
    var s := StepVerdict(trace[n], a);
    if Closes(trace[n], a).Some? {
      ClosesVerdict(trace[n], a, Closes(trace[n], a).value);
    }
  }

  /** Nothing moves the counters apart: no reset, no clear beside an uncounted write, and no marked
      unit that goes out as a read. */
  predicate KeepsGap(l: Log, a: Action)
    requires Enabled(l, a)
  {
    match a
    case Round(_, _, res) => Lost(Taken(l, a), res) == 0
    case Reaped(_, _) => true
    case ClearLog => Pending(l.units) == {}
    case ResetStats => l.issues == 0
  }

  /** In such a run the number check fails exactly when some logged write, in the ring or on the
      freelist, is still to be counted. */
  lemma {:induction false} GapClosed(depth: nat, base: nat, acts: seq<Action>, trace: seq<Log>, n: nat)
    requires IsRun(depth, base, acts, trace) && n < |trace|
    requires forall i :: 0 <= i < n ==> Enabled(trace[i], acts[i]) && KeepsGap(trace[i], acts[i])
    ensures Gap(depth, base, acts, trace, n) == 0
    ensures forall a: Action :: Enabled(trace[n], a) ==>
      (Step(trace[n], a).1 == NumberMismatch <==>
         LogsNow(trace[n], a) && Taken(trace[n], a).idx.None? && Pending(trace[n].units) != {})
  {
    if n > 0 {
      GapClosed(depth, base, acts, trace, n - 1);
    }
    forall a: Action | Enabled(trace[n], a)
      ensures Step(trace[n], a).1 == NumberMismatch <==>
        LogsNow(trace[n], a) && Taken(trace[n], a).idx.None? && Pending(trace[n].units) != {}
    {
      RunVerdict(depth, base, acts, trace, n, a);
    }
  }

  lemma ClosesVerdict(l: Log, a: Action, u: UnitId)
    requires Inv(l, {}) && Enabled(l, a) && Closes(l, a) == Some(u)
    ensures u < |l.units| && (OwnerOf(l, u).Some? ==> OwnerOf(l, u).value < |l.units|)
    ensures Expected(l, a) ==
      if OwnerOf(l, u).None? then AlreadyInvalid
      else if l.units[OwnerOf(l, u).value].numberio == l.units[u].numberio then Fine
      else EntryMismatch
  {
    assert UnitOk(|l.slots|, l.units[u]);
    var i := l.units[u].idx.value;
    assert SlotOk(l.slots[i], l.owner[i], i, l.units);
  }

  // ----- runs whose clears find nothing

  /** Each clear so far found no live unit (or, for `all`, no unit with an index). */
  ghost predicate ClearsFindNothing(acts: seq<Action>, trace: seq<Log>, n: nat, all: bool)
    requires n <= |acts| < |trace|
  {
    forall i, v :: 0 <= i < n && acts[i].ClearLog? && 0 <= v < |trace[i].units| ==>
      if all then trace[i].units[v].idx.None? else !Live(trace[i].units[v])
  }

  lemma {:induction false} RunGuarded(depth: nat, base: nat, acts: seq<Action>, trace: seq<Log>, n: nat, all: bool)
    requires IsRun(depth, base, acts, trace) && n < |trace| && ClearsFindNothing(acts, trace, n, all)
    ensures Sound(trace[n], all)
  {
    if n == 0 {
      InitInv(depth, base);
    } else {
      RunGuarded(depth, base, acts, trace, n - 1, all);
      RunInv(depth, base, acts, trace, n - 1);
      var s := StepVerdict(trace[n - 1], acts[n - 1]);
    }
  }

  /** In a sound state the slot checks cannot fail next. */
  lemma SoundVerdict(l: Log, a: Action)
    requires Inv(l, {}) && Sound(l, false) && Enabled(l, a)
    ensures Step(l, a).1 == Fine || Step(l, a).1 == AlreadySet || Step(l, a).1 == NumberMismatch
  {
    var s := StepVerdict(l, a);
    if Closes(l, a).Some? {
      var u := Closes(l, a).value;
      assert UnitOk(|l.slots|, l.units[u]) && Place(l.units[u], u in l.ring, false);
      assert Live(l.units[u]) && Attached(l.owner, l.units, u);
      ClosesVerdict(l, a, u);
    }
  }

  /** Over every run of rounds, completions, drops and resets in which no clear found a live unit,
      neither the slot search nor the checks of invalidate_inflight can end the program. */
  lemma RunSound(depth: nat, base: nat, acts: seq<Action>, trace: seq<Log>, n: nat, a: Action)
    requires IsRun(depth, base, acts, trace) && n < |trace| && ClearsFindNothing(acts, trace, n, false)
    requires Enabled(trace[n], a)
    ensures Step(trace[n], a).1 == Fine || Step(trace[n], a).1 == AlreadySet || Step(trace[n], a).1 == NumberMismatch
  {
    RunInv(depth, base, acts, trace, n);
    RunGuarded(depth, base, acts, trace, n, false);
    SoundVerdict(trace[n], a);
  }

  lemma AttachedHolds(l: Log, v: UnitId)
    requires Inv(l, {}) && v < |l.units| && Attached(l.owner, l.units, v)
    ensures l.units[v].idx.value < |l.slots| && l.slots[l.units[v].idx.value] == Some(l.units[v].numberio)
  {
    var i := l.units[v].idx.value;
    assert SlotOk(l.slots[i], l.owner[i], i, l.units);
  }

  /** In every run, whatever was put back or reset, as long as no clear found a unit with an index:
      each index names an occupied slot that holds the unit's number, no two units name the same
      slot, and each occupied slot is named by a unit. */
  lemma RunOwned(depth: nat, base: nat, acts: seq<Action>, trace: seq<Log>, n: nat, v: UnitId, w: UnitId, i: nat)
    requires IsRun(depth, base, acts, trace) && n < |trace| && ClearsFindNothing(acts, trace, n, true)
    requires v < depth && w < depth && i < depth
    ensures |trace[n].units| == |trace[n].slots| == depth
    ensures trace[n].units[v].idx.Some? ==>
      && trace[n].units[v].idx.value < depth
      && trace[n].slots[trace[n].units[v].idx.value] == Some(trace[n].units[v].numberio)
    ensures v != w && trace[n].units[v].idx.Some? ==> trace[n].units[v].idx != trace[n].units[w].idx
    ensures trace[n].slots[i].Some? ==>
      exists u :: 0 <= u < depth && trace[n].units[u].idx == Some(i) && trace[n].slots[i] == Some(trace[n].units[u].numberio)
  {
    var l := trace[n];
    RunInv(depth, base, acts, trace, n);
    RunGuarded(depth, base, acts, trace, n, true);
    assert SlotOk(l.slots[i], l.owner[i], i, l.units);
    if l.units[v].idx.Some? {
      assert Attached(l.owner, l.units, v);
      AttachedHolds(l, v);
      if l.units[w].idx == l.units[v].idx { assert Attached(l.owner, l.units, w); }
    }
  }

  /** What the log is for: in every run in which no clear found a live unit, each logged write in
      flight has its number in a slot, where the reader of module SavedState looks for it. */
  lemma InFlightLogged(depth: nat, base: nat, acts: seq<Action>, trace: seq<Log>, n: nat, v: UnitId)
    requires IsRun(depth, base, acts, trace) && n < |trace| && ClearsFindNothing(acts, trace, n, false)
    requires v < depth
    ensures |trace[n].units| == |trace[n].slots| == depth
    ensures trace[n].units[v].write && trace[n].units[v].flight ==>
      Some(trace[n].units[v].numberio) in trace[n].slots
  {
    var l := trace[n];
    RunInv(depth, base, acts, trace, n);
    RunGuarded(depth, base, acts, trace, n, false);
    assert UnitOk(|l.slots|, l.units[v]);
    if l.units[v].write && l.units[v].flight {
      assert Live(l.units[v]) && Attached(l.owner, l.units, v);
      AttachedHolds(l, v);
    }
  }

  // ----- what a clear does

  /** Steps from `l` on, without another clear, in which no check fails. */
  ghost predicate IsPath(l: Log, acts: seq<Action>, trace: seq<Log>) {
    && |trace| == |acts| + 1 && trace[0] == l
    && forall i :: 0 <= i < |acts| ==>
         && !acts[i].ClearLog? && Enabled(trace[i], acts[i])
         && Step(trace[i], acts[i]) == (trace[i + 1], Fine)
  }

  predicate SlotCheckFails(l: Log, a: Action)
    requires Enabled(l, a)
  {
    Step(l, a).1 == AlreadyInvalid || Step(l, a).1 == EntryMismatch
  }

  lemma {:induction false} PathSound(l: Log, acts: seq<Action>, trace: seq<Log>, n: nat)
    requires IsPath(l, acts, trace) && n < |trace| && Inv(l, {}) && Sound(l, false)
    ensures Inv(trace[n], {}) && Sound(trace[n], false)
  {
    if n > 0 {
      PathSound(l, acts, trace, n - 1);
      var s := StepVerdict(trace[n - 1], acts[n - 1]);
    }
  }

  /** Dropping the whole ring, one failed preparation at a time. */
  lemma {:induction false} DropRing(l: Log) returns (acts: seq<Action>, trace: seq<Log>)
    requires Inv(l, {})
    ensures IsPath(l, acts, trace)
    ensures var m := trace[|acts|];
      && Inv(m, {}) && m.ring == [] && m.owner == l.owner && |m.units| == |l.units|
      && forall v :: 0 <= v < |l.units| ==> m.units[v] == l.units[v].(onFree := m.units[v].onFree)
    decreases |l.ring|
  {
    if l.ring == [] {
      acts, trace := [], [l];
    } else {
      var a := Round(0, false, PrepFails);
      var m, u := TakeKeeps(l, 0, false);
      var f := FreeKeeps(m, u);
      assert Step(l, a) == (f, Fine) && |f.ring| < |l.ring|;
      acts, trace := DropRing(f);
      assert ([l] + trace)[1..] == trace && ([a] + acts)[1..] == acts;
      PathCons(l, a, f, acts, trace);
      acts, trace := [a] + acts, [l] + trace;
    }
  }

  lemma PathCons(l: Log, a: Action, f: Log, acts: seq<Action>, trace: seq<Log>)
    requires !a.ClearLog? && Enabled(l, a) && Step(l, a) == (f, Fine) && IsPath(f, acts, trace)
    ensures IsPath(l, [a] + acts, [l] + trace)
  {
    var acts', trace' := [a] + acts, [l] + trace;
    forall i | 0 <= i < |acts'|
      ensures !acts'[i].ClearLog? && Enabled(trace'[i], acts'[i]) && Step(trace'[i], acts'[i]) == (trace'[i + 1], Fine)
    {
      if i > 0 {
        assert acts'[i] == acts[i - 1] && trace'[i] == trace[i - 1] && trace'[i + 1] == trace[i];
      }
    }
  }

  /** A live unit whose slot was cleared ends the program when it completes. */
  lemma CompletionAborts(l: Log, v: UnitId, a: Action)
    requires Inv(l, {}) && v < |l.units| && l.units[v].pattern && OwnerOf(l, v).None?
    requires if l.units[v].flight then l.units[v].write && a == Reaped(v, false)
             else l.ring == [] && a == Round(v, true, Done)
    ensures Enabled(l, a) && Step(l, a).1 == AlreadyInvalid
  {
    assert Place(l.units[v], v in l.ring, false) && UnitOk(|l.slots|, l.units[v]);
    var s := StepVerdict(l, a);
    ClosesVerdict(l, a, v);
  }

  lemma IdleUnitAborts(c: Log, v: UnitId) returns (acts: seq<Action>, trace: seq<Log>)
    requires Inv(c, {}) && v < |c.units| && c.units[v].pattern && !c.units[v].flight && OwnerOf(c, v).None?
    ensures IsPath(c, acts, trace) && Enabled(trace[|acts|], Round(v, true, Done))
    ensures Step(trace[|acts|], Round(v, true, Done)).1 == AlreadyInvalid
  {
    acts, trace := DropRing(c);
    var m := trace[|acts|];
    assert m.units[v] == c.units[v].(onFree := m.units[v].onFree);
    assert OwnerOf(m, v) == OwnerOf(c, v);
    CompletionAborts(m, v, Round(v, true, Done));
  }

  lemma LiveUnitAborts(l: Log, v: UnitId) returns (acts: seq<Action>, trace: seq<Log>, a: Action)
    requires Inv(l, {}) && v < |l.units| && Live(l.units[v])
    ensures IsPath(Clear(l), acts, trace) && Enabled(trace[|acts|], a)
    ensures Step(trace[|acts|], a).1 == AlreadyInvalid
  {
    var c := ClearKeeps(l);
    assert c.units == l.units && OwnerOf(c, v).None?;
    if l.units[v].flight {
      acts, trace, a := [], [c], Reaped(v, false);
      CompletionAborts(c, v, a);
    } else {
      acts, trace := IdleUnitAborts(c, v);
      a := Round(v, true, Done);
    }
  }

  /** A clear is harmless exactly when it finds no live unit: otherwise, and only then, some steps
      after it, with no further clear, lead to a failing check of invalidate_inflight. */
  lemma ClearExact(l: Log)
    requires Inv(l, {})
    ensures
      (exists acts, trace, a ::
         IsPath(Clear(l), acts, trace) && Enabled(trace[|acts|], a) && SlotCheckFails(trace[|acts|], a))
      <==> (exists v :: 0 <= v < |l.units| && Live(l.units[v]))
  {
    var c := ClearKeeps(l);
    if v :| 0 <= v < |l.units| && Live(l.units[v]) {
      var acts, trace, a := LiveUnitAborts(l, v);
      assert IsPath(Clear(l), acts, trace) && SlotCheckFails(trace[|acts|], a);
    } else {
      forall acts, trace, a | IsPath(Clear(l), acts, trace) && Enabled(trace[|acts|], a)
        ensures !SlotCheckFails(trace[|acts|], a)
      {
        PathSound(c, acts, trace, |acts|);
        SoundVerdict(trace[|acts|], a);
      }
    }
  }

  // ----- the ways to end the program

  /** Appending a round, given the states in the middle of it. */
  lemma ExtendRound(depth: nat, base: nat, acts: seq<Action>, trace: seq<Log>, a: Action, u: UnitId, m: Log, n: Log, o: Log)
    returns (acts': seq<Action>, trace': seq<Log>)
    requires IsRun(depth, base, acts, trace) && Enabled(trace[|acts|], a) && a.Round?
    requires Take(trace[|acts|], a.pick, a.write) == (m, u) && u < |n.units| && |n.slots| == |n.owner|
    requires if a.res == PrepFails then n == m else Issue(m, u) == (n, Fine)
    requires Finish(n, u, a.res) == (o, Fine)
    ensures acts' == acts + [a] && trace' == trace + [o] && IsRun(depth, base, acts', trace')
  {
    acts', trace' := acts + [a], trace + [o];
    assert Step(trace[|acts|], a) == (o, Fine);
  }

  /** Appending any other step. */
  lemma Extend(depth: nat, base: nat, acts: seq<Action>, trace: seq<Log>, a: Action, l: Log)
    returns (acts': seq<Action>, trace': seq<Log>)
    requires IsRun(depth, base, acts, trace) && Enabled(trace[|acts|], a) && Step(trace[|acts|], a) == (l, Fine)
    ensures acts' == acts + [a] && trace' == trace + [l] && IsRun(depth, base, acts', trace')
  {
    acts', trace' := acts + [a], trace + [l];
  }

  const FREE_UNIT := WriteUnit(None, 0, false, false, false, true)
  const FIRST_TAKEN := WriteUnit(None, 0, true, false, false, false)
  const FIRST_LOGGED := WriteUnit(Some(0), 0, true, true, false, false)
  const SECOND_LOGGED := WriteUnit(Some(1), 1, true, true, false, false)

  /** A job of one unit logs its first write, which is refused. */
  lemma OneRefused() returns (acts: seq<Action>, trace: seq<Log>)
    ensures IsRun(1, 0, acts, trace) && |acts| == 1
    ensures trace[|acts|] == Log([Some(0)], [Some(0)], 0, 1, 0, [FIRST_LOGGED], [0])
  {
    var l0 := Log([None], [None], 0, 0, 0, [FREE_UNIT], []);
    acts, trace := [], [l0];
    assert l0 == Init(1, 0);
    var m := l0.(units := [FIRST_TAKEN]);
    var n := Log([Some(0)], [Some(0)], 0, 1, 0, [FIRST_LOGGED], []);
    assert Take(l0, 0, true).0.units == m.units;
    OneLogged(m, n);
    assert n.ring + [0] == [0];
    acts, trace := ExtendRound(1, 0, acts, trace, Round(0, true, Refused), 0, m, n, n.(ring := [0]));
  }

  lemma OneLogged(m: Log, n: Log)
    requires m == Log([None], [None], 0, 0, 0, [FIRST_TAKEN], [])
    requires n == Log([Some(0)], [Some(0)], 0, 1, 0, [FIRST_LOGGED], [])
    ensures Issue(m, 0) == (n, Fine)
  {
    assert FindFree(m.slots, 0, 1) == Some(0);
    var r := Issue(m, 0).0;
    assert r.units == n.units && r.slots == n.slots && r.owner == n.owner;
  }

  /** A clear while a logged write waits in the ring: its completion finds the slot empty. */
  lemma ClearEndsProgram() returns (acts: seq<Action>, trace: seq<Log>)
    ensures IsRun(1, 0, acts, trace) && |acts| == 2 && acts[1] == ClearLog
    ensures Enabled(trace[2], Round(0, true, Done)) && Step(trace[2], Round(0, true, Done)).1 == AlreadyInvalid
  {
    acts, trace := OneRefused();
    var l := Log([None], [None], 0, 0, 0, [FIRST_LOGGED], [0]);
    var c := Clear(trace[|acts|]);
    assert c.slots == l.slots && c.owner == l.owner;
    acts, trace := Extend(1, 0, acts, trace, ClearLog, l);
    var m := l.(ring := []);
    assert l.ring[1..] == [] && Take(l, 0, true) == (m, 0);
    assert Issue(m, 0) == (m, Fine);
    assert Completed(Count(m, 0), 0).1 == AlreadyInvalid;
  }

  /** A reset of the statistics after the first write: the next write finds the count at zero. */
  lemma ResetEndsProgram() returns (acts: seq<Action>, trace: seq<Log>)
    ensures IsRun(1, 0, acts, trace) && |acts| == 2 && acts[1] == ResetStats && trace[2].ring == []
    ensures Enabled(trace[2], Round(0, true, Done)) && Step(trace[2], Round(0, true, Done)).1 == NumberMismatch
  {
    var l0 := Log([None], [None], 0, 0, 0, [FREE_UNIT], []);
    acts, trace := [], [l0];
    assert l0 == Init(1, 0);
    var m := l0.(units := [FIRST_TAKEN]);
    var n := Log([Some(0)], [Some(0)], 0, 1, 0, [FIRST_LOGGED], []);
    assert Take(l0, 0, true).0.units == m.units;
    OneLogged(m, n);
    var done := Log([None], [None], 0, 1, 1, [FIRST_TAKEN.(onFree := true)], []);
    var c := Completed(Count(n, 0), 0).0;
    assert c.units == [FIRST_TAKEN] && c.slots == done.slots && c.owner == done.owner;
    assert Free(c, 0).units == done.units;
    acts, trace := ExtendRound(1, 0, acts, trace, Round(0, true, Done), 0, m, n, done);
    acts, trace := Extend(1, 0, acts, trace, ResetStats, done.(issues := 0));
    assert Take(trace[2], 0, true).0.units == [FIRST_TAKEN];
  }

  /** A refused write whose second preparation fails is put back with its entry; after the unit
      has served a read, logging it again finds the index already set. */
  lemma DroppedEntryEndsProgram() returns (acts: seq<Action>, trace: seq<Log>)
    ensures IsRun(1, 0, acts, trace)
    ensures Enabled(trace[|acts|], Round(0, true, Accepted))
    ensures Step(trace[|acts|], Round(0, true, Accepted)).1 == AlreadySet
  {
    acts, trace := OneRefused();
    var waiting := FIRST_LOGGED;
    var reading := waiting.(write := false);
    var n := Log([Some(0)], [Some(0)], 0, 1, 0, [waiting], []);
    var l1 := trace[|acts|];
    assert l1.ring[1..] == [];

    var l2 := n.(units := [waiting.(onFree := true)]);
    assert Finish(n, 0, PrepFails).0.units == l2.units;
    acts, trace := ExtendRound(1, 0, acts, trace, Round(0, true, PrepFails), 0, n, n, l2);

    var m3 := n.(units := [reading]);
    var l3 := n.(units := [reading.(flight := true)]);
    assert Take(l2, 0, false).0.units == m3.units;
    assert Finish(m3, 0, Accepted).0.units == l3.units;
    acts, trace := ExtendRound(1, 0, acts, trace, Round(0, false, Accepted), 0, m3, m3, l3);

    var l4 := n.(units := [reading.(pattern := false, onFree := true)]);
    assert Completed(l3, 0).0.units == [reading.(pattern := false)];
    assert Free(Completed(l3, 0).0, 0).units == l4.units;
    acts, trace := Extend(1, 0, acts, trace, Reaped(0, false), l4);
    assert Take(l4, 0, true).0.units == [reading.(pattern := false, write := true)];
  }

  /** A job of two units logs its first write, with the given result. */
  lemma FirstOfTwo(res: Result, l1: Log) returns (acts: seq<Action>, trace: seq<Log>)
    requires res == Refused || res == Accepted
    requires l1 == if res == Refused then Log([Some(0), None], [Some(0), None], 1, 1, 0, [FIRST_LOGGED, FREE_UNIT], [0])
      else Log([Some(0), None], [Some(0), None], 1, 1, 1, [FIRST_LOGGED.(flight := true), FREE_UNIT], [])
    ensures IsRun(2, 0, acts, trace) && trace[|acts|] == l1
  {
    var l0 := Log([None, None], [None, None], 0, 0, 0, [FREE_UNIT, FREE_UNIT], []);
    acts, trace := [], [l0];
    assert l0 == Init(2, 0);
    var m := l0.(units := [FIRST_TAKEN, FREE_UNIT]);
    var n := Log([Some(0), None], [Some(0), None], 1, 1, 0, [FIRST_LOGGED, FREE_UNIT], []);
    assert Take(l0, 0, true).0.units == m.units;
    assert FindFree(l0.slots, 0, 2) == Some(0);
    var r := Issue(m, 0).0;
    assert r.units == n.units && r.slots == n.slots && r.owner == n.owner;
    assert n.ring + [0] == [0];
    assert Finish(n, 0, res).0.units == l1.units;
    acts, trace := ExtendRound(2, 0, acts, trace, Round(0, true, res), 0, m, n, l1);
  }

  /** One of two units is written and queued; the other is logged and refused. */
  lemma QueuedAndRefused() returns (acts: seq<Action>, trace: seq<Log>)
    ensures IsRun(2, 0, acts, trace)
    ensures trace[|acts|] == Log([Some(0), Some(1)], [Some(0), Some(1)], 0, 2, 1,
                                 [FIRST_LOGGED.(flight := true), SECOND_LOGGED], [1])
  {
    var l1 := Log([Some(0), None], [Some(0), None], 1, 1, 1, [FIRST_LOGGED.(flight := true), FREE_UNIT], []);
    acts, trace := FirstOfTwo(Accepted, l1);
    var m2 := l1.(units := [FIRST_LOGGED.(flight := true), FIRST_TAKEN]);
    var n2 := Log([Some(0), Some(1)], [Some(0), Some(1)], 0, 2, 1, [FIRST_LOGGED.(flight := true), SECOND_LOGGED], []);
    assert Take(l1, 1, true).0.units == m2.units;
    assert FindFree(l1.slots, 1, 2) == Some(1);
    var r := Issue(m2, 1).0;
    assert r.units == n2.units && r.slots == n2.slots && r.owner == n2.owner;
    assert n2.ring + [1] == [1];
    acts, trace := ExtendRound(2, 0, acts, trace, Round(1, true, Refused), 1, m2, n2, n2.(ring := [1]));
  }

  /** Two units, the second refused again after a short completion of the first: the first is
      then logged with a number the refused one already holds. */
  lemma NumberCheckCanFail() returns (acts: seq<Action>, trace: seq<Log>)
    ensures IsRun(2, 0, acts, trace)
    ensures Enabled(trace[|acts|], Round(0, true, Accepted))
    ensures Step(trace[|acts|], Round(0, true, Accepted)).1 == NumberMismatch
  {
    acts, trace := QueuedAndRefused();
    var l2 := trace[|acts|];
    var l3 := Log([None, Some(1)], [None, Some(1)], 0, 2, 1, [FIRST_TAKEN, SECOND_LOGGED], [1, 0]);
    var c := Completed(l2, 0).0;
    assert c.units == l3.units && c.slots == l3.slots && c.owner == l3.owner;
    assert l2.ring + [0] == l3.ring;
    acts, trace := Extend(2, 0, acts, trace, Reaped(0, true), l3);
    var m3, l4 := l3.(ring := [0]), l3.(ring := [0, 1]);
    assert l3.ring[1..] == m3.ring && m3.ring + [1] == l4.ring && l4.ring[1..] == [1];
    acts, trace := ExtendRound(2, 0, acts, trace, Round(0, true, Refused), 1, m3, m3, l4);
  }

  /** Two units, with an empty ring: the first was logged, put back, and went out as a read, so
      its number is never counted and the second cannot be logged. */
  lemma LostNumberEndsProgram() returns (acts: seq<Action>, trace: seq<Log>)
    ensures IsRun(2, 0, acts, trace) && trace[|acts|].ring == []
    ensures Enabled(trace[|acts|], Round(1, true, Accepted))
    ensures Step(trace[|acts|], Round(1, true, Accepted)).1 == NumberMismatch
  {
    var l1 := Log([Some(0), None], [Some(0), None], 1, 1, 0, [FIRST_LOGGED, FREE_UNIT], [0]);
    acts, trace := FirstOfTwo(Refused, l1);
    var m2 := l1.(ring := []);
    var l2 := m2.(units := [FIRST_LOGGED.(onFree := true), FREE_UNIT]);
    assert l1.ring[1..] == [] && Finish(m2, 0, PrepFails).0.units == l2.units;
    acts, trace := ExtendRound(2, 0, acts, trace, Round(0, true, PrepFails), 0, m2, m2, l2);

    var reading := FIRST_LOGGED.(write := false);
    var m3, l3 := m2.(units := [reading, FREE_UNIT]), m2.(units := [reading.(flight := true), FREE_UNIT]);
    assert Take(l2, 0, false).0.units == m3.units;
    assert Finish(m3, 0, Accepted).0.units == l3.units;
    acts, trace := ExtendRound(2, 0, acts, trace, Round(0, false, Accepted), 0, m3, m3, l3);
    assert Take(l3, 1, true).0.units == [reading.(flight := true), FIRST_TAKEN];
  }

  // ----- the same in place

  /** The fields of struct thread_data and of its units that the log uses. */
  class InflightTable {
    const slots: array<Option<nat>>
    const units: array<WriteUnit>
    ghost var owner: seq<Option<UnitId>>
    var next: nat
    var issued: nat
    var issues: nat
    var ring: seq<UnitId>

    ghost function View(): Log
      reads this, slots, units
    {
      Log(slots[..], owner, next, issued, issues, units[..], ring)
    }

    /** init_inflight_logging beside the units of init_io_u. */
    constructor (depth: nat)
      ensures View() == Init(depth, 0) && fresh(slots) && fresh(units)
    {
      slots := new Option<nat>[depth](i => None);
      units := new WriteUnit[depth](i => WriteUnit(None, 0, false, false, false, true));
      next, issued, issues, ring := 0, 0, 0, [];
      owner := seq(depth, i => None);
    }

    /** log_inflight; the slot is written before the count that publishes it. */
    method LogInflight(u: UnitId) returns (v: Verdict)
      requires Sized(View()) && u < units.Length
      modifies this`next, this`issued, this`owner, slots, units
      ensures (View(), v) == LogEntry(old(View()), u)
    {
      ghost var l := View();
      var x := units[u];
      if !x.write {
        return Fine;
      }
      if x.idx.Some? {
        return AlreadySet;
      }
      if issued != x.numberio {
        return NumberMismatch;
      }
      var idx: nat, i: nat := next, 0;
      while i < slots.Length
        invariant i <= slots.Length && (slots.Length > 0 ==> idx < slots.Length)
        invariant View() == l
        invariant FindFree(l.slots, l.next, |l.slots|) == FindFree(l.slots, idx, |l.slots| - i)
      {
        if slots[idx].None? {
          slots[idx] := Some(x.numberio);
          next := (idx + 1) % slots.Length;
          units[u] := x.(idx := Some(idx));
          issued := x.numberio + 1;
          owner := owner[idx := Some(u)];
          assert slots[..] == l.slots[idx := Some(x.numberio)];
          assert units[..] == l.units[u := x.(idx := Some(idx))];
          return Fine;
        }
        idx := (idx + 1) % slots.Length;
        i := i + 1;
      }
      v := NoSlot;
    }

    /** invalidate_inflight. */
    method InvalidateInflight(u: UnitId) returns (v: Verdict)
      requires Sized(View()) && u < units.Length
      modifies this`owner, slots, units
      ensures (View(), v) == Invalidate(old(View()), u)
    {
      ghost var l := View();
      var x := units[u];
      if !x.write || x.idx.None? || x.idx.value >= slots.Length {
        return Fine;
      }
      if slots[x.idx.value].None? {
        return AlreadyInvalid;
      }
      if slots[x.idx.value] != Some(x.numberio) {
        return EntryMismatch;
      }
      slots[x.idx.value] := None;
      owner := owner[x.idx.value := None];
      units[u] := x.(idx := None);
      assert slots[..] == l.slots[x.idx.value := None];
      assert units[..] == l.units[u := x.(idx := None)];
      v := Fine;
    }

    /** clear_inflight. */
    method ClearInflight()
      modifies this`next, this`issued, this`owner, slots
      ensures View() == Clear(old(View()))
    {
      ghost var l := View();
      for i := 0 to slots.Length
        invariant forall j :: 0 <= j < i ==> slots[j] == None
        invariant View() == l.(slots := slots[..])
      {
        slots[i] := None;
      }
      next := 0;
      issued := issues;
      owner := seq(slots.Length, i => None);
      assert slots[..] == seq(slots.Length, i => None);
    }
  }
}
