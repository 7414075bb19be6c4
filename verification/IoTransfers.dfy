/** What the calls on io units owe the job: which unit it is handed, whether the engine has it, and,
    over whole runs, that the bytes of a transfer are moved once and that no unit is given up while
    some of them are left. */
module IoTransfers {
  import opened Bits
  import opened Counting
  import opened Options
  import opened UnitQueues
  import opened IoUnits

  // ----- where a unit goes

  /** On top of the freelist, the ring as it was. */
  predicate OnFreelist(p: Pool, q: Pool, u: UnitId) {
    q.freelist == p.freelist + [u] && q.requeues == p.requeues
  }

  /** Last in the ring, the freelist as it was. */
  predicate LastInRing(p: Pool, q: Pool, u: UnitId) {
    q.requeues == p.requeues + [u] && q.freelist == p.freelist
  }

  /** The unit is with the job no more, and counted out. */
  predicate Leaves(p: Pool, q: Pool, u: UnitId)
    requires u < |p.units|
  {
    && |q.units| == |p.units| && q.units[u].free && !q.units[u].flight
    && q.curDepth == (if p.units[u].inDepth then p.curDepth - 1 else p.curDepth)
    && forall v :: 0 <= v < |p.units| && v != u ==> q.units[v] == p.units[v]
  }

  predicate SameRange(x: Unit, y: Unit) {
    y.off == x.off && y.xfer == x.xfer && y.rw == x.rw && y.buflen == x.buflen
  }

  /** The offset behind the bytes moved. */
  function Behind(x: Unit, resid: nat): nat {
    (x.off + x.xfer - resid) % TWO64
  }

  /** `y` has the bytes left of the transfer `x`, and no others. */
  predicate Rest(x: Unit, y: Unit, resid: nat) {
    y.off == Behind(x, resid) && y.xfer == resid && y.rw == x.rw && y.buflen == x.buflen
  }

  /** Nothing is left to move, or nothing can be moved: an error, no transfer at all, all bytes or
      none moved, or the end of the file reached. */
  predicate Over(x: Unit, o: Outcome, size: nat) {
    o.error || !x.rw || o.resid == 0 || o.resid == x.xfer || Behind(x, o.resid) >= size
  }

  // ----- completion

  /** A completed unit is free to be used again if its transfer is over; otherwise it is last in the
      ring, with exactly the rest of its transfer. */
  predicate Completes(p: Pool, q: Pool, u: UnitId, o: Outcome, size: nat)
    requires u < |p.units|
  {
    && Leaves(p, q, u) && q.queued == p.queued && q.inFlight == p.inFlight
    && if Over(p.units[u], o, size) then OnFreelist(p, q, u)
       else LastInRing(p, q, u) && Rest(p.units[u], q.units[u], o.resid)
  }

  lemma CompletionOwes(p: Pool, u: UnitId, o: Outcome, size: nat)
    requires u < |p.units|
    ensures Completes(p, IoCompleted(p, u, o, size), u, o, size)
  {
  }

  /** After a submission: like completion for a unit the engine completed at once, except that the
      ring gets what ends anywhere but exactly at the end of the file; back in the ring if the engine
      was busy, with everything queued committed; and no change if the engine took or refused it. */
  predicate Handles(p: Pool, q: Pool, u: UnitId, status: QStatus, o: Outcome, size: nat)
    requires u < |p.units|
  {
    match status
    case Busy =>
      && Leaves(p, q, u) && LastInRing(p, q, u) && SameRange(p.units[u], q.units[u])
      && Flushed(p, q)
    case Queued => q == p
    case Failed => q == p
    case Completed =>
      && Leaves(p, q, u) && q.queued == p.queued && q.inFlight == p.inFlight
      && if OverAtOnce(p.units[u], o, size) then OnFreelist(p, q, u)
         else LastInRing(p, q, u) && Rest(p.units[u], q.units[u], o.resid)
  }

  /** All that was queued is in flight, unless no unit is out. */
  predicate Flushed(p: Pool, q: Pool) {
    if q.curDepth == 0 || p.queued == 0 then q.queued == p.queued && q.inFlight == p.inFlight
    else q.queued == 0 && q.inFlight == (p.inFlight + p.queued) % TWO32
  }

  predicate OverAtOnce(x: Unit, o: Outcome, size: nat) {
    o.error || o.resid == 0 || o.resid == x.xfer || Behind(x, o.resid) == size
  }

  lemma BusyOwes(p: Pool, u: UnitId, o: Outcome, size: nat)
    requires u < |p.units|
    ensures Handles(p, IoQueueEvent(p, u, Busy, o, size), u, Busy, o, size)
  {
  }

  lemma WholeOwes(p: Pool, u: UnitId, o: Outcome, size: nat)
    requires u < |p.units| && (o.error || o.resid == 0 || o.resid == p.units[u].xfer)
    ensures Handles(p, IoQueueEvent(p, u, Completed, o, size), u, Completed, o, size)
  {
  }

  lemma ShortOwes(p: Pool, u: UnitId, o: Outcome, size: nat, p': Pool)
    requires u < |p.units| && !o.error && o.resid != 0 && o.resid != p.units[u].xfer
    requires p' == SetUnit(p, u, Advance(p.units[u], o.resid))
    ensures Handles(p, IoQueueEvent(p, u, Completed, o, size), u, Completed, o, size)
  {
    assert Rest(p.units[u], p'.units[u], o.resid);
    CompletionOwes(p', u, o, size);
    RequeueOwes(p', u);
    assert IoQueueEvent(p, u, Completed, o, size) ==
      if Behind(p.units[u], o.resid) == size then IoCompleted(p', u, o, size) else Requeue(p', u);
  }

  lemma RequeueOwes(p: Pool, u: UnitId)
    requires u < |p.units|
    ensures var q := Requeue(p, u);
      Leaves(p, q, u) && LastInRing(p, q, u) && SameRange(p.units[u], q.units[u])
      && q.queued == p.queued && q.inFlight == p.inFlight
  {
  }

  lemma EventOwes(p: Pool, u: UnitId, status: QStatus, o: Outcome, size: nat)
    requires u < |p.units|
    ensures Handles(p, IoQueueEvent(p, u, status, o, size), u, status, o, size)
  {
    if status == Busy {
      BusyOwes(p, u, o, size);
    } else if status == Completed && (o.error || o.resid == 0 || o.resid == p.units[u].xfer) {
      WholeOwes(p, u, o, size);
    } else if status == Completed {
      ShortOwes(p, u, o, size, SetUnit(p, u, Advance(p.units[u], o.resid)));
    }
  }

  // ----- handing out and submission

  /** A requeued unit that waited longest comes first, with its transfer as it was left; otherwise
      the unit put back last.  None when the job stops, or nothing is requeued (or a sync must not be
      disturbed by it) and the freelist is empty or the latency target forbids another. */
  lemma GetAnswers(p: Pool, stopIo: bool, fsyncing: bool, qd: Option<nat>)
    requires ListsInRange(p)
    ensures var (q, r) := Get(p, stopIo, fsyncing, qd);
      if stopIo then r.None? && q == p
      else if !fsyncing && p.requeues != [] then
        && r == Some(p.requeues[0]) && q.requeues == p.requeues[1..] && q.freelist == p.freelist
        && r.value < |p.units| == |q.units| && SameRange(p.units[r.value], q.units[r.value])
        && Out(p, q, r.value)
      else if p.freelist == [] || (qd.Some? && p.curDepth >= qd.value) then r.None? && q == p
      else
        && r == Some(p.freelist[|p.freelist| - 1]) && q.freelist == p.freelist[..|p.freelist| - 1]
        && q.requeues == p.requeues && r.value < |p.units| == |q.units| && Out(p, q, r.value)
  {
    if p.requeues != [] { assert p.requeues[0] in p.requeues; }
    if p.freelist != [] { assert p.freelist[|p.freelist| - 1] in p.freelist; }
  }

  predicate Out(p: Pool, q: Pool, u: UnitId)
    requires u < |p.units| == |q.units|
  {
    && !q.units[u].free && q.units[u].inDepth && q.curDepth == p.curDepth + 1
    && forall v :: 0 <= v < |p.units| && v != u ==> q.units[v] == p.units[v]
  }

  /** Another unit in flight overlaps `u`. */
  ghost predicate Overlaps(p: Pool, u: UnitId)
    requires u < |p.units|
  {
    exists v: nat :: v < |p.units| && v != u && p.units[v].flight && Clash(p.units[u], p.units[v])
  }

  /** `u` is in the state that the engine's answer says, with one more unit counted if the engine took
      it. */
  predicate Queues(c: Config, p: Pool, q: Pool, u: UnitId, status: QStatus)
    requires u < |p.units|
  {
    && |q.units| == |p.units| && SameRange(p.units[u], q.units[u]) && !q.units[u].free
    && (q.units[u].flight <==> status != Busy) && (q.units[u].accepted <==> status == Queued)
    && (forall v :: 0 <= v < |p.units| && v != u ==> q.units[v] == p.units[v])
    && q.freelist == p.freelist && q.requeues == p.requeues && q.curDepth == p.curDepth
    && if status == Queued then Counts(c, p, q) else q.queued == p.queued && q.inFlight == p.inFlight
  }

  /** What io_u_submit hands back and leaves: `u` refused because of an overlap, or queued. */
  ghost predicate Submits(c: Config, p: Pool, q: Pool, u: UnitId, status: QStatus, ret: QStatus)
    requires u < |p.units|
  {
    if c.serialize && Overlaps(p, u) then ret == Busy && q == p
    else ret == status && Queues(c, p, q, u, status)
  }

  /** One more unit is queued; a full batch is committed, all of it. */
  predicate Counts(c: Config, p: Pool, q: Pool) {
    var n := (p.queued + 1) % TWO32;
    if n >= c.batch && n != 0 then q.queued == 0 && q.inFlight == (p.inFlight + n) % TWO32
    else q.queued == n && q.inFlight == p.inFlight
  }

  /** The test of in_flight_overlap, for units that are not empty: some byte belongs to both. */
  lemma ClashMeansSharedByte(a: Unit, b: Unit)
    requires a.buflen > 0 && b.buflen > 0
    ensures Clash(a, b) <==> exists byte :: InUnit(a, byte) && InUnit(b, byte)
  {
    if Clash(a, b) {
      var byte := if a.off < b.off then b.off else a.off;
      assert InUnit(a, byte) && InUnit(b, byte);
    }
  }

  predicate InUnit(x: Unit, byte: nat) {
    x.off <= byte < x.off + x.buflen
  }

  lemma OverlapsOther(p: Pool, u: UnitId)
    requires u < |p.units| && !p.units[u].flight
    ensures InFlightOverlap(p, u) <==> Overlaps(p, u)
  {
  }

  lemma QueueAnswers(c: Config, p: Pool, u: UnitId, viaSubmit: bool, status: QStatus, resid: nat)
    requires Inv(c, p) && u < |p.units| && !p.units[u].free && !p.units[u].flight
    ensures Queues(c, p, TdIoQueue(c, p, u, viaSubmit, status, resid), u, status)
  {
    assert FlagsAgree(p.units[u]);
    RoomForHeld(p, u);
  }

  lemma SubmitAnswers(c: Config, p: Pool, u: UnitId, status: QStatus, resid: nat)
    requires Inv(c, p) && u < |p.units| && !p.units[u].free && !p.units[u].flight
    ensures var (q, ret) := Submit(c, p, u, status, resid); Submits(c, p, q, u, status, ret)
  {
    ShortcutExact(p, u);
    OverlapsOther(p, u);
    QueueAnswers(c, p, u, true, status, resid);
  }

  lemma CommitAnswers(p: Pool)
    ensures var q := Commit(p);
      && q.units == p.units && q.freelist == p.freelist && q.requeues == p.requeues && q.curDepth == p.curDepth
      && Flushed(p, q)
  {
  }

  /** A unit that the job puts back unused is on top of the freelist. */
  lemma PutBackAnswers(c: Config, p: Pool, u: UnitId)
    requires Enabled(p, PutBack(u))
    ensures var q := Step(c, p, PutBack(u));
      Leaves(p, q, u) && OnFreelist(p, q, u) && q.queued == p.queued && q.inFlight == p.inFlight
  {
  }

  // ----- reaping several units

  /** The outcome that a batch of events has for `u`. */
  function OutcomeOf(done: seq<(UnitId, Outcome)>, u: UnitId): Option<Outcome> {
    if done == [] then None else if done[0].0 == u then Some(done[0].1) else OutcomeOf(done[1..], u)
  }

  lemma {:induction false} NoOutcome(done: seq<(UnitId, Outcome)>, u: UnitId)
    requires forall i :: 0 <= i < |done| ==> done[i].0 != u
    ensures OutcomeOf(done, u).None?
  {
    if done != [] { NoOutcome(done[1..], u); }
  }

  /** What a batch means for one unit. */
  predicate Reaps(p: Pool, q: Pool, u: UnitId, o: Option<Outcome>, size: nat)
    requires u < |p.units| == |q.units|
  {
    match o
    case None =>
      && q.units[u] == p.units[u]
      && (u in q.freelist <==> u in p.freelist) && (u in q.requeues <==> u in p.requeues)
    case Some(o) =>
      if Over(p.units[u], o, size) then u in q.freelist
      else u in q.requeues && Rest(p.units[u], q.units[u], o.resid) && (u in q.freelist <==> u in p.freelist)
  }

  lemma ReapOneOwes(p: Pool, d: (UnitId, Outcome), size: nat, u: UnitId)
    requires d.0 < |p.units| && u < |p.units|
    ensures |ReapOne(p, d, size).units| == |p.units|
    ensures Reaps(p, ReapOne(p, d, size), u, if d.0 == u then Some(d.1) else None, size)
    ensures forall v :: v in p.freelist ==> v in ReapOne(p, d, size).freelist
    ensures forall v :: v in p.requeues ==> v in ReapOne(p, d, size).requeues
  {
    CompletionOwes(HandBack(p, d.0), d.0, d.1, size);
  }

  lemma {:induction false} CompleteAllOwes(p: Pool, done: seq<(UnitId, Outcome)>, size: nat, u: UnitId)
    requires Reapable(p, done) && u < |p.units|
    ensures |CompleteAll(p, done, size).units| == |p.units|
    ensures Reaps(p, CompleteAll(p, done, size), u, OutcomeOf(done, u), size)
    decreases |done|
  {
    if done != [] {
      var q := ReapOne(p, done[0], size);
      ReapOneOwes(p, done[0], size, u);
      ReapTail(p, q, done, size);
      CompleteAllOwes(q, done[1..], size, u);
      if done[0].0 == u {
        NoOutcome(done[1..], u);
      }
    }
  }

  lemma ReapOwes(p: Pool, done: seq<(UnitId, Outcome)>, size: nat, u: UnitId)
    requires Reapable(p, done) && u < |p.units|
    ensures |Reap(p, done, size).units| == |p.units|
    ensures Reaps(p, Reap(p, done, size), u, OutcomeOf(done, u), size)
  {
    CompleteAllOwes(p.(inFlight := (p.inFlight - |done|) % TWO32), done, size, u);
  }

  // ----- over whole runs

  /** How `u` may get back on the freelist: the job puts it back unused, or its transfer is over. */
  predicate GivesUp(p: Pool, a: Action, u: UnitId)
    requires u < |p.units|
  {
    match a
    case PutBack(v) => v == u
    case QueueEvent(v, status, o, size) => v == u && status == Completed && OverAtOnce(p.units[u], o, size)
    case QueuedComplete(done, size) => OutcomeOf(done, u).Some? && Over(p.units[u], OutcomeOf(done, u).value, size)
    case _ => false
  }

  /** The bytes of `u` that the engine has moved with this call, by its own account. */
  function MovedBy(p: Pool, a: Action, u: UnitId): int
    requires u < |p.units|
  {
    match a
    case QueueEvent(v, status, o, _) =>
      if v == u && status == Completed && !o.error then p.units[u].xfer - o.resid else 0
    case QueuedComplete(done, _) =>
      if OutcomeOf(done, u).Some? && !OutcomeOf(done, u).value.error
      then p.units[u].xfer - OutcomeOf(done, u).value.resid else 0
    case _ => 0
  }

  /** What a call does to a unit and its transfer: it gets on the freelist only if it is given up, and
      otherwise its transfer shrinks by what was moved, from the front. */
  predicate Serves(p: Pool, a: Action, q: Pool, u: UnitId) {
    && u < |p.units| == |q.units|
    && (u in q.freelist ==> u in p.freelist || GivesUp(p, a, u))
    && (!(a.Fill? && a.u == u) && u !in p.freelist && u !in q.freelist ==>
          && q.units[u].xfer == p.units[u].xfer - MovedBy(p, a, u)
          && (q.units[u].off - p.units[u].off - MovedBy(p, a, u)) % TWO64 == 0)
  }

  lemma GetServes(p: Pool, a: Action, u: UnitId)
    requires a.GetIoU? && Enabled(p, a) && u < |p.units|
    ensures Serves(p, a, Get(p, a.stopIo, a.fsyncing, a.qd).0, u)
  {
    GetAnswers(p, a.stopIo, a.fsyncing, a.qd);
    var (q, r) := Get(p, a.stopIo, a.fsyncing, a.qd);
    if r.Some? && q.requeues == p.requeues {
      assert p.freelist[|p.freelist| - 1] in p.freelist;
    }
  }

  lemma RangeShrinks(x: Unit, y: Unit, resid: nat)
    requires Rest(x, y, resid)
    ensures (y.off - x.off - (x.xfer - resid)) % TWO64 == 0
  {
    var n := x.off + x.xfer - resid;
    assert n % TWO64 - n == -(n / TWO64) * TWO64;
    ModShift(0, -(n / TWO64), TWO64);
  }

  lemma HandlesServes(p: Pool, a: Action, q: Pool, u: UnitId)
    requires a.QueueEvent? && Enabled(p, a) && Handles(p, q, a.u, a.status, a.o, a.size) && u < |p.units|
    requires a.status == Completed && a.u == u && u !in q.freelist ==>
      (q.units[u].off - p.units[u].off - (p.units[u].xfer - a.o.resid)) % TWO64 == 0
    ensures Serves(p, a, q, u)
  {
  }

  lemma EventServes(p: Pool, a: Action, u: UnitId)
    requires a.QueueEvent? && Enabled(p, a) && u < |p.units|
    ensures Serves(p, a, IoQueueEvent(p, a.u, a.status, a.o, a.size), u)
  {
    var q := IoQueueEvent(p, a.u, a.status, a.o, a.size);
    assert Handles(p, q, a.u, a.status, a.o, a.size) by { EventOwes(p, a.u, a.status, a.o, a.size); }
    if a.status == Completed && a.u == u && u !in q.freelist {
      RangeShrinks(p.units[u], q.units[u], a.o.resid);
    }
    HandlesServes(p, a, q, u);
  }

  lemma ReapServes(p: Pool, a: Action, u: UnitId)
    requires a.QueuedComplete? && Enabled(p, a) && u < |p.units|
    ensures Serves(p, a, Reap(p, a.done, a.size), u)
  {
    var q, o := Reap(p, a.done, a.size), OutcomeOf(a.done, u);
    ReapOwes(p, a.done, a.size, u);
    if o.Some? && !Over(p.units[u], o.value, a.size) {
      RangeShrinks(p.units[u], q.units[u], o.value.resid);
    }
  }

  lemma QueuesServes(c: Config, p: Pool, q: Pool, v: UnitId, status: QStatus, a: Action, u: UnitId)
    requires v < |p.units| && u < |p.units| && (q == p || Queues(c, p, q, v, status)) && (a.IoUSubmit? || a.QueueSync?)
    ensures Serves(p, a, q, u)
  {
    assert u != v || q == p || SameRange(p.units[u], q.units[u]);
  }

  lemma StepServes(c: Config, p: Pool, a: Action, q: Pool, u: UnitId)
    requires Inv(c, p) && Enabled(p, a) && q == Step(c, p, a) && u < |p.units|
    ensures Serves(p, a, q, u)
  {
    match a
    case GetIoU(_, _, _) => GetServes(p, a, u);
    case IoUSubmit(v, status, resid) =>
      SubmitAnswers(c, p, v, status, resid);
      QueuesServes(c, p, q, v, status, a, u);
    case QueueSync(v, status) =>
      QueueAnswers(c, p, v, false, status, 0);
      QueuesServes(c, p, q, v, status, a, u);
    case QueueEvent(_, _, _, _) => EventServes(p, a, u);
    case QueuedComplete(_, _) => ReapServes(p, a, u);
    case _ => assert a.TdIoCommit? ==> q.units == p.units && q.freelist == p.freelist;
  }

  /** In every run a unit gets back on the freelist only if the job puts it back unused, or a
      completion finds its transfer over: no unit is given up with bytes left inside the file and no
      error. */
  lemma FreedOnlyWhenOver(c: Config, depth: nat, acts: seq<Action>, trace: seq<Pool>, k: nat, u: UnitId)
    requires IsRun(c, depth, acts, trace) && k < |acts| && u < depth
    ensures |trace[k].units| == depth
    ensures u in trace[k + 1].freelist ==> u in trace[k].freelist || GivesUp(trace[k], acts[k], u)
  {
    RunInv(c, depth, acts, trace, k);
    StepServes(c, trace[k], acts[k], trace[k + 1], u);
  }

  /** Since `acts[i]` filled unit `u` it has been in use, and was not filled again. */
  ghost predicate InUse(acts: seq<Action>, trace: seq<Pool>, i: nat, k: nat, u: UnitId) {
    && i < k <= |acts| < |trace| && acts[i].Fill? && acts[i].u == u
    && (forall j :: i < j < k ==> !(acts[j].Fill? && acts[j].u == u))
    && (forall j :: i < j <= k ==> u !in trace[j].freelist)
  }

  ghost predicate Served(acts: seq<Action>, trace: seq<Pool>, i: nat, k: nat, u: UnitId) {
    && i < k <= |acts| < |trace| && u < |trace[k].units|
    && forall j :: i < j < k ==> Serves(trace[j], acts[j], trace[j + 1], u)
  }

  lemma RunServed(c: Config, depth: nat, acts: seq<Action>, trace: seq<Pool>, i: nat, k: nat, u: UnitId)
    requires IsRun(c, depth, acts, trace) && i < k <= |acts| && u < depth
    ensures Served(acts, trace, i, k, u)
  {
    assert u < |trace[k].units| by { RunInv(c, depth, acts, trace, k); }
    forall j | i < j < k
      ensures Serves(trace[j], acts[j], trace[j + 1], u)
    {
      RunInv(c, depth, acts, trace, j);
      StepServes(c, trace[j], acts[j], trace[j + 1], u);
    }
  }

  lemma ServedLess(acts: seq<Action>, trace: seq<Pool>, i: nat, k: nat, u: UnitId)
    requires Served(acts, trace, i, k, u) && i + 1 < k
    ensures Served(acts, trace, i, k - 1, u) && Serves(trace[k - 1], acts[k - 1], trace[k], u)
  {
    assert Serves(trace[k - 1], acts[k - 1], trace[k - 1 + 1], u);
  }

  /** The bytes moved for unit `u` by the calls from `i + 1` up to `k`. */
  ghost function Moved(acts: seq<Action>, trace: seq<Pool>, i: nat, k: nat, u: UnitId): int
    requires Served(acts, trace, i, k, u)
  {
    if k == i + 1 then 0
    else
      ServedLess(acts, trace, i, k, u);
      Moved(acts, trace, i, k - 1, u) + MovedBy(trace[k - 1], acts[k - 1], u)
  }

  lemma Filled(c: Config, p: Pool, a: Action, q: Pool)
    requires Enabled(p, a) && a.Fill? && q == Step(c, p, a)
    ensures a.u < |q.units| && q.units[a.u].off == a.off && q.units[a.u].xfer == a.len
  {
  }

  /** Of a transfer of `len` bytes from `off` on, `moved` bytes are done. */
  predicate PartDone(x: Unit, off: nat, len: nat, moved: int) {
    moved + x.xfer == len && (x.off - off - moved) % TWO64 == 0
  }

  lemma MorePartDone(x: Unit, y: Unit, off: nat, len: nat, moved: int, more: int)
    requires PartDone(x, off, len, moved)
    requires y.xfer == x.xfer - more && (y.off - x.off - more) % TWO64 == 0
    ensures PartDone(y, off, len, moved + more)
  {
  }

  lemma {:induction false} PartsDone(acts: seq<Action>, trace: seq<Pool>, i: nat, k: nat, u: UnitId)
    requires Served(acts, trace, i, k, u) && InUse(acts, trace, i, k, u)
    requires u < |trace[i + 1].units| && PartDone(trace[i + 1].units[u], acts[i].off, acts[i].len, 0)
    ensures PartDone(trace[k].units[u], acts[i].off, acts[i].len, Moved(acts, trace, i, k, u))
  {
    if i + 1 < k {
      ServedLess(acts, trace, i, k, u);
      PartsDone(acts, trace, i, k - 1, u);
      MorePartDone(trace[k - 1].units[u], trace[k].units[u], acts[i].off, acts[i].len,
                   Moved(acts, trace, i, k - 1, u), MovedBy(trace[k - 1], acts[k - 1], u));
    }
  }

  /** While a unit is in use, in every run: the bytes moved since it was filled and the bytes of its
      transfer make the length it was filled with, and its offset has advanced by the bytes moved. */
  lemma TransferKept(c: Config, depth: nat, acts: seq<Action>, trace: seq<Pool>, i: nat, k: nat, u: UnitId)
    requires IsRun(c, depth, acts, trace) && InUse(acts, trace, i, k, u) && u < depth
    ensures Served(acts, trace, i, k, u)
    ensures PartDone(trace[k].units[u], acts[i].off, acts[i].len, Moved(acts, trace, i, k, u))
  {
    RunServed(c, depth, acts, trace, i, k, u);
    Filled(c, trace[i], acts[i], trace[i + 1]);
    PartsDone(acts, trace, i, k, u);
  }

  /** The call finds all bytes of `u` moved, without an error. */
  predicate FindsAllMoved(p: Pool, a: Action, u: UnitId) {
    match a
    case QueueEvent(v, status, o, _) => v == u && status == Completed && !o.error && o.resid == 0
    case QueuedComplete(done, _) => OutcomeOf(done, u) == Some(Outcome(false, 0))
    case _ => false
  }

  /** So when a completion finds nothing left, the bytes moved since the unit was filled are all the
      bytes it was filled with. */
  lemma WholeTransferMoved(c: Config, depth: nat, acts: seq<Action>, trace: seq<Pool>, i: nat, k: nat, u: UnitId)
    requires IsRun(c, depth, acts, trace) && InUse(acts, trace, i, k, u) && u < depth && k < |acts|
    requires FindsAllMoved(trace[k], acts[k], u)
    ensures Served(acts, trace, i, k, u)
    ensures Moved(acts, trace, i, k, u) + MovedBy(trace[k], acts[k], u) == acts[i].len
  {
    TransferKept(c, depth, acts, trace, i, k, u);
  }

  // ----- what the engine has taken

  /** A unit that the engine has taken is touched by nothing but the reaping of its own completion. */
  lemma AcceptedStays(c: Config, p: Pool, a: Action, q: Pool, u: UnitId)
    requires Inv(c, p) && Enabled(p, a) && q == Step(c, p, a) && u < |p.units| && p.units[u].accepted
    requires a.QueuedComplete? ==> OutcomeOf(a.done, u).None?
    ensures u < |q.units| && q.units[u] == p.units[u]
  {
    assert FlagsAgree(p.units[u]);
    match a
    case GetIoU(stopIo, fsyncing, qd) =>
      GetAnswers(p, stopIo, fsyncing, qd);
      GetKeeps(c, p, stopIo, fsyncing, qd);
    case IoUSubmit(v, status, resid) => SubmitAnswers(c, p, v, status, resid);
    case QueueSync(v, status) => QueueAnswers(c, p, v, false, status, 0);
    case QueueEvent(v, status, o, size) => EventOwes(p, v, status, o, size);
    case QueuedComplete(done, size) => ReapOwes(p, done, size, u);
    case _ =>
  }

  /** The engine has unit `u`, with the transfer of `x`. */
  predicate Holds(p: Pool, u: UnitId, x: Unit) {
    && u < |p.units| && p.units[u].accepted && p.units[u].flight && !p.units[u].free
    && SameRange(x, p.units[u])
  }

  lemma HoldsFrom(c: Config, p: Pool, a: Action, q: Pool, u: UnitId)
    requires Inv(c, p) && Enabled(p, a) && q == Step(c, p, a) && u < |p.units|
    requires a.IoUSubmit? && a.u == u && a.status == Queued && !(c.serialize && Overlaps(p, u))
    ensures Holds(q, u, p.units[u])
  {
    SubmitAnswers(c, p, u, Queued, a.resid);
  }

  lemma HoldsOn(c: Config, p: Pool, a: Action, q: Pool, u: UnitId, x: Unit)
    requires Inv(c, p) && Enabled(p, a) && q == Step(c, p, a) && Holds(p, u, x)
    requires a.QueuedComplete? ==> OutcomeOf(a.done, u).None?
    ensures Holds(q, u, x)
  {
    AcceptedStays(c, p, a, q, u);
  }

  /** In every run a unit that the engine answered QUEUED for stays in flight, with its transfer as
      it was submitted, until a batch of completions has it. */
  lemma {:induction false} QueuedUntilReaped(c: Config, depth: nat, acts: seq<Action>, trace: seq<Pool>,
                                             i: nat, k: nat, u: UnitId)
    requires IsRun(c, depth, acts, trace) && i < k <= |acts| && u < |trace[i].units|
    requires acts[i].IoUSubmit? && acts[i].u == u && acts[i].status == Queued
    requires !(c.serialize && Overlaps(trace[i], u))
    requires forall j :: i < j < k && acts[j].QueuedComplete? ==> OutcomeOf(acts[j].done, u).None?
    ensures Holds(trace[k], u, trace[i].units[u])
  {
    RunInv(c, depth, acts, trace, k - 1);
    if k == i + 1 {
      HoldsFrom(c, trace[i], acts[i], trace[k], u);
    } else {
      QueuedUntilReaped(c, depth, acts, trace, i, k - 1, u);
      HoldsOn(c, trace[k - 1], acts[k - 1], trace[k], u, trace[i].units[u]);
    }
  }
}
