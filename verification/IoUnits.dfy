/** The life cycle of io units (io_u.c, ioengines.c, backend.c) on values: units move between
    the freelist, the requeue ring and the hands of the job, under cur_depth, the flag bits
    and the two submission counters.  Engine results are inputs.  ThreadData refines this. */
module IoUnits {
  import opened Bits
  import opened Counting
  import opened Options
  import opened UnitQueues

  /** `free`, `flight` and `inDepth` are the flag bits FREE, FLIGHT and IN_CUR_DEPTH; `rw` says
      that the direction is read, write or trim; `checked` that the unit went out through
      io_u_submit; `accepted` that the engine took it as QUEUED and has not handed it back. */
  datatype Unit = Unit(free: bool, flight: bool, inDepth: bool, rw: bool, checked: bool, accepted: bool,
                       off: nat, buflen: nat, xfer: nat, resid: nat)

  datatype Pool = Pool(freelist: seq<UnitId>, requeues: seq<UnitId>, units: seq<Unit>,
                       curDepth: int, queued: nat, inFlight: nat)

  datatype Config = Config(serialize: bool, batch: nat)

  datatype QStatus = Completed | Queued | Busy | Failed

  datatype Outcome = Outcome(error: bool, resid: nat)

  // ----- the operations

  function SetUnit(p: Pool, u: UnitId, x: Unit): Pool
    requires u < |p.units|
  {
    p.(units := p.units[u := x])
  }

  /** The two lists hold units of this job. */
  predicate ListsInRange(p: Pool) {
    (forall u :: u in p.freelist ==> u < |p.units|) && (forall u :: u in p.requeues ==> u < |p.units|)
  }

  /** queue_full; `qd` is latency_qd when a latency target is set. */
  predicate QueueFull(p: Pool, qd: Option<nat>) {
    p.freelist == [] || (qd.Some? && p.curDepth >= qd.value)
  }

  function Take(p: Pool, u: UnitId): Pool
    requires u < |p.units|
  {
    SetUnit(p, u, p.units[u].(free := false, inDepth := true, resid := 0)).(curDepth := p.curDepth + 1)
  }

  /** __get_io_u: requeued units first, then the top of the freelist. */
  function Get(p: Pool, stopIo: bool, fsyncing: bool, qd: Option<nat>): (Pool, Option<UnitId>)
    requires ListsInRange(p)
  {
    if stopIo then (p, None)
    else if !fsyncing && p.requeues != [] then
      var u := p.requeues[0];
      assert u in p.requeues;
      (Take(p.(requeues := p.requeues[1..]), u), Some(u))
    else if !QueueFull(p, qd) then
      var n, u := |p.freelist| - 1, p.freelist[|p.freelist| - 1];
      assert u in p.freelist;
      (Take(SetUnit(p, u, p.units[u].(buflen := 0)).(freelist := p.freelist[..n]), u), Some(u))
    else (p, None)
  }

  function LeaveDepth(p: Pool, u: UnitId): Pool
    requires u < |p.units|
  {
    SetUnit(p, u, p.units[u].(free := true)).(curDepth := if p.units[u].inDepth then p.curDepth - 1 else p.curDepth)
  }

  /** put_io_u. */
  function Put(p: Pool, u: UnitId): Pool
    requires u < |p.units|
  {
    LeaveDepth(p, u).(freelist := p.freelist + [u])
  }

  function Land(p: Pool, u: UnitId): Pool
    requires u < |p.units|
  {
    SetUnit(p, u, p.units[u].(flight := false))
  }

  /** clear_io_u. */
  function Clear(p: Pool, u: UnitId): Pool
    requires u < |p.units|
  {
    Put(Land(p, u), u)
  }

  /** requeue_io_u. */
  function Requeue(p: Pool, u: UnitId): Pool
    requires u < |p.units|
  {
    LeaveDepth(Land(p, u), u).(requeues := p.requeues + [u])
  }

  predicate Clash(a: Unit, b: Unit) {
    a.off < b.off + b.buflen && b.off < a.off + a.buflen
  }

  /** in_flight_overlap over the list of all units. */
  predicate InFlightOverlap(p: Pool, u: UnitId)
    requires u < |p.units|
  {
    exists v: nat :: v < |p.units| && p.units[v].flight && Clash(p.units[u], p.units[v])
  }

  /** td_io_commit; the engine's own commit hook does not touch these counters. */
  function Commit(p: Pool): Pool {
    if p.curDepth == 0 || p.queued == 0 then p
    else p.(inFlight := (p.inFlight + p.queued) % TWO32, queued := 0)
  }

  /** td_io_queue with the engine's answer `status` (and residual, when it completed). */
  function TdIoQueue(c: Config, p: Pool, u: UnitId, viaSubmit: bool, status: QStatus, resid: nat): Pool
    requires u < |p.units|
  {
    var x := p.units[u].(flight := true, checked := viaSubmit, resid := 0);
    match status
    case Busy => SetUnit(p, u, x.(flight := false))
    case Failed => SetUnit(p, u, x)
    case Completed => SetUnit(p, u, x.(resid := resid))
    case Queued =>
      var q := SetUnit(p, u, x.(accepted := true)).(queued := (p.queued + 1) % TWO32);
      if q.queued >= c.batch then Commit(q) else q
  }

  /** io_u_submit: refuse a unit that overlaps one in flight, but only look when there is
      more than one unit out. */
  function Submit(c: Config, p: Pool, u: UnitId, status: QStatus, resid: nat): (Pool, QStatus)
    requires u < |p.units|
  {
    if c.serialize && p.curDepth > 1 && InFlightOverlap(p, u) then (p, Busy)
    else (TdIoQueue(c, p, u, true, status, resid), status)
  }

  /** Advance past the bytes moved by a short transfer, in 64-bit arithmetic: a residual larger
      than the transfer moves the offset back. */
  function Advance(x: Unit, resid: nat): Unit {
    x.(xfer := resid, off := (x.off + x.xfer - resid) % TWO64)
  }

  /** The residual is neither nothing nor everything. */
  predicate Partial(x: Unit, resid: nat) {
    resid > 0 && resid != x.xfer
  }

  /** io_completed followed by its caller's put_io_u. */
  function IoCompleted(p: Pool, u: UnitId, o: Outcome, size: nat): Pool
    requires u < |p.units|
  {
    var q := Land(p, u);
    var x := q.units[u];
    if !o.error && x.rw && Partial(x, o.resid) then
      var y := Advance(x, o.resid);
      if y.off < size then Requeue(SetUnit(q, u, y), u) else Put(SetUnit(q, u, y), u)
    else Put(q, u)
  }

  /** io_queue_event after io_u_submit returned `status`. */
  function IoQueueEvent(p: Pool, u: UnitId, status: QStatus, o: Outcome, size: nat): Pool
    requires u < |p.units|
  {
    match status
    case Busy => Commit(Requeue(p, u))
    case Queued => p
    case Failed => p
    case Completed =>
      if o.error || (o.resid > 0 && o.resid == p.units[u].xfer) then Clear(p, u)
      else if o.resid > 0 then
        var y := Advance(p.units[u], o.resid);
        if y.off == size then IoCompleted(SetUnit(p, u, y), u, o, size) else Requeue(SetUnit(p, u, y), u)
      else IoCompleted(p, u, o, size)
  }

  /** The engine gives up a unit it had accepted. */
  function HandBack(p: Pool, u: UnitId): Pool
    requires u < |p.units|
  {
    SetUnit(p, u, p.units[u].(accepted := false))
  }

  function ReapOne(p: Pool, d: (UnitId, Outcome), size: nat): Pool
    requires d.0 < |p.units|
  {
    IoCompleted(HandBack(p, d.0), d.0, d.1, size)
  }

  /** ios_completed over the events an engine returned. */
  function CompleteAll(p: Pool, done: seq<(UnitId, Outcome)>, size: nat): (q: Pool)
    requires forall d :: d in done ==> d.0 < |p.units|
    decreases |done|
  {
    if done == [] then p
    else
      CompleteAll(ReapOne(p, done[0], size), done[1..], size)
  }

  /** td_io_getevents returning |done| events, then ios_completed. */
  function Reap(p: Pool, done: seq<(UnitId, Outcome)>, size: nat): Pool
    requires forall d :: d in done ==> d.0 < |p.units|
  {
    CompleteAll(p.(inFlight := (p.inFlight - |done|) % TWO32), done, size)
  }

  // ----- the invariant

  function Idle(p: Pool): seq<UnitId> {
    p.freelist + p.requeues
  }

  /** The units out of both lists: their FREE bit is clear. */
  function Held(units: seq<Unit>): set<UnitId> {
    set u | u in Below(|units|) && !units[u].free
  }

  function Accepted(units: seq<Unit>): set<UnitId> {
    set u | u in Below(|units|) && units[u].accepted
  }

  /** Every unit is in exactly one of freelist, ring and held. */
  ghost predicate Placed(p: Pool) {
    NoDup(Idle(p)) && Elements(Idle(p)) == Below(|p.units|) - Held(p.units)
  }

  lemma IdleInRange(p: Pool)
    requires Placed(p)
    ensures ListsInRange(p)
  {
    forall u | u in p.freelist || u in p.requeues
      ensures u in Elements(Idle(p))
    {
    }
  }

  predicate FlagsAgree(x: Unit) {
    (!x.free ==> x.inDepth) && (x.flight ==> !x.free) && (x.accepted ==> x.flight)
  }

  predicate AllAgree(units: seq<Unit>) {
    forall u :: 0 <= u < |units| ==> FlagsAgree(units[u])
  }

  ghost predicate Conserved(p: Pool) {
    && Placed(p)
    && AllAgree(p.units)
    && p.curDepth == |Held(p.units)|
  }

  predicate InFlightChecked(x: Unit) {
    x.flight && x.checked
  }

  /** No two units that went out through io_u_submit and are in flight overlap. */
  ghost predicate Disjoint(units: seq<Unit>) {
    forall u, v | 0 <= u < |units| && 0 <= v < |units| && u != v ::
      InFlightChecked(units[u]) && InFlightChecked(units[v]) ==> !Clash(units[u], units[v])
  }

  /** The two counters together, modulo 2^32, count what the engine holds. */
  ghost predicate Counted(p: Pool) {
    && p.queued < TWO32 && p.inFlight < TWO32
    && (p.queued + p.inFlight) % TWO32 == |Accepted(p.units)| % TWO32
  }

  ghost predicate Inv(c: Config, p: Pool) {
    Conserved(p) && Counted(p) && (c.serialize ==> Disjoint(p.units))
  }

  lemma HeldSize(p: Pool)
    requires Conserved(p)
    ensures |Idle(p)| + p.curDepth == |p.units|
  {
    ElementsSize(Idle(p));
    assert Below(|p.units|) == Held(p.units) + Elements(Idle(p));
  }

  /** While a unit is out there is room for it both on the freelist and in the ring, so
      neither of the two full asserts can fire. */
  lemma RoomForHeld(p: Pool, u: UnitId)
    requires Conserved(p) && u < |p.units| && !p.units[u].free
    ensures p.curDepth >= 1 && |p.freelist| < |p.units| && |p.requeues| < |p.units|
  {
    HeldSize(p);
    assert u in Held(p.units);
  }

  /** A unit that is the only one out overlaps nothing, so the scan may be skipped. */
  lemma SoleUnitAlone(p: Pool, u: UnitId, v: UnitId)
    requires Conserved(p) && u < |p.units| && !p.units[u].free && p.curDepth <= 1
    requires v < |p.units| && v != u
    ensures !p.units[v].flight
  {
    if p.units[v].flight {
      AtMostOne(Held(p.units), u, v);
    }
  }

  // ----- what each operation keeps

  lemma SetsAfter(units: seq<Unit>, u: UnitId, x: Unit)
    requires u < |units|
    ensures Held(units[u := x]) == if x.free then Held(units) - {u} else Held(units) + {u}
    ensures Accepted(units[u := x]) == if x.accepted then Accepted(units) + {u} else Accepted(units) - {u}
  {
  }

  /** `x` may be in flight beside the other checked units. */
  ghost predicate ClearOf(units: seq<Unit>, u: UnitId, x: Unit) {
    InFlightChecked(x) ==>
      forall v: nat :: v < |units| && v != u && InFlightChecked(units[v]) ==> !Clash(x, units[v])
  }

  lemma DisjointAfter(units: seq<Unit>, u: UnitId, x: Unit)
    requires u < |units| && Disjoint(units) && ClearOf(units, u, x)
    ensures Disjoint(units[u := x])
  {
  }

  lemma AgreeAfter(units: seq<Unit>, u: UnitId, x: Unit)
    requires u < |units| && AllAgree(units) && FlagsAgree(x)
    ensures AllAgree(units[u := x])
  {
  }

  /** Changing a held unit without moving it. */
  lemma SetUnitConserved(p: Pool, u: UnitId, x: Unit)
    requires Conserved(p) && u < |p.units| && !p.units[u].free && !x.free && FlagsAgree(x)
    ensures Conserved(SetUnit(p, u, x))
  {
    AgreeAfter(p.units, u, x);
    SetsAfter(p.units, u, x);
    assert Held(p.units) + {u} == Held(p.units);
  }

  lemma AcceptedSame(units: seq<Unit>, u: UnitId, x: Unit)
    requires u < |units| && x.accepted == units[u].accepted
    ensures Accepted(units[u := x]) == Accepted(units)
  {
  }

  lemma SetUnitKeeps(c: Config, p: Pool, u: UnitId, x: Unit)
    requires Inv(c, p) && u < |p.units| && !p.units[u].free
    requires !x.free && FlagsAgree(x) && x.accepted == p.units[u].accepted
    requires c.serialize ==> ClearOf(p.units, u, x)
    ensures Inv(c, SetUnit(p, u, x))
  {
    var q := SetUnit(p, u, x);
    assert Conserved(q) by { SetUnitConserved(p, u, x); }
    assert Counted(q) by { AcceptedSame(p.units, u, x); }
    if c.serialize { DisjointAfter(p.units, u, x); }
  }

  lemma TakeConserved(p: Pool, q: Pool, u: UnitId, x: Unit)
    requires Conserved(p) && u < |p.units| && u in Elements(Idle(p))
    requires !x.free && x.inDepth && FlagsAgree(x)
    requires NoDup(Idle(q)) && Elements(Idle(q)) == Elements(Idle(p)) - {u}
    requires q.units == p.units[u := x] && q.curDepth == p.curDepth + 1
    ensures Conserved(q)
  {
    assert AllAgree(q.units) by {
      AgreeAfter(p.units, u, x);
    }
    assert Held(q.units) == Held(p.units) + {u} by {
      SetsAfter(p.units, u, x);
    }
    assert u !in Held(p.units);
  }

  lemma TakeKeeps(c: Config, p: Pool, q: Pool, u: UnitId, x: Unit)
    requires Inv(c, p) && u < |p.units| && u in Elements(Idle(p))
    requires !x.free && x.inDepth && !x.flight && !x.accepted
    requires NoDup(Idle(q)) && Elements(Idle(q)) == Elements(Idle(p)) - {u}
    requires q.units == p.units[u := x] && q.curDepth == p.curDepth + 1
    requires q.queued == p.queued && q.inFlight == p.inFlight
    ensures Inv(c, q)
  {
    assert Conserved(q) by { TakeConserved(p, q, u, x); }
    assert Counted(q) by {
      assert FlagsAgree(p.units[u]);
      AcceptedSame(p.units, u, x);
    }
    if c.serialize { DisjointAfter(p.units, u, x); }
  }

  lemma IdleUnit(p: Pool, u: UnitId)
    requires Conserved(p) && u in Idle(p)
    ensures u < |p.units| && p.units[u].free && !p.units[u].flight && !p.units[u].accepted
  {
    assert u in Elements(Idle(p));
    assert FlagsAgree(p.units[u]);
  }

  /** What __get_io_u takes from the idle units: the front of the ring or the top of the stack. */
  lemma GetShape(p: Pool, stopIo: bool, fsyncing: bool, qd: Option<nat>)
    returns (q: Pool, u: UnitId, a: seq<UnitId>, b: seq<UnitId>)
    requires ListsInRange(p) && Get(p, stopIo, fsyncing, qd).1.Some?
    ensures q == Get(p, stopIo, fsyncing, qd).0 && u == Get(p, stopIo, fsyncing, qd).1.value
    ensures Idle(p) == a + [u] + b && Idle(q) == a + b && u < |p.units|
    ensures |q.units| == |p.units| && q.units == p.units[u := q.units[u]] && q.curDepth == p.curDepth + 1
    ensures q.queued == p.queued && q.inFlight == p.inFlight
    ensures !q.units[u].free && q.units[u].inDepth
    ensures q.units[u].flight == p.units[u].flight && q.units[u].accepted == p.units[u].accepted
  {
    q, u := Get(p, stopIo, fsyncing, qd).0, Get(p, stopIo, fsyncing, qd).1.value;
    if !fsyncing && p.requeues != [] {
      a, b := p.freelist, p.requeues[1..];
      assert u in p.requeues;
      assert p.requeues == [u] + b;
    } else {
      a, b := p.freelist[..|p.freelist| - 1], p.requeues;
      assert u in p.freelist;
      assert p.freelist == a + [u];
    }
  }

  /** __get_io_u finds the FREE bit set on what it pops and hands out a unit not in flight. */
  lemma GetKeeps(c: Config, p: Pool, stopIo: bool, fsyncing: bool, qd: Option<nat>)
    requires Inv(c, p)
    ensures ListsInRange(p) && Inv(c, Get(p, stopIo, fsyncing, qd).0)
    ensures var (q, r) := Get(p, stopIo, fsyncing, qd); r.Some? ==>
      r.value < |p.units| == |q.units| && p.units[r.value].free && !q.units[r.value].free && !q.units[r.value].flight
  {
    IdleInRange(p);
    if Get(p, stopIo, fsyncing, qd).1.Some? {
      var q, u, a, b := GetShape(p, stopIo, fsyncing, qd);
      RemoveElement(a, u, b);
      assert u in Idle(p);
      IdleUnit(p, u);
      TakeKeeps(c, p, q, u, q.units[u]);
    }
  }

  lemma LandKeeps(c: Config, p: Pool, u: UnitId)
    requires Inv(c, p) && u < |p.units| && !p.units[u].free && !p.units[u].accepted
    ensures Inv(c, Land(p, u))
  {
    assert FlagsAgree(p.units[u]);
    SetUnitKeeps(c, p, u, p.units[u].(flight := false));
  }

  lemma LeaveConserved(p: Pool, q: Pool, u: UnitId, x: Unit)
    requires Conserved(p) && u < |p.units| && !p.units[u].free
    requires x.free && FlagsAgree(x)
    requires NoDup(Idle(q)) && Elements(Idle(q)) == Elements(Idle(p)) + {u}
    requires q.units == p.units[u := x] && q.curDepth == p.curDepth - 1
    ensures Conserved(q)
  {
    AgreeAfter(p.units, u, x);
    SetsAfter(p.units, u, x);
    assert u in Held(p.units);
  }

  lemma HeldNotIdle(p: Pool, u: UnitId)
    requires Placed(p) && u < |p.units| && !p.units[u].free
    ensures NoDup(Idle(p)) && u !in Idle(p)
  {
    assert u in Held(p.units) && u !in Elements(Idle(p));
  }

  lemma IdleAfterLeave(p: Pool, q: Pool, u: UnitId)
    requires Placed(p) && u < |p.units| && !p.units[u].free
    requires q == Put(p, u) || q == LeaveDepth(p, u).(requeues := p.requeues + [u])
    ensures NoDup(Idle(q)) && Elements(Idle(q)) == Elements(Idle(p)) + {u}
  {
    HeldNotIdle(p, u);
    if q == Put(p, u) {
      InsertElement(p.freelist, u, p.requeues);
      assert Idle(q) == p.freelist + [u] + p.requeues;
    } else {
      assert Idle(p) + [] == Idle(p) && Idle(p) + [u] + [] == Idle(q);
      InsertElement(Idle(p), u, []);
    }
  }

  lemma LeaveKeeps(c: Config, p: Pool, u: UnitId, q: Pool)
    requires Inv(c, p) && u < |p.units| && !p.units[u].free && !p.units[u].flight
    requires q == Put(p, u) || q == LeaveDepth(p, u).(requeues := p.requeues + [u])
    ensures Inv(c, q)
  {
    var x := p.units[u].(free := true);
    assert FlagsAgree(p.units[u]);
    assert Conserved(q) by {
      IdleAfterLeave(p, q, u);
      LeaveConserved(p, q, u, x);
    }
    assert Counted(q) by { AcceptedSame(p.units, u, x); }
    if c.serialize { DisjointAfter(p.units, u, x); }
  }

  lemma PutKeeps(c: Config, p: Pool, u: UnitId)
    requires Inv(c, p) && u < |p.units| && !p.units[u].free && !p.units[u].flight
    ensures Inv(c, Put(p, u))
  {
    LeaveKeeps(c, p, u, Put(p, u));
  }

  lemma RequeueKeeps(c: Config, p: Pool, u: UnitId)
    requires Inv(c, p) && u < |p.units| && !p.units[u].free && !p.units[u].accepted
    ensures Inv(c, Requeue(p, u))
  {
    LandKeeps(c, p, u);
    LeaveKeeps(c, Land(p, u), u, Requeue(p, u));
  }

  lemma CommitKeeps(c: Config, p: Pool)
    requires Inv(c, p)
    ensures Inv(c, Commit(p))
  {
    assert Idle(Commit(p)) == Idle(p);
  }

  lemma OneMore(q: nat, f: nat, n: nat)
    requires (q + f) % TWO32 == n % TWO32
    ensures ((q + 1) % TWO32 + f) % TWO32 == (n + 1) % TWO32
  {
    var k, l := (q + 1) / TWO32, (q + f) / TWO32 - n / TWO32;
    assert q + 1 == k * TWO32 + (q + 1) % TWO32 && q + f == n + l * TWO32;
    ModShift((q + 1) % TWO32 + f, k, TWO32);
    ModShift(n + 1, l, TWO32);
  }

  lemma AcceptedMore(units: seq<Unit>, u: UnitId, x: Unit)
    requires u < |units| && x.accepted && !units[u].accepted
    ensures |Accepted(units[u := x])| == |Accepted(units)| + 1
  {
    SetsAfter(units, u, x);
  }

  lemma QueuedKeeps(c: Config, p: Pool, u: UnitId, x: Unit)
    requires Inv(c, p) && u < |p.units| && !p.units[u].free && !p.units[u].accepted
    requires !x.free && x.flight && x.accepted && FlagsAgree(x)
    requires c.serialize ==> ClearOf(p.units, u, x)
    ensures Inv(c, SetUnit(p, u, x).(queued := (p.queued + 1) % TWO32))
  {
    var q := SetUnit(p, u, x).(queued := (p.queued + 1) % TWO32);
    assert Conserved(q) by {
      SetUnitConserved(p, u, x);
      assert Idle(q) == Idle(SetUnit(p, u, x));
    }
    assert Counted(q) by {
      AcceptedMore(p.units, u, x);
      OneMore(p.queued, p.inFlight, |Accepted(p.units)|);
    }
    if c.serialize { DisjointAfter(p.units, u, x); }
  }

  lemma QueuedCommitKeeps(c: Config, p: Pool, u: UnitId, viaSubmit: bool)
    requires Inv(c, p) && u < |p.units| && !p.units[u].free && !p.units[u].flight
    requires c.serialize ==> ClearOf(p.units, u, p.units[u].(flight := true, checked := viaSubmit))
    ensures Inv(c, TdIoQueue(c, p, u, viaSubmit, Queued, 0))
  {
    var x := p.units[u].(flight := true, checked := viaSubmit, resid := 0, accepted := true);
    var q := SetUnit(p, u, x).(queued := (p.queued + 1) % TWO32);
    assert Inv(c, q) by {
      assert FlagsAgree(p.units[u]);
      QueuedKeeps(c, p, u, x);
    }
    assert Inv(c, Commit(q)) by {
      CommitKeeps(c, q);
    }
    QueuedShape(c, p, u, viaSubmit, x, q);
  }

  lemma QueuedShape(c: Config, p: Pool, u: UnitId, viaSubmit: bool, x: Unit, q: Pool)
    requires u < |p.units| && q == SetUnit(p, u, x).(queued := (p.queued + 1) % TWO32)
    requires x == p.units[u].(flight := true, checked := viaSubmit, resid := 0, accepted := true)
    ensures TdIoQueue(c, p, u, viaSubmit, Queued, 0) == if q.queued >= c.batch then Commit(q) else q
  {
  }

  lemma TdIoQueueKeeps(c: Config, p: Pool, u: UnitId, viaSubmit: bool, status: QStatus, resid: nat)
    requires Inv(c, p) && u < |p.units| && !p.units[u].free && !p.units[u].flight
    requires c.serialize ==> ClearOf(p.units, u, p.units[u].(flight := true, checked := viaSubmit))
    ensures Inv(c, TdIoQueue(c, p, u, viaSubmit, status, resid))
  {
    if status == Queued {
      QueuedCommitKeeps(c, p, u, viaSubmit);
    } else {
      assert FlagsAgree(p.units[u]);
      SetUnitKeeps(c, p, u, TdIoQueue(c, p, u, viaSubmit, status, resid).units[u]);
    }
  }

  /** Skipping the scan when at most one unit is out never changes its answer. */
  lemma ShortcutExact(p: Pool, u: UnitId)
    requires Conserved(p) && u < |p.units| && !p.units[u].free && !p.units[u].flight
    ensures InFlightOverlap(p, u) <==> p.curDepth > 1 && InFlightOverlap(p, u)
  {
    if InFlightOverlap(p, u) && p.curDepth <= 1 {
      var v: nat :| v < |p.units| && p.units[v].flight && Clash(p.units[u], p.units[v]);
      SoleUnitAlone(p, u, v);
    }
  }

  lemma SubmitKeeps(c: Config, p: Pool, u: UnitId, status: QStatus, resid: nat)
    requires Inv(c, p) && u < |p.units| && !p.units[u].free && !p.units[u].flight
    ensures Inv(c, Submit(c, p, u, status, resid).0)
  {
    ShortcutExact(p, u);
    if !(c.serialize && InFlightOverlap(p, u)) {
      TdIoQueueKeeps(c, p, u, true, status, resid);
    }
  }

  lemma IoCompletedKeeps(c: Config, p: Pool, u: UnitId, o: Outcome, size: nat)
    requires Inv(c, p) && u < |p.units| && !p.units[u].free && !p.units[u].accepted
    ensures Inv(c, IoCompleted(p, u, o, size))
  {
    LandKeeps(c, p, u);
    var q := Land(p, u);
    var y := Advance(q.units[u], o.resid);
    SetUnitKeeps(c, q, u, y);
    if !o.error && q.units[u].rw && Partial(q.units[u], o.resid) {
      if y.off < size {
        RequeueKeeps(c, SetUnit(q, u, y), u);
      } else {
        PutKeeps(c, SetUnit(q, u, y), u);
      }
    } else {
      PutKeeps(c, q, u);
    }
  }

  lemma IoQueueEventKeeps(c: Config, p: Pool, u: UnitId, status: QStatus, o: Outcome, size: nat)
    requires Inv(c, p) && u < |p.units|
    requires status.Busy? || status.Completed? ==> !p.units[u].free && !p.units[u].accepted
    ensures Inv(c, IoQueueEvent(p, u, status, o, size))
  {
    match status
    case Busy =>
      RequeueKeeps(c, p, u);
      CommitKeeps(c, Requeue(p, u));
    case Queued =>
    case Failed =>
    case Completed =>
      if o.error || (o.resid > 0 && o.resid == p.units[u].xfer) {
        LandKeeps(c, p, u);
        PutKeeps(c, Land(p, u), u);
      } else if o.resid > 0 {
        AdvanceKeeps(c, p, u, Advance(p.units[u], o.resid), o, size);
      } else {
        IoCompletedKeeps(c, p, u, o, size);
      }
  }

  /** The offset of a short unit moves while FLIGHT is still set, but both continuations
      clear the flag before anything else is submitted. */
  lemma AdvanceKeeps(c: Config, p: Pool, u: UnitId, y: Unit, o: Outcome, size: nat)
    requires Inv(c, p) && u < |p.units| && !p.units[u].free && !p.units[u].accepted
    requires y == Advance(p.units[u], o.resid)
    ensures Inv(c, Requeue(SetUnit(p, u, y), u))
    ensures Inv(c, IoCompleted(SetUnit(p, u, y), u, o, size))
  {
    var q := SetUnit(Land(p, u), u, y.(flight := false));
    assert Inv(c, q) by {
      LandKeeps(c, p, u);
      SetUnitKeeps(c, Land(p, u), u, y.(flight := false));
    }
    assert q.units[u] == y.(flight := false);
    LandFirst(p, u, y, q, o, size);
    RequeueKeeps(c, q, u);
    IoCompletedKeeps(c, q, u, o, size);
  }

  lemma LandFirst(p: Pool, u: UnitId, y: Unit, q: Pool, o: Outcome, size: nat)
    requires u < |p.units| && q == SetUnit(Land(p, u), u, y.(flight := false))
    ensures Requeue(SetUnit(p, u, y), u) == Requeue(q, u)
    ensures IoCompleted(SetUnit(p, u, y), u, o, size) == IoCompleted(q, u, o, size)
  {
    assert q.units == p.units[u := y.(flight := false)];
    assert Land(SetUnit(p, u, y), u).units == q.units;
    assert Land(q, u).units == q.units;
  }

  // ----- reaping

  lemma OneLess(q: nat, f: nat, n: nat)
    requires f < TWO32 && n > 0 && (q + f) % TWO32 == n % TWO32
    ensures (q + (f - 1) % TWO32) % TWO32 == (n - 1) % TWO32
  {
  }

  lemma AcceptedLess(units: seq<Unit>, u: UnitId)
    requires u < |units| && units[u].accepted
    ensures |Accepted(units[u := units[u].(accepted := false)])| == |Accepted(units)| - 1
  {
    SetsAfter(units, u, units[u].(accepted := false));
    assert u in Accepted(units);
  }

  lemma HandBackKeeps(c: Config, p: Pool, u: UnitId)
    requires Inv(c, p) && u < |p.units| && p.units[u].accepted
    ensures Inv(c, HandBack(p, u).(inFlight := (p.inFlight - 1) % TWO32))
  {
    var x := p.units[u].(accepted := false);
    var q := HandBack(p, u).(inFlight := (p.inFlight - 1) % TWO32);
    assert FlagsAgree(p.units[u]);
    assert Conserved(q) by {
      SetUnitConserved(p, u, x);
      assert Idle(q) == Idle(SetUnit(p, u, x));
    }
    assert Counted(q) by {
      AcceptedLess(p.units, u);
      assert u in Accepted(p.units);
      OneLess(p.queued, p.inFlight, |Accepted(p.units)|);
    }
    if c.serialize { DisjointAfter(p.units, u, x); }
  }

  /** Completing one unit leaves every other unit and the two counters alone. */
  lemma IoCompletedLocal(p: Pool, u: UnitId, o: Outcome, size: nat)
    requires u < |p.units|
    ensures var q := IoCompleted(p, u, o, size);
      && |q.units| == |p.units| && q.queued == p.queued && q.inFlight == p.inFlight
      && forall v: nat :: v < |p.units| && v != u ==> q.units[v] == p.units[v]
  {
  }

  /** Completion does not look at io_u_in_flight. */
  lemma ReapOneWithCounter(p: Pool, d: (UnitId, Outcome), size: nat, g: nat)
    requires d.0 < |p.units|
    ensures ReapOne(p.(inFlight := g), d, size) == ReapOne(p, d, size).(inFlight := g)
  {
  }

  predicate Reapable(p: Pool, done: seq<(UnitId, Outcome)>) {
    && (forall i :: 0 <= i < |done| ==> done[i].0 < |p.units| && p.units[done[i].0].accepted)
    && (forall i, j :: 0 <= i < j < |done| ==> done[i].0 != done[j].0)
  }

  lemma ReapTail(p: Pool, q: Pool, done: seq<(UnitId, Outcome)>, size: nat)
    requires Reapable(p, done) && done != []
    requires q.units == ReapOne(p, done[0], size).units
    ensures Reapable(q, done[1..])
  {
    IoCompletedLocal(HandBack(p, done[0].0), done[0].0, done[0].1, size);
  }

  /** Reaping one unit and lowering the counter by one. */
  function ReapCounted(p: Pool, d: (UnitId, Outcome), size: nat): Pool
    requires d.0 < |p.units|
  {
    ReapOne(p, d, size).(inFlight := (p.inFlight - 1) % TWO32)
  }

  lemma ReapCountedKeeps(c: Config, p: Pool, d: (UnitId, Outcome), size: nat)
    requires Inv(c, p) && d.0 < |p.units| && p.units[d.0].accepted
    ensures Inv(c, ReapCounted(p, d, size))
  {
    var q := HandBack(p, d.0).(inFlight := (p.inFlight - 1) % TWO32);
    assert Inv(c, q) by {
      HandBackKeeps(c, p, d.0);
    }
    assert !q.units[d.0].free && !q.units[d.0].accepted by {
      assert FlagsAgree(p.units[d.0]);
    }
    assert Inv(c, IoCompleted(q, d.0, d.1, size)) by {
      IoCompletedKeeps(c, q, d.0, d.1, size);
    }
    ReapCountedShape(p, d, size, q);
  }

  lemma ReapCountedShape(p: Pool, d: (UnitId, Outcome), size: nat, q: Pool)
    requires d.0 < |p.units| && q == HandBack(p, d.0).(inFlight := (p.inFlight - 1) % TWO32)
    ensures ReapCounted(p, d, size) == IoCompleted(q, d.0, d.1, size)
  {
    ReapOneWithCounter(p, d, size, (p.inFlight - 1) % TWO32);
    assert HandBack(p.(inFlight := (p.inFlight - 1) % TWO32), d.0) == q;
  }

  lemma LowerOneByOne(g: nat, n: nat)
    requires n > 0
    ensures ((g - 1) % TWO32 - (n - 1)) % TWO32 == (g - n) % TWO32
  {
  }

  /** Lowering the counter by all events first, or by one with each event, is the same. */
  lemma {:induction false} ReapStepwise(p: Pool, done: seq<(UnitId, Outcome)>, size: nat)
    requires done != [] && forall d :: d in done ==> d.0 < |p.units|
    ensures |ReapCounted(p, done[0], size).units| == |p.units|
    ensures Reap(p, done, size) == Reap(ReapCounted(p, done[0], size), done[1..], size)
  {
    IoCompletedLocal(HandBack(p, done[0].0), done[0].0, done[0].1, size);
    LowerOneByOne(p.inFlight, |done|);
    ReapOneWithCounter(p, done[0], size, (p.inFlight - |done|) % TWO32);
  }

  lemma {:induction false} ReapKeeps(c: Config, p: Pool, done: seq<(UnitId, Outcome)>, size: nat)
    requires Inv(c, p) && Reapable(p, done)
    ensures Inv(c, Reap(p, done, size))
    decreases |done|
  {
    if done == [] {
      assert Reap(p, done, size) == p;
    } else {
      ReapStepwise(p, done, size);
      ReapCountedKeeps(c, p, done[0], size);
      ReapTail(p, ReapCounted(p, done[0], size), done, size);
      ReapKeeps(c, ReapCounted(p, done[0], size), done[1..], size);
    }
  }

  lemma HandBackConserved(p: Pool, u: UnitId)
    requires Conserved(p) && u < |p.units| && p.units[u].accepted
    ensures Conserved(HandBack(p, u)) && !HandBack(p, u).units[u].free
  {
    assert FlagsAgree(p.units[u]);
    SetUnitConserved(p, u, p.units[u].(accepted := false));
  }

  // ----- every run

  /** What the submitting thread does with the units, one call at a time; engine answers are
      part of the action. */
  datatype Action =
    | GetIoU(stopIo: bool, fsyncing: bool, qd: Option<nat>)
    | Fill(u: UnitId, rw: bool, off: nat, len: nat)
    | PutBack(u: UnitId)
    | IoUSubmit(u: UnitId, status: QStatus, resid: nat)
    | QueueSync(u: UnitId, status: QStatus)
    | QueueEvent(u: UnitId, status: QStatus, o: Outcome, size: nat)
    | TdIoCommit
    | QueuedComplete(done: seq<(UnitId, Outcome)>, size: nat)

  /** The calling thread owns `u` and the engine does not. */
  predicate Owned(p: Pool, u: UnitId) {
    u < |p.units| && !p.units[u].free && !p.units[u].accepted
  }

  predicate Enabled(p: Pool, a: Action) {
    match a
    case GetIoU(_, _, _) => ListsInRange(p)
    case Fill(u, _, _, _) => Owned(p, u) && !p.units[u].flight
    case PutBack(u) => Owned(p, u) && !p.units[u].flight
    case IoUSubmit(u, _, _) => Owned(p, u) && !p.units[u].flight
    case QueueSync(u, _) => Owned(p, u) && !p.units[u].flight
    case QueueEvent(u, status, _, _) => u < |p.units| && (status.Busy? || status.Completed? ==> Owned(p, u))
    case TdIoCommit => true
    case QueuedComplete(done, _) => Reapable(p, done)
  }

  function Step(c: Config, p: Pool, a: Action): Pool
    requires Enabled(p, a)
  {
    match a
    case GetIoU(stopIo, fsyncing, qd) => Get(p, stopIo, fsyncing, qd).0
    case Fill(u, rw, off, len) => SetUnit(p, u, p.units[u].(rw := rw, off := off, buflen := len, xfer := len))
    case PutBack(u) => Put(p, u)
    case IoUSubmit(u, status, resid) => Submit(c, p, u, status, resid).0
    case QueueSync(u, status) => TdIoQueue(c, p, u, false, status, 0)
    case QueueEvent(u, status, o, size) => IoQueueEvent(p, u, status, o, size)
    case TdIoCommit => Commit(p)
    case QueuedComplete(done, size) => Reap(p, done, size)
  }

  /** What init_io_u builds for a job of the given iodepth. */
  function Init(depth: nat): (p: Pool)
    ensures |p.units| == |p.freelist| == depth
  {
    Pool(seq(depth, i => i), [], seq(depth, i => Unit(true, false, false, false, false, false, 0, 0, 0, 0)), 0, 0, 0)
  }

  lemma InitInv(c: Config, depth: nat)
    ensures Inv(c, Init(depth))
  {
    var p := Init(depth);
    assert Idle(p) == p.freelist;
    assert Held(p.units) == {} && Accepted(p.units) == {};
    forall u: nat | u < depth
      ensures u in Elements(Idle(p))
    {
      assert Idle(p)[u] == u;
    }
    assert Elements(Idle(p)) == Below(depth) - {};
  }

  lemma FillKeeps(c: Config, p: Pool, u: UnitId, rw: bool, off: nat, len: nat)
    requires Inv(c, p) && Owned(p, u) && !p.units[u].flight
    ensures Inv(c, SetUnit(p, u, p.units[u].(rw := rw, off := off, buflen := len, xfer := len)))
  {
    assert FlagsAgree(p.units[u]);
    SetUnitKeeps(c, p, u, p.units[u].(rw := rw, off := off, buflen := len, xfer := len));
  }

  lemma StepKeeps(c: Config, p: Pool, a: Action)
    requires Inv(c, p) && Enabled(p, a)
    ensures Inv(c, Step(c, p, a))
  {
    match a
    case GetIoU(stopIo, fsyncing, qd) => GetKeeps(c, p, stopIo, fsyncing, qd);
    case Fill(u, rw, off, len) => FillKeeps(c, p, u, rw, off, len);
    case PutBack(u) => PutKeeps(c, p, u);
    case IoUSubmit(u, status, resid) => SubmitKeeps(c, p, u, status, resid);
    case QueueSync(u, status) => TdIoQueueKeeps(c, p, u, false, status, 0);
    case QueueEvent(u, status, o, size) => IoQueueEventKeeps(c, p, u, status, o, size);
    case TdIoCommit => CommitKeeps(c, p);
    case QueuedComplete(done, size) => ReapKeeps(c, p, done, size);
  }

  lemma StepSize(c: Config, p: Pool, a: Action)
    requires Enabled(p, a)
    ensures |Step(c, p, a).units| == |p.units|
  {
    match a
    case GetIoU(_, _, _) =>
      assert p.requeues != [] ==> p.requeues[0] in p.requeues;
      assert p.freelist != [] ==> p.freelist[|p.freelist| - 1] in p.freelist;
    case Fill(_, _, _, _) =>
    case PutBack(_) =>
    case IoUSubmit(_, _, _) =>
    case QueueSync(_, _) =>
    case QueueEvent(u, _, o, size) =>
      IoCompletedLocal(p, u, o, size);
      IoCompletedLocal(SetUnit(p, u, Advance(p.units[u], o.resid)), u, o, size);
    case TdIoCommit =>
    case QueuedComplete(done, size) => CompleteAllSize(p.(inFlight := (p.inFlight - |done|) % TWO32), done, size);
  }

  lemma {:induction false} CompleteAllSize(p: Pool, done: seq<(UnitId, Outcome)>, size: nat)
    requires forall d :: d in done ==> d.0 < |p.units|
    ensures |CompleteAll(p, done, size).units| == |p.units|
    decreases |done|
  {
    if done != [] {
      IoCompletedLocal(HandBack(p, done[0].0), done[0].0, done[0].1, size);
      CompleteAllSize(ReapOne(p, done[0], size), done[1..], size);
    }
  }

  /** `trace` is a run of a job of the given depth, driven by `acts`. */
  ghost predicate IsRun(c: Config, depth: nat, acts: seq<Action>, trace: seq<Pool>) {
    && |trace| == |acts| + 1 && trace[0] == Init(depth)
    && forall i :: 0 <= i < |acts| ==> Enabled(trace[i], acts[i]) && trace[i + 1] == Step(c, trace[i], acts[i])
  }

  /** In every state of every run units are conserved, the engine counters add up, and units
      in flight do not overlap. */
  lemma {:induction false} RunInv(c: Config, depth: nat, acts: seq<Action>, trace: seq<Pool>, n: nat)
    requires IsRun(c, depth, acts, trace) && n < |trace|
    ensures Inv(c, trace[n]) && |trace[n].units| == depth
  {
    if n == 0 {
      InitInv(c, depth);
    } else {
      RunInv(c, depth, acts, trace, n - 1);
      assert Enabled(trace[n - 1], acts[n - 1]);
      StepKeeps(c, trace[n - 1], acts[n - 1]);
      StepSize(c, trace[n - 1], acts[n - 1]);
    }
  }

  /** What that means for the asserts of the queue code and for the overlap check. */
  lemma RunSafe(c: Config, depth: nat, acts: seq<Action>, trace: seq<Pool>, n: nat, u: UnitId)
    requires IsRun(c, depth, acts, trace) && n < |trace| && u < depth
    ensures |trace[n].units| == depth
    ensures trace[n].units[u].free <==> u in trace[n].freelist || u in trace[n].requeues
    ensures !(u in trace[n].freelist && u in trace[n].requeues)
    ensures !trace[n].units[u].free ==> |trace[n].freelist| < depth && |trace[n].requeues| < depth
    ensures c.serialize && InFlightChecked(trace[n].units[u]) ==>
      forall v :: 0 <= v < depth && v != u && InFlightChecked(trace[n].units[v]) ==>
        !Clash(trace[n].units[u], trace[n].units[v])
  {
    var p := trace[n];
    RunInv(c, depth, acts, trace, n);
    if !p.units[u].free {
      RoomForHeld(p, u);
    }
    assert p.units[u].free <==> u in Elements(Idle(p));
    if u in p.freelist {
      NoDupApart(p.freelist, p.requeues, u);
    }
  }
}
