/** The same life cycle in place: the stack, the ring and the unit records of a job, each
    method proved to perform exactly the step of module IoUnits. */
module JobUnits {
  import opened Bits
  import opened Counting
  import opened Options
  import opened UnitQueues
  import opened IoUnits
  import opened IoTransfers

  class ThreadData {
    const iodepth: nat
    const freelist: UnitStack
    const requeues: UnitRing
    const all: UnitStack
    const units: array<Unit>
    var curDepth: int
    var queued: nat
    var inFlight: nat

    ghost function Repr(): set<object> {
      {this, freelist, freelist.ious, requeues, requeues.ring, all, all.ious, units}
    }

    ghost predicate Valid()
      reads Repr()
    {
      && freelist.Valid() && requeues.Valid() && all.Valid()
      && freelist != all && freelist.ious != all.ious
      && freelist.max == iodepth && units.Length == iodepth && iodepth < requeues.max
      && all.Contents() == seq(iodepth, i => i)
    }

    ghost function View(): Pool
      requires Valid()
      reads Repr()
    {
      Pool(freelist.Contents(), requeues.Contents(), units[..], curDepth, queued, inFlight)
    }

    /** init_io_u. */
    constructor InitIoU(depth: nat)
      requires depth < TWO32 / 2
      ensures Valid() && fresh(Repr()) && View() == Init(depth) && iodepth == depth
    {
      iodepth := depth;
      freelist := new UnitStack.QInit(depth);
      requeues := new UnitRing.RInit(depth);
      all := new UnitStack.QInit(depth);
      units := new Unit[depth](i => Unit(true, false, false, false, false, false, 0, 0, 0, 0));
      curDepth, queued, inFlight := 0, 0, 0;
      new;
      FillLists();
      assert units[..] == Init(depth).units;
    }

    /** The loop of init_io_u: every unit goes on the freelist and on the list of all units. */
    method FillLists()
      requires freelist.Valid() && all.Valid() && freelist != all && freelist.ious != all.ious
      requires freelist.max == all.max == iodepth && freelist.Contents() == all.Contents() == []
      modifies freelist`nr, freelist.ious, all`nr, all.ious
      ensures freelist.Valid() && freelist.Contents() == seq(iodepth, k => k)
      ensures all.Valid() && all.Contents() == seq(iodepth, k => k)
    {
      for i := 0 to iodepth
        invariant freelist.Valid() && freelist.Contents() == seq(i, k => k)
        invariant all.Valid() && all.Contents() == seq(i, k => k)
      {
        var ok := freelist.QPush(i);
        var ok' := all.QPush(i);
        assert ok && ok';
        assert seq(i, k => k) + [i] == seq(i + 1, k => k);
      }
    }

    /** The common tail of __get_io_u: its assert finds the FREE bit set. */
    method TakeOut(u: UnitId)
      requires Valid() && u < iodepth && units[u].free
      modifies this`curDepth, units
      ensures Valid() && View() == Take(old(View()), u)
    {
      ghost var p := View();
      units[u] := units[u].(free := false, inDepth := true, resid := 0);
      curDepth := curDepth + 1;
      assert units[..] == Take(p, u).units;
    }

    /** The branch of __get_io_u that serves a requeued unit. */
    method GetRequeued() returns (r: Option<UnitId>)
      requires Valid() && Conserved(View()) && View().requeues != []
      modifies Repr()
      ensures Valid() && r == Some(old(View().requeues[0])) && r.value < |old(View()).units|
      ensures View() == Take(old(View()).(requeues := old(View()).requeues[1..]), r.value)
    {
      ghost var p := View();
      assert p.requeues[0] in Idle(p);
      IdleUnit(p, p.requeues[0]);
      r := requeues.RPop();
      assert View() == p.(requeues := p.requeues[1..]);
      TakeOut(r.value);
    }

    /** `io_u->buflen = 0`. */
    method ResetLength(u: UnitId)
      requires Valid() && u < iodepth
      modifies units
      ensures Valid() && View() == SetUnit(old(View()), u, old(View()).units[u].(buflen := 0))
    {
      units[u] := units[u].(buflen := 0);
    }

    /** The branch of __get_io_u that takes the top of the freelist. */
    method GetFree() returns (r: Option<UnitId>)
      requires Valid() && Conserved(View()) && View().freelist != []
      modifies Repr()
      ensures Valid() && r == Some(old(View().freelist[|View().freelist| - 1])) && r.value < |old(View()).units|
      ensures var p := old(View());
        View() == Take(SetUnit(p, r.value, p.units[r.value].(buflen := 0)).(freelist := p.freelist[..|p.freelist| - 1]),
                       r.value)
    {
      ghost var p := View();
      ghost var n, u := |p.freelist| - 1, p.freelist[|p.freelist| - 1];
      assert u in Idle(p);
      IdleUnit(p, u);
      r := freelist.QPop();
      assert r.value == u && freelist.Contents() == p.freelist[..n];
      ResetLength(r.value);
      assert View() == SetUnit(p, u, p.units[u].(buflen := 0)).(freelist := p.freelist[..n]);
      TakeOut(r.value);
    }

    /** __get_io_u. */
    method GetIoU(stopIo: bool, fsyncing: bool, qd: Option<nat>) returns (r: Option<UnitId>)
      requires Valid() && Conserved(View())
      modifies Repr()
      ensures ListsInRange(old(View())) && Valid() && (View(), r) == Get(old(View()), stopIo, fsyncing, qd)
    {
      ghost var p := View();
      IdleInRange(p);
      if stopIo {
        return None;
      }
      if !fsyncing && !requeues.REmpty() {
        r := GetRequeued();
      } else if freelist.nr != 0 && !(qd.Some? && curDepth >= qd.value) {
        r := GetFree();
      } else {
        r := None;
      }
    }

    /** put_io_u; the push cannot hit its assert. */
    method PutIoU(u: UnitId)
      requires Valid() && Conserved(View()) && u < iodepth && !View().units[u].free
      modifies Repr()
      ensures Valid() && View() == Put(old(View()), u)
    {
      ghost var p := View();
      RoomForHeld(p, u);
      units[u] := units[u].(free := true);
      if units[u].inDepth {
        curDepth := curDepth - 1;
      }
      var ok := freelist.QPush(u);
      assert ok;
      assert units[..] == Put(p, u).units;
    }

    /** clear_io_u. */
    method ClearIoU(u: UnitId)
      requires Valid() && Conserved(View()) && u < iodepth && !View().units[u].free && !View().units[u].accepted
      modifies Repr()
      ensures Valid() && View() == Clear(old(View()), u)
    {
      ghost var p := View();
      units[u] := units[u].(flight := false);
      assert View() == Land(p, u);
      assert FlagsAgree(p.units[u]);
      SetUnitConserved(p, u, p.units[u].(flight := false));
      PutIoU(u);
    }

    /** requeue_io_u; the ring has room, so its unmasked full test cannot misfire. */
    method RequeueIoU(u: UnitId)
      requires Valid() && Conserved(View()) && u < iodepth && !View().units[u].free
      modifies Repr()
      ensures Valid() && View() == Requeue(old(View()), u)
    {
      ghost var p := View();
      RoomForHeld(p, u);
      units[u] := units[u].(free := true, flight := false);
      if units[u].inDepth {
        curDepth := curDepth - 1;
      }
      var ok := requeues.RPush(u);
      assert ok;
      assert units[..] == Requeue(p, u).units;
    }

    /** in_flight_overlap: scan all units for one in flight whose range meets that of `u`. */
    method Overlap(u: UnitId) returns (overlap: bool)
      requires Valid() && u < iodepth
      ensures overlap == InFlightOverlap(View(), u)
    {
      overlap := false;
      var i := 0;
      while i < all.nr && all.ious[i].Some?
        invariant i <= iodepth == all.nr
        invariant forall v :: 0 <= v < i ==> !(units[v].flight && Clash(units[u], units[v]))
      {
        assert all.Contents()[i] == i;
        var v := all.ious[i].value;
        if units[v].flight && Clash(units[u], units[v]) {
          assert View().units[v].flight && Clash(View().units[u], View().units[v]);
          overlap := true;
          return;
        }
        i := i + 1;
      }
      assert |all.Contents()| == all.nr == iodepth;
    }

    /** td_io_commit. */
    method TdIoCommit()
      requires Valid()
      modifies Repr()
      ensures Valid() && View() == Commit(old(View()))
    {
      if curDepth == 0 || queued == 0 {
        return;
      }
      inFlight := (inFlight + queued) % TWO32;
      queued := 0;
    }

    /** td_io_queue, the engine answering `status` and leaving `resid`. */
    method QueueUnit(c: Config, u: UnitId, viaSubmit: bool, status: QStatus, resid: nat)
      requires Valid() && u < iodepth
      modifies Repr()
      ensures Valid() && View() == TdIoQueue(c, old(View()), u, viaSubmit, status, resid)
    {
      ghost var p := View();
      units[u] := units[u].(flight := true, checked := viaSubmit, resid := 0);
      match status {
        case Busy => units[u] := units[u].(flight := false);
        case Failed =>
        case Completed => units[u] := units[u].(resid := resid);
        case Queued =>
          units[u] := units[u].(accepted := true);
          queued := (queued + 1) % TWO32;
          ghost var x := p.units[u].(flight := true, checked := viaSubmit, resid := 0, accepted := true);
          assert units[..] == p.units[u := x];
          if queued >= c.batch {
            TdIoCommit();
          }
      }
      assert units[..] == TdIoQueue(c, p, u, viaSubmit, status, resid).units;
    }

    /** io_u_submit. */
    method IoUSubmit(c: Config, u: UnitId, status: QStatus, resid: nat) returns (ret: QStatus)
      requires Valid() && u < iodepth
      modifies Repr()
      ensures Valid() && (View(), ret) == Submit(c, old(View()), u, status, resid)
    {
      if c.serialize && curDepth > 1 {
        var overlap := Overlap(u);
        if overlap {
          return Busy;
        }
      }
      QueueUnit(c, u, true, status, resid);
      ret := status;
    }

    /** io_completed, then put_io_u unless the unit was requeued. */
    method CompleteIoU(u: UnitId, o: Outcome, size: nat)
      requires Valid() && Conserved(View()) && u < iodepth && !View().units[u].free && !View().units[u].accepted
      modifies Repr()
      ensures Valid() && View() == IoCompleted(old(View()), u, o, size)
      ensures Completes(old(View()), View(), u, o, size)
    {
      ghost var p := View();
      CompletionOwes(p, u, o, size);
      assert FlagsAgree(p.units[u]);
      units[u] := units[u].(flight := false);
      assert View() == Land(p, u);
      SetUnitConserved(p, u, p.units[u].(flight := false));
      if !o.error && units[u].rw && Partial(units[u], o.resid) {
        ghost var q := View();
        units[u] := Advance(units[u], o.resid);
        assert View() == SetUnit(q, u, Advance(q.units[u], o.resid));
        SetUnitConserved(q, u, Advance(q.units[u], o.resid));
        if units[u].off < size {
          RequeueIoU(u);
          return;
        }
      }
      PutIoU(u);
    }

    /** io_queue_event after the submit call returned `status`. */
    method QueueEvent(u: UnitId, status: QStatus, o: Outcome, size: nat)
      requires Valid() && Conserved(View()) && u < iodepth
      requires status.Busy? || status.Completed? ==> !View().units[u].free && !View().units[u].accepted
      modifies Repr()
      ensures Valid() && View() == IoQueueEvent(old(View()), u, status, o, size)
      ensures Handles(old(View()), View(), u, status, o, size)
    {
      ghost var p := View();
      EventOwes(p, u, status, o, size);
      match status {
        case Busy =>
          RequeueIoU(u);
          TdIoCommit();
        case Queued =>
        case Failed =>
        case Completed =>
          if o.error || (o.resid > 0 && o.resid == units[u].xfer) {
            ClearIoU(u);
          } else if o.resid > 0 {
            assert FlagsAgree(p.units[u]);
            units[u] := Advance(units[u], o.resid);
            assert View() == SetUnit(p, u, Advance(p.units[u], o.resid));
            SetUnitConserved(p, u, Advance(p.units[u], o.resid));
            if units[u].off == size {
              CompleteIoU(u, o, size);
            } else {
              RequeueIoU(u);
            }
          } else {
            CompleteIoU(u, o, size);
          }
      }
    }

    /** One event of ios_completed: the engine hands the unit back and it is completed. */
    method ReapUnit(d: (UnitId, Outcome), size: nat)
      requires Valid() && Conserved(View()) && d.0 < iodepth && View().units[d.0].accepted
      modifies Repr()
      ensures Valid() && View() == ReapOne(old(View()), d, size)
    {
      ghost var p := View();
      units[d.0] := units[d.0].(accepted := false);
      assert View() == HandBack(p, d.0);
      HandBackConserved(p, d.0);
      CompleteIoU(d.0, d.1, size);
    }

    /** ios_completed: the loop over the reaped events. */
    method IosCompleted(c: Config, done: seq<(UnitId, Outcome)>, size: nat, ghost start: nat)
      requires Valid() && ReapingFrom(c, View(), done, start)
      modifies Repr()
      ensures Valid() && View() == CompleteAll(old(View()), done, size)
    {
      ghost var target := CompleteAll(View(), done, size);
      ghost var g: nat := start;
      var i := 0;
      assert done[0..] == done;
      while i < |done|
        invariant i <= |done| && Valid()
        invariant CompleteAll(View(), done[i..], size) == target
        invariant ReapingFrom(c, View(), done[i..], g)
        decreases |done| - i
      {
        ReapProgress(c, View(), done, i, size, g);
        ReapUnit(done[i], size);
        g := (g - 1) % TWO32;
        i := i + 1;
      }
    }

    /** td_io_getevents lowers io_u_in_flight by the events it returns. */
    method LowerInFlight(n: nat)
      requires Valid()
      modifies this`inFlight
      ensures Valid() && View() == old(View()).(inFlight := (old(View()).inFlight - n) % TWO32)
    {
      inFlight := (inFlight - n) % TWO32;
    }

    /** io_u_queued_complete: td_io_getevents returns |done| events, ios_completed walks them. */
    method QueuedComplete(c: Config, done: seq<(UnitId, Outcome)>, size: nat)
      requires Valid() && Inv(c, View()) && Reapable(View(), done)
      modifies Repr()
      ensures Valid() && View() == Reap(old(View()), done, size)
    {
      ghost var p := View();
      ghost var q := ReapStart(c, p, done);
      LowerInFlight(|done|);
      assert View() == q;
      IosCompleted(c, done, size, p.inFlight);
    }
  }

  /** The events `done` are left to complete; `g` is what io_u_in_flight would be had it been
      lowered event by event. */
  ghost predicate ReapingFrom(c: Config, p: Pool, done: seq<(UnitId, Outcome)>, g: nat) {
    Inv(c, p.(inFlight := g)) && Reapable(p, done)
  }

  lemma ReapStart(c: Config, p: Pool, done: seq<(UnitId, Outcome)>) returns (q: Pool)
    requires Inv(c, p) && Reapable(p, done)
    ensures q == p.(inFlight := (p.inFlight - |done|) % TWO32) && ReapingFrom(c, q, done, p.inFlight)
  {
    q := p.(inFlight := (p.inFlight - |done|) % TWO32);
    assert q.(inFlight := p.inFlight) == p;
  }

  lemma ReapNextInv(c: Config, p: Pool, d: (UnitId, Outcome), size: nat, g: nat)
    requires Inv(c, p.(inFlight := g)) && d.0 < |p.units| && p.units[d.0].accepted
    ensures Inv(c, ReapOne(p, d, size).(inFlight := (g - 1) % TWO32))
  {
    ReapCountedKeeps(c, p.(inFlight := g), d, size);
    ReapCountedWith(p, d, size, g, ReapCounted(p.(inFlight := g), d, size));
  }

  lemma ReapCountedWith(p: Pool, d: (UnitId, Outcome), size: nat, g: nat, q: Pool)
    requires d.0 < |p.units| && q == ReapCounted(p.(inFlight := g), d, size)
    ensures q == ReapOne(p, d, size).(inFlight := (g - 1) % TWO32)
  {
    ReapOneWithCounter(p, d, size, g);
  }

  lemma ReapNextKeeps(c: Config, p: Pool, done: seq<(UnitId, Outcome)>, size: nat, g: nat)
    requires ReapingFrom(c, p, done, g) && done != []
    ensures Conserved(p)
    ensures ReapingFrom(c, ReapOne(p, done[0], size), done[1..], (g - 1) % TWO32)
  {
    var d := done[0];
    assert Conserved(p) by {
      assert Idle(p.(inFlight := g)) == Idle(p);
    }
    assert Inv(c, ReapOne(p, d, size).(inFlight := (g - 1) % TWO32)) by {
      ReapNextInv(c, p, d, size, g);
    }
    ReapTail(p, ReapOne(p, d, size), done, size);
  }

  lemma ReapProgress(c: Config, p: Pool, done: seq<(UnitId, Outcome)>, i: nat, size: nat, g: nat)
    requires i < |done| && ReapingFrom(c, p, done[i..], g)
    ensures Conserved(p) && done[i].0 < |p.units| && p.units[done[i].0].accepted
    ensures var q := ReapOne(p, done[i], size);
      && ReapingFrom(c, q, done[i + 1..], (g - 1) % TWO32)
      && CompleteAll(p, done[i..], size) == CompleteAll(q, done[i + 1..], size)
  {
    assert done[i..][0] == done[i] && done[i..][1..] == done[i + 1..];
    ReapNextKeeps(c, p, done[i..], size, g);
  }
}
