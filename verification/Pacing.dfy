/** Rate limiting: usec_for_io (backend.c) says when the bytes issued so far are due, and
    rate_ddir (io_u.c) holds the next unit back until then. */
module Pacing {
  import opened Bits
  import opened Options

  const USEC: nat := 1000000

  // ----- usec_for_io, linear branch

  /** The 64-bit computation. */
  function UsecForIo(bytes: nat, bps: nat): nat
    requires bps > 0
  {
    (Quotient(Scaled64(bytes % bps), bps) + Scaled64(bytes / bps)) % TWO64
  }

  function Scaled64(x: nat): nat {
    x * USEC % TWO64
  }

  /** When the bytes are due, exactly. */
  function Due(bytes: nat, bps: nat): nat
    requires bps > 0
  {
    Quotient(bytes * USEC, bps)
  }

  /** Splitting off whole seconds loses nothing. */
  lemma SplitSeconds(bytes: nat, bps: nat)
    requires bps > 0
    ensures Due(bytes, bps) == Quotient(bytes % bps * USEC, bps) + bytes / bps * USEC
  {
    var secs, rest := bytes / bps, bytes % bps;
    var q, r := rest * USEC / bps, rest * USEC % bps;
    assert rest * USEC == q * bps + r;
    assert bytes * USEC == (secs * USEC) * bps + rest * USEC by {
      assert bytes == secs * bps + rest;
      SecondsScaled(secs, bps, rest);
    }
    Distribute(q, secs * USEC, bps);
    DivModUnique(bytes * USEC, bps, q + secs * USEC, r);
  }

  lemma SecondsScaled(secs: nat, bps: nat, rest: nat)
    ensures (secs * bps + rest) * USEC == (secs * USEC) * bps + rest * USEC
  {
  }

  lemma RemainderBelowSecond(rest: nat, bps: nat)
    requires rest < bps
    ensures Quotient(rest * USEC, bps) < USEC
  {
    MulLe(rest + 1, bps, USEC);
    DivBounds(rest * USEC, bps);
    if rest * USEC / bps >= USEC {
      MulLe(USEC, rest * USEC / bps, bps);
      assert false;
    }
  }

  /** Dropping 2^64 from the dividend lowers the quotient, because the divisor is smaller. */
  lemma WrappedQuotient(x: nat, bps: nat)
    requires 0 < bps < TWO64 <= x
    ensures Quotient(x % TWO64, bps) < Quotient(x, bps)
  {
    var y := x % TWO64;
    assert y + bps <= x;
    DivBounds(x, bps);
    DivBounds(y, bps);
    if y / bps >= x / bps {
      MulLe(x / bps, y / bps, bps);
      assert false;
    }
  }

  lemma RemainderCases(rest: nat, bps: nat)
    requires rest < bps < TWO64
    ensures Quotient(rest * USEC, bps) < USEC
    ensures rest * USEC < TWO64 ==> Quotient(Scaled64(rest), bps) == Quotient(rest * USEC, bps)
    ensures rest * USEC >= TWO64 ==> Quotient(Scaled64(rest), bps) < Quotient(rest * USEC, bps)
  {
    RemainderBelowSecond(rest, bps);
    if rest * USEC >= TWO64 {
      WrappedQuotient(rest * USEC, bps);
    }
  }

  /** The linear branch is exact if and only if the remainder's product and the result both fit
      64 bits. */
  lemma UsecExact(bytes: nat, bps: nat)
    requires 0 < bps < TWO64
    ensures UsecForIo(bytes, bps) == Due(bytes, bps)
        <==> bytes % bps * USEC < TWO64 && Due(bytes, bps) < TWO64
  {
    var secs, rest := bytes / bps, bytes % bps;
    SplitSeconds(bytes, bps);
    RemainderCases(rest, bps);
    ExactCases(rest * USEC, Quotient(rest * USEC, bps), Quotient(Scaled64(rest), bps), secs);
  }

  lemma ExactCases(product: nat, q: nat, q': nat, secs: nat)
    requires q < USEC && (if product < TWO64 then q' == q else q' < q)
    ensures (q' + Scaled64(secs)) % TWO64 == q + secs * USEC <==> product < TWO64 && q + secs * USEC < TWO64
  {
    if secs * USEC < TWO64 {
      assert Scaled64(secs) == secs * USEC;
    }
  }

  /** In particular for every rate up to 2^64 / 10^6 bytes a second, about 18 TB/s. */
  lemma RateFits(bytes: nat, bps: nat)
    requires 0 < bps && bps * USEC <= TWO64 && Due(bytes, bps) < TWO64
    ensures UsecForIo(bytes, bps) == Due(bytes, bps)
  {
    MulLe(bytes % bps + 1, bps, USEC);
    UsecExact(bytes, bps);
  }

  /** Due at or before `now` means: fewer bytes issued than the rate allows by the end of that
      microsecond. */
  lemma DueMeans(bytes: nat, bps: nat, now: nat)
    requires bps > 0
    ensures Due(bytes, bps) <= now <==> bytes * USEC < bps * (now + 1)
  {
    var d := Due(bytes, bps);
    DivBounds(bytes * USEC, bps);
    if d <= now {
      MulLe(d + 1, now + 1, bps);
      Distribute(d, 1, bps);
    } else {
      MulLe(now + 1, d, bps);
    }
  }

  // ----- rate_ddir

  /** DDIR_READ, DDIR_WRITE or DDIR_TRIM. */
  type Dir = d: nat | d < 3

  /** The rate state of a job.  `mix` is rwmix, `rw` says that the job reads and writes; zero for
      `timeout` means none and for a rate means unlimited. */
  datatype Job = Job(bps: seq<nat>, rw: bool, mix: seq<nat>, timeout: nat, issued: seq<nat>, next: seq<nat>)

  predicate Shaped(j: Job) {
    |j.bps| == |j.issued| == |j.next| == 3 && |j.mix| == 2
  }

  /** `ddir ^ 1`, for the two directions that can be mixed. */
  function Other(d: Dir): Dir
    requires d < 2
  {
    1 - d
  }

  /** Up to the sleep: issue at once, sleep, or stop because the run time is over. */
  datatype Plan = Go(ddir: Dir) | Sleep(ddir: Dir, usec: nat) | Expired

  predicate CanSwitch(j: Job, d: Dir)
    requires Shaped(j) && (j.rw ==> d < 2)
  {
    j.rw && j.mix[Other(d)] > 0
  }

  /** A sleep that would overrun the timeout ends at the timeout. */
  function Capped(j: Job, d: Dir, usec: nat, now: nat): Plan {
    if j.timeout > 0 && usec + now > j.timeout then
      if now > j.timeout then Expired else Sleep(d, j.timeout - now)
    else Sleep(d, usec)
  }

  function PlanFor(j: Job, d: Dir, now: nat): Plan
    requires Shaped(j) && (j.rw ==> d < 2)
  {
    if j.next[d] <= now then Go(d)
    else if !CanSwitch(j, d) then Capped(j, d, j.next[d] - now, now)
    else if j.next[Other(d)] <= now then Go(Other(d))
    else if j.next[d] <= j.next[Other(d)] then Capped(j, d, j.next[d] - now, now)
    else Capped(j, Other(d), j.next[Other(d)] - now, now)
  }

  // ----- what the plan is to do, without saying how it is found

  /** The job may issue `d` when asked for `asked`. */
  predicate MayIssue(j: Job, asked: Dir, d: Dir)
    requires Shaped(j) && (j.rw ==> asked < 2)
  {
    d == asked || (CanSwitch(j, asked) && d == Other(asked))
  }

  /** Every direction that the job may issue is due only after `now`. */
  predicate AllAhead(j: Job, asked: Dir, now: nat)
    requires Shaped(j) && (j.rw ==> asked < 2)
  {
    forall e: Dir :: MayIssue(j, asked, e) ==> j.next[e] > now
  }

  /** Of the directions that the job may issue `d` is due first, on a tie the one asked for. */
  predicate DueFirst(j: Job, asked: Dir, d: Dir)
    requires Shaped(j) && (j.rw ==> asked < 2)
  {
    && MayIssue(j, asked, d) && (forall e: Dir :: MayIssue(j, asked, e) ==> j.next[d] <= j.next[e])
    && (j.next[asked] == j.next[d] ==> d == asked)
  }

  /** A due direction goes out at once, the one asked for before the other. */
  predicate GoesAtOnce(j: Job, asked: Dir, now: nat, d: Dir)
    requires Shaped(j) && (j.rw ==> asked < 2)
  {
    MayIssue(j, asked, d) && j.next[d] <= now && (j.next[asked] <= now ==> d == asked)
  }

  /** Otherwise the job sleeps exactly until the first one is due, or until a timeout that comes
      before, and then issues that one. */
  predicate SleepsFor(j: Job, asked: Dir, now: nat, d: Dir, usec: nat)
    requires Shaped(j) && (j.rw ==> asked < 2)
  {
    && AllAhead(j, asked, now) && DueFirst(j, asked, d) && (j.timeout > 0 ==> now <= j.timeout)
    && now + usec == if j.timeout > 0 && j.next[d] > j.timeout then j.timeout else j.next[d]
  }

  lemma PlanMeans(j: Job, asked: Dir, now: nat)
    requires Shaped(j) && (j.rw ==> asked < 2)
    ensures match PlanFor(j, asked, now)
            case Go(d) => GoesAtOnce(j, asked, now, d)
            case Sleep(d, usec) => SleepsFor(j, asked, now, d, usec)
            case Expired => AllAhead(j, asked, now) && 0 < j.timeout < now
  {
    assert MayIssue(j, asked, asked) && (CanSwitch(j, asked) ==> MayIssue(j, asked, Other(asked)));
  }

  /** One unit: the direction asked for at `now`, the time a sleep ends, and the size issued. */
  datatype Round = Round(asked: Dir, now: nat, woke: nat, terminate: bool, size: nat)

  /** The direction that rate_ddir returns, or DDIR_TIMEOUT. */
  datatype Verdict = Issue(ddir: Dir) | Stop

  function RateDdir(j: Job, r: Round): Verdict
    requires Shaped(j) && (j.rw ==> r.asked < 2)
  {
    match PlanFor(j, r.asked, r.now)
    case Go(d) => Issue(d)
    case Expired => Stop
    case Sleep(d, _) => if (j.timeout > 0 && r.woke > j.timeout) || r.terminate then Stop else Issue(d)
  }

  /** When the unit is issued. */
  function At(j: Job, r: Round): nat
    requires Shaped(j) && (j.rw ==> r.asked < 2)
  {
    if PlanFor(j, r.asked, r.now).Sleep? then r.woke else r.now
  }

  /** Only termination cuts a sleep short. */
  predicate SleptFully(j: Job, r: Round)
    requires Shaped(j) && (j.rw ==> r.asked < 2)
  {
    var p := PlanFor(j, r.asked, r.now);
    p.Sleep? && !r.terminate ==> r.woke >= r.now + p.usec
  }

  /** Issuing counts the bytes and sets when they are due. */
  function Issued(j: Job, d: Dir, size: nat): Job
    requires Shaped(j)
  {
    var bytes := j.issued[d] + size;
    j.(issued := j.issued[d := bytes],
       next := j.next[d := if j.bps[d] > 0 then UsecForIo(bytes, j.bps[d]) else 0])
  }

  function Step(j: Job, r: Round): Job
    requires Shaped(j) && (j.rw ==> r.asked < 2)
  {
    match RateDdir(j, r)
    case Stop => j
    case Issue(d) => Issued(j, d, r.size)
  }

  /** Whatever direction rate_ddir settles on is issued before its bytes are due exactly at the
      very moment of a timeout that comes before the due time. */
  lemma IssuedWhenDue(j: Job, r: Round)
    requires Shaped(j) && (j.rw ==> r.asked < 2) && SleptFully(j, r) && RateDdir(j, r).Issue?
    ensures var due := j.next[RateDdir(j, r).ddir];
      due > At(j, r) <==> j.timeout > 0 && At(j, r) == j.timeout < due
  {
  }

  // ----- every run

  predicate Start(j: Job) {
    Shaped(j) && j.issued == [0, 0, 0] && j.next == [0, 0, 0]
  }

  ghost predicate IsRun(rounds: seq<Round>, trace: seq<Job>) {
    && |trace| == |rounds| + 1 && Start(trace[0])
    && (forall i :: 0 <= i < |trace| ==> Shaped(trace[i]))
    && forall i :: 0 <= i < |rounds| ==>
         && (trace[i].rw ==> rounds[i].asked < 2)
         && SleptFully(trace[i], rounds[i])
         && trace[i + 1] == Step(trace[i], rounds[i])
  }

  /** The rounds before `k` all happen by microsecond `t`, with units of at most `size` bytes. */
  ghost predicate UpTo(rounds: seq<Round>, trace: seq<Job>, k: nat, t: nat, size: nat)
    requires IsRun(rounds, trace) && k <= |rounds|
  {
    forall i :: 0 <= i < k ==> At(trace[i], rounds[i]) <= t && rounds[i].size <= size
  }

  /** The direction has a rate, in the range that the arithmetic covers. */
  predicate Rated(j: Job, d: Dir)
    requires Shaped(j)
  {
    0 < j.bps[d] && j.bps[d] * USEC <= TWO64
  }

  /** Bytes and due time agree, and the bytes are within the rate and one unit. */
  predicate OnRate(j: Job, d: Dir, t: nat, size: nat)
    requires Shaped(j)
  {
    && j.bps[d] > 0 && j.next[d] == Due(j.issued[d], j.bps[d])
    && j.issued[d] * USEC < j.bps[d] * (t + 1) + size * USEC
  }

  lemma FreshOnRate(bps: nat, t: nat, size: nat)
    requires bps > 0
    ensures Due(0, bps) == 0 && 0 < bps * (t + 1) + size * USEC
  {
    MulLe(1, t + 1, bps);
    DivModUnique(0, bps, 0, 0);
  }

  /** One more unit, issued when the bytes so far were due. */
  lemma UnitOnRate(bytes: nat, bps: nat, at: nat, t: nat, unit: nat, size: nat)
    requires bps > 0 && Due(bytes, bps) <= at <= t && unit <= size
    ensures (bytes + unit) * USEC < bps * (t + 1) + size * USEC
  {
    DueMeans(bytes, bps, at);
    MulLe(at + 1, t + 1, bps);
    Distribute(bytes, unit, USEC);
  }

  lemma DueFits(bytes: nat, bps: nat, t: nat, size: nat)
    requires bps > 0 && bytes * USEC < bps * (t + 1) + size * USEC
    ensures Due(bytes, bps) <= t + size * USEC
  {
    MulLe(1, bps, size * USEC);
    Distribute(t + 1, size * USEC, bps);
    DueMeans(bytes, bps, t + size * USEC);
  }

  /** What a run does not change, and the due times it keeps. */
  predicate Timed(start: Job, j: Job)
    requires Shaped(start)
  {
    && Shaped(j) && j.bps == start.bps && j.rw == start.rw && j.mix == start.mix && j.timeout == start.timeout
    && forall e: Dir :: j.next[e] == if j.bps[e] > 0 then UsecForIo(j.issued[e], j.bps[e]) else 0
  }

  lemma NothingDue(bps: nat)
    requires bps > 0
    ensures UsecForIo(0, bps) == 0
  {
    DivModUnique(0, bps, 0, 0);
  }

  lemma StartTimed(j: Job)
    requires Start(j)
    ensures Timed(j, j)
  {
    forall e: Dir | j.bps[e] > 0 ensures UsecForIo(0, j.bps[e]) == 0 {
      NothingDue(j.bps[e]);
    }
  }

  lemma IssuedTimed(start: Job, j: Job, d: Dir, size: nat)
    requires Shaped(start) && Timed(start, j)
    ensures Timed(start, Issued(j, d, size))
  {
  }

  lemma {:induction false} RunTimed(rounds: seq<Round>, trace: seq<Job>, k: nat)
    requires IsRun(rounds, trace) && k <= |rounds|
    ensures Timed(trace[0], trace[k])
  {
    if k == 0 {
      StartTimed(trace[0]);
    } else {
      RunTimed(rounds, trace, k - 1);
      var j, r := trace[k - 1], rounds[k - 1];
      if RateDdir(j, r).Issue? {
        IssuedTimed(trace[0], j, RateDdir(j, r).ddir, r.size);
      }
    }
  }

  /** No unit of `d` can go out early up to `t`: the timeout is not reached, or the job can switch
      to an unlimited direction, so that it never sleeps. */
  predicate NeverEarly(j: Job, d: Dir, t: nat)
    requires Shaped(j) && (j.rw ==> d < 2)
  {
    j.timeout == 0 || t < j.timeout || (CanSwitch(j, d) && j.bps[Other(d)] == 0)
  }

  lemma StepOnRate(start: Job, j: Job, r: Round, d: Dir, t: nat, size: nat)
    requires Shaped(start) && Timed(start, j) && (j.rw ==> r.asked < 2 && d < 2) && SleptFully(j, r)
    requires OnRate(j, d, t, size) && At(j, r) <= t && r.size <= size && NeverEarly(j, d, t)
    requires j.bps[d] * USEC <= TWO64 && t + size * USEC < TWO64
    ensures OnRate(Step(j, r), d, t, size)
  {
    if RateDdir(j, r) == Issue(d) {
      IssuedWhenDue(j, r);
      UnitOnRate(j.issued[d], j.bps[d], At(j, r), t, r.size, size);
      IssuedOnRate(j, d, r.size, t, size);
    }
  }

  lemma IssuedOnRate(j: Job, d: Dir, unit: nat, t: nat, size: nat)
    requires Shaped(j) && Rated(j, d) && t + size * USEC < TWO64
    requires (j.issued[d] + unit) * USEC < j.bps[d] * (t + 1) + size * USEC
    ensures OnRate(Issued(j, d, unit), d, t, size)
  {
    DueFits(j.issued[d] + unit, j.bps[d], t, size);
    RateFits(j.issued[d] + unit, j.bps[d]);
  }

  lemma {:induction false} RunOnRate(rounds: seq<Round>, trace: seq<Job>, k: nat, d: Dir, t: nat, size: nat)
    requires IsRun(rounds, trace) && k <= |rounds| && UpTo(rounds, trace, k, t, size)
    requires (trace[0].rw ==> d < 2) && NeverEarly(trace[0], d, t)
    requires Rated(trace[0], d) && t + size * USEC < TWO64
    ensures OnRate(trace[k], d, t, size) && trace[k].bps == trace[0].bps
  {
    if k == 0 {
      FreshOnRate(trace[0].bps[d], t, size);
    } else {
      RunOnRate(rounds, trace, k - 1, d, t, size);
      RunTimed(rounds, trace, k - 1);
      assert At(trace[k - 1], rounds[k - 1]) <= t;
      StepOnRate(trace[0], trace[k - 1], rounds[k - 1], d, t, size);
    }
  }

  /** The same over the integers. */
  lemma BytesBelow(rounds: seq<Round>, trace: seq<Job>, k: nat, d: Dir, t: nat, size: nat)
    requires IsRun(rounds, trace) && k <= |rounds| && UpTo(rounds, trace, k, t, size)
    requires (trace[0].rw ==> d < 2) && NeverEarly(trace[0], d, t)
    requires Rated(trace[0], d) && t + size * USEC < TWO64
    ensures trace[k].issued[d] * USEC < trace[0].bps[d] * (t + 1) + size * USEC
  {
    RunOnRate(rounds, trace, k, d, t, size);
  }

  /** In every run, mixed or not, the bytes issued in a rated direction by microsecond `t` stay
      below the rate times `t + 1` microseconds, plus one unit, for every `t` up to which no unit
      can go out early. */
  lemma BytesWithinRate(rounds: seq<Round>, trace: seq<Job>, k: nat, d: Dir, t: nat, size: nat)
    requires IsRun(rounds, trace) && k <= |rounds| && UpTo(rounds, trace, k, t, size)
    requires (trace[0].rw ==> d < 2) && NeverEarly(trace[0], d, t)
    requires Rated(trace[0], d) && t + size * USEC < TWO64
    ensures trace[k].issued[d] as real < (trace[0].bps[d] * (t + 1)) as real / USEC as real + size as real
  {
    BytesBelow(rounds, trace, k, d, t, size);
    InReal(trace[k].issued[d], trace[0].bps[d] * (t + 1), size);
  }

  lemma InReal(x: nat, y: nat, size: nat)
    requires x * USEC < y + size * USEC
    ensures x as real < y as real / USEC as real + size as real
  {
    assert (x * USEC) as real == x as real * 1000000.0;
    assert (y + size * USEC) as real == y as real + size as real * 1000000.0;
  }

  /** The direction has issued more than its rate allows by the end of `now`. */
  predicate Ahead(j: Job, d: Dir, now: nat)
    requires Shaped(j)
  {
    j.bps[d] > 0 && j.issued[d] * USEC >= j.bps[d] * (now + 1)
  }

  /** The direction is unlimited, or the arithmetic covers its rate and its due time. */
  predicate InRange(j: Job, d: Dir)
    requires Shaped(j)
  {
    j.bps[d] == 0 || (Rated(j, d) && Due(j.issued[d], j.bps[d]) < TWO64)
  }

  lemma NextAhead(start: Job, j: Job, d: Dir, now: nat)
    requires Shaped(start) && Timed(start, j) && InRange(j, d)
    ensures j.next[d] > now <==> Ahead(j, d, now)
  {
    if j.bps[d] > 0 {
      RateFits(j.issued[d], j.bps[d]);
      DueMeans(j.issued[d], j.bps[d], now);
    }
  }

  /** And in every run a unit is held back exactly if its direction is ahead of its rate, and so is
      the other direction when the job can switch. */
  lemma HeldOnlyAhead(rounds: seq<Round>, trace: seq<Job>, k: nat, d: Dir, now: nat)
    requires IsRun(rounds, trace) && k <= |rounds|
    requires (trace[k].rw ==> d < 2) && InRange(trace[k], d)
    requires CanSwitch(trace[k], d) ==> InRange(trace[k], Other(d))
    ensures !PlanFor(trace[k], d, now).Go?
        <==> Ahead(trace[k], d, now) && (CanSwitch(trace[k], d) ==> Ahead(trace[k], Other(d), now))
  {
    RunTimed(rounds, trace, k);
    NextAhead(trace[0], trace[k], d, now);
    if CanSwitch(trace[k], d) {
      NextAhead(trace[0], trace[k], Other(d), now);
    }
  }

  // ----- early units, at the timeout

  /** A round that asks for `d` at the very moment of the timeout. */
  function RoundAtTimeout(j: Job, d: Dir, size: nat): Round {
    Round(d, j.timeout, j.timeout, false, size)
  }

  /** It always issues: a direction whose bytes are due, or else the one whose bytes are due first,
      because a sleep of no length ends at the timeout, which the code does not take for late. */
  lemma IssuesAtTimeout(j: Job, d: Dir, size: nat) returns (e: Dir)
    requires Shaped(j) && (j.rw ==> d < 2) && j.timeout > 0
    ensures var r := RoundAtTimeout(j, d, size);
      SleptFully(j, r) && At(j, r) == j.timeout && Step(j, r) == Issued(j, e, size)
    ensures e == d || (CanSwitch(j, d) && e == Other(d) && (j.next[e] <= j.timeout || j.next[e] < j.next[d]))
  {
    e := RateDdir(j, RoundAtTimeout(j, d, size)).ddir;
  }

  /** The directions that the early run watches: `d` by the bound to break, and the other one by
      the due times that `d` can have before. */
  predicate Watched(start: Job, j: Job, d: Dir, t: nat, size: nat)
    requires Shaped(start) && (start.rw ==> d < 2)
  {
    && Shaped(j) && j.bps == start.bps && j.rw == start.rw && j.mix == start.mix && j.timeout == start.timeout
    && (j.issued[d] * USEC < j.bps[d] * (t + 1) + size * USEC ==> OnRate(j, d, t, size))
    && (CanSwitch(j, d) ==> OnRate(j, Other(d), t + size * USEC, 1))
  }

  /** The other direction is issued only while it is due before `d`. */
  lemma OtherOnRate(start: Job, j: Job, d: Dir, t: nat, size: nat)
    requires Shaped(start) && (start.rw ==> d < 2) && Watched(start, j, d, t, size)
    requires CanSwitch(j, d) && Rated(j, Other(d)) && t + (size + 1) * USEC < TWO64
    requires OnRate(j, d, t, size) && j.timeout <= t
    requires j.next[Other(d)] <= j.timeout || j.next[Other(d)] < j.next[d]
    ensures OnRate(Issued(j, Other(d), 1), Other(d), t + size * USEC, 1)
  {
    var e := Other(d);
    DueFits(j.issued[d], j.bps[d], t, size);
    UnitOnRate(j.issued[e], j.bps[e], t + size * USEC, t + size * USEC, 1, 1);
    IssuedOnRate(j, e, 1, t + size * USEC, 1);
  }

  lemma WatchedStep(start: Job, j: Job, d: Dir, t: nat, size: nat) returns (r: Round)
    requires Shaped(start) && (start.rw ==> d < 2) && Watched(start, j, d, t, size) && Rated(j, d)
    requires CanSwitch(j, d) ==> Rated(j, Other(d))
    requires 0 < j.timeout <= t && size > 0 && t + (size + 1) * USEC < TWO64
    requires j.issued[d] * USEC < j.bps[d] * (t + 1) + size * USEC
    ensures (j.rw ==> r.asked < 2) && SleptFully(j, r) && At(j, r) <= t && r.size <= size
    ensures Watched(start, Step(j, r), d, t, size)
    ensures Step(j, r).issued[d] > j.issued[d]
        || (CanSwitch(j, d) && Step(j, r).issued == j.issued[Other(d) := j.issued[Other(d)] + 1])
  {
    var e := IssuesAtTimeout(j, d, size);
    r := RoundAtTimeout(j, d, size);
    if e == d {
      if (j.issued[d] + size) * USEC < j.bps[d] * (t + 1) + size * USEC {
        IssuedOnRate(j, d, size, t, size);
      }
    } else {
      r := RoundAtTimeout(j, d, 1);
      OtherOnRate(start, j, d, t, size);
    }
  }

  /** How far the other direction still is from its bound. */
  function OtherLeft(j: Job, d: Dir, t: nat, size: nat): int
    requires Shaped(j) && (j.rw ==> d < 2)
  {
    if CanSwitch(j, d) then j.bps[Other(d)] * (t + size * USEC + 1) + USEC - j.issued[Other(d)] * USEC else 0
  }

  lemma OneMoreRound(rounds: seq<Round>, trace: seq<Job>, r: Round, t: nat, size: nat)
    returns (rounds': seq<Round>, trace': seq<Job>)
    requires IsRun(rounds, trace) && UpTo(rounds, trace, |rounds|, t, size)
    requires trace[|rounds|].rw ==> r.asked < 2
    requires SleptFully(trace[|rounds|], r) && At(trace[|rounds|], r) <= t && r.size <= size
    ensures IsRun(rounds', trace') && UpTo(rounds', trace', |rounds'|, t, size) && trace'[0] == trace[0]
    ensures |rounds'| == |rounds| + 1 && trace'[|rounds'|] == Step(trace[|rounds|], r)
  {
    rounds', trace' := rounds + [r], trace + [Step(trace[|rounds|], r)];
  }

  /** Otherwise units go out early until the bound is broken: rounds that all ask for `d` at the
      very moment of the timeout. */
  lemma EarlyAtTimeout(job: Job, d: Dir, t: nat, size: nat) returns (rounds: seq<Round>, trace: seq<Job>)
    requires Start(job) && (job.rw ==> d < 2) && Rated(job, d) && size > 0 && t + (size + 1) * USEC < TWO64
    requires CanSwitch(job, d) ==> Rated(job, Other(d))
    requires 0 < job.timeout <= t
    ensures IsRun(rounds, trace) && trace[0] == job && UpTo(rounds, trace, |rounds|, t, size)
    ensures trace[|rounds|].issued[d] * USEC >= job.bps[d] * (t + 1) + size * USEC
  {
    rounds, trace := [], [job];
    var j := job;
    FreshOnRate(job.bps[d], t, size);
    if CanSwitch(job, d) {
      FreshOnRate(job.bps[Other(d)], t + size * USEC, 1);
    }
    while j.issued[d] * USEC < job.bps[d] * (t + 1) + size * USEC
      invariant IsRun(rounds, trace) && trace[0] == job && UpTo(rounds, trace, |rounds|, t, size)
      invariant j == trace[|rounds|] && Watched(job, j, d, t, size)
      decreases job.bps[d] * (t + 1) + size * USEC - j.issued[d] * USEC, OtherLeft(j, d, t, size)
    {
      var r := WatchedStep(job, j, d, t, size);
      rounds, trace := OneMoreRound(rounds, trace, r, t, size);
      j := Step(j, r);
    }
  }

  /** So the bound holds at `t` in every run if and only if no unit can go out early up to `t`. */
  lemma BoundExact(job: Job, d: Dir, t: nat, size: nat)
    requires Start(job) && (job.rw ==> d < 2) && Rated(job, d) && size > 0 && t + (size + 1) * USEC < TWO64
    requires CanSwitch(job, d) && job.bps[Other(d)] > 0 ==> Rated(job, Other(d))
    ensures (forall rounds: seq<Round>, trace: seq<Job>, k: nat ::
               IsRun(rounds, trace) && trace[0] == job && k <= |rounds| && UpTo(rounds, trace, k, t, size) ==>
                 trace[k].issued[d] * USEC < job.bps[d] * (t + 1) + size * USEC)
        <==> NeverEarly(job, d, t)
  {
    if NeverEarly(job, d, t) {
      forall rounds: seq<Round>, trace: seq<Job>, k: nat
        | IsRun(rounds, trace) && trace[0] == job && k <= |rounds| && UpTo(rounds, trace, k, t, size)
        ensures trace[k].issued[d] * USEC < job.bps[d] * (t + 1) + size * USEC
      {
        BytesBelow(rounds, trace, k, d, t, size);
      }
    } else {
      var rounds, trace := EarlyAtTimeout(job, d, t, size);
    }
  }

  // ----- no job falls behind by more than it idles

  /** By how much the sleep lasted longer than it was to. */
  function Overslept(j: Job, r: Round): nat
    requires Shaped(j) && (j.rw ==> r.asked < 2)
  {
    var p := PlanFor(j, r.asked, r.now);
    if p.Sleep? && r.woke > r.now + p.usec then r.woke - (r.now + p.usec) else 0
  }

  /** When round `k - 1` was through. */
  ghost function Through(rounds: seq<Round>, trace: seq<Job>, k: nat): nat
    requires IsRun(rounds, trace) && k <= |rounds|
  {
    if k == 0 then 0 else At(trace[k - 1], rounds[k - 1])
  }

  /** No round asks before the one before it is through. */
  ghost predicate Forward(rounds: seq<Round>, trace: seq<Job>)
    requires IsRun(rounds, trace)
  {
    forall i :: 0 <= i < |rounds| ==> Through(rounds, trace, i) <= rounds[i].now
  }

  /** The time that the first `k` rounds spent neither issuing nor in a sleep that was due: between
      rounds, and asleep for too long. */
  ghost function IdleTime(rounds: seq<Round>, trace: seq<Job>, k: nat): nat
    requires IsRun(rounds, trace) && Forward(rounds, trace) && k <= |rounds|
  {
    if k == 0 then 0
    else IdleTime(rounds, trace, k - 1) + (rounds[k - 1].now - Through(rounds, trace, k - 1))
         + Overslept(trace[k - 1], rounds[k - 1])
  }

  /** When the unit of round `k` goes out, not counting the time that the job idled. */
  ghost function BusyTime(rounds: seq<Round>, trace: seq<Job>, k: nat): int
    requires IsRun(rounds, trace) && Forward(rounds, trace) && k < |rounds|
  {
    At(trace[k], rounds[k]) - IdleTime(rounds, trace, k + 1)
  }

  lemma DueMonotone(a: nat, b: nat, bps: nat)
    requires bps > 0 && a <= b
    ensures Due(a, bps) <= Due(b, bps)
  {
    DueMeans(b, bps, Due(b, bps));
    DueMeans(a, bps, Due(b, bps));
  }

  /** A unit goes out no later than its round asked, or than any direction it may issue was due. */
  lemma AtMostDue(j: Job, r: Round, d: Dir)
    requires Shaped(j) && (j.rw ==> r.asked < 2) && MayIssue(j, r.asked, d)
    ensures At(j, r) <= r.now || At(j, r) <= j.next[d] + Overslept(j, r)
  {
    PlanMeans(j, r.asked, r.now);
  }

  lemma IssuedGrows(j: Job, r: Round, d: Dir)
    requires Shaped(j) && (j.rw ==> r.asked < 2)
    ensures |Step(j, r).issued| == 3 && j.issued[d] <= Step(j, r).issued[d]
  {
  }

  lemma {:induction false} NotAfterDue(rounds: seq<Round>, trace: seq<Job>, k: nat, d: Dir)
    requires IsRun(rounds, trace) && Forward(rounds, trace) && k < |rounds|
    requires forall i :: 0 <= i <= k ==> MayIssue(trace[i], rounds[i].asked, d)
    requires Rated(trace[k], d) && Due(trace[k].issued[d], trace[k].bps[d]) < TWO64
    ensures BusyTime(rounds, trace, k) <= Due(trace[k].issued[d], trace[k].bps[d])
  {
    var j, r := trace[k], rounds[k];
    RunTimed(rounds, trace, k);
    RateFits(j.issued[d], j.bps[d]);
    AtMostDue(j, r, d);
    if k > 0 {
      RunTimed(rounds, trace, k - 1);
      IssuedGrows(trace[k - 1], rounds[k - 1], d);
      DueMonotone(trace[k - 1].issued[d], j.issued[d], j.bps[d]);
      NotAfterDue(rounds, trace, k - 1, d);
    }
  }

  /** At least the rate times `usec` was issued. */
  predicate Issues(j: Job, d: Dir, usec: int)
    requires Shaped(j)
  {
    j.issued[d] * USEC >= j.bps[d] * usec
  }

  lemma BytesBehind(j: Job, d: Dir, usec: int)
    requires Shaped(j) && j.bps[d] > 0 && usec <= Due(j.issued[d], j.bps[d])
    ensures Issues(j, d, usec)
  {
    if usec > 0 {
      DueMeans(j.issued[d], j.bps[d], usec - 1);
    } else {
      MulLe(usec, 0, j.bps[d]);
    }
  }

  /** In every run, single-direction or mixed, in which each round may issue the rated direction `d`:
      what was issued in `d` before a unit goes out is at least the rate times the time, less the
      time that the job idled. */
  lemma NeverFarBehind(rounds: seq<Round>, trace: seq<Job>, k: nat, d: Dir)
    requires IsRun(rounds, trace) && Forward(rounds, trace) && k < |rounds|
    requires forall i :: 0 <= i <= k ==> MayIssue(trace[i], rounds[i].asked, d)
    requires Rated(trace[k], d) && Due(trace[k].issued[d], trace[k].bps[d]) < TWO64
    ensures Issues(trace[k], d, BusyTime(rounds, trace, k))
  {
    NotAfterDue(rounds, trace, k, d);
    BytesBehind(trace[k], d, BusyTime(rounds, trace, k));
  }

  // ----- as it runs

  class RateControl {
    const bps: seq<nat>
    const rw: bool
    const mix: seq<nat>
    const timeout: nat
    var issued: seq<nat>
    var next: seq<nat>

    function View(): Job
      reads this
    {
      Job(bps, rw, mix, timeout, issued, next)
    }

    /** setup_rate. */
    constructor (bps: seq<nat>, rw: bool, mix: seq<nat>, timeout: nat)
      requires |bps| == 3 && |mix| == 2
      ensures Start(View()) && this.bps == bps && this.rw == rw && this.mix == mix && this.timeout == timeout
    {
      this.bps, this.rw, this.mix, this.timeout := bps, rw, mix, timeout;
      issued, next := [0, 0, 0], [0, 0, 0];
    }

    /** rate_ddir.  `woke` is the time read after the sleep, if there is one; `slept` is how long it
        was to last. */
    method ChooseDdir(asked: Dir, start: nat, woke: nat, terminate: bool) returns (v: Verdict, slept: Option<nat>)
      requires Shaped(View()) && (rw ==> asked < 2)
      ensures v == RateDdir(View(), Round(asked, start, woke, terminate, 0))
      // without a sleep: a due direction, or a timeout that has passed
      ensures slept.None? && v.Issue? ==> GoesAtOnce(View(), asked, start, v.ddir)
      ensures slept.None? && v.Stop? ==> AllAhead(View(), asked, start) && 0 < timeout < start
      // with a sleep: the direction that is due first, unless the run ends meanwhile
      ensures slept.Some? ==> exists d: Dir :: SleepsFor(View(), asked, start, d, slept.value) && (v == Issue(d) || v == Stop)
      ensures slept.Some? ==> (v.Stop? <==> (timeout > 0 && woke > timeout) || terminate)
      ensures SleptFully(View(), Round(asked, start, woke, terminate, 0)) && v.Issue? ==>
        var at := At(View(), Round(asked, start, woke, terminate, 0));
        next[v.ddir] <= at || (timeout > 0 && at == timeout < next[v.ddir])
    {
      var ddir, now := asked, start;
      var usec: nat;
      slept := None;
      PlanMeans(View(), asked, start);
      if next[ddir] <= now {
        v := Issue(ddir);
        return;
      }
      if rw && mix[Other(ddir)] > 0 {
        var odir := Other(ddir);
        if next[odir] <= now {
          v := Issue(odir);
          return;
        }
        if next[ddir] <= next[odir] {
          usec := next[ddir] - now;
        } else {
          usec := next[odir] - now;
          ddir := odir;
        }
      } else {
        usec := next[ddir] - now;
      }
      if timeout > 0 && usec + now > timeout {
        if now > timeout {
          v := Stop;
          return;
        }
        usec := timeout - now;
      }
      slept := Some(usec);
      assert SleepsFor(View(), asked, start, ddir, usec);
      now := woke;
      if (timeout > 0 && now > timeout) || terminate {
        v := Stop;
      } else {
        v := Issue(ddir);
      }
    }

    /** td_io_queue counts the bytes of an accepted unit, and the main loop then sets the time at
        which they are due. */
    method CountIssue(d: Dir, size: nat)
      requires Shaped(View())
      modifies this`issued, this`next
      ensures View() == Issued(old(View()), d, size)
    {
      issued := issued[d := issued[d] + size];
      var due := if bps[d] > 0 then UsecForIo(issued[d], bps[d]) else 0;
      next := next[d := due];
    }
  }
}
