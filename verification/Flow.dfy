/** flow.c: jobs of one flow group share a counter and stall when their own share of it runs
    ahead of their share of the weight.  The shared words are read and changed without a lock,
    so one step is one atomic access. */
module Flow {
  import opened Bits
  import opened Options

  /** struct fio_flow.  `counter` is flow_counter. */
  datatype Group = Group(refs: int, counter: int, total: int)

  /** Where a job stands.  Joining: flow_get has returned.  Loaded: flow_counter was read into
      `seen`.  Admitted: the threshold test passed.  Half: flow_counter was incremented, the
      job's own counter not yet.  Leaving, Unweighted: flow_put has taken back the counter, and
      then the weight. */
  datatype At = Outside | Joining | Idle | Loaded | Admitted | Half | Leaving | Unweighted

  /** `weight` is the flow option; `own` is td->flow_counter. */
  datatype Job = Job(at: At, weight: nat, own: nat, seen: int)

  /** The group of one id, None while it is not allocated, and every job that asks for it. */
  datatype State = State(group: Option<Group>, jobs: seq<Job>)

  datatype Action =
    | Join(j: nat)
    | AddWeight(j: nat)
    | Load(j: nat)
    | Test(j: nat)
    | AddShared(j: nat)
    | AddOwn(j: nat)
    | SubCounter(j: nat)
    | SubWeight(j: nat)
    | Unref(j: nat)

  // ----- what each access does to the group

  /** flow_get under flow_lock: find the group or allocate it, and take a reference. */
  function Referenced(g: Option<Group>): Group {
    if g.Some? then g.value.(refs := g.value.refs + 1) else Group(1, 1, 0)
  }

  /** The end of flow_put: drop the reference, free the group with the last one. */
  function Unreferenced(g: Group): Option<Group> {
    if g.refs == 1 then None else Some(g.(refs := g.refs - 1))
  }

  /** The threshold test: does `own / counter` exceed `weight / total`? */
  predicate Exceeds(own: int, counter: int, weight: int, total: int) {
    own * total > weight * counter
  }

  /** Over the reals this is the test the code writes with two divisions. */
  lemma RatioTest(own: int, counter: int, weight: int, total: int)
    requires counter > 0 && total > 0
    ensures Exceeds(own, counter, weight, total)
        <==> own as real / counter as real > weight as real / total as real
  {
    var c, t := counter as real, total as real;
    var x, y := own as real / c, weight as real / t;
    assert x * c == own as real && y * t == weight as real;
    assert (own * total) as real == (x * c) * t == x * (c * t);
    assert (weight * counter) as real == (y * t) * c == y * (c * t);
    RealMulLess(x, y, c * t);
  }

  lemma RealMulLess(x: real, y: real, d: real)
    requires d > 0.0
    ensures x > y <==> x * d > y * d
  {
    assert (x - y) * d == x * d - y * d;
  }

  // ----- steps

  predicate Enabled(s: State, a: Action) {
    && a.j < |s.jobs|
    && s.jobs[a.j].at ==
         (match a
          case Join(_) => Outside
          case AddWeight(_) => Joining
          case Load(_) => Idle
          case Test(_) => Loaded
          case AddShared(_) => Admitted
          case AddOwn(_) => Half
          case SubCounter(_) => Idle
          case SubWeight(_) => Leaving
          case Unref(_) => Unweighted)
    // flow_init_job does nothing for a job without a weight
    && (a.Join? ==> s.jobs[a.j].weight > 0)
    && (!a.Join? ==> s.group.Some?)
  }

  /** The job's new fields and the group after the step. */
  function JobStep(g: Option<Group>, x: Job, a: Action): Job
    requires !a.Join? ==> g.Some?
  {
    match a
    case Join(_) => x.(at := Joining, own := 0)
    case AddWeight(_) => x.(at := Idle)
    case Load(_) => x.(at := Loaded, seen := g.value.counter)
    case Test(_) => x.(at := if Exceeds(x.own, x.seen, x.weight, g.value.total) then Idle else Admitted)
    case AddShared(_) => x.(at := Half)
    case AddOwn(_) => x.(at := Idle, own := x.own + 1)
    case SubCounter(_) => x.(at := Leaving)
    case SubWeight(_) => x.(at := Unweighted)
    case Unref(_) => x.(at := Outside)
  }

  function GroupStep(g: Option<Group>, x: Job, a: Action): Option<Group>
    requires !a.Join? ==> g.Some?
  {
    match a
    case Join(_) => Some(Referenced(g))
    case AddWeight(_) => Some(g.value.(total := g.value.total + x.weight))
    case AddShared(_) => Some(g.value.(counter := g.value.counter + 1))
    case SubCounter(_) => Some(g.value.(counter := g.value.counter - x.own))
    case SubWeight(_) => Some(g.value.(total := g.value.total - x.weight))
    case Unref(_) => Unreferenced(g.value)
    case _ => g
  }

  function Step(s: State, a: Action): State
    requires Enabled(s, a)
  {
    State(GroupStep(s.group, s.jobs[a.j], a), s.jobs[a.j := JobStep(s.group, s.jobs[a.j], a)])
  }

  // ----- sums over the jobs

  function Total(f: Job -> nat, jobs: seq<Job>): nat {
    if jobs == [] then 0 else Total(f, jobs[..|jobs| - 1]) + f(jobs[|jobs| - 1])
  }

  lemma {:induction false} TotalZero(f: Job -> nat, jobs: seq<Job>)
    ensures Total(f, jobs) == 0 <==> forall j :: 0 <= j < |jobs| ==> f(jobs[j]) == 0
  {
    if jobs != [] {
      var rest := jobs[..|jobs| - 1];
      TotalZero(f, rest);
      assert forall j :: 0 <= j < |rest| ==> rest[j] == jobs[j];
    }
  }

  lemma {:induction false} PartOfTotal(f: Job -> nat, jobs: seq<Job>, j: nat)
    requires j < |jobs|
    ensures f(jobs[j]) <= Total(f, jobs)
  {
    if j < |jobs| - 1 {
      PartOfTotal(f, jobs[..|jobs| - 1], j);
    }
  }

  lemma {:induction false} TotalUpdate(f: Job -> nat, jobs: seq<Job>, j: nat, x: Job)
    requires j < |jobs|
    ensures Total(f, jobs[j := x]) == Total(f, jobs) - f(jobs[j]) + f(x)
  {
    var last := |jobs| - 1;
    if j < last {
      TotalUpdate(f, jobs[..last], j, x);
      assert jobs[j := x][..last] == jobs[..last][j := x];
    } else {
      assert jobs[j := x][..last] == jobs[..last];
    }
  }

  /** What the job has in total_weight. */
  function Weighing(x: Job): nat {
    if x.at == Outside || x.at == Joining || x.at == Unweighted then 0 else x.weight
  }

  function Departing(x: Job): nat {
    if x.at == Leaving then x.weight else 0
  }

  predicate Member(x: Job) {
    x.at == Idle || x.at == Loaded || x.at == Admitted || x.at == Half
  }

  function Own(x: Job): nat {
    if Member(x) then x.own else 0
  }

  function HalfDone(x: Job): nat {
    if x.at == Half then 1 else 0
  }

  function Present(x: Job): nat {
    if x.at == Outside then 0 else 1
  }

  // ----- accounting

  predicate Accounts(g: Group, jobs: seq<Job>) {
    && g.counter == 1 + Total(Own, jobs) + Total(HalfDone, jobs)
    && g.total == Total(Weighing, jobs)
    && g.refs == Total(Present, jobs)
  }

  predicate JobOk(x: Job) {
    && (x.at != Outside ==> x.weight > 0)
    && (x.at == Joining ==> x.own == 0)
    && (x.at == Loaded ==> x.seen > 0)
  }

  /** The shared counter is one more than the members' counters and half-finished increments;
      weight and references match; the group exists exactly while it is referenced. */
  ghost predicate Inv(s: State) {
    && (forall j :: 0 <= j < |s.jobs| ==> JobOk(s.jobs[j]))
    && (s.group.Some? ==> s.group.value.refs > 0 && Accounts(s.group.value, s.jobs))
    && (s.group.None? ==> Total(Present, s.jobs) == 0)
  }

  /** Without a present job every sum is zero. */
  lemma NobodyPresent(jobs: seq<Job>)
    requires Total(Present, jobs) == 0
    ensures Total(Own, jobs) == 0 && Total(HalfDone, jobs) == 0 && Total(Weighing, jobs) == 0
  {
    TotalZero(Present, jobs);
    assert forall j :: 0 <= j < |jobs| ==> Present(jobs[j]) == 0 ==> jobs[j].at == Outside;
    TotalZero(Own, jobs);
    TotalZero(HalfDone, jobs);
    TotalZero(Weighing, jobs);
  }

  lemma TotalsAfter(jobs: seq<Job>, j: nat, x: Job)
    requires j < |jobs|
    ensures Total(Own, jobs[j := x]) == Total(Own, jobs) - Own(jobs[j]) + Own(x)
    ensures Total(HalfDone, jobs[j := x]) == Total(HalfDone, jobs) - HalfDone(jobs[j]) + HalfDone(x)
    ensures Total(Weighing, jobs[j := x]) == Total(Weighing, jobs) - Weighing(jobs[j]) + Weighing(x)
    ensures Total(Present, jobs[j := x]) == Total(Present, jobs) - Present(jobs[j]) + Present(x)
  {
    TotalUpdate(Own, jobs, j, x);
    TotalUpdate(HalfDone, jobs, j, x);
    TotalUpdate(Weighing, jobs, j, x);
    TotalUpdate(Present, jobs, j, x);
  }

  /** The assertion in flow_put: the last reference finds flow_counter at 1 (and no weight). */
  lemma LastPutFindsOne(s: State, j: nat)
    requires Inv(s) && Enabled(s, Unref(j)) && s.group.value.refs == 1
    ensures s.group.value.counter == 1 && s.group.value.total == 0
  {
    var gone := s.jobs[j].(at := Outside);
    TotalsAfter(s.jobs, j, gone);
    NobodyPresent(s.jobs[j := gone]);
  }

  /** What one step owes the accounts: the change of the group matches the change of the job. */
  predicate Balanced(g: Option<Group>, x: Job, g': Option<Group>, x': Job) {
    var was := if g.Some? then g.value else Group(0, 1, 0);
    var now := if g'.Some? then g'.value else Group(0, was.counter, was.total);
    && now.counter - was.counter == Own(x') + HalfDone(x') - Own(x) - HalfDone(x)
    && now.total - was.total == Weighing(x') - Weighing(x)
    && now.refs - was.refs == Present(x') - Present(x)
    && (g'.Some? ==> now.refs > 0)
  }

  lemma StepBalanced(s: State, a: Action)
    requires Inv(s) && Enabled(s, a)
    ensures var s' := Step(s, a);
      JobOk(s'.jobs[a.j]) && Balanced(s.group, s.jobs[a.j], s'.group, s'.jobs[a.j])
  {
    assert JobOk(s.jobs[a.j]);
    if a.Load? {
      assert s.group.value.counter >= 1;
    }
  }

  lemma BalancedKeeps(s: State, j: nat, x: Job, s': State)
    requires Inv(s) && j < |s.jobs| && s'.jobs == s.jobs[j := x]
    requires JobOk(x) && Balanced(s.group, s.jobs[j], s'.group, x)
    ensures Inv(s')
  {
    TotalsAfter(s.jobs, j, x);
    if s.group.None? {
      NobodyPresent(s.jobs);
    }
    assert forall i :: 0 <= i < |s.jobs| ==> s'.jobs[i] == s.jobs[i] || s'.jobs[i] == x;
  }

  lemma StepKeeps(s: State, a: Action) returns (s': State)
    requires Inv(s) && Enabled(s, a)
    ensures s' == Step(s, a) && Inv(s')
  {
    s' := Step(s, a);
    StepBalanced(s, a);
    BalancedKeeps(s, a.j, s'.jobs[a.j], s');
  }

  /** Nobody has joined. */
  ghost predicate Initial(s: State) {
    s.group == None && forall j :: 0 <= j < |s.jobs| ==> s.jobs[j].at == Outside
  }

  ghost predicate IsRun(acts: seq<Action>, trace: seq<State>) {
    && |trace| == |acts| + 1
    && forall i :: 0 <= i < |acts| ==> Enabled(trace[i], acts[i]) && trace[i + 1] == Step(trace[i], acts[i])
  }

  /** The accounting holds in every state of every run of joins, tests and exits. */
  lemma {:induction false} RunInv(acts: seq<Action>, trace: seq<State>, k: nat)
    requires IsRun(acts, trace) && Initial(trace[0]) && k < |trace|
    ensures Inv(trace[k])
  {
    if k == 0 {
      var jobs := trace[0].jobs;
      assert forall j :: 0 <= j < |jobs| ==> jobs[j].at == Outside ==> Present(jobs[j]) == 0;
      TotalZero(Present, jobs);
    } else {
      RunInv(acts, trace, k - 1);
      var s := StepKeeps(trace[k - 1], acts[k - 1]);
    }
  }

  /** So neither division by zero nor the assertion in flow_put can happen in any run. */
  lemma RunAsserts(acts: seq<Action>, trace: seq<State>, k: nat)
    requires IsRun(acts, trace) && Initial(trace[0]) && k < |acts| && Enabled(trace[k], acts[k])
    ensures acts[k].Test? ==> trace[k].jobs[acts[k].j].seen > 0 && trace[k].group.value.total > 0
    ensures acts[k].Unref? && trace[k].group.value.refs == 1 ==> trace[k].group.value.counter == 1
  {
    RunInv(acts, trace, k);
    var s, a := trace[k], acts[k];
    if a.Test? {
      PartOfTotal(Weighing, s.jobs, a.j);
    } else if a.Unref? && s.group.value.refs == 1 {
      LastPutFindsOne(s, a.j);
    }
  }

  // ----- what the test decides

  lemma {:induction false} LoadedSince(acts: seq<Action>, trace: seq<State>, i: nat, k: nat, j: nat)
    requires IsRun(acts, trace) && i < k < |trace| && acts[i] == Load(j)
    requires forall m :: i < m < k ==> acts[m].j != j
    ensures trace[i].group.Some? && j < |trace[i].jobs| && j < |trace[k].jobs|
    ensures trace[k].jobs[j] == trace[i].jobs[j].(at := Loaded, seen := trace[i].group.value.counter)
  {
    if i + 1 < k {
      LoadedSince(acts, trace, i, k - 1, j);
      assert acts[k - 1].j != j;
    }
  }

  /** In every run a job is refused exactly if its share of the counter it read, at its last load,
      exceeds its share of the weight at the test. */
  lemma TestDecides(acts: seq<Action>, trace: seq<State>, i: nat, k: nat, j: nat)
    requires IsRun(acts, trace) && Initial(trace[0]) && i < k < |acts| && acts[i] == Load(j) && acts[k] == Test(j)
    requires forall m :: i < m < k ==> acts[m].j != j
    ensures trace[i].group.Some? && trace[k].group.Some?
    ensures trace[i].group.value.counter > 0 && trace[k].group.value.total > 0
    ensures j < |trace[k].jobs| && j < |trace[k + 1].jobs|
    ensures trace[k + 1].jobs[j].at ==
      if trace[k].jobs[j].own as real / trace[i].group.value.counter as real
           > trace[k].jobs[j].weight as real / trace[k].group.value.total as real
      then Idle else Admitted
  {
    LoadedSince(acts, trace, i, k, j);
    assert Enabled(trace[k], acts[k]);
    RunAsserts(acts, trace, k);
    var x := trace[k].jobs[j];
    RatioTest(x.own, x.seen, x.weight, trace[k].group.value.total);
  }

  // ----- progress

  predicate Refused(x: Job, counter: int, total: int) {
    Member(x) && Exceeds(x.own, counter, x.weight, total)
  }

  lemma RefusedOrOut(x: Job, counter: int, total: int)
    requires counter >= 0 && total >= 0 && (Member(x) ==> Refused(x, counter, total))
    ensures Own(x) * total >= (Weighing(x) - Departing(x)) * counter
  {
  }

  lemma {:induction false} AllRefused(jobs: seq<Job>, counter: int, total: int)
    requires counter >= 0 && total >= 0
    requires forall j :: 0 <= j < |jobs| && Member(jobs[j]) ==> Refused(jobs[j], counter, total)
    ensures Total(Own, jobs) * total >= (Total(Weighing, jobs) - Total(Departing, jobs)) * counter
  {
    if jobs != [] {
      var rest, x := jobs[..|jobs| - 1], jobs[|jobs| - 1];
      AllRefused(rest, counter, total);
      RefusedOrOut(x, counter, total);
      var own, weight := Total(Own, rest), Total(Weighing, rest) - Total(Departing, rest);
      AddAtLeast(own, Own(x), total, weight, Weighing(x) - Departing(x), counter);
      assert Total(Own, jobs) == own + Own(x);
      assert Total(Weighing, jobs) - Total(Departing, jobs) == weight + (Weighing(x) - Departing(x));
    }
  }

  lemma AddAtLeast(o1: int, o2: int, t: int, w1: int, w2: int, c: int)
    requires o1 * t >= w1 * c && o2 * t >= w2 * c
    ensures (o1 + o2) * t >= (w1 + w2) * c
  {
    Distribute(o1, o2, t);
    Distribute(w1, w2, c);
  }

  lemma {:induction false} MembersWeigh(jobs: seq<Job>, j: nat)
    requires j < |jobs| && Member(jobs[j])
    ensures Total(Departing, jobs) + jobs[j].weight <= Total(Weighing, jobs)
  {
    var rest, x := jobs[..|jobs| - 1], jobs[|jobs| - 1];
    if j < |jobs| - 1 {
      MembersWeigh(rest, j);
    } else {
      DepartingWeighs(rest);
    }
  }

  lemma {:induction false} DepartingWeighs(jobs: seq<Job>)
    ensures Total(Departing, jobs) <= Total(Weighing, jobs)
  {
    if jobs != [] {
      DepartingWeighs(jobs[..|jobs| - 1]);
    }
  }

  /** Measured against the weight of the jobs that still run, some member is always admitted. */
  lemma SomeMemberAdmitted(s: State, j: nat) returns (k: nat)
    requires Inv(s) && j < |s.jobs| && Member(s.jobs[j]) && s.group.Some?
    ensures k < |s.jobs| && Member(s.jobs[k])
    ensures !Refused(s.jobs[k], s.group.value.counter, s.group.value.total - Total(Departing, s.jobs))
  {
    var g, w := s.group.value, s.group.value.total - Total(Departing, s.jobs);
    if i :| 0 <= i < |s.jobs| && Member(s.jobs[i]) && !Refused(s.jobs[i], g.counter, w) {
      k := i;
    } else {
      assert JobOk(s.jobs[j]);
      MembersWeigh(s.jobs, j);
      AllRefused(s.jobs, g.counter, w);
      StrictlyLess(Total(Own, s.jobs), g.counter, w);
      assert false;
    }
  }

  lemma StrictlyLess(own: int, counter: int, w: int)
    requires own < counter && w > 0
    ensures own * w < w * counter
  {
    MulLe(own + 1, counter, w);
    Distribute(own, 1, w);
  }

  /** So a group stalls as a whole only while flow_put is between its two subtractions: as long
      as no job is, the test as the code runs it admits some member. */
  lemma NeverAllStalled(s: State, j: nat) returns (k: nat)
    requires Inv(s) && j < |s.jobs| && Member(s.jobs[j]) && s.group.Some?
    requires forall i :: 0 <= i < |s.jobs| ==> s.jobs[i].at != Leaving
    ensures k < |s.jobs| && Member(s.jobs[k])
    ensures !Refused(s.jobs[k], s.group.value.counter, s.group.value.total)
  {
    TotalZero(Departing, s.jobs);
    k := SomeMemberAdmitted(s, j);
  }

  // ----- fairness with fixed membership

  predicate InCycle(a: Action) {
    a.Load? || a.Test? || a.AddShared? || a.AddOwn?
  }

  predicate Settled(x: Job) {
    x.at == Outside || Member(x)
  }

  /** What keeps one job's counter down.  A counter that was read earlier only refuses more. */
  predicate Capped(x: Job, g: Group) {
    && (Member(x) ==> x.own * g.total <= x.weight * g.counter + g.total)
    && (x.at == Admitted || x.at == Half ==> x.own * g.total <= x.weight * g.counter)
    && (x.at == Loaded ==> x.seen <= g.counter)
  }

  predicate AllCapped(jobs: seq<Job>, g: Group) {
    forall j :: 0 <= j < |jobs| ==> Settled(jobs[j]) && Capped(jobs[j], g)
  }

  ghost predicate Fair(s: State) {
    Inv(s) && s.group.Some? && AllCapped(s.jobs, s.group.value)
  }

  /** All members have joined and nobody has been admitted yet. */
  ghost predicate FreshStart(s: State) {
    && Inv(s) && s.group.Some?
    && forall j :: 0 <= j < |s.jobs| ==>
         s.jobs[j].at == Outside || (s.jobs[j].at == Idle && s.jobs[j].own == 0)
  }

  lemma CappedGrows(x: Job, g: Group, g': Group)
    requires Capped(x, g) && g'.total == g.total && g.counter <= g'.counter
    ensures Capped(x, g')
  {
    MulLe(g.counter, g'.counter, x.weight);
  }

  lemma CappedStep(s: State, a: Action, s': State)
    requires Fair(s) && Enabled(s, a) && InCycle(a) && s' == Step(s, a)
    ensures Capped(s'.jobs[a.j], s'.group.value)
  {
    var x, g := s.jobs[a.j], s.group.value;
    assert Capped(x, g);
    match a
    case Test(_) =>
      if !Exceeds(x.own, x.seen, x.weight, g.total) {
        MulLe(x.seen, g.counter, x.weight);
      }
    case AddShared(_) =>
      CappedGrows(x, g, s'.group.value);
    case AddOwn(_) =>
      Distribute(x.own, 1, g.total);
    case Load(_) =>
  }

  lemma CycleKeepsFair(s: State, a: Action) returns (s': State)
    requires Fair(s) && Enabled(s, a) && InCycle(a)
    ensures s' == Step(s, a) && Fair(s') && s'.group.value.total == s.group.value.total
  {
    s' := StepKeeps(s, a);
    CappedStep(s, a, s');
    forall j | 0 <= j < |s'.jobs| ensures Settled(s'.jobs[j]) && Capped(s'.jobs[j], s'.group.value) {
      if j != a.j {
        assert s'.jobs[j] == s.jobs[j];
        CappedGrows(s.jobs[j], s.group.value, s'.group.value);
      }
    }
  }

  lemma {:induction false} FixedRunFair(acts: seq<Action>, trace: seq<State>, k: nat)
    requires IsRun(acts, trace) && FreshStart(trace[0]) && k < |trace|
    requires forall i :: 0 <= i < |acts| ==> InCycle(acts[i])
    ensures Fair(trace[k])
  {
    if k == 0 {
      var s := trace[0];
      forall j | 0 <= j < |s.jobs| ensures Capped(s.jobs[j], s.group.value) {
        assert s.jobs[j].own * s.group.value.total == 0 || s.jobs[j].at == Outside;
        MulLe(0, s.group.value.counter, s.jobs[j].weight);
      }
    } else {
      FixedRunFair(acts, trace, k - 1);
      var s := CycleKeepsFair(trace[k - 1], acts[k - 1]);
    }
  }

  /** The caps, summed over all jobs. */
  lemma {:induction false} CapsAdd(jobs: seq<Job>, g: Group)
    requires AllCapped(jobs, g)
    ensures Total(Own, jobs) * g.total <= Total(Weighing, jobs) * g.counter + Total(Present, jobs) * g.total
  {
    if jobs != [] {
      var rest, x := jobs[..|jobs| - 1], jobs[|jobs| - 1];
      CapsAdd(rest, g);
      assert Settled(x) && Capped(x, g);
      assert Own(x) * g.total <= Weighing(x) * g.counter + Present(x) * g.total;
      AddAtMost(Total(Own, rest), Own(x), g.total, Total(Weighing, rest), Weighing(x), g.counter,
                Total(Present, rest), Present(x));
    }
  }

  lemma AddAtMost(o1: int, o2: int, t: int, w1: int, w2: int, c: int, n1: int, n2: int)
    requires o1 * t <= w1 * c + n1 * t && o2 * t <= w2 * c + n2 * t
    ensures (o1 + o2) * t <= (w1 + w2) * c + (n1 + n2) * t
  {
    Distribute(o1, o2, t);
    Distribute(w1, w2, c);
    Distribute(n1, n2, t);
  }

  /** With nobody half-way, what the others cannot have this job has. */
  lemma LowerBound(s: State, j: nat)
    requires Fair(s) && j < |s.jobs| && Member(s.jobs[j]) && Total(HalfDone, s.jobs) == 0
    ensures var g := s.group.value;
      s.jobs[j].own * g.total >= s.jobs[j].weight * g.counter - g.refs * g.total
  {
    var g, x := s.group.value, s.jobs[j];
    var gone := x.(at := Outside);
    var others := s.jobs[j := gone];
    OthersCapped(s, j, gone);
    CapsAdd(others, g);
    assert Total(Own, others) == g.counter - 1 - x.own
        && Total(Weighing, others) == g.total - x.weight && Total(Present, others) == g.refs - 1 by {
      TotalsAfter(s.jobs, j, gone);
    }
    Spread(g.counter, x.own, x.weight, g.refs, g.total);
  }

  lemma OthersCapped(s: State, j: nat, gone: Job)
    requires Fair(s) && j < |s.jobs| && gone.at == Outside
    ensures AllCapped(s.jobs[j := gone], s.group.value)
  {
    var others := s.jobs[j := gone];
    forall i | 0 <= i < |others| ensures Settled(others[i]) && Capped(others[i], s.group.value) {
      if i != j {
        assert Settled(s.jobs[i]) && Capped(s.jobs[i], s.group.value);
      }
    }
  }

  lemma Spread(f: int, c: int, w: int, n: int, t: int)
    requires (f - 1 - c) * t <= (t - w) * f + (n - 1) * t
    ensures c * t >= w * f - n * t
  {
    MulSub(f - 1, c, t);
    MulSub(f, 1, t);
    MulSub(t, w, f);
    MulSub(n, 1, t);
  }

  /** In every run with fixed members, whatever stale counters the tests saw, each job's counter
      is at most its share of the group's plus one, and, when nobody is between its two
      increments, at least its share minus the number of members. */
  lemma FixedRunShares(acts: seq<Action>, trace: seq<State>, k: nat, j: nat)
    requires IsRun(acts, trace) && FreshStart(trace[0]) && k < |trace|
    requires forall i :: 0 <= i < |acts| ==> InCycle(acts[i])
    requires j < |trace[k].jobs| && Member(trace[k].jobs[j])
    ensures trace[k].group.Some?
    ensures var g := trace[k].group.value;
      && trace[k].jobs[j].own * g.total <= trace[k].jobs[j].weight * g.counter + g.total
      && (Total(HalfDone, trace[k].jobs) == 0 ==>
            trace[k].jobs[j].own * g.total >= trace[k].jobs[j].weight * g.counter - g.refs * g.total)
  {
    FixedRunFair(acts, trace, k);
    assert Capped(trace[k].jobs[j], trace[k].group.value);
    if Total(HalfDone, trace[k].jobs) == 0 {
      LowerBound(trace[k], j);
    }
  }

  lemma CrossShares(ci: int, wi: nat, cj: int, wj: nat, f: int, t: int, n: int)
    requires t > 0 && ci * t <= wi * f + t && cj * t >= wj * f - n * t
    ensures ci * wj <= wi * cj + n * wi + wj
  {
    assert (ci * wj) * t <= (wi * wj) * f + wj * t by {
      MulLe(ci * t, wi * f + t, wj);
      Rotate(ci, t, wj);
      Distribute(wi * f, t, wj);
      Rotate(wi, f, wj);
    }
    assert (wi * wj) * f - (n * wi) * t <= (wi * cj) * t by {
      MulLe(wj * f - n * t, cj * t, wi);
      MulSub(wj * f, n * t, wi);
      Rotate(wj, f, wi);
      Rotate(n, t, wi);
      Rotate(cj, t, wi);
    }
    Cancel(ci * wj, wi * cj, n * wi, wj, t);
  }

  lemma Rotate(a: int, b: int, c: int)
    ensures (a * b) * c == (a * c) * b == (c * a) * b
  {
  }

  lemma Cancel(left: int, a: int, b: int, c: int, t: int)
    requires t > 0 && left * t <= a * t + b * t + c * t
    ensures left <= a + b + c
  {
    Distribute(a, b, t);
    Distribute(a + b, c, t);
    if left > a + b + c {
      MulLe(a + b + c + 1, left, t);
      Distribute(a + b + c, 1, t);
    }
  }

  /** Any two members of such a run stay in proportion to their weights, at every moment at which
      nobody is between its two increments, however long the run. */
  lemma PairwiseFair(acts: seq<Action>, trace: seq<State>, k: nat, i: nat, j: nat)
    requires IsRun(acts, trace) && FreshStart(trace[0]) && k < |trace|
    requires forall i :: 0 <= i < |acts| ==> InCycle(acts[i])
    requires i < |trace[k].jobs| && j < |trace[k].jobs|
    requires Member(trace[k].jobs[i]) && Member(trace[k].jobs[j]) && Total(HalfDone, trace[k].jobs) == 0
    ensures trace[k].group.Some?
    ensures var x, y, n := trace[k].jobs[i], trace[k].jobs[j], trace[k].group.value.refs;
      x.own * y.weight <= x.weight * y.own + n * x.weight + y.weight
  {
    FixedRunShares(acts, trace, k, i);
    FixedRunShares(acts, trace, k, j);
    FixedRunFair(acts, trace, k);
    var s := trace[k];
    PartOfTotal(Weighing, s.jobs, i);
    assert JobOk(s.jobs[i]);
    CrossShares(s.jobs[i].own, s.jobs[i].weight, s.jobs[j].own, s.jobs[j].weight,
                s.group.value.counter, s.group.value.total, s.group.value.refs);
  }
}
