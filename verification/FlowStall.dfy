/** When a flow group can stall as a whole: exactly while flow_put is between its two subtractions
    for some job, whatever the weights and wherever the other jobs stand. */
module FlowStall {
  import opened Bits
  import opened Options
  import opened Flow

  ghost predicate Reachable(s: State) {
    exists acts: seq<Action>, trace: seq<State> ::
      IsRun(acts, trace) && Initial(trace[0]) && trace[|acts|] == s
  }

  lemma Reach(s: State, a: Action) returns (s': State)
    requires Reachable(s) && Enabled(s, a)
    ensures s' == Step(s, a) && Reachable(s')
  {
    var acts: seq<Action>, trace: seq<State> :| IsRun(acts, trace) && Initial(trace[0]) && trace[|acts|] == s;
    s' := Step(s, a);
    var acts', trace' := acts + [a], trace + [s'];
    assert IsRun(acts', trace') && trace'[0] == trace[0] && trace'[|acts'|] == s';
  }

  /** Where a job is to stand, and its weight. */
  datatype Place = Place(at: At, weight: nat)

  predicate Runs(at: At) {
    at == Idle || at == Loaded || at == Admitted || at == Half
  }

  ghost predicate Stands(s: State, shape: seq<Place>) {
    |s.jobs| == |shape|
    && forall j :: 0 <= j < |shape| ==> s.jobs[j].at == shape[j].at && s.jobs[j].weight == shape[j].weight
  }

  /** The test would refuse every member. */
  ghost predicate Stalled(s: State) {
    && s.group.Some?
    && forall j :: 0 <= j < |s.jobs| && Member(s.jobs[j]) ==>
         Refused(s.jobs[j], s.group.value.counter, s.group.value.total)
  }

  // ----- building a stalled group

  function Counter(g: Option<Group>): int {
    if g.Some? then g.value.counter else 1
  }

  function Weight(g: Option<Group>): int {
    if g.Some? then g.value.total else 0
  }

  /** The test admits a job that reads the counter now. */
  predicate Allowed(x: Job, g: Option<Group>) {
    !Exceeds(x.own, Counter(g), x.weight, Weight(g))
  }

  /** Per unit of weight the group has had `k` turns, and `h` more are half done. */
  predicate Level(g: Option<Group>, k: nat, h: nat) {
    Weight(g) >= 0 && Counter(g) == 1 + k * Weight(g) + h
  }

  lemma LevelAgain(g: Option<Group>, g': Option<Group>, w: nat, turns: nat, k: nat, h: nat)
    requires Level(g, k, h) && turns == k * w
    requires Weight(g') == Weight(g) + w && Counter(g') == Counter(g) + turns
    ensures Level(g', k, h)
  {
    Distribute(Weight(g), w, k);
  }

  /** The job stands where it is to stand, a member after `k` turns per unit of weight. */
  predicate PlacedAs(x: Job, p: Place, k: nat) {
    x.at == p.at && x.weight == p.weight && (Runs(p.at) ==> x.own == k * p.weight)
  }

  /** Only job `j` differs. */
  predicate OnlyJob(s: State, s': State, j: nat) {
    |s'.jobs| == |s.jobs| && forall i :: 0 <= i < |s.jobs| && i != j ==> s'.jobs[i] == s.jobs[i]
  }

  lemma Joins(s: State, j: nat) returns (s': State)
    requires Reachable(s) && j < |s.jobs| && s.jobs[j].at == Outside && s.jobs[j].weight > 0
    ensures Reachable(s') && OnlyJob(s, s', j) && s'.group.Some?
    ensures s'.jobs[j] == s.jobs[j].(at := Idle, own := 0)
    ensures Counter(s'.group) == Counter(s.group) && Weight(s'.group) == Weight(s.group) + s.jobs[j].weight
  {
    s' := Reach(s, Join(j));
    s' := Reach(s', AddWeight(j));
  }

  /** A job that its share allows takes one turn. */
  lemma TakesTurn(s: State, j: nat) returns (s': State)
    requires Reachable(s) && j < |s.jobs| && s.jobs[j].at == Idle && s.group.Some?
    requires Allowed(s.jobs[j], s.group)
    ensures Reachable(s') && OnlyJob(s, s', j) && s'.group.Some?
    ensures s'.jobs[j].at == Idle && s'.jobs[j].weight == s.jobs[j].weight && s'.jobs[j].own == s.jobs[j].own + 1
    ensures Counter(s'.group) == Counter(s.group) + 1 && Weight(s'.group) == Weight(s.group)
  {
    s' := Goes(s, j, Half);
    s' := Reach(s', AddOwn(j));
  }

  /** The accesses of one turn, up to the given point. */
  lemma Goes(s: State, j: nat, at: At) returns (s': State)
    requires Reachable(s) && j < |s.jobs| && s.jobs[j].at == Idle && s.group.Some? && Runs(at)
    requires Allowed(s.jobs[j], s.group)
    ensures Reachable(s') && OnlyJob(s, s', j) && s'.group.Some?
    ensures s'.jobs[j].at == at && s'.jobs[j].weight == s.jobs[j].weight && s'.jobs[j].own == s.jobs[j].own
    ensures Counter(s'.group) == Counter(s.group) + (if at == Half then 1 else 0)
    ensures Weight(s'.group) == Weight(s.group)
  {
    s' := s;
    if at != Idle {
      s' := Reach(s', Load(j));
    }
    if at == Admitted || at == Half {
      s' := Reach(s', Test(j));
    }
    if at == Half {
      s' := Reach(s', AddShared(j));
    }
  }

  /** Alone against jobs that have had `k` turns per unit of weight, a job is admitted until it has
      had as many. */
  lemma TurnAllowed(x: Job, g: Option<Group>, before: Option<Group>, k: nat, h: nat)
    requires x.own <= k * x.weight && Level(before, k, h)
    requires Weight(g) == Weight(before) + x.weight && Counter(g) == Counter(before) + x.own
    ensures Allowed(x, g)
  {
    var own, w, others := x.own, x.weight, Weight(before);
    MulLe(own, k * w, others);
    assert own * (others + w) == own * others + own * w;
    assert w * (1 + k * others + h + own) == w * (1 + h) + (k * w) * others + own * w;
  }

  lemma TakesTurns(s: State, j: nat, before: Option<Group>, k: nat, h: nat, turns: nat) returns (s': State)
    requires Reachable(s) && j < |s.jobs| && s.jobs[j].at == Idle && s.jobs[j].own == 0 && s.group.Some?
    requires Level(before, k, h) && turns == k * s.jobs[j].weight
    requires Weight(s.group) == Weight(before) + s.jobs[j].weight && Counter(s.group) == Counter(before)
    ensures Reachable(s') && OnlyJob(s, s', j) && s'.group.Some?
    ensures s'.jobs[j].at == Idle && s'.jobs[j].weight == s.jobs[j].weight && s'.jobs[j].own == turns
    ensures Counter(s'.group) == Counter(s.group) + turns && Weight(s'.group) == Weight(s.group)
    ensures Allowed(s'.jobs[j], s'.group)
  {
    s' := s;
    for own := 0 to turns
      invariant Reachable(s') && OnlyJob(s, s', j) && s'.group.Some?
      invariant s'.jobs[j].at == Idle && s'.jobs[j].weight == s.jobs[j].weight && s'.jobs[j].own == own
      invariant Counter(s'.group) == Counter(s.group) + own && Weight(s'.group) == Weight(s.group)
    {
      TurnAllowed(s'.jobs[j], s'.group, before, k, h);
      s' := TakesTurn(s', j);
    }
    TurnAllowed(s'.jobs[j], s'.group, before, k, h);
  }

  /** A member joins and takes `k` turns per unit of weight; its share allows one more. */
  lemma MemberTurns(s: State, j: nat, k: nat, h: nat) returns (s': State)
    requires Reachable(s) && j < |s.jobs| && s.jobs[j].at == Outside && s.jobs[j].weight > 0
    requires Level(s.group, k, h)
    ensures Reachable(s') && OnlyJob(s, s', j) && s'.group.Some?
    ensures s'.jobs[j].at == Idle && s'.jobs[j].weight == s.jobs[j].weight
    ensures s'.jobs[j].own == k * s.jobs[j].weight
    ensures Level(s'.group, k, h) && Allowed(s'.jobs[j], s'.group)
  {
    var w: nat := s.jobs[j].weight;
    var turns: nat := k * w;
    s' := Joins(s, j);
    s' := TakesTurns(s', j, s.group, k, h, turns);
    LevelAgain(s.group, s'.group, w, turns, k, h);
  }

  /** A member joins, takes its turns, and goes where it is to stand. */
  lemma MemberPlaced(s: State, j: nat, at: At, k: nat, h: nat) returns (s': State)
    requires Reachable(s) && j < |s.jobs| && s.jobs[j].at == Outside && s.jobs[j].weight > 0 && Runs(at)
    requires Level(s.group, k, h)
    ensures Reachable(s') && OnlyJob(s, s', j) && s'.group.Some?
    ensures PlacedAs(s'.jobs[j], Place(at, s.jobs[j].weight), k)
    ensures Level(s'.group, k, h + if at == Half then 1 else 0)
  {
    s' := MemberTurns(s, j, k, h);
    s' := Goes(s', j, at);
  }

  /** A job that does not run joins and goes where it is to stand.  Without turns of its own it
      takes nothing back from the counter. */
  lemma OtherPlaced(s: State, j: nat, at: At) returns (s': State)
    requires Reachable(s) && j < |s.jobs| && s.jobs[j].at == Outside && !Runs(at)
    requires at != Outside ==> s.jobs[j].weight > 0
    ensures Reachable(s') && OnlyJob(s, s', j) && (s.group.Some? ==> s'.group.Some?)
    ensures s'.jobs[j].at == at && s'.jobs[j].weight == s.jobs[j].weight
    ensures Counter(s'.group) == Counter(s.group)
    ensures Weight(s'.group) == Weight(s.group) + (if at == Leaving then s.jobs[j].weight else 0)
  {
    s' := s;
    if at == Joining {
      s' := Reach(s', Join(j));
    } else if at == Leaving || at == Unweighted {
      s' := Joins(s', j);
      s' := Reach(s', SubCounter(j));
      if at == Unweighted {
        s' := Reach(s', SubWeight(j));
      }
    }
  }

  /** The jobs in `placed` stand where they are to stand, the others have not joined. */
  ghost predicate Built(s: State, shape: seq<Place>, placed: set<nat>, k: nat) {
    |s.jobs| == |shape|
    && forall j :: 0 <= j < |shape| ==>
         if j in placed then PlacedAs(s.jobs[j], shape[j], k)
         else s.jobs[j].at == Outside && s.jobs[j].weight == shape[j].weight
  }

  lemma OneMoreBuilt(s: State, s': State, shape: seq<Place>, placed: set<nat>, j: nat, k: nat)
    requires Built(s, shape, placed, k) && j < |shape| && OnlyJob(s, s', j) && PlacedAs(s'.jobs[j], shape[j], k)
    ensures Built(s', shape, placed + {j}, k)
  {
  }

  ghost predicate Weighted(shape: seq<Place>) {
    forall j :: 0 <= j < |shape| && shape[j].at != Outside ==> shape[j].weight > 0
  }

  /** The members before job `i` are placed, `h` of them half-way through a turn. */
  ghost predicate MembersUpTo(s: State, shape: seq<Place>, placed: set<nat>, i: nat, k: nat, h: nat)
    requires i <= |shape|
  {
    && Reachable(s) && Built(s, shape, placed, k) && h <= i && Level(s.group, k, h)
    && (forall j :: 0 <= j < i ==> (j in placed <==> Runs(shape[j].at)))
    && (forall j :: j in placed ==> j < i && s.group.Some?)
  }

  lemma OneMoreMember(s: State, shape: seq<Place>, placed: set<nat>, i: nat, k: nat, h: nat)
    returns (s': State, h': nat)
    requires Weighted(shape) && i < |shape| && MembersUpTo(s, shape, placed, i, k, h) && Runs(shape[i].at)
    ensures MembersUpTo(s', shape, placed + {i}, i + 1, k, h')
  {
    assert i !in placed && s.jobs[i].weight == shape[i].weight > 0;
    s' := MemberPlaced(s, i, shape[i].at, k, h);
    h' := h + if shape[i].at == Half then 1 else 0;
    OneMoreBuilt(s, s', shape, placed, i, k);
  }

  lemma Nobody(shape: seq<Place>) returns (s: State)
    ensures Reachable(s) && s.group == None && |s.jobs| == |shape|
    ensures forall j :: 0 <= j < |shape| ==> s.jobs[j].at == Outside && s.jobs[j].weight == shape[j].weight
  {
    s := State(None, seq(|shape|, j requires 0 <= j < |shape| => Job(Outside, shape[j].weight, 0, 0)));
    var acts: seq<Action>, trace := [], [s];
    assert IsRun(acts, trace) && trace[|acts|] == s;
  }

  lemma NoMemberYet(shape: seq<Place>, k: nat) returns (s: State)
    ensures MembersUpTo(s, shape, {}, 0, k, 0)
  {
    s := Nobody(shape);
    assert Level(s.group, k, 0);
  }

  lemma NotAMember(s: State, shape: seq<Place>, placed: set<nat>, i: nat, k: nat, h: nat)
    requires i < |shape| && MembersUpTo(s, shape, placed, i, k, h) && !Runs(shape[i].at)
    ensures MembersUpTo(s, shape, placed, i + 1, k, h)
  {
  }

  lemma {:induction false} MembersPlaced(shape: seq<Place>, i: nat, k: nat)
    returns (s: State, placed: set<nat>, h: nat)
    requires Weighted(shape) && i <= |shape|
    ensures MembersUpTo(s, shape, placed, i, k, h)
  {
    if i == 0 {
      s := NoMemberYet(shape, k);
      placed, h := {}, 0;
    } else {
      s, placed, h := MembersPlaced(shape, i - 1, k);
      if Runs(shape[i - 1].at) {
        s, h := OneMoreMember(s, shape, placed, i - 1, k, h);
        placed := placed + {i - 1};
      } else {
        NotAMember(s, shape, placed, i - 1, k, h);
      }
    }
  }

  lemma OthersPlaced(start: State, shape: seq<Place>, members: set<nat>, k: nat) returns (s: State, d: nat)
    requires Reachable(start) && Built(start, shape, members, k) && Weighted(shape) && start.group.Some?
    requires forall j :: 0 <= j < |shape| ==> (j in members <==> Runs(shape[j].at))
    ensures Reachable(s) && s.group.Some? && |s.jobs| == |shape|
    ensures forall j :: 0 <= j < |shape| ==> PlacedAs(s.jobs[j], shape[j], k)
    ensures Counter(s.group) == Counter(start.group) && Weight(s.group) == Weight(start.group) + d
    ensures (exists j :: 0 <= j < |shape| && shape[j].at == Leaving) ==> d > 0
  {
    s, d := start, 0;
    var placed: set<nat> := members;
    for i := 0 to |shape|
      invariant Reachable(s) && Built(s, shape, placed, k) && s.group.Some?
      invariant forall j :: 0 <= j < |shape| ==> (j in placed <==> Runs(shape[j].at) || j < i)
      invariant Counter(s.group) == Counter(start.group) && Weight(s.group) == Weight(start.group) + d
      invariant (exists j :: 0 <= j < i && shape[j].at == Leaving) ==> d > 0
    {
      if !Runs(shape[i].at) {
        var s' := OtherPlaced(s, i, shape[i].at);
        OneMoreBuilt(s, s', shape, placed, i, k);
        s := s';
        placed := placed + {i};
        d := d + if shape[i].at == Leaving then shape[i].weight else 0;
      }
    }
  }

  /** The weight of a leaver makes up for the turns that are still half done. */
  lemma TooMany(x: Job, p: Place, k: nat, members: Option<Group>, h: nat, now: Option<Group>, d: nat)
    requires PlacedAs(x, p, k) && Runs(p.at) && p.weight > 0 && Level(members, k, h)
    requires Counter(now) == Counter(members) && Weight(now) == Weight(members) + d
    requires d > 0 && k >= h + 2
    ensures Refused(x, Counter(now), Weight(now))
  {
    TurnsExceed(x.own, p.weight, k, Weight(members), d, h);
  }

  lemma TurnsExceed(own: int, w: nat, k: nat, m: nat, d: nat, h: nat)
    requires own == k * w && w > 0 && d > 0 && k >= h + 2
    ensures own * (m + d) > w * (1 + k * m + h)
  {
    MulLe(1, d, k);
    assert (k * w) * (m + d) == w * (k * m + k * d);
    MulLe(1 + k * m + h + 1, k * m + k * d, w);
    Distribute(1 + k * m + h, 1, w);
  }

  lemma StallBuilt(shape: seq<Place>, m: nat) returns (s: State)
    requires Weighted(shape) && m < |shape| && Runs(shape[m].at)
    requires exists j :: 0 <= j < |shape| && shape[j].at == Leaving
    ensures Reachable(s) && Stands(s, shape) && Stalled(s)
  {
    var k := |shape| + 2;
    var start, members, h := MembersPlaced(shape, |shape|, k);
    assert m in members;
    var d;
    s, d := OthersPlaced(start, shape, members, k);
    forall j | 0 <= j < |s.jobs| && Member(s.jobs[j])
      ensures Refused(s.jobs[j], s.group.value.counter, s.group.value.total)
    {
      TooMany(s.jobs[j], shape[j], k, start.group, h, s.group, d);
    }
  }

  /** For all weights and wherever the jobs stand, at least one of them a member: the group can be
      stalled as a whole if and only if a job is between the two subtractions of flow_put. */
  lemma StallExact(shape: seq<Place>, m: nat)
    requires Weighted(shape) && m < |shape| && Runs(shape[m].at)
    ensures (exists s :: Reachable(s) && Stands(s, shape) && Stalled(s))
        <==> (exists j :: 0 <= j < |shape| && shape[j].at == Leaving)
  {
    if exists j :: 0 <= j < |shape| && shape[j].at == Leaving {
      var s := StallBuilt(shape, m);
    } else {
      forall s | Reachable(s) && Stands(s, shape) ensures !Stalled(s) {
        NoStall(s, m);
      }
    }
  }

  lemma NoStall(s: State, m: nat)
    requires Reachable(s) && m < |s.jobs| && Member(s.jobs[m])
    requires forall j :: 0 <= j < |s.jobs| ==> s.jobs[j].at != Leaving
    ensures !Stalled(s)
  {
    var acts: seq<Action>, trace: seq<State> :| IsRun(acts, trace) && Initial(trace[0]) && trace[|acts|] == s;
    RunInv(acts, trace, |acts|);
    if s.group.Some? {
      var k := NeverAllStalled(s, m);
    }
  }

  /** In particular one leaver, of any weight, can stall a member of any weight that is alone with
      it, although it would be admitted after the second subtraction. */
  lemma LeaverStallsAll(w: nat, d: nat) returns (s: State)
    requires w > 0 && d > 0
    ensures Reachable(s) && |s.jobs| == 2 && Stalled(s)
    ensures Member(s.jobs[0]) && s.jobs[0].weight == w && s.jobs[1].at == Leaving && s.jobs[1].weight == d
    ensures !Refused(s.jobs[0], s.group.value.counter, s.group.value.total - d)
  {
    var shape := [Place(Idle, w), Place(Leaving, d)];
    assert shape[1].at == Leaving;
    s := StallBuilt(shape, 0);
    AdmittedAfter(s);
  }

  lemma AdmittedAfter(s: State)
    requires Reachable(s) && |s.jobs| == 2 && Member(s.jobs[0]) && s.jobs[1].at == Leaving && s.group.Some?
    ensures !Refused(s.jobs[0], s.group.value.counter, s.group.value.total - s.jobs[1].weight)
  {
    var acts: seq<Action>, trace: seq<State> :| IsRun(acts, trace) && Initial(trace[0]) && trace[|acts|] == s;
    RunInv(acts, trace, |acts|);
    var k := SomeMemberAdmitted(s, 0);
    assert k == 0;
    assert s.jobs == [s.jobs[0], s.jobs[1]];
    assert s.jobs[..1] == [s.jobs[0]] && s.jobs[..1][..0] == [];
    assert Total(Departing, s.jobs) == Total(Departing, s.jobs[..1]) + Departing(s.jobs[1]);
    assert Total(Departing, s.jobs[..1]) == Total(Departing, []) + Departing(s.jobs[0]);
  }
}
