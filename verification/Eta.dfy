/** client.c: one ETA object is shared by all clients asked in one round.  It counts the answers
    still pending, and the last one runs the callback and frees it. */
module Eta {
  import opened Options

  type EtaId = nat

  /** struct client_eta, once allocated.  `fired` counts the runs of the callback, `freed` says
      that it was freed; `clients` and `idle` record how many clients there were when it was
      requested, and how many of them were neither asked nor already in flight. */
  datatype EtaObj = EtaObj(pending: int, fired: nat, freed: bool, clients: nat, idle: nat)

  /** `alive`: on client_list.  `listed`: on eta_list.  `flight` is eta_in_flight.  `sent` holds
      the tags of the SEND_ETA commands on cmd_list. */
  datatype Client = Client(alive: bool, running: bool, listed: bool, flight: Option<EtaId>, sent: seq<EtaId>)

  datatype State = State(clients: seq<Client>, etas: seq<EtaObj>)

  /** Reply: its command is still on cmd_list.  LateReply: the command was taken off by a timeout,
      so the reply finds none and is dropped. */
  datatype Action =
    | Add
    | Run(c: nat, running: bool)
    | Request(delivered: set<nat>)
    | Reply(c: nat, k: nat)
    | LateReply(c: nat)
    | Timeout(c: nat, k: nat)
    | Remove(c: nat)

  // ----- counting clients

  datatype Role = Live | Busy | Idler | Asked | Holder(e: EtaId)

  predicate Plays(c: Client, r: Role) {
    match r
    case Live => c.alive
    case Busy => c.alive && c.listed
    case Idler => c.alive && !c.listed && !c.running
    case Asked => c.alive && !c.listed && c.running
    case Holder(e) => c.alive && c.flight == Some(e)
  }

  function One(c: Client, r: Role): nat {
    if Plays(c, r) then 1 else 0
  }

  function Tally(cs: seq<Client>, r: Role): nat {
    if cs == [] then 0 else Tally(cs[..|cs| - 1], r) + One(cs[|cs| - 1], r)
  }

  lemma {:induction false} TallyUpdate(cs: seq<Client>, i: nat, c: Client, r: Role)
    requires i < |cs|
    ensures Tally(cs[i := c], r) == Tally(cs, r) - One(cs[i], r) + One(c, r)
  {
    var last := |cs| - 1;
    if i < last {
      TallyUpdate(cs[..last], i, c, r);
      assert cs[i := c][..last] == cs[..last][i := c];
    } else {
      assert cs[i := c][..last] == cs[..last];
    }
  }

  lemma {:induction false} TallyZero(cs: seq<Client>, r: Role)
    ensures Tally(cs, r) == 0 <==> forall i :: 0 <= i < |cs| ==> !Plays(cs[i], r)
  {
    if cs != [] {
      var rest := cs[..|cs| - 1];
      TallyZero(rest, r);
      assert forall i :: 0 <= i < |rest| ==> rest[i] == cs[i];
    }
  }

  lemma {:induction false} Groups(cs: seq<Client>)
    ensures Tally(cs, Live) == Tally(cs, Busy) + Tally(cs, Idler) + Tally(cs, Asked)
  {
    if cs != [] {
      Groups(cs[..|cs| - 1]);
    }
  }

  // ----- what the handlers do

  /** fio_client_dec_jobs_eta. */
  function Dec(o: EtaObj): EtaObj {
    if o.pending == 1 then o.(pending := 0, fired := o.fired + 1, freed := true)
    else o.(pending := o.pending - 1)
  }

  /** The decrements for skipped clients, which end when the object is freed. */
  function DecMany(o: EtaObj, n: nat): EtaObj
    decreases n
  {
    if n == 0 then o
    else if Dec(o).pending == 0 then Dec(o)
    else DecMany(Dec(o), n - 1)
  }

  /** One client in request_client_etas; without delivery the command is not remembered. */
  function Ask(c: Client, e: EtaId, delivered: bool): Client {
    if Plays(c, Asked) then c.(listed := true, flight := Some(e), sent := if delivered then c.sent + [e] else c.sent)
    else c
  }

  function AskAll(cs: seq<Client>, e: EtaId, delivered: set<nat>): (r: seq<Client>)
    ensures |r| == |cs|
  {
    if cs == [] then []
    else AskAll(cs[..|cs| - 1], e, delivered) + [Ask(cs[|cs| - 1], e, (|cs| - 1) in delivered)]
  }

  function NewEta(cs: seq<Client>): EtaObj {
    EtaObj(Tally(cs, Live), 0, false, Tally(cs, Live), Tally(cs, Idler))
  }

  function Without(s: seq<EtaId>, k: nat): seq<EtaId>
    requires k < |s|
  {
    s[..k] + s[k + 1..]
  }

  /** Off eta_list and no longer in flight, with command `k` off cmd_list. */
  function Answered(c: Client, k: nat): Client
    requires k < |c.sent|
  {
    c.(listed := false, flight := None, sent := Without(c.sent, k))
  }

  /** Taking one pending answer back from the object in flight. */
  function Released(etas: seq<EtaObj>, e: EtaId): seq<EtaObj>
    requires e < |etas|
  {
    etas[e := Dec(etas[e])]
  }

  /** The assertion in request_client_etas and the one in handle_eta. */
  predicate AssertsHold(s: State, a: Action)
    requires Enabled(s, a)
  {
    match a
    case Request(_) => forall i :: 0 <= i < |s.clients| && Plays(s.clients[i], Asked) ==> s.clients[i].flight == None
    case Reply(c, k) => s.clients[c].flight == Some(s.clients[c].sent[k])
    case _ => true
  }

  predicate Enabled(s: State, a: Action) {
    match a
    case Add => true
    case Request(_) => true
    case Run(c, _) => c < |s.clients| && s.clients[c].alive
    case LateReply(c) => c < |s.clients| && s.clients[c].alive
    case Remove(c) => c < |s.clients| && s.clients[c].alive
    case Reply(c, k) => c < |s.clients| && s.clients[c].alive && k < |s.clients[c].sent|
    case Timeout(c, k) => c < |s.clients| && s.clients[c].alive && k < |s.clients[c].sent|
  }

  /** The object that a handler gives one answer back to, if any. */
  function Target(s: State, a: Action): Option<EtaId>
    requires Enabled(s, a)
  {
    match a
    case Reply(c, k) => Some(s.clients[c].sent[k])
    case Timeout(c, _) => s.clients[c].flight
    case Remove(c) => if s.clients[c].listed then s.clients[c].flight else None
    case _ => None
  }

  /** No handler touches an object that was never allocated or is already freed. */
  predicate TargetLive(s: State, a: Action)
    requires Enabled(s, a)
  {
    Target(s, a).Some? ==> Target(s, a).value < |s.etas| && !s.etas[Target(s, a).value].freed
  }

  function ClientAfter(s: State, a: Action, c: Client): Client
    requires Enabled(s, a) && (a.Reply? || a.Timeout? ==> a.k < |c.sent|)
  {
    match a
    case Run(_, running) => c.(running := running)
    case Reply(_, k) => Answered(c, k)
    case Timeout(_, k) => Answered(c, k)
    case Remove(_) => c.(alive := false, listed := false)
    case _ => c
  }

  function Step(s: State, a: Action): State
    requires Enabled(s, a) && TargetLive(s, a)
  {
    match a
    case Add => s.(clients := s.clients + [Client(true, false, false, None, [])])
    case Request(delivered) =>
      State(AskAll(s.clients, |s.etas|, delivered),
            s.etas + [DecMany(NewEta(s.clients), Tally(s.clients, Busy))])
    case _ =>
      State(s.clients[a.c := ClientAfter(s, a, s.clients[a.c])],
            if Target(s, a).Some? then Released(s.etas, Target(s, a).value) else s.etas)
  }

  // ----- invariants

  /** eta_list and eta_in_flight agree, and at most the command in flight is on cmd_list. */
  predicate ClientOk(c: Client, etas: nat) {
    c.alive ==>
      && c.listed == c.flight.Some?
      && (c.flight.Some? ==> c.flight.value < etas)
      && (c.sent == [] || (c.flight.Some? && c.sent == [c.flight.value]))
  }

  /** Pending answers: the clients in flight and the clients idle when it was requested.  The
      callback ran if and only if the object is freed. */
  predicate EtaOk(o: EtaObj, holders: nat) {
    && o.pending == holders + o.idle <= o.clients
    && (o.freed <==> o.pending == 0 && o.clients > 0)
    && o.fired == (if o.freed then 1 else 0)
  }

  ghost predicate Inv(s: State) {
    && (forall i :: 0 <= i < |s.clients| ==> ClientOk(s.clients[i], |s.etas|))
    && forall e :: 0 <= e < |s.etas| ==> EtaOk(s.etas[e], Tally(s.clients, Holder(e)))
  }

  lemma HolderLive(s: State, i: nat)
    requires Inv(s) && i < |s.clients| && s.clients[i].alive && s.clients[i].flight.Some?
    ensures var e := s.clients[i].flight.value;
      e < |s.etas| && !s.etas[e].freed && Tally(s.clients, Holder(e)) > 0
  {
    var e := s.clients[i].flight.value;
    assert ClientOk(s.clients[i], |s.etas|) && Plays(s.clients[i], Holder(e));
    TallyZero(s.clients, Holder(e));
    assert EtaOk(s.etas[e], Tally(s.clients, Holder(e)));
  }

  /** The assertions of the code hold, and no freed object is ever touched. */
  lemma HandlersSafe(s: State, a: Action)
    requires Inv(s) && Enabled(s, a)
    ensures AssertsHold(s, a) && TargetLive(s, a)
  {
    if a.Request? {
      assert forall i :: 0 <= i < |s.clients| ==> ClientOk(s.clients[i], |s.etas|);
    } else if Target(s, a).Some? {
      assert ClientOk(s.clients[a.c], |s.etas|);
      HolderLive(s, a.c);
    }
  }

  lemma {:induction false} DecManyIs(o: EtaObj, n: nat)
    requires n <= o.pending && !o.freed
    ensures DecMany(o, n) == if n > 0 && n == o.pending then o.(pending := 0, fired := o.fired + 1, freed := true)
                             else o.(pending := o.pending - n)
    decreases n
  {
    if n > 0 && o.pending > 1 {
      DecManyIs(Dec(o), n - 1);
    }
  }

  lemma {:induction false} AskAllAt(cs: seq<Client>, e: EtaId, delivered: set<nat>, i: nat)
    requires i < |cs|
    ensures AskAll(cs, e, delivered)[i] == Ask(cs[i], e, i in delivered)
  {
    if i < |cs| - 1 {
      AskAllAt(cs[..|cs| - 1], e, delivered, i);
    }
  }

  /** Who holds what after a request: the asked clients the new object, the others what they held. */
  lemma {:induction false} AskAllTally(cs: seq<Client>, n: nat, delivered: set<nat>, e: EtaId)
    requires forall i :: 0 <= i < |cs| ==> ClientOk(cs[i], n)
    ensures Tally(AskAll(cs, n, delivered), Holder(e)) == if e == n then Tally(cs, Asked) else Tally(cs, Holder(e))
  {
    if cs != [] {
      var rest, asked := cs[..|cs| - 1], AskAll(cs, n, delivered);
      assert forall i :: 0 <= i < |rest| ==> rest[i] == cs[i];
      AskAllTally(rest, n, delivered, e);
      assert asked[..|cs| - 1] == AskAll(rest, n, delivered);
      assert ClientOk(cs[|cs| - 1], n);
    }
  }

  lemma RequestKeeps(s: State, a: Action, s': State)
    requires Inv(s) && a.Request? && s' == Step(s, a)
    ensures Inv(s')
  {
    var n := |s.etas|;
    forall i | 0 <= i < |s'.clients| ensures ClientOk(s'.clients[i], n + 1) {
      AskAllAt(s.clients, n, a.delivered, i);
      assert ClientOk(s.clients[i], n);
    }
    Groups(s.clients);
    DecManyIs(NewEta(s.clients), Tally(s.clients, Busy));
    forall e | 0 <= e <= n ensures EtaOk(s'.etas[e], Tally(s'.clients, Holder(e))) {
      AskAllTally(s.clients, n, a.delivered, e);
      if e < n {
        assert EtaOk(s.etas[e], Tally(s.clients, Holder(e)));
      }
    }
  }

  lemma AddKeeps(s: State, s': State)
    requires Inv(s) && s' == Step(s, Add)
    ensures Inv(s')
  {
    var n := |s.clients|;
    assert s'.clients[..n] == s.clients;
    forall e | 0 <= e < |s.etas| ensures EtaOk(s'.etas[e], Tally(s'.clients, Holder(e))) {
      assert EtaOk(s.etas[e], Tally(s.clients, Holder(e)));
    }
    forall i | 0 <= i < |s'.clients| ensures ClientOk(s'.clients[i], |s.etas|) {
      assert i < n ==> ClientOk(s.clients[i], |s.etas|);
    }
  }

  /** The client that a handler works on stops holding the object that the answer went to, and
      nothing else changes hands. */
  lemma HandlerMoves(s: State, a: Action, c': Client)
    requires Inv(s) && Enabled(s, a) && !a.Add? && !a.Request? && c' == ClientAfter(s, a, s.clients[a.c])
    ensures ClientOk(c', |s.etas|)
    ensures forall e: nat ::
      One(s.clients[a.c], Holder(e)) == One(c', Holder(e)) + (if Target(s, a) == Some(e) then 1 else 0)
  {
    assert ClientOk(s.clients[a.c], |s.etas|);
    HandlersSafe(s, a);
  }

  /** One client changes, and the object that it lets go of, if any, is decremented. */
  lemma OneClientKeeps(s: State, c: nat, c': Client, target: Option<EtaId>, s': State)
    requires Inv(s) && c < |s.clients| && ClientOk(c', |s.etas|) && s'.clients == s.clients[c := c']
    requires target.Some? ==> target.value < |s.etas| && !s.etas[target.value].freed
    requires s'.etas == if target.Some? then Released(s.etas, target.value) else s.etas
    requires forall e: nat ::
      One(s.clients[c], Holder(e)) == One(c', Holder(e)) + (if target == Some(e) then 1 else 0)
    ensures Inv(s')
  {
    forall i | 0 <= i < |s'.clients| ensures ClientOk(s'.clients[i], |s'.etas|) {
      assert i != c ==> ClientOk(s.clients[i], |s.etas|);
    }
    forall e | 0 <= e < |s'.etas| ensures EtaOk(s'.etas[e], Tally(s'.clients, Holder(e))) {
      assert EtaOk(s.etas[e], Tally(s.clients, Holder(e)));
      TallyUpdate(s.clients, c, c', Holder(e));
    }
  }

  lemma HandlerKeeps(s: State, a: Action, s': State)
    requires Inv(s) && Enabled(s, a) && TargetLive(s, a) && !a.Add? && !a.Request? && s' == Step(s, a)
    ensures Inv(s')
  {
    var c' := ClientAfter(s, a, s.clients[a.c]);
    HandlerMoves(s, a, c');
    OneClientKeeps(s, a.c, c', Target(s, a), s');
  }

  lemma StepKeeps(s: State, a: Action) returns (s': State)
    requires Inv(s) && Enabled(s, a)
    ensures TargetLive(s, a) && s' == Step(s, a) && Inv(s')
  {
    HandlersSafe(s, a);
    s' := Step(s, a);
    match a
    case Add => AddKeeps(s, s');
    case Request(_) => RequestKeeps(s, a, s');
    case _ => HandlerKeeps(s, a, s');
  }

  // ----- every run

  ghost predicate IsRun(acts: seq<Action>, trace: seq<State>) {
    && |trace| == |acts| + 1 && trace[0] == State([], [])
    && forall i :: 0 <= i < |acts| ==>
         Enabled(trace[i], acts[i]) && (TargetLive(trace[i], acts[i]) ==> trace[i + 1] == Step(trace[i], acts[i]))
  }

  lemma {:induction false} RunInv(acts: seq<Action>, trace: seq<State>, k: nat)
    requires IsRun(acts, trace) && k < |trace|
    ensures Inv(trace[k])
  {
    if k > 0 {
      RunInv(acts, trace, k - 1);
      var s' := StepKeeps(trace[k - 1], acts[k - 1]);
    }
  }

  /** In every run of requests, replies, late replies, timeouts and removals: no assertion fires
      and no freed object is touched; an object's callback runs at most once, and it has run,
      and the object is freed, exactly when there were clients, all of them could be asked or
      were already in flight, and no client is in flight with it any more. */
  lemma CallbackExact(acts: seq<Action>, trace: seq<State>, k: nat, e: EtaId)
    requires IsRun(acts, trace) && k < |trace| && e < |trace[k].etas|
    ensures var o, holders := trace[k].etas[e], Tally(trace[k].clients, Holder(e));
      && o.pending == holders + o.idle <= o.clients
      && o.fired == (if o.freed then 1 else 0)
      && (o.freed <==> o.clients > 0 && o.idle == 0 && holders == 0)
    ensures k < |acts| ==> AssertsHold(trace[k], acts[k]) && TargetLive(trace[k], acts[k])
  {
    RunInv(acts, trace, k);
    assert EtaOk(trace[k].etas[e], Tally(trace[k].clients, Holder(e)));
    if k < |acts| {
      HandlersSafe(trace[k], acts[k]);
    }
  }

  /** What was counted when the object was requested never changes, so an object requested while
      some client was idle is never freed and its callback never runs. */
  lemma {:induction false} IdleForever(acts: seq<Action>, trace: seq<State>, j: nat, k: nat, e: EtaId)
    requires IsRun(acts, trace) && j <= k < |trace| && e < |trace[j].etas| && trace[j].etas[e].idle > 0
    ensures e < |trace[k].etas| && trace[k].etas[e].idle == trace[j].etas[e].idle
    ensures !trace[k].etas[e].freed && trace[k].etas[e].fired == 0
    decreases k
  {
    if j < k {
      IdleForever(acts, trace, j, k - 1, e);
      RunInv(acts, trace, k - 1);
      var s' := StepKeeps(trace[k - 1], acts[k - 1]);
      StepKeepsIdle(trace[k - 1], acts[k - 1], e);
    }
    CallbackExact(acts, trace, k, e);
  }

  lemma StepKeepsIdle(s: State, a: Action, e: EtaId)
    requires Enabled(s, a) && TargetLive(s, a) && e < |s.etas|
    ensures e < |Step(s, a).etas| && Step(s, a).etas[e].idle == s.etas[e].idle
  {
  }

  /** Such a run: a client is added and asked for before it runs. */
  lemma IdleRun() returns (acts: seq<Action>, trace: seq<State>)
    ensures IsRun(acts, trace) && |acts| == 2 && acts[1].Request?
    ensures |trace[2].etas| == 1 && trace[2].etas[0].idle > 0 && Tally(trace[2].clients, Holder(0)) == 0
  {
    var c := Client(true, false, false, None, []);
    var s1 := State([c], []);
    var s2 := State([c], [EtaObj(1, 0, false, 1, 1)]);
    acts, trace := [Add, Request({})], [State([], []), s1, s2];
    assert [] + [c] == [c] && [c][..0] == [];
    assert AskAll([], 0, {}) == [] && AskAll([c], 0, {}) == AskAll([c][..0], 0, {}) + [Ask(c, 0, false)] == [c];
    forall r: Role ensures Tally([c], r) == One(c, r) {
      assert Tally([c], r) == Tally([c][..0], r) + One(c, r);
    }
    assert NewEta([c]) == EtaObj(1, 0, false, 1, 1) && Tally([c], Busy) == 0;
    assert s1.etas + [NewEta([c])] == s2.etas;
    assert Step(s1, Request({})) == s2;
  }

  // ----- what the clients get

  /** A request makes one new object, for the clients there are, and leaves the other objects alone. */
  lemma RequestMakes(s: State, delivered: set<nat>, s': State)
    requires Inv(s) && s' == Step(s, Request(delivered))
    ensures |s'.etas| == |s.etas| + 1 && s'.etas[..|s.etas|] == s.etas && |s'.clients| == |s.clients|
    ensures s'.etas[|s.etas|].clients == Tally(s.clients, Live) && s'.etas[|s.etas|].idle == Tally(s.clients, Idler)
  {
    Groups(s.clients);
    DecManyIs(NewEta(s.clients), Tally(s.clients, Busy));
  }

  /** It asks exactly the running clients that are not in flight: such a client is in flight with the
      new object, and its command is pending exactly if it was delivered.  The others are as before. */
  lemma RequestAsks(s: State, delivered: set<nat>, s': State, c: nat)
    requires Inv(s) && s' == Step(s, Request(delivered)) && c < |s.clients|
    ensures |s'.clients| == |s.clients|
    ensures
      if s.clients[c].alive && s.clients[c].running && !s.clients[c].listed
      then Awaits(s', c, |s.etas|, c in delivered) else s'.clients[c] == s.clients[c]
  {
    AskAllAt(s.clients, |s.etas|, delivered, c);
    assert ClientOk(s.clients[c], |s.etas|);
  }

  /** Client `c` is in flight with object `e`, its command pending or lost. */
  predicate Awaits(s: State, c: nat, e: EtaId, pending: bool) {
    && c < |s.clients| && s.clients[c].alive && s.clients[c].listed && s.clients[c].flight == Some(e)
    && s.clients[c].sent == if pending then [e] else []
  }

  /** A reply, a timeout or the removal of client `c`. */
  predicate Settles(a: Action, c: nat) {
    (a.Reply? || a.Timeout? || a.Remove?) && a.c == c
  }

  lemma AwaitsOn(s: State, a: Action, s': State, c: nat, e: EtaId, pending: bool)
    requires Inv(s) && Enabled(s, a) && TargetLive(s, a) && s' == Step(s, a)
    requires Awaits(s, c, e, pending) && !Settles(a, c)
    ensures Awaits(s', c, e, pending)
  {
    if a.Request? { RequestAsks(s, a.delivered, s', c); }
  }

  /** In every run a client that was asked stays in flight with that object, its command pending if it
      was delivered, until a reply, a timeout or its removal settles it. */
  lemma {:induction false} AskedUntilSettled(acts: seq<Action>, trace: seq<State>, i: nat, k: nat, c: nat)
    requires IsRun(acts, trace) && i < k < |trace| && acts[i].Request? && c < |trace[i].clients|
    requires trace[i].clients[c].alive && trace[i].clients[c].running && !trace[i].clients[c].listed
    requires forall j :: i < j < k ==> !Settles(acts[j], c)
    ensures Awaits(trace[k], c, |trace[i].etas|, c in acts[i].delivered)
  {
    RunInv(acts, trace, k - 1);
    HandlersSafe(trace[k - 1], acts[k - 1]);
    if k == i + 1 {
      RequestAsks(trace[i], acts[i].delivered, trace[k], c);
    } else {
      AskedUntilSettled(acts, trace, i, k - 1, c);
      AwaitsOn(trace[k - 1], acts[k - 1], trace[k], c, |trace[i].etas|, c in acts[i].delivered);
    }
  }

  /** A reply or a timeout for the command that a client awaits takes it out of flight, and the object
      that it awaited, no other, gets one answer less. */
  lemma SettledOnce(s: State, a: Action, s': State, c: nat, e: EtaId)
    requires Inv(s) && Enabled(s, a) && TargetLive(s, a) && s' == Step(s, a)
    requires Awaits(s, c, e, true) && (a == Reply(c, 0) || a == Timeout(c, 0))
    ensures c < |s'.clients| && s'.clients[c].alive && !s'.clients[c].listed && s'.clients[c].flight == None
    ensures s'.clients[c].sent == []
    ensures e < |s.etas| == |s'.etas| && s'.etas[e].pending == s.etas[e].pending - 1
    ensures forall d :: 0 <= d < |s.etas| && d != e ==> s'.etas[d] == s.etas[d]
  {
  }

  /** A removed client stays removed. */
  lemma {:induction false} RemovedForGood(acts: seq<Action>, trace: seq<State>, i: nat, k: nat, c: nat)
    requires IsRun(acts, trace) && i < k < |trace| && acts[i] == Remove(c)
    ensures c < |trace[k].clients| && !trace[k].clients[c].alive
  {
    RunInv(acts, trace, k - 1);
    HandlersSafe(trace[k - 1], acts[k - 1]);
    if i + 1 < k {
      RemovedForGood(acts, trace, i, k - 1, c);
      if acts[k - 1].Request? { AskAllAt(trace[k - 1].clients, |trace[k - 1].etas|, acts[k - 1].delivered, c); }
    }
  }

  // ----- as it runs

  /** The list while request_client_etas walks it: the first `n` clients have been visited. */
  function Visited(cs: seq<Client>, n: nat, e: EtaId, delivered: set<nat>): seq<Client>
    requires n <= |cs|
  {
    AskAll(cs[..n], e, delivered) + cs[n..]
  }

  lemma VisitNext(cs: seq<Client>, n: nat, e: EtaId, delivered: set<nat>)
    requires n < |cs|
    ensures |Visited(cs, n, e, delivered)| == |cs| && Visited(cs, n, e, delivered)[n] == cs[n]
    ensures Visited(cs, n + 1, e, delivered)
         == Visited(cs, n, e, delivered)[n := Ask(cs[n], e, n in delivered)]
    ensures Tally(cs[..n + 1], Busy) == Tally(cs[..n], Busy) + One(cs[n], Busy)
  {
    assert cs[..n + 1][..n] == cs[..n];
    assert cs[n..] == [cs[n]] + cs[n + 1..];
  }

  class EtaTable {
    var clients: seq<Client>
    var etas: seq<EtaObj>
    var nrClients: nat

    function View(): State
      reads this
    {
      State(clients, etas)
    }

    ghost predicate Valid()
      reads this
    {
      Inv(View()) && nrClients == Tally(clients, Live)
    }

    constructor ()
      ensures Valid() && View() == State([], [])
    {
      clients, etas, nrClients := [], [], 0;
    }

    /** fio_client_dec_jobs_eta: false once the object is gone. */
    method DecJobsEta(e: EtaId) returns (more: bool)
      requires e < |etas| && !etas[e].freed
      modifies this`etas
      ensures etas == Released(old(etas), e) && more == (etas[e].pending != 0)
    {
      var o := etas[e];
      var pending := o.pending - 1;
      if pending == 0 {
        etas := etas[e := o.(pending := 0, fired := o.fired + 1, freed := true)];
        return false;
      }
      etas := etas[e := o.(pending := pending)];
      return true;
    }

    /** The loop of request_client_etas over the clients. */
    method AskClients(e: EtaId, delivered: set<nat>) returns (skipped: nat)
      modifies this`clients
      ensures clients == AskAll(old(clients), e, delivered)
      ensures skipped == Tally(old(clients), Busy)
    {
      ghost var was := clients;
      skipped := 0;
      var n := 0;
      while n < |clients|
        invariant n <= |clients| == |was|
        invariant clients == Visited(was, n, e, delivered)
        invariant skipped == Tally(was[..n], Busy)
      {
        VisitNext(was, n, e, delivered);
        var c := clients[n];
        assert clients[n := c] == clients;
        if c.alive {
          if c.listed {
            skipped := skipped + 1;
          } else if c.running {
            clients := clients[n := c.(listed := true, flight := Some(e),
                                       sent := if n in delivered then c.sent + [e] else c.sent)];
          }
        }
        n := n + 1;
      }
      assert was[..n] == was;
    }

    /** The loop that gives back the answers of skipped clients. */
    method GiveBackSkipped(e: EtaId, skipped: nat)
      requires e < |etas| && !etas[e].freed && skipped <= etas[e].pending
      modifies this`etas
      ensures etas == old(etas)[e := DecMany(old(etas)[e], skipped)]
    {
      ghost var was := etas;
      var left: nat := skipped;
      while left > 0
        invariant left <= skipped && e < |etas| && !etas[e].freed && left <= etas[e].pending
        invariant etas == was[e := etas[e]] && DecMany(was[e], skipped) == DecMany(etas[e], left)
      {
        left := left - 1;
        var more := DecJobsEta(e);
        assert etas == was[e := etas[e]];
        if !more {
          break;
        }
      }
    }

    /** request_client_etas. */
    method RequestClientEtas(delivered: set<nat>)
      requires Valid()
      modifies this`clients, this`etas
      ensures Valid() && View() == Step(old(View()), Request(delivered))
    {
      ghost var was := View();
      Groups(clients);
      var e := |etas|;
      etas := etas + [EtaObj(nrClients, 0, false, nrClients, Tally(clients, Idler))];
      var skipped := AskClients(e, delivered);
      GiveBackSkipped(e, skipped);
      assert View() == Step(was, Request(delivered));
      RequestKeeps(was, Request(delivered), View());
      SameLive(was.clients, e, delivered);
    }

    /** handle_eta, for command `k` of client `c` found on its cmd_list. */
    method HandleEta(c: nat, k: nat)
      requires Valid() && Enabled(View(), Reply(c, k))
      modifies this`clients, this`etas
      ensures TargetLive(old(View()), Reply(c, k)) && View() == Step(old(View()), Reply(c, k)) && Valid()
    {
      ghost var was := View();
      HandlersSafe(was, Reply(c, k));
      var e := clients[c].sent[k];
      assert clients[c].flight == Some(e);
      TallyUpdate(clients, c, Answered(clients[c], k), Live);
      clients := clients[c := Answered(clients[c], k)];
      var more := DecJobsEta(e);
      HandlerKeeps(was, Reply(c, k), View());
    }

    /** handle_cmd_timeout for a SEND_ETA command. */
    method HandleCmdTimeout(c: nat, k: nat)
      requires Valid() && Enabled(View(), Timeout(c, k))
      modifies this`clients, this`etas
      ensures TargetLive(old(View()), Timeout(c, k)) && View() == Step(old(View()), Timeout(c, k)) && Valid()
    {
      ghost var was := View();
      HandlersSafe(was, Timeout(c, k));
      var e := clients[c].flight;
      TallyUpdate(clients, c, Answered(clients[c], k), Live);
      clients := clients[c := Answered(clients[c], k)];
      if e.Some? {
        var more := DecJobsEta(e.value);
      }
      HandlerKeeps(was, Timeout(c, k), View());
    }

    /** remove_client, the ETA part. */
    method RemoveClient(c: nat)
      requires Valid() && Enabled(View(), Remove(c))
      modifies this
      ensures TargetLive(old(View()), Remove(c)) && View() == Step(old(View()), Remove(c)) && Valid()
    {
      ghost var was := View();
      HandlersSafe(was, Remove(c));
      var x := clients[c];
      assert ClientOk(x, |etas|);
      var gone := x.(alive := false, listed := false);
      TallyUpdate(clients, c, gone, Live);
      if x.listed {
        var more := DecJobsEta(x.flight.value);
      }
      clients := clients[c := gone];
      nrClients := nrClients - 1;
      HandlerKeeps(was, Remove(c), View());
    }
  }

  lemma {:induction false} SameLive(cs: seq<Client>, e: EtaId, delivered: set<nat>)
    ensures Tally(AskAll(cs, e, delivered), Live) == Tally(cs, Live)
  {
    if cs != [] {
      var asked := AskAll(cs, e, delivered);
      SameLive(cs[..|cs| - 1], e, delivered);
      assert asked[..|cs| - 1] == AskAll(cs[..|cs| - 1], e, delivered);
    }
  }
}
