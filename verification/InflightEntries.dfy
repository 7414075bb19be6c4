/** What each step that no check ends does to the entries of the in-flight log: which slot gets which
    number, which is emptied, and which stay. */
module InflightEntries {
  import opened Counting
  import opened Options
  import opened UnitQueues
  import opened InflightLog

  /** Slot `i`, free before, has the next number, which is unit `u`'s, and the count is one past it;
      a unit that is done within its round has already given the slot back. */
  predicate Enters(l: Log, s: Log, u: UnitId, i: nat, res: Result) {
    && i < |l.slots| && l.slots[i].None? && u < |s.units| && s.units[u].numberio == l.issues
    && s.issued == l.issues + 1 && s.next == (i + 1) % |l.slots|
    && if res == Done then s.slots == l.slots && s.units[u].idx.None?
       else s.slots == l.slots[i := Some(l.issues)] && s.units[u].idx == Some(i)
  }

  /** The slot that unit `u` names had its number and is free, and the unit names none. */
  predicate Withdraws(l: Log, s: Log, u: UnitId) {
    && u < |l.units| && u < |s.units| && l.units[u].idx.Some? && l.units[u].idx.value < |l.slots|
    && l.slots[l.units[u].idx.value] == Some(l.units[u].numberio)
    && s.slots == l.slots[l.units[u].idx.value := None] && s.units[u].idx.None?
    && s.issued == l.issued && s.next == l.next
  }

  predicate SameEntries(l: Log, s: Log) {
    s.slots == l.slots && s.issued == l.issued && s.next == l.next
  }

  lemma TakenIs(l: Log, a: Action, m: Log, u: UnitId)
    requires Enabled(l, a) && a.Round? && (m, u) == Take(l, a.pick, a.write)
    ensures u == TakenId(l, a) && u < |m.units| == |l.units| && m.units[u].pattern == Taken(l, a).pattern
    ensures l.ring == [] ==> m.units[u] == Taken(l, a)
    ensures m.units[u].write == Taken(l, a).write && m.units[u].idx == Taken(l, a).idx
    ensures m.units[u].numberio == Taken(l, a).numberio
    ensures m.slots == l.slots && m.owner == l.owner && m.issued == l.issued && m.issues == l.issues && m.next == l.next
    ensures m.ring == if l.ring == [] then [] else l.ring[1..]
  {
    if l.ring != [] { assert l.ring[0] in l.ring; }
  }

  /** log_inflight on a unit that goes through its checks. */
  lemma IssueEnters(m: Log, u: UnitId, n: Log) returns (i: nat)
    requires Sized(m) && u < |m.units| && Logs(m.units[u]) && Issue(m, u) == (n, Fine)
    ensures Enters(m, n, u, i, Accepted) && |n.units| == |m.units| && n.units[u].write && n.ring == m.ring
    ensures n.issues == m.issues && |n.owner| == |m.owner|
  {
    i := FindFree(m.slots, m.next, |m.slots|).value;
  }

  /** Completion of the unit just logged empties its slot again. */
  lemma DoneWithdraws(n: Log, u: UnitId, s: Log)
    requires u < |n.units| && |n.slots| == |n.owner| && Finish(n, u, Done) == (s, Fine) && n.units[u].write
    requires n.units[u].idx.Some? && n.units[u].idx.value < |n.slots|
    ensures Withdraws(n, s, u) && s.units[u].numberio == n.units[u].numberio && s.ring == n.ring
  {
  }

  lemma FinishKeepsEntries(n: Log, u: UnitId, res: Result, s: Log)
    requires u < |n.units| && |n.slots| == |n.owner| && res != Done && Finish(n, u, res) == (s, Fine)
    ensures SameEntries(n, s) && |s.units| == |n.units|
    ensures s.units[u].idx == n.units[u].idx && s.units[u].numberio == n.units[u].numberio
    ensures s.ring == if res == Refused || res == Short then n.ring + [u] else n.ring
  {
  }

  /** A round that logs its unit and goes on. */
  lemma RoundEnters(l: Log, a: Action, s: Log) returns (i: nat)
    requires Inv(l, {}) && Enabled(l, a) && LogsNow(l, a) && Step(l, a) == (s, Fine)
    ensures Enters(l, s, TakenId(l, a), i, a.res)
  {
    var m, u := Take(l, a.pick, a.write).0, Take(l, a.pick, a.write).1;
    TakenIs(l, a, m, u);
    var n := Issue(m, u).0;
    i := IssueEnters(m, u, n);
    if a.res == Done {
      DoneWithdraws(n, u, s);
      assert s.slots == l.slots;
    } else {
      FinishKeepsEntries(n, u, a.res, s);
    }
  }

  /** In every run a round that logs a write stores its number, which is the next one, in a free slot
      that the unit then names, publishes the number after it, and touches no other entry. */
  lemma WriteEnters(depth: nat, base: nat, acts: seq<Action>, trace: seq<Log>, n: nat) returns (i: nat)
    requires IsRun(depth, base, acts, trace) && n < |acts| && Enabled(trace[n], acts[n]) && LogsNow(trace[n], acts[n])
    ensures Enters(trace[n], trace[n + 1], TakenId(trace[n], acts[n]), i, acts[n].res)
  {
    RunInv(depth, base, acts, trace, n);
    i := RoundEnters(trace[n], acts[n], trace[n + 1]);
  }

  lemma CompletedWithdraws(m: Log, u: UnitId, s: Log)
    requires u < |m.units| && |m.slots| == |m.owner| && Completed(m, u) == (s, Fine)
    requires m.units[u].write && m.units[u].idx.Some? && m.units[u].idx.value < |m.slots|
    ensures Withdraws(m, s, u)
  {
  }

  lemma StepWithdraws(l: Log, a: Action, s: Log, u: UnitId)
    requires Inv(l, {}) && Enabled(l, a) && Closes(l, a) == Some(u) && Step(l, a) == (s, Fine)
    ensures Withdraws(l, s, u)
  {
    if a.Reaped? {
      assert UnitOk(|l.slots|, l.units[u]);
      CompletedWithdraws(l, u, Completed(l, u).0);
    } else {
      var m := Take(l, a.pick, a.write).0;
      TakenIs(l, a, m, u);
      assert UnitOk(|l.slots|, l.units[u]);
      CompletedWithdraws(Count(m, u), u, Completed(Count(m, u), u).0);
    }
  }

  /** In every run the completion of a logged write, in its round or reaped later, empties the slot
      that its unit names, which held its number, and touches no other entry. */
  lemma WriteWithdraws(depth: nat, base: nat, acts: seq<Action>, trace: seq<Log>, n: nat, u: UnitId)
    requires IsRun(depth, base, acts, trace) && n < |acts| && Enabled(trace[n], acts[n])
    requires Closes(trace[n], acts[n]) == Some(u)
    ensures Withdraws(trace[n], trace[n + 1], u)
  {
    RunInv(depth, base, acts, trace, n);
    StepWithdraws(trace[n], acts[n], trace[n + 1], u);
  }

  lemma QuietDone(m: Log, u: UnitId, s: Log)
    requires u < |m.units| && |m.slots| == |m.owner| && (!m.units[u].write || m.units[u].idx.None?)
    ensures SameEntries(m, Completed(m, u).0) && Completed(m, u).1 == Fine
  {
  }

  lemma StepQuiet(l: Log, a: Action, s: Log)
    requires Inv(l, {}) && Enabled(l, a) && !LogsNow(l, a) && Closes(l, a).None? && !a.ClearLog?
    requires Step(l, a) == (s, Fine)
    ensures SameEntries(l, s)
  {
    if a.Reaped? {
      QuietDone(l, a.u, s);
    } else if a.Round? {
      var m, u := Take(l, a.pick, a.write).0, Take(l, a.pick, a.write).1;
      TakenIs(l, a, m, u);
      if a.res == Done { QuietDone(Count(m, u), u, s); }
    }
  }

  /** And no other step but a clear touches an entry. */
  lemma OthersKeepEntries(depth: nat, base: nat, acts: seq<Action>, trace: seq<Log>, n: nat)
    requires IsRun(depth, base, acts, trace) && n < |acts| && Enabled(trace[n], acts[n])
    requires !LogsNow(trace[n], acts[n]) && Closes(trace[n], acts[n]).None? && !acts[n].ClearLog?
    ensures SameEntries(trace[n], trace[n + 1])
  {
    RunInv(depth, base, acts, trace, n);
    StepQuiet(trace[n], acts[n], trace[n + 1]);
  }
}
