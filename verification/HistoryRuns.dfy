/** Runs of the write history's operations: what the pieces still linked say about the bytes
    of the files, whatever was logged, unlogged, shortened or pruned in between.  Each step changes
    the pieces in the tree as TreeStep says, which is what the methods of class History ensure. */
module HistoryRuns {
  import opened Options
  import opened WriteHistory

  /** `linked` are the pieces in the tree, named by their place in `log`, the writes in the order
      they were logged on the sorted path; `dropped` were unlogged or pruned. */
  datatype State = State(linked: Heap, log: seq<Piece>, dropped: set<PieceId>)

  predicate Enabled(s: State, e: Event) {
    match e
    case LogWrite(_) => true
    case Unlog(id) => id in s.linked
    case Shorten(id, len) => id in s.linked && len <= s.linked[id].len
    case Land(id) => id in s.linked
    case Prune => true
  }

  function Step(s: State, e: Event): State
    requires Enabled(s, e)
  {
    State(TreeStep(s.linked, |s.log|, e),
          if e.LogWrite? then s.log + [e.n] else s.log,
          match e
          case Unlog(id) => s.dropped + {id}
          case Prune => s.dropped + s.linked.Keys
          case _ => s.dropped)
  }

  ghost predicate IsRun(events: seq<Event>, trace: seq<State>) {
    && |trace| == |events| + 1 && trace[0] == State(map[], [], {})
    && forall i :: 0 <= i < |events| ==> Enabled(trace[i], events[i]) && trace[i + 1] == Step(trace[i], events[i])
  }

  /** What is left of a logged piece: the same place, at most the same length. */
  predicate PartOf(a: Piece, whole: Piece) {
    a.file == whole.file && a.off == whole.off && a.len <= whole.len
  }

  ghost predicate Untouched(p: Piece, log: seq<Piece>, id: PieceId) {
    forall j :: id < j < |log| ==> !Overlap(p, log[j])
  }

  ghost predicate Inv(s: State) {
    && (forall id :: id in s.linked ==> id < |s.log| && PartOf(s.linked[id], s.log[id]))
    && (forall id :: id in s.linked ==> Untouched(s.linked[id], s.log, id))
    && (forall id :: 0 <= id < |s.log| ==> id in s.linked || id in s.dropped || !Untouched(s.log[id], s.log, id))
  }

  /** Shortening a piece creates no overlap. */
  lemma PartOverlapsLess(a: Piece, whole: Piece, n: Piece)
    requires PartOf(a, whole) && !Overlap(whole, n)
    ensures !Overlap(a, n)
  {
  }

  lemma LogKeeps(s: State, n: Piece)
    requires Inv(s)
    ensures Inv(Step(s, LogWrite(n)))
  {
    var t := Step(s, LogWrite(n));
    forall id | 0 <= id < |t.log|
      ensures id in t.linked || id in t.dropped || !Untouched(t.log[id], t.log, id)
    {
      if id < |s.log| && id !in t.linked && id !in t.dropped {
        if id in s.linked {
          assert Overlap(s.linked[id], n);
          if !Overlap(s.log[id], n) { PartOverlapsLess(s.linked[id], s.log[id], n); }
          assert t.log[|s.log|] == n;
        } else {
          var j :| id < j < |s.log| && Overlap(s.log[id], s.log[j]);
          assert t.log[j] == s.log[j];
        }
      }
    }
  }

  lemma ShortenKeeps(s: State, id: PieceId, len: nat)
    requires Inv(s) && Enabled(s, Shorten(id, len))
    ensures Inv(Step(s, Shorten(id, len)))
  {
    var p := s.linked[id].(len := len);
    forall j | id < j < |s.log|
      ensures !Overlap(p, s.log[j])
    {
      PartOverlapsLess(p, s.linked[id], s.log[j]);
    }
  }

  lemma StepKeeps(s: State, e: Event)
    requires Inv(s) && Enabled(s, e)
    ensures Inv(Step(s, e))
  {
    match e
    case LogWrite(n) => LogKeeps(s, n);
    case Unlog(_) =>
    case Shorten(id, len) => ShortenKeeps(s, id, len);
    case Land(id) =>
      var p := s.linked[id].(inFlight := false);
      assert Untouched(s.linked[id], s.log, id);
      assert forall j :: id < j < |s.log| ==> Overlap(p, s.log[j]) == Overlap(s.linked[id], s.log[j]);
    case Prune =>
  }

  lemma {:induction false} RunInv(events: seq<Event>, trace: seq<State>, k: nat)
    requires IsRun(events, trace) && k < |trace|
    ensures Inv(trace[k])
  {
    if k > 0 {
      RunInv(events, trace, k - 1);
      assert Enabled(trace[k - 1], events[k - 1]);
      StepKeeps(trace[k - 1], events[k - 1]);
    }
  }

  /** In every state of every run no two linked pieces overlap, and no write logged after a
      linked piece overlaps it. */
  lemma LinkedDisjoint(events: seq<Event>, trace: seq<State>, k: nat, x: PieceId, y: PieceId)
    requires IsRun(events, trace) && k < |trace| && x in trace[k].linked && y in trace[k].linked && x != y
    ensures !Overlap(trace[k].linked[x], trace[k].linked[y])
    ensures x < y ==> y < |trace[k].log| && !Overlap(trace[k].linked[x], trace[k].log[y])
  {
    var s := trace[k];
    RunInv(events, trace, k);
    if x < y {
      assert Untouched(s.linked[x], s.log, x);
    } else {
      assert Untouched(s.linked[y], s.log, y);
    }
  }

  /** The most recent logged write that covers a byte. */
  function LastWriter(log: seq<Piece>, file: nat, byte: nat): Option<PieceId> {
    if log == [] then None
    else if Covers(log[|log| - 1], file, byte) then Some(|log| - 1)
    else LastWriter(log[..|log| - 1], file, byte)
  }

  lemma {:induction false} LastWriterIs(log: seq<Piece>, file: nat, byte: nat, id: PieceId)
    requires id < |log| && Covers(log[id], file, byte)
    requires forall j :: id < j < |log| ==> !Covers(log[j], file, byte)
    ensures LastWriter(log, file, byte) == Some(id)
    decreases |log|
  {
    if id < |log| - 1 {
      LastWriterIs(log[..|log| - 1], file, byte, id);
    }
  }

  /** Every byte of a linked piece was last written by the write the piece records, so
      verifying the piece against that write is sound. */
  lemma NewestWriter(events: seq<Event>, trace: seq<State>, k: nat, id: PieceId, file: nat, byte: nat)
    requires IsRun(events, trace) && k < |trace| && id in trace[k].linked && Covers(trace[k].linked[id], file, byte)
    ensures LastWriter(trace[k].log, file, byte) == Some(id)
  {
    var s := trace[k];
    RunInv(events, trace, k);
    assert Untouched(s.linked[id], s.log, id);
    LastWriterIs(s.log, file, byte, id);
  }

  /** Nothing is lost silently: a logged write that is no longer linked was unlogged, pruned, or
      overlapped by a later write; and if it was neither unlogged nor pruned nor shortened, it is
      linked exactly while no later write overlaps it. */
  lemma LinkedExactly(events: seq<Event>, trace: seq<State>, k: nat, id: PieceId)
    requires IsRun(events, trace) && k < |trace| && id < |trace[k].log|
    ensures id in trace[k].linked || id in trace[k].dropped || !Untouched(trace[k].log[id], trace[k].log, id)
    ensures (forall i :: 0 <= i < k ==> events[i].LogWrite?) ==>
      (id in trace[k].linked <==> Untouched(trace[k].log[id], trace[k].log, id))
  {
    RunInv(events, trace, k);
    if forall i :: 0 <= i < k ==> events[i].LogWrite? {
      OnlyLogged(events, trace, k);
    }
  }

  lemma {:induction false} OnlyLogged(events: seq<Event>, trace: seq<State>, k: nat)
    requires IsRun(events, trace) && k < |trace| && forall i :: 0 <= i < k ==> events[i].LogWrite?
    ensures trace[k].dropped == {}
    ensures forall id :: id in trace[k].linked ==> id < |trace[k].log| && trace[k].linked[id] == trace[k].log[id]
  {
    if k > 0 {
      OnlyLogged(events, trace, k - 1);
      assert Enabled(trace[k - 1], events[k - 1]);
    }
  }
}
