/** flow.c as it runs: the list of groups and the calls a job makes, each proved to do to its
    group what the steps of module Flow do, and nothing to any other group. */
module FlowList {
  import opened Options
  import opened Flow

  class FlowGroup {
    var refs: int
    const id: int
    var counter: int
    var total: int

    constructor (id: int)
      ensures this.id == id && View() == Group(0, 1, 0)
    {
      this.id := id;
      refs, counter, total := 0, 1, 0;
    }

    ghost function View(): Group
      reads this
    {
      Group(refs, counter, total)
    }
  }

  /** The flow fields of struct thread_data. */
  class FlowJob {
    const flowId: int
    const weight: nat
    var flow: FlowGroup?
    var own: nat

    constructor (flowId: int, weight: nat)
      ensures this.flowId == flowId && this.weight == weight && flow == null
    {
      this.flowId, this.weight := flowId, weight;
      flow := null;
      own := 0;
    }

    /** flow_threshold_exceeded, without the pauses of a refused job. */
    method ThresholdExceeded() returns (exceeded: bool)
      requires flow != null ==> flow.counter > 0 && flow.total > 0
      modifies this`own, (if flow == null then {} else {flow})`counter
      ensures flow == null ==> !exceeded && own == old(own)
      ensures flow != null ==> exceeded == Exceeds(old(own), old(flow.counter), weight, flow.total)
      ensures flow != null ==>
        && own == old(own) + (if exceeded then 0 else 1)
        && flow.counter == old(flow.counter) + (if exceeded then 0 else 1)
    {
      if flow == null {
        return false;
      }
      var counterRatio := own as real / flow.counter as real;
      var weightRatio := weight as real / flow.total as real;
      RatioTest(own, flow.counter, weight, flow.total);
      if counterRatio > weightRatio {
        return true;
      }
      flow.counter := flow.counter + 1;
      own := own + 1;
      return false;
    }
  }

  predicate DistinctIds(groups: seq<FlowGroup>) {
    forall i, j :: 0 <= i < j < |groups| ==> groups[i].id != groups[j].id
  }

  function Removed(groups: seq<FlowGroup>, i: nat): seq<FlowGroup>
    requires i < |groups|
  {
    groups[..i] + groups[i + 1..]
  }

  /** Unlinking one group from the list removes its id and no other. */
  lemma RemovedIds(groups: seq<FlowGroup>, i: nat)
    requires i < |groups| && DistinctIds(groups)
    ensures DistinctIds(Removed(groups, i))
    ensures forall g :: g in Removed(groups, i) ==> g in groups && g.id != groups[i].id
    ensures forall g :: g in groups && g.id != groups[i].id ==> g in Removed(groups, i)
  {
    var rest := Removed(groups, i);
    assert forall k :: 0 <= k < |rest| ==> rest[k] == groups[if k < i then k else k + 1];
    forall g | g in groups && g.id != groups[i].id ensures g in rest {
      var k :| 0 <= k < |groups| && groups[k] == g;
      assert g == rest[if k < i then k else k - 1];
    }
  }

  class FlowTable {
    var groups: seq<FlowGroup>
    const ready: bool

    /** One group per id, and no group without a reference. */
    ghost predicate Valid()
      reads this, groups
    {
      && DistinctIds(groups)
      && forall i :: 0 <= i < |groups| ==> groups[i].refs > 0
    }

    ghost predicate Holds(i: nat, id: int)
      reads this
    {
      i < |groups| && groups[i].id == id
    }

    ghost function GroupOf(id: int): Option<Group>
      reads this, groups
    {
      if i: nat :| Holds(i, id) then Some(groups[i].View()) else None
    }

    lemma Found(i: nat, id: int)
      requires Valid() && Holds(i, id)
      ensures GroupOf(id) == Some(groups[i].View())
    {
    }

    /** What changed groups mean for the lookup by id, when only one id was touched. */
    twostate lemma OthersKept(id: int)
      requires old(Valid()) && Valid()
      requires forall g :: g in old(groups) && g.id != id ==> g in groups && g.View() == old(g.View())
      requires forall g :: g in groups && g.id != id ==> g in old(groups)
      ensures forall k :: k != id ==> GroupOf(k) == old(GroupOf(k))
    {
      forall k | k != id ensures GroupOf(k) == old(GroupOf(k)) {
        if i: nat :| Holds(i, k) {
          var g := groups[i];
          assert g in old(groups);
          var j: nat :| j < |old(groups)| && old(groups)[j] == g;
          assert old(Holds(j, k));
        } else if j: nat :| old(Holds(j, k)) {
          var g := old(groups)[j];
          var i: nat :| i < |groups| && groups[i] == g;
          assert Holds(i, k);
        }
      }
    }

    /** A list whose members have a reference is valid. */
    lemma ValidList()
      requires DistinctIds(groups) && forall g :: g in groups ==> g.refs > 0
      ensures Valid()
    {
      assert forall n :: 0 <= n < |groups| ==> groups[n] in groups;
    }

    lemma NotListed(id: int)
      requires forall g :: g in groups ==> g.id != id
      ensures GroupOf(id) == None
    {
      assert forall n: nat :: n < |groups| ==> groups[n] in groups;
    }

    /** The end of flow_put: the group at `i` lost its last reference and was unlinked, or still has
        one. */
    twostate lemma PutDone(i: nat)
      requires old(Valid()) && i < |old(groups)| && old(groups)[i].refs >= 0
      requires groups == if old(groups)[i].refs == 0 then Removed(old(groups), i) else old(groups)
      requires forall g :: g in old(groups) && g != old(groups)[i] ==> g.View() == old(g.View())
      ensures var flow := old(groups)[i];
        && Valid() && GroupOf(flow.id) == (if flow.refs == 0 then None else Some(flow.View()))
        && forall k :: k != flow.id ==> GroupOf(k) == old(GroupOf(k))
    {
      var flow := old(groups)[i];
      RemovedIds(old(groups), i);
      forall g | g in groups ensures g in old(groups) && g.refs > 0 {
        if g != flow { assert g.View() == old(g.View()); }
      }
      ValidList();
      if flow.refs == 0 {
        NotListed(flow.id);
      } else {
        Found(i, flow.id);
      }
      OthersKept(flow.id);
    }

    constructor (ready: bool)
      ensures Valid() && this.ready == ready && forall id :: GroupOf(id) == None
    {
      groups := [];
      this.ready := ready;
    }

    /** flow_get.  It fails without a lock, or when a new group finds no memory. */
    method FlowGet(id: int, memory: bool) returns (flow: FlowGroup?)
      requires Valid()
      modifies this, groups
      ensures Valid()
      ensures flow == null <==> !ready || (!memory && old(GroupOf(id)) == None)
      ensures flow == null ==> forall k :: GroupOf(k) == old(GroupOf(k))
      ensures flow != null ==> flow in groups && flow.id == id && (fresh(flow) || flow in old(groups))
      ensures flow != null ==> GroupOf(id) == Some(Referenced(old(GroupOf(id))))
      ensures forall k :: k != id ==> GroupOf(k) == old(GroupOf(k))
    {
      if !ready {
        return null;
      }
      var n := 0;
      flow := null;
      while n < |groups|
        invariant n <= |groups|
        invariant forall i :: 0 <= i < n ==> groups[i].id != id
      {
        if groups[n].id == id {
          flow := groups[n];
          break;
        }
        n := n + 1;
      }
      if flow == null {
        assert forall i: nat :: !Holds(i, id);
        if !memory {
          return null;
        }
        flow := new FlowGroup(id);
        groups := groups + [flow];
      } else {
        assert Holds(n, id);
      }
      flow.refs := flow.refs + 1;
      assert Holds(n, id);
      OthersKept(id);
    }
  
    /** flow_put.  The requirement on the last reference is the source's assertion. */
    method FlowPut(flow: FlowGroup, own: nat, weight: nat)
      requires Valid() && (ready ==> flow in groups)
      requires ready && flow.refs == 1 ==> flow.counter - own == 1
      modifies this, flow
      ensures Valid()
      ensures ready ==> GroupOf(flow.id) == Unreferenced(
                Group(old(flow.refs), old(flow.counter) - own, old(flow.total) - weight))
      ensures !ready ==> flow.View() == old(flow.View()) && groups == old(groups)
      ensures forall k :: k != flow.id ==> GroupOf(k) == old(GroupOf(k))
    {
      if !ready {
        return;
      }
      flow.counter := flow.counter - own;
      flow.total := flow.total - weight;
      flow.refs := flow.refs - 1;
      var i: nat :| i < |groups| && groups[i] == flow;
      if flow.refs == 0 {
        assert flow.counter == 1;
        groups := Removed(groups, i);
      }
      PutDone(i);
    }
  
    /** The atomic_add to total_weight. */
    method AddToTotal(flow: FlowGroup, weight: nat)
      requires Valid() && flow in groups
      modifies flow`total
      ensures Valid() && old(GroupOf(flow.id)).Some?
      ensures var g := old(GroupOf(flow.id)).value; GroupOf(flow.id) == Some(g.(total := g.total + weight))
      ensures forall k :: k != flow.id ==> GroupOf(k) == old(GroupOf(k))
    {
      ghost var i: nat :| i < |groups| && groups[i] == flow;
      Found(i, flow.id);
      flow.total := flow.total + weight;
      Found(i, flow.id);
      OthersKept(flow.id);
    }

    /** flow_init_job, which takes for granted that flow_get succeeds: the steps Join and
        AddWeight. */
    method InitJob(job: FlowJob, memory: bool)
      requires Valid()
      requires job.weight > 0 ==> ready && (memory || GroupOf(job.flowId).Some?)
      modifies this, groups, job
      ensures Valid()
      ensures job.weight == 0 ==> job.flow == old(job.flow) && forall k :: GroupOf(k) == old(GroupOf(k))
      ensures job.weight > 0 ==> job.flow != null && job.flow in groups && job.flow.id == job.flowId && job.own == 0
      ensures job.weight > 0 ==>
        var x := Job(Outside, job.weight, 0, 0);
        GroupOf(job.flowId) == GroupStep(GroupStep(old(GroupOf(job.flowId)), x, Join(0)), x, AddWeight(0))
      ensures forall k :: k != job.flowId ==> GroupOf(k) == old(GroupOf(k))
    {
      if job.weight == 0 {
        return;
      }
      var flow := FlowGet(job.flowId, memory);
      job.flow := flow;
      job.own := 0;
      AddToTotal(flow, job.weight);
    }

    /** flow_exit_job: the steps SubCounter, SubWeight and Unref. */
    method ExitJob(job: FlowJob)
      requires Valid()
      requires job.flow != null ==> ready && job.flow in groups
      requires job.flow != null && job.flow.refs == 1 ==> job.flow.counter - job.own == 1
      modifies this, job, groups
      ensures Valid() && job.flow == null
      ensures old(job.flow) == null ==> forall k :: GroupOf(k) == old(GroupOf(k))
      ensures old(job.flow) != null ==>
        var x, g := Job(Idle, job.weight, old(job.own), 0), Some(old(job.flow.View()));
        GroupOf(old(job.flow).id) ==
          GroupStep(GroupStep(GroupStep(g, x, SubCounter(0)), x, SubWeight(0)), x, Unref(0))
      ensures old(job.flow) != null ==> forall k :: k != old(job.flow).id ==> GroupOf(k) == old(GroupOf(k))
    {
      if job.flow != null {
        FlowPut(job.flow, job.own, job.weight);
        job.flow := null;
      }
    }
  }
}
