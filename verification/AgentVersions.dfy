/** Optimistic concurrency of agents: an update that was overtaken is refused (internal/store/memory.go). */
module AgentVersions {
  import opened Basics
  import opened Agents
  import opened StoreOps
  import opened Lineage

  /** The agent is there with at least this version. */
  predicate AtLeast(s: Store, id: string, version: int) {
    id in s.agents && s.agents[id].version >= version
  }

  lemma StepKeepsVersion(s: Store, op: Op, id: string, version: int)
    requires AtLeast(s, id, version) && !(op.DeleteAgent? && op.id == id)
    ensures AtLeast(Apply(s, op).0, id, version)
  {
  }

  lemma {:induction false} ExecKeepsVersion(s: Store, ops: seq<Op>, id: string, version: int)
    requires AtLeast(s, id, version)
    requires forall k :: 0 <= k < |ops| ==> !(ops[k].DeleteAgent? && ops[k].id == id)
    ensures AtLeast(Exec(s, ops), id, version)
    decreases |ops|
  {
    if ops == [] {
    } else {
      StepKeepsVersion(s, ops[0], id, version);
      ExecKeepsVersion(Apply(s, ops[0]).0, ops[1..], id, version);
    }
  }

  /** No lost update: once an update expecting some version succeeded, every later update or deletion of that
      agent expecting the same version is refused as a conflict and changes nothing, whatever happened in
      between, unless the agent was deleted. */
  lemma OvertakenUpdateConflicts(s: Store, first: Op, between: seq<Op>, second: Op)
    requires first.UpdateAgent? && first.validated.Some? && Apply(s, first).1.stored.Ok?
    requires var id := first.validated.value.id;
             && (forall k :: 0 <= k < |between| ==> !(between[k].DeleteAgent? && between[k].id == id))
             && (|| (second.UpdateAgent? && second.validated.Some? && second.validated.value.id == id)
                 || (second.DeleteAgent? && second.id == id))
             && second.expected == first.expected
    ensures var u := Exec(Apply(s, first).0, between);
            && Apply(u, second).0 == u
            && Apply(u, second).1 == (if second.UpdateAgent? then AgentStored(Err(Conflict)) else AgentDeleted(Some(Conflict)))
  {
    var id := first.validated.value.id;
    UpdateRaises(s, first);
    ExecKeepsVersion(Apply(s, first).0, between, id, first.expected + 1);
    OldVersionConflicts(Exec(Apply(s, first).0, between), second, id, first.expected);
  }

  lemma UpdateRaises(s: Store, op: Op)
    requires op.UpdateAgent? && op.validated.Some? && Apply(s, op).1.stored.Ok?
    ensures AtLeast(Apply(s, op).0, op.validated.value.id, op.expected + 1)
  {
  }

  lemma OldVersionConflicts(u: Store, op: Op, id: string, expected: int)
    requires AtLeast(u, id, expected + 1)
    requires || (op.UpdateAgent? && op.validated.Some? && op.validated.value.id == id && op.expected == expected)
             || (op.DeleteAgent? && op.id == id && op.expected == expected)
    ensures Apply(u, op).0 == u
    ensures Apply(u, op).1 == (if op.UpdateAgent? then AgentStored(Err(Conflict)) else AgentDeleted(Some(Conflict)))
  {
  }
}
