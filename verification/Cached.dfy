/** The read-through cache in front of the repository (internal/store/cached.go). Cache writes and deletes
    succeed; an entry may expire at any time. */
module Cached {
  import opened Basics
  import opened Runs
  import opened RunStore
  import opened Agents
  import opened StoreOps
  import opened Workflows

  datatype Entry = RunEntry(run: Run) | AgentEntry(agent: Agent)

  /** A cache key, by what it stands for; `KeyText` is the string the cache is given. */
  datatype Key = RunKey(id: string) | AgentKey(id: string)

  function KeyText(key: Key): string {
    match key
    case RunKey(id) => "agentmesh:run:" + id
    case AgentKey(id) => "agentmesh:agent:" + id
  }

  /** Different runs and agents never share a cache entry. */
  lemma KeyTextsAreDistinct(key: Key, other: Key)
    ensures KeyText(key) == KeyText(other) <==> key == other
  {
    var k, l := KeyText(key), KeyText(other);
    assert k[10] == (if key.RunKey? then 'r' else 'a') && l[10] == (if other.RunKey? then 'r' else 'a');
    assert k[if key.RunKey? then 14 else 16..] == key.id && l[if other.RunKey? then 14 else 16..] == other.id;
  }

  datatype Layered = Layered(store: Store, cache: map<Key, Entry>)

  function CachedRun(cache: map<Key, Entry>, id: string): Option<Run> {
    if RunKey(id) in cache && cache[RunKey(id)].RunEntry? then Some(cache[RunKey(id)].run) else None
  }

  /** Records from before versions existed are ignored. */
  function CachedAgent(cache: map<Key, Entry>, id: string): Option<Agent> {
    if AgentKey(id) in cache && cache[AgentKey(id)].AgentEntry? && cache[AgentKey(id)].agent.version >= 1
    then Some(cache[AgentKey(id)].agent) else None
  }

  /** What an operation does to the cache once the inner store has replied. */
  function Touch(cache: map<Key, Entry>, op: Op, reply: Reply): map<Key, Entry> {
    match (op, reply)
    case (CreateRun(_, _), RunCreated(Ok((row, _)))) => cache[RunKey(row.id) := RunEntry(row)]
    case (CreateChildRun(_, _, _), RunCreated(Ok((row, _)))) => cache[RunKey(row.id) := RunEntry(row)]
    case (GetRun(id), RunRead(Ok(row))) => cache[RunKey(id) := RunEntry(row)]
    case (UpdateRun(run), RunWritten(failure)) => TouchWrite(cache, run, failure)
    case (UpdateRunFenced(run, _), RunWritten(failure)) => TouchWrite(cache, run, failure)
    case (ClaimRun(id, _), RunClaimed(Err(_))) => cache - {RunKey(id)}
    case (CancelRun(_, _), RunCanceledReply(row, _)) => if row.id != "" then cache[RunKey(row.id) := RunEntry(row)] else cache
    case (RecoverRun(id, _), RunRecovered(Ok(true))) => cache - {RunKey(id)}
    case (CreateAgent(_), AgentStored(Ok(agent))) => cache[AgentKey(agent.id) := AgentEntry(agent)]
    case (GetAgent(id), AgentRead(Ok(agent))) => cache[AgentKey(id) := AgentEntry(agent)]
    case (UpdateAgent(requested, _, _, _), AgentStored(Ok(agent))) => cache[AgentKey(agent.id) := AgentEntry(agent)]
    case (UpdateAgent(requested, _, _, _), AgentStored(Err(e))) => if e.Invalid? then cache else cache - {AgentKey(requested)}
    case (DeleteAgent(id, _, _), AgentDeleted(rejected)) => if rejected == Some(InUse) then cache else cache - {AgentKey(id)}
    case _ => cache
  }

  /** A successful write caches the record the caller passed, not the row the store made of it. */
  function TouchWrite(cache: map<Key, Entry>, run: Run, failure: Option<StoreError>): map<Key, Entry> {
    match failure
    case None => cache[RunKey(run.id) := RunEntry(run)]
    case Some(e) => if e.RunCanceled? || e.StaleExecution? then cache - {RunKey(run.id)} else cache
  }

  function Hit(cache: map<Key, Entry>, op: Op): Option<Reply> {
    match op
    case GetRun(id) => if CachedRun(cache, id).Some? then Some(RunRead(Ok(CachedRun(cache, id).value))) else None
    case GetAgent(id) => if CachedAgent(cache, id).Some? then Some(AgentRead(Ok(CachedAgent(cache, id).value))) else None
    case _ => None
  }

  function CachedApply(l: Layered, op: Op): (Layered, Reply) {
    var hit := Hit(l.cache, op);
    if hit.Some? then (l, hit.value)
    else
      var (store, reply) := Apply(l.store, op);
      (Layered(store, Touch(l.cache, op, reply)), reply)
  }

  class Repository {
    const runs: Memory
    const agents: AgentMemory
    var entries: map<Key, Entry>

    constructor (runs: Memory, agents: AgentMemory)
      ensures this.runs == runs && this.agents == agents && entries == map[]
    {
      this.runs, this.agents := runs, agents;
      entries := map[];
    }

    function State(): Layered
      reads this, runs, agents
    {
      Layered(Store(runs.State(), agents.agents), entries)
    }

    method CreateAgent(validated: Option<Agent>) returns (r: Result<Agent, AgentError>)
      modifies this, agents
      ensures (State(), AgentStored(r)) == CachedApply(old(State()), StoreOps.CreateAgent(validated))
    {
      r := agents.CreateAgent(validated);
      if r.Ok? {
        entries := entries[AgentKey(r.value.id) := AgentEntry(r.value)];
      }
    }

    method GetAgent(id: string) returns (r: Result<Agent, AgentError>)
      modifies this
      ensures (State(), AgentRead(r)) == CachedApply(old(State()), StoreOps.GetAgent(id))
    {
      var found := CachedAgent(entries, id);
      if found.Some? {
        return Ok(found.value);
      }
      r := agents.GetAgent(id);
      if r.Ok? {
        entries := entries[AgentKey(id) := AgentEntry(r.value)];
      }
    }

    method UpdateAgent(requested: string, validated: Option<Agent>, expected: int, now: Time) returns (r: Result<Agent, AgentError>)
      modifies this, agents
      ensures (State(), AgentStored(r)) == CachedApply(old(State()), StoreOps.UpdateAgent(requested, validated, expected, now))
    {
      r := agents.UpdateAgent(validated, expected, now);
      if r.Err? {
        if r.error == Conflict || r.error == AgentNotFound {
          entries := entries - {AgentKey(requested)};
        }
        return;
      }
      entries := entries[AgentKey(r.value.id) := AgentEntry(r.value)];
    }

    method DeleteAgent(id: string, expected: int, workflows: map<string, Workflow>) returns (err: Option<AgentError>)
      modifies this, agents
      ensures (State(), AgentDeleted(err)) == CachedApply(old(State()), StoreOps.DeleteAgent(id, expected, workflows))
    {
      err := agents.DeleteAgent(id, expected, runs.runs, workflows);
      if err.None? || err.value == Conflict || err.value == AgentNotFound {
        entries := entries - {AgentKey(id)};
      }
    }

    method CreateRun(run: Run, key: string) returns (r: Result<(Run, bool), StoreError>)
      modifies this, runs
      ensures (State(), RunCreated(r)) == CachedApply(old(State()), StoreOps.CreateRun(run, key))
    {
      r := runs.CreateRun(run, key);
      if r.Ok? {
        entries := entries[RunKey(r.value.0.id) := RunEntry(r.value.0)];
      }
    }

    method CreateChildRun(run: Run, key: string, maxChildren: int) returns (r: Result<(Run, bool), StoreError>)
      modifies this, runs
      ensures (State(), RunCreated(r)) == CachedApply(old(State()), StoreOps.CreateChildRun(run, key, maxChildren))
    {
      r := runs.CreateChildRun(run, key, maxChildren);
      if r.Ok? {
        entries := entries[RunKey(r.value.0.id) := RunEntry(r.value.0)];
      }
    }

    method GetRun(id: string) returns (r: Result<Run, StoreError>)
      modifies this
      ensures (State(), RunRead(r)) == CachedApply(old(State()), StoreOps.GetRun(id))
    {
      var found := CachedRun(entries, id);
      if found.Some? {
        return Ok(found.value);
      }
      r := runs.GetRun(id);
      if r.Ok? {
        entries := entries[RunKey(id) := RunEntry(r.value)];
      }
    }

    method UpdateRun(run: Run) returns (err: Option<StoreError>)
      modifies this, runs
      ensures (State(), RunWritten(err)) == CachedApply(old(State()), StoreOps.UpdateRun(run))
    {
      err := runs.UpdateRun(run);
      if err.Some? {
        if err.value == RunCanceled || err.value == StaleExecution {
          entries := entries - {RunKey(run.id)};
        }
        return;
      }
      entries := entries[RunKey(run.id) := RunEntry(run)];
    }

    method ClaimRunExecution(id: string, token: int) returns (r: Result<int, StoreError>)
      modifies this, runs
      ensures (State(), RunClaimed(r)) == CachedApply(old(State()), ClaimRun(id, token))
    {
      r := runs.ClaimRunExecution(id, token);
      if r.Err? {
        entries := entries - {RunKey(id)};
      }
    }

    method UpdateRunFenced(run: Run, fence: int) returns (err: Option<StoreError>)
      modifies this, runs
      ensures (State(), RunWritten(err)) == CachedApply(old(State()), StoreOps.UpdateRunFenced(run, fence))
    {
      err := runs.UpdateRunFenced(run, fence);
      if err.Some? {
        if err.value == RunCanceled || err.value == StaleExecution {
          entries := entries - {RunKey(run.id)};
        }
        return;
      }
      entries := entries[RunKey(run.id) := RunEntry(run)];
    }

    method CancelRun(id: string, at: Time) returns (run: Run, err: Option<StoreError>)
      modifies this, runs
      ensures (State(), RunCanceledReply(run, err)) == CachedApply(old(State()), StoreOps.CancelRun(id, at))
    {
      run, err := runs.CancelRun(id, at);
      if run.id != "" {
        entries := entries[RunKey(run.id) := RunEntry(run)];
      }
    }

    method RecoverRun(id: string, token: int) returns (r: Result<bool, StoreError>)
      modifies this, runs
      ensures (State(), RunRecovered(r)) == CachedApply(old(State()), StoreOps.RecoverRun(id, token))
    {
      r := runs.RecoverRun(id, token);
      if r == Ok(true) {
        entries := entries - {RunKey(id)};
      }
    }
  }
}
