/** The repository interface as one step function: every run and agent operation of the in-memory store
    with its reply. */
module StoreOps {
  import opened Basics
  import opened Runs
  import opened RunStore
  import opened Agents
  import opened Workflows

  datatype Store = Store(table: Table, agents: map<string, Agent>)

  datatype Op =
    | CreateRun(run: Run, key: string)
    | CreateChildRun(run: Run, key: string, maxChildren: int)
    | GetRun(id: string)
    | UpdateRun(run: Run)
    | UpdateRunFenced(run: Run, fence: int)
    | ClaimRun(id: string, token: int)
    | CancelRun(id: string, at: Time)
    | RecoverRun(id: string, token: int)
    | CreateAgent(validated: Option<Agent>)
    | GetAgent(id: string)
    | UpdateAgent(requested: string, validated: Option<Agent>, expected: int, now: Time)
    | DeleteAgent(id: string, expected: int, workflows: map<string, Workflow>)

  datatype Reply =
    | RunCreated(created: Result<(Run, bool), StoreError>)
    | RunRead(read: Result<Run, StoreError>)
    | RunWritten(failure: Option<StoreError>)
    | RunClaimed(claimed: Result<int, StoreError>)
    | RunCanceledReply(row: Run, failure: Option<StoreError>)
    | RunRecovered(recovered: Result<bool, StoreError>)
    | AgentStored(stored: Result<Agent, AgentError>)
    | AgentRead(agent: Result<Agent, AgentError>)
    | AgentDeleted(rejected: Option<AgentError>)

  function ReadRun(t: Table, id: string): Result<Run, StoreError> {
    if id in t.runs then Ok(t.runs[id]) else Err(NotFound)
  }

  function ReadAgent(agents: map<string, Agent>, id: string): Result<Agent, AgentError> {
    if id in agents then Ok(agents[id]) else Err(AgentNotFound)
  }

  function Write(t: Table, run: Run, held: Option<int>): (Table, Option<StoreError>) {
    match WriteReply(t, run, held)
    case Ok(row) => (t.(runs := t.runs[run.id := row]), None)
    case Err(e) => (t, Some(e))
  }

  function ClaimIn(t: Table, id: string, token: int): (Table, Result<int, StoreError>) {
    var r := if id in t.runs then Claim(t.runs[id], FenceOf(t, id), token) else Err(NotFound);
    (if r.Ok? then t.(fences := t.fences[id := r.value]) else t, r)
  }

  function RecoverIn(t: Table, id: string, token: int): (Table, Result<bool, StoreError>) {
    if id !in t.runs then (t, Err(NotFound))
    else
      match RecoverRow(t.runs[id], FenceOf(t, id), token)
      case None => (t, Ok(false))
      case Some((row, fence)) => (t.(runs := t.runs[id := row], fences := t.fences[id := fence]), Ok(true))
  }

  function StoreAgent(agents: map<string, Agent>, r: Result<Agent, AgentError>): map<string, Agent> {
    if r.Ok? then agents[r.value.id := r.value] else agents
  }

  function ApplyRun(t: Table, op: Op): (Table, Reply)
    requires !op.CreateAgent? && !op.GetAgent? && !op.UpdateAgent? && !op.DeleteAgent?
  {
    match op
    case CreateRun(run, key) => var (t', r) := Insert(t, run, key); (t', RunCreated(r))
    case CreateChildRun(run, key, max) => var (t', r) := InsertChild(t, run, key, max); (t', RunCreated(r))
    case GetRun(id) => (t, RunRead(ReadRun(t, id)))
    case UpdateRun(run) => var (t', e) := Write(t, run, None); (t', RunWritten(e))
    case UpdateRunFenced(run, fence) => var (t', e) := Write(t, run, Some(fence)); (t', RunWritten(e))
    case ClaimRun(id, token) => var (t', r) := ClaimIn(t, id, token); (t', RunClaimed(r))
    case CancelRun(id, at) => var (t', row, e) := CancelReply(t, id, at); (t', RunCanceledReply(row, e))
    case RecoverRun(id, token) => var (t', r) := RecoverIn(t, id, token); (t', RunRecovered(r))
  }

  function Apply(s: Store, op: Op): (Store, Reply) {
    match op
    case CreateAgent(validated) =>
      var r := Created(s.agents, validated); (s.(agents := StoreAgent(s.agents, r)), AgentStored(r))
    case GetAgent(id) => (s, AgentRead(ReadAgent(s.agents, id)))
    case UpdateAgent(_, validated, expected, now) =>
      var r := Updated(s.agents, validated, expected, now); (s.(agents := StoreAgent(s.agents, r)), AgentStored(r))
    case DeleteAgent(id, expected, workflows) =>
      var e := DeleteError(s.agents, id, expected, Referenced(s.table.runs, workflows, id));
      (if e.None? then s.(agents := s.agents - {id}) else s, AgentDeleted(e))
    case _ => var (t', reply) := ApplyRun(s.table, op); (s.(table := t'), reply)
  }
}
