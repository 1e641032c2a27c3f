/** The writes of the engine and of the API call, as code on the store object (internal/engine/engine.go,
    internal/httpapi/server.go), and their agreement with the steps of the protocol. */
module Worker {
  import opened Basics
  import opened Runs
  import opened RunStore
  import opened StoreOps
  import Execution

  datatype Failure = NoTransition(illegal: RunError) | NotStored(refused: StoreError)

  /** A transition of the local copy followed by the write of its result. */
  function Persist(t: Table, next: Result<Run, RunError>, held: Option<int>): (Table, Option<Failure>) {
    match next
    case Err(e) => (t, Some(NoTransition(e)))
    case Ok(run) =>
      match WriteReply(t, run, held)
      case Err(e) => (t, Some(NotStored(e)))
      case Ok(row) => (t.(runs := t.runs[run.id := row]), None)
  }

  /** The head of the retry loop: start or retry the local copy, then store it under the fence. */
  method BeginAttempt(store: Memory, run: RunRecord, fence: int, at: Time) returns (failure: Option<Failure>)
    modifies run, store
    ensures (store.State(), failure) == Persist(old(store.State()), Execution.NextAttempt(old(run.Value()), at), Some(fence))
    ensures Execution.NextAttempt(old(run.Value()), at).Ok? ==> run.Value() == Execution.NextAttempt(old(run.Value()), at).value
  {
    var err: Option<RunError>;
    if run.status == Queued {
      err := run.DoStart(at);
    } else {
      err := run.DoRetry();
    }
    if err.Some? {
      return Some(NoTransition(err.value));
    }
    var refused := store.UpdateRunFenced(run.Value(), fence);
    failure := if refused.Some? then Some(NotStored(refused.value)) else None;
  }

  /** The runtime returned: succeed the local copy and store it. */
  method Complete(store: Memory, run: RunRecord, fence: int, output: string, at: Time) returns (failure: Option<Failure>)
    modifies run, store
    ensures (store.State(), failure) == Persist(old(store.State()), Succeed(old(run.Value()), output, at), Some(fence))
  {
    var err := run.DoSucceed(output, at);
    if err.Some? {
      return Some(NoTransition(err.value));
    }
    var refused := store.UpdateRunFenced(run.Value(), fence);
    failure := if refused.Some? then Some(NotStored(refused.value)) else None;
  }

  /** `failRun`, up to the event and the dead letter. */
  method FailRun(store: Memory, run: RunRecord, fence: int, cause: Option<string>, at: Time) returns (failure: Option<Failure>)
    modifies run, store
    ensures (store.State(), failure) == Persist(old(store.State()), Fail(old(run.Value()), cause, at), Some(fence))
  {
    var err := run.DoFail(cause, at);
    if err.Some? {
      return Some(NoTransition(err.value));
    }
    var refused := store.UpdateRunFenced(run.Value(), fence);
    failure := if refused.Some? then Some(NotStored(refused.value)) else None;
  }

  /** The API call whose enqueue failed: an unfenced write. */
  method FailSubmission(store: Memory, run: RunRecord, cause: string, at: Time) returns (failure: Option<Failure>)
    modifies run, store
    ensures (store.State(), failure) == Persist(old(store.State()), Fail(old(run.Value()), Some(cause), at), None)
  {
    var err := run.DoFail(Some(cause), at);
    if err.Some? {
      return Some(NoTransition(err.value));
    }
    var refused := store.UpdateRun(run.Value());
    failure := if refused.Some? then Some(NotStored(refused.value)) else None;
  }

  // ----- agreement with the protocol ------------------------------------------------------------------

  /** The store holds the row and the fence of the protocol state. */
  predicate Holds(t: Table, c: Execution.Cell) {
    c.row.id in t.runs && t.runs[c.row.id] == c.row && FenceOf(t, c.row.id) == c.fence
  }

  /** The transition and the fence that a participant's write action stands for. */
  function Intent(c: Execution.Cell, act: Execution.Action): Option<(Result<Run, RunError>, Option<int>)> {
    if !(act.Attempt? || act.Finish? || act.Resolve? || act.EnqueueFails?) || act.a !in c.actors then None
    else
      var x := c.actors[act.a];
      if act.Attempt? && x.Looping? then Some((Execution.NextAttempt(x.local, act.at), Some(x.fence)))
      else if act.Resolve? && x.Loaded? && act.missing.Some? then Some((Fail(x.local, act.missing, act.at), Some(x.fence)))
      else if act.EnqueueFails? && x.Submitting? then Some((Fail(x.local, Some(act.cause), act.at), None))
      else if act.Finish? && x.Executing? && act.outcome.Returned? then Some((Succeed(x.local, act.outcome.output, act.at), Some(x.fence)))
      else if act.Finish? && x.Executing? && x.local.attempt >= x.local.maxAttempts
      then Some((Fail(x.local, Some(act.outcome.cause), act.at), Some(x.fence)))
      else None
  }

  /** The row the protocol stores for a transition to `next`, if it is accepted. */
  function Accepted(c: Execution.Cell, next: Result<Run, RunError>, held: Option<int>): Option<Run> {
    if next.Err? then None
    else
      match if held.None? then PlainWrite(c.row, c.fence, next.value) else FencedWrite(c.row, c.fence, next.value, held.value)
      case Err(_) => None
      case Ok(row) => Some(row)
  }

  lemma PersistAccepted(t: Table, c: Execution.Cell, next: Result<Run, RunError>, held: Option<int>)
    requires Holds(t, c) && (next.Ok? ==> next.value.id == c.row.id)
    ensures var (t', failure) := Persist(t, next, held);
            && (failure.None? <==> Accepted(c, next, held).Some?)
            && (failure.None? ==> Holds(t', c.(row := Accepted(c, next, held).value)))
            && (failure.Some? ==> t' == t)
  {
  }

  lemma StepAccepted(c: Execution.Cell, act: Execution.Action)
    requires Intent(c, act).Some?
    ensures var (next, held) := Intent(c, act).value;
            var d := Execution.Step(c, act);
            && d.fence == c.fence
            && d.row == (if Accepted(c, next, held).Some? then Accepted(c, next, held).value else c.row)
            && d.history == (if Accepted(c, next, held).Some? then c.history + [d.row] else c.history)
  {
  }

  lemma IntentKeepsId(c: Execution.Cell, act: Execution.Action)
    requires Execution.Safe(c) && Intent(c, act).Some? && Intent(c, act).value.0.Ok?
    ensures Intent(c, act).value.0.value.id == c.row.id
  {
    assert Execution.ActorInv(c, c.actors[act.a]);
  }

  /** What the code stores is what the protocol step stores: after `Persist` the store holds the row of the
      next protocol state, and it succeeds exactly when the protocol step is an accepted write. */
  lemma StoreFollowsProtocol(t: Table, c: Execution.Cell, act: Execution.Action)
    requires Execution.Safe(c) && Holds(t, c) && Intent(c, act).Some?
    ensures var (next, held) := Intent(c, act).value;
            var (t', failure) := Persist(t, next, held);
            Holds(t', Execution.Step(c, act)) && (failure.None? <==> Execution.Writes(c, act))
  {
    var (next, held) := Intent(c, act).value;
    if next.Ok? {
      IntentKeepsId(c, act);
    }
    PersistAccepted(t, c, next, held);
    StepAccepted(c, act);
  }

  /** Every participant's accepted write is one of these. */
  lemma WritesAreIntended(c: Execution.Cell, act: Execution.Action)
    requires Execution.Writes(c, act)
    ensures Intent(c, act).Some?
  {
  }

  // ----- whole histories ------------------------------------------------------------------------------

  /** What an action of the protocol does to the store: the writes above, claims, cancellations and
      recoveries; everything else leaves it alone. */
  function StoreStep(t: Table, c: Execution.Cell, act: Execution.Action): Table {
    var intent := Intent(c, act);
    if intent.Some? then Persist(t, intent.value.0, intent.value.1).0
    else
      match act
      case ClaimExecution(a, token) => if a in c.actors && c.actors[a].Leasing? then ClaimIn(t, c.row.id, token).0 else t
      case RequestCancel(a, at) => if a in c.actors then t else CancelReply(t, c.row.id, at).0
      case Recover(token) => RecoverIn(t, c.row.id, token).0
      case _ => t
  }

  lemma ClaimFollows(t: Table, c: Execution.Cell, a: nat, token: int)
    requires Holds(t, c)
    ensures Holds(StoreStep(t, c, Execution.ClaimExecution(a, token)), Execution.Step(c, Execution.ClaimExecution(a, token)))
  {
  }

  lemma CancelFollows(t: Table, c: Execution.Cell, a: nat, at: Time)
    requires Holds(t, c)
    ensures Holds(StoreStep(t, c, Execution.RequestCancel(a, at)), Execution.Step(c, Execution.RequestCancel(a, at)))
  {
  }

  lemma RecoverFollows(t: Table, c: Execution.Cell, token: int)
    requires Holds(t, c)
    ensures Holds(StoreStep(t, c, Execution.Recover(token)), Execution.Step(c, Execution.Recover(token)))
  {
  }

  lemma OthersFollow(c: Execution.Cell, act: Execution.Action)
    requires Intent(c, act).None? && !act.ClaimExecution? && !act.RequestCancel? && !act.Recover?
    ensures Execution.Step(c, act).row == c.row && Execution.Step(c, act).fence == c.fence
  {
  }

  /** No other row or fence of the store is touched. */
  predicate SameElsewhere(t: Table, t': Table, id: string) {
    && t.runs.Keys <= t'.runs.Keys
    && forall j <- t.runs :: j != id ==> t'.runs[j] == t.runs[j] && FenceOf(t', j) == FenceOf(t, j)
  }

  lemma StepTouchesOneRow(t: Table, c: Execution.Cell, act: Execution.Action)
    requires Execution.Safe(c) && Holds(t, c)
    ensures SameElsewhere(t, StoreStep(t, c, act), c.row.id)
  {
    if Intent(c, act).Some? && Intent(c, act).value.0.Ok? {
      IntentKeepsId(c, act);
    }
  }

  lemma StoreStepFollows(t: Table, c: Execution.Cell, act: Execution.Action)
    requires Execution.Safe(c) && Holds(t, c)
    ensures Holds(StoreStep(t, c, act), Execution.Step(c, act))
  {
    if Intent(c, act).Some? {
      StoreFollowsProtocol(t, c, act);
    } else {
      match act
      case ClaimExecution(a, token) => ClaimFollows(t, c, a, token);
      case RequestCancel(a, at) => CancelFollows(t, c, a, at);
      case Recover(token) => RecoverFollows(t, c, token);
      case _ => OthersFollow(c, act);
    }
  }

  function StoreExec(t: Table, c: Execution.Cell, acts: seq<Execution.Action>): Table
    decreases |acts|
  {
    if acts == [] then t else StoreExec(StoreStep(t, c, acts[0]), Execution.Step(c, acts[0]), acts[1..])
  }

  lemma {:induction false} StoreExecFollows(t: Table, c: Execution.Cell, acts: seq<Execution.Action>)
    requires Execution.Safe(c) && Holds(t, c)
    ensures Holds(StoreExec(t, c, acts), Execution.Exec(c, acts))
    ensures SameElsewhere(t, StoreExec(t, c, acts), c.row.id)
    decreases |acts|
  {
    if acts == [] {
    } else {
      StoreStepFollows(t, c, acts[0]);
      StepTouchesOneRow(t, c, acts[0]);
      Execution.StepSafe(c, acts[0]);
      StoreExecFollows(StoreStep(t, c, acts[0]), Execution.Step(c, acts[0]), acts[1..]);
    }
  }

  /** The store simulates the protocol: from the creation of a run on, through every history of workers,
      crashes, cancellations, recoveries and the API call, the store holds the row and the fence of the
      protocol state, and no other run is touched. */
  lemma StoreSimulatesProtocol(t: Table, r: Run, key: string, submitter: Option<nat>, acts: seq<Execution.Action>)
    requires Execution.FreshRun(r) && r.id !in t.runs && FenceOf(t, r.id) == 0
    requires Insert(t, r, key).1.Ok? && Insert(t, r, key).1.value.1
    ensures var (t', created) := Insert(t, r, key);
            var c := Execution.NewCell(created.value.0, submitter);
            Holds(StoreExec(t', c, acts), Execution.Exec(c, acts)) && SameElsewhere(t', StoreExec(t', c, acts), r.id)
  {
    var (t', created) := Insert(t, r, key);
    var row := created.value.0;
    assert Execution.FreshRun(row);
    Execution.NewCellSafe(row, submitter);
    StoreExecFollows(t', Execution.NewCell(row, submitter), acts);
  }
}
