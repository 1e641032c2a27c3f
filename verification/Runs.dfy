/** The run record and its state machine (internal/domain/run.go). */
module Runs {
  import opened Basics

  datatype RunStatus = Queued | Running | Succeeded | Failed | Canceled

  datatype Run = Run(
    id: string,
    agentId: string,
    parentRunId: string,
    rootRunId: string,
    requiredCapabilities: seq<string>,
    input: string,
    output: string,
    status: RunStatus,
    error: string,
    attempt: int,
    maxAttempts: int,
    requestId: string,
    durationMs: int,
    createdAt: Time,
    startedAt: Option<Time>,
    completedAt: Option<Time>)

  datatype RunError =
    | IllegalTransition(from: RunStatus)
    | AttemptsExhausted
    | MissingCause
    | NotCancelable(from: RunStatus)
    | InvalidLineage

  predicate Terminal(s: RunStatus) {
    s.Succeeded? || s.Failed? || s.Canceled?
  }

  function StartOf(r: Run): Time {
    if r.startedAt.Some? then r.startedAt.value else r.createdAt
  }

  /** `durationMilliseconds`: measured from the start of execution or, before it, from creation. */
  function DurationMs(r: Run, completed: Time): (ms: int)
    ensures ms >= 0
    ensures var started := StartOf(r);
            if started == ZERO_TIME || completed < started then ms == 0
            else ms * 1_000_000 <= completed - started < (ms + 1) * 1_000_000
  {
    var started := StartOf(r);
    if started == ZERO_TIME || completed < started then 0 else (completed - started) / 1_000_000
  }

  function AttachTo(r: Run, parent: Run): Result<Run, RunError> {
    if r.id == "" || parent.id == "" || parent.id == r.id then Err(InvalidLineage)
    else if parent.parentRunId == "" && parent.rootRunId != "" then Err(InvalidLineage)
    else if parent.parentRunId != "" && parent.rootRunId == "" then Err(InvalidLineage)
    else
      var root := if parent.parentRunId == "" then parent.id else parent.rootRunId;
      if root == r.id then Err(InvalidLineage)
      else Ok(r.(parentRunId := parent.id, rootRunId := root))
  }

  function Start(r: Run, at: Time): Result<Run, RunError> {
    if !r.status.Queued? then Err(IllegalTransition(r.status))
    else if r.maxAttempts > 0 && r.attempt >= r.maxAttempts then Err(AttemptsExhausted)
    else Ok(r.(status := Running, startedAt := Some(at), attempt := r.attempt + 1))
  }

  function Retry(r: Run): Result<Run, RunError> {
    if !r.status.Running? then Err(IllegalTransition(r.status))
    else if r.maxAttempts > 0 && r.attempt >= r.maxAttempts then Err(AttemptsExhausted)
    else Ok(r.(attempt := r.attempt + 1))
  }

  function Succeed(r: Run, output: string, at: Time): Result<Run, RunError> {
    if !r.status.Running? then Err(IllegalTransition(r.status))
    else Ok(r.(status := Succeeded, output := output, error := "",
               completedAt := Some(at), durationMs := DurationMs(r, at)))
  }

  function Fail(r: Run, cause: Option<string>, at: Time): Result<Run, RunError> {
    if !r.status.Queued? && !r.status.Running? then Err(IllegalTransition(r.status))
    else if cause.None? then Err(MissingCause)
    else Ok(r.(status := Failed, output := "", error := cause.value,
               completedAt := Some(at), durationMs := DurationMs(r, at)))
  }

  function Cancel(r: Run, at: Time): Result<Run, RunError> {
    if !r.status.Queued? && !r.status.Running? then Err(NotCancelable(r.status))
    else Ok(r.(status := Canceled, output := "", error := "",
               completedAt := Some(at), durationMs := DurationMs(r, at)))
  }

  /** What `RecoverRun` (internal/store/memory.go) does to a running record. */
  function Requeue(r: Run): Run {
    r.(status := Queued, startedAt := None, durationMs := 0,
       attempt := if r.attempt > 0 then r.attempt - 1 else r.attempt)
  }

  /** The fields fixed when a run is created; no transition and no store write may change them. */
  predicate SameIdentity(r: Run, s: Run) {
    && r.id == s.id && r.agentId == s.agentId
    && r.parentRunId == s.parentRunId && r.rootRunId == s.rootRunId
    && r.requiredCapabilities == s.requiredCapabilities && r.input == s.input
    && r.requestId == s.requestId && r.createdAt == s.createdAt
  }

  /** Nothing but status, attempt and start differs. */
  predicate SameResult(r: Run, s: Run) {
    && SameIdentity(r, s) && s.maxAttempts == r.maxAttempts && s.output == r.output && s.error == r.error
    && s.durationMs == r.durationMs && s.completedAt == r.completedAt
  }

  /** `s` is `r` ended at `at`: the whole milliseconds since its start, or since its creation if it never
      started, are recorded; attempts and start are kept. */
  predicate EndedAt(r: Run, s: Run, at: Time) {
    var started := if r.startedAt.Some? then r.startedAt.value else r.createdAt;
    && SameIdentity(r, s) && s.maxAttempts == r.maxAttempts && s.attempt == r.attempt && s.startedAt == r.startedAt
    && s.completedAt == Some(at)
    && (if started == ZERO_TIME || at < started then s.durationMs == 0
        else s.durationMs * 1_000_000 <= at - started < (s.durationMs + 1) * 1_000_000)
  }

  /** What each status says about the other fields of a record. */
  predicate WellShaped(r: Run) {
    && r.attempt >= 0 && r.durationMs >= 0
    && (Terminal(r.status) <==> r.completedAt.Some?)
    && (Terminal(r.status) ==> r.durationMs == DurationMs(r, r.completedAt.value))
    && (r.status.Queued? ==> r.startedAt.None? && r.output == "" && r.error == "")
    && (r.status.Running? ==> r.startedAt.Some? && r.attempt >= 1 && r.output == "" && r.error == "")
    && (r.status.Succeeded? ==> r.error == "" && r.startedAt.Some? && r.attempt >= 1)
    && (r.status.Failed? ==> r.output == "")
    && (r.status.Canceled? ==> r.output == "" && r.error == "")
  }

  /** The legal edges of the run state machine. */
  predicate Edge(from: RunStatus, to: RunStatus) {
    match from
    case Queued => to.Running? || to.Failed? || to.Canceled?
    case Running => to.Running? || to.Succeeded? || to.Failed? || to.Canceled?
    case Succeeded => false
    case Failed => false
    case Canceled => false
  }

  /** Every accepted transition follows an edge, keeps the identity, keeps the shape and never
      lowers the attempt count; in particular nothing leaves a terminal status. */
  lemma TransitionsKeepShape(r: Run, s: Run, output: string, cause: Option<string>, at: Time)
    requires WellShaped(r)
    requires Ok(s) in {Start(r, at), Retry(r), Succeed(r, output, at), Fail(r, cause, at), Cancel(r, at)}
    ensures Edge(r.status, s.status) && SameIdentity(r, s) && WellShaped(s)
    ensures r.attempt <= s.attempt <= r.attempt + 1
    ensures s.status.Running? <==> s.attempt == r.attempt + 1
  {
  }

  /** A run in a terminal status rejects every transition; any other can be canceled or failed. */
  lemma TerminalRejectsAll(r: Run, output: string, cause: Option<string>, at: Time)
    ensures Terminal(r.status) ==>
              Start(r, at).Err? && Retry(r).Err? && Succeed(r, output, at).Err? && Fail(r, cause, at).Err? && Cancel(r, at).Err?
    ensures !Terminal(r.status) ==> Cancel(r, at).Ok? && (cause.Some? ==> Fail(r, cause, at).Ok?)
  {
  }

  /** The record as the source keeps it: a mutable struct whose methods update it in place. */
  class RunRecord {
    const id: string
    const agentId: string
    const requiredCapabilities: seq<string>
    const input: string
    const maxAttempts: int
    const requestId: string
    const createdAt: Time
    var parentRunId: string
    var rootRunId: string
    var output: string
    var status: RunStatus
    var error: string
    var attempt: int
    var durationMs: int
    var startedAt: Option<Time>
    var completedAt: Option<Time>

    function Value(): Run
      reads this
    {
      Run(id, agentId, parentRunId, rootRunId, requiredCapabilities, input, output, status, error,
          attempt, maxAttempts, requestId, durationMs, createdAt, startedAt, completedAt)
    }

    constructor (r: Run)
      ensures Value() == r
    {
      id, agentId, requiredCapabilities, input := r.id, r.agentId, r.requiredCapabilities, r.input;
      maxAttempts, requestId, createdAt := r.maxAttempts, r.requestId, r.createdAt;
      parentRunId, rootRunId, output, status := r.parentRunId, r.rootRunId, r.output, r.status;
      error, attempt, durationMs := r.error, r.attempt, r.durationMs;
      startedAt, completedAt := r.startedAt, r.completedAt;
    }

    method DoAttachTo(parent: Run) returns (err: Option<RunError>)
      modifies this
      ensures match AttachTo(old(Value()), parent)
              case Ok(s) => err.None? && Value() == s
              case Err(e) => err == Some(e) && Value() == old(Value())
      ensures var root := if parent.parentRunId == "" then parent.id else parent.rootRunId;
              && (err.None? <==> && id != "" && parent.id != "" && parent.id != id && root != id
                                 && (parent.parentRunId == "" <==> parent.rootRunId == ""))
              && (err.None? ==> Value() == old(Value()).(parentRunId := parent.id, rootRunId := root))
    {
      if id == "" || parent.id == "" || parent.id == id {
        return Some(InvalidLineage);
      }
      var root := parent.rootRunId;
      if parent.parentRunId == "" {
        if parent.rootRunId != "" {
          return Some(InvalidLineage);
        }
        root := parent.id;
      } else if root == "" {
        return Some(InvalidLineage);
      }
      if root == id {
        return Some(InvalidLineage);
      }
      parentRunId := parent.id;
      rootRunId := root;
      err := None;
    }

    method DoStart(at: Time) returns (err: Option<RunError>)
      modifies this
      ensures match Start(old(Value()), at)
              case Ok(s) => err.None? && Value() == s
              case Err(e) => err == Some(e) && Value() == old(Value())
      ensures err.None? <==> old(status).Queued? && (maxAttempts <= 0 || old(attempt) < maxAttempts)
      ensures err.None? ==> status.Running? && startedAt == Some(at) && attempt == old(attempt) + 1
                            && SameResult(old(Value()), Value())
    {
      if status != Queued {
        return Some(IllegalTransition(status));
      }
      if maxAttempts > 0 && attempt >= maxAttempts {
        return Some(AttemptsExhausted);
      }
      status := Running;
      startedAt := Some(at);
      attempt := attempt + 1;
      err := None;
    }

    method DoRetry() returns (err: Option<RunError>)
      modifies this
      ensures match Retry(old(Value()))
              case Ok(s) => err.None? && Value() == s
              case Err(e) => err == Some(e) && Value() == old(Value())
      ensures err.None? <==> old(status).Running? && (maxAttempts <= 0 || old(attempt) < maxAttempts)
      ensures err.None? ==> status.Running? && startedAt == old(startedAt) && attempt == old(attempt) + 1
                            && SameResult(old(Value()), Value())
    {
      if status != Running {
        return Some(IllegalTransition(status));
      }
      if maxAttempts > 0 && attempt >= maxAttempts {
        return Some(AttemptsExhausted);
      }
      attempt := attempt + 1;
      err := None;
    }

    method DoSucceed(result: string, at: Time) returns (err: Option<RunError>)
      modifies this
      ensures match Succeed(old(Value()), result, at)
              case Ok(s) => err.None? && Value() == s
              case Err(e) => err == Some(e) && Value() == old(Value())
      ensures err.None? <==> old(status).Running?
      ensures err.None? ==> status.Succeeded? && output == result && error == "" && EndedAt(old(Value()), Value(), at)
    {
      if status != Running {
        return Some(IllegalTransition(status));
      }
      status := Succeeded;
      output := result;
      error := "";
      completedAt := Some(at);
      durationMs := DurationMs(Value(), at);
      err := None;
    }

    method DoFail(cause: Option<string>, at: Time) returns (err: Option<RunError>)
      modifies this
      ensures match Fail(old(Value()), cause, at)
              case Ok(s) => err.None? && Value() == s
              case Err(e) => err == Some(e) && Value() == old(Value())
      ensures err.None? <==> (old(status).Queued? || old(status).Running?) && cause.Some?
      ensures err.None? ==> status.Failed? && output == "" && error == cause.value && EndedAt(old(Value()), Value(), at)
    {
      if status != Queued && status != Running {
        return Some(IllegalTransition(status));
      }
      if cause.None? {
        return Some(MissingCause);
      }
      status := Failed;
      output := "";
      error := cause.value;
      completedAt := Some(at);
      durationMs := DurationMs(Value(), at);
      err := None;
    }

    method DoCancel(at: Time) returns (err: Option<RunError>)
      modifies this
      ensures match Cancel(old(Value()), at)
              case Ok(s) => err.None? && Value() == s
              case Err(e) => err == Some(e) && Value() == old(Value())
      ensures err.None? <==> old(status).Queued? || old(status).Running?
      ensures err.None? ==> status.Canceled? && output == "" && error == "" && EndedAt(old(Value()), Value(), at)
    {
      if status != Queued && status != Running {
        return Some(NotCancelable(status));
      }
      status := Canceled;
      output := "";
      error := "";
      completedAt := Some(at);
      durationMs := DurationMs(Value(), at);
      err := None;
    }
  }
}
