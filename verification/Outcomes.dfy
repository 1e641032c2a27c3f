/** What the stored row of a run says about its execution: which accepted write made it, and with what
    output, cause and times (internal/engine/engine.go, internal/store/memory.go). */
module Outcomes {
  import opened Basics
  import opened Runs
  import opened Execution

  // ----- what each accepted write stores --------------------------------------------------------------

  /** The runtime returned. The write is accepted exactly from the holder of the current fence on a row that
      is not canceled; it stores the answer. */
  lemma AnswerStored(c: Cell, a: nat, output: string, at: Time)
    requires Safe(c) && a in c.actors && c.actors[a].Executing?
    ensures var act := Finish(a, Returned(output), at);
            var row := Step(c, act).row;
            && (Writes(c, act) <==> CanWrite(c, c.actors[a]) && !c.row.status.Canceled?)
            && (Writes(c, act) ==> row.status.Succeeded? && row.output == output && row.error == "" && EndedAt(c.actors[a].local, row, at))
  {
    var x := c.actors[a];
    assert ActorInv(c, x);
    assert forall row: Run :: c.history + [row] != c.history;
  }

  /** The runtime raised. Below the limit the worker goes round the loop without writing; at the limit the
      failure is stored, the event is published next, and then the dead letter. */
  lemma FailureStored(c: Cell, a: nat, cause: string, at: Time)
    requires Safe(c) && a in c.actors && c.actors[a].Executing?
    ensures var act := Finish(a, Raised(cause), at);
            var x := c.actors[a];
            var d := Step(c, act);
            && (x.local.attempt < x.local.maxAttempts ==> !Writes(c, act) && d == Move(c, a, Looping(x.fence, x.local)))
            && (x.local.attempt >= x.local.maxAttempts ==>
                  && (Writes(c, act) <==> CanWrite(c, x) && !c.row.status.Canceled?)
                  && (Writes(c, act) ==> && d.row.status.Failed? && d.row.error == cause && d.row.output == "" && EndedAt(x.local, d.row, at)
                                         && a in d.actors && d.actors[a] == Publishing(Failed, true)))
  {
    var x := c.actors[a];
    assert ActorInv(c, x);
    assert forall row: Run :: c.history + [row] != c.history;
  }

  /** The agent or its runtime is missing. */
  lemma MissingAgentStored(c: Cell, a: nat, cause: string, policy: int, at: Time)
    requires Safe(c) && Writes(c, Resolve(a, Some(cause), policy, at))
    ensures var d := Step(c, Resolve(a, Some(cause), policy, at));
            && a in c.actors && c.actors[a].Loaded?
            && d.row.status.Failed? && d.row.error == cause && d.row.output == "" && EndedAt(c.actors[a].local, d.row, at)
  {
    assert ActorInv(c, c.actors[a]);
  }

  /** The enqueue failed. */
  lemma SubmissionFailureStored(c: Cell, a: nat, cause: string, publishes: bool, at: Time)
    requires Safe(c) && a in c.actors && c.actors[a].Submitting?
    ensures var act := EnqueueFails(a, cause, publishes, at);
            var row := Step(c, act).row;
            && (Writes(c, act) <==> CanWrite(c, c.actors[a]) && !c.row.status.Canceled? && !Terminal(c.actors[a].local.status))
            && (Writes(c, act) ==> row.status.Failed? && row.error == cause && row.output == "" && EndedAt(c.actors[a].local, row, at))
  {
    var x := c.actors[a];
    assert ActorInv(c, x);
    assert forall row: Run :: c.history + [row] != c.history;
  }

  /** A round of the retry loop. */
  lemma AttemptStored(c: Cell, a: nat, at: Time)
    requires Safe(c) && a in c.actors && c.actors[a].Looping?
    ensures var x := c.actors[a];
            var d := Step(c, Attempt(a, at));
            && (Writes(c, Attempt(a, at)) <==>
                  && CanWrite(c, x) && !c.row.status.Canceled? && !Terminal(x.local.status)
                  && (x.local.maxAttempts <= 0 || x.local.attempt < x.local.maxAttempts))
            && (Writes(c, Attempt(a, at)) ==>
                  && d.row.status.Running? && d.row.attempt == x.local.attempt + 1 && SameResult(x.local, d.row)
                  && d.row.startedAt == (if x.local.status.Queued? then Some(at) else x.local.startedAt)
                  && a in d.actors && d.actors[a] == Starting(x.fence, d.row))
  {
    var x := c.actors[a];
    assert ActorInv(c, x);
    assert forall row: Run :: c.history + [row] != c.history;
  }

  /** A cancellation is accepted exactly while the run is queued or running. */
  lemma CancelStored(c: Cell, a: nat, at: Time)
    requires Safe(c) && a !in c.actors
    ensures var d := Step(c, RequestCancel(a, at));
            if Terminal(c.row.status) then d == c
            else && d.row.status.Canceled? && d.row.output == "" && d.row.error == "" && EndedAt(c.row, d.row, at)
                 && d.fence == c.fence && a in d.actors && d.actors[a] == Publishing(Canceled, false)
  {
  }

  /** A recovery takes back a running row, and only a running one. */
  lemma RecoveryStored(c: Cell, token: int)
    requires Safe(c)
    ensures var d := Step(c, Recover(token));
            if !c.row.status.Running? then d == c
            else && d.row.status.Queued? && d.row.startedAt.None? && d.row.durationMs == 0 && d.row.attempt == c.row.attempt - 1
                 && SameIdentity(c.row, d.row) && d.row.maxAttempts == c.row.maxAttempts && d.row.completedAt == c.row.completedAt
                 && d.row.output == c.row.output && d.row.error == c.row.error
                 && d.fence > c.fence && d.fence >= token && d.actors == c.actors
  {
    assert WellShaped(c.row);
  }

  // ----- whole histories ------------------------------------------------------------------------------

  /** The action says why a row is terminal. */
  predicate Explains(act: Action, row: Run) {
    match row.status
    case Succeeded => act.Finish? && act.outcome == Returned(row.output) && row.completedAt == Some(act.at)
    case Failed =>
      || (act.Finish? && act.outcome == Raised(row.error) && row.completedAt == Some(act.at))
      || (act.Resolve? && act.missing == Some(row.error) && row.completedAt == Some(act.at))
      || (act.EnqueueFails? && act.cause == row.error && row.completedAt == Some(act.at))
    case Canceled => act.RequestCancel? && row.completedAt == Some(act.at)
    case _ => false
  }

  lemma StepExplains(c: Cell, act: Action)
    requires Safe(c) && !Terminal(c.row.status) && Terminal(Step(c, act).row.status)
    ensures Explains(act, Step(c, act).row)
  {
    WriterCanWrite(c, act);
    match act
    case Finish(a, outcome, at) =>
      match outcome {
        case Returned(output) => AnswerStored(c, a, output, at);
        case Raised(cause) => FailureStored(c, a, cause, at);
      }
    case Resolve(a, missing, policy, at) =>
      if missing.Some? {
        MissingAgentStored(c, a, missing.value, policy, at);
      }
    case EnqueueFails(a, cause, publishes, at) => SubmissionFailureStored(c, a, cause, publishes, at);
    case Attempt(a, at) => AttemptStored(c, a, at);
    case RequestCancel(a, at) => CancelStored(c, a, at);
    case Recover(token) => RecoveryStored(c, token);
    case _ =>
  }

  /** The action at position `k` ended the run with `row`. */
  ghost predicate EndedBy(c: Cell, acts: seq<Action>, k: nat, row: Run) {
    && k < |acts| && !Terminal(Exec(c, acts[..k]).row.status)
    && Step(Exec(c, acts[..k]), acts[k]).row == row && Explains(acts[k], row)
  }

  lemma {:induction false} TerminalRowEnded(c: Cell, acts: seq<Action>)
    requires Safe(c) && !Terminal(c.row.status) && Terminal(Exec(c, acts).row.status)
    ensures exists k: nat :: EndedBy(c, acts, k, Exec(c, acts).row)
    decreases |acts|
  {
    if acts == [] {
    } else {
      var before, act := acts[..|acts| - 1], acts[|acts| - 1];
      assert acts == before + [act];
      ExecAppend(c, before, [act]);
      assert [act][1..] == [];
      ExecSafe(c, before);
      var d := Exec(c, before);
      if Terminal(d.row.status) {
        StepSafe(d, act);
        TerminalRowEnded(c, before);
        var k: nat :| EndedBy(c, before, k, d.row);
        assert acts[..k] == before[..k] && acts[k] == before[k];
        assert EndedBy(c, acts, k, Exec(c, acts).row);
      } else {
        StepExplains(d, act);
        assert acts[..|before|] == before;
        assert EndedBy(c, acts, |before|, Exec(c, acts).row);
      }
    }
  }

  /** Every terminal row holds what the action that ended the run gave it: a succeeded row the output its
      runtime call returned, a failed row the cause raised or given, a canceled row the time of the request. */
  lemma TerminalRowIsExplained(r: Run, submitter: Option<nat>, acts: seq<Action>)
    requires FreshRun(r) && Terminal(Exec(NewCell(r, submitter), acts).row.status)
    ensures exists k: nat :: EndedBy(NewCell(r, submitter), acts, k, Exec(NewCell(r, submitter), acts).row)
  {
    NewCellSafe(r, submitter);
    TerminalRowEnded(NewCell(r, submitter), acts);
  }

  /** An answer once accepted is what the row holds for ever. */
  lemma AcceptedAnswerIsKept(r: Run, submitter: Option<nat>, acts: seq<Action>, a: nat, output: string, at: Time, later: seq<Action>)
    requires FreshRun(r) && Writes(Exec(NewCell(r, submitter), acts), Finish(a, Returned(output), at))
    ensures var row := Exec(NewCell(r, submitter), acts + [Finish(a, Returned(output), at)] + later).row;
            row.status.Succeeded? && row.output == output && row.completedAt == Some(at)
  {
    var c0, act := NewCell(r, submitter), Finish(a, Returned(output), at);
    NewCellSafe(r, submitter);
    ExecSafe(c0, acts);
    WriterCanWrite(Exec(c0, acts), act);
    AnswerStored(Exec(c0, acts), a, output, at);
    ExecAppend(c0, acts, [act]);
    assert [act][1..] == [];
    TerminalRunsNeverChange(r, submitter, acts + [act], later);
  }

  // ----- starting times -------------------------------------------------------------------------------

  /** The times at which attempts were begun. */
  function AttemptTimes(acts: seq<Action>): set<Time> {
    set k | 0 <= k < |acts| && acts[k].Attempt? :: acts[k].at
  }

  predicate StartedIn(r: Run, times: set<Time>) {
    r.startedAt.Some? ==> r.startedAt.value in times
  }

  predicate CopyStartedIn(x: Actor, times: set<Time>) {
    x.Loaded? || x.Looping? || x.Starting? || x.Executing? || x.Submitting? ==> StartedIn(x.local, times)
  }

  ghost predicate AllStartedIn(c: Cell, times: set<Time>) {
    && StartedIn(c.row, times) && (forall h <- c.history :: StartedIn(h, times))
    && (forall a <- c.actors :: CopyStartedIn(c.actors[a], times))
  }

  lemma WriteStartedIn(c: Cell, act: Action, times: set<Time>)
    requires Safe(c) && AllStartedIn(c, times) && (act.Attempt? ==> act.at in times)
    ensures StartedIn(Step(c, act).row, times)
  {
    if act.Recover? {
      RecoveryStored(c, act.token);
    } else if act.a in c.actors {
      assert CopyStartedIn(c.actors[act.a], times);
    }
  }

  lemma StepStartedIn(c: Cell, act: Action, times: set<Time>)
    requires Safe(c) && AllStartedIn(c, times) && (act.Attempt? ==> act.at in times)
    ensures AllStartedIn(Step(c, act), times)
  {
    WriteStartedIn(c, act, times);
    var d := Step(c, act);
    HistoryGrows(c, act);
    forall b <- d.actors
      ensures CopyStartedIn(d.actors[b], times)
    {
      CopyFrom(c, act, b, times);
    }
  }

  lemma HistoryGrows(c: Cell, act: Action)
    ensures Step(c, act).history == c.history || Step(c, act).history == c.history + [Step(c, act).row]
  {
  }

  /** An action concerns one participant only. */
  lemma OthersStay(c: Cell, act: Action, b: nat)
    requires b in Step(c, act).actors && (act.Recover? || b != act.a)
    ensures b in c.actors && Step(c, act).actors[b] == c.actors[b]
  {
  }

  lemma OwnCopy(c: Cell, act: Action, times: set<Time>)
    requires AllStartedIn(c, times) && !act.Recover? && (act.Attempt? ==> act.at in times) && act.a in Step(c, act).actors
    ensures CopyStartedIn(Step(c, act).actors[act.a], times)
  {
    if act.a in c.actors {
      assert CopyStartedIn(c.actors[act.a], times);
    }
  }

  lemma CopyFrom(c: Cell, act: Action, b: nat, times: set<Time>)
    requires AllStartedIn(c, times) && (act.Attempt? ==> act.at in times) && b in Step(c, act).actors
    ensures CopyStartedIn(Step(c, act).actors[b], times)
  {
    if act.Recover? || b != act.a {
      OthersStay(c, act, b);
    } else {
      OwnCopy(c, act, times);
    }
  }

  lemma {:induction false} ExecStartedIn(c: Cell, acts: seq<Action>, times: set<Time>)
    requires Safe(c) && AllStartedIn(c, times) && AttemptTimes(acts) <= times
    ensures AllStartedIn(Exec(c, acts), times)
    decreases |acts|
  {
    if acts == [] {
    } else {
      assert acts[0].Attempt? ==> acts[0].at in AttemptTimes(acts);
      assert AttemptTimes(acts[1..]) <= AttemptTimes(acts) by {
        forall t | t in AttemptTimes(acts[1..])
          ensures t in AttemptTimes(acts)
        {
          var k :| 0 <= k < |acts[1..]| && acts[1..][k].Attempt? && acts[1..][k].at == t;
          assert acts[k + 1] == acts[1..][k];
        }
      }
      StepStartedIn(c, acts[0], times);
      StepSafe(c, acts[0]);
      ExecStartedIn(Step(c, acts[0]), acts[1..], times);
    }
  }

  /** A row that has started records the time at which some attempt of the history was begun. */
  lemma StartIsAnAttempt(r: Run, submitter: Option<nat>, acts: seq<Action>)
    requires FreshRun(r)
    ensures var row := Exec(NewCell(r, submitter), acts).row;
            && (row.startedAt.Some? ==> row.startedAt.value in AttemptTimes(acts))
            && (row.status.Running? || row.status.Succeeded? ==> row.startedAt.Some?)
  {
    NewCellSafe(r, submitter);
    ExecSafe(NewCell(r, submitter), acts);
    ExecStartedIn(NewCell(r, submitter), acts, AttemptTimes(acts));
    assert WellShaped(Exec(NewCell(r, submitter), acts).row);
  }
}
