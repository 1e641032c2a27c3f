/** The run half of the in-memory repository (internal/store/memory.go). Every store method holds
    one mutex for its whole body, so each is one atomic step on a row and its fence. */
module RunStore {
  import opened Basics
  import opened Runs

  datatype StoreError =
    | NotFound
    | RunCanceled
    | NotExecutable(status: RunStatus)
    | StaleExecution
    | Rejected(cause: RunError)
    | RootDeclaresRoot
    | RootMismatch
    | MissingParent
    | ChildRunLimit

  // ----- one row and its fence ---------------------------------------------------------------

  /** The fence handed out by a claim or a recovery: above the stored one, at least the token. */
  function NextFence(fence: int, token: int): int {
    if token > fence + 1 then token else fence + 1
  }

  function Claim(row: Run, fence: int, token: int): Result<int, StoreError> {
    if row.status.Canceled? then Err(RunCanceled)
    else if !row.status.Queued? && !row.status.Running? then Err(NotExecutable(row.status))
    else Ok(NextFence(fence, token))
  }

  /** The row a write stores: the caller's record with the stored lineage put back. */
  function WithLineageOf(run: Run, row: Run): Run {
    run.(parentRunId := row.parentRunId, rootRunId := row.rootRunId)
  }

  function FencedWrite(row: Run, fence: int, run: Run, held: int): Result<Run, StoreError> {
    if row.status.Canceled? then Err(RunCanceled)
    else if held <= 0 || fence != held then Err(StaleExecution)
    else Ok(WithLineageOf(run, row))
  }

  function PlainWrite(row: Run, fence: int, run: Run): Result<Run, StoreError> {
    if row.status.Canceled? then Err(RunCanceled)
    else if fence != 0 then Err(StaleExecution)
    else Ok(WithLineageOf(run, row))
  }

  function CancelRow(row: Run, at: Time): Result<Run, StoreError> {
    match Cancel(row, at)
    case Ok(r) => Ok(r)
    case Err(e) => Err(Rejected(e))
  }

  /** `None` when the row is not running: `RecoverRun` then reports false and changes nothing. */
  function RecoverRow(row: Run, fence: int, token: int): Option<(Run, int)> {
    if !row.status.Running? then None else Some((Requeue(row), NextFence(fence, token)))
  }

  /** The claimed fence is the least number above the stored fence that is not below the token. */
  lemma ClaimIsLeastFreshFence(row: Run, fence: int, token: int, other: int)
    ensures Claim(row, fence, token).Ok? <==> !Terminal(row.status)
    ensures row.status.Canceled? ==> Claim(row, fence, token) == Err(RunCanceled)
    ensures row.status.Succeeded? || row.status.Failed? ==> Claim(row, fence, token) == Err(NotExecutable(row.status))
    ensures Claim(row, fence, token).Ok? ==>
              var f := Claim(row, fence, token).value;
              && f > fence && f >= token
              && (other > fence && other >= token ==> f <= other)
  {
  }

  /** A write that presents an outdated fence, and any write to a canceled row, is refused; a
      claim or recovery makes every earlier fence outdated, whatever token it used. */
  lemma OlderFenceIsRefused(row: Run, fence: int, token: int, run: Run, held: int)
    requires held <= fence
    ensures FencedWrite(row, NextFence(fence, token), run, held).Err?
    ensures fence >= 0 ==> PlainWrite(row, NextFence(fence, token), run).Err?
  {
  }

  // ----- the whole table ---------------------------------------------------------------------

  datatype Table = Table(runs: map<string, Run>, fences: map<string, int>, keys: map<string, string>)

  function FenceOf(t: Table, id: string): int {
    if id in t.fences then t.fences[id] else 0
  }

  /** Indexing a Go map: a missing row reads as the zero record. */
  function Lookup(t: Table, id: string): Run {
    if id in t.runs then t.runs[id] else NO_RUN
  }

  const NO_RUN: Run := Run("", "", "", "", [], "", "", Queued, "", 0, 0, "", 0, ZERO_TIME, None, None)

  /** `createRunLocked`: the reply is the stored run and whether it is new. */
  function Insert(t: Table, run: Run, key: string): (Table, Result<(Run, bool), StoreError>) {
    if key != "" && key in t.keys then
      (t, Ok((Lookup(t, t.keys[key]), false)))
    else
      var prepared := Prepare(t, run);
      if prepared.Err? then (t, Err(prepared.error))
      else
        var keys := if key != "" then t.keys[key := run.id] else t.keys;
        (t.(runs := t.runs[run.id := prepared.value], keys := keys), Ok((prepared.value, true)))
  }

  /** The lineage checks of `createRunLocked`. */
  function Prepare(t: Table, run: Run): Result<Run, StoreError> {
    if run.parentRunId == "" then
      if run.rootRunId != "" then Err(RootDeclaresRoot) else Ok(run)
    else if run.parentRunId !in t.runs then Err(NotFound)
    else
      var attached := AttachTo(run, t.runs[run.parentRunId]);
      if attached.Err? then Err(Rejected(attached.error))
      else if run.rootRunId != "" && run.rootRunId != attached.value.rootRunId then Err(RootMismatch)
      else Ok(attached.value)
  }

  function Children(t: Table, parent: string): set<string> {
    ChildrenAmong(t, t.runs.Keys, parent)
  }

  function ChildrenAmong(t: Table, ids: set<string>, parent: string): set<string>
    requires ids <= t.runs.Keys
  {
    set id | id in ids && t.runs[id].parentRunId == parent
  }

  function InsertChild(t: Table, run: Run, key: string, maxChildren: int): (Table, Result<(Run, bool), StoreError>) {
    if run.parentRunId == "" then (t, Err(MissingParent))
    else if key != "" && key in t.keys then Insert(t, run, key)
    else if run.parentRunId !in t.runs then (t, Err(NotFound))
    else if maxChildren > 0 && |Children(t, run.parentRunId)| >= maxChildren then (t, Err(ChildRunLimit))
    else Insert(t, run, key)
  }

  /** The repository object. Its methods are the atomic store operations. */
  class Memory {
    var runs: map<string, Run>
    var runFences: map<string, int>
    var idempotencyKeys: map<string, string>

    constructor ()
      ensures State() == Table(map[], map[], map[])
    {
      runs, runFences, idempotencyKeys := map[], map[], map[];
    }

    function State(): Table
      reads this
    {
      Table(runs, runFences, idempotencyKeys)
    }

    method CreateRun(run: Run, key: string) returns (r: Result<(Run, bool), StoreError>)
      modifies this
      ensures (State(), r) == Insert(old(State()), run, key)
      ensures key != "" && key in old(idempotencyKeys) ==> State() == old(State()) && r.Ok? && !r.value.1
      ensures r.Ok? && r.value.1 ==>
                && r.value.0 == run.(parentRunId := r.value.0.parentRunId, rootRunId := r.value.0.rootRunId) && runs == old(runs)[run.id := r.value.0]
                && idempotencyKeys == if key == "" then old(idempotencyKeys) else old(idempotencyKeys)[key := run.id]
      ensures r.Err? || !r.value.1 ==> State() == old(State())
    {
      if key != "" && key in idempotencyKeys {
        return Ok((Lookup(State(), idempotencyKeys[key]), false));
      }
      var stored := run;
      if run.parentRunId == "" {
        if run.rootRunId != "" {
          return Err(RootDeclaresRoot);
        }
      } else {
        if run.parentRunId !in runs {
          return Err(NotFound);
        }
        var child := new RunRecord(run);
        var invalid := child.DoAttachTo(runs[run.parentRunId]);
        if invalid.Some? {
          return Err(Rejected(invalid.value));
        }
        stored := child.Value();
        if run.rootRunId != "" && run.rootRunId != stored.rootRunId {
          return Err(RootMismatch);
        }
      }
      if key != "" {
        idempotencyKeys := idempotencyKeys[key := run.id];
      }
      runs := runs[run.id := stored];
      r := Ok((stored, true));
    }

    method CountChildren(parent: string) returns (count: nat)
      ensures count == |Children(State(), parent)|
    {
      var rest, seen := runs.Keys, {};
      count := 0;
      while rest != {}
        invariant rest + seen == runs.Keys && rest !! seen
        invariant count == |ChildrenAmong(State(), seen, parent)|
        decreases rest
      {
        var id :| id in rest;
        if runs[id].parentRunId == parent {
          assert ChildrenAmong(State(), seen + {id}, parent) == ChildrenAmong(State(), seen, parent) + {id};
          count := count + 1;
        } else {
          assert ChildrenAmong(State(), seen + {id}, parent) == ChildrenAmong(State(), seen, parent);
        }
        rest, seen := rest - {id}, seen + {id};
      }
      assert seen == runs.Keys;
    }

    method CreateChildRun(run: Run, key: string, maxChildren: int) returns (r: Result<(Run, bool), StoreError>)
      modifies this
      ensures (State(), r) == InsertChild(old(State()), run, key, maxChildren)
    {
      if run.parentRunId == "" {
        return Err(MissingParent);
      }
      if key != "" && key in idempotencyKeys {
        r := CreateRun(run, key);
        return;
      }
      if run.parentRunId !in runs {
        return Err(NotFound);
      }
      if maxChildren > 0 {
        var count := CountChildren(run.parentRunId);
        if count >= maxChildren {
          return Err(ChildRunLimit);
        }
      }
      r := CreateRun(run, key);
    }

    method GetRun(id: string) returns (r: Result<Run, StoreError>)
      ensures r == if id in runs then Ok(runs[id]) else Err(NotFound)
    {
      if id !in runs {
        return Err(NotFound);
      }
      r := Ok(runs[id]);
    }

    method UpdateRun(run: Run) returns (err: Option<StoreError>)
      modifies this`runs
      ensures err == match WriteReply(old(State()), run, None)
                     case Ok(_) => None
                     case Err(e) => Some(e)
      ensures err == (if run.id !in old(runs) then Some(NotFound)
                      else if old(runs)[run.id].status.Canceled? then Some(RunCanceled)
                      else if run.id in runFences && runFences[run.id] != 0 then Some(StaleExecution) else None)
      ensures err.None? ==> run.id in runs && runs[run.id] == run.(parentRunId := old(runs)[run.id].parentRunId, rootRunId := old(runs)[run.id].rootRunId)
      ensures runs == match WriteReply(old(State()), run, None)
                      case Ok(row) => old(runs)[run.id := row]
                      case Err(_) => old(runs)
    {
      if run.id !in runs {
        return Some(NotFound);
      }
      var existing := runs[run.id];
      if existing.status == Canceled {
        return Some(RunCanceled);
      }
      if run.id in runFences && runFences[run.id] != 0 {
        return Some(StaleExecution);
      }
      runs := runs[run.id := WithLineageOf(run, existing)];
      err := None;
    }

    method UpdateRunFenced(run: Run, fence: int) returns (err: Option<StoreError>)
      modifies this`runs
      ensures err == match WriteReply(old(State()), run, Some(fence))
                     case Ok(_) => None
                     case Err(e) => Some(e)
      ensures err == (if run.id !in old(runs) then Some(NotFound)
                      else if old(runs)[run.id].status.Canceled? then Some(RunCanceled)
                      else if fence >= 1 && run.id in runFences && runFences[run.id] == fence then None else Some(StaleExecution))
      ensures err.None? ==> run.id in runs && runs[run.id] == run.(parentRunId := old(runs)[run.id].parentRunId, rootRunId := old(runs)[run.id].rootRunId)
      ensures runs == match WriteReply(old(State()), run, Some(fence))
                      case Ok(row) => old(runs)[run.id := row]
                      case Err(_) => old(runs)
    {
      if run.id !in runs {
        return Some(NotFound);
      }
      var existing := runs[run.id];
      if existing.status == Canceled {
        return Some(RunCanceled);
      }
      var current := if run.id in runFences then runFences[run.id] else 0;
      if fence <= 0 || current != fence {
        return Some(StaleExecution);
      }
      runs := runs[run.id := WithLineageOf(run, existing)];
      err := None;
    }

    method ClaimRunExecution(id: string, token: int) returns (r: Result<int, StoreError>)
      modifies this`runFences
      ensures r == if id in runs then Claim(runs[id], FenceOf(old(State()), id), token) else Err(NotFound)
      ensures runFences == if r.Ok? then old(runFences)[id := r.value] else old(runFences)
    {
      if id !in runs {
        return Err(NotFound);
      }
      if runs[id].status == Canceled {
        return Err(RunCanceled);
      }
      if runs[id].status != Queued && runs[id].status != Running {
        return Err(NotExecutable(runs[id].status));
      }
      var next := (if id in runFences then runFences[id] else 0) + 1;
      if token > next {
        next := token;
      }
      runFences := runFences[id := next];
      r := Ok(next);
    }

    /** A rejected cancellation still returns the stored row. */
    method CancelRun(id: string, at: Time) returns (run: Run, err: Option<StoreError>)
      modifies this`runs
      ensures (State(), run, err) == CancelReply(old(State()), id, at)
      ensures id !in old(runs) ==> err == Some(NotFound) && runs == old(runs) && run.id == ""
      ensures id in old(runs) ==> id in runs && run == runs[id] && runs == old(runs)[id := runs[id]]
      ensures id in old(runs) ==> if Terminal(old(runs)[id].status) then err.Some? && runs == old(runs)
                                  else err.None? && run.status.Canceled? && EndedAt(old(runs)[id], run, at)
    {
      if id !in runs {
        return NO_RUN, Some(NotFound);
      }
      var canceled := new RunRecord(runs[id]);
      var rejected := canceled.DoCancel(at);
      if rejected.Some? {
        return runs[id], Some(Rejected(rejected.value));
      }
      runs := runs[id := canceled.Value()];
      return runs[id], None;
    }

    method RecoverRun(id: string, token: int) returns (r: Result<bool, StoreError>)
      modifies this`runs, this`runFences
      ensures id !in old(runs) ==> r == Err(NotFound) && State() == old(State())
      ensures id in old(runs) ==>
                match RecoverRow(old(runs)[id], FenceOf(old(State()), id), token)
                case None => r == Ok(false) && State() == old(State())
                case Some((row, fence)) =>
                  && r == Ok(true)
                  && runs == old(runs)[id := row] && runFences == old(runFences)[id := fence]
    {
      if id !in runs {
        return Err(NotFound);
      }
      var run := runs[id];
      if run.status != Running {
        return Ok(false);
      }
      var next := (if id in runFences then runFences[id] else 0) + 1;
      if token > next {
        next := token;
      }
      runFences := runFences[id := next];
      run := run.(status := Queued, startedAt := None, durationMs := 0);
      if run.attempt > 0 {
        run := run.(attempt := run.attempt - 1);
      }
      runs := runs[id := run];
      r := Ok(true);
    }
  }

  function CancelReply(t: Table, id: string, at: Time): (Table, Run, Option<StoreError>) {
    if id !in t.runs then (t, NO_RUN, Some(NotFound))
    else
      match CancelRow(t.runs[id], at)
      case Ok(row) => (t.(runs := t.runs[id := row]), row, None)
      case Err(e) => (t, t.runs[id], Some(e))
  }

  /** The row a write stores: `held` is the fence a fenced writer presents, `None` for `UpdateRun`. */
  function WriteReply(t: Table, run: Run, held: Option<int>): Result<Run, StoreError> {
    if run.id !in t.runs then Err(NotFound)
    else if held.None? then PlainWrite(t.runs[run.id], FenceOf(t, run.id), run)
    else FencedWrite(t.runs[run.id], FenceOf(t, run.id), run, held.value)
  }
}
