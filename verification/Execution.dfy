/** Fenced run execution: one run's row and fence, shared by any number of workers
    (internal/engine/engine.go `execute`), cancellers, recoverers and the submitting API call. */
module Execution {
  import opened Basics
  import opened Runs
  import opened RunStore

  /** Where a participant stands. `local` is the run value it holds in memory, `fence` the
      execution fence returned by its claim. */
  datatype Actor =
    | Fetching
    | Leasing
    | Claimed(fence: int)
    | Loaded(fence: int, local: Run)
    | Looping(fence: int, local: Run)
    | Starting(fence: int, local: Run)
    | Executing(fence: int, local: Run)
    | Publishing(status: RunStatus, bury: bool)
    | Burying
    | Submitting(local: Run)

  /** One run: its row, its fence, every value the row has had, the participants, the terminal
      lifecycle events published, whether it was dead-lettered, and three counters: accepted
      attempt-start writes, successful recoveries, and calls into the agent runtime. */
  datatype Cell = Cell(
    row: Run,
    fence: int,
    history: seq<Run>,
    actors: map<nat, Actor>,
    events: seq<RunStatus>,
    deadLettered: bool,
    starts: nat,
    recoveries: nat,
    calls: nat)

  datatype Outcome = Returned(output: string) | Raised(cause: string)

  /** What may happen next. Actions carry what the code does not decide: which participant moves,
      what a read returns, the lease token, the runtime's outcome, the time. */
  datatype Action =
    | Deliver(a: nat)
    | Fetch(a: nat, seen: Run)
    | ClaimExecution(a: nat, token: int)
    | Reload(a: nat, seen: Run)
    | Resolve(a: nat, missing: Option<string>, policy: int, at: Time)
    | Attempt(a: nat, at: Time)
    | Invoke(a: nat)
    | Finish(a: nat, outcome: Outcome, at: Time)
    | Publish(a: nat)
    | Bury(a: nat)
    | Crash(a: nat)
    | RequestCancel(a: nat, at: Time)
    | Recover(token: int)
    | EnqueueFails(a: nat, cause: string, publishes: bool, at: Time)

  function Move(c: Cell, a: nat, x: Actor): Cell {
    c.(actors := c.actors[a := x])
  }

  function Leave(c: Cell, a: nat): Cell {
    c.(actors := c.actors - {a})
  }

  function Commit(c: Cell, row: Run): Cell {
    c.(row := row, history := c.history + [row])
  }

  /** The write of a finished local copy: on success the event is published next. */
  function Finalize(c: Cell, a: nat, held: int, run: Result<Run, RunError>, bury: bool): Cell {
    if run.Err? then Leave(c, a)
    else
      match FencedWrite(c.row, c.fence, run.value, held)
      case Err(_) => Leave(c, a)
      case Ok(row) => Move(Commit(c, row), a, Publishing(row.status, bury))
  }

  /** The missing attempt limit is taken from the engine's retry policy. */
  function WithLimit(r: Run, policy: int): Run {
    if r.maxAttempts < 1 then r.(maxAttempts := policy) else r
  }

  function NextAttempt(local: Run, at: Time): Result<Run, RunError> {
    if local.status.Queued? then Start(local, at) else Retry(local)
  }

  /** One atomic step; an action that is not enabled changes nothing. */
  function Step(c: Cell, act: Action): Cell {
    match act
    case Deliver(a) =>
      if a in c.actors then c else Move(c, a, Fetching)
    case Fetch(a, seen) =>
      if a !in c.actors || !c.actors[a].Fetching? || seen !in c.history then c
      else if seen.status.Succeeded? || seen.status.Canceled? then Leave(c, a)
      else if seen.status.Failed? then Move(c, a, Burying)
      else Move(c, a, Leasing)
    case ClaimExecution(a, token) =>
      if a !in c.actors || !c.actors[a].Leasing? then c
      else (match Claim(c.row, c.fence, token)
            case Err(_) => Leave(c, a)
            case Ok(f) => Move(c.(fence := f), a, Claimed(f)))
    case Reload(a, seen) =>
      if a !in c.actors || !c.actors[a].Claimed? || seen !in c.history then c
      else if seen.status.Canceled? then Leave(c, a)
      else Move(c, a, Loaded(c.actors[a].fence, seen))
    case Resolve(a, missing, policy, at) =>
      if a !in c.actors || !c.actors[a].Loaded? then c
      else
        var x := c.actors[a];
        if missing.Some? then Finalize(c, a, x.fence, Fail(x.local, missing, at), true)
        else Move(c, a, Looping(x.fence, WithLimit(x.local, policy)))
    case Attempt(a, at) =>
      if a !in c.actors || !c.actors[a].Looping? then c else StartAttempt(c, a, at)
    case Invoke(a) =>
      if a !in c.actors || !c.actors[a].Starting? then c
      else Move(c, a, Executing(c.actors[a].fence, c.actors[a].local)).(calls := c.calls + 1)
    case Finish(a, outcome, at) =>
      if a !in c.actors || !c.actors[a].Executing? then c else FinishAttempt(c, a, outcome, at)
    case Publish(a) =>
      if a !in c.actors || !c.actors[a].Publishing? then c
      else
        var c' := c.(events := c.events + [c.actors[a].status]);
        if c.actors[a].bury then Move(c', a, Burying) else Leave(c', a)
    case Bury(a) =>
      if a !in c.actors || !c.actors[a].Burying? then c
      else Leave(c, a).(deadLettered := true)
    case Crash(a) =>
      Leave(c, a)
    case RequestCancel(a, at) =>
      if a in c.actors then c
      else (match CancelRow(c.row, at)
            case Err(_) => c
            case Ok(row) => Move(Commit(c, row), a, Publishing(Canceled, false)))
    case Recover(token) =>
      (match RecoverRow(c.row, c.fence, token)
       case None => c
       case Some((row, f)) => Commit(c, row).(fence := f, recoveries := c.recoveries + 1))
    case EnqueueFails(a, cause, publishes, at) =>
      if a !in c.actors || !c.actors[a].Submitting? then c
      else SubmitFailure(c, a, cause, publishes, at)
  }

  /** The attempt-start write of the retry loop. */
  function StartAttempt(c: Cell, a: nat, at: Time): Cell
    requires a in c.actors && c.actors[a].Looping?
  {
    var x := c.actors[a];
    var next := NextAttempt(x.local, at);
    if next.Err? then Leave(c, a)
    else
      match FencedWrite(c.row, c.fence, next.value, x.fence)
      case Err(_) => Leave(c, a)
      case Ok(row) => Move(Commit(c, row), a, Starting(x.fence, next.value)).(starts := c.starts + 1)
  }

  /** What the worker does with the runtime's outcome. */
  function FinishAttempt(c: Cell, a: nat, outcome: Outcome, at: Time): Cell
    requires a in c.actors && c.actors[a].Executing?
  {
    var x := c.actors[a];
    match outcome
    case Returned(output) => Finalize(c, a, x.fence, Succeed(x.local, output, at), false)
    case Raised(cause) =>
      if x.local.attempt >= x.local.maxAttempts then
        Finalize(c, a, x.fence, Fail(x.local, Some(cause), at), true)
      else Move(c, a, Looping(x.fence, x.local))
  }

  /** The API's unfenced failure write after a failed enqueue (internal/httpapi/server.go). */
  function SubmitFailure(c: Cell, a: nat, cause: string, publishes: bool, at: Time): Cell
    requires a in c.actors && c.actors[a].Submitting?
  {
    var failed := Fail(c.actors[a].local, Some(cause), at);
    if failed.Err? then Leave(c, a)
    else
      match PlainWrite(c.row, c.fence, failed.value)
      case Err(_) => Leave(c, a)
      case Ok(row) =>
        if publishes then Move(Commit(c, row), a, Publishing(Failed, false)) else Leave(Commit(c, row), a)
  }

  function Exec(c: Cell, acts: seq<Action>): Cell
    decreases |acts|
  {
    if acts == [] then c else Exec(Step(c, acts[0]), acts[1..])
  }

  /** A just-created run; `submitter` is the API call that still has to enqueue it, if any. */
  predicate FreshRun(r: Run) {
    WellShaped(r) && r.status.Queued? && r.attempt == 0
  }

  function NewCell(r: Run, submitter: Option<nat>): Cell {
    Cell(r, 0, [r], if submitter.Some? then map[submitter.value := Submitting(r)] else map[], [], false, 0, 0, 0)
  }

  // ----- the safety invariant ----------------------------------------------------------------

  predicate Holds(x: Actor) {
    x.Claimed? || x.Loaded? || x.Looping? || x.Starting? || x.Executing?
  }

  /** The participants whose next write the store would accept. */
  predicate CanWrite(c: Cell, x: Actor) {
    (Holds(x) && x.fence == c.fence) || (x.Submitting? && c.fence == 0)
  }

  predicate LocalOk(row: Run, local: Run) {
    WellShaped(local) && SameIdentity(local, row)
  }

  predicate ActorInv(c: Cell, x: Actor) {
    && (Holds(x) ==> 1 <= x.fence <= c.fence)
    && (x.Loaded? || x.Looping? || x.Starting? || x.Executing? || x.Submitting? ==> LocalOk(c.row, x.local))
    && (x.Starting? || x.Executing? ==> x.local.status.Running?)
    && (x.Publishing? ==> Terminal(x.status) && x.status == c.row.status && c.events == [] && (x.bury ==> x.status.Failed?))
    && (x.Burying? ==> c.row.status.Failed?)
  }

  /** Two participants never hold the same fence, and never both submit or both publish. */
  predicate Clash(x: Actor, y: Actor) {
    || (Holds(x) && Holds(y) && x.fence == y.fence)
    || (x.Submitting? && y.Submitting?)
    || (x.Publishing? && y.Publishing?)
  }

  /** Every earlier value of the row is the same run, and a terminal one is the present one. */
  ghost predicate HistoryInv(c: Cell) {
    && c.row in c.history
    && forall h <- c.history :: WellShaped(h) && SameIdentity(h, c.row) && (Terminal(h.status) ==> h == c.row)
  }

  ghost predicate Sealed(c: Cell) {
    c.row.status.Succeeded? || c.row.status.Failed? ==> forall a <- c.actors :: !CanWrite(c, c.actors[a])
  }

  ghost predicate ActorsInv(c: Cell) {
    && (forall a <- c.actors :: ActorInv(c, c.actors[a]))
    && (forall a, b | a in c.actors && b in c.actors && a != b :: !Clash(c.actors[a], c.actors[b]))
  }

  predicate LogInv(c: Cell) {
    && c.fence >= 0
    && |c.events| <= 1
    && (|c.events| == 1 ==> Terminal(c.row.status) && c.events[0] == c.row.status)
    && (c.deadLettered ==> c.row.status.Failed?)
  }

  ghost predicate Safe(c: Cell) {
    HistoryInv(c) && ActorsInv(c) && Sealed(c) && LogInv(c)
  }

  /** What one step may do to the row. */
  predicate RowEvolves(r: Run, s: Run) {
    SameIdentity(r, s) && WellShaped(s) && (Terminal(r.status) ==> s == r)
  }

  lemma LeaveSafe(c: Cell, a: nat)
    requires Safe(c)
    ensures Safe(Leave(c, a))
  {
  }

  lemma MoveSafe(c: Cell, a: nat, x: Actor)
    requires Safe(c) && ActorInv(c, x)
    requires c.row.status.Succeeded? || c.row.status.Failed? ==> !CanWrite(c, x)
    requires forall b | b in c.actors && b != a :: !Clash(c.actors[b], x) && !Clash(x, c.actors[b])
    ensures Safe(Move(c, a, x))
  {
  }

  /** A commit from a non-terminal row by a participant the store accepts, which then becomes `x`. */
  lemma CommitSafe(c: Cell, a: nat, row: Run, x: Actor)
    requires Safe(c) && !Terminal(c.row.status)
    requires LocalOk(c.row, row)
    requires ActorInv(Commit(c, row), x) && !x.Burying?
    requires row.status.Succeeded? || row.status.Failed? ==> !CanWrite(c, x)
    requires forall b | b in c.actors && b != a :: !Clash(c.actors[b], x) && !Clash(x, c.actors[b])
    requires row.status.Succeeded? || row.status.Failed? ==>
               forall b | b in c.actors && b != a :: !CanWrite(c, c.actors[b])
    ensures Safe(Move(Commit(c, row), a, x))
  {
    var d := Move(Commit(c, row), a, x);
    assert HistoryInv(d);
    assert ActorsInv(d);
  }

  /** While `a` may write with a positive fence, no other participant may. */
  lemma SoleWriter(c: Cell, a: nat)
    requires Safe(c) && a in c.actors && CanWrite(c, c.actors[a])
    ensures forall b | b in c.actors && b != a :: !CanWrite(c, c.actors[b])
  {
    forall b | b in c.actors && b != a
      ensures !CanWrite(c, c.actors[b])
    {
      assert !Clash(c.actors[a], c.actors[b]);
      assert ActorInv(c, c.actors[a]) && ActorInv(c, c.actors[b]);
    }
  }

  lemma FinalizeSafe(c: Cell, a: nat, run: Result<Run, RunError>, bury: bool)
    requires Safe(c) && a in c.actors && Holds(c.actors[a])
    requires run.Ok? ==> LocalOk(c.row, run.value) && Terminal(run.value.status)
    requires run.Ok? && bury ==> run.value.status.Failed?
    ensures Safe(Finalize(c, a, c.actors[a].fence, run, bury))
    ensures RowEvolves(c.row, Finalize(c, a, c.actors[a].fence, run, bury).row)
  {
    var held := c.actors[a].fence;
    assert WellShaped(c.row);
    if run.Ok? && FencedWrite(c.row, c.fence, run.value, held).Ok? {
      assert CanWrite(c, c.actors[a]);
      assert !Terminal(c.row.status);
      var row := WithLineageOf(run.value, c.row);
      SoleWriter(c, a);
      forall b | b in c.actors && b != a
        ensures !Clash(c.actors[b], Publishing(row.status, bury)) && !Clash(Publishing(row.status, bury), c.actors[b])
      {
        assert ActorInv(c, c.actors[b]);
      }
      CommitSafe(c, a, row, Publishing(row.status, bury));
    } else {
      LeaveSafe(c, a);
    }
  }

  lemma FetchSafe(c: Cell, a: nat, seen: Run)
    requires Safe(c)
    ensures Safe(Step(c, Fetch(a, seen))) && Step(c, Fetch(a, seen)).row == c.row
  {
    if a in c.actors && c.actors[a].Fetching? && seen in c.history {
      if seen.status.Succeeded? || seen.status.Canceled? {
        LeaveSafe(c, a);
      } else {
        MoveSafe(c, a, if seen.status.Failed? then Burying else Leasing);
      }
    }
  }

  lemma ClaimSafe(c: Cell, a: nat, token: int)
    requires Safe(c)
    ensures Safe(Step(c, ClaimExecution(a, token))) && Step(c, ClaimExecution(a, token)).row == c.row
  {
    if a in c.actors && c.actors[a].Leasing? {
      if Claim(c.row, c.fence, token).Ok? {
        var f := NextFence(c.fence, token);
        var d := c.(fence := f);
        assert HistoryInv(d) && LogInv(d);
        forall b <- d.actors
          ensures ActorInv(d, d.actors[b]) && (Holds(d.actors[b]) ==> d.actors[b].fence < f)
        {
          assert ActorInv(c, c.actors[b]);
        }
        assert ActorsInv(d);
        MoveSafe(d, a, Claimed(f));
      } else {
        LeaveSafe(c, a);
      }
    }
  }

  lemma ReloadSafe(c: Cell, a: nat, seen: Run)
    requires Safe(c)
    ensures Safe(Step(c, Reload(a, seen))) && Step(c, Reload(a, seen)).row == c.row
  {
    if a in c.actors && c.actors[a].Claimed? && seen in c.history {
      if seen.status.Canceled? {
        LeaveSafe(c, a);
      } else {
        KeepFenceSafe(c, a, Loaded(c.actors[a].fence, seen));
      }
    }
  }

  /** A fence holder that keeps its fence and touches nothing else. */
  lemma KeepFenceSafe(c: Cell, a: nat, x: Actor)
    requires Safe(c) && a in c.actors && Holds(c.actors[a])
    requires Holds(x) && x.fence == c.actors[a].fence && ActorInv(c, x)
    ensures Safe(Move(c, a, x))
  {
    forall b | b in c.actors && b != a
      ensures !Clash(c.actors[b], x) && !Clash(x, c.actors[b])
    {
      assert !Clash(c.actors[a], c.actors[b]);
    }
    assert CanWrite(c, x) ==> CanWrite(c, c.actors[a]);
    MoveSafe(c, a, x);
  }

  lemma ResolveSafe(c: Cell, a: nat, missing: Option<string>, policy: int, at: Time)
    requires Safe(c)
    ensures Safe(Step(c, Resolve(a, missing, policy, at)))
    ensures RowEvolves(c.row, Step(c, Resolve(a, missing, policy, at)).row)
  {
    assert WellShaped(c.row);
    if a in c.actors && c.actors[a].Loaded? {
      var x := c.actors[a];
      assert ActorInv(c, x);
      if missing.Some? {
        FinalizeSafe(c, a, Fail(x.local, missing, at), true);
      } else {
        KeepFenceSafe(c, a, Looping(x.fence, WithLimit(x.local, policy)));
      }
    }
  }

  lemma AttemptSafe(c: Cell, a: nat, at: Time)
    requires Safe(c)
    ensures Safe(Step(c, Attempt(a, at)))
    ensures RowEvolves(c.row, Step(c, Attempt(a, at)).row)
  {
    assert WellShaped(c.row);
    if a in c.actors && c.actors[a].Looping? {
      var x := c.actors[a];
      assert ActorInv(c, x);
      var next := NextAttempt(x.local, at);
      if next.Ok? && FencedWrite(c.row, c.fence, next.value, x.fence).Ok? {
        assert CanWrite(c, x);
        var row := WithLineageOf(next.value, c.row);
        assert row == next.value;
        var y := Starting(x.fence, next.value);
        forall b | b in c.actors && b != a
          ensures !Clash(c.actors[b], y) && !Clash(y, c.actors[b])
        {
          assert !Clash(c.actors[a], c.actors[b]);
        }
        CommitSafe(c, a, row, y);
        var d := Move(Commit(c, row), a, y);
        assert Step(c, Attempt(a, at)) == d.(starts := c.starts + 1);
        StartsIrrelevant(d, c.starts + 1, d.recoveries, d.calls);
      } else {
        LeaveSafe(c, a);
      }
    }
  }

  /** The counters play no part in the safety invariant. */
  lemma StartsIrrelevant(c: Cell, starts: nat, recoveries: nat, calls: nat)
    requires Safe(c)
    ensures Safe(c.(starts := starts, recoveries := recoveries, calls := calls))
  {
    var d := c.(starts := starts, recoveries := recoveries, calls := calls);
    assert HistoryInv(d);
    forall a <- d.actors
      ensures ActorInv(d, d.actors[a])
    {
      assert ActorInv(c, c.actors[a]);
    }
    assert forall a <- d.actors :: CanWrite(d, d.actors[a]) ==> CanWrite(c, c.actors[a]);
  }

  lemma InvokeSafe(c: Cell, a: nat)
    requires Safe(c)
    ensures Safe(Step(c, Invoke(a))) && Step(c, Invoke(a)).row == c.row
  {
    if a in c.actors && c.actors[a].Starting? {
      assert ActorInv(c, c.actors[a]);
      var x := Executing(c.actors[a].fence, c.actors[a].local);
      KeepFenceSafe(c, a, x);
      StartsIrrelevant(Move(c, a, x), c.starts, c.recoveries, c.calls + 1);
    }
  }

  lemma FinishSafe(c: Cell, a: nat, outcome: Outcome, at: Time)
    requires Safe(c)
    ensures Safe(Step(c, Finish(a, outcome, at)))
    ensures RowEvolves(c.row, Step(c, Finish(a, outcome, at)).row)
  {
    assert WellShaped(c.row);
    if a in c.actors && c.actors[a].Executing? {
      var x := c.actors[a];
      assert ActorInv(c, x);
      match outcome
      case Returned(output) =>
        FinalizeSafe(c, a, Succeed(x.local, output, at), false);
      case Raised(cause) =>
        if x.local.attempt >= x.local.maxAttempts {
          FinalizeSafe(c, a, Fail(x.local, Some(cause), at), true);
        } else {
          KeepFenceSafe(c, a, Looping(x.fence, x.local));
        }
    }
  }

  lemma PublishSafe(c: Cell, a: nat)
    requires Safe(c)
    ensures Safe(Step(c, Publish(a))) && Step(c, Publish(a)).row == c.row
  {
    if a in c.actors && c.actors[a].Publishing? {
      var x := c.actors[a];
      assert ActorInv(c, x);
      var d := Leave(c, a).(events := [x.status]);
      EventSafe(c, a);
      if x.bury {
        MoveSafe(d, a, Burying);
        assert Step(c, Publish(a)).actors == Move(d, a, Burying).actors;
      }
    }
  }

  lemma EventSafe(c: Cell, a: nat)
    requires Safe(c) && a in c.actors && c.actors[a].Publishing?
    ensures Safe(Leave(c, a).(events := [c.actors[a].status]))
  {
    assert ActorInv(c, c.actors[a]);
    LeaveSafe(c, a);
    var d := Leave(c, a).(events := [c.actors[a].status]);
    assert HistoryInv(d);
    forall b <- d.actors
      ensures ActorInv(d, d.actors[b])
    {
      assert !Clash(c.actors[a], c.actors[b]);
      assert ActorInv(c, c.actors[b]);
    }
    assert forall b <- d.actors :: CanWrite(d, d.actors[b]) ==> CanWrite(c, c.actors[b]);
  }

  lemma BurySafe(c: Cell, a: nat)
    requires Safe(c)
    ensures Safe(Step(c, Bury(a))) && Step(c, Bury(a)).row == c.row
  {
    if a in c.actors && c.actors[a].Burying? {
      assert ActorInv(c, c.actors[a]);
      LeaveSafe(c, a);
      var d := Leave(c, a);
      var e := d.(deadLettered := true);
      assert HistoryInv(e);
      assert forall b <- e.actors :: ActorInv(e, e.actors[b]) by {
        assert forall b <- d.actors :: ActorInv(d, d.actors[b]);
      }
      assert forall b <- e.actors :: CanWrite(e, e.actors[b]) ==> CanWrite(d, d.actors[b]);
    }
  }

  lemma CancelSafe(c: Cell, a: nat, at: Time)
    requires Safe(c)
    ensures Safe(Step(c, RequestCancel(a, at)))
    ensures RowEvolves(c.row, Step(c, RequestCancel(a, at)).row)
  {
    assert WellShaped(c.row);
    if a !in c.actors && CancelRow(c.row, at).Ok? {
      var row := CancelRow(c.row, at).value;
      var x := Publishing(Canceled, false);
      forall b | b in c.actors && b != a
        ensures !Clash(c.actors[b], x) && !Clash(x, c.actors[b])
      {
        assert ActorInv(c, c.actors[b]);
      }
      CommitSafe(c, a, row, x);
    }
  }

  lemma RecoverSafe(c: Cell, token: int)
    requires Safe(c)
    ensures Safe(Step(c, Recover(token)))
    ensures RowEvolves(c.row, Step(c, Recover(token)).row)
  {
    assert WellShaped(c.row);
    if c.row.status.Running? {
      var d := Commit(c, Requeue(c.row)).(fence := NextFence(c.fence, token));
      assert HistoryInv(d);
      forall b <- d.actors
        ensures ActorInv(d, d.actors[b])
      {
        assert ActorInv(c, c.actors[b]);
      }
      assert Safe(d);
      StartsIrrelevant(d, d.starts, c.recoveries + 1, d.calls);
    }
  }

  /** While the row is not terminal nobody has a terminal event to publish. */
  lemma NonePublishing(c: Cell, a: nat)
    requires Safe(c) && !Terminal(c.row.status)
    ensures forall b | b in c.actors && b != a ::
              !Clash(c.actors[b], Publishing(Failed, false)) && !Clash(Publishing(Failed, false), c.actors[b])
  {
    forall b | b in c.actors && b != a
      ensures !c.actors[b].Publishing?
    {
      assert ActorInv(c, c.actors[b]);
    }
  }

  lemma SubmitFailureSafe(c: Cell, a: nat, cause: string, publishes: bool, at: Time)
    requires Safe(c)
    ensures Safe(Step(c, EnqueueFails(a, cause, publishes, at)))
    ensures RowEvolves(c.row, Step(c, EnqueueFails(a, cause, publishes, at)).row)
  {
    assert WellShaped(c.row);
    if a in c.actors && c.actors[a].Submitting? {
      var x := c.actors[a];
      assert ActorInv(c, x);
      var failed := Fail(x.local, Some(cause), at);
      if failed.Ok? && PlainWrite(c.row, c.fence, failed.value).Ok? {
        assert CanWrite(c, x) && !Terminal(c.row.status);
        var row := WithLineageOf(failed.value, c.row);
        SoleWriter(c, a);
        NonePublishing(c, a);
        CommitSafe(c, a, row, Publishing(Failed, false));
        if !publishes {
          LeaveSafe(Move(Commit(c, row), a, Publishing(Failed, false)), a);
          assert Step(c, EnqueueFails(a, cause, publishes, at)).actors
              == Leave(Move(Commit(c, row), a, Publishing(Failed, false)), a).actors;
        }
      } else {
        LeaveSafe(c, a);
      }
    }
  }

  lemma StepSafe(c: Cell, act: Action)
    requires Safe(c)
    ensures Safe(Step(c, act)) && RowEvolves(c.row, Step(c, act).row)
  {
    assert WellShaped(c.row);
    match act
    case Deliver(a) =>
      if a !in c.actors {
        MoveSafe(c, a, Fetching);
      }
    case Fetch(a, seen) => FetchSafe(c, a, seen);
    case ClaimExecution(a, token) => ClaimSafe(c, a, token);
    case Reload(a, seen) => ReloadSafe(c, a, seen);
    case Resolve(a, missing, policy, at) => ResolveSafe(c, a, missing, policy, at);
    case Attempt(a, at) => AttemptSafe(c, a, at);
    case Invoke(a) => InvokeSafe(c, a);
    case Finish(a, outcome, at) => FinishSafe(c, a, outcome, at);
    case Publish(a) => PublishSafe(c, a);
    case Bury(a) => BurySafe(c, a);
    case Crash(a) => LeaveSafe(c, a);
    case RequestCancel(a, at) => CancelSafe(c, a, at);
    case Recover(token) => RecoverSafe(c, token);
    case EnqueueFails(a, cause, publishes, at) => SubmitFailureSafe(c, a, cause, publishes, at);
  }

  lemma {:induction false} ExecSafe(c: Cell, acts: seq<Action>)
    requires Safe(c)
    ensures Safe(Exec(c, acts)) && RowEvolves(c.row, Exec(c, acts).row)
    decreases |acts|
  {
    assert WellShaped(c.row);
    if acts == [] {
    } else {
      StepSafe(c, acts[0]);
      ExecSafe(Step(c, acts[0]), acts[1..]);
    }
  }

  lemma {:induction false} ExecAppend(c: Cell, first: seq<Action>, second: seq<Action>)
    ensures Exec(c, first + second) == Exec(Exec(c, first), second)
    decreases |first|
  {
    if first == [] {
      assert first + second == second;
    } else {
      assert (first + second)[1..] == first[1..] + second;
      ExecAppend(Step(c, first[0]), first[1..], second);
    }
  }

  lemma NewCellSafe(r: Run, submitter: Option<nat>)
    requires FreshRun(r)
    ensures Safe(NewCell(r, submitter))
  {
  }

  // ----- what the protocol promises ----------------------------------------------------------

  /** Terminal absorption. After any actions of any participants, with reads that may return any
      earlier value of the row, a run found succeeded, failed or canceled keeps its whole row
      through every continuation. */
  lemma TerminalRunsNeverChange(r: Run, submitter: Option<nat>, first: seq<Action>, second: seq<Action>)
    requires FreshRun(r)
    requires Terminal(Exec(NewCell(r, submitter), first).row.status)
    ensures Exec(NewCell(r, submitter), first + second).row == Exec(NewCell(r, submitter), first).row
  {
    NewCellSafe(r, submitter);
    ExecSafe(NewCell(r, submitter), first);
    ExecSafe(Exec(NewCell(r, submitter), first), second);
    ExecAppend(NewCell(r, submitter), first, second);
  }

  /** A run keeps the identity it was created with, and its stored record stays well shaped. */
  lemma RowsKeepIdentityAndShape(r: Run, submitter: Option<nat>, acts: seq<Action>)
    requires FreshRun(r)
    ensures SameIdentity(r, Exec(NewCell(r, submitter), acts).row)
    ensures WellShaped(Exec(NewCell(r, submitter), acts).row)
  {
    NewCellSafe(r, submitter);
    ExecSafe(NewCell(r, submitter), acts);
  }

  /** At most one terminal lifecycle event is published for a run, it names the status the row
      has for ever after, and a dead-lettered run is failed for ever after. */
  lemma OneTerminalEvent(r: Run, submitter: Option<nat>, first: seq<Action>, second: seq<Action>)
    requires FreshRun(r)
    ensures var c := Exec(NewCell(r, submitter), first);
            var d := Exec(NewCell(r, submitter), first + second);
            && |c.events| <= 1
            && (|c.events| == 1 ==> Terminal(c.row.status) && d.events == c.events && d.row == c.row && d.row.status == c.events[0])
            && (c.deadLettered ==> d.row == c.row && d.row.status.Failed?)
  {
    var c0 := NewCell(r, submitter);
    NewCellSafe(r, submitter);
    ExecSafe(c0, first);
    ExecSafe(Exec(c0, first), second);
    EventsGrow(Exec(c0, first), second);
    ExecAppend(c0, first, second);
  }

  lemma {:induction false} EventsGrow(c: Cell, acts: seq<Action>)
    ensures c.events <= Exec(c, acts).events
    decreases |acts|
  {
    if acts == [] {
    } else {
      assert c.events <= Step(c, acts[0]).events;
      EventsGrow(Step(c, acts[0]), acts[1..]);
    }
  }

  /** A participant's fenced or plain write is accepted; cancellations and recoveries need no fence. */
  predicate Writes(c: Cell, act: Action) {
    !act.RequestCancel? && !act.Recover? && Step(c, act).history != c.history
  }

  lemma FinalizeCommits(c: Cell, a: nat, held: int, run: Result<Run, RunError>, bury: bool)
    ensures var d := Finalize(c, a, held, run, bury);
            if d.history != c.history then held == c.fence else d.row == c.row
  {
    assert forall row: Run :: c.history + [row] != c.history;
  }

  lemma StartCommits(c: Cell, a: nat, at: Time)
    requires a in c.actors && c.actors[a].Looping?
    ensures var d := StartAttempt(c, a, at);
            if d.history != c.history then c.actors[a].fence == c.fence else d.row == c.row
  {
    assert forall row: Run :: c.history + [row] != c.history;
  }

  lemma SubmitCommits(c: Cell, a: nat, cause: string, publishes: bool, at: Time)
    requires a in c.actors && c.actors[a].Submitting?
    ensures var d := SubmitFailure(c, a, cause, publishes, at);
            if d.history != c.history then c.fence == 0 else d.row == c.row
  {
    assert forall row: Run :: c.history + [row] != c.history;
  }

  /** The row changes only by a cancellation, by a recovery, or by a participant entitled to write. */
  lemma WriterCanWrite(c: Cell, act: Action)
    ensures Writes(c, act) ==> act.a in c.actors && CanWrite(c, c.actors[act.a])
    ensures Step(c, act).row != c.row ==> act.RequestCancel? || act.Recover? || Writes(c, act)
  {
    match act
    case Resolve(a, missing, _, at) =>
      if a in c.actors && c.actors[a].Loaded? {
        FinalizeCommits(c, a, c.actors[a].fence, Fail(c.actors[a].local, missing, at), true);
      }
    case Attempt(a, at) =>
      if a in c.actors && c.actors[a].Looping? {
        StartCommits(c, a, at);
      }
    case Finish(a, outcome, at) =>
      if a in c.actors && c.actors[a].Executing? {
        FinishCommits(c, a, outcome, at);
      }
    case EnqueueFails(a, cause, publishes, at) =>
      if a in c.actors && c.actors[a].Submitting? {
        SubmitCommits(c, a, cause, publishes, at);
      }
    case _ =>
  }

  lemma FinishCommits(c: Cell, a: nat, outcome: Outcome, at: Time)
    requires a in c.actors && c.actors[a].Executing?
    ensures var d := FinishAttempt(c, a, outcome, at);
            if d.history != c.history then c.actors[a].fence == c.fence else d.row == c.row
  {
    var x := c.actors[a];
    match outcome
    case Returned(output) => FinalizeCommits(c, a, x.fence, Succeed(x.local, output, at), false);
    case Raised(cause) => FinalizeCommits(c, a, x.fence, Fail(x.local, Some(cause), at), true);
  }

  /** The latest claim or recovery wins: in every history at most one participant is entitled to write the
      row, and every accepted write of a participant is its. */
  lemma SingleWriter(r: Run, submitter: Option<nat>, acts: seq<Action>, act: Action, a: nat, b: nat)
    requires FreshRun(r)
    ensures var c := Exec(NewCell(r, submitter), acts);
            && (a in c.actors && b in c.actors && CanWrite(c, c.actors[a]) && CanWrite(c, c.actors[b]) ==> a == b)
            && (Writes(c, act) ==> act.a in c.actors && CanWrite(c, c.actors[act.a]))
            && (Step(c, act).row != c.row ==> act.RequestCancel? || act.Recover? || Writes(c, act))
  {
    NewCellSafe(r, submitter);
    ExecSafe(NewCell(r, submitter), acts);
    var c := Exec(NewCell(r, submitter), acts);
    WriterCanWrite(c, act);
    if a != b && a in c.actors && CanWrite(c, c.actors[a]) {
      SoleWriter(c, a);
    }
  }

  /** `act` is a claim that the store grants; the granted fence is then the stored one. */
  predicate Grants(c: Cell, act: Action) {
    && act.ClaimExecution? && act.a in c.actors && c.actors[act.a].Leasing?
    && Claim(c.row, c.fence, act.token).Ok?
  }

  lemma {:induction false} FenceNeverFalls(c: Cell, acts: seq<Action>)
    ensures c.fence <= Exec(c, acts).fence
    decreases |acts|
  {
    if acts == [] {
    } else {
      assert c.fence <= Step(c, acts[0]).fence;
      FenceNeverFalls(Step(c, acts[0]), acts[1..]);
    }
  }

  /** Fences handed out by successive claims strictly increase, whatever lease tokens they carry
      and whatever happens in between; the token is always respected as a minimum. */
  lemma ClaimsStrictlyIncrease(c: Cell, early: Action, between: seq<Action>, late: Action)
    requires Grants(c, early) && Grants(Exec(Step(c, early), between), late)
    ensures var d := Exec(Step(c, early), between);
            && Step(c, early).actors[early.a] == Claimed(Step(c, early).fence)
            && Step(d, late).actors[late.a] == Claimed(Step(d, late).fence)
            && c.fence < Step(c, early).fence < Step(d, late).fence
            && early.token <= Step(c, early).fence && late.token <= Step(d, late).fence
  {
    FenceNeverFalls(Step(c, early), between);
  }
}
