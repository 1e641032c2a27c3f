/** What fenced execution promises when no worker reloads a stale row after its claim: the fence
    holder's copy is the stored row, and attempts are accounted for exactly. */
module ExecutionLedger {
  import opened Basics
  import opened Runs
  import opened RunStore
  import opened Execution

  /** A reload after a claim returns the present row; the first read may return any earlier one. Every
      engine has a valid policy. */
  predicate Current(c: Cell, act: Action) {
    && (act.Reload? ==> act.seen == c.row)
    && (act.Resolve? ==> act.policy >= 1)
  }

  predicate FreshReloads(c: Cell, acts: seq<Action>)
    decreases |acts|
  {
    acts == [] || (Current(c, acts[0]) && FreshReloads(Step(c, acts[0]), acts[1..]))
  }

  /** The copy a participant last loaded or wrote agrees with the row; while it loops, the attempt
      limit taken from the policy may still be missing from the row. */
  predicate InStep(row: Run, x: Actor) {
    && (x.Loaded? || x.Starting? || x.Executing? ==> x.local == row)
    && (x.Starting? || x.Executing? ==> row.maxAttempts >= 1)
    && (x.Looping? ==> x.local.maxAttempts >= 1 && x.local == row.(maxAttempts := x.local.maxAttempts)
                       && (row.maxAttempts >= 1 ==> x.local == row))
  }

  ghost predicate Synced(c: Cell) {
    forall a <- c.actors :: Holds(c.actors[a]) && c.actors[a].fence == c.fence && !c.row.status.Canceled?
                            ==> InStep(c.row, c.actors[a])
  }

  function PendingCalls(c: Cell): set<nat> {
    set a | a in c.actors && c.actors[a].Starting?
  }

  predicate Ledger(c: Cell) {
    && c.row.attempt == c.starts - c.recoveries
    && 0 <= c.row.attempt
    && (c.row.maxAttempts >= 1 ==> c.row.attempt <= c.row.maxAttempts)
    && (c.row.maxAttempts < 1 ==> c.row.attempt == 0)
    && c.calls + |PendingCalls(c)| <= c.starts
  }

  ghost predicate Accounted(c: Cell) {
    Safe(c) && Synced(c) && Ledger(c)
  }

  /** Moving or removing one participant changes the set of pending calls by at most that one. */
  lemma PendingAfterMove(c: Cell, a: nat, x: Actor)
    ensures PendingCalls(Move(c, a, x)) == if x.Starting? then PendingCalls(c) + {a} else PendingCalls(c) - {a}
    ensures PendingCalls(Leave(c, a)) == PendingCalls(c) - {a}
  {
  }

  lemma LeaveAccounted(c: Cell, a: nat)
    requires Accounted(c)
    ensures Synced(Leave(c, a)) && Ledger(Leave(c, a))
  {
    PendingAfterMove(c, a, Fetching);
    var d := Leave(c, a);
    forall b <- d.actors | Holds(d.actors[b]) && d.actors[b].fence == d.fence && !d.row.status.Canceled?
      ensures InStep(d.row, d.actors[b])
    {
      assert c.actors[b] == d.actors[b];
    }
  }

  lemma MoveAccounted(c: Cell, a: nat, x: Actor)
    requires Synced(c) && Ledger(c) && !x.Starting?
    requires Holds(x) && x.fence == c.fence && !c.row.status.Canceled? ==> InStep(c.row, x)
    ensures Synced(Move(c, a, x)) && Ledger(Move(c, a, x))
  {
    PendingAfterMove(c, a, x);
    var d := Move(c, a, x);
    forall b <- d.actors | Holds(d.actors[b]) && d.actors[b].fence == d.fence && !d.row.status.Canceled?
      ensures InStep(d.row, d.actors[b])
    {
      assert b == a || c.actors[b] == d.actors[b];
    }
  }

  /** A terminal commit: nobody left can write, or the row is canceled. */
  lemma TerminalCommitAccounted(c: Cell, row: Run)
    requires Synced(c) && Ledger(c)
    requires row.attempt == c.row.attempt && row.maxAttempts == c.row.maxAttempts
    requires row.status.Canceled? || forall a <- c.actors :: Holds(c.actors[a]) ==> c.actors[a].fence != c.fence
    ensures Synced(Commit(c, row)) && Ledger(Commit(c, row))
  {
    assert PendingCalls(Commit(c, row)) == PendingCalls(c);
  }

  lemma OthersOutdated(c: Cell, a: nat)
    requires Safe(c) && a in c.actors && Holds(c.actors[a]) && c.actors[a].fence == c.fence
    ensures forall b | b in c.actors && b != a :: Holds(c.actors[b]) ==> c.actors[b].fence != c.fence
  {
    SoleWriter(c, a);
    forall b | b in c.actors && b != a
      ensures Holds(c.actors[b]) ==> c.actors[b].fence != c.fence
    {
      assert !CanWrite(c, c.actors[b]);
    }
  }

  lemma FinalizeAccounted(c: Cell, a: nat, run: Result<Run, RunError>, bury: bool)
    requires Accounted(c) && a in c.actors && Holds(c.actors[a])
    requires run.Ok? && c.actors[a].fence == c.fence && !c.row.status.Canceled? ==>
               run.value.attempt == c.row.attempt && run.value.maxAttempts == c.row.maxAttempts
    ensures Synced(Finalize(c, a, c.actors[a].fence, run, bury)) && Ledger(Finalize(c, a, c.actors[a].fence, run, bury))
  {
    LeaveAccounted(c, a);
    var held := c.actors[a].fence;
    if run.Ok? && FencedWrite(c.row, c.fence, run.value, held).Ok? {
      var row := WithLineageOf(run.value, c.row);
      OthersOutdated(c, a);
      var d := Leave(c, a);
      TerminalCommitAccounted(d, row);
      MoveAccounted(Commit(d, row), a, Publishing(row.status, bury));
      assert Finalize(c, a, held, run, bury).actors == Move(Commit(d, row), a, Publishing(row.status, bury)).actors;
    }
  }

  lemma ClaimAccounted(c: Cell, a: nat, token: int)
    requires Accounted(c)
    ensures var d := Step(c, ClaimExecution(a, token)); Synced(d) && Ledger(d)
  {
    LeaveAccounted(c, a);
    if a in c.actors && c.actors[a].Leasing? && Claim(c.row, c.fence, token).Ok? {
      var d := c.(fence := NextFence(c.fence, token));
      forall b <- d.actors
        ensures Holds(d.actors[b]) ==> d.actors[b].fence != d.fence
      {
        assert ActorInv(c, c.actors[b]);
      }
      assert PendingCalls(d) == PendingCalls(c);
      MoveAccounted(d, a, Claimed(d.fence));
    }
  }

  lemma AttemptAccounted(c: Cell, a: nat, at: Time)
    requires Accounted(c)
    ensures var d := Step(c, Attempt(a, at)); Synced(d) && Ledger(d)
  {
    LeaveAccounted(c, a);
    if a in c.actors && c.actors[a].Looping? {
      var x := c.actors[a];
      var next := NextAttempt(x.local, at);
      if next.Ok? && FencedWrite(c.row, c.fence, next.value, x.fence).Ok? {
        assert InStep(c.row, x);
        OthersOutdated(c, a);
        StartedAccounted(c, a, next.value);
      }
    }
  }

  /** The state after an accepted attempt-start write of `run`. */
  lemma StartedAccounted(c: Cell, a: nat, run: Run)
    requires Synced(c) && Ledger(c) && a in c.actors && c.actors[a].Looping?
    requires forall b | b in c.actors && b != a :: Holds(c.actors[b]) ==> c.actors[b].fence != c.fence
    requires WithLineageOf(run, c.row) == run && run.attempt == c.row.attempt + 1
    requires 1 <= run.attempt <= run.maxAttempts
    ensures var d := Move(Commit(c, run), a, Starting(c.actors[a].fence, run)).(starts := c.starts + 1);
            Synced(d) && Ledger(d)
  {
    var d := Move(Commit(c, run), a, Starting(c.actors[a].fence, run)).(starts := c.starts + 1);
    assert PendingCalls(d) == PendingCalls(c) + {a};
    assert forall b | b in d.actors && b != a :: d.actors[b] == c.actors[b];
  }

  lemma InvokeAccounted(c: Cell, a: nat)
    requires Accounted(c)
    ensures var d := Step(c, Invoke(a)); Synced(d) && Ledger(d)
  {
    if a in c.actors && c.actors[a].Starting? {
      var x := Executing(c.actors[a].fence, c.actors[a].local);
      MoveAccounted(c, a, x);
      var d := Step(c, Invoke(a));
      assert a in PendingCalls(c);
      assert PendingCalls(d) == PendingCalls(c) - {a};
      assert forall b <- d.actors :: d.actors[b] == Move(c, a, x).actors[b];
    }
  }

  lemma RecoverAccounted(c: Cell, token: int)
    requires Accounted(c)
    ensures var d := Step(c, Recover(token)); Synced(d) && Ledger(d)
  {
    assert WellShaped(c.row);
    if c.row.status.Running? {
      var d := Step(c, Recover(token));
      assert PendingCalls(d) == PendingCalls(c);
      forall b <- d.actors
        ensures Holds(d.actors[b]) ==> d.actors[b].fence != d.fence
      {
        assert ActorInv(c, c.actors[b]);
      }
    }
  }

  lemma SubmitFailureAccounted(c: Cell, a: nat, cause: string, publishes: bool, at: Time)
    requires Accounted(c)
    requires a in c.actors && c.actors[a].Submitting? && c.fence == 0 && !c.row.status.Canceled?
             ==> c.actors[a].local == c.row
    ensures var d := Step(c, EnqueueFails(a, cause, publishes, at)); Synced(d) && Ledger(d)
  {
    LeaveAccounted(c, a);
    if a in c.actors && c.actors[a].Submitting? {
      var x := c.actors[a];
      var failed := Fail(x.local, Some(cause), at);
      if failed.Ok? && PlainWrite(c.row, c.fence, failed.value).Ok? {
        var row := WithLineageOf(failed.value, c.row);
        var d := Leave(c, a);
        NoHolderWithoutFence(c);
        TerminalCommitAccounted(d, row);
        var e := Commit(d, row);
        MoveAccounted(e, a, Publishing(Failed, false));
        var s := Step(c, EnqueueFails(a, cause, publishes, at));
        assert s.actors == if publishes then Move(e, a, Publishing(Failed, false)).actors else e.actors;
      }
    }
  }

  /** Until a claim or a recovery sets the fence, the row is the one that was submitted. */
  ghost predicate Untouched(c: Cell) {
    forall a <- c.actors :: c.actors[a].Submitting? && c.fence == 0 && !c.row.status.Canceled?
                            ==> c.actors[a].local == c.row
  }

  lemma StepUntouched(c: Cell, act: Action)
    requires Safe(c) && Untouched(c)
    ensures Untouched(Step(c, act))
  {
    var d := Step(c, act);
    forall b <- d.actors | d.actors[b].Submitting? && d.fence == 0 && !d.row.status.Canceled?
      ensures d.actors[b].local == d.row
    {
      SubmitterStays(c, act, b);
      FenceStaysSet(c, act);
      SubmitterAlone(c, act, b);
    }
  }

  /** No step makes a participant a submitter. */
  lemma SubmitterStays(c: Cell, act: Action, b: nat)
    requires b in Step(c, act).actors && Step(c, act).actors[b].Submitting?
    ensures b in c.actors && c.actors[b] == Step(c, act).actors[b]
  {
    if act.Resolve? || act.Attempt? || act.Finish? || act.EnqueueFails? {
      WriterNotSubmitting(c, act, b);
    }
  }

  lemma WriterNotSubmitting(c: Cell, act: Action, b: nat)
    requires act.Resolve? || act.Attempt? || act.Finish? || act.EnqueueFails?
    requires b in Step(c, act).actors && Step(c, act).actors[b].Submitting?
    ensures b in c.actors && c.actors[b] == Step(c, act).actors[b]
  {
  }

  lemma FenceStaysSet(c: Cell, act: Action)
    requires c.fence >= 0 && Step(c, act).fence == 0
    ensures c.fence == 0
  {
  }

  lemma NoHolderWithoutFence(c: Cell)
    requires Safe(c) && c.fence == 0
    ensures forall a <- c.actors :: !Holds(c.actors[a])
  {
    forall a <- c.actors
      ensures !Holds(c.actors[a])
    {
      assert ActorInv(c, c.actors[a]);
    }
  }

  /** With no fence set, the only step that changes the row and leaves another submitter in place
      would be a second submitter's, and there is none. */
  lemma SubmitterAlone(c: Cell, act: Action, b: nat)
    requires Safe(c) && c.fence == 0
    requires b in c.actors && c.actors[b].Submitting?
    requires b in Step(c, act).actors && Step(c, act).actors[b].Submitting?
    requires Step(c, act).fence == 0 && !Step(c, act).row.status.Canceled?
    ensures Step(c, act).row == c.row
  {
    NoHolderWithoutFence(c);
    if act.EnqueueFails? && act.a in c.actors && act.a != b {
      assert !Clash(c.actors[act.a], c.actors[b]);
    }
  }

  lemma ReadAccounted(c: Cell, act: Action)
    requires Accounted(c) && Current(c, act) && (act.Deliver? || act.Fetch? || act.Reload?)
    ensures var d := Step(c, act); Synced(d) && Ledger(d)
  {
    LeaveAccounted(c, act.a);
    match act
    case Deliver(a) =>
      MoveAccounted(c, a, Fetching);
    case Fetch(a, seen) =>
      MoveAccounted(c, a, Burying);
      MoveAccounted(c, a, Leasing);
    case Reload(a, seen) =>
      if a in c.actors && c.actors[a].Claimed? {
        MoveAccounted(c, a, Loaded(c.actors[a].fence, seen));
      }
  }

  lemma ResolveAccounted(c: Cell, a: nat, missing: Option<string>, policy: int, at: Time)
    requires Accounted(c) && policy >= 1
    ensures var d := Step(c, Resolve(a, missing, policy, at)); Synced(d) && Ledger(d)
  {
    if a in c.actors && c.actors[a].Loaded? {
      var x := c.actors[a];
      if missing.Some? {
        FinalizeAccounted(c, a, Fail(x.local, missing, at), true);
      } else {
        MoveAccounted(c, a, Looping(x.fence, WithLimit(x.local, policy)));
      }
    }
  }

  lemma FinishAccounted(c: Cell, a: nat, outcome: Outcome, at: Time)
    requires Accounted(c)
    ensures var d := Step(c, Finish(a, outcome, at)); Synced(d) && Ledger(d)
  {
    if a in c.actors && c.actors[a].Executing? {
      var x := c.actors[a];
      match outcome {
        case Returned(output) => FinalizeAccounted(c, a, Succeed(x.local, output, at), false);
        case Raised(cause) =>
          if x.local.attempt >= x.local.maxAttempts {
            FinalizeAccounted(c, a, Fail(x.local, Some(cause), at), true);
          } else {
            MoveAccounted(c, a, Looping(x.fence, x.local));
          }
      }
    }
  }

  /** Publishing, dead-lettering and cancelling. */
  lemma AnnounceAccounted(c: Cell, act: Action)
    requires Accounted(c) && (act.Publish? || act.Bury? || act.RequestCancel?)
    ensures var d := Step(c, act); Synced(d) && Ledger(d)
  {
    var a := act.a;
    LeaveAccounted(c, a);
    match act
    case Publish(_) =>
      if a in c.actors && c.actors[a].Publishing? {
        var d := c.(events := c.events + [c.actors[a].status]);
        assert PendingCalls(d) == PendingCalls(c);
        assert PendingCalls(Leave(d, a)) == PendingCalls(Leave(c, a));
        MoveAccounted(d, a, Burying);
      }
    case Bury(_) =>
      assert PendingCalls(Leave(c, a).(deadLettered := true)) == PendingCalls(Leave(c, a));
    case RequestCancel(_, at) =>
      if a !in c.actors && CancelRow(c.row, at).Ok? {
        var row := CancelRow(c.row, at).value;
        TerminalCommitAccounted(c, row);
        MoveAccounted(Commit(c, row), a, Publishing(Canceled, false));
      }
  }

  lemma StepAccounted(c: Cell, act: Action)
    requires Accounted(c) && Untouched(c) && Current(c, act)
    ensures Accounted(Step(c, act)) && Untouched(Step(c, act))
  {
    StepSafe(c, act);
    StepUntouched(c, act);
    match act
    case Deliver(_) => ReadAccounted(c, act);
    case Fetch(_, _) => ReadAccounted(c, act);
    case Reload(_, _) => ReadAccounted(c, act);
    case ClaimExecution(a, token) => ClaimAccounted(c, a, token);
    case Resolve(a, missing, policy, at) => ResolveAccounted(c, a, missing, policy, at);
    case Attempt(a, at) => AttemptAccounted(c, a, at);
    case Invoke(a) => InvokeAccounted(c, a);
    case Finish(a, outcome, at) => FinishAccounted(c, a, outcome, at);
    case Publish(_) => AnnounceAccounted(c, act);
    case Bury(_) => AnnounceAccounted(c, act);
    case RequestCancel(_, _) => AnnounceAccounted(c, act);
    case Crash(a) => LeaveAccounted(c, a);
    case Recover(token) => RecoverAccounted(c, token);
    case EnqueueFails(a, cause, publishes, at) => SubmitFailureAccounted(c, a, cause, publishes, at);
  }

  lemma {:induction false} ExecAccounted(c: Cell, acts: seq<Action>)
    requires Accounted(c) && Untouched(c) && FreshReloads(c, acts)
    ensures Accounted(Exec(c, acts))
    decreases |acts|
  {
    if acts == [] {
    } else {
      StepAccounted(c, acts[0]);
      ExecAccounted(Step(c, acts[0]), acts[1..]);
    }
  }

  /** Snapshot agreement: in the uncached store the holder of the current fence works on a copy
      equal to the stored row, unless the row was canceled under it. */
  lemma HolderCopyIsStoredRow(r: Run, submitter: Option<nat>, acts: seq<Action>, a: nat)
    requires FreshRun(r) && FreshReloads(NewCell(r, submitter), acts)
    requires var c := Exec(NewCell(r, submitter), acts);
             a in c.actors && Holds(c.actors[a]) && c.actors[a].fence == c.fence
    ensures var c := Exec(NewCell(r, submitter), acts);
            c.row.status.Canceled? || InStep(c.row, c.actors[a])
  {
    NewCellSafe(r, submitter);
    ExecAccounted(NewCell(r, submitter), acts);
  }

  /** Attempt ledger: the stored attempt number is accepted attempt starts minus recoveries, stays
      within the limit once there is one, and the runtime is called at most limit plus recoveries
      times. */
  lemma AttemptLedger(r: Run, submitter: Option<nat>, acts: seq<Action>)
    requires FreshRun(r) && FreshReloads(NewCell(r, submitter), acts)
    ensures var c := Exec(NewCell(r, submitter), acts);
            && c.row.attempt == c.starts - c.recoveries
            && 0 <= c.row.attempt
            && (c.row.maxAttempts >= 1 ==> c.row.attempt <= c.row.maxAttempts && c.calls <= c.row.maxAttempts + c.recoveries)
            && (c.row.maxAttempts < 1 ==> c.calls <= c.recoveries)
            && (c.row.status.Running? ==> c.row.attempt >= 1)
  {
    NewCellSafe(r, submitter);
    ExecAccounted(NewCell(r, submitter), acts);
    var c := Exec(NewCell(r, submitter), acts);
    assert WellShaped(c.row);
  }

  // ----- what the counters count -----------------------------------------------------------------------

  /** How often, in a history, an attempt start is accepted, */
  function Starts(c: Cell, acts: seq<Action>): nat
    decreases |acts|
  {
    if acts == [] then 0 else (if acts[0].Attempt? && Writes(c, acts[0]) then 1 else 0) + Starts(Step(c, acts[0]), acts[1..])
  }

  /** ... a running row is recovered, */
  function Recoveries(c: Cell, acts: seq<Action>): nat
    decreases |acts|
  {
    if acts == [] then 0 else (if acts[0].Recover? && c.row.status.Running? then 1 else 0) + Recoveries(Step(c, acts[0]), acts[1..])
  }

  predicate Calls(c: Cell, act: Action) {
    act.Invoke? && act.a in c.actors && c.actors[act.a].Starting?
  }

  /** ... and the runtime is called. */
  function RuntimeCalls(c: Cell, acts: seq<Action>): nat
    decreases |acts|
  {
    if acts == [] then 0 else (if Calls(c, acts[0]) then 1 else 0) + RuntimeCalls(Step(c, acts[0]), acts[1..])
  }

  lemma StepCounts(c: Cell, act: Action)
    ensures Step(c, act).starts == c.starts + if act.Attempt? && Writes(c, act) then 1 else 0
    ensures Step(c, act).recoveries == c.recoveries + if act.Recover? && c.row.status.Running? then 1 else 0
    ensures Step(c, act).calls == c.calls + if Calls(c, act) then 1 else 0
  {
    assert forall row: Run :: c.history + [row] != c.history;
  }

  /** The counters of the ledger are these numbers. */
  lemma {:induction false} CountersAreTotals(c: Cell, acts: seq<Action>)
    ensures Exec(c, acts).starts == c.starts + Starts(c, acts)
    ensures Exec(c, acts).recoveries == c.recoveries + Recoveries(c, acts)
    ensures Exec(c, acts).calls == c.calls + RuntimeCalls(c, acts)
    decreases |acts|
  {
    if acts == [] {
    } else {
      StepCounts(c, acts[0]);
      CountersAreTotals(Step(c, acts[0]), acts[1..]);
    }
  }

  // ----- what holds with any stale reads ---------------------------------------------------------------

  /** The attempt number is within the limit; a record without a limit has made no attempt. */
  predicate Limited(r: Run) {
    (r.maxAttempts >= 1 ==> r.attempt <= r.maxAttempts) && (r.maxAttempts < 1 ==> r.attempt == 0)
  }

  predicate CopyLimited(x: Actor) {
    && (x.Loaded? || x.Looping? || x.Starting? || x.Executing? || x.Submitting? ==> Limited(x.local))
    && (x.Looping? || x.Starting? || x.Executing? ==> x.local.maxAttempts >= 1)
  }

  ghost predicate WithinLimits(c: Cell) {
    && Limited(c.row)
    && (forall h <- c.history :: Limited(h))
    && (forall a <- c.actors :: CopyLimited(c.actors[a]))
  }

  lemma FinalizeWithinLimits(c: Cell, a: nat, held: int, run: Result<Run, RunError>, bury: bool)
    requires WithinLimits(c) && (run.Ok? ==> Limited(run.value))
    ensures WithinLimits(Finalize(c, a, held, run, bury))
  {
  }

  lemma StartWithinLimits(c: Cell, a: nat, at: Time)
    requires WithinLimits(c) && a in c.actors && c.actors[a].Looping?
    ensures WithinLimits(StartAttempt(c, a, at))
  {
    assert CopyLimited(c.actors[a]);
  }

  lemma FinishWithinLimits(c: Cell, a: nat, outcome: Outcome, at: Time)
    requires WithinLimits(c) && a in c.actors && c.actors[a].Executing?
    ensures WithinLimits(FinishAttempt(c, a, outcome, at))
  {
    var x := c.actors[a];
    assert CopyLimited(x);
    match outcome
    case Returned(output) => FinalizeWithinLimits(c, a, x.fence, Succeed(x.local, output, at), false);
    case Raised(cause) => FinalizeWithinLimits(c, a, x.fence, Fail(x.local, Some(cause), at), true);
  }

  lemma SubmitWithinLimits(c: Cell, a: nat, cause: string, publishes: bool, at: Time)
    requires WithinLimits(c) && a in c.actors && c.actors[a].Submitting?
    ensures WithinLimits(SubmitFailure(c, a, cause, publishes, at))
  {
    assert CopyLimited(c.actors[a]);
  }

  lemma ResolveWithinLimits(c: Cell, a: nat, missing: Option<string>, policy: int, at: Time)
    requires WithinLimits(c) && policy >= 1
    ensures WithinLimits(Step(c, Resolve(a, missing, policy, at)))
  {
    if a in c.actors && c.actors[a].Loaded? {
      assert CopyLimited(c.actors[a]);
      FinalizeWithinLimits(c, a, c.actors[a].fence, Fail(c.actors[a].local, missing, at), true);
    }
  }

  lemma CommitWithinLimits(c: Cell, row: Run)
    requires WithinLimits(c) && Limited(row)
    ensures WithinLimits(Commit(c, row))
  {
  }

  lemma CancelWithinLimits(c: Cell, a: nat, at: Time)
    requires WithinLimits(c)
    ensures WithinLimits(Step(c, RequestCancel(a, at)))
  {
    if a !in c.actors && CancelRow(c.row, at).Ok? {
      CommitWithinLimits(c, CancelRow(c.row, at).value);
    }
  }

  lemma RecoverWithinLimits(c: Cell, token: int)
    requires WellShaped(c.row) && WithinLimits(c)
    ensures WithinLimits(Step(c, Recover(token)))
  {
    if c.row.status.Running? {
      CommitWithinLimits(c, Requeue(c.row));
    }
  }

  /** Reads, claims, runtime calls, announcements and crashes leave the row alone. */
  lemma OthersWithinLimits(c: Cell, act: Action)
    requires WithinLimits(c) && !act.Resolve? && !act.Attempt? && !act.Finish? && !act.EnqueueFails?
    requires !act.RequestCancel? && !act.Recover?
    ensures WithinLimits(Step(c, act))
  {
  }

  lemma StepWithinLimits(c: Cell, act: Action)
    requires WellShaped(c.row) && WithinLimits(c) && (act.Resolve? ==> act.policy >= 1)
    ensures WithinLimits(Step(c, act))
  {
    match act
    case Resolve(a, missing, policy, at) => ResolveWithinLimits(c, a, missing, policy, at);
    case Attempt(a, at) =>
      if a in c.actors && c.actors[a].Looping? {
        StartWithinLimits(c, a, at);
      }
    case Finish(a, outcome, at) =>
      if a in c.actors && c.actors[a].Executing? {
        FinishWithinLimits(c, a, outcome, at);
      }
    case EnqueueFails(a, cause, publishes, at) =>
      if a in c.actors && c.actors[a].Submitting? {
        SubmitWithinLimits(c, a, cause, publishes, at);
      }
    case RequestCancel(a, at) => CancelWithinLimits(c, a, at);
    case Recover(token) => RecoverWithinLimits(c, token);
    case _ => OthersWithinLimits(c, act);
  }

  predicate ValidPolicies(acts: seq<Action>) {
    forall i :: 0 <= i < |acts| && acts[i].Resolve? ==> acts[i].policy >= 1
  }

  lemma {:induction false} ExecWithinLimits(c: Cell, acts: seq<Action>)
    requires Safe(c) && WithinLimits(c) && ValidPolicies(acts)
    ensures WithinLimits(Exec(c, acts))
    decreases |acts|
  {
    if acts == [] {
    } else {
      assert WellShaped(c.row);
      StepWithinLimits(c, acts[0]);
      StepSafe(c, acts[0]);
      ExecWithinLimits(Step(c, acts[0]), acts[1..]);
    }
  }

  /** Whatever reads return, the stored attempt number never exceeds the limit, a run without a limit has
      made no attempt, and a running one has made at least one. */
  lemma AttemptsWithinLimit(r: Run, submitter: Option<nat>, acts: seq<Action>)
    requires FreshRun(r) && ValidPolicies(acts)
    ensures var row := Exec(NewCell(r, submitter), acts).row;
            && 0 <= row.attempt
            && (row.maxAttempts >= 1 ==> row.attempt <= row.maxAttempts)
            && (row.maxAttempts < 1 ==> row.attempt == 0)
            && (row.status.Running? ==> row.attempt >= 1)
  {
    NewCellSafe(r, submitter);
    ExecSafe(NewCell(r, submitter), acts);
    ExecWithinLimits(NewCell(r, submitter), acts);
    assert WellShaped(Exec(NewCell(r, submitter), acts).row);
  }

  // ----- the exact condition --------------------------------------------------------------------------

  predicate Balanced(c: Cell) {
    c.row.attempt == c.starts - c.recoveries
  }

  /** If the action is an accepted write, the writer's copy has the stored attempt number. */
  predicate WriteInStep(c: Cell, act: Action) {
    Writes(c, act) ==>
      && act.a in c.actors
      && (c.actors[act.a].Loaded? || c.actors[act.a].Looping? || c.actors[act.a].Executing? || c.actors[act.a].Submitting?)
      && c.actors[act.a].local.attempt == c.row.attempt
  }

  /** A write of `run`, transition of a copy `local`, keeps the balance exactly when the copy is in step. */
  lemma FinalizeBalance(c: Cell, a: nat, held: int, run: Result<Run, RunError>, bury: bool, local: Run)
    requires Balanced(c) && (run.Ok? ==> run.value.attempt == local.attempt)
    ensures var d := Finalize(c, a, held, run, bury);
            Balanced(d) <==> (d.history != c.history ==> local.attempt == c.row.attempt)
  {
    assert forall row: Run :: c.history + [row] != c.history;
  }

  lemma StartBalance(c: Cell, a: nat, at: Time)
    requires Balanced(c) && a in c.actors && c.actors[a].Looping?
    ensures var d := StartAttempt(c, a, at);
            Balanced(d) <==> (d.history != c.history ==> c.actors[a].local.attempt == c.row.attempt)
  {
    assert forall row: Run :: c.history + [row] != c.history;
  }

  lemma SubmitBalance(c: Cell, a: nat, cause: string, publishes: bool, at: Time)
    requires Balanced(c) && a in c.actors && c.actors[a].Submitting?
    ensures var d := SubmitFailure(c, a, cause, publishes, at);
            Balanced(d) <==> (d.history != c.history ==> c.actors[a].local.attempt == c.row.attempt)
  {
    assert forall row: Run :: c.history + [row] != c.history;
  }

  lemma FinishBalance(c: Cell, a: nat, outcome: Outcome, at: Time)
    requires Balanced(c) && a in c.actors && c.actors[a].Executing?
    ensures var d := FinishAttempt(c, a, outcome, at);
            Balanced(d) <==> (d.history != c.history ==> c.actors[a].local.attempt == c.row.attempt)
  {
    var x := c.actors[a];
    match outcome
    case Returned(output) => FinalizeBalance(c, a, x.fence, Succeed(x.local, output, at), false, x.local);
    case Raised(cause) => FinalizeBalance(c, a, x.fence, Fail(x.local, Some(cause), at), true, x.local);
  }

  lemma ResolveBalance(c: Cell, a: nat, missing: Option<string>, policy: int, at: Time)
    requires Balanced(c)
    ensures Balanced(Step(c, Resolve(a, missing, policy, at))) <==> WriteInStep(c, Resolve(a, missing, policy, at))
  {
    if a in c.actors && c.actors[a].Loaded? {
      FinalizeBalance(c, a, c.actors[a].fence, Fail(c.actors[a].local, missing, at), true, c.actors[a].local);
    }
  }

  /** The other actions write nothing, or only cancel or recover. */
  lemma OthersBalance(c: Cell, act: Action)
    requires WellShaped(c.row) && Balanced(c)
    requires !act.Resolve? && !act.Attempt? && !act.Finish? && !act.EnqueueFails?
    ensures Balanced(Step(c, act)) && !Writes(c, act)
  {
  }

  lemma BalanceKeptIff(c: Cell, act: Action)
    requires WellShaped(c.row) && Balanced(c)
    ensures Balanced(Step(c, act)) <==> WriteInStep(c, act)
  {
    match act
    case Resolve(a, missing, policy, at) => ResolveBalance(c, a, missing, policy, at);
    case Attempt(a, at) =>
      if a in c.actors && c.actors[a].Looping? {
        StartBalance(c, a, at);
      }
    case Finish(a, outcome, at) =>
      if a in c.actors && c.actors[a].Executing? {
        FinishBalance(c, a, outcome, at);
      }
    case EnqueueFails(a, cause, publishes, at) =>
      if a in c.actors && c.actors[a].Submitting? {
        SubmitBalance(c, a, cause, publishes, at);
      }
    case _ => OthersBalance(c, act);
  }

  predicate BalancedThroughout(c: Cell, acts: seq<Action>)
    decreases |acts|
  {
    Balanced(c) && (acts == [] || BalancedThroughout(Step(c, acts[0]), acts[1..]))
  }

  predicate InStepThroughout(c: Cell, acts: seq<Action>)
    decreases |acts|
  {
    acts == [] || (WriteInStep(c, acts[0]) && InStepThroughout(Step(c, acts[0]), acts[1..]))
  }

  lemma {:induction false} BalanceIff(c: Cell, acts: seq<Action>)
    requires Safe(c) && Balanced(c)
    ensures BalancedThroughout(c, acts) <==> InStepThroughout(c, acts)
    decreases |acts|
  {
    if acts == [] {
    } else {
      BalanceKeptIff(c, acts[0]);
      StepSafe(c, acts[0]);
      if WriteInStep(c, acts[0]) {
        BalanceIff(Step(c, acts[0]), acts[1..]);
      }
    }
  }

  /** The attempt equation holds throughout a history, whatever its reads return, if and only if every
      accepted write is made from a copy with the stored attempt number. */
  lemma LedgerIff(r: Run, submitter: Option<nat>, acts: seq<Action>)
    requires FreshRun(r)
    ensures BalancedThroughout(NewCell(r, submitter), acts) <==> InStepThroughout(NewCell(r, submitter), acts)
  {
    NewCellSafe(r, submitter);
    BalanceIff(NewCell(r, submitter), acts);
  }

  /** The hypothesis on reads is needed: a worker that reloads an outdated row restarts the attempt
      count, and a run limited to one attempt calls the runtime twice without any recovery. */
  lemma StaleReloadBreaksLedger(r: Run)
    requires FreshRun(r) && r.maxAttempts == 1
    ensures exists acts :: var c := Exec(NewCell(r, None), acts);
                           c.starts == 2 && c.calls == 2 && c.recoveries == 0 && c.row.attempt == 1 && c.row.maxAttempts == 1
  {
    var c0 := NewCell(r, None);
    var first := Shift(0, r, r);
    var c1 := Exec(c0, first);
    ShiftRuns(c0, 0, r, r);
    var second := Shift(1, c1.row, r);
    ShiftRuns(c1, 1, c1.row, r);
    ExecAppend(c0, first, second);
    assert Exec(c0, first + second).starts == 2;
  }

  /** One worker's way up to its runtime call, reading `seen` first and `reloaded` after its claim. */
  function Shift(a: nat, seen: Run, reloaded: Run): seq<Action> {
    Up(a, seen) + (Load(a, reloaded) + Go(a))
  }

  function Up(a: nat, seen: Run): seq<Action> {
    [Deliver(a)] + ([Fetch(a, seen)] + ([ClaimExecution(a, 1)] + []))
  }

  function Load(a: nat, reloaded: Run): seq<Action> {
    [Reload(a, reloaded)] + ([Resolve(a, None, 1, 1)] + [])
  }

  function Go(a: nat): seq<Action> {
    [Attempt(a, 1)] + ([Invoke(a)] + [])
  }

  lemma ShiftRuns(c: Cell, a: nat, seen: Run, reloaded: Run)
    requires Safe(c) && a !in c.actors && seen in c.history && reloaded in c.history
    requires !Terminal(c.row.status) && !Terminal(seen.status)
    requires reloaded.status.Queued? && reloaded.attempt == 0 && reloaded.maxAttempts == 1
    ensures var d := Exec(c, Shift(a, seen, reloaded));
            && d.starts == c.starts + 1 && d.calls == c.calls + 1 && d.recoveries == c.recoveries
            && d.row == Start(reloaded, 1).value && d.history == c.history + [d.row]
            && d.actors.Keys == c.actors.Keys + {a} && Safe(d)
  {
    ExecSafe(c, Shift(a, seen, reloaded));
    var f := NextFence(c.fence, 1);
    var up, load, go := Up(a, seen), Load(a, reloaded), Go(a);
    ExecAppend(c, up, load + go);
    ShiftClaims(c, a, seen);
    var d := Exec(c, up);
    ExecAppend(d, load, go);
    ShiftLoads(d, a, reloaded);
    assert SameIdentity(reloaded, c.row);
    ShiftStarts(Exec(d, load), a, reloaded);
  }

  lemma One(c: Cell, act: Action, rest: seq<Action>)
    ensures Exec(c, [act] + rest) == Exec(Step(c, act), rest)
  {
    assert ([act] + rest)[1..] == rest;
  }

  lemma ShiftClaims(c: Cell, a: nat, seen: Run)
    requires a !in c.actors && seen in c.history && !Terminal(c.row.status) && !Terminal(seen.status)
    ensures var f := NextFence(c.fence, 1);
            Exec(c, Up(a, seen)) == c.(fence := f, actors := c.actors[a := Claimed(f)])
  {
    var f := NextFence(c.fence, 1);
    One(c, Deliver(a), [Fetch(a, seen)] + ([ClaimExecution(a, 1)] + []));
    var c1 := Move(c, a, Fetching);
    assert Step(c, Deliver(a)) == c1;
    One(c1, Fetch(a, seen), [ClaimExecution(a, 1)] + []);
    var c2 := Move(c, a, Leasing);
    assert Step(c1, Fetch(a, seen)) == c2;
    One(c2, ClaimExecution(a, 1), []);
    assert Step(c2, ClaimExecution(a, 1)) == c.(fence := f, actors := c.actors[a := Claimed(f)]);
  }

  lemma ShiftLoads(c: Cell, a: nat, reloaded: Run)
    requires a in c.actors && c.actors[a].Claimed? && reloaded in c.history
    requires reloaded.status.Queued? && reloaded.maxAttempts == 1
    ensures Exec(c, Load(a, reloaded)) == Move(c, a, Looping(c.actors[a].fence, reloaded))
  {
    One(c, Reload(a, reloaded), [Resolve(a, None, 1, 1)] + []);
    var c1 := Move(c, a, Loaded(c.actors[a].fence, reloaded));
    assert Step(c, Reload(a, reloaded)) == c1;
    One(c1, Resolve(a, None, 1, 1), []);
    assert Step(c1, Resolve(a, None, 1, 1)) == Move(c, a, Looping(c.actors[a].fence, reloaded));
  }

  lemma ShiftStarts(c: Cell, a: nat, reloaded: Run)
    requires a in c.actors && c.actors[a] == Looping(c.fence, reloaded) && c.fence >= 1
    requires !c.row.status.Canceled? && SameIdentity(reloaded, c.row)
    requires reloaded.status.Queued? && reloaded.attempt == 0 && reloaded.maxAttempts == 1
    ensures var d := Exec(c, Go(a));
            && d.starts == c.starts + 1 && d.calls == c.calls + 1 && d.recoveries == c.recoveries
            && d.row == Start(reloaded, 1).value && d.history == c.history + [d.row] && d.actors.Keys == c.actors.Keys
  {
    One(c, Attempt(a, 1), [Invoke(a)] + []);
    var c1 := Step(c, Attempt(a, 1));
    assert c1.actors[a] == Starting(c.fence, Start(reloaded, 1).value);
    One(c1, Invoke(a), []);
  }
}
