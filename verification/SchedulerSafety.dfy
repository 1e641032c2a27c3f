/** Every step of the scheduler keeps its invariant. */
module SchedulerSafety {
  import opened Basics
  import opened Workflows
  import opened Manager
  import opened StepKeys
  import opened Scheduler
  import opened SchedulerInvariant
  import opened SchedulerCounting

  // ----- participants ----------------------------------------------------------------------------------

  /** `base` is an earlier stored version of its workflow; if the version is unchanged, so is the
      record. */
  ghost predicate BaseOk(cfg: Config, base: Workflow, workflows: map<string, Workflow>) {
    && base.def.id in workflows
    && Evolves(base, workflows[base.def.id])
    && (base.version == workflows[base.def.id].version ==> base == workflows[base.def.id])
    && !IsTerminal(base) && Shaped(base) && Runnable(base.def) && Settled(base)
    && ActiveCount(base.steps) <= cfg.limit
  }

  /** `draft` is a legal next state of `base`. */
  ghost predicate DraftOk(base: Workflow, draft: Workflow, e: World) {
    && WfInv(draft, e) && Extends(base, draft) && draft.version == base.version
    && (forall i: nat :: i < |base.steps| ==> StepMoves(base.steps[i], draft.steps[i]))
  }

  predicate SameStatuses(base: Workflow, draft: Workflow)
    requires |base.steps| == |draft.steps|
  {
    forall i :: 0 <= i < |base.steps| ==> draft.steps[i].status == base.steps[i].status
  }

  ghost predicate RefreshingOk(x: Actor)
    requires x.Refreshing?
  {
    && x.base.status.WfRunning? && x.draft.status.WfRunning?
    && |x.base.steps| == |x.draft.steps| && x.next <= |x.base.steps|
    && (forall j :: x.next <= j < |x.base.steps| ==> x.draft.steps[j] == x.base.steps[j])
    && (if x.changed then Differ(x.base.steps, x.draft.steps) else x.draft == x.base)
    && (x.all <==> forall j :: 0 <= j < x.next ==> Done(x.draft.steps[j].status))
    && (forall j :: 0 <= j < |x.base.steps| && Active(x.draft.steps[j].status) ==> Active(x.base.steps[j].status))
  }

  ghost predicate CreatingOk(cfg: Config, x: Actor)
    requires x.Creating?
  {
    && x.base.status.WfRunning? && x.draft.status.WfRunning? && Shaped(x.draft)
    && |x.base.steps| == |x.draft.steps| && x.index < |x.draft.steps|
    && SameStatuses(x.base, x.draft)
    && x.draft.steps[x.index].status.StepPending?
    && DepsDone(x.draft, x.index) && Keeps(x.draft, x.index)
    && x.input == InputFor(x.draft, x.index, cfg.marshal)
    && x.parent == FirstRunId(x.draft, x.draft.def.steps[x.index].dependsOn)
    && ActiveCount(x.draft.steps) < x.limit
  }

  /** A draft that ends its workflow without success has all steps done only if the record it was
      made from had. */
  predicate EndsAsBegun(base: Workflow, draft: Workflow) {
    IsTerminal(draft) && !draft.status.WfSucceeded? && AllDone(draft) ==> AllDone(base)
  }

  ghost predicate WritingOk(cfg: Config, x: Actor)
    requires x.Writing?
  {
    && |x.base.steps| == |x.draft.steps|
    && ActiveCount(x.draft.steps) <= cfg.limit
    && !x.draft.status.WfPending? && Settled(x.draft) && EndsAsBegun(x.base, x.draft)
    && (match x.kind
        case StartingWf => x.base.status.WfPending? && x.draft == x.base.(status := WfRunning) && !AllDone(x.draft)
        case CancelingWf => IsTerminal(x.draft)
        case Skipping => x.base.status.WfRunning? && x.draft.status.WfRunning? && Differ(x.base.steps, x.draft.steps) && Shaped(x.base) && x.draft == SkipFrom(x.base, 0)
        case Terminating => x.base.status.WfRunning? && IsTerminal(x.draft)
        case Failing(reason) => x.base.status.WfRunning? && IsTerminal(x.draft) && reason.CreateProblem?
        case _ => x.base.status.WfRunning? && x.draft.status.WfRunning? && Differ(x.base.steps, x.draft.steps) && !AllDone(x.draft))
  }

  ghost predicate ActorInv(cfg: Config, x: Actor, workflows: map<string, Workflow>, e: World) {
    && x.limit <= cfg.limit && (!x.Writing? || BySchedulerLoop(x.kind) ==> x.limit >= 1)
    && (x.Reading? ==> x.wf in workflows && !workflows[x.wf].status.WfPending?)
    && (!x.Reading? ==> BaseOk(cfg, x.base, workflows) && DraftOk(x.base, x.draft, e))
    && (x.Refreshing? ==> RefreshingOk(x))
    && (x.Creating? ==> CreatingOk(cfg, x))
    && (x.Writing? ==> WritingOk(cfg, x))
  }

  // ----- the stored state --------------------------------------------------------------------------------

  predicate Budget(w: Workflow, t: Tally) {
    t.writes + Rank(w.steps) + (if IsTerminal(w) then 0 else 1) <= 3 * |w.steps| + 1 + 2 * t.regressions
  }

  ghost predicate StoredOk(cfg: Config, id: string, w: Workflow, t: Tally, e: World) {
    && w.def.id == id && Runnable(w.def) && WfInv(w, e) && Settled(w) && KeysGrounded(w, e, cfg.marshal)
    && ActiveCount(w.steps) <= cfg.limit && Budget(w, t)
  }

  ghost predicate Owned(k: string, workflows: map<string, Workflow>) {
    exists id, name :: id in workflows && ValidStepId(name) && k == StepKey(id, name)
  }

  function Env(s: Sched): World {
    World(s.runs, s.keys)
  }

  ghost predicate AllStored(cfg: Config, workflows: map<string, Workflow>, tally: map<string, Tally>, e: World) {
    && tally.Keys == workflows.Keys
    && forall id <- workflows :: StoredOk(cfg, id, workflows[id], tally[id], e)
  }

  ghost predicate StoredInv(cfg: Config, s: Sched) {
    AllStored(cfg, s.workflows, s.tally, Env(s))
  }

  ghost predicate KeysInv(s: Sched) {
    forall k <- s.keys :: s.keys[k] != "" && s.keys[k] in s.runs && Owned(k, s.workflows)
  }

  ghost predicate ActorsInv(cfg: Config, s: Sched) {
    forall a <- s.actors :: ActorInv(cfg, s.actors[a], s.workflows, Env(s))
  }

  ghost predicate Inv(cfg: Config, s: Sched) {
    StoredInv(cfg, s) && KeysInv(s) && ActorsInv(cfg, s)
  }

  // ----- moves that leave the store alone ------------------------------------------------------------------

  lemma MoveKeepsInv(cfg: Config, s: Sched, a: nat, x: Actor)
    requires Inv(cfg, s) && ActorInv(cfg, x, s.workflows, Env(s))
    ensures Inv(cfg, Move(s, a, x))
  {
    var t := Move(s, a, x);
    assert Env(t) == Env(s);
    assert StoredInv(cfg, t) && KeysInv(t);
  }

  lemma LeaveKeepsInv(cfg: Config, s: Sched, a: nat)
    requires Inv(cfg, s)
    ensures Inv(cfg, Leave(s, a))
  {
    var t := Leave(s, a);
    assert Env(t) == Env(s);
    assert StoredInv(cfg, t) && KeysInv(t);
  }

  lemma ActorInvGrows(cfg: Config, x: Actor, workflows: map<string, Workflow>, e: World, f: World)
    requires ActorInv(cfg, x, workflows, e) && Grows(e, f)
    ensures ActorInv(cfg, x, workflows, f)
  {
    if !x.Reading? {
      WfInvGrows(x.draft, e, f);
    }
  }

  /** Runs moving along their lifecycle, and new runs, disturb nothing. */
  lemma RunsGrowKeepsInv(cfg: Config, s: Sched, runs: map<string, RunView>)
    requires Inv(cfg, s) && Grows(Env(s), World(runs, s.keys))
    ensures Inv(cfg, s.(runs := runs))
  {
    var t := s.(runs := runs);
    forall id <- t.workflows
      ensures StoredOk(cfg, id, t.workflows[id], t.tally[id], Env(t))
    {
      assert StoredOk(cfg, id, s.workflows[id], s.tally[id], Env(s));
      StoredGrows(cfg, s.workflows[id], Env(s), Env(t));
    }
    forall a <- t.actors
      ensures ActorInv(cfg, t.actors[a], t.workflows, Env(t))
    {
      ActorInvGrows(cfg, s.actors[a], s.workflows, Env(s), Env(t));
    }
  }

  lemma StoredGrows(cfg: Config, w: Workflow, e: World, f: World)
    requires WfInv(w, e) && KeysGrounded(w, e, cfg.marshal) && Grows(e, f) && e.keys == f.keys
    ensures WfInv(w, f) && KeysGrounded(w, f, cfg.marshal)
  {
    WfInvGrows(w, e, f);
    forall i: nat | i < |w.steps| && KeyOf(w.def, i) in f.keys
      ensures Grounded(w, i, f, cfg.marshal)
    {
      GroundedGrows(w, i, e, f, cfg.marshal);
    }
  }

  // ----- refreshing a step ---------------------------------------------------------------------------------

  /** The refreshed state of one step is a legal successor of the stored one. */
  lemma RefreshedStepOk(w: Workflow, i: nat, run: RunView, e: World)
    requires WfInv(w, e) && Runnable(w.def) && i < |w.steps| && w.status.WfRunning?
    requires !w.steps[i].status.StepSkipped? && w.steps[i].runId != "" && ReadOk(w.steps[i], Some(run), e.runs)
    ensures var st := RefreshStep(w.steps[i], run);
            && StepEvolves(w.steps[i], st) && StepMoves(w.steps[i], st)
            && (Active(st.status) ==> Active(w.steps[i].status))
            && StepsInv(SetStep(w, i, st), e)
            && Extends(w, SetStep(w, i, st))
            && !st.status.StepPending?
            && (st.status == w.steps[i].status ==> st == w.steps[i])
  {
    assert StepInv(w, i, e);
    var st := RefreshStep(w.steps[i], run);
    var v := SetStep(w, i, st);
    assert StepEvolves(w.steps[i], st);
    forall j: nat | j < |w.steps|
      ensures StepInv(v, j, e)
    {
      if j != i {
        OthersKeepInv(w, i, st, j, e);
      }
    }
  }

  /** Replacing step `i`, still as in `base`, by a legal successor keeps the draft legal. */
  lemma SetStepDraft(base: Workflow, draft: Workflow, i: nat, st: StepState, e: World)
    requires DraftOk(base, draft, e) && i < |draft.steps| && draft.steps[i] == base.steps[i]
    requires StepEvolves(draft.steps[i], st) && StepMoves(draft.steps[i], st)
    requires StepsInv(SetStep(draft, i, st), e)
    ensures var d := SetStep(draft, i, st);
            && Extends(base, d) && d.version == base.version >= 1 && Shaped(d)
            && (forall j: nat :: j < |base.steps| ==> StepMoves(base.steps[j], d.steps[j]))
  {
    var d := SetStep(draft, i, st);
    forall j: nat | j < |base.steps|
      ensures StepEvolves(base.steps[j], d.steps[j]) && StepMoves(base.steps[j], d.steps[j])
    {
      assert StepEvolves(base.steps[j], draft.steps[j]) && StepMoves(base.steps[j], draft.steps[j]);
    }
  }

  lemma RefreshGoing(cfg: Config, x: Actor, workflows: map<string, Workflow>, e: World, read: Option<RunView>)
    requires x.Refreshing? && ActorInv(cfg, x, workflows, e) && x.next < |x.draft.steps| && ReadOk(x.draft.steps[x.next], read, e.runs)
    requires RefreshOne(x.draft, x.next, x.changed, x.all, read).Going?
    ensures var pass := RefreshOne(x.draft, x.next, x.changed, x.all, read);
            ActorInv(cfg, Refreshing(x.limit, x.base, pass.w, x.next + 1, pass.changed, pass.all), workflows, e)
  {
    var pass := RefreshOne(x.draft, x.next, x.changed, x.all, read);
    var y := Refreshing(x.limit, x.base, pass.w, x.next + 1, pass.changed, pass.all);
    var st := x.draft.steps[x.next];
    assert StepInv(x.draft, x.next, e);
    if st.status.StepSkipped? || st.runId == "" {
      assert pass.w == x.draft;
      PassedOver(x, y);
    } else {
      GoingDraft(x.base, x.draft, x.next, read.value, e);
      GoingFlags(x, RefreshStep(st, read.value), y);
    }
  }

  /** Refreshing a step whose run goes on keeps the draft a valid one. */
  lemma GoingDraft(base: Workflow, draft: Workflow, i: nat, run: RunView, e: World)
    requires DraftOk(base, draft, e) && Runnable(draft.def) && i < |draft.steps| && draft.steps[i] == base.steps[i]
    requires draft.status.WfRunning? && !draft.steps[i].status.StepSkipped? && draft.steps[i].runId != ""
    requires ReadOk(draft.steps[i], Some(run), e.runs) && !run.status.Failed? && !run.status.Canceled?
    ensures var st := RefreshStep(draft.steps[i], run);
            && DraftOk(base, SetStep(draft, i, st), e)
            && (Active(st.status) ==> Active(draft.steps[i].status))
            && (st.status == draft.steps[i].status ==> st == draft.steps[i])
  {
    RefreshedStepOk(draft, i, run, e);
    var st := RefreshStep(draft.steps[i], run);
    SetStepDraft(base, draft, i, st, e);
    assert StatusInv(SetStep(draft, i, st));
  }

  lemma RefreshStops(cfg: Config, x: Actor, workflows: map<string, Workflow>, e: World, read: Option<RunView>)
    requires x.Refreshing? && ActorInv(cfg, x, workflows, e) && x.next < |x.draft.steps| && ReadOk(x.draft.steps[x.next], read, e.runs)
    requires RefreshOne(x.draft, x.next, x.changed, x.all, read).Stopped?
    ensures var pass := RefreshOne(x.draft, x.next, x.changed, x.all, read);
            ActorInv(cfg, Writing(x.limit, x.base, pass.w, Terminating), workflows, e)
  {
    var pass := RefreshOne(x.draft, x.next, x.changed, x.all, read);
    StoppedDraft(cfg, x.base, x.draft, x.next, pass.w, x.changed, x.all, read, e);
  }

  /** Stopping at a failed or canceled step leaves a terminal draft in which that step is not done. */
  lemma StoppedDraft(cfg: Config, base: Workflow, draft: Workflow, i: nat, d: Workflow, changed: bool, all: bool, read: Option<RunView>, e: World)
    requires DraftOk(base, draft, e) && Runnable(base.def) && i < |draft.steps| && draft.steps[i] == base.steps[i]
    requires Runnable(draft.def) && draft.status.WfRunning? && ReadOk(draft.steps[i], read, e.runs)
    requires RefreshOne(draft, i, changed, all, read).Stopped? && d == RefreshOne(draft, i, changed, all, read).w
    ensures DraftOk(base, d, e) && IsTerminal(d) && ActiveCount(d.steps) == 0 && !AllDone(d) && |d.steps| == |base.steps|
  {
    RefreshedStepOk(draft, i, read.value, e);
    var st := RefreshStep(draft.steps[i], read.value);
    SetStepDraft(base, draft, i, st, e);
    var w := SetStep(draft, i, st);
    assert forall j :: 0 <= j < |draft.steps| ==> !draft.steps[j].status.StepFailed?;
    assert st.status.StepFailed? ==> w.steps[i].status.StepFailed?;
    EndedDraft(cfg, base, w, d.status, d.error, e);
    assert !Done(d.steps[i].status);
  }

  /** A skipped step, or one without a run, is passed over. */
  lemma PassedOver(x: Actor, y: Actor)
    requires x.Refreshing? && RefreshingOk(x) && x.next < |x.draft.steps|
    requires y == x.(next := x.next + 1, all := x.all && Done(x.draft.steps[x.next].status))
    ensures RefreshingOk(y)
  {
    if !y.all {
      if !x.all {
        var j :| 0 <= j < x.next && !Done(x.draft.steps[j].status);
        assert !Done(y.draft.steps[j].status);
      } else {
        assert !Done(y.draft.steps[x.next].status);
      }
    }
  }

  lemma GoingFlags(x: Actor, st: StepState, y: Actor)
    requires x.Refreshing? && RefreshingOk(x) && x.next < |x.draft.steps|
    requires Active(st.status) ==> Active(x.draft.steps[x.next].status)
    requires st.status == x.draft.steps[x.next].status ==> st == x.draft.steps[x.next]
    requires y == Refreshing(x.limit, x.base, SetStep(x.draft, x.next, st), x.next + 1,
                             x.changed || st.status != x.draft.steps[x.next].status, x.all && Done(st.status))
    ensures RefreshingOk(y)
  {
    assert x.base.steps[x.next] == x.draft.steps[x.next];
    if x.changed {
      var i :| 0 <= i < |x.base.steps| && x.base.steps[i].status != x.draft.steps[i].status;
      assert i != x.next;
      assert y.base.steps[i].status != y.draft.steps[i].status;
    } else if st.status != x.draft.steps[x.next].status {
      assert y.base.steps[x.next].status != y.draft.steps[x.next].status;
    } else {
      assert SetStep(x.draft, x.next, st) == x.draft;
    }
    if y.all {
      assert forall j :: 0 <= j < x.next ==> y.draft.steps[j] == x.draft.steps[j];
    } else if !x.all {
      var j :| 0 <= j < x.next && !Done(x.draft.steps[j].status);
      assert !Done(y.draft.steps[j].status);
    } else {
      assert !Done(y.draft.steps[x.next].status);
    }
  }

  /** A terminal draft made by canceling what is unfinished. */
  lemma EndedDraft(cfg: Config, base: Workflow, w: Workflow, status: WorkflowStatus, error: string, e: World)
    requires Shaped(base) && Shaped(w) && Runnable(base.def) && Extends(base, w) && w.version == base.version >= 1
    requires StepsInv(w, e)
    requires forall i: nat :: i < |base.steps| ==> StepMoves(base.steps[i], w.steps[i])
    requires status.WfFailed? || status.WfCanceled?
    requires Blamed(w.(status := status, error := error))
    requires status.WfFailed? ==> error == CREATION_FAILED || exists i :: 0 <= i < |w.steps| && w.steps[i].status.StepFailed?
    ensures var d := w.(status := status, error := error, steps := CancelUnfinished(w.steps));
            DraftOk(base, d, e) && IsTerminal(d) && ActiveCount(d.steps) == 0
  {
    var d := w.(status := status, error := error, steps := CancelUnfinished(w.steps));
    var c := w.(steps := CancelUnfinished(w.steps));
    CancelKeepsInv(w, e);
    ExtendsTransitive(base, w, c);
    forall i: nat | i < |d.steps|
      ensures StepInv(d, i, e) && StepEvolves(base.steps[i], d.steps[i]) && StepMoves(base.steps[i], d.steps[i])
    {
      assert StepInv(c, i, e);
      SameStepInv(c, d, i, e);
      assert StepEvolves(base.steps[i], c.steps[i]);
      assert StepMoves(base.steps[i], w.steps[i]);
    }
    NoneActive(d.steps);
    EndedStatus(w, d);
  }

  lemma EndedStatus(w: Workflow, d: Workflow)
    requires Shaped(w) && d == w.(status := d.status, error := d.error, steps := CancelUnfinished(w.steps))
    requires d.status.WfFailed? || d.status.WfCanceled?
    requires Blamed(w.(status := d.status, error := d.error))
    requires d.status.WfFailed? ==> d.error == CREATION_FAILED || exists i :: 0 <= i < |w.steps| && w.steps[i].status.StepFailed?
    ensures StatusInv(d)
  {
    if i :| 0 <= i < |w.steps| && w.steps[i].status.StepFailed? {
      assert d.steps[i].status.StepFailed?;
    }
    forall i | 0 <= i < |d.steps| && d.steps[i].status.StepFailed?
      ensures d.status.WfFailed? && d.error == FailureText(d.def.steps[i].id, d.steps[i].error)
    {
      assert w.steps[i].status.StepFailed? && d.steps[i] == w.steps[i];
    }
  }

  /** The step invariant does not read the workflow's own status. */
  lemma SameStepInv(c: Workflow, d: Workflow, i: nat, e: World)
    requires Shaped(c) && d.def == c.def && d.steps == c.steps && i < |c.steps| && StepInv(c, i, e)
    ensures StepInv(d, i, e)
  {
    if c.steps[i].status.StepSkipped? {
      forall r <- d.def.steps[i].dependsOn
        ensures RefDone(d, r)
      {
        assert RefDone(c, r);
      }
    }
  }

  // ----- conditions ----------------------------------------------------------------------------------------

  /** `applyConditions` only turns pending steps into skipped ones. */
  predicate OnlySkips(w: Workflow, r: Workflow) {
    && |r.steps| == |w.steps| && r == w.(steps := r.steps)
    && forall j :: 0 <= j < |w.steps| ==>
         || r.steps[j] == w.steps[j]
         || (w.steps[j].status.StepPending? && r.steps[j] == w.steps[j].(status := StepSkipped))
  }

  lemma SkipOneOk(w: Workflow, i: nat, e: World)
    requires WfInv(w, e) && Runnable(w.def) && i < |w.steps| && w.status.WfRunning?
    ensures WfInv(SkipOne(w, i), e) && Extends(w, SkipOne(w, i)) && OnlySkips(w, SkipOne(w, i))
  {
    var v := SkipOne(w, i);
    if SkipsNow(w, i) {
      var st := w.steps[i].(status := StepSkipped);
      assert StepInv(w, i, e);
      assert StepEvolves(w.steps[i], st);
      assert Extends(w, v);
      forall j: nat | j < |w.steps|
        ensures StepInv(v, j, e)
      {
        if j != i {
          OthersKeepInv(w, i, st, j, e);
        } else {
          assert StepRunnable(w.def, w.def.steps[i]);
          DepsStable(w, v, i);
          KeepsStable(w, v, i);
        }
      }
    }
  }

  lemma {:induction false} SkipFromOk(w: Workflow, i: nat, e: World)
    requires WfInv(w, e) && Runnable(w.def) && i <= |w.steps| && w.status.WfRunning?
    ensures WfInv(SkipFrom(w, i), e) && Extends(w, SkipFrom(w, i)) && OnlySkips(w, SkipFrom(w, i))
    decreases |w.steps| - i
  {
    if i == |w.steps| {
      assert Extends(w, w);
    } else {
      SkipOneOk(w, i, e);
      SkipFromOk(SkipOne(w, i), i + 1, e);
      ExtendsTransitive(w, SkipOne(w, i), SkipFrom(w, i));
      OnlySkipsTransitive(w, SkipOne(w, i), SkipFrom(w, i));
    }
  }

  lemma OnlySkipsTransitive(u: Workflow, v: Workflow, w: Workflow)
    requires OnlySkips(u, v) && OnlySkips(v, w)
    ensures OnlySkips(u, w)
  {
    forall j | 0 <= j < |u.steps|
      ensures w.steps[j] == u.steps[j] || (u.steps[j].status.StepPending? && w.steps[j] == u.steps[j].(status := StepSkipped))
    {
      assert v.steps[j] == u.steps[j] || (u.steps[j].status.StepPending? && v.steps[j] == u.steps[j].(status := StepSkipped));
    }
  }

  /** If the pass changes nothing, no step was to be skipped. */
  lemma {:induction false} NothingSkipped(w: Workflow, i: nat, e: World)
    requires WfInv(w, e) && Runnable(w.def) && i <= |w.steps| && w.status.WfRunning? && SkipFrom(w, i) == w
    ensures forall j: nat :: i <= j < |w.steps| ==> !SkipsNow(w, j)
    decreases |w.steps| - i
  {
    if i == |w.steps| {
    } else {
      SkipOneOk(w, i, e);
      SkipFromOk(SkipOne(w, i), i + 1, e);
      assert SkipOne(w, i).steps[i] == SkipFrom(w, i).steps[i];
      assert !SkipsNow(w, i);
      NothingSkipped(w, i + 1, e);
    }
  }
}
