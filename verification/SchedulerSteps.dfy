/** Every action of the scheduler keeps its invariant. */
module SchedulerSteps {
  import opened Basics
  import opened Runs
  import opened Workflows
  import opened Manager
  import opened StepKeys
  import opened Scheduler
  import opened SchedulerInvariant
  import opened SchedulerCounting
  import opened SchedulerSafety

  // ----- the decision at the end of a pass -----------------------------------------------------------------

  lemma DecideSucceeds(cfg: Config, x: Actor, workflows: map<string, Workflow>, e: World)
    requires x.Refreshing? && ActorInv(cfg, x, workflows, e) && x.next == |x.draft.steps| && x.all
    ensures ActorInv(cfg, Writing(x.limit, x.base, x.draft.(status := WfSucceeded, error := ""), Terminating), workflows, e)
  {
    var d := x.draft.(status := WfSucceeded, error := "");
    assert AllDone(d);
    forall i: nat | i < |d.steps|
      ensures StepInv(d, i, e)
    {
      SameStepInv(x.draft, d, i, e);
    }
    assert Extends(x.base, d) by {
      assert forall i: nat :: i < |x.base.steps| ==> StepEvolves(x.base.steps[i], x.draft.steps[i]);
    }
    NoneActive(d.steps);
  }

  lemma DecideRefreshed(cfg: Config, x: Actor, workflows: map<string, Workflow>, e: World)
    requires x.Refreshing? && ActorInv(cfg, x, workflows, e) && x.changed && !x.all && x.next == |x.draft.steps|
    ensures ActorInv(cfg, Writing(x.limit, x.base, x.draft, Refreshed), workflows, e)
  {
    FewerActive(x.base.steps, x.draft.steps);
  }

  lemma DecideSkips(cfg: Config, x: Actor, workflows: map<string, Workflow>, e: World)
    requires x.Refreshing? && ActorInv(cfg, x, workflows, e) && !x.changed && !x.all && SkipFrom(x.draft, 0) != x.draft
    ensures ActorInv(cfg, Writing(x.limit, x.base, SkipFrom(x.draft, 0), Skipping), workflows, e)
  {
    var d := SkipFrom(x.draft, 0);
    SkipFromOk(x.draft, 0, e);
    ExtendsTransitive(x.base, x.draft, d);
    forall i: nat | i < |x.base.steps|
      ensures StepMoves(x.base.steps[i], d.steps[i]) && (Active(d.steps[i].status) ==> Active(x.base.steps[i].status))
    {
      assert x.draft.steps[i].status == x.base.steps[i].status;
      assert d.steps[i] == x.draft.steps[i] || (x.draft.steps[i].status.StepPending? && d.steps[i] == x.draft.steps[i].(status := StepSkipped));
    }
    SkipsDiffer(x.base, x.draft, d);
    assert Settled(d);
    FewerActive(x.base.steps, d.steps);
  }

  lemma SkipsDiffer(base: Workflow, w: Workflow, d: Workflow)
    requires |base.steps| == |w.steps| && SameStatuses(base, w) && OnlySkips(w, d) && d != w && !d.status.WfFailed?
    ensures Differ(base.steps, d.steps) && Settled(d)
  {
    assert d.steps != w.steps;
    var j :| 0 <= j < |w.steps| && d.steps[j] != w.steps[j];
    assert base.steps[j].status != d.steps[j].status;
  }

  /** With nothing changed and nothing skipped, the pass waits or creates a run: the branch that
      finds no ready step and the branch that cannot resolve an input are not taken. */
  lemma DecideProceeds(cfg: Config, x: Actor, workflows: map<string, Workflow>, e: World)
    requires x.Refreshing? && ActorInv(cfg, x, workflows, e) && x.next == |x.draft.steps|
    requires !x.all && !x.changed && SkipFrom(x.draft, 0) == x.draft
    ensures var y := Decide(cfg, x.limit, x.base, x.draft, x.changed, x.all);
            (y.Reading? || y.Creating?) && ActorInv(cfg, y, workflows, e)
  {
    var d := x.draft;
    var y := Decide(cfg, x.limit, x.base, d, false, false);
    var next := ReadyStep(d);
    if ActiveCount(d.steps) < x.limit {
      if ActiveCount(d.steps) == 0 {
        SomeStepReady(d);
      }
      if next >= 0 {
        InputResolves(d, next, cfg.marshal);
        NothingSkipped(d, 0, e);
        assert !SkipsNow(d, next);
        assert CreatingOk(cfg, y);
      }
    }
  }

  lemma DecideOk(cfg: Config, x: Actor, workflows: map<string, Workflow>, e: World)
    requires x.Refreshing? && ActorInv(cfg, x, workflows, e) && x.next == |x.draft.steps|
    ensures ActorInv(cfg, Decide(cfg, x.limit, x.base, x.draft, x.changed, x.all), workflows, e)
  {
    if x.all {
      DecideSucceeds(cfg, x, workflows, e);
    } else if x.changed {
      DecideRefreshed(cfg, x, workflows, e);
    } else if SkipFrom(x.draft, 0) != x.draft {
      DecideSkips(cfg, x, workflows, e);
    } else {
      DecideProceeds(cfg, x, workflows, e);
    }
  }

  lemma NextOk(cfg: Config, x: Actor, workflows: map<string, Workflow>, e: World, read: Option<RunView>)
    requires ActorInv(cfg, x, workflows, e) && CanRefresh(x, read, e.runs)
    ensures var y := NextOf(cfg, x, read); y.Some? ==> ActorInv(cfg, y.value, workflows, e)
  {
    if x.next >= |x.draft.steps| {
      DecideOk(cfg, x, workflows, e);
    } else {
      match RefreshOne(x.draft, x.next, x.changed, x.all, read)
      case Going(_, _, _) => RefreshGoing(cfg, x, workflows, e, read);
      case Stopped(_) => RefreshStops(cfg, x, workflows, e, read);
      case LoadFailed(_) =>
    }
  }

  lemma RefreshKeepsInv(cfg: Config, s: Sched, a: nat, read: Option<RunView>)
    requires Inv(cfg, s)
    ensures Inv(cfg, StepRefreshed(cfg, s, a, read))
  {
    if a in s.actors && CanRefresh(s.actors[a], read, s.runs) {
      RefreshedKeepsInv(cfg, s, a, read);
    }
  }

  lemma RefreshedKeepsInv(cfg: Config, s: Sched, a: nat, read: Option<RunView>)
    requires Inv(cfg, s) && a in s.actors && CanRefresh(s.actors[a], read, s.runs)
    ensures Inv(cfg, RefreshStepOf(cfg, s, a, read))
  {
    assert ActorInv(cfg, s.actors[a], s.workflows, Env(s));
    NextOk(cfg, s.actors[a], s.workflows, Env(s), read);
    var y := NextOf(cfg, s.actors[a], read);
    if y.None? {
      LeaveKeepsInv(cfg, s, a);
    } else {
      MoveKeepsInv(cfg, s, a, y.value);
    }
  }

  lemma ReadKeepsInv(cfg: Config, s: Sched, a: nat)
    requires Inv(cfg, s)
    ensures Inv(cfg, WorkflowRead(s, a))
  {
    if a in s.actors && s.actors[a].Reading? {
      var x := s.actors[a];
      ReadingActor(cfg, s, a);
      var w := s.workflows[x.wf];
      if IsTerminal(w) {
        LeaveKeepsInv(cfg, s, a);
      } else {
        MoveKeepsInv(cfg, s, a, Refreshing(x.limit, w, w, 0, false, true));
      }
    }
  }

  lemma ReadingActor(cfg: Config, s: Sched, a: nat)
    requires Inv(cfg, s) && a in s.actors && s.actors[a].Reading?
    ensures var x := s.actors[a];
            && x.wf in s.workflows && (s.workflows[x.wf].status.WfRunning? || IsTerminal(s.workflows[x.wf]))
            && (!IsTerminal(s.workflows[x.wf]) ==>
                  ActorInv(cfg, Refreshing(x.limit, s.workflows[x.wf], s.workflows[x.wf], 0, false, true), s.workflows, Env(s)))
  {
    var x := s.actors[a];
    assert ActorInv(cfg, x, s.workflows, Env(s));
    if !IsTerminal(s.workflows[x.wf]) {
      FreshDraft(cfg, s, x.wf);
      FreshPass(cfg, x.limit, s.workflows[x.wf], s.workflows, Env(s));
    }
  }

  lemma FreshPass(cfg: Config, limit: nat, w: Workflow, workflows: map<string, Workflow>, e: World)
    requires 1 <= limit <= cfg.limit && w.status.WfRunning? && BaseOk(cfg, w, workflows) && DraftOk(w, w, e)
    ensures ActorInv(cfg, Refreshing(limit, w, w, 0, false, true), workflows, e)
  {
  }

  /** A record just read is a legal draft of itself. */
  lemma FreshDraft(cfg: Config, s: Sched, id: string)
    requires Inv(cfg, s) && id in s.workflows && !IsTerminal(s.workflows[id])
    ensures var w := s.workflows[id];
            w.def.id == id && BaseOk(cfg, w, s.workflows) && DraftOk(w, w, Env(s))
  {
    var w := s.workflows[id];
    assert StoredOk(cfg, id, w, s.tally[id], Env(s));
    assert Extends(w, w);
  }

  // ----- creating the run of a step ------------------------------------------------------------------------

  /** The draft that records the created run. */
  lemma QueuedDraft(cfg: Config, x: Actor, workflows: map<string, Workflow>, e: World, rid: string)
    requires x.Creating? && ActorInv(cfg, x, workflows, e) && rid != "" && Bound(x.draft.def, x.index, rid, e)
    ensures ActorInv(cfg, Writing(x.limit, x.base, QueueStep(x.draft, x.index, rid), Queueing), workflows, e)
  {
    var d := QueueStep(x.draft, x.index, rid);
    var st := d.steps[x.index];
    assert StepInv(x.draft, x.index, e);
    assert StepEvolves(x.draft.steps[x.index], st);
    forall j: nat | j < |d.steps|
      ensures StepInv(d, j, e)
    {
      if j != x.index {
        OthersKeepInv(x.draft, x.index, st, j, e);
      }
    }
    assert Extends(x.draft, d);
    ExtendsTransitive(x.base, x.draft, d);
    forall j: nat | j < |d.steps|
      ensures StepMoves(x.base.steps[j], d.steps[j])
    {
      assert StepMoves(x.base.steps[j], x.draft.steps[j]);
    }
    assert d.steps[x.index].status != x.base.steps[x.index].status && !Done(d.steps[x.index].status);
    OneMoreActive(x.draft.steps, d.steps, x.index);
    assert StatusInv(d);
  }

  /** What the draft under construction knows about the step also holds of the stored record. */
  lemma CreatingGrounds(cfg: Config, x: Actor, workflows: map<string, Workflow>, e: World)
    requires x.Creating? && ActorInv(cfg, x, workflows, e)
    ensures var cur := workflows[x.base.def.id];
            && cur.def == x.draft.def && Shaped(cur) && x.index < |cur.steps|
            && DepsDone(cur, x.index) && Keeps(cur, x.index)
            && x.input == InputFor(cur, x.index, cfg.marshal)
            && x.parent == FirstRunId(cur, cur.def.steps[x.index].dependsOn)
  {
    var cur := workflows[x.base.def.id];
    var i := x.index;
    assert StepRunnable(x.base.def, x.base.def.steps[i]);
    forall d <- x.base.def.steps[i].dependsOn
      ensures RefDone(x.base, d)
    {
      assert RefDone(x.draft, d);
    }
    KeepsStable(x.base, x.draft, i);
    InputStable(x.base, x.draft, i, cfg.marshal);
    ParentStable(x.base, x.draft, x.base.def.steps[i].dependsOn);
    DepsStable(x.base, cur, i);
    KeepsStable(x.base, cur, i);
    InputStable(x.base, cur, i, cfg.marshal);
    ParentStable(x.base, cur, x.base.def.steps[i].dependsOn);
  }

  /** The world after binding a new run to the key of the step being created. */
  function Bind(x: Actor, e: World, rid: string): World
    requires x.Creating? && x.index < |x.draft.def.steps|
  {
    World(e.runs[rid := RunView(Queued, x.parent, x.input, "", "")], e.keys[KeyOf(x.draft.def, x.index) := rid])
  }

  /** Only the step being created has the new key; for it the draft's knowledge applies. */
  lemma BindGrounded(cfg: Config, x: Actor, w: Workflow, i: nat, e: World, rid: string)
    requires x.Creating? && x.index < |x.draft.def.steps| && rid !in e.runs && KeyOf(x.draft.def, x.index) !in e.keys
    requires Runnable(w.def) && Runnable(x.draft.def) && Shaped(w) && i < |w.steps|
    requires KeyOf(w.def, i) in e.keys ==> Grounded(w, i, e, cfg.marshal)
    requires KeyOf(w.def, i) in Bind(x, e, rid).keys
    requires w.def.id == x.draft.def.id ==>
               && w.def == x.draft.def && x.index < |w.steps| && DepsDone(w, x.index) && Keeps(w, x.index)
               && x.input == InputFor(w, x.index, cfg.marshal)
               && x.parent == FirstRunId(w, w.def.steps[x.index].dependsOn)
    ensures Grounded(w, i, Bind(x, e, rid), cfg.marshal)
  {
    var f := Bind(x, e, rid);
    if KeyOf(w.def, i) in e.keys {
      assert Grows(e, f);
      GroundedGrows(w, i, e, f, cfg.marshal);
    } else {
      assert StepRunnable(w.def, w.def.steps[i]) && StepRunnable(x.draft.def, x.draft.def.steps[x.index]);
      StepKeysAreDistinct(w.def.id, w.def.steps[i].id, x.draft.def.id, x.draft.def.steps[x.index].id);
      assert i == x.index;
    }
  }

  lemma BindStored(cfg: Config, x: Actor, workflows: map<string, Workflow>, e: World, rid: string, id: string, t: Tally)
    requires x.Creating? && ActorInv(cfg, x, workflows, e) && id in workflows
    requires StoredOk(cfg, id, workflows[id], t, e)
    requires rid !in e.runs && KeyOf(x.draft.def, x.index) !in e.keys
    ensures StoredOk(cfg, id, workflows[id], t, Bind(x, e, rid))
  {
    var f := Bind(x, e, rid);
    var w := workflows[id];
    assert Grows(e, f);
    WfInvGrows(w, e, f);
    CreatingGrounds(cfg, x, workflows, e);
    forall i: nat | i < |w.steps| && KeyOf(w.def, i) in f.keys
      ensures Grounded(w, i, f, cfg.marshal)
    {
      BindGrounded(cfg, x, w, i, e, rid);
    }
  }

  lemma BindKeys(cfg: Config, s: Sched, x: Actor, rid: string)
    requires KeysInv(s) && x.Creating? && ActorInv(cfg, x, s.workflows, Env(s)) && rid != ""
    ensures var f := Bind(x, Env(s), rid); KeysInv(s.(keys := f.keys, runs := f.runs))
  {
    var f := Bind(x, Env(s), rid);
    assert StepRunnable(x.draft.def, x.draft.def.steps[x.index]);
    assert Owned(KeyOf(x.draft.def, x.index), s.workflows);
    forall k <- f.keys
      ensures f.keys[k] != "" && f.keys[k] in f.runs && Owned(k, s.workflows)
    {
      assert k == KeyOf(x.draft.def, x.index) || k in s.keys;
    }
  }

  lemma BindStoredInv(cfg: Config, s: Sched, x: Actor, rid: string)
    requires StoredInv(cfg, s) && x.Creating? && ActorInv(cfg, x, s.workflows, Env(s))
    requires rid !in s.runs && KeyOf(x.draft.def, x.index) !in s.keys
    ensures var f := Bind(x, Env(s), rid); StoredInv(cfg, s.(keys := f.keys, runs := f.runs))
  {
    var f := Bind(x, Env(s), rid);
    var t := s.(keys := f.keys, runs := f.runs);
    assert Env(t) == f;
    forall id <- t.workflows
      ensures StoredOk(cfg, id, t.workflows[id], t.tally[id], Env(t))
    {
      BindStored(cfg, x, s.workflows, Env(s), rid, id, s.tally[id]);
    }
  }

  lemma BindActorsInv(cfg: Config, s: Sched, x: Actor, rid: string)
    requires ActorsInv(cfg, s) && x.Creating? && x.index < |x.draft.def.steps|
    requires rid !in s.runs && KeyOf(x.draft.def, x.index) !in s.keys
    ensures var f := Bind(x, Env(s), rid); ActorsInv(cfg, s.(keys := f.keys, runs := f.runs))
  {
    var f := Bind(x, Env(s), rid);
    var t := s.(keys := f.keys, runs := f.runs);
    assert Env(t) == f;
    assert Grows(Env(s), f);
    forall b <- t.actors
      ensures ActorInv(cfg, t.actors[b], t.workflows, Env(t))
    {
      ActorInvGrows(cfg, s.actors[b], s.workflows, Env(s), f);
    }
  }

  /** Binding a new run to a free step key. */
  lemma BindKeepsInv(cfg: Config, s: Sched, x: Actor, rid: string)
    requires Inv(cfg, s) && x.Creating? && ActorInv(cfg, x, s.workflows, Env(s))
    requires rid != "" && rid !in s.runs && KeyOf(x.draft.def, x.index) !in s.keys
    ensures var f := Bind(x, Env(s), rid); Inv(cfg, s.(keys := f.keys, runs := f.runs))
  {
    BindKeys(cfg, s, x, rid);
    BindStoredInv(cfg, s, x, rid);
    BindActorsInv(cfg, s, x, rid);
  }

  lemma CreateFails(cfg: Config, x: Actor, workflows: map<string, Workflow>, e: World)
    requires x.Creating? && ActorInv(cfg, x, workflows, e)
    ensures ActorInv(cfg, Writing(x.limit, x.base, FailWith(x.draft, CREATION_FAILED), Failing(CreateProblem)), workflows, e)
  {
    EndedDraft(cfg, x.base, x.draft, WfFailed, CREATION_FAILED, e);
    assert !Done(FailWith(x.draft, CREATION_FAILED).steps[x.index].status);
    assert !AllDone(FailWith(x.draft, CREATION_FAILED));
  }

  lemma CreateRunKeepsInv(cfg: Config, s: Sched, a: nat, rid: string, fails: bool)
    requires Inv(cfg, s) && a in s.actors && s.actors[a].Creating?
    requires s.actors[a].index < |s.actors[a].draft.steps| == |s.actors[a].draft.def.steps|
    ensures Inv(cfg, CreateRunOf(s, a, rid, fails))
  {
    var x := s.actors[a];
    assert ActorInv(cfg, x, s.workflows, Env(s));
    var key := KeyOf(x.draft.def, x.index);
    if fails {
      CreateFails(cfg, x, s.workflows, Env(s));
      MoveKeepsInv(cfg, s, a, Writing(x.limit, x.base, FailWith(x.draft, CREATION_FAILED), Failing(CreateProblem)));
    } else if key in s.keys {
      QueuedDraft(cfg, x, s.workflows, Env(s), s.keys[key]);
      MoveKeepsInv(cfg, s, a, Writing(x.limit, x.base, QueueStep(x.draft, x.index, s.keys[key]), Queueing));
    } else if rid != "" && rid !in s.runs {
      BoundRunKeepsInv(cfg, s, a, rid);
    }
  }

  lemma BoundRunKeepsInv(cfg: Config, s: Sched, a: nat, rid: string)
    requires Inv(cfg, s) && a in s.actors && s.actors[a].Creating?
    requires ActorInv(cfg, s.actors[a], s.workflows, Env(s))
    requires rid != "" && rid !in s.runs && KeyOf(s.actors[a].draft.def, s.actors[a].index) !in s.keys
    ensures Inv(cfg, CreateRunOf(s, a, rid, false))
  {
    var x := s.actors[a];
    var f := Bind(x, Env(s), rid);
    BindKeepsInv(cfg, s, x, rid);
    var t := s.(keys := f.keys, runs := f.runs);
    assert ActorInv(cfg, t.actors[a], t.workflows, Env(t));
    QueuedDraft(cfg, x, t.workflows, Env(t), rid);
    MoveKeepsInv(cfg, t, a, Writing(x.limit, x.base, QueueStep(x.draft, x.index, rid), Queueing));
  }

  // ----- the compare-and-swap ------------------------------------------------------------------------------

  /** What a successful write stores. */
  function Stored(base: Workflow, draft: Workflow): Workflow {
    base.(status := draft.status, error := draft.error, version := base.version + 1, steps := draft.steps)
  }

  lemma StoredEvolves(cfg: Config, x: Actor, workflows: map<string, Workflow>, e: World)
    requires x.Writing? && ActorInv(cfg, x, workflows, e)
    ensures var w := Stored(x.base, x.draft);
            Evolves(x.base, w) && WfInv(w, e) && Settled(w) && ActiveCount(w.steps) <= cfg.limit && w.def == x.base.def
  {
    var w := Stored(x.base, x.draft);
    assert w.def == x.draft.def;
    forall i: nat | i < |w.steps|
      ensures StepInv(w, i, e) && StepEvolves(x.base.steps[i], w.steps[i])
    {
      assert StepInv(x.draft, i, e);
      SameStepInv(x.draft, w, i, e);
    }
  }

  lemma StoredKeepsGrounds(cfg: Config, v: Workflow, w: Workflow, e: World)
    requires Shaped(v) && Runnable(v.def) && Extends(v, w) && KeysGrounded(v, e, cfg.marshal)
    ensures KeysGrounded(w, e, cfg.marshal)
  {
    forall i: nat | i < |w.steps| && KeyOf(w.def, i) in e.keys
      ensures Grounded(w, i, e, cfg.marshal)
    {
      assert Grounded(v, i, e, cfg.marshal);
      GroundedEvolves(v, w, i, e, cfg.marshal);
    }
  }

  /** A scheduler write pays for itself: the rank falls by the number of changed steps, or the
      workflow ends. Starting and canceling never raise the rank. */
  lemma StoredBudget(cfg: Config, x: Actor, workflows: map<string, Workflow>, e: World, t: Tally)
    requires x.Writing? && ActorInv(cfg, x, workflows, e) && Budget(x.base, t)
    ensures var w := Stored(x.base, x.draft);
            Budget(w, if BySchedulerLoop(x.kind) then Count(t, x.base, x.draft) else t)
  {
    var w := Stored(x.base, x.draft);
    if x.kind.StartingWf? {
      assert w.steps == x.base.steps;
    } else if IsTerminal(x.draft) {
      assert StatusInv(x.draft);
      RankOfFinished(x.draft.steps);
    } else {
      RankDrops(x.base.steps, x.draft.steps);
      DifferCounts(x.base.steps, x.draft.steps);
    }
  }

  /** A stored record moving to its next version disturbs no participant. */
  lemma ActorAfterWrite(cfg: Config, x: Actor, workflows: map<string, Workflow>, e: World, id: string, w: Workflow)
    requires ActorInv(cfg, x, workflows, e) && id in workflows && workflows[id].def.id == id
    requires Evolves(workflows[id], w) && w.version > workflows[id].version
    ensures ActorInv(cfg, x, workflows[id := w], e)
  {
    if !x.Reading? && x.base.def.id == id {
      ExtendsTransitive(x.base, workflows[id], w);
    }
  }

  /** The state right after a successful compare-and-swap, before the caller moves on. */
  lemma SwapKeepsInv(cfg: Config, s: Sched, x: Actor, t: Tally)
    requires Inv(cfg, s) && x.Writing? && ActorInv(cfg, x, s.workflows, Env(s))
    requires s.workflows[x.base.def.id] == x.base
    requires t == if BySchedulerLoop(x.kind) then Count(s.tally[x.base.def.id], x.base, x.draft) else s.tally[x.base.def.id]
    ensures var id := x.base.def.id;
            Inv(cfg, s.(workflows := s.workflows[id := Stored(x.base, x.draft)], tally := s.tally[id := t]))
  {
    var id := x.base.def.id;
    var w := Stored(x.base, x.draft);
    var u := s.(workflows := s.workflows[id := w], tally := s.tally[id := t]);
    assert Env(u) == Env(s);
    assert StoredOk(cfg, id, x.base, s.tally[id], Env(s));
    StoredEvolves(cfg, x, s.workflows, Env(s));
    StoredKeepsGrounds(cfg, x.base, w, Env(s));
    StoredBudget(cfg, x, s.workflows, Env(s), s.tally[id]);
    assert StoredOk(cfg, id, w, t, Env(u));
    SwapStored(cfg, s.workflows, s.tally, id, w, t, Env(s));
    SwapKeys(s, id, w, t);
    forall b <- u.actors
      ensures ActorInv(cfg, u.actors[b], u.workflows, Env(u))
    {
      ActorAfterWrite(cfg, s.actors[b], s.workflows, Env(s), id, w);
    }
  }

  lemma SwapStored(cfg: Config, workflows: map<string, Workflow>, tally: map<string, Tally>, id: string, w: Workflow, t: Tally, e: World)
    requires AllStored(cfg, workflows, tally, e) && StoredOk(cfg, id, w, t, e)
    ensures AllStored(cfg, workflows[id := w], tally[id := t], e)
  {
  }

  lemma SwapKeys(s: Sched, id: string, w: Workflow, t: Tally)
    requires KeysInv(s)
    ensures KeysInv(s.(workflows := s.workflows[id := w], tally := s.tally[id := t]))
  {
    var u := s.(workflows := s.workflows[id := w], tally := s.tally[id := t]);
    forall k <- u.keys
      ensures Owned(k, u.workflows)
    {
      assert Owned(k, s.workflows);
      var i, name :| i in s.workflows && ValidStepId(name) && k == StepKey(i, name);
      assert i in u.workflows;
    }
  }

  /** The state a successful compare-and-swap leaves behind. */
  function Swapped(s: Sched, x: Actor): Sched
    requires x.Writing? && x.base.def.id in s.tally
  {
    var id := x.base.def.id;
    var t := if BySchedulerLoop(x.kind) then Count(s.tally[id], x.base, x.draft) else s.tally[id];
    s.(workflows := s.workflows[id := Stored(x.base, x.draft)], tally := s.tally[id := t])
  }

  lemma SwapSucceeds(s: Sched, a: nat)
    requires a in s.actors && s.actors[a].Writing?
    requires var x := s.actors[a];
             && x.base.def.id in s.workflows && x.base.def.id in s.tally && s.workflows[x.base.def.id] == x.base
             && x.base.version >= 1 && |x.base.steps| == |x.draft.steps| && x.draft.def == x.base.def
    ensures WriteOf(s, a) == AfterWrite(Swapped(s, s.actors[a]), a, s.actors[a].kind, s.actors[a].base.def.id, s.actors[a].limit, true)
  {
    var x := s.actors[a];
    var id := x.base.def.id;
    assert s.tally[id := s.tally[id]] == s.tally;
    assert Update(s.workflows[id], x.draft, x.base.version) == Ok(Stored(x.base, x.draft));
  }

  lemma SwapFails(s: Sched, a: nat)
    requires a in s.actors && s.actors[a].Writing?
    requires var x := s.actors[a];
             && x.base.def.id in s.workflows && x.base.def.id in s.tally && s.workflows[x.base.def.id].version != x.base.version
    ensures WriteOf(s, a) == AfterWrite(s, a, s.actors[a].kind, s.actors[a].base.def.id, s.actors[a].limit, false)
  {
  }

  lemma WriteKeepsInv(cfg: Config, s: Sched, a: nat)
    requires Inv(cfg, s) && a in s.actors && s.actors[a].Writing?
    ensures Inv(cfg, WriteOf(s, a))
  {
    var x := s.actors[a];
    assert ActorInv(cfg, x, s.workflows, Env(s));
    if s.workflows[x.base.def.id].version == x.base.version {
      SwapSucceeds(s, a);
      SwapKeepsInv(cfg, s, x, Swapped(s, x).tally[x.base.def.id]);
      assert ActorInv(cfg, Swapped(s, x).actors[a], Swapped(s, x).workflows, Env(Swapped(s, x)));
      AfterWriteKeepsInv(cfg, Swapped(s, x), a, x, true);
    } else {
      SwapFails(s, a);
      AfterWriteKeepsInv(cfg, s, a, x, false);
    }
  }

  lemma AfterWriteKeepsInv(cfg: Config, s: Sched, a: nat, x: Actor, stored: bool)
    requires Inv(cfg, s) && x.Writing? && ActorInv(cfg, x, s.workflows, Env(s))
    ensures Inv(cfg, AfterWrite(s, a, x.kind, x.base.def.id, x.limit, stored))
  {
    LeaveKeepsInv(cfg, s, a);
    if BySchedulerLoop(x.kind) {
      ReadsOn(cfg, x, s.workflows, Env(s));
      MoveKeepsInv(cfg, s, a, Reading(x.base.def.id, x.limit));
    }
  }

  lemma ReadingOk(cfg: Config, wf: string, limit: nat, workflows: map<string, Workflow>, e: World)
    requires wf in workflows && !workflows[wf].status.WfPending? && 1 <= limit <= cfg.limit
    ensures ActorInv(cfg, Reading(wf, limit), workflows, e)
  {
  }

  /** A manager may go back to reading after its write. */
  lemma ReadsOn(cfg: Config, x: Actor, workflows: map<string, Workflow>, e: World)
    requires x.Writing? && ActorInv(cfg, x, workflows, e) && BySchedulerLoop(x.kind)
    ensures ActorInv(cfg, Reading(x.base.def.id, x.limit), workflows, e)
  {
  }

  // ----- the remaining actions -------------------------------------------------------------------------------

  lemma CancelBegunKeepsInv(cfg: Config, s: Sched, a: nat, wf: string)
    requires Inv(cfg, s)
    ensures Inv(cfg, CancelBegun(s, a, wf))
  {
    if a !in s.actors && wf in s.workflows && !IsTerminal(s.workflows[wf]) {
      var w := s.workflows[wf];
      CancelingActor(cfg, s, wf);
      MoveKeepsInv(cfg, s, a, Writing(0, w, w.(status := WfCanceled, steps := CancelUnfinished(w.steps)), CancelingWf));
    }
  }

  lemma StartBegunKeepsInv(cfg: Config, s: Sched, a: nat, wf: string)
    requires Inv(cfg, s)
    ensures Inv(cfg, StartBegun(s, a, wf))
  {
    if a !in s.actors && wf in s.workflows && s.workflows[wf].status.WfPending? {
      var w := s.workflows[wf];
      StartingActor(cfg, s, wf);
      MoveKeepsInv(cfg, s, a, Writing(0, w, w.(status := WfRunning), StartingWf));
    }
  }

  lemma CancelingActor(cfg: Config, s: Sched, wf: string)
    requires Inv(cfg, s) && wf in s.workflows && !IsTerminal(s.workflows[wf])
    ensures var w := s.workflows[wf];
            ActorInv(cfg, Writing(0, w, w.(status := WfCanceled, steps := CancelUnfinished(w.steps)), CancelingWf), s.workflows, Env(s))
  {
    FreshDraft(cfg, s, wf);
    CancelingOk(cfg, s.workflows[wf], s.workflows, Env(s));
  }

  lemma CancelingOk(cfg: Config, w: Workflow, workflows: map<string, Workflow>, e: World)
    requires BaseOk(cfg, w, workflows) && DraftOk(w, w, e)
    ensures ActorInv(cfg, Writing(0, w, w.(status := WfCanceled, steps := CancelUnfinished(w.steps)), CancelingWf), workflows, e)
  {
    EndedDraft(cfg, w, w, WfCanceled, w.error, e);
    CancelSettled(w);
  }

  lemma StartingActor(cfg: Config, s: Sched, wf: string)
    requires Inv(cfg, s) && wf in s.workflows && s.workflows[wf].status.WfPending?
    ensures var w := s.workflows[wf]; ActorInv(cfg, Writing(0, w, w.(status := WfRunning), StartingWf), s.workflows, Env(s))
  {
    FreshDraft(cfg, s, wf);
    StartingOk(cfg, s.workflows[wf], s.workflows, Env(s));
  }

  lemma StartingOk(cfg: Config, w: Workflow, workflows: map<string, Workflow>, e: World)
    requires BaseOk(cfg, w, workflows) && DraftOk(w, w, e) && w.status.WfPending?
    ensures ActorInv(cfg, Writing(0, w, w.(status := WfRunning), StartingWf), workflows, e)
  {
    StartDraft(cfg, w, e);
  }

  /** Canceling changes no finished step. */
  lemma CancelSettled(w: Workflow)
    requires Settled(w) && !w.status.WfSucceeded?
    ensures var d := w.(status := WfCanceled, steps := CancelUnfinished(w.steps)); Settled(d) && EndsAsBegun(w, d)
  {
    var d := w.(status := WfCanceled, steps := CancelUnfinished(w.steps));
    if AllDone(d) {
      assert forall i :: 0 <= i < |w.steps| ==> Done(d.steps[i].status);
      var i :| 0 <= i < |w.steps| && w.steps[i].status.StepSkipped?;
      assert d.steps[i].status.StepSkipped?;
    }
  }

  lemma StartDraft(cfg: Config, w: Workflow, e: World)
    requires DraftOk(w, w, e) && w.status.WfPending? && Runnable(w.def)
    ensures DraftOk(w, w.(status := WfRunning), e) && Settled(w.(status := WfRunning))
  {
    var d := w.(status := WfRunning);
    assert !Done(d.steps[0].status);
    forall i: nat | i < |d.steps|
      ensures StepInv(d, i, e) && StepEvolves(w.steps[i], d.steps[i])
    {
      SameStepInv(w, d, i, e);
    }
  }

  lemma NewStoredOk(cfg: Config, s: Sched, def: Definition)
    requires KeysInv(s) && def.id !in s.workflows && Runnable(def)
    ensures StoredOk(cfg, def.id, NewWorkflow(def), Tally(0, 0), Env(s))
  {
    var w := NewWorkflow(def);
    FreshRank(w.steps);
    assert !Done(w.steps[0].status);
    forall i: nat | i < |w.steps|
      ensures KeyOf(w.def, i) !in s.keys
    {
      assert StepRunnable(def, def.steps[i]);
      NewKeyIsFree(s, def.id, def.steps[i].id);
    }
  }

  lemma AdmitActors(cfg: Config, s: Sched, id: string, w: Workflow)
    requires ActorsInv(cfg, s) && id !in s.workflows
    ensures forall b <- s.actors :: ActorInv(cfg, s.actors[b], s.workflows[id := w], Env(s))
  {
    forall b <- s.actors
      ensures ActorInv(cfg, s.actors[b], s.workflows[id := w], Env(s))
    {
      assert ActorInv(cfg, s.actors[b], s.workflows, Env(s));
    }
  }

  lemma AdmitKeepsInv(cfg: Config, s: Sched, def: Definition)
    requires Inv(cfg, s) && def.id !in s.workflows && Runnable(def)
    ensures Inv(cfg, s.(workflows := s.workflows[def.id := NewWorkflow(def)], tally := s.tally[def.id := Tally(0, 0)]))
  {
    NewStoredOk(cfg, s, def);
    AdmitStored(cfg, s, def);
    SwapKeys(s, def.id, NewWorkflow(def), Tally(0, 0));
    AdmitActors(cfg, s, def.id, NewWorkflow(def));
    var u := s.(workflows := s.workflows[def.id := NewWorkflow(def)], tally := s.tally[def.id := Tally(0, 0)]);
    assert Env(u) == Env(s);
    assert ActorsInv(cfg, u);
  }

  lemma AdmitStored(cfg: Config, s: Sched, def: Definition)
    requires StoredInv(cfg, s) && StoredOk(cfg, def.id, NewWorkflow(def), Tally(0, 0), Env(s))
    ensures StoredInv(cfg, s.(workflows := s.workflows[def.id := NewWorkflow(def)], tally := s.tally[def.id := Tally(0, 0)]))
  {
    var u := s.(workflows := s.workflows[def.id := NewWorkflow(def)], tally := s.tally[def.id := Tally(0, 0)]);
    assert Env(u) == Env(s);
    forall k <- u.workflows
      ensures StoredOk(cfg, k, u.workflows[k], u.tally[k], Env(u))
    {
      if k != def.id {
        assert StoredOk(cfg, k, s.workflows[k], s.tally[k], Env(s));
      }
    }
  }

  /** Keys belong to admitted workflows, so a new workflow's keys are free. */
  lemma NewKeyIsFree(s: Sched, id: string, name: string)
    requires KeysInv(s) && id !in s.workflows && ValidStepId(name)
    ensures StepKey(id, name) !in s.keys
  {
    if StepKey(id, name) in s.keys {
      assert Owned(StepKey(id, name), s.workflows);
      var i, n :| i in s.workflows && ValidStepId(n) && StepKey(id, name) == StepKey(i, n);
      StepKeysAreDistinct(id, name, i, n);
    }
  }

  lemma SpawnKeepsInv(cfg: Config, s: Sched, a: nat, wf: string, concurrency: int)
    requires Inv(cfg, s)
    ensures Inv(cfg, Spawned(cfg, s, a, wf, concurrency))
  {
    if wf in s.workflows && s.workflows[wf].status.WfRunning? && Clamp(concurrency) <= cfg.limit {
      ReadingOk(cfg, wf, Clamp(concurrency), s.workflows, Env(s));
      MoveKeepsInv(cfg, s, a, Reading(wf, Clamp(concurrency)));
    }
  }

  lemma RunMovesKeepsInv(cfg: Config, s: Sched, rid: string, view: RunView)
    requires Inv(cfg, s) && (rid in s.runs ==> Lifecycle(s.runs[rid], view))
    ensures Inv(cfg, s.(runs := s.runs[rid := view]))
  {
    RunsStepGrows(s, rid, view);
    RunsGrowKeepsInv(cfg, s, s.runs[rid := view]);
  }

  lemma RunsStepGrows(s: Sched, rid: string, view: RunView)
    requires rid in s.runs ==> Lifecycle(s.runs[rid], view)
    ensures Grows(Env(s), World(s.runs[rid := view], s.keys))
  {
  }

  lemma AdmittedKeepsInv(cfg: Config, s: Sched, def: Definition)
    requires Inv(cfg, s)
    ensures Inv(cfg, Admitted(s, def))
  {
    if def.id !in s.workflows && Runnable(def) {
      AdmitKeepsInv(cfg, s, def);
    }
  }

  lemma RunMovedKeepsInv(cfg: Config, s: Sched, rid: string, view: RunView)
    requires Inv(cfg, s)
    ensures Inv(cfg, RunMoved(s, rid, view)) && Inv(cfg, RunAdded(s, rid, view))
  {
    if rid in s.runs ==> Lifecycle(s.runs[rid], view) {
      RunMovesKeepsInv(cfg, s, rid, view);
    }
  }

  lemma RunCreatedKeepsInv(cfg: Config, s: Sched, a: nat, rid: string, fails: bool)
    requires Inv(cfg, s)
    ensures Inv(cfg, RunCreated(s, a, rid, fails))
  {
    var t := RunCreated(s, a, rid, fails);
    if t != s {
      assert t == CreateRunOf(s, a, rid, fails);
      CreateRunKeepsInv(cfg, s, a, rid, fails);
    }
  }

  lemma WrittenKeepsInv(cfg: Config, s: Sched, a: nat)
    requires Inv(cfg, s)
    ensures Inv(cfg, Written(s, a))
  {
    if a in s.actors && s.actors[a].Writing? {
      WriteKeepsInv(cfg, s, a);
    }
  }

  lemma StepKeepsInv(cfg: Config, s: Sched, act: Action)
    requires Inv(cfg, s)
    ensures Inv(cfg, Step(cfg, s, act))
  {
    match act
    case Admit(def) => AdmittedKeepsInv(cfg, s, def);
    case BeginStart(a, wf) => StartBegunKeepsInv(cfg, s, a, wf);
    case BeginCancel(a, wf) => CancelBegunKeepsInv(cfg, s, a, wf);
    case Spawn(a, wf, concurrency) => SpawnKeepsInv(cfg, s, a, wf, concurrency);
    case Read(a) => ReadKeepsInv(cfg, s, a);
    case Refresh(a, read) => RefreshKeepsInv(cfg, s, a, read);
    case CreateRun(a, rid, fails) => RunCreatedKeepsInv(cfg, s, a, rid, fails);
    case Write(a) => WrittenKeepsInv(cfg, s, a);
    case Kill(a) => LeaveKeepsInv(cfg, s, a);
    case RunMoves(rid, view) => RunMovedKeepsInv(cfg, s, rid, view);
    case OtherRun(rid, view) => RunMovedKeepsInv(cfg, s, rid, view);
  }

  lemma EmptyInv(cfg: Config)
    ensures Inv(cfg, EMPTY)
  {
  }

  lemma {:induction false} ExecKeepsInv(cfg: Config, s: Sched, acts: seq<Action>)
    requires Inv(cfg, s)
    ensures Inv(cfg, Exec(cfg, s, acts))
    decreases |acts|
  {
    if acts == [] {
    } else {
      StepKeepsInv(cfg, s, acts[0]);
      ExecKeepsInv(cfg, Step(cfg, s, acts[0]), acts[1..]);
    }
  }
}
