/** The workflow scheduler as a state machine: any number of managers, starters and cancellers
    work on stored workflows through version compare-and-swap, while runs move on their own
    (internal/workflow/manager.go). */
module Scheduler {
  import opened Basics
  import opened Runs
  import opened Workflows
  import opened Manager
  import opened StepKeys

  /** The largest concurrency limit any manager was configured with, and the JSON encoder. */
  datatype Config = Config(limit: nat, marshal: Marshal)

  datatype Reason = NotReady | InputProblem | CreateProblem

  /** What a pending `UpdateWorkflow` call is for. */
  datatype Kind = Terminating | Refreshed | Skipping | Queueing | Failing(reason: Reason) | StartingWf | CancelingWf

  /** A manager inside `reconcile`, or a start or cancel request between its read and its write.
      `base` is the record it read, `draft` the record it is preparing. */
  datatype Actor =
    | Reading(wf: string, limit: nat)
    | Refreshing(limit: nat, base: Workflow, draft: Workflow, next: nat, changed: bool, all: bool)
    | Creating(limit: nat, base: Workflow, draft: Workflow, index: nat, input: string, parent: string)
    | Writing(limit: nat, base: Workflow, draft: Workflow, kind: Kind)

  /** Successful scheduler writes of a workflow, and running steps they put back to queued. */
  datatype Tally = Tally(writes: nat, regressions: nat)

  datatype Sched = Sched(
    workflows: map<string, Workflow>,
    runs: map<string, RunView>,
    keys: map<string, string>,
    actors: map<nat, Actor>,
    tally: map<string, Tally>)

  datatype Action =
    | Admit(def: Definition)
    | BeginStart(a: nat, wf: string)
    | BeginCancel(a: nat, wf: string)
    | Spawn(a: nat, wf: string, concurrency: int)
    | Read(a: nat)
    | Refresh(a: nat, read: Option<RunView>)
    | CreateRun(a: nat, rid: string, fails: bool)
    | Write(a: nat)
    | Kill(a: nat)
    | RunMoves(rid: string, view: RunView)
    | OtherRun(rid: string, view: RunView)

  function Move(s: Sched, a: nat, x: Actor): Sched {
    s.(actors := s.actors[a := x])
  }

  function Leave(s: Sched, a: nat): Sched {
    s.(actors := s.actors - {a})
  }

  /** `NewWithCoordinator` raises a limit below one to one. */
  function Clamp(concurrency: int): nat {
    if concurrency < 1 then 1 else concurrency
  }

  /** What fenced execution lets a run do: keep its input and parent, and never leave a terminal
      status (module Execution). */
  predicate Lifecycle(v: RunView, v': RunView) {
    v'.input == v.input && v'.parent == v.parent && (Terminal(v.status) ==> v' == v)
  }

  /** The rest of a reconcile pass once every step was refreshed. */
  function Decide(cfg: Config, limit: nat, base: Workflow, draft: Workflow, changed: bool, all: bool): Actor
    requires Shaped(draft)
  {
    if all then Writing(limit, base, draft.(status := WfSucceeded, error := ""), Terminating)
    else if changed then Writing(limit, base, draft, Refreshed)
    else
      var skipped := SkipFrom(draft, 0);
      if skipped != draft then Writing(limit, base, skipped, Skipping)
      else if ActiveCount(draft.steps) >= limit then Reading(base.def.id, limit)
      else
        var next := ReadyStep(draft);
        if next < 0 then
          if ActiveCount(draft.steps) > 0 then Reading(base.def.id, limit)
          else Writing(limit, base, FailWith(draft, "no workflow step is ready"), Failing(NotReady))
        else
          match ResolveInput(draft, next, cfg.marshal)
          case Err(_) => Writing(limit, base, FailWith(draft, "input not resolved"), Failing(InputProblem))
          case Ok((input, parent)) => Creating(limit, base, draft, next, input, parent)
  }

  function QueueStep(draft: Workflow, i: nat, rid: string): Workflow
    requires i < |draft.steps|
  {
    SetStep(draft, i, draft.steps[i].(status := StepQueued, runId := rid))
  }

  /** What `GetRun` may answer for the run of a step: an error, the present value, or, through a cache,
      any earlier one. A step already recorded succeeded is read as succeeded; the lemma
      `SchedulerTheorems.RecordedSuccessKeptIff` shows that this is what keeps the record. */
  predicate ReadOk(st: StepState, read: Option<RunView>, runs: map<string, RunView>) {
    st.runId != "" && read.Some? ==>
      && st.runId in runs && Lifecycle(read.value, runs[st.runId])
      && (st.status.StepSucceeded? ==> read.value.status.Succeeded?)
  }

  predicate CanRefresh(x: Actor, read: Option<RunView>, runs: map<string, RunView>) {
    x.Refreshing? && Shaped(x.draft) && (x.next < |x.draft.steps| ==> ReadOk(x.draft.steps[x.next], read, runs))
  }

  /** One turn of a pass: the refresh of one step, or the decision at its end; `None` when a run
      could not be loaded and the manager gives up. */
  function NextOf(cfg: Config, x: Actor, read: Option<RunView>): Option<Actor>
    requires x.Refreshing? && Shaped(x.draft)
  {
    if x.next >= |x.draft.steps| then Some(Decide(cfg, x.limit, x.base, x.draft, x.changed, x.all))
    else
      match RefreshOne(x.draft, x.next, x.changed, x.all, read)
      case Going(w, changed, all) => Some(Refreshing(x.limit, x.base, w, x.next + 1, changed, all))
      case Stopped(w) => Some(Writing(x.limit, x.base, w, Terminating))
      case LoadFailed(_) => None
  }

  function RefreshStepOf(cfg: Config, s: Sched, a: nat, read: Option<RunView>): Sched
    requires a in s.actors && s.actors[a].Refreshing? && Shaped(s.actors[a].draft)
  {
    var y := NextOf(cfg, s.actors[a], read);
    if y.None? then Leave(s, a) else Move(s, a, y.value)
  }

  /** Stands for the text of a creation error. */
  const CREATION_FAILED := "run not created"

  /** `CreateRun` with the step's key: an existing binding wins, otherwise `rid` is inserted. */
  function CreateRunOf(s: Sched, a: nat, rid: string, fails: bool): Sched
    requires a in s.actors && s.actors[a].Creating? && s.actors[a].index < |s.actors[a].draft.steps| == |s.actors[a].draft.def.steps|
  {
    var x := s.actors[a];
    var key := StepKey(x.draft.def.id, x.draft.def.steps[x.index].id);
    if fails then Move(s, a, Writing(x.limit, x.base, FailWith(x.draft, CREATION_FAILED), Failing(CreateProblem)))
    else if key in s.keys then Move(s, a, Writing(x.limit, x.base, QueueStep(x.draft, x.index, s.keys[key]), Queueing))
    else if rid == "" || rid in s.runs then s
    else
      var t := s.(keys := s.keys[key := rid], runs := s.runs[rid := RunView(Queued, x.parent, x.input, "", "")]);
      Move(t, a, Writing(x.limit, x.base, QueueStep(x.draft, x.index, rid), Queueing))
  }

  function StepRank(status: StepStatus): nat {
    match status
    case StepPending => 3
    case StepQueued => 2
    case StepRunning => 1
    case _ => 0
  }

  function Rank(steps: seq<StepState>): nat {
    if steps == [] then 0 else StepRank(steps[0].status) + Rank(steps[1..])
  }

  predicate Regresses(b: StepState, d: StepState) {
    b.status.StepRunning? && d.status.StepQueued?
  }

  function Regressions(b: seq<StepState>, d: seq<StepState>): nat
    requires |b| == |d|
  {
    if b == [] then 0 else (if Regresses(b[0], d[0]) then 1 else 0) + Regressions(b[1..], d[1..])
  }

  predicate BySchedulerLoop(kind: Kind) {
    !kind.StartingWf? && !kind.CancelingWf?
  }

  /** What the caller does after the compare-and-swap. */
  function AfterWrite(s: Sched, a: nat, kind: Kind, wf: string, limit: nat, stored: bool): Sched {
    if kind.Failing? || kind.StartingWf? || kind.CancelingWf? || (kind.Terminating? && stored) then Leave(s, a)
    else Move(s, a, Reading(wf, limit))
  }

  function Count(t: Tally, base: Workflow, draft: Workflow): Tally {
    if |base.steps| == |draft.steps| then Tally(t.writes + 1, t.regressions + Regressions(base.steps, draft.steps))
    else Tally(t.writes + 1, t.regressions)
  }

  function WriteOf(s: Sched, a: nat): Sched
    requires a in s.actors && s.actors[a].Writing?
  {
    var x := s.actors[a];
    var wf := x.base.def.id;
    if wf !in s.workflows || wf !in s.tally then Leave(s, a)
    else
      match Update(s.workflows[wf], x.draft, x.base.version)
      case Err(Conflict) => AfterWrite(s, a, x.kind, wf, x.limit, false)
      case Err(_) => Leave(s, a)
      case Ok(w) =>
        var tally := if BySchedulerLoop(x.kind) then s.tally[wf := Count(s.tally[wf], x.base, x.draft)] else s.tally;
        AfterWrite(s.(workflows := s.workflows[wf := w], tally := tally), a, x.kind, wf, x.limit, true)
  }

  // ----- the actions; one that is not enabled changes nothing ----------------------------------------------

  ghost function Admitted(s: Sched, def: Definition): Sched {
    if def.id in s.workflows || !Runnable(def) then s
    else s.(workflows := s.workflows[def.id := NewWorkflow(def)], tally := s.tally[def.id := Tally(0, 0)])
  }

  function StartBegun(s: Sched, a: nat, wf: string): Sched {
    if a in s.actors || wf !in s.workflows || !s.workflows[wf].status.WfPending? then s
    else
      var w := s.workflows[wf];
      Move(s, a, Writing(0, w, w.(status := WfRunning), StartingWf))
  }

  function CancelBegun(s: Sched, a: nat, wf: string): Sched {
    if a in s.actors || wf !in s.workflows || IsTerminal(s.workflows[wf]) then s
    else
      var w := s.workflows[wf];
      Move(s, a, Writing(0, w, w.(status := WfCanceled, steps := CancelUnfinished(w.steps)), CancelingWf))
  }

  function Spawned(cfg: Config, s: Sched, a: nat, wf: string, concurrency: int): Sched {
    if a in s.actors || wf !in s.workflows || !s.workflows[wf].status.WfRunning? || Clamp(concurrency) > cfg.limit then s
    else Move(s, a, Reading(wf, Clamp(concurrency)))
  }

  function WorkflowRead(s: Sched, a: nat): Sched {
    if a !in s.actors || !s.actors[a].Reading? || s.actors[a].wf !in s.workflows then s
    else
      var w := s.workflows[s.actors[a].wf];
      if IsTerminal(w) then Leave(s, a)
      else Move(s, a, Refreshing(s.actors[a].limit, w, w, 0, false, true))
  }

  function StepRefreshed(cfg: Config, s: Sched, a: nat, read: Option<RunView>): Sched {
    if a in s.actors && CanRefresh(s.actors[a], read, s.runs) then RefreshStepOf(cfg, s, a, read) else s
  }

  function RunCreated(s: Sched, a: nat, rid: string, fails: bool): Sched {
    if a in s.actors && s.actors[a].Creating? && s.actors[a].index < |s.actors[a].draft.steps| == |s.actors[a].draft.def.steps|
    then CreateRunOf(s, a, rid, fails) else s
  }

  function Written(s: Sched, a: nat): Sched {
    if a in s.actors && s.actors[a].Writing? then WriteOf(s, a) else s
  }

  function RunMoved(s: Sched, rid: string, view: RunView): Sched {
    if rid in s.runs && Lifecycle(s.runs[rid], view) then s.(runs := s.runs[rid := view]) else s
  }

  function RunAdded(s: Sched, rid: string, view: RunView): Sched {
    if rid != "" && rid !in s.runs then s.(runs := s.runs[rid := view]) else s
  }

  /** One atomic step. */
  ghost function Step(cfg: Config, s: Sched, act: Action): Sched {
    match act
    case Admit(def) => Admitted(s, def)
    case BeginStart(a, wf) => StartBegun(s, a, wf)
    case BeginCancel(a, wf) => CancelBegun(s, a, wf)
    case Spawn(a, wf, concurrency) => Spawned(cfg, s, a, wf, concurrency)
    case Read(a) => WorkflowRead(s, a)
    case Refresh(a, read) => StepRefreshed(cfg, s, a, read)
    case CreateRun(a, rid, fails) => RunCreated(s, a, rid, fails)
    case Write(a) => Written(s, a)
    case Kill(a) => Leave(s, a)
    case RunMoves(rid, view) => RunMoved(s, rid, view)
    case OtherRun(rid, view) => RunAdded(s, rid, view)
  }

  ghost function Exec(cfg: Config, s: Sched, acts: seq<Action>): Sched
    decreases |acts|
  {
    if acts == [] then s else Exec(cfg, Step(cfg, s, acts[0]), acts[1..])
  }

  const EMPTY := Sched(map[], map[], map[], map[], map[])
}
