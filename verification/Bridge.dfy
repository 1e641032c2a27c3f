/** Where the two protocols and the store meet: fenced execution supplies what the scheduler and the
    evaluator assume about runs, and the scheduler's key table is the store's. */
module Bridge {
  import opened Basics
  import opened Runs
  import opened RunStore
  import opened Workflows
  import opened Manager
  import opened StepKeys
  import Dag
  import Execution
  import Outcomes
  import Scheduler
  import SchedulerTheorems
  import Evaluator

  function View(r: Run): RunView {
    RunView(r.status, r.parentRunId, r.input, r.output, r.error)
  }

  /** Every step of the execution protocol, stale reads included, moves a run along the lifecycle
      that the scheduler's proofs rely on. */
  lemma ExecutionFollowsLifecycle(c: Execution.Cell, act: Execution.Action)
    requires Execution.Safe(c)
    ensures Execution.Safe(Execution.Step(c, act))
    ensures Scheduler.Lifecycle(View(c.row), View(Execution.Step(c, act).row))
  {
    Execution.StepSafe(c, act);
  }

  // ----- the runtime's answers reach the workflow -----------------------------------------------------

  /** Whenever the runtime returns in this history, it returns `answer`. */
  predicate AnswersWith(acts: seq<Execution.Action>, answer: string) {
    forall k :: 0 <= k < |acts| && acts[k].Finish? && acts[k].outcome.Returned? ==> acts[k].outcome.output == answer
  }

  /** A succeeded row holds the answer of the runtime. */
  lemma RowHoldsAnswer(r: Run, submitter: Option<nat>, acts: seq<Execution.Action>, answer: string)
    requires Execution.FreshRun(r) && AnswersWith(acts, answer)
    ensures var row := Execution.Exec(Execution.NewCell(r, submitter), acts).row;
            row.input == r.input && (row.status.Succeeded? ==> row.output == answer)
  {
    var c0 := Execution.NewCell(r, submitter);
    var row := Execution.Exec(c0, acts).row;
    Execution.RowsKeepIdentityAndShape(r, submitter, acts);
    if row.status.Succeeded? {
      Outcomes.TerminalRowIsExplained(r, submitter, acts);
      var k: nat :| Outcomes.EndedBy(c0, acts, k, row);
    }
  }

  /** The view is that of a run executed, in some history, by an agent that answers the step's input. */
  ghost predicate Executed(view: RunView, step: string, answers: Evaluator.Answers) {
    exists r: Run, submitter: Option<nat>, acts: seq<Execution.Action> ::
      && Execution.FreshRun(r) && AnswersWith(acts, answers(step, r.input))
      && view == View(Execution.Exec(Execution.NewCell(r, submitter), acts).row)
  }

  lemma ExecutedHoldsAnswer(view: RunView, step: string, answers: Evaluator.Answers)
    requires Executed(view, step, answers) && view.status.Succeeded?
    ensures view.output == answers(step, view.input)
  {
    var r: Run, submitter: Option<nat>, acts: seq<Execution.Action> :|
      && Execution.FreshRun(r) && AnswersWith(acts, answers(step, r.input))
      && view == View(Execution.Exec(Execution.NewCell(r, submitter), acts).row);
    RowHoldsAnswer(r, submitter, acts, answers(step, r.input));
  }

  /** Every run recorded for a step of the workflow was executed by the step's agent. */
  ghost predicate AllExecuted(w: Workflow, runs: map<string, RunView>, answers: Evaluator.Answers) {
    forall i: nat :: i < |w.steps| && i < |w.def.steps| && w.steps[i].runId in runs ==>
      Executed(runs[w.steps[i].runId], w.def.steps[i].id, answers)
  }

  lemma ExecutedWorkflowIsAnswered(w: Workflow, runs: map<string, RunView>, answers: Evaluator.Answers)
    requires AllExecuted(w, runs, answers)
    ensures Evaluator.AnsweredBy(w, runs, answers)
  {
    forall i: nat | i < |w.steps| && i < |w.def.steps| && w.steps[i].runId in runs && runs[w.steps[i].runId].status.Succeeded?
      ensures runs[w.steps[i].runId].output == answers(w.def.steps[i].id, runs[w.steps[i].runId].input)
    {
      ExecutedHoldsAnswer(runs[w.steps[i].runId], w.def.steps[i].id, answers);
    }
  }

  /** Both protocols together: a workflow that succeeds, its runs executed by workers in any histories of the
      execution protocol, has the skips, inputs and outputs of the reference evaluation. */
  lemma ExecutedSuccessRefinesEvaluator(cfg: Scheduler.Config, acts: seq<Scheduler.Action>, id: string, answers: Evaluator.Answers, order: seq<nat>)
    requires var s := SchedulerTheorems.Reached(cfg, acts);
             && id in s.workflows && s.workflows[id].status.WfSucceeded? && AllExecuted(s.workflows[id], s.runs, answers)
             && AllRefsKnown(s.workflows[id].def.steps) && Dag.TopologicalOrder(GraphOf(s.workflows[id].def.steps), order)
    ensures var s := SchedulerTheorems.Reached(cfg, acts);
            Evaluator.Results(s.workflows[id], s.runs) == Evaluator.Evaluate(s.workflows[id].def, order, answers, cfg.marshal)
  {
    var s := SchedulerTheorems.Reached(cfg, acts);
    ExecutedWorkflowIsAnswered(s.workflows[id], s.runs, answers);
    Evaluator.SchedulerRefinesEvaluator(cfg, acts, id, answers, order);
  }

  // ----- the scheduler's key table is the store's -----------------------------------------------------

  /** The scheduler state shows the runs and the keys of the store. */
  ghost predicate Shows(t: Table, s: Scheduler.Sched) {
    && s.keys == t.keys && s.runs.Keys == t.runs.Keys
    && (forall id <- t.runs :: t.runs[id].id == id && s.runs[id] == View(t.runs[id]))
    && (forall k <- t.keys :: t.keys[k] in t.runs)
  }

  /** The run `reconcile` asks for. */
  predicate Requested(x: Scheduler.Actor, rid: string, run: Run)
    requires x.Creating?
  {
    && run.id == rid && run.parentRunId == x.parent && run.rootRunId == "" && run.input == x.input
    && run.status.Queued? && run.output == "" && run.error == ""
  }

  /** `CreateRunOf` does to the scheduler's runs and keys what `Insert` does to the store, and hands the step
      the run that `Insert` replies with; if the store refuses, it is the failing creation. */
  lemma CreationIsInsert(t: Table, s: Scheduler.Sched, a: nat, rid: string, run: Run)
    requires Shows(t, s) && a in s.actors && s.actors[a].Creating? && rid != "" && rid !in t.runs
    requires s.actors[a].index < |s.actors[a].draft.steps| == |s.actors[a].draft.def.steps|
    requires Requested(s.actors[a], rid, run)
    ensures var x := s.actors[a];
            var key := StepKey(x.draft.def.id, x.draft.def.steps[x.index].id);
            var (t', reply) := Insert(t, run, key);
            var s' := Scheduler.CreateRunOf(s, a, rid, reply.Err?);
            && Shows(t', s')
            && (reply.Ok? ==> a in s'.actors && s'.actors[a] == Scheduler.Writing(x.limit, x.base, Scheduler.QueueStep(x.draft, x.index, reply.value.0.id), Scheduler.Queueing))
            && (reply.Err? ==> t' == t && a in s'.actors && s'.actors[a].Writing? && s'.actors[a].kind == Scheduler.Failing(Scheduler.CreateProblem))
  {
    var x := s.actors[a];
    var key := StepKey(x.draft.def.id, x.draft.def.steps[x.index].id);
    assert key[0] == 'w';
    if key !in t.keys && Insert(t, run, key).1.Ok? {
      NewRunShows(t, s, key, run);
    }
  }

  /** A stored run and its key, added on both sides. */
  lemma NewRunShows(t: Table, s: Scheduler.Sched, key: string, run: Run)
    requires Shows(t, s) && key != "" && key !in t.keys && run.id !in t.runs && Insert(t, run, key).1.Ok?
    ensures var (t', reply) := Insert(t, run, key);
            && reply.value.0.id == run.id && View(reply.value.0) == View(run)
            && Shows(t', s.(keys := s.keys[key := run.id], runs := s.runs[run.id := View(run)]))
  {
  }
}
