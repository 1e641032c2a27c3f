/** What the scheduler promises over every run: any number of managers, starts, cancels, crashes and
    version conflicts, in any order. */
module SchedulerTheorems {
  import opened Basics
  import opened Workflows
  import opened Manager
  import opened Scheduler
  import opened SchedulerInvariant
  import opened SchedulerCounting
  import opened SchedulerSafety
  import opened SchedulerSteps

  /** The state reached from an empty repository. */
  ghost function Reached(cfg: Config, acts: seq<Action>): Sched {
    Exec(cfg, EMPTY, acts)
  }

  lemma ReachedInv(cfg: Config, acts: seq<Action>)
    ensures Inv(cfg, Reached(cfg, acts))
  {
    EmptyInv(cfg);
    ExecKeepsInv(cfg, EMPTY, acts);
  }

  // ----- stored records and key bindings only evolve -----------------------------------------------------------

  ghost predicate Onward(s: Sched, t: Sched) {
    && (forall id <- s.workflows :: id in t.workflows && Evolves(s.workflows[id], t.workflows[id]))
    && Grows(Env(s), Env(t))
  }

  lemma SelfOnward(s: Sched)
    ensures Onward(s, s)
  {
    forall id <- s.workflows
      ensures Evolves(s.workflows[id], s.workflows[id])
    {
      assert Extends(s.workflows[id], s.workflows[id]);
    }
  }

  lemma EvolvesTransitive(u: Workflow, v: Workflow, w: Workflow)
    requires Evolves(u, v) && Evolves(v, w)
    ensures Evolves(u, w)
  {
    ExtendsTransitive(u, v, w);
  }

  lemma OnwardTransitive(s: Sched, t: Sched, u: Sched)
    requires Onward(s, t) && Onward(t, u)
    ensures Onward(s, u)
  {
    forall id <- s.workflows
      ensures id in u.workflows && Evolves(s.workflows[id], u.workflows[id])
    {
      EvolvesTransitive(s.workflows[id], t.workflows[id], u.workflows[id]);
    }
  }

  lemma ReplaceOnward(s: Sched, t: Sched, id: string, w: Workflow)
    requires t.workflows == s.workflows[id := w] && Env(t) == Env(s)
    requires id in s.workflows ==> Evolves(s.workflows[id], w)
    ensures Onward(s, t)
  {
    SelfOnward(s);
  }

  /** Everything but an admission and a write leaves the stored workflows alone. */
  lemma StoreUntouched(cfg: Config, s: Sched, act: Action)
    requires !act.Write? && !act.Admit?
    ensures Step(cfg, s, act).workflows == s.workflows && Grows(Env(s), Env(Step(cfg, s, act)))
  {
    match act
    case CreateRun(a, rid, fails) => RunCreatedUntouched(s, a, rid, fails);
    case RunMoves(rid, view) => RunMovedUntouched(s, rid, view);
    case OtherRun(rid, view) => RunMovedUntouched(s, rid, view);
    case _ =>
      EnvUntouched(cfg, s, act);
      SelfGrows(Env(s));
  }

  lemma EnvUntouched(cfg: Config, s: Sched, act: Action)
    requires !act.Write? && !act.Admit? && !act.CreateRun? && !act.RunMoves? && !act.OtherRun?
    ensures Step(cfg, s, act).workflows == s.workflows && Env(Step(cfg, s, act)) == Env(s)
  {
    if act.Refresh? && act.a in s.actors && CanRefresh(s.actors[act.a], act.read, s.runs) {
      RefreshUntouched(cfg, s, act.a, act.read);
    }
  }

  lemma RunCreatedUntouched(s: Sched, a: nat, rid: string, fails: bool)
    ensures RunCreated(s, a, rid, fails).workflows == s.workflows && Grows(Env(s), Env(RunCreated(s, a, rid, fails)))
  {
    SelfGrows(Env(s));
    if a in s.actors && s.actors[a].Creating? && s.actors[a].index < |s.actors[a].draft.steps| == |s.actors[a].draft.def.steps| {
      CreateRunUntouched(s, a, rid, fails);
    }
  }

  lemma RunMovedUntouched(s: Sched, rid: string, view: RunView)
    ensures RunMoved(s, rid, view).workflows == s.workflows && Grows(Env(s), Env(RunMoved(s, rid, view)))
    ensures RunAdded(s, rid, view).workflows == s.workflows && Grows(Env(s), Env(RunAdded(s, rid, view)))
  {
    SelfGrows(Env(s));
    if rid in s.runs ==> Lifecycle(s.runs[rid], view) {
      RunsStepGrows(s, rid, view);
    }
  }

  lemma SelfGrows(e: World)
    ensures Grows(e, e)
  {
  }

  lemma RefreshUntouched(cfg: Config, s: Sched, a: nat, read: Option<RunView>)
    requires a in s.actors && s.actors[a].Refreshing? && Shaped(s.actors[a].draft)
    ensures RefreshStepOf(cfg, s, a, read).workflows == s.workflows && Env(RefreshStepOf(cfg, s, a, read)) == Env(s)
  {
  }

  lemma CreateRunUntouched(s: Sched, a: nat, rid: string, fails: bool)
    requires a in s.actors && s.actors[a].Creating? && s.actors[a].index < |s.actors[a].draft.steps| == |s.actors[a].draft.def.steps|
    ensures CreateRunOf(s, a, rid, fails).workflows == s.workflows && Grows(Env(s), Env(CreateRunOf(s, a, rid, fails)))
  {
  }

  lemma WriteOnward(cfg: Config, s: Sched, a: nat)
    requires a in s.actors && s.actors[a].Writing? && ActorInv(cfg, s.actors[a], s.workflows, Env(s))
    requires s.tally.Keys == s.workflows.Keys
    ensures Onward(s, WriteOf(s, a))
  {
    var x := s.actors[a];
    if s.workflows[x.base.def.id].version == x.base.version {
      SwapSucceeds(s, a);
      StoredEvolves(cfg, x, s.workflows, Env(s));
      ReplaceOnward(s, WriteOf(s, a), x.base.def.id, Stored(x.base, x.draft));
    } else {
      SwapFails(s, a);
      SelfOnward(s);
    }
  }

  lemma StepOnward(cfg: Config, s: Sched, act: Action)
    requires Inv(cfg, s)
    ensures Onward(s, Step(cfg, s, act))
  {
    if act.Write? {
      if act.a in s.actors && s.actors[act.a].Writing? {
        WriteOnward(cfg, s, act.a);
      } else {
        SelfOnward(s);
      }
    } else if act.Admit? {
      SelfOnward(s);
      if act.def.id !in s.workflows && Runnable(act.def) {
        ReplaceOnward(s, Step(cfg, s, act), act.def.id, NewWorkflow(act.def));
      }
    } else {
      SelfOnward(s);
      StoreUntouched(cfg, s, act);
    }
  }

  lemma {:induction false} ExecOnward(cfg: Config, s: Sched, acts: seq<Action>)
    requires Inv(cfg, s)
    ensures Onward(s, Exec(cfg, s, acts))
    decreases |acts|
  {
    if acts == [] {
      SelfOnward(s);
    } else {
      StepOnward(cfg, s, acts[0]);
      StepKeepsInv(cfg, s, acts[0]);
      ExecOnward(cfg, Step(cfg, s, acts[0]), acts[1..]);
      OnwardTransitive(s, Step(cfg, s, acts[0]), Exec(cfg, s, acts));
    }
  }

  lemma {:induction false} ExecAppend(cfg: Config, s: Sched, first: seq<Action>, second: seq<Action>)
    ensures Exec(cfg, s, first + second) == Exec(cfg, Exec(cfg, s, first), second)
    decreases |first|
  {
    if first == [] {
      assert first + second == second;
    } else {
      assert (first + second)[1..] == first[1..] + second;
      ExecAppend(cfg, Step(cfg, s, first[0]), first[1..], second);
    }
  }

  /** Terminal workflow states are absorbing: the whole record stays as it is. */
  lemma TerminalWorkflowsNeverChange(cfg: Config, first: seq<Action>, second: seq<Action>, id: string)
    requires id in Reached(cfg, first).workflows && IsTerminal(Reached(cfg, first).workflows[id])
    ensures id in Reached(cfg, first + second).workflows
    ensures Reached(cfg, first + second).workflows[id] == Reached(cfg, first).workflows[id]
  {
    ReachedInv(cfg, first);
    ExecOnward(cfg, Reached(cfg, first), second);
    ExecAppend(cfg, EMPTY, first, second);
  }

  /** The workflow status and the step statuses agree: a terminal workflow has no pending, queued
      or running step, a live one has no failed or canceled step, a succeeded one has every step
      succeeded or skipped, and when no step was skipped the converse holds too. */
  lemma StatusesAgree(cfg: Config, acts: seq<Action>, id: string)
    requires id in Reached(cfg, acts).workflows
    ensures var w := Reached(cfg, acts).workflows[id];
            && (IsTerminal(w) ==> forall i :: 0 <= i < |w.steps| ==> !Unfinished(w.steps[i].status))
            && (!IsTerminal(w) ==> forall i :: 0 <= i < |w.steps| ==> !w.steps[i].status.StepFailed? && !w.steps[i].status.StepCanceled?)
            && (w.status.WfSucceeded? ==> AllDone(w))
            && (AllDone(w) && !w.status.WfSucceeded? ==> w.status.WfRunning? || w.status.WfCanceled?)
            && ((forall i :: 0 <= i < |w.steps| ==> !w.steps[i].status.StepSkipped?) ==> (w.status.WfSucceeded? <==> AllDone(w)))
  {
    ReachedInv(cfg, acts);
    var s := Reached(cfg, acts);
    assert StoredOk(cfg, id, s.workflows[id], s.tally[id], Env(s));
  }

  /** A manager is about to store the skips of a pass over the record now stored, and with them every
      step is done. Whether they complete the record can be computed from it alone. */
  predicate CompletingSkip(s: Sched, act: Action, id: string) {
    && act.Write? && act.a in s.actors && s.actors[act.a].Writing? && s.actors[act.a].kind.Skipping?
    && id in s.workflows && s.actors[act.a].base == s.workflows[id]
    && Shaped(s.workflows[id]) && AllDone(SkipFrom(s.workflows[id], 0))
  }

  /** When a live workflow becomes all done without success: exactly by such a write. */
  lemma BecomesAllDoneIff(cfg: Config, acts: seq<Action>, act: Action, id: string)
    requires id in Reached(cfg, acts).workflows
    requires !IsTerminal(Reached(cfg, acts).workflows[id]) && !AllDone(Reached(cfg, acts).workflows[id])
    ensures id in Step(cfg, Reached(cfg, acts), act).workflows
    ensures var after := Step(cfg, Reached(cfg, acts), act).workflows[id];
            AllDone(after) && !after.status.WfSucceeded? <==> CompletingSkip(Reached(cfg, acts), act, id)
  {
    var s := Reached(cfg, acts);
    ReachedStored(cfg, acts, id);
    if !act.Write? && !act.Admit? {
      StoreUntouched(cfg, s, act);
    } else if act.Write? && act.a in s.actors && s.actors[act.a].Writing? {
      ReachedActor(cfg, acts, act.a);
      WriteCompletes(cfg, s, act.a, id);
    }
  }

  lemma ReachedStored(cfg: Config, acts: seq<Action>, id: string)
    requires id in Reached(cfg, acts).workflows
    ensures var s := Reached(cfg, acts);
            s.tally.Keys == s.workflows.Keys && StoredOk(cfg, id, s.workflows[id], s.tally[id], Env(s))
  {
    ReachedInv(cfg, acts);
  }

  lemma WriteCompletes(cfg: Config, s: Sched, a: nat, id: string)
    requires a in s.actors && s.actors[a].Writing? && ActorInv(cfg, s.actors[a], s.workflows, Env(s))
    requires s.tally.Keys == s.workflows.Keys && id in s.workflows && s.workflows[id].def.id == id && Shaped(s.workflows[id])
    requires !IsTerminal(s.workflows[id]) && !AllDone(s.workflows[id])
    ensures id in WriteOf(s, a).workflows
    ensures var after := WriteOf(s, a).workflows[id];
            AllDone(after) && !after.status.WfSucceeded? <==> CompletingSkip(s, Write(a), id)
  {
    var x := s.actors[a];
    if s.workflows[x.base.def.id].version == x.base.version {
      SwapSucceeds(s, a);
      if id == x.base.def.id {
        WriterCompletes(cfg, x, s.workflows, Env(s));
        assert AllDone(Stored(x.base, x.draft)) <==> AllDone(x.draft);
      }
    } else {
      SwapFails(s, a);
    }
  }

  /** Of the drafts made from a record that is not all done, only those of skips are all done without success. */
  lemma WriterCompletes(cfg: Config, x: Actor, workflows: map<string, Workflow>, e: World)
    requires x.Writing? && ActorInv(cfg, x, workflows, e) && !AllDone(x.base)
    ensures AllDone(x.draft) && !x.draft.status.WfSucceeded? <==> x.kind.Skipping? && AllDone(SkipFrom(x.base, 0))
  {
  }

  /** What is done stays done. */
  lemma AllDoneStays(cfg: Config, first: seq<Action>, second: seq<Action>, id: string)
    requires id in Reached(cfg, first).workflows && AllDone(Reached(cfg, first).workflows[id])
    ensures id in Reached(cfg, first + second).workflows && AllDone(Reached(cfg, first + second).workflows[id])
  {
    ReachedInv(cfg, first);
    ExecOnward(cfg, Reached(cfg, first), second);
    ExecAppend(cfg, EMPTY, first, second);
    var v, w := Reached(cfg, first).workflows[id], Reached(cfg, first + second).workflows[id];
    assert Extends(v, w);
    forall i | 0 <= i < |w.steps|
      ensures Done(w.steps[i].status)
    {
      assert StepEvolves(v.steps[i], w.steps[i]);
    }
  }

  /** The action at position `k` of the history is such a write. */
  ghost predicate CompletedAt(cfg: Config, acts: seq<Action>, id: string, k: nat) {
    k < |acts| && CompletingSkip(Reached(cfg, acts[..k]), acts[k], id)
  }

  /** The exact condition under which "succeeded" and "all steps done" part: a workflow that is not
      succeeded has every step succeeded or skipped if and only if, at some point of its history, a
      pass stored skips that completed the record. */
  lemma AllDoneWithoutSuccessIff(cfg: Config, acts: seq<Action>, id: string)
    requires id in Reached(cfg, acts).workflows && !Reached(cfg, acts).workflows[id].status.WfSucceeded?
    ensures AllDone(Reached(cfg, acts).workflows[id]) <==> exists k: nat :: CompletedAt(cfg, acts, id, k)
  {
    if k: nat :| CompletedAt(cfg, acts, id, k) {
      CompletionStays(cfg, acts, id, k);
    }
    if AllDone(Reached(cfg, acts).workflows[id]) {
      CompletionFound(cfg, acts, id);
    }
  }

  lemma CompletionStays(cfg: Config, acts: seq<Action>, id: string, k: nat)
    requires CompletedAt(cfg, acts, id, k)
    ensures id in Reached(cfg, acts).workflows && AllDone(Reached(cfg, acts).workflows[id])
  {
    var before := acts[..k];
    ReachedStored(cfg, before, id);
    var s := Reached(cfg, before);
    assert acts == before + acts[k..];
    if AllDone(s.workflows[id]) {
      AllDoneStays(cfg, before, acts[k..], id);
    } else {
      LastStep(cfg, before, acts[k]);
      ReachedActor(cfg, before, acts[k].a);
      BecomesAllDoneIff(cfg, before, acts[k], id);
      assert acts == (before + [acts[k]]) + acts[k + 1..];
      AllDoneStays(cfg, before + [acts[k]], acts[k + 1..], id);
    }
  }

  lemma LastStep(cfg: Config, acts: seq<Action>, act: Action)
    ensures Reached(cfg, acts + [act]) == Step(cfg, Reached(cfg, acts), act)
  {
    ExecAppend(cfg, EMPTY, acts, [act]);
    assert [act][1..] == [];
  }

  lemma {:induction false} CompletionFound(cfg: Config, acts: seq<Action>, id: string)
    requires id in Reached(cfg, acts).workflows && !Reached(cfg, acts).workflows[id].status.WfSucceeded?
    requires AllDone(Reached(cfg, acts).workflows[id])
    ensures exists k: nat :: CompletedAt(cfg, acts, id, k)
    decreases |acts|
  {
    if acts == [] {
    } else {
      var before, act := acts[..|acts| - 1], acts[|acts| - 1];
      assert acts == before + [act];
      LastStep(cfg, before, act);
      var s := Reached(cfg, before);
      if id !in s.workflows {
        AdmittedNotDone(cfg, before, act, id);
      } else if AllDone(s.workflows[id]) {
        NotYetSucceeded(cfg, before, act, id);
        CompletionFound(cfg, before, id);
        var k: nat :| CompletedAt(cfg, before, id, k);
        assert acts[..k] == before[..k] && acts[k] == before[k];
        assert CompletedAt(cfg, acts, id, k);
      } else {
        ReachedStored(cfg, before, id);
        if IsTerminal(s.workflows[id]) {
          TerminalWorkflowsNeverChange(cfg, before, [act], id);
        } else {
          BecomesAllDoneIff(cfg, before, act, id);
          assert acts[..|before|] == before;
          assert CompletedAt(cfg, acts, id, |before|);
        }
      }
    }
  }

  /** Success is permanent, so a record not succeeded now was not succeeded before. */
  lemma NotYetSucceeded(cfg: Config, acts: seq<Action>, act: Action, id: string)
    requires id in Reached(cfg, acts).workflows
    requires id in Reached(cfg, acts + [act]).workflows && !Reached(cfg, acts + [act]).workflows[id].status.WfSucceeded?
    ensures !Reached(cfg, acts).workflows[id].status.WfSucceeded?
  {
    if IsTerminal(Reached(cfg, acts).workflows[id]) {
      TerminalWorkflowsNeverChange(cfg, acts, [act], id);
    }
  }

  /** A workflow just admitted has a pending step. */
  lemma AdmittedNotDone(cfg: Config, acts: seq<Action>, act: Action, id: string)
    requires id !in Reached(cfg, acts).workflows && id in Step(cfg, Reached(cfg, acts), act).workflows
    ensures !AllDone(Step(cfg, Reached(cfg, acts), act).workflows[id])
  {
    var s := Reached(cfg, acts);
    ReachedInv(cfg, acts);
    if !act.Write? && !act.Admit? {
      StoreUntouched(cfg, s, act);
    } else if act.Admit? {
      assert NewWorkflow(act.def).steps[0] == FRESH_STEP;
    } else if act.a in s.actors && s.actors[act.a].Writing? {
      ReachedActor(cfg, acts, act.a);
      WriteAddsNothing(cfg, s, act.a);
    }
  }

  lemma WriteAddsNothing(cfg: Config, s: Sched, a: nat)
    requires a in s.actors && s.actors[a].Writing? && ActorInv(cfg, s.actors[a], s.workflows, Env(s))
    requires s.tally.Keys == s.workflows.Keys
    ensures WriteOf(s, a).workflows.Keys == s.workflows.Keys
  {
    if s.workflows[s.actors[a].base.def.id].version == s.actors[a].base.version {
      SwapSucceeds(s, a);
    } else {
      SwapFails(s, a);
    }
  }

  /** How it may then end: the action that ends a workflow without success leaves every step done exactly
      when it finds it so, and that action is a cancellation; a failed workflow never has all steps done. */
  lemma EndsAllDoneIff(cfg: Config, acts: seq<Action>, act: Action, id: string)
    requires id in Reached(cfg, acts).workflows && !IsTerminal(Reached(cfg, acts).workflows[id])
    requires var t := Step(cfg, Reached(cfg, acts), act);
             id in t.workflows && IsTerminal(t.workflows[id]) && !t.workflows[id].status.WfSucceeded?
    ensures var before, after := Reached(cfg, acts).workflows[id], Step(cfg, Reached(cfg, acts), act).workflows[id];
            (AllDone(after) <==> AllDone(before)) && (AllDone(after) ==> after.status.WfCanceled?)
  {
    var s := Reached(cfg, acts);
    ReachedStored(cfg, acts, id);
    if !act.Write? && !act.Admit? {
      StoreUntouched(cfg, s, act);
    } else if act.Write? && act.a in s.actors && s.actors[act.a].Writing? {
      ReachedActor(cfg, acts, act.a);
      WriteEnds(cfg, s, act.a, id);
    }
  }

  lemma WriteEnds(cfg: Config, s: Sched, a: nat, id: string)
    requires a in s.actors && s.actors[a].Writing? && ActorInv(cfg, s.actors[a], s.workflows, Env(s))
    requires s.tally.Keys == s.workflows.Keys && id in s.workflows && !IsTerminal(s.workflows[id])
    ensures id in WriteOf(s, a).workflows
    ensures var before, after := s.workflows[id], WriteOf(s, a).workflows[id];
            IsTerminal(after) && !after.status.WfSucceeded? ==>
              (AllDone(after) <==> AllDone(before)) && (AllDone(after) ==> after.status.WfCanceled?)
  {
    var x := s.actors[a];
    if s.workflows[x.base.def.id].version == x.base.version {
      SwapSucceeds(s, a);
      if id == x.base.def.id {
        WriterEnds(cfg, x, s.workflows, Env(s));
        assert AllDone(Stored(x.base, x.draft)) <==> AllDone(x.draft);
      }
    } else {
      SwapFails(s, a);
    }
  }

  lemma WriterEnds(cfg: Config, x: Actor, workflows: map<string, Workflow>, e: World)
    requires x.Writing? && ActorInv(cfg, x, workflows, e)
    ensures IsTerminal(x.draft) && !x.draft.status.WfSucceeded? ==>
              (AllDone(x.draft) <==> AllDone(x.base)) && (AllDone(x.draft) ==> x.draft.status.WfCanceled?)
  {
    if AllDone(x.base) {
      assert forall i: nat :: i < |x.base.steps| ==> StepEvolves(x.base.steps[i], x.draft.steps[i]);
    }
  }

  /** The store itself never answers with anything else: in every reachable state the present value of the
      run can be read. */
  lemma PresentValueIsReadable(cfg: Config, acts: seq<Action>, a: nat)
    requires a in Reached(cfg, acts).actors && Reached(cfg, acts).actors[a].Refreshing?
    ensures var s := Reached(cfg, acts);
            var x := s.actors[a];
            && Shaped(x.draft)
            && (x.next < |x.draft.steps| && x.draft.steps[x.next].runId != "" ==>
                  && x.draft.steps[x.next].runId in s.runs
                  && CanRefresh(x, Some(s.runs[x.draft.steps[x.next].runId]), s.runs))
  {
    var s := Reached(cfg, acts);
    var x := s.actors[a];
    ReachedActor(cfg, acts, a);
    if x.next < |x.draft.steps| {
      assert StepInv(x.draft, x.next, Env(s));
    }
  }

  /** Why `ReadOk` asks for more than an earlier value: a manager that reads the run of the last step as
      unfinished, although the stored record has that step succeeded, stores it as unfinished again. */
  lemma StaleReadUndoesSuccess(cfg: Config, s: Sched, a: nat, w: Workflow, limit: nat, all: bool, read: RunView)
    requires |w.steps| >= 1 && Shaped(w) && w.version >= 1 && w.steps[|w.steps| - 1].status.StepSucceeded?
    requires w.steps[|w.steps| - 1].runId != "" && (read.status.Queued? || read.status.Running?)
    requires w.def.id in s.workflows && s.workflows[w.def.id] == w && w.def.id in s.tally
    requires a in s.actors && s.actors[a] == Refreshing(limit, w, w, |w.steps| - 1, false, all)
    ensures var n := |w.steps|;
            var refreshed := RefreshStepOf(cfg, s, a, Some(read));
            && a in refreshed.actors && refreshed.actors[a].Refreshing? && Shaped(refreshed.actors[a].draft)
            && var decided := RefreshStepOf(cfg, refreshed, a, None);
               && a in decided.actors && decided.actors[a].Writing?
               && var stored := WriteOf(decided, a).workflows;
                  w.def.id in stored && |stored[w.def.id].steps| == n && Active(stored[w.def.id].steps[n - 1].status)
  {
    var n := |w.steps|;
    var st := RefreshStep(w.steps[n - 1], read);
    var draft := SetStep(w, n - 1, st);
    var refreshed := RefreshStepOf(cfg, s, a, Some(read));
    assert refreshed.actors[a] == Refreshing(limit, w, draft, n, true, false);
    var decided := RefreshStepOf(cfg, refreshed, a, None);
    assert decided.actors[a] == Writing(limit, w, draft, Refreshed);
    SwapSucceeds(decided, a);
  }

  /** The condition is exact: with any earlier value read for a step recorded succeeded, the refreshed step
      is the recorded one if and only if the value read is a succeeded one. */
  lemma RecordedSuccessKeptIff(st: StepState, read: RunView, run: RunView)
    requires st.status.StepSucceeded? && st.error == "" && run.status.Succeeded? && st.output == run.output && Lifecycle(read, run)
    ensures RefreshStep(st, read) == st <==> read.status.Succeeded?
    ensures !read.status.Succeeded? ==> Active(RefreshStep(st, read).status)
  {
  }

  /** At most one run is ever bound to a step: a step's key, once bound, keeps its run, and a
      recorded run is the one bound to that key and is never replaced. */
  lemma OneRunPerStep(cfg: Config, first: seq<Action>, second: seq<Action>, id: string, i: nat)
    requires id in Reached(cfg, first).workflows && i < |Reached(cfg, first).workflows[id].def.steps|
    ensures var s, t := Reached(cfg, first), Reached(cfg, first + second);
            && id in t.workflows && t.workflows[id].def == s.workflows[id].def
            && i < |s.workflows[id].steps| && i < |t.workflows[id].steps|
            && (KeyOf(s.workflows[id].def, i) in s.keys ==>
                  KeyOf(s.workflows[id].def, i) in t.keys && t.keys[KeyOf(s.workflows[id].def, i)] == s.keys[KeyOf(s.workflows[id].def, i)])
            && (s.workflows[id].steps[i].runId != "" ==>
                  && KeyOf(s.workflows[id].def, i) in s.keys && s.workflows[id].steps[i].runId == s.keys[KeyOf(s.workflows[id].def, i)]
                  && t.workflows[id].steps[i].runId == s.workflows[id].steps[i].runId)
  {
    var s := Reached(cfg, first);
    ReachedInv(cfg, first);
    ExecOnward(cfg, s, second);
    ExecAppend(cfg, EMPTY, first, second);
    var w := s.workflows[id];
    assert StoredOk(cfg, id, w, s.tally[id], Env(s));
    assert StepInv(w, i, Env(s));
    var v := Reached(cfg, first + second).workflows[id];
    assert Extends(w, v);
    assert StepEvolves(w.steps[i], v.steps[i]);
  }

  /** The branches "no workflow step is ready" and "input not resolved" are never taken: in every
      reachable state no participant is about to store such a failure. */
  lemma SchedulerNeverStalls(cfg: Config, acts: seq<Action>, a: nat)
    requires a in Reached(cfg, acts).actors && Reached(cfg, acts).actors[a].Writing?
    ensures Reached(cfg, acts).actors[a].kind != Failing(NotReady)
    ensures Reached(cfg, acts).actors[a].kind != Failing(InputProblem)
  {
    var s := Reached(cfg, acts);
    ReachedActor(cfg, acts, a);
    WriterHasCause(cfg, s.actors[a], s.workflows, Env(s));
  }

  lemma ReachedActor(cfg: Config, acts: seq<Action>, a: nat)
    requires a in Reached(cfg, acts).actors
    ensures var s := Reached(cfg, acts); ActorInv(cfg, s.actors[a], s.workflows, Env(s))
  {
    ReachedInv(cfg, acts);
  }

  lemma WriterHasCause(cfg: Config, x: Actor, workflows: map<string, Workflow>, e: World)
    requires x.Writing? && ActorInv(cfg, x, workflows, e)
    ensures x.kind.Failing? ==> x.kind.reason.CreateProblem?
  {
  }

  /** What a pass that has read every step does next: it stores success when every step is done, else what it
      saw changed, else due skips; else, while there is room under its limit, it creates the run of the first
      pending step whose dependencies are done; it waits only while some step is active. */
  lemma PassNeverIdles(cfg: Config, acts: seq<Action>, a: nat)
    requires a in Reached(cfg, acts).actors
    requires var x := Reached(cfg, acts).actors[a]; x.Refreshing? && x.next == |x.draft.steps|
    ensures var x := Reached(cfg, acts).actors[a];
            && Shaped(x.draft)
            && var y := NextOf(cfg, x, None);
               && y.Some?
               && (AllDone(x.draft) <==> y.value.Writing? && y.value.draft.status.WfSucceeded?)
               && (x.draft.steps != x.base.steps ==> y.value.Writing?)
               && (y.value.Reading? ==> exists i :: 0 <= i < |x.draft.steps| && Active(x.draft.steps[i].status))
               && (y.value.Reading? ==>
                     || ActiveCount(x.draft.steps) >= x.limit
                     || forall i :: 0 <= i < |x.draft.steps| ==> !(x.draft.steps[i].status.StepPending? && DepsDone(x.draft, i)))
               && (y.value.Creating? ==>
                     && ActiveCount(x.draft.steps) < x.limit && y.value.index < |x.draft.steps|
                     && x.draft.steps[y.value.index].status.StepPending? && DepsDone(x.draft, y.value.index)
                     && forall i :: 0 <= i < y.value.index ==> !(x.draft.steps[i].status.StepPending? && DepsDone(x.draft, i)))
  {
    var s := Reached(cfg, acts);
    ReachedActor(cfg, acts, a);
    PassDecides(cfg, s.actors[a], s.workflows, Env(s));
  }

  lemma PassDecides(cfg: Config, x: Actor, workflows: map<string, Workflow>, e: World)
    requires x.Refreshing? && x.next == |x.draft.steps| && ActorInv(cfg, x, workflows, e)
    ensures Shaped(x.draft)
    ensures var y := Decide(cfg, x.limit, x.base, x.draft, x.changed, x.all);
            && (AllDone(x.draft) <==> y.Writing? && y.draft.status.WfSucceeded?)
            && (x.draft.steps != x.base.steps ==> y.Writing?)
            && (y.Reading? ==> exists i :: 0 <= i < |x.draft.steps| && Active(x.draft.steps[i].status))
            && (y.Reading? ==>
                  || ActiveCount(x.draft.steps) >= x.limit
                  || forall i :: 0 <= i < |x.draft.steps| ==> !(x.draft.steps[i].status.StepPending? && DepsDone(x.draft, i)))
            && (y.Creating? ==>
                  && ActiveCount(x.draft.steps) < x.limit && y.index < |x.draft.steps|
                  && x.draft.steps[y.index].status.StepPending? && DepsDone(x.draft, y.index)
                  && forall i :: 0 <= i < y.index ==> !(x.draft.steps[i].status.StepPending? && DepsDone(x.draft, i)))
  {
    assert x.all <==> AllDone(x.draft);
    if x.all || x.changed || SkipFrom(x.draft, 0) != x.draft {
      SkipKeepsStatus(x.draft, 0);
    } else {
      DecideProceeds(cfg, x, workflows, e);
      DecideFeeds(cfg, x.limit, x.base, x.draft);
    }
  }

  /** The last part of a pass, when nothing changed and nothing was skipped. */
  lemma DecideFeeds(cfg: Config, limit: nat, base: Workflow, d: Workflow)
    requires Shaped(d) && limit >= 1 && SkipFrom(d, 0) == d
    ensures var y := Decide(cfg, limit, base, d, false, false);
            && (y.Reading? ==> exists i :: 0 <= i < |d.steps| && Active(d.steps[i].status))
            && (y.Reading? ==>
                  || ActiveCount(d.steps) >= limit
                  || forall i :: 0 <= i < |d.steps| ==> !(d.steps[i].status.StepPending? && DepsDone(d, i)))
            && (y.Creating? ==>
                  && ActiveCount(d.steps) < limit && y.index < |d.steps|
                  && d.steps[y.index].status.StepPending? && DepsDone(d, y.index)
                  && forall i :: 0 <= i < y.index ==> !(d.steps[i].status.StepPending? && DepsDone(d, i)))
  {
    NoneActive(d.steps);
  }

  lemma {:induction false} SkipKeepsStatus(w: Workflow, i: nat)
    requires Shaped(w) && i <= |w.steps|
    ensures SkipFrom(w, i).status == w.status
    decreases |w.steps| - i
  {
    if i == |w.steps| {
    } else {
      SkipKeepsStatus(SkipOne(w, i), i + 1);
    }
  }

  function ActiveIndices(steps: seq<StepState>): set<int> {
    set i | 0 <= i < |steps| && (steps[i].status.StepQueued? || steps[i].status.StepRunning?)
  }

  lemma {:induction false} ActiveCountAppend(front: seq<StepState>, last: StepState)
    ensures ActiveCount(front + [last]) == ActiveCount(front) + if last.status.StepQueued? || last.status.StepRunning? then 1 else 0
    decreases |front|
  {
    if front == [] {
      assert front + [last] == [last] && [last][1..] == [];
    } else {
      assert (front + [last])[1..] == front[1..] + [last];
      ActiveCountAppend(front[1..], last);
    }
  }

  lemma {:induction false} ActiveCountIsCardinality(steps: seq<StepState>)
    ensures ActiveCount(steps) == |ActiveIndices(steps)|
    decreases |steps|
  {
    if steps == [] {
      assert ActiveIndices(steps) == {};
    } else {
      var n := |steps| - 1;
      var front, last := steps[..n], steps[n];
      assert steps == front + [last];
      ActiveCountAppend(front, last);
      ActiveCountIsCardinality(front);
      ActiveIndicesAppend(front, last);
    }
  }

  lemma ActiveIndicesAppend(front: seq<StepState>, last: StepState)
    ensures |ActiveIndices(front + [last])| == |ActiveIndices(front)| + if last.status.StepQueued? || last.status.StepRunning? then 1 else 0
  {
    var more := if last.status.StepQueued? || last.status.StepRunning? then {|front|} else {};
    assert ActiveIndices(front + [last]) == ActiveIndices(front) + more;
  }

  /** In every stored state the queued and running steps of a workflow number at most the largest
      configured limit. */
  lemma ConcurrencyIsBounded(cfg: Config, acts: seq<Action>, id: string)
    requires id in Reached(cfg, acts).workflows
    ensures |ActiveIndices(Reached(cfg, acts).workflows[id].steps)| <= cfg.limit
  {
    ReachedStored(cfg, acts, id);
    ActiveCountIsCardinality(Reached(cfg, acts).workflows[id].steps);
  }

  /** Failures are reported: a failed step means that its run failed and that the workflow failed with an
      error naming the step and the run's error; a canceled workflow has no failed step; a failed workflow has
      one, or the creation of a run failed. */
  lemma FailuresAreReported(cfg: Config, acts: seq<Action>, id: string)
    requires id in Reached(cfg, acts).workflows
    ensures var s := Reached(cfg, acts);
            var w := s.workflows[id];
            && |w.steps| == |w.def.steps|
            && (forall i :: 0 <= i < |w.steps| && w.steps[i].status.StepFailed? ==>
                  && w.status.WfFailed? && w.steps[i].runId in s.runs && s.runs[w.steps[i].runId].status.Failed?
                  && w.error == "step " + w.def.steps[i].id + " failed: " + s.runs[w.steps[i].runId].error)
            && (w.status.WfCanceled? ==> forall i :: 0 <= i < |w.steps| ==> !w.steps[i].status.StepFailed?)
            && (w.status.WfFailed? ==> w.error == CREATION_FAILED || exists i :: 0 <= i < |w.steps| && w.steps[i].status.StepFailed?)
  {
    ReachedStored(cfg, acts, id);
    var s := Reached(cfg, acts);
    var w := s.workflows[id];
    forall i | 0 <= i < |w.steps| && w.steps[i].status.StepFailed?
      ensures w.steps[i].runId in s.runs && s.runs[w.steps[i].runId].status.Failed? && w.steps[i].error == s.runs[w.steps[i].runId].error
    {
      assert StepInv(w, i, Env(s));
    }
  }

  /** Scheduler writes are bounded: 3n + 1 for n steps, plus two for every observed recovery. */
  lemma WritesAreBounded(cfg: Config, acts: seq<Action>, id: string)
    requires id in Reached(cfg, acts).workflows
    ensures var s := Reached(cfg, acts);
            && id in s.tally
            && s.tally[id].writes <= 3 * |s.workflows[id].steps| + 1 + 2 * s.tally[id].regressions
  {
    ReachedInv(cfg, acts);
    var s := Reached(cfg, acts);
    assert StoredOk(cfg, id, s.workflows[id], s.tally[id], Env(s));
  }

  /** The action is a successful write of a manager's loop to this workflow. */
  predicate LoopWrites(s: Sched, act: Action, id: string) {
    && act.Write? && act.a in s.actors && s.actors[act.a].Writing? && BySchedulerLoop(s.actors[act.a].kind)
    && s.actors[act.a].base.def.id == id && id in s.workflows && s.workflows[id].version == s.actors[act.a].base.version
  }

  ghost function CountLoopWrites(cfg: Config, s: Sched, acts: seq<Action>, id: string): nat
    decreases |acts|
  {
    if acts == [] then 0
    else (if LoopWrites(s, acts[0], id) then 1 else 0) + CountLoopWrites(cfg, Step(cfg, s, acts[0]), acts[1..], id)
  }

  function WritesOf(s: Sched, id: string): nat {
    if id in s.tally then s.tally[id].writes else 0
  }

  lemma WriteCounted(cfg: Config, s: Sched, a: nat, id: string)
    requires a in s.actors && s.actors[a].Writing? && ActorInv(cfg, s.actors[a], s.workflows, Env(s))
    requires s.tally.Keys == s.workflows.Keys
    ensures WritesOf(WriteOf(s, a), id) == WritesOf(s, id) + if LoopWrites(s, Write(a), id) then 1 else 0
  {
    if s.workflows[s.actors[a].base.def.id].version == s.actors[a].base.version {
      SwapSucceeds(s, a);
    } else {
      SwapFails(s, a);
    }
  }

  lemma StepCounted(cfg: Config, s: Sched, act: Action, id: string)
    requires s.tally.Keys == s.workflows.Keys
    requires act.Write? && act.a in s.actors && s.actors[act.a].Writing? ==> ActorInv(cfg, s.actors[act.a], s.workflows, Env(s))
    ensures WritesOf(Step(cfg, s, act), id) == WritesOf(s, id) + if LoopWrites(s, act, id) then 1 else 0
  {
    if act.Write? && act.a in s.actors && s.actors[act.a].Writing? {
      WriteCounted(cfg, s, act.a, id);
    }
  }

  lemma InvGives(cfg: Config, s: Sched, act: Action)
    requires Inv(cfg, s)
    ensures s.tally.Keys == s.workflows.Keys
    ensures act.Write? && act.a in s.actors ==> ActorInv(cfg, s.actors[act.a], s.workflows, Env(s))
  {
  }

  lemma {:induction false} ExecCounted(cfg: Config, s: Sched, acts: seq<Action>, id: string)
    requires Inv(cfg, s)
    ensures WritesOf(Exec(cfg, s, acts), id) == WritesOf(s, id) + CountLoopWrites(cfg, s, acts, id)
    decreases |acts|
  {
    if acts == [] {
    } else {
      InvGives(cfg, s, acts[0]);
      StepCounted(cfg, s, acts[0], id);
      StepKeepsInv(cfg, s, acts[0]);
      ExecCounted(cfg, Step(cfg, s, acts[0]), acts[1..], id);
    }
  }

  /** The bounded number is the number of successful scheduler writes in the history. */
  lemma TallyCountsWrites(cfg: Config, acts: seq<Action>, id: string)
    ensures WritesOf(Reached(cfg, acts), id) == CountLoopWrites(cfg, EMPTY, acts, id)
  {
    EmptyInv(cfg);
    ExecCounted(cfg, EMPTY, acts, id);
  }

  /** A run is recorded only for a step whose dependencies all ended well and whose condition holds
      on their final outputs, with the input and parent these determine; a step is skipped only when
      its condition is false on them. Both keep holding afterwards. */
  lemma StepsRunOrSkipForCause(cfg: Config, acts: seq<Action>, id: string, i: nat)
    requires id in Reached(cfg, acts).workflows && i < |Reached(cfg, acts).workflows[id].def.steps|
    ensures var s := Reached(cfg, acts);
            var w := s.workflows[id];
            && Shaped(w)
            && (w.steps[i].runId != "" ==>
                  && DepsDone(w, i) && Keeps(w, i) && w.steps[i].runId in s.runs
                  && s.runs[w.steps[i].runId].input == InputFor(w, i, cfg.marshal)
                  && s.runs[w.steps[i].runId].parent == FirstRunId(w, w.def.steps[i].dependsOn))
            && (w.steps[i].status.StepSkipped? ==> DepsDone(w, i) && !Keeps(w, i))
            && (w.steps[i].status.StepSucceeded? ==>
                  w.steps[i].runId != "" && s.runs[w.steps[i].runId].status.Succeeded? && w.steps[i].output == s.runs[w.steps[i].runId].output)
  {
    ReachedInv(cfg, acts);
    var s := Reached(cfg, acts);
    var w := s.workflows[id];
    assert StoredOk(cfg, id, w, s.tally[id], Env(s));
    assert StepInv(w, i, Env(s));
    if w.steps[i].runId != "" {
      assert Grounded(w, i, Env(s), cfg.marshal);
    }
  }
}
