/** A workflow can have every step succeeded or skipped and yet not be succeeded: skipping the last
    pending step is stored on its own, and a cancel request may arrive before the next pass. */
module SkipWindow {
  import opened Basics
  import opened Workflows
  import opened Manager
  import opened Scheduler
  import opened SchedulerInvariant
  import opened SchedulerTheorems
  import Dag

  const COND := Condition(WORKFLOW_INPUT, EQUALS, "yes")
  const STEP := StepDef("a", "agent", "text", [], "", [], Some(COND))
  const DEF := Definition("w", "no", [STEP])

  lemma DefRunnable()
    ensures Runnable(DEF)
  {
    assert ValidStepId("a");
    assert StepRunnable(DEF, STEP);
    assert AllRefsKnown(DEF.steps);
    assert GraphOf(DEF.steps)[0] == [];
    assert Dag.TopologicalOrder(GraphOf(DEF.steps), [0]);
  }

  /** Admission accepts it as it stands, for any trimming that leaves the step its input text. */
  lemma DefAdmissible(t: Text)
    requires t.trim("text") != ""
    ensures Admissible(t, DEF) && WithDefaults(DEF) == DEF
  {
    DefRunnable();
    assert StepOk(t, DEF, STEP);
    assert WithDefaults(DEF).steps == DEF.steps;
  }

  const WAITING := NewWorkflow(DEF)
  const STARTED := WAITING.(status := WfRunning, version := 2)
  const SKIPPED := STARTED.(version := 3, steps := [StepState(StepSkipped, "", "", "")])

  function Holding(w: Workflow, actors: map<nat, Actor>, writes: nat): Sched {
    Sched(map["w" := w], map[], map[], actors, map["w" := Tally(writes, 0)])
  }

  lemma One(cfg: Config, s: Sched, act: Action, rest: seq<Action>)
    ensures Exec(cfg, s, [act] + rest) == Exec(cfg, Step(cfg, s, act), rest)
  {
    assert ([act] + rest)[1..] == rest;
  }

  const START := [Admit(DEF)] + ([BeginStart(0, "w")] + ([Write(0)] + []))

  lemma Started(cfg: Config)
    ensures Exec(cfg, EMPTY, START) == Holding(STARTED, map[], 0)
  {
    DefRunnable();
    One(cfg, EMPTY, Admit(DEF), [BeginStart(0, "w")] + ([Write(0)] + []));
    var s1 := Holding(WAITING, map[], 0);
    assert Step(cfg, EMPTY, Admit(DEF)) == s1;
    One(cfg, s1, BeginStart(0, "w"), [Write(0)] + []);
    var s2 := Holding(WAITING, map[0 := Writing(0, WAITING, WAITING.(status := WfRunning), StartingWf)], 0);
    assert Step(cfg, s1, BeginStart(0, "w")) == s2;
    One(cfg, s2, Write(0), []);
    assert Step(cfg, s2, Write(0)) == Holding(STARTED, map[], 0);
  }

  const LOOK := [Spawn(0, "w", 1)] + ([Read(0)] + ([Refresh(0, None)] + []))
  const STORE := [Refresh(0, None)] + ([Write(0)] + [])
  const PASS := LOOK + STORE

  lemma Looks(cfg: Config)
    requires cfg.limit >= 1
    ensures Exec(cfg, Holding(STARTED, map[], 0), LOOK)
         == Holding(STARTED, map[0 := Refreshing(1, STARTED, STARTED, 1, false, false)], 0)
  {
    var s0 := Holding(STARTED, map[], 0);
    One(cfg, s0, Spawn(0, "w", 1), [Read(0)] + ([Refresh(0, None)] + []));
    var s1 := Holding(STARTED, map[0 := Reading("w", 1)], 0);
    assert Step(cfg, s0, Spawn(0, "w", 1)) == s1;
    One(cfg, s1, Read(0), [Refresh(0, None)] + []);
    var s2 := Holding(STARTED, map[0 := Refreshing(1, STARTED, STARTED, 0, false, true)], 0);
    assert Step(cfg, s1, Read(0)) == s2;
    One(cfg, s2, Refresh(0, None), []);
    assert NextOf(cfg, s2.actors[0], None) == Some(Refreshing(1, STARTED, STARTED, 1, false, false));
  }

  lemma Stores(cfg: Config)
    ensures Exec(cfg, Holding(STARTED, map[0 := Refreshing(1, STARTED, STARTED, 1, false, false)], 0), STORE)
         == Holding(SKIPPED, map[0 := Reading("w", 1)], 1)
  {
    var s0 := Holding(STARTED, map[0 := Refreshing(1, STARTED, STARTED, 1, false, false)], 0);
    One(cfg, s0, Refresh(0, None), [Write(0)] + []);
    var draft := STARTED.(steps := SKIPPED.steps);
    SkipsStep();
    assert NextOf(cfg, s0.actors[0], None) == Some(Writing(1, STARTED, draft, Skipping));
    var s1 := Holding(STARTED, map[0 := Writing(1, STARTED, draft, Skipping)], 0);
    assert Step(cfg, s0, Refresh(0, None)) == s1;
    One(cfg, s1, Write(0), []);
    StoresDraft(cfg);
  }

  lemma StoresDraft(cfg: Config)
    ensures Step(cfg, Holding(STARTED, map[0 := Writing(1, STARTED, STARTED.(steps := SKIPPED.steps), Skipping)], 0), Write(0))
         == Holding(SKIPPED, map[0 := Reading("w", 1)], 1)
  {
    var draft := STARTED.(steps := SKIPPED.steps);
    assert STARTED.steps == [FRESH_STEP];
    assert Regressions(STARTED.steps, draft.steps) == Regressions([], []) == 0;
    assert Update(STARTED, draft, 2) == Ok(SKIPPED);
  }

  lemma Skips(cfg: Config)
    requires cfg.limit >= 1
    ensures Exec(cfg, Holding(STARTED, map[], 0), PASS) == Holding(SKIPPED, map[0 := Reading("w", 1)], 1)
  {
    Looks(cfg);
    Stores(cfg);
    ExecAppend(cfg, Holding(STARTED, map[], 0), LOOK, STORE);
  }

  lemma SkipsStep()
    ensures SkipFrom(STARTED, 0) == STARTED.(steps := SKIPPED.steps)
  {
    assert !EvaluateCondition(SourceText(STARTED, WORKFLOW_INPUT), COND);
    assert !Keeps(STARTED, 0);
    assert SkipsNow(STARTED, 0);
    var w := SkipOne(STARTED, 0);
    assert w.steps == SKIPPED.steps;
    assert SkipFrom(w, 1) == w;
  }

  const CANCEL := [BeginCancel(1, "w")] + ([Write(1)] + [])

  lemma Cancels(cfg: Config)
    ensures var t := Exec(cfg, Holding(SKIPPED, map[0 := Reading("w", 1)], 1), CANCEL);
            "w" in t.workflows && t.workflows["w"].status.WfCanceled? && t.workflows["w"].def == DEF && AllDone(t.workflows["w"])
  {
    var s0 := Holding(SKIPPED, map[0 := Reading("w", 1)], 1);
    One(cfg, s0, BeginCancel(1, "w"), [Write(1)] + []);
    var draft := SKIPPED.(status := WfCanceled);
    assert CancelUnfinished(SKIPPED.steps) == SKIPPED.steps;
    var s1 := Holding(SKIPPED, map[0 := Reading("w", 1), 1 := Writing(0, SKIPPED, draft, CancelingWf)], 1);
    assert Step(cfg, s0, BeginCancel(1, "w")) == s1;
    One(cfg, s1, Write(1), []);
    assert Step(cfg, s1, Write(1)).workflows["w"] == draft.(version := 4);
  }

  /** Both outcomes are reachable: a running and a canceled workflow all of whose steps are done, of a
      definition that admission accepts. */
  lemma AllDoneYetNotSucceeded(cfg: Config, t: Text)
    requires cfg.limit >= 1 && t.trim("text") != ""
    ensures Admissible(t, DEF) && WithDefaults(DEF) == DEF
    ensures exists acts :: "w" in Reached(cfg, acts).workflows && Reached(cfg, acts).workflows["w"].status.WfRunning?
                           && Reached(cfg, acts).workflows["w"].def == DEF && AllDone(Reached(cfg, acts).workflows["w"])
    ensures exists acts :: "w" in Reached(cfg, acts).workflows && Reached(cfg, acts).workflows["w"].status.WfCanceled?
                           && Reached(cfg, acts).workflows["w"].def == DEF && AllDone(Reached(cfg, acts).workflows["w"])
  {
    DefAdmissible(t);
    Started(cfg);
    Skips(cfg);
    Cancels(cfg);
    ExecAppend(cfg, EMPTY, START, PASS);
    assert AllDone(Reached(cfg, START + PASS).workflows["w"]);
    ExecAppend(cfg, EMPTY, START + PASS, CANCEL);
    assert AllDone(Reached(cfg, START + PASS + CANCEL).workflows["w"]);
  }
}
