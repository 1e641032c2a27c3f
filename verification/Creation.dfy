/** Creating runs: idempotency keys, what is stored, refusals, and the child limit
    (internal/store/memory.go). */
module Creation {
  import opened Basics
  import opened Runs
  import opened RunStore
  import opened StoreOps
  import opened Lineage

  // ----- one creation ---------------------------------------------------------------------------------

  /** The root a child inherits, and whether `parent` may have children at all. */
  predicate MayAttach(run: Run, parent: Run) {
    && run.id != "" && parent.id != "" && parent.id != run.id && RootVia(parent) != run.id
    && (parent.parentRunId == "" <==> parent.rootRunId == "")
  }

  /** A creation that is not a replay is accepted exactly if a root declares no root, or the parent exists, may
      have this child, and a declared root is the inherited one. */
  predicate Acceptable(t: Table, run: Run) {
    if run.parentRunId == "" then run.rootRunId == ""
    else
      && run.parentRunId in t.runs && MayAttach(run, t.runs[run.parentRunId])
      && (run.rootRunId == "" || run.rootRunId == RootVia(t.runs[run.parentRunId]))
  }

  /** What a creation does: a bound key is replayed and nothing changes; otherwise an acceptable run is stored
      as given, under its parent's lineage, and its key is bound; otherwise nothing changes. */
  lemma CreationMeaning(t: Table, run: Run, key: string)
    requires Keyed(t.runs)
    ensures var (t', r) := Insert(t, run, key);
            var bound := key != "" && key in t.keys;
            && (bound && t.keys[key] in t.runs ==> t' == t && r == Ok((t.runs[t.keys[key]], false)))
            && (!bound && !Acceptable(t, run) ==> t' == t && r.Err?)
            && (!bound && Acceptable(t, run) ==>
                  && r.Ok? && r.value.1
                  && r.value.0 == (if run.parentRunId == "" then run else run.(rootRunId := RootVia(t.runs[run.parentRunId])))
                  && t'.runs == t.runs[run.id := r.value.0] && t'.fences == t.fences
                  && t'.keys == (if key == "" then t.keys else t.keys[key := run.id]))
  {
  }

  // ----- idempotency over histories -------------------------------------------------------------------

  /** Every later operation keeps the binding, and the row it names. */
  predicate Binds(t: Table, key: string, id: string) {
    key in t.keys && t.keys[key] == id && id in t.runs
  }

  lemma StepKeepsBinding(s: Store, op: Op, key: string, id: string)
    requires Binds(s.table, key, id) && key != ""
    ensures Binds(Apply(s, op).0.table, key, id)
  {
  }

  lemma {:induction false} ExecKeepsBinding(s: Store, ops: seq<Op>, key: string, id: string)
    requires Binds(s.table, key, id) && key != ""
    ensures Binds(Exec(s, ops).table, key, id)
    decreases |ops|
  {
    if ops == [] {
    } else {
      StepKeepsBinding(s, ops[0], key, id);
      ExecKeepsBinding(Apply(s, ops[0]).0, ops[1..], key, id);
    }
  }

  /** Idempotent creation: once a creation with a non-empty key has stored a run, then after any operations
      every further creation with that key, whatever run it carries, replies with the present row of that run,
      says that it is not new, and changes nothing. */
  lemma KeyCreatesOnce(s: Store, run: Run, key: string, ops: seq<Op>, again: Run, maxChildren: int)
    requires key != "" && Insert(s.table, run, key).1.Ok? && Insert(s.table, run, key).1.value.1
    ensures var u := Exec(Apply(s, CreateRun(run, key)).0, ops);
            && run.id in u.table.runs
            && Apply(u, CreateRun(again, key)) == (u, RunCreated(Ok((u.table.runs[run.id], false))))
            && (again.parentRunId != "" ==>
                  Apply(u, CreateChildRun(again, key, maxChildren)) == (u, RunCreated(Ok((u.table.runs[run.id], false)))))
  {
    var first := Apply(s, CreateRun(run, key)).0;
    assert Binds(first.table, key, run.id);
    ExecKeepsBinding(first, ops, key, run.id);
  }

  /** The same for a child created first. */
  lemma ChildKeyCreatesOnce(s: Store, run: Run, key: string, maxChildren: int, ops: seq<Op>, again: Run)
    requires key != "" && InsertChild(s.table, run, key, maxChildren).1.Ok? && InsertChild(s.table, run, key, maxChildren).1.value.1
    ensures var u := Exec(Apply(s, CreateChildRun(run, key, maxChildren)).0, ops);
            && run.id in u.table.runs
            && Apply(u, CreateRun(again, key)) == (u, RunCreated(Ok((u.table.runs[run.id], false))))
  {
    var first := Apply(s, CreateChildRun(run, key, maxChildren)).0;
    assert Binds(first.table, key, run.id);
    ExecKeepsBinding(first, ops, key, run.id);
  }

  // ----- the child limit ------------------------------------------------------------------------------

  function ChildrenIn(runs: map<string, Run>, parent: string): set<string> {
    set id | id in runs && runs[id].parentRunId == parent
  }

  /** A child creation is refused for the limit exactly when the parent has its fill; otherwise it goes on as
      any creation. */
  lemma ChildRefusedIff(t: Table, run: Run, key: string, maxChildren: int)
    ensures var (t', r) := InsertChild(t, run, key, maxChildren);
            var full := maxChildren > 0 && |ChildrenIn(t.runs, run.parentRunId)| >= maxChildren;
            && (r == Err(ChildRunLimit) <==>
                  run.parentRunId != "" && !(key != "" && key in t.keys) && run.parentRunId in t.runs && full)
            && (r == Err(ChildRunLimit) ==> t' == t)
            && (run.parentRunId == "" ==> t' == t && r.Err?)
            && (run.parentRunId != "" && !full ==> (t', r) == Insert(t, run, key))
  {
    assert Children(t, run.parentRunId) == ChildrenIn(t.runs, run.parentRunId);
  }

  /** Children of `parent` are created only through the limited call, with a limit of at most `limit`. */
  predicate Limits(op: Op, parent: string, limit: int) {
    && (op.CreateRun? ==> op.run.parentRunId != parent)
    && (op.CreateChildRun? && op.run.parentRunId == parent ==> 0 < op.maxChildren <= limit)
  }

  lemma SameChildren(runs: map<string, Run>, runs': map<string, Run>, parent: string)
    requires SameLineage(runs, runs')
    ensures ChildrenIn(runs, parent) == ChildrenIn(runs', parent)
  {
  }

  lemma NewChild(runs: map<string, Run>, row: Run, parent: string)
    requires row.id !in runs
    ensures |ChildrenIn(runs[row.id := row], parent)| <= |ChildrenIn(runs, parent)| + (if row.parentRunId == parent then 1 else 0)
  {
    assert ChildrenIn(runs[row.id := row], parent) == ChildrenIn(runs, parent) + (if row.parentRunId == parent then {row.id} else {});
  }

  lemma InsertChildren(t: Table, run: Run, key: string, parent: string)
    requires Keyed(t.runs) && FreshId(t, CreateRun(run, key))
    ensures var t' := Insert(t, run, key).0;
            |ChildrenIn(t'.runs, parent)| <= |ChildrenIn(t.runs, parent)| + (if run.parentRunId == parent then 1 else 0)
  {
    CreationMeaning(t, run, key);
    var t' := Insert(t, run, key).0;
    if t' != t {
      var row := Insert(t, run, key).1.value.0;
      assert row.id == run.id && row.parentRunId == run.parentRunId && t'.runs == t.runs[row.id := row];
      NewChild(t.runs, row, parent);
    }
  }

  lemma StepKeepsLimit(s: Store, op: Op, parent: string, limit: int)
    requires Forest(s.table.runs) && FreshId(s.table, op) && Limits(op, parent, limit) && limit >= 0
    requires |ChildrenIn(s.table.runs, parent)| <= limit
    ensures |ChildrenIn(Apply(s, op).0.table.runs, parent)| <= limit
  {
    ForestIsKeyed(s.table.runs);
    if op.CreateRun? || op.CreateChildRun? {
      InsertChildren(s.table, op.run, op.key, parent);
      if op.CreateChildRun? {
        ChildRefusedIff(s.table, op.run, op.key, op.maxChildren);
      }
    } else {
      OnlyCreationSetsLineage(s, op);
      SameChildren(s.table.runs, Apply(s, op).0.table.runs, parent);
    }
  }

  /** The child limit holds in every history: if the children of a run are created only through
      `CreateChildRun` with limits of at most `limit`, it never has more than `limit` children. */
  lemma {:induction false} ChildLimitHolds(s: Store, ops: seq<Op>, parent: string, limit: int)
    requires Forest(s.table.runs) && FreshIds(s, ops) && limit >= 0 && |ChildrenIn(s.table.runs, parent)| <= limit
    requires forall k :: 0 <= k < |ops| ==> Limits(ops[k], parent, limit)
    ensures |ChildrenIn(Exec(s, ops).table.runs, parent)| <= limit
    decreases |ops|
  {
    if ops == [] {
    } else {
      StepKeepsLimit(s, ops[0], parent, limit);
      StepKeepsForest(s, ops[0]);
      ChildLimitHolds(Apply(s, ops[0]).0, ops[1..], parent, limit);
    }
  }
}
