/** Parent and root identifiers of runs (internal/domain/run.go, internal/store/memory.go) and the
    ancestry walk of the agent-call handler (internal/httpapi/server.go). */
module Lineage {
  import opened Basics
  import opened Runs
  import opened RunStore
  import opened StoreOps

  /** The identifier a child of `parent` inherits as its root. */
  function RootVia(parent: Run): string {
    if parent.parentRunId == "" then parent.id else parent.rootRunId
  }

  /** `order` lists the runs in creation order: parents come before their children, a root run names no
      root, and a child's root is the one its parent passes on. */
  predicate RowOk(runs: map<string, Run>, order: seq<string>, i: nat)
    requires i < |order| && order[i] in runs
  {
    var row := runs[order[i]];
    && row.id == order[i] != ""
    && (row.parentRunId == "" ==> row.rootRunId == "")
    && (row.parentRunId != "" ==> row.parentRunId in order[..i] && row.parentRunId in runs && row.rootRunId == RootVia(runs[row.parentRunId]))
  }

  ghost predicate CreationOrder(runs: map<string, Run>, order: seq<string>) {
    && (forall i, j :: 0 <= i < j < |order| ==> order[i] != order[j])
    && (forall id :: id in runs <==> id in order)
    && (forall i: nat :: i < |order| ==> RowOk(runs, order, i))
  }

  ghost predicate Forest(runs: map<string, Run>) {
    exists order :: CreationOrder(runs, order)
  }

  // ----- every run of the store keeps the forest ------------------------------------------------------

  /** The identifiers `newID` hands out: never empty and not in use. Replays of a known key store nothing. */
  predicate FreshId(t: Table, op: Op) {
    op.CreateRun? || op.CreateChildRun? ==>
      (op.key != "" && op.key in t.keys) || (op.run.id != "" && op.run.id !in t.runs)
  }

  function Exec(s: Store, ops: seq<Op>): Store
    decreases |ops|
  {
    if ops == [] then s else Exec(Apply(s, ops[0]).0, ops[1..])
  }

  predicate FreshIds(s: Store, ops: seq<Op>)
    decreases |ops|
  {
    ops == [] || (FreshId(s.table, ops[0]) && FreshIds(Apply(s, ops[0]).0, ops[1..]))
  }

  predicate SameLineage(runs: map<string, Run>, runs': map<string, Run>) {
    && runs.Keys == runs'.Keys
    && forall id <- runs :: runs'[id].id == runs[id].id && runs'[id].parentRunId == runs[id].parentRunId && runs'[id].rootRunId == runs[id].rootRunId
  }

  lemma SameLineageKeepsOrder(runs: map<string, Run>, runs': map<string, Run>, order: seq<string>)
    requires CreationOrder(runs, order) && SameLineage(runs, runs')
    ensures CreationOrder(runs', order)
  {
    forall i: nat | i < |order|
      ensures order[i] in runs' && RowOk(runs', order, i)
    {
      assert order[i] in order && RowOk(runs, order, i);
    }
  }

  predicate Keyed(runs: map<string, Run>) {
    forall id <- runs :: runs[id].id == id
  }

  lemma ForestIsKeyed(runs: map<string, Run>)
    requires Forest(runs)
    ensures Keyed(runs)
  {
    var order :| CreationOrder(runs, order);
    forall id | id in runs
      ensures runs[id].id == id
    {
      assert id in order;
      var i :| 0 <= i < |order| && order[i] == id;
      assert RowOk(runs, order, i);
    }
  }

  lemma AppendKeepsOrder(runs: map<string, Run>, order: seq<string>, row: Run)
    requires CreationOrder(runs, order) && row.id != "" && row.id !in runs
    requires row.parentRunId == "" ==> row.rootRunId == ""
    requires row.parentRunId != "" ==> row.parentRunId in runs && row.rootRunId == RootVia(runs[row.parentRunId])
    ensures CreationOrder(runs[row.id := row], order + [row.id])
  {
    var order' := order + [row.id];
    forall i: nat | i < |order'|
      ensures order'[i] in runs[row.id := row] && RowOk(runs[row.id := row], order', i)
    {
      if i < |order| {
        assert order[i] in order && RowOk(runs, order, i);
        assert order'[..i] == order[..i];
      } else {
        assert order'[..i] == order;
      }
    }
  }

  lemma InsertKeepsForest(t: Table, run: Run, key: string)
    requires Forest(t.runs) && FreshId(t, CreateRun(run, key))
    ensures Forest(Insert(t, run, key).0.runs)
  {
    var order :| CreationOrder(t.runs, order);
    if !(key != "" && key in t.keys) && Prepare(t, run).Ok? {
      var row := Prepare(t, run).value;
      if row.parentRunId != "" {
        var k :| 0 <= k < |order| && order[k] == run.parentRunId;
        assert RowOk(t.runs, order, k);
      }
      AppendKeepsOrder(t.runs, order, row);
    }
  }

  lemma WriteKeepsLineage(t: Table, run: Run, held: Option<int>)
    requires Keyed(t.runs)
    ensures SameLineage(t.runs, Write(t, run, held).0.runs)
  {
  }

  lemma CancelKeepsLineage(t: Table, id: string, at: Time)
    ensures SameLineage(t.runs, CancelReply(t, id, at).0.runs)
  {
  }

  lemma RecoverKeepsLineage(t: Table, id: string, token: int)
    ensures SameLineage(t.runs, RecoverIn(t, id, token).0.runs)
  {
  }

  /** Only creation touches lineage: every other operation keeps each row's identifier, parent and root. */
  lemma OnlyCreationSetsLineage(s: Store, op: Op)
    requires Keyed(s.table.runs) && !op.CreateRun? && !op.CreateChildRun?
    ensures SameLineage(s.table.runs, Apply(s, op).0.table.runs)
  {
    match op
    case UpdateRun(run) => WriteKeepsLineage(s.table, run, None);
    case UpdateRunFenced(run, fence) => WriteKeepsLineage(s.table, run, Some(fence));
    case CancelRun(id, at) => CancelKeepsLineage(s.table, id, at);
    case RecoverRun(id, token) => RecoverKeepsLineage(s.table, id, token);
    case _ =>
  }

  lemma StepKeepsForest(s: Store, op: Op)
    requires Forest(s.table.runs) && FreshId(s.table, op)
    ensures Forest(Apply(s, op).0.table.runs)
  {
    if op.CreateRun? || op.CreateChildRun? {
      InsertKeepsForest(s.table, op.run, op.key);
    } else {
      ForestIsKeyed(s.table.runs);
      OnlyCreationSetsLineage(s, op);
      var order :| CreationOrder(s.table.runs, order);
      SameLineageKeepsOrder(s.table.runs, Apply(s, op).0.table.runs, order);
    }
  }

  lemma {:induction false} ExecKeepsForest(s: Store, ops: seq<Op>)
    requires FreshIds(s, ops) && Forest(s.table.runs)
    ensures Forest(Exec(s, ops).table.runs)
    decreases |ops|
  {
    if ops == [] {
    } else {
      StepKeepsForest(s, ops[0]);
      ExecKeepsForest(Apply(s, ops[0]).0, ops[1..]);
    }
  }

  const EMPTY: Store := Store(Table(map[], map[], map[]), map[])

  /** In every state the store can reach, whatever operations ran, the runs form a forest. */
  lemma RunsFormForest(ops: seq<Op>)
    requires FreshIds(EMPTY, ops)
    ensures Forest(Exec(EMPTY, ops).table.runs)
  {
    assert CreationOrder(EMPTY.table.runs, []);
    ExecKeepsForest(EMPTY, ops);
  }

  // ----- chains of parents ----------------------------------------------------------------------------

  /** `path` follows parent links upwards. */
  predicate Path(runs: map<string, Run>, path: seq<string>): (ok: bool)
    ensures ok ==> path != [] && forall id <- path :: id in runs
    decreases |path|
  {
    && path != [] && path[0] in runs
    && (|path| > 1 ==> runs[path[0]].parentRunId == path[1] != "" && Path(runs, path[1..]))
  }

  lemma {:induction false} SuffixPath(runs: map<string, Run>, path: seq<string>, k: nat)
    requires Path(runs, path) && k < |path|
    ensures Path(runs, path[k..])
    decreases k
  {
    if k == 0 {
      assert path[0..] == path;
    } else {
      SuffixPath(runs, path[1..], k - 1);
      assert path[1..][k - 1..] == path[k..];
    }
  }

  /** ... all the way to a run without a parent. */
  predicate Chain(runs: map<string, Run>, path: seq<string>) {
    Path(runs, path) && runs[path[|path| - 1]].parentRunId == ""
  }

  lemma ParentIsEarlier(runs: map<string, Run>, order: seq<string>, i: nat) returns (j: nat)
    requires CreationOrder(runs, order) && i < |order| && runs[order[i]].parentRunId != ""
    ensures j < i && order[j] == runs[order[i]].parentRunId
  {
    assert RowOk(runs, order, i);
    j :| 0 <= j < i && order[..i][j] == runs[order[i]].parentRunId;
  }

  /** Going up a path, creation times strictly decrease. */
  lemma {:induction false} PathGoesBack(runs: map<string, Run>, order: seq<string>, path: seq<string>, i: nat) returns (j: nat)
    requires CreationOrder(runs, order) && Path(runs, path) && i < |order| && order[i] == path[0]
    ensures j <= i && order[j] == path[|path| - 1] && (|path| > 1 ==> j < i)
    decreases |path|
  {
    if |path| == 1 {
      j := i;
    } else {
      assert runs[path[0]].parentRunId == path[1] != "";
      var k := ParentIsEarlier(runs, order, i);
      j := PathGoesBack(runs, order, path[1..], k);
    }
  }

  /** No run is its own ancestor. */
  lemma ForestHasNoCycle(runs: map<string, Run>, path: seq<string>)
    requires Forest(runs) && Path(runs, path) && |path| > 1
    ensures path[0] != path[|path| - 1]
  {
    var order :| CreationOrder(runs, order);
    assert path[0] in order;
    var i :| 0 <= i < |order| && order[i] == path[0];
    var j := PathGoesBack(runs, order, path, i);
  }

  /** A parent link never dangles. */
  lemma ForestIsClosed(runs: map<string, Run>, id: string)
    requires Forest(runs) && id in runs && runs[id].parentRunId != ""
    ensures runs[id].parentRunId in runs
  {
    var order :| CreationOrder(runs, order);
    assert id in order;
    var i :| 0 <= i < |order| && order[i] == id;
    assert RowOk(runs, order, i);
  }

  /** RootRunID is the end of the parent chain, and is empty exactly on the roots themselves. */
  lemma {:induction false} RootIsEndOfChain(runs: map<string, Run>, path: seq<string>)
    requires Forest(runs) && Chain(runs, path)
    ensures runs[path[0]].rootRunId == if |path| == 1 then "" else path[|path| - 1]
    ensures path[|path| - 1] != ""
    decreases |path|
  {
    var order :| CreationOrder(runs, order);
    assert path[0] in order;
    var i :| 0 <= i < |order| && order[i] == path[0];
    assert RowOk(runs, order, i);
    if |path| > 1 {
      var rest := path[1..];
      assert runs[path[0]].parentRunId == rest[0];
      var j := ParentIsEarlier(runs, order, i);
      assert RowOk(runs, order, j);
      RootIsEndOfChain(runs, rest);
    }
  }

  // ----- lineage is permanent -------------------------------------------------------------------------

  /** The row of `id` is still there, under the same parent and root. */
  predicate Kept(runs: map<string, Run>, runs': map<string, Run>, id: string) {
    id in runs ==> id in runs' && runs'[id].parentRunId == runs[id].parentRunId && runs'[id].rootRunId == runs[id].rootRunId
  }

  lemma StepKeepsRow(s: Store, op: Op, id: string)
    requires Forest(s.table.runs) && FreshId(s.table, op)
    ensures Kept(s.table.runs, Apply(s, op).0.table.runs, id)
  {
    if op.CreateRun? || op.CreateChildRun? {
    } else {
      ForestIsKeyed(s.table.runs);
      OnlyCreationSetsLineage(s, op);
    }
  }

  lemma {:induction false} LineageIsPermanent(s: Store, ops: seq<Op>, id: string)
    requires Forest(s.table.runs) && FreshIds(s, ops)
    ensures Kept(s.table.runs, Exec(s, ops).table.runs, id)
    decreases |ops|
  {
    if ops == [] {
    } else {
      StepKeepsRow(s, ops[0], id);
      StepKeepsForest(s, ops[0]);
      LineageIsPermanent(Apply(s, ops[0]).0, ops[1..], id);
    }
  }

  /** A chain of parents stays the chain through any operations: every read of a walk gives the parent it
      would have given at the start. */
  lemma {:induction false} ChainIsPermanent(s: Store, ops: seq<Op>, path: seq<string>)
    requires Forest(s.table.runs) && FreshIds(s, ops) && Chain(s.table.runs, path)
    ensures Chain(Exec(s, ops).table.runs, path)
    decreases |path|
  {
    LineageIsPermanent(s, ops, path[0]);
    if |path| == 1 {
    } else {
      assert path[1..][|path| - 2] == path[|path| - 1];
      ChainIsPermanent(s, ops, path[1..]);
    }
  }

  // ----- the ancestry walk ----------------------------------------------------------------------------

  datatype AncestryError = CycleFound | ReadFailed(cause: StoreError)

  function AgentsOn(runs: map<string, Run>, path: seq<string>): set<string>
    requires forall id <- path :: id in runs
  {
    set id | id in path :: runs[id].agentId
  }

  /** `path` has been walked from `start` up to `current`. */
  predicate Walked(runs: map<string, Run>, start: string, path: seq<string>, current: Run, seen: set<string>, agents: set<string>) {
    && Path(runs, path) && path[0] == start && runs[path[|path| - 1]] == current
    && seen == (set id | id in path)
    && agents == AgentsOn(runs, path)
  }

  lemma {:induction false} ExtendPath(runs: map<string, Run>, path: seq<string>)
    requires Path(runs, path) && runs[path[|path| - 1]].parentRunId != "" && runs[path[|path| - 1]].parentRunId in runs
    ensures Path(runs, path + [runs[path[|path| - 1]].parentRunId])
    decreases |path|
  {
    var longer := path + [runs[path[|path| - 1]].parentRunId];
    if |path| == 1 {
      assert longer[1..] == [longer[1]];
    } else {
      ExtendPath(runs, path[1..]);
      assert longer[1..] == path[1..] + [runs[path[|path| - 1]].parentRunId];
    }
  }

  lemma WalkOn(runs: map<string, Run>, start: string, path: seq<string>, current: Run, seen: set<string>, agents: set<string>)
    requires Keyed(runs) && Walked(runs, start, path, current, seen, agents)
    requires current.parentRunId != "" && current.parentRunId in runs
    ensures var next := runs[current.parentRunId];
            Walked(runs, start, path + [current.parentRunId], next, seen + {next.id}, agents + {next.agentId})
  {
    var longer := path + [current.parentRunId];
    ExtendPath(runs, path);
    assert forall id :: id in longer <==> id in path || id == current.parentRunId;
    assert AgentsOn(runs, longer) == AgentsOn(runs, path) + {runs[current.parentRunId].agentId};
  }

  /** From any stored run the walk ends. It succeeds with the exact chain length and the exact set of
      agents on the chain; it reports a cycle only when a parent link really leads back into the path; and
      on a forest it always succeeds. */
  method AgentCallAncestry(store: Memory, parent: Run) returns (r: Result<(nat, set<string>), AncestryError>)
    requires Keyed(store.runs) && parent.id in store.runs && store.runs[parent.id] == parent
    ensures r.Ok? ==> exists path :: Chain(store.runs, path) && path[0] == parent.id
                                     && r.value == (|path|, AgentsOn(store.runs, path))
    ensures r == Err(CycleFound) ==> exists path :: Path(store.runs, path) && path[0] == parent.id
                                                    && store.runs[path[|path| - 1]].parentRunId in path
    ensures Forest(store.runs) ==> r.Ok?
  {
    var depth, agents, seenRuns := 1, {parent.agentId}, {parent.id};
    var current := parent;
    ghost var path := [parent.id];
    while current.parentRunId != ""
      invariant Walked(store.runs, parent.id, path, current, seenRuns, agents)
      invariant depth == |path|
      decreases store.runs.Keys - seenRuns
    {
      ghost var runs := store.runs;
      if current.parentRunId in seenRuns {
        if Forest(runs) {
          NoBackLink(runs, path);
        }
        return Err(CycleFound);
      }
      var ancestor := store.GetRun(current.parentRunId);
      if ancestor.Err? {
        if Forest(runs) {
          ForestIsClosed(runs, path[|path| - 1]);
        }
        return Err(ReadFailed(ancestor.error));
      }
      WalkOn(runs, parent.id, path, current, seenRuns, agents);
      path := path + [current.parentRunId];
      seenRuns := seenRuns + {ancestor.value.id};
      agents := agents + {ancestor.value.agentId};
      depth := depth + 1;
      current := ancestor.value;
    }
    r := Ok((depth, agents));
  }

  lemma NoBackLink(runs: map<string, Run>, path: seq<string>)
    requires Forest(runs) && Path(runs, path)
    ensures runs[path[|path| - 1]].parentRunId !in path
  {
    var last := path[|path| - 1];
    forall k | 0 <= k < |path|
      ensures path[k] != runs[last].parentRunId
    {
      if path[k] == runs[last].parentRunId {
        SuffixPath(runs, path, k);
        CloseLoop(runs, path[k..]);
      }
    }
  }

  /** A path whose end points back at its start would make its start its own ancestor. */
  lemma CloseLoop(runs: map<string, Run>, path: seq<string>)
    requires Forest(runs) && Path(runs, path)
    ensures runs[path[|path| - 1]].parentRunId != path[0]
  {
    NonEmptyIds(runs, path[0]);
    if runs[path[|path| - 1]].parentRunId == path[0] {
      ExtendPath(runs, path);
      ForestHasNoCycle(runs, path + [path[0]]);
    }
  }

  lemma NonEmptyIds(runs: map<string, Run>, id: string)
    requires Forest(runs) && id in runs
    ensures id != ""
  {
    var order :| CreationOrder(runs, order);
    assert id in order;
    var i :| 0 <= i < |order| && order[i] == id;
    assert RowOk(runs, order, i);
  }
}
