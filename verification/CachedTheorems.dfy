/** The cached repository cannot be told from the store behind it. */
module CachedTheorems {
  import opened Basics
  import opened Runs
  import opened RunStore
  import opened Agents
  import opened StoreOps
  import opened Cached

  // ----- coherence ------------------------------------------------------------------------------------

  /** Rows sit under their own, non-empty identifiers; idempotency keys name existing rows. */
  predicate StoreOk(s: Store) {
    && (forall id <- s.table.runs :: s.table.runs[id].id == id != "")
    && (forall k <- s.table.keys :: s.table.keys[k] in s.table.runs)
    && (forall id <- s.agents :: s.agents[id].id == id)
  }

  ghost predicate RunsCoherent(runs: map<string, Run>, cache: map<Key, Entry>) {
    forall id :: RunKey(id) in cache ==> id in runs && cache[RunKey(id)] == RunEntry(runs[id])
  }

  ghost predicate AgentsCoherent(agents: map<string, Agent>, cache: map<Key, Entry>) {
    forall id :: AgentKey(id) in cache ==> id in agents && cache[AgentKey(id)] == AgentEntry(agents[id])
  }

  ghost predicate Coherent(l: Layered) {
    RunsCoherent(l.store.table.runs, l.cache) && AgentsCoherent(l.store.agents, l.cache)
  }

  /** The two maps agree everywhere but at `id`, and nothing else disappears. */
  predicate SameBut<V(==)>(a: map<string, V>, b: map<string, V>, id: string) {
    forall j <- a :: j != id ==> j in b && b[j] == a[j]
  }

  lemma PutRun(runs: map<string, Run>, runs': map<string, Run>, agents: map<string, Agent>, cache: map<Key, Entry>, id: string)
    requires RunsCoherent(runs, cache) && AgentsCoherent(agents, cache) && SameBut(runs, runs', id) && id in runs'
    ensures var cache' := cache[RunKey(id) := RunEntry(runs'[id])];
            RunsCoherent(runs', cache') && AgentsCoherent(agents, cache')
  {
  }

  lemma DropRun(runs: map<string, Run>, runs': map<string, Run>, agents: map<string, Agent>, cache: map<Key, Entry>, id: string)
    requires RunsCoherent(runs, cache) && AgentsCoherent(agents, cache) && SameBut(runs, runs', id)
    ensures RunsCoherent(runs', cache - {RunKey(id)}) && AgentsCoherent(agents, cache - {RunKey(id)})
  {
  }

  lemma PutAgent(runs: map<string, Run>, agents: map<string, Agent>, agents': map<string, Agent>, cache: map<Key, Entry>, id: string)
    requires RunsCoherent(runs, cache) && AgentsCoherent(agents, cache) && SameBut(agents, agents', id) && id in agents'
    ensures var cache' := cache[AgentKey(id) := AgentEntry(agents'[id])];
            RunsCoherent(runs, cache') && AgentsCoherent(agents', cache')
  {
  }

  lemma DropAgent(runs: map<string, Run>, agents: map<string, Agent>, agents': map<string, Agent>, cache: map<Key, Entry>, id: string)
    requires RunsCoherent(runs, cache) && AgentsCoherent(agents, cache) && SameBut(agents, agents', id)
    ensures RunsCoherent(runs, cache - {AgentKey(id)}) && AgentsCoherent(agents', cache - {AgentKey(id)})
  {
  }

  // ----- one operation --------------------------------------------------------------------------------

  predicate KeepsLineage(t: Table, run: Run) {
    run.id in t.runs ==> run.parentRunId == t.runs[run.id].parentRunId && run.rootRunId == t.runs[run.id].rootRunId
  }

  /** What callers do: run identifiers are not empty, and an update that is accepted keeps the lineage
      fields of the stored row. */
  predicate Regular(s: Store, op: Op) {
    match op
    case CreateRun(run, _) => run.id != ""
    case CreateChildRun(run, _, _) => run.id != ""
    case UpdateRun(run) => WriteReply(s.table, run, None).Ok? ==> KeepsLineage(s.table, run)
    case UpdateRunFenced(run, fence) => WriteReply(s.table, run, Some(fence)).Ok? ==> KeepsLineage(s.table, run)
    case _ => true
  }

  lemma StoreStaysOk(s: Store, op: Op)
    requires StoreOk(s) && Regular(s, op)
    ensures StoreOk(Apply(s, op).0)
  {
    match op
    case CreateRun(run, key) => InsertStaysOk(s, run, key);
    case CreateChildRun(run, key, _) => InsertStaysOk(s, run, key);
    case UpdateRun(run) => WriteStaysOk(s, run, None);
    case UpdateRunFenced(run, fence) => WriteStaysOk(s, run, Some(fence));
    case CancelRun(id, at) => CancelStaysOk(s, id, at);
    case RecoverRun(id, token) => RecoverStaysOk(s, id, token);
    case _ =>
  }

  lemma InsertStaysOk(s: Store, run: Run, key: string)
    requires StoreOk(s) && run.id != ""
    ensures StoreOk(s.(table := Insert(s.table, run, key).0))
  {
  }

  lemma WriteStaysOk(s: Store, run: Run, held: Option<int>)
    requires StoreOk(s)
    ensures StoreOk(s.(table := Write(s.table, run, held).0))
  {
  }

  lemma CancelStaysOk(s: Store, id: string, at: Time)
    requires StoreOk(s)
    ensures StoreOk(s.(table := CancelReply(s.table, id, at).0))
  {
  }

  lemma RecoverStaysOk(s: Store, id: string, token: int)
    requires StoreOk(s)
    ensures StoreOk(s.(table := RecoverIn(s.table, id, token).0))
  {
  }

  ghost predicate Tracks(l: Layered, op: Op) {
    var (after, reply) := CachedApply(l, op);
    reply == Apply(l.store, op).1 && after.store == Apply(l.store, op).0 && Coherent(after)
  }

  lemma ReadsTrack(l: Layered, op: Op)
    requires StoreOk(l.store) && Coherent(l) && (op.GetRun? || op.GetAgent?)
    ensures Tracks(l, op)
  {
    var runs, agents := l.store.table.runs, l.store.agents;
    if Hit(l.cache, op).None? {
      if op.GetRun? && op.id in runs {
        PutRun(runs, runs, agents, l.cache, op.id);
      }
      if op.GetAgent? && op.id in agents {
        PutAgent(runs, agents, agents, l.cache, op.id);
      }
    }
  }

  lemma WritesTrack(l: Layered, run: Run, held: Option<int>)
    requires StoreOk(l.store) && Coherent(l)
    requires WriteReply(l.store.table, run, held).Ok? ==> KeepsLineage(l.store.table, run)
    ensures var (t, failure) := Write(l.store.table, run, held);
            Coherent(Layered(l.store.(table := t), TouchWrite(l.cache, run, failure)))
  {
    var (t, failure) := Write(l.store.table, run, held);
    if failure.None? {
      PutRun(l.store.table.runs, t.runs, l.store.agents, l.cache, run.id);
    } else {
      DropRun(l.store.table.runs, t.runs, l.store.agents, l.cache, run.id);
    }
  }

  lemma CreatesTrack(l: Layered, op: Op)
    requires StoreOk(l.store) && Coherent(l) && (op.CreateRun? || op.CreateChildRun?) && Regular(l.store, op)
    ensures Tracks(l, op)
  {
    var t := l.store.table;
    InsertTracks(t, op.run, op.key);
    var after := Apply(l.store, op).0.table;
    var reply := Apply(l.store, op).1.created;
    if reply.Ok? {
      PutRun(t.runs, after.runs, l.store.agents, l.cache, reply.value.0.id);
    }
  }

  /** The reply of a creation is the row now stored under its identifier; no other row changes. */
  lemma InsertTracks(t: Table, run: Run, key: string)
    requires StoreOk(Store(t, map[]))
    ensures var (t', r) := Insert(t, run, key);
            r.Ok? ==> var row := r.value.0; row.id in t'.runs && t'.runs[row.id] == row && SameBut(t.runs, t'.runs, row.id)
    ensures Insert(t, run, key).1.Err? ==> Insert(t, run, key).0 == t
  {
  }

  lemma ClaimsTrack(l: Layered, id: string, token: int)
    requires StoreOk(l.store) && Coherent(l)
    ensures Tracks(l, ClaimRun(id, token))
  {
    var t, t' := l.store.table, ClaimIn(l.store.table, id, token).0;
    DropRun(t.runs, t'.runs, l.store.agents, l.cache, id);
  }

  lemma CancelsTrack(l: Layered, id: string, at: Time)
    requires StoreOk(l.store) && Coherent(l)
    ensures Tracks(l, CancelRun(id, at))
  {
    var t := l.store.table;
    var (t', row, _) := CancelReply(t, id, at);
    if id in t.runs {
      assert row.id == id && t'.runs[id] == row;
      PutRun(t.runs, t'.runs, l.store.agents, l.cache, id);
    }
  }

  lemma RecoveriesTrack(l: Layered, id: string, token: int)
    requires StoreOk(l.store) && Coherent(l)
    ensures Tracks(l, RecoverRun(id, token))
  {
    var t, t' := l.store.table, RecoverIn(l.store.table, id, token).0;
    DropRun(t.runs, t'.runs, l.store.agents, l.cache, id);
  }

  lemma AgentDeletesTrack(l: Layered, op: Op)
    requires Coherent(l) && op.DeleteAgent?
    ensures Tracks(l, op)
  {
    DropAgent(l.store.table.runs, l.store.agents, Apply(l.store, op).0.agents, l.cache, op.id);
  }

  lemma AgentWritesTrack(l: Layered, op: Op)
    requires Coherent(l) && (op.CreateAgent? || op.UpdateAgent?)
    ensures Tracks(l, op)
  {
    var runs, agents, agents' := l.store.table.runs, l.store.agents, Apply(l.store, op).0.agents;
    var r := Apply(l.store, op).1.stored;
    if r.Ok? {
      PutAgent(runs, agents, agents', l.cache, r.value.id);
    } else if op.UpdateAgent? {
      DropAgent(runs, agents, agents', l.cache, op.requested);
    }
  }

  lemma StepTracks(l: Layered, op: Op)
    requires StoreOk(l.store) && Coherent(l) && Regular(l.store, op)
    ensures Tracks(l, op)
  {
    match op
    case GetRun(_) => ReadsTrack(l, op);
    case GetAgent(_) => ReadsTrack(l, op);
    case UpdateRun(run) => WritesTrack(l, run, None);
    case UpdateRunFenced(run, fence) => WritesTrack(l, run, Some(fence));
    case CreateRun(_, _) => CreatesTrack(l, op);
    case CreateChildRun(_, _, _) => CreatesTrack(l, op);
    case ClaimRun(id, token) => ClaimsTrack(l, id, token);
    case CancelRun(id, at) => CancelsTrack(l, id, at);
    case RecoverRun(id, token) => RecoveriesTrack(l, id, token);
    case DeleteAgent(_, _, _) => AgentDeletesTrack(l, op);
    case _ => AgentWritesTrack(l, op);
  }

  // ----- whole histories ------------------------------------------------------------------------------

  datatype Event = Call(op: Op) | Expire(key: Key)

  /** The replies of the store alone to the calls of a history. */
  function Replies(s: Store, events: seq<Event>): seq<Reply>
    decreases |events|
  {
    if events == [] then []
    else
      match events[0]
      case Call(op) => [Apply(s, op).1] + Replies(Apply(s, op).0, events[1..])
      case Expire(_) => Replies(s, events[1..])
  }

  /** The replies of the cached repository to the same calls, entries expiring where the history says. */
  function CachedReplies(l: Layered, events: seq<Event>): seq<Reply>
    decreases |events|
  {
    if events == [] then []
    else
      match events[0]
      case Call(op) => [CachedApply(l, op).1] + CachedReplies(CachedApply(l, op).0, events[1..])
      case Expire(key) => CachedReplies(l.(cache := l.cache - {key}), events[1..])
  }

  predicate RegularHistory(s: Store, events: seq<Event>)
    decreases |events|
  {
    if events == [] then true
    else
      match events[0]
      case Call(op) => Regular(s, op) && RegularHistory(Apply(s, op).0, events[1..])
      case Expire(_) => RegularHistory(s, events[1..])
  }

  /** For every history, every reply of the cached repository is the reply of the store alone. */
  lemma {:induction false} CacheIsInvisible(l: Layered, events: seq<Event>)
    requires StoreOk(l.store) && Coherent(l) && RegularHistory(l.store, events)
    ensures CachedReplies(l, events) == Replies(l.store, events)
    decreases |events|
  {
    if events == [] {
    } else {
      match events[0]
      case Call(op) =>
        StepTracks(l, op);
        StoreStaysOk(l.store, op);
        CacheIsInvisible(CachedApply(l, op).0, events[1..]);
      case Expire(key) =>
        CacheIsInvisible(l.(cache := l.cache - {key}), events[1..]);
    }
  }

  /** The cache is used: after a read, a creation, an accepted update or a cancellation that replies with a run,
      the next read of that run is answered without the store, unless the entry has expired. */
  lemma NextReadIsHit(l: Layered, op: Op)
    requires StoreOk(l.store) && Coherent(l) && Regular(l.store, op)
    ensures var (after, reply) := CachedApply(l, op);
            && (op.GetRun? && reply.read.Ok? ==> Hit(after.cache, GetRun(op.id)).Some?)
            && ((op.CreateRun? || op.CreateChildRun?) && reply.created.Ok? ==> Hit(after.cache, GetRun(reply.created.value.0.id)).Some?)
            && ((op.UpdateRun? || op.UpdateRunFenced?) && reply.failure.None? ==> Hit(after.cache, GetRun(op.run.id)).Some?)
            && (op.CancelRun? && op.id in l.store.table.runs ==> Hit(after.cache, GetRun(op.id)).Some?)
            && (op.GetAgent? && reply.agent.Ok? && reply.agent.value.version >= 1 ==> Hit(after.cache, GetAgent(op.id)).Some?)
            && ((op.CreateAgent? || op.UpdateAgent?) && reply.stored.Ok? && reply.stored.value.version >= 1 ==>
                  Hit(after.cache, GetAgent(reply.stored.value.id)).Some?)
  {
  }

  /** The lineage condition is exact: a read right after an accepted update agrees with the store if and
      only if the update kept the stored lineage. */
  lemma ReadAfterWriteAgreesIff(l: Layered, run: Run, held: Option<int>)
    requires StoreOk(l.store) && Coherent(l) && WriteReply(l.store.table, run, held).Ok?
    ensures var op := if held.None? then UpdateRun(run) else UpdateRunFenced(run, held.value);
            var after := CachedApply(l, op).0;
            CachedApply(after, GetRun(run.id)).1 == Apply(after.store, GetRun(run.id)).1 <==> KeepsLineage(l.store.table, run)
  {
    assert WithLineageOf(run, l.store.table.runs[run.id]) == run <==> KeepsLineage(l.store.table, run);
  }
}
