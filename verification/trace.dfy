/** The execution-trace guard (src/debug/trace.ts): one flow per request, an
    append-only log of environment and step records, and per-flow state that
    rejects out-of-protocol steps. The module-level `log` and `traceStates`
    singletons of the source are the explicit `Store` value threaded through
    every operation; ids come from an oracle as the random suffixes. */
module Trace {
  import opened Wrappers
  import opened Json
  import Sorting

  datatype Node = Receive | Parse | Store | Fetch
  datatype Status = Enter | Exit | Error
  datatype NodeStatus = Idle | Entered | Exited | Errored
  datatype Source = Webhook | Frontend

  /** The immutable handle the caller must pass to the next step. */
  datatype Context = Context(traceId: string, envId: string, stepId: int)

  type Meta = map<string, Json>

  datatype TraceRecord =
    | EnvRecord(envId: string, traceId: string, ts: int, source: Source, payload: Json)
    | StepRecord(traceId: string, envId: string, stepId: int, at: int,
                 node: Node, status: Status, meta: Option<Meta>)

  datatype NodeState = NodeState(currentStatus: NodeStatus, lastStepId: int)

  datatype TraceState = TraceState(
    nodes: map<Node, NodeState>,
    lastStepId: int,
    envId: string,
    hasCriticalError: bool)

  /** The log and the per-flow states, keyed by trace id. */
  datatype TraceStore = TraceStore(log: seq<TraceRecord>, states: map<string, TraceState>)

  datatype TraceError =
    | InvalidPayload     // createEnv: payload is not a non-null object
    | MissingIds         // step: handle without trace_id or env_id
    | UnknownTrace       // step: no state for the trace id
    | EnvMismatch        // step: env id differs from the one recorded
    | NegativeStepId     // step: step id below zero
    | OutOfSequence      // step: stale or forged step id
    | TraceClosed        // step: the flow already recorded an error
    | AlreadyEntered     // step: enter on an entered node
    | NotEntered         // step: exit or error on a node that is not entered
    | InvalidTraceId     // replay: empty trace id

  datatype StepOutcome = StepOutcome(result: Result<Context, TraceError>, store: TraceStore)

  const EmptyStore: TraceStore := TraceStore([], map[])

  /** Node status after a recorded step with `status`. */
  function After(status: Status): NodeStatus {
    match status
    case Enter => Entered
    case Exit => Exited
    case Error => Errored
  }

  /** A node never seen in a flow is idle. */
  function NodeStatusOf(ts: TraceState, node: Node): NodeStatus {
    if node in ts.nodes then ts.nodes[node].currentStatus else Idle
  }

  /** Guard 6: enter unless already entered; exit and error only from entered. */
  predicate TransitionAllowed(current: NodeStatus, status: Status) {
    if status == Enter then current != Entered else current == Entered
  }

  /** All seven guards of `step` hold for this handle. */
  predicate Accepts(st: TraceStore, ctx: Context, node: Node, status: Status) {
    && ctx.traceId != "" && ctx.envId != ""
    && ctx.traceId in st.states
    && ctx.envId == st.states[ctx.traceId].envId
    && 0 <= ctx.stepId == st.states[ctx.traceId].lastStepId
    && !st.states[ctx.traceId].hasCriticalError
    && TransitionAllowed(NodeStatusOf(st.states[ctx.traceId], node), status)
  }

  /** Two flow states that no later guard can tell apart. */
  predicate SameFlow(a: TraceState, b: TraceState) {
    && a.lastStepId == b.lastStepId
    && a.envId == b.envId
    && a.hasCriticalError == b.hasCriticalError
    && forall n :: NodeStatusOf(a, n) == NodeStatusOf(b, n)
  }

  function TraceIdOf(traceSuffix: string): string { "tr_" + traceSuffix }
  function EnvIdOf(envSuffix: string): string { "env_" + envSuffix }

  /** `createEnv`: rejects anything but a non-null object; otherwise logs one
      environment record and opens the flow at step 0 with no nodes. */
  function CreateEnv(st: TraceStore, payload: Json, now: int, traceSuffix: string, envSuffix: string)
    : (r: Result<(Context, TraceStore), TraceError>)
    ensures r.Err? <==> !IsObject(payload)
    ensures r.Err? ==> r.error == InvalidPayload
    ensures r.Ok? ==>
      var (ctx, st') := r.value;
      && ctx == Context(TraceIdOf(traceSuffix), EnvIdOf(envSuffix), 0)
      && ctx.traceId != "" && ctx.envId != ""
      && st'.log == st.log + [EnvRecord(ctx.envId, ctx.traceId, now, Webhook, payload)]
      && ctx.traceId in st'.states
      && st'.states[ctx.traceId] == TraceState(map[], 0, ctx.envId, false)
      && (forall t :: t != ctx.traceId ==> (t in st'.states <==> t in st.states))
      && (forall t :: t in st.states && t != ctx.traceId ==> st'.states[t] == st.states[t])
  {
    var traceId := TraceIdOf(traceSuffix);
    var envId := EnvIdOf(envSuffix);
    if !IsObject(payload) then Err(InvalidPayload)
    else
      var st' := TraceStore(st.log + [EnvRecord(envId, traceId, now, Webhook, payload)],
                       st.states[traceId := TraceState(map[], 0, envId, false)]);
      Ok((Context(traceId, envId, 0), st'))
  }

  /** `step`: checks the guards in the source's order; on success appends one
      step record and returns a new handle one step further. */
  function Step(st: TraceStore, ctx: Context, node: Node, status: Status, meta: Option<Meta>, now: int)
    : (o: StepOutcome)
    ensures o.result.Ok? <==> Accepts(st, ctx, node, status)
    ensures o.result.Ok? ==>
      && o.result.value == Context(ctx.traceId, ctx.envId, ctx.stepId + 1)
      && o.store.log == st.log + [StepRecord(ctx.traceId, ctx.envId, ctx.stepId + 1, now, node, status, meta)]
      && ctx.traceId in o.store.states
      && o.store.states == st.states[ctx.traceId := o.store.states[ctx.traceId]]
      && var before, after := st.states[ctx.traceId], o.store.states[ctx.traceId];
         && after.lastStepId == ctx.stepId + 1
         && after.envId == before.envId
         && after.hasCriticalError == (status == Error)
         && NodeStatusOf(after, node) == After(status)
         && forall n :: n != node ==> NodeStatusOf(after, n) == NodeStatusOf(before, n)
    ensures o.result.Err? ==>
      && o.store.log == st.log
      && o.store.states.Keys == st.states.Keys
      && forall t :: t in st.states ==> SameFlow(st.states[t], o.store.states[t])
  {
    if ctx.traceId == "" || ctx.envId == "" then StepOutcome(Err(MissingIds), st)
    else if ctx.traceId !in st.states then StepOutcome(Err(UnknownTrace), st)
    else
      var ts := st.states[ctx.traceId];
      if ctx.envId != ts.envId then StepOutcome(Err(EnvMismatch), st)
      else if ctx.stepId < 0 then StepOutcome(Err(NegativeStepId), st)
      else if ctx.stepId != ts.lastStepId then StepOutcome(Err(OutOfSequence), st)
      else if ts.hasCriticalError then StepOutcome(Err(TraceClosed), st)
      else
        // the node state is created (idle) before guard 6 is checked
        var ns := if node in ts.nodes then ts.nodes[node] else NodeState(Idle, -1);
        var seeded := st.(states := st.states[ctx.traceId := ts.(nodes := ts.nodes[node := ns])]);
        if !TransitionAllowed(ns.currentStatus, status) then
          StepOutcome(Err(if status == Enter then AlreadyEntered else NotEntered), seeded)
        else
          var newStepId := ctx.stepId + 1;
          var rec := StepRecord(ctx.traceId, ctx.envId, newStepId, now, node, status, meta);
          var ts' := TraceState(ts.nodes[node := NodeState(After(status), newStepId)],
                                newStepId, ts.envId, status == Error);
          StepOutcome(Ok(Context(ctx.traceId, ctx.envId, newStepId)),
                      TraceStore(st.log + [rec], st.states[ctx.traceId := ts']))
  }

  // ------------------------------------------------------------------ replay

  /** The replay comparator as a preorder: the environment record first, then
      steps by ascending step id. */
  predicate ReplayLe(a: TraceRecord, b: TraceRecord) {
    a.EnvRecord? || (a.StepRecord? && b.StepRecord? && a.stepId <= b.stepId)
  }

  lemma ReplayLeIsTotalPreorder()
    ensures Sorting.TotalPreorder(ReplayLe)
  {
  }

  /** The records of one flow, in log order (`log.filter(x => x.trace_id === t)`). */
  function FlowRecords(log: seq<TraceRecord>, t: string): (recs: seq<TraceRecord>)
    ensures forall i :: 0 <= i < |recs| ==> recs[i].traceId == t
    ensures |recs| <= |log|
    decreases |log|
  {
    if |log| == 0 then []
    else
      var last := log[|log| - 1];
      FlowRecords(log[..|log| - 1], t) + (if last.traceId == t then [last] else [])
  }

  lemma FlowRecordsAppend(log: seq<TraceRecord>, r: TraceRecord, t: string)
    ensures FlowRecords(log + [r], t) == FlowRecords(log, t) + (if r.traceId == t then [r] else [])
  {
    assert (log + [r])[..|log|] == log;
  }

  lemma {:induction false} FlowRecordsOfAbsent(log: seq<TraceRecord>, t: string)
    requires forall i :: 0 <= i < |log| ==> log[i].traceId != t
    ensures FlowRecords(log, t) == []
    decreases |log|
  {
    if |log| > 0 {
      FlowRecordsOfAbsent(log[..|log| - 1], t);
    }
  }

  /** `replay`: an empty id is refused; otherwise the flow's records, sorted. */
  function Replay(st: TraceStore, traceId: string): (r: Result<seq<TraceRecord>, TraceError>)
    ensures r.Err? <==> traceId == ""
    ensures r.Ok? ==> multiset(r.value) == multiset(FlowRecords(st.log, traceId))
    ensures r.Ok? ==> forall i :: 0 <= i < |r.value| ==> r.value[i].traceId == traceId
    ensures r.Ok? ==> Sorting.SortedBy(r.value, ReplayLe)
  {
    if traceId == "" then Err(InvalidTraceId)
    else
      var recs := FlowRecords(st.log, traceId);
      var sorted := Sorting.Sort(recs, ReplayLe);
      ReplayLeIsTotalPreorder();
      Sorting.SortOrders(recs, ReplayLe);
      assert forall i :: 0 <= i < |sorted| ==> sorted[i] in multiset(recs);
      Ok(sorted)
  }

  // --------------------------------------------------------------- invariant

  /** Status a node has after the records of a flow, read from the log alone. */
  function LastStatusOf(recs: seq<TraceRecord>, node: Node): NodeStatus
    decreases |recs|
  {
    if |recs| == 0 then Idle
    else
      var r := recs[|recs| - 1];
      if r.StepRecord? && r.node == node then After(r.status)
      else LastStatusOf(recs[..|recs| - 1], node)
  }

  lemma LastStatusOfAppend(recs: seq<TraceRecord>, r: TraceRecord, node: Node)
    ensures LastStatusOf(recs + [r], node)
         == if r.StepRecord? && r.node == node then After(r.status) else LastStatusOf(recs, node)
  {
    assert (recs + [r])[..|recs|] == recs;
  }

  /** A log extending `st.log + [r]` starts with `st.log`, then `r`. */
  lemma PrefixOfExtension(log: seq<TraceRecord>, a: seq<TraceRecord>, b: seq<TraceRecord>)
    requires |b| == |a| + 1 && b[..|a|] == a
    requires |log| >= |b| && log[..|b|] == b
    ensures log[..|a| + 1] == b && log[..|a|] == a
  {
    assert log[..|a|] == log[..|b|][..|a|];
  }
  /** A flow's log agrees with its state: the environment record, then steps
      numbered 1, 2, ... up to the last step id, an error only as the final
      record and exactly when the flow is closed, and every node's status is
      the status of its latest record. */
  ghost predicate FlowConsistent(recs: seq<TraceRecord>, ts: TraceState) {
    && ts.lastStepId >= 0
    && |recs| == ts.lastStepId + 1
    && recs[0].EnvRecord? && recs[0].envId == ts.envId
    && (forall i :: 1 <= i < |recs| ==>
          recs[i].StepRecord? && recs[i].stepId == i && recs[i].envId == ts.envId)
    && (forall i :: 1 <= i < |recs| - 1 ==> recs[i].status != Error)
    && (ts.hasCriticalError <==> (|recs| > 1 && recs[|recs| - 1].status == Error))
    && (forall n :: NodeStatusOf(ts, n) == LastStatusOf(recs, n))
  }

  ghost predicate Valid(st: TraceStore) {
    && (forall t :: t in st.states ==> t != "")
    && (forall i :: 0 <= i < |st.log| ==> st.log[i].traceId in st.states)
    && (forall t :: t in st.states ==> FlowConsistent(FlowRecords(st.log, t), st.states[t]))
  }

  lemma EmptyStoreValid()
    ensures Valid(EmptyStore)
  {
  }

  /** Opening a flow under a fresh trace id keeps the store consistent. */
  lemma CreateEnvPreservesValid(st: TraceStore, payload: Json, now: int, traceSuffix: string, envSuffix: string)
    requires Valid(st)
    requires TraceIdOf(traceSuffix) !in st.states
    requires CreateEnv(st, payload, now, traceSuffix, envSuffix).Ok?
    ensures Valid(CreateEnv(st, payload, now, traceSuffix, envSuffix).value.1)
  {
    var (ctx, st') := CreateEnv(st, payload, now, traceSuffix, envSuffix).value;
    var env := EnvRecord(ctx.envId, ctx.traceId, now, Webhook, payload);
    NewFlowConsistent(env, st'.states[ctx.traceId]);
    AddFlowKeepsValid(st, env, st'.states[ctx.traceId], st');
  }

  lemma NewFlowConsistent(env: TraceRecord, ts: TraceState)
    requires env.EnvRecord? && ts == TraceState(map[], 0, env.envId, false)
    ensures FlowConsistent([env], ts)
  {
    forall n ensures NodeStatusOf(ts, n) == LastStatusOf([env], n) {
      assert [env][..0] == [];
    }
  }

  /** Logging the first record of a new flow together with its state. */
  lemma AddFlowKeepsValid(st: TraceStore, rec: TraceRecord, ts: TraceState, st': TraceStore)
    requires Valid(st)
    requires rec.traceId != "" && rec.traceId !in st.states
    requires FlowConsistent([rec], ts)
    requires st'.log == st.log + [rec] && st'.states == st.states[rec.traceId := ts]
    ensures Valid(st')
  {
    forall t | t in st'.states
      ensures FlowConsistent(FlowRecords(st'.log, t), st'.states[t])
    {
      AddFlowKeepsFlow(st, rec, ts, st', t);
    }
    forall i | 0 <= i < |st'.log| ensures st'.log[i].traceId in st'.states {
      if i < |st.log| { assert st'.log[i] == st.log[i]; }
    }
  }

  /** One flow of the store after a new flow's first record is logged. */
  lemma AddFlowKeepsFlow(st: TraceStore, rec: TraceRecord, ts: TraceState, st': TraceStore, t: string)
    requires Valid(st)
    requires rec.traceId !in st.states
    requires FlowConsistent([rec], ts)
    requires st'.log == st.log + [rec] && st'.states == st.states[rec.traceId := ts]
    requires t in st'.states
    ensures FlowConsistent(FlowRecords(st'.log, t), st'.states[t])
  {
    FlowRecordsAppend(st.log, rec, t);
    if t == rec.traceId {
      FlowRecordsOfAbsent(st.log, t);
      assert FlowRecords(st'.log, t) == [rec];
    } else {
      assert FlowRecords(st'.log, t) == FlowRecords(st.log, t);
    }
  }

  /** Appending the record of an accepted step to a consistent open flow. */
  lemma AppendKeepsFlowConsistent(recs: seq<TraceRecord>, ts: TraceState, rec: TraceRecord, ts': TraceState)
    requires FlowConsistent(recs, ts) && !ts.hasCriticalError
    requires rec.StepRecord? && rec.stepId == ts.lastStepId + 1 && rec.envId == ts.envId
    requires ts'.lastStepId == rec.stepId && ts'.envId == ts.envId
    requires ts'.hasCriticalError == (rec.status == Error)
    requires NodeStatusOf(ts', rec.node) == After(rec.status)
    requires forall n :: n != rec.node ==> NodeStatusOf(ts', n) == NodeStatusOf(ts, n)
    ensures FlowConsistent(recs + [rec], ts')
  {
    var recs' := recs + [rec];
    forall i | 1 <= i < |recs'|
      ensures recs'[i].StepRecord? && recs'[i].stepId == i && recs'[i].envId == ts'.envId
    {
      if i < |recs| { assert recs'[i] == recs[i]; }
    }
    forall i | 1 <= i < |recs'| - 1
      ensures recs'[i].status != Error
    {
      assert recs'[i] == recs[i];
    }
    forall n ensures NodeStatusOf(ts', n) == LastStatusOf(recs', n) {
      LastStatusOfAppend(recs, rec, n);
    }
  }

  /** Logging one more record of an existing flow together with its new state. */
  lemma ExtendFlowKeepsValid(st: TraceStore, rec: TraceRecord, ts': TraceState, st': TraceStore)
    requires Valid(st)
    requires rec.traceId in st.states
    requires FlowConsistent(FlowRecords(st.log, rec.traceId) + [rec], ts')
    requires st'.log == st.log + [rec] && st'.states == st.states[rec.traceId := ts']
    ensures Valid(st')
  {
    forall t | t in st'.states
      ensures FlowConsistent(FlowRecords(st'.log, t), st'.states[t])
    {
      ExtendFlowKeepsFlow(st, rec, ts', st', t);
    }
    forall i | 0 <= i < |st'.log| ensures st'.log[i].traceId in st'.states {
      if i < |st.log| { assert st'.log[i] == st.log[i]; }
    }
  }

  /** One flow of the store after a record of an existing flow is logged. */
  lemma ExtendFlowKeepsFlow(st: TraceStore, rec: TraceRecord, ts': TraceState, st': TraceStore, t: string)
    requires Valid(st)
    requires FlowConsistent(FlowRecords(st.log, rec.traceId) + [rec], ts')
    requires st'.log == st.log + [rec] && st'.states == st.states[rec.traceId := ts']
    requires t in st'.states
    ensures FlowConsistent(FlowRecords(st'.log, t), st'.states[t])
  {
    FlowRecordsAppend(st.log, rec, t);
    if t != rec.traceId {
      assert FlowRecords(st'.log, t) == FlowRecords(st.log, t);
      assert st'.states[t] == st.states[t];
    }
  }

  /** A store whose log is unchanged and whose flows no guard can tell apart. */
  lemma SameFlowsKeepValid(st: TraceStore, st': TraceStore)
    requires Valid(st)
    requires st'.log == st.log && st'.states.Keys == st.states.Keys
    requires forall t :: t in st.states ==> SameFlow(st.states[t], st'.states[t])
    ensures Valid(st')
  {
    forall t | t in st'.states
      ensures FlowConsistent(FlowRecords(st'.log, t), st'.states[t])
    {
      assert SameFlow(st.states[t], st'.states[t]);
    }
  }

  /** Every step, accepted or refused, keeps the store consistent. */
  lemma StepPreservesValid(st: TraceStore, ctx: Context, node: Node, status: Status, meta: Option<Meta>, now: int)
    requires Valid(st)
    ensures Valid(Step(st, ctx, node, status, meta, now).store)
  {
    var o := Step(st, ctx, node, status, meta, now);
    if o.result.Ok? {
      var rec := StepRecord(ctx.traceId, ctx.envId, ctx.stepId + 1, now, node, status, meta);
      var ts' := o.store.states[ctx.traceId];
      AppendKeepsFlowConsistent(FlowRecords(st.log, ctx.traceId), st.states[ctx.traceId], rec, ts');
      ExtendFlowKeepsValid(st, rec, ts', o.store);
    } else {
      SameFlowsKeepValid(st, o.store);
    }
  }

  /** Replaying a flow of a consistent store yields exactly its records in log
      order: the environment record followed by steps 1 .. lastStepId. */
  lemma ReplayOfOpenedFlow(st: TraceStore, t: string)
    requires Valid(st)
    requires t in st.states
    ensures t != ""
    ensures Replay(st, t) == Ok(FlowRecords(st.log, t))
    ensures var recs := Replay(st, t).value;
      && |recs| == 1 + st.states[t].lastStepId
      && recs[0].EnvRecord? && recs[0].traceId == t
      && forall i :: 1 <= i < |recs| ==> recs[i].StepRecord? && recs[i].stepId == i
  {
    var recs := FlowRecords(st.log, t);
    assert FlowConsistent(recs, st.states[t]);
    assert Sorting.SortedBy(recs, ReplayLe);
    Sorting.SortOfSorted(recs, ReplayLe);
  }

  /** A trace id that was never opened replays to the empty list. */
  lemma ReplayOfUnknownFlow(st: TraceStore, t: string)
    requires Valid(st)
    requires t != "" && t !in st.states
    ensures Replay(st, t) == Ok([])
  {
    FlowRecordsOfAbsent(st.log, t);
  }

  // ------------------------------------------------------------ guard facts

  /** Reusing a handle after it has been stepped is refused as out of sequence
      and records nothing: the anti-tamper property of the step id. */
  lemma StaleHandleRejected(st: TraceStore, ctx: Context, node: Node, status: Status, meta: Option<Meta>, now: int,
                            node2: Node, status2: Status, meta2: Option<Meta>, now2: int)
    requires Step(st, ctx, node, status, meta, now).result.Ok?
    ensures var st' := Step(st, ctx, node, status, meta, now).store;
      var o := Step(st', ctx, node2, status2, meta2, now2);
      o.result == Err(OutOfSequence) && o.store.log == st'.log
  {
  }

  /** A handle whose env id differs from the flow's is refused. */
  lemma ForeignEnvRejected(st: TraceStore, ctx: Context, node: Node, status: Status, meta: Option<Meta>, now: int)
    requires ctx.traceId != "" && ctx.envId != ""
    requires ctx.traceId in st.states && ctx.envId != st.states[ctx.traceId].envId
    ensures Step(st, ctx, node, status, meta, now).result == Err(EnvMismatch)
  {
  }

  /** A negative step id is refused before the sequence check. */
  lemma NegativeStepRejected(st: TraceStore, ctx: Context, node: Node, status: Status, meta: Option<Meta>, now: int)
    requires ctx.traceId != "" && ctx.envId != "" && ctx.traceId in st.states
    requires ctx.envId == st.states[ctx.traceId].envId && ctx.stepId < 0
    ensures Step(st, ctx, node, status, meta, now).result == Err(NegativeStepId)
  {
  }

  /** On a consistent store, with an in-sequence handle on an open flow, an
      `exit` or `error` is accepted exactly when the node's latest record in
      the log is an `enter`, and an `enter` exactly when it is not. */
  lemma NodeRuleFromLog(st: TraceStore, ctx: Context, node: Node, status: Status, meta: Option<Meta>, now: int)
    requires Valid(st)
    requires ctx.traceId != "" && ctx.envId != "" && ctx.traceId in st.states
    requires ctx.envId == st.states[ctx.traceId].envId
    requires ctx.stepId == st.states[ctx.traceId].lastStepId
    requires !st.states[ctx.traceId].hasCriticalError
    ensures var latest := LastStatusOf(FlowRecords(st.log, ctx.traceId), node);
      (Step(st, ctx, node, status, meta, now).result.Ok? <==>
       if status == Enter then latest != Entered else latest == Entered)
  {
    var recs := FlowRecords(st.log, ctx.traceId);
    assert FlowConsistent(recs, st.states[ctx.traceId]);
    assert NodeStatusOf(st.states[ctx.traceId], node) == LastStatusOf(recs, node);
  }

  // ------------------------------------------------------------ runs of calls

  /** One call into the guard, with its oracle values. */
  datatype Op =
    | StepOp(ctx: Context, node: Node, status: Status, meta: Option<Meta>, at: int)
    | CreateOp(payload: Json, ts: int, traceSuffix: string, envSuffix: string)

  function ApplyOp(st: TraceStore, op: Op): TraceStore {
    match op
    case StepOp(ctx, node, status, meta, at) => Step(st, ctx, node, status, meta, at).store
    case CreateOp(payload, ts, traceSuffix, envSuffix) =>
      match CreateEnv(st, payload, ts, traceSuffix, envSuffix)
      case Ok((_, st')) => st'
      case Err(_) => st
  }

  function Apply(st: TraceStore, ops: seq<Op>): TraceStore
    decreases |ops|
  {
    if |ops| == 0 then st else Apply(ApplyOp(st, ops[0]), ops[1..])
  }

  /** No `createEnv` in the run is handed the id `t` again by the id oracle. */
  predicate NeverReissues(ops: seq<Op>, t: string) {
    forall i :: 0 <= i < |ops| ==> ops[i].CreateOp? ==> TraceIdOf(ops[i].traceSuffix) != t
  }

  /** Once a flow has recorded an error it is closed for good: whatever calls
      follow, it stays closed and not one more record joins its log. */
  lemma {:induction false} ClosedFlowStaysClosed(st: TraceStore, ops: seq<Op>, t: string)
    requires t in st.states && st.states[t].hasCriticalError
    requires NeverReissues(ops, t)
    ensures t in Apply(st, ops).states && Apply(st, ops).states[t].hasCriticalError
    ensures FlowRecords(Apply(st, ops).log, t) == FlowRecords(st.log, t)
    decreases |ops|
  {
    if |ops| > 0 {
      var st1 := ApplyOp(st, ops[0]);
      match ops[0] {
      case StepOp(ctx, node, status, meta, at) => {
        var o := Step(st, ctx, node, status, meta, at);
        assert st1 == o.store;
        if o.result.Ok? {
          assert ctx.traceId != t;
          FlowRecordsAppend(st.log, StepRecord(ctx.traceId, ctx.envId, ctx.stepId + 1, at, node, status, meta), t);
          assert st1.states[t] == st.states[t];
        } else {
          assert SameFlow(st.states[t], st1.states[t]);
        }
      }
      case CreateOp(payload, ts, traceSuffix, envSuffix) => {
        var r := CreateEnv(st, payload, ts, traceSuffix, envSuffix);
        if r.Ok? {
          assert st1 == r.value.1;
          assert TraceIdOf(traceSuffix) != t;
          FlowRecordsAppend(st.log, EnvRecord(EnvIdOf(envSuffix), TraceIdOf(traceSuffix), ts, Webhook, payload), t);
        } else {
          assert st1 == st;
        }
      }
      }
      assert t in st1.states && st1.states[t].hasCriticalError;
      assert FlowRecords(st1.log, t) == FlowRecords(st.log, t);
      assert NeverReissues(ops[1..], t) by {
        forall i | 0 <= i < |ops[1..]| ensures ops[1..][i].CreateOp? ==> TraceIdOf(ops[1..][i].traceSuffix) != t {
          assert ops[1..][i] == ops[i + 1];
        }
      }
      ClosedFlowStaysClosed(st1, ops[1..], t);
    }
  }

  /** Calls on other flows never touch a flow's state or its records. */
  lemma {:induction false} OtherFlowsAreIsolated(st: TraceStore, ops: seq<Op>, t: string)
    requires t in st.states
    requires NeverReissues(ops, t)
    requires forall i :: 0 <= i < |ops| ==> ops[i].StepOp? ==> ops[i].ctx.traceId != t
    ensures t in Apply(st, ops).states && SameFlow(Apply(st, ops).states[t], st.states[t])
    ensures FlowRecords(Apply(st, ops).log, t) == FlowRecords(st.log, t)
    decreases |ops|
  {
    if |ops| > 0 {
      var st1 := ApplyOp(st, ops[0]);
      match ops[0] {
      case StepOp(ctx, node, status, meta, at) => {
        var o := Step(st, ctx, node, status, meta, at);
        if o.result.Ok? {
          FlowRecordsAppend(st.log, StepRecord(ctx.traceId, ctx.envId, ctx.stepId + 1, at, node, status, meta), t);
        } else {
          assert SameFlow(st.states[t], st1.states[t]);
        }
      }
      case CreateOp(payload, ts, traceSuffix, envSuffix) => {
        var r := CreateEnv(st, payload, ts, traceSuffix, envSuffix);
        if r.Ok? {
          FlowRecordsAppend(st.log, EnvRecord(EnvIdOf(envSuffix), TraceIdOf(traceSuffix), ts, Webhook, payload), t);
        }
      }
      }
      forall i | 0 <= i < |ops[1..]|
        ensures ops[1..][i].CreateOp? ==> TraceIdOf(ops[1..][i].traceSuffix) != t
        ensures ops[1..][i].StepOp? ==> ops[1..][i].ctx.traceId != t
      {
        assert ops[1..][i] == ops[i + 1];
      }
      OtherFlowsAreIsolated(st1, ops[1..], t);
    }
  }
}
