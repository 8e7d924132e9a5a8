/** Event persistence (src/shared/storage.ts): the query `queryEvents` builds
    from its optional filters, and the trace-step protocol `storeEvent`
    follows around the insert. The D1 database is an oracle that answers a
    query or an insert; the engine decides what it sends and what it makes
    of the answer. */
module Storage {
  import opened Wrappers
  import opened Json
  import opened Strings
  import Trace

  /** One stored webhook event, a row of `webhook_events`. */
  datatype StoredEvent = StoredEvent(
    id: string,
    traceId: string,
    timestamp: string,
    verb: string,
    url: string,
    pathname: string,
    ip: Option<string>,
    userAgent: Option<string>,
    headers: string,            // JSON text
    payload: string,            // JSON text
    contentType: string,
    processingTimeMs: int,
    createdAt: int)

  /** A bound parameter: text, or a number as `parseInt` produced it. */
  datatype Param = PText(text: string) | PNum(num: ParsedInt)

  datatype Query = Query(sql: string, params: seq<Param>)

  /** `None` is an option left `undefined` by the caller. */
  datatype QueryOptions = QueryOptions(
    pathname: Option<string>,
    traceId: Option<string>,
    limit: Option<ParsedInt>,
    offset: Option<ParsedInt>)

  datatype QueryAnswer = Rows(results: Option<seq<StoredEvent>>) | QueryThrew(message: string)
  datatype InsertAnswer = RunResult(success: bool, rowsWritten: int) | InsertThrew(message: string)

  /** The database as its answers: to a query, and to an insert of a row. */
  datatype Database = Database(query: Query -> QueryAnswer, insert: StoredEvent -> InsertAnswer)

  const DEFAULT_LIMIT: int := 50
  const DEFAULT_OFFSET: int := 0
  const SELECT: string := "SELECT * FROM webhook_events"
  const ORDER: string := " ORDER BY created_at DESC LIMIT ? OFFSET ?"

  // ---------------------------------------------------------------- queries

  /** The filter conditions, each with its parameter, in source order. */
  function Filters(opts: QueryOptions): (r: (seq<string>, seq<Param>))
    ensures |r.0| == |r.1| <= 2
  {
    var byPath := if HasText(opts.pathname) then (["pathname = ?"], [PText(opts.pathname.value)]) else ([], []);
    var byTrace := if HasText(opts.traceId) then (["trace_id = ?"], [PText(opts.traceId.value)]) else ([], []);
    (byPath.0 + byTrace.0, byPath.1 + byTrace.1)
  }

  /** `' WHERE ' + conditions.join(' AND ')` when there is a condition. */
  function WhereClause(conditions: seq<string>): string {
    if |conditions| > 0 then " WHERE " + Join(conditions, " AND ") else ""
  }

  /** The SQL and parameters `queryEvents` sends. */
  function BuildQuery(opts: QueryOptions): (q: Query)
    ensures StartsWith(q.sql, SELECT)
    ensures 2 <= |q.params| <= 4
    ensures q.params[|q.params| - 2] == PNum(opts.limit.GetOr(Int(DEFAULT_LIMIT)))
    ensures q.params[|q.params| - 1] == PNum(opts.offset.GetOr(Int(DEFAULT_OFFSET)))
  {
    var (conditions, params) := Filters(opts);
    Query(SELECT + WhereClause(conditions) + ORDER,
          params + [PNum(opts.limit.GetOr(Int(DEFAULT_LIMIT))), PNum(opts.offset.GetOr(Int(DEFAULT_OFFSET)))])
  }

  /** The four queries, one per combination of filters: a `WHERE` clause
      exactly when a filter is given, `pathname` before `trace_id`, and the
      ordering and paging always last. */
  lemma QueryShapes(opts: QueryOptions)
    ensures var q := BuildQuery(opts);
      var limit, offset := PNum(opts.limit.GetOr(Int(50))), PNum(opts.offset.GetOr(Int(0)));
      && (!HasText(opts.pathname) && !HasText(opts.traceId) ==>
            q == Query("SELECT * FROM webhook_events" + " ORDER BY created_at DESC LIMIT ? OFFSET ?",
                       [limit, offset]))
      && (HasText(opts.pathname) && !HasText(opts.traceId) ==>
            q == Query("SELECT * FROM webhook_events" + " WHERE pathname = ?" + " ORDER BY created_at DESC LIMIT ? OFFSET ?",
                       [PText(opts.pathname.value), limit, offset]))
      && (!HasText(opts.pathname) && HasText(opts.traceId) ==>
            q == Query("SELECT * FROM webhook_events" + " WHERE trace_id = ?" + " ORDER BY created_at DESC LIMIT ? OFFSET ?",
                       [PText(opts.traceId.value), limit, offset]))
      && (HasText(opts.pathname) && HasText(opts.traceId) ==>
            q == Query("SELECT * FROM webhook_events" + (" WHERE " + ("pathname = ?" + " AND " + "trace_id = ?")) + " ORDER BY created_at DESC LIMIT ? OFFSET ?",
                       [PText(opts.pathname.value), PText(opts.traceId.value), limit, offset]))
  {
    if HasText(opts.pathname) && HasText(opts.traceId) {
      BothFiltersSql(opts);
    } else if HasText(opts.pathname) {
      PathnameFilterSql(opts);
    } else if HasText(opts.traceId) {
      TraceFilterSql(opts);
    } else {
      assert WhereClause(Filters(opts).0) == "";
    }
  }

  lemma BothFiltersSql(opts: QueryOptions)
    requires HasText(opts.pathname) && HasText(opts.traceId)
    ensures BuildQuery(opts).sql
         == "SELECT * FROM webhook_events" + (" WHERE " + ("pathname = ?" + " AND " + "trace_id = ?")) + " ORDER BY created_at DESC LIMIT ? OFFSET ?"
  {
    assert Filters(opts).0 == ["pathname = ?", "trace_id = ?"];
    WhereBoth();
  }

  lemma WhereBoth()
    ensures WhereClause(["pathname = ?", "trace_id = ?"]) == " WHERE " + ("pathname = ?" + " AND " + "trace_id = ?")
  {
    JoinPair("pathname = ?", "trace_id = ?", " AND ");
  }

  lemma JoinPair(a: string, b: string, sep: string)
    ensures Join([a, b], sep) == a + sep + b
  {
    assert [a, b][1..] == [b];
  }

  lemma PathnameFilterSql(opts: QueryOptions)
    requires HasText(opts.pathname) && !HasText(opts.traceId)
    ensures BuildQuery(opts).sql
         == "SELECT * FROM webhook_events" + " WHERE pathname = ?" + " ORDER BY created_at DESC LIMIT ? OFFSET ?"
  {
    assert Filters(opts).0 == ["pathname = ?"];
    assert WhereClause(Filters(opts).0) == " WHERE pathname = ?";
  }

  lemma TraceFilterSql(opts: QueryOptions)
    requires !HasText(opts.pathname) && HasText(opts.traceId)
    ensures BuildQuery(opts).sql
         == "SELECT * FROM webhook_events" + " WHERE trace_id = ?" + " ORDER BY created_at DESC LIMIT ? OFFSET ?"
  {
    assert Filters(opts).0 == ["trace_id = ?"];
    assert WhereClause(Filters(opts).0) == " WHERE trace_id = ?";
  }

  /** `queryEvents`: sends the built query; a missing `results` is the empty
      list; a database exception propagates as `Err`. */
  function QueryEvents(db: Database, opts: QueryOptions): (r: Result<seq<StoredEvent>, string>)
    ensures db.query(BuildQuery(opts)).QueryThrew? <==> r.Err?
    ensures db.query(BuildQuery(opts)) == Rows(None) ==> r == Ok([])
    ensures db.query(BuildQuery(opts)) == Rows(Some([])) ==> r == Ok([])
  {
    match db.query(BuildQuery(opts))
    case QueryThrew(message) => Err(message)
    case Rows(results) => Ok(results.GetOr([]))
  }

  /** A row as `JSON.stringify` renders it for clients: the columns by name,
      `null` for an absent IP or user agent. */
  function RowJson(e: StoredEvent): Json {
    JObj(map["id" := JStr(e.id), "trace_id" := JStr(e.traceId), "timestamp" := JStr(e.timestamp),
             "method" := JStr(e.verb), "url" := JStr(e.url), "pathname" := JStr(e.pathname),
             "ip" := OptStr(e.ip).GetOr(JNull), "user_agent" := OptStr(e.userAgent).GetOr(JNull),
             "headers" := JStr(e.headers), "payload" := JStr(e.payload), "content_type" := JStr(e.contentType),
             "processing_time_ms" := JNum(e.processingTimeMs), "created_at" := JNum(e.createdAt)])
  }

  /** The rows of a page in the order the database returned them. */
  function RowsJson(rows: seq<StoredEvent>): (j: Json)
    ensures j.JArr? && |j.items| == |rows|
    ensures forall i :: 0 <= i < |rows| ==> j.items[i] == RowJson(rows[i])
  {
    JArr(seq(|rows|, i requires 0 <= i < |rows| => RowJson(rows[i])))
  }

  // ------------------------------------------------------------ storeEvent

  /** What the caller hands `storeEvent` about the request. */
  datatype EventData = EventData(
    url: string,
    verb: string,
    pathname: string,
    headers: map<string, string>,
    payload: Json,
    contentType: string,
    processingTimeMs: int,
    ip: Option<string>,
    userAgent: Option<string>)

  /** The clock, the random id suffix and the ISO rendering of the clock. */
  datatype StoreClock = StoreClock(now: nat, randomSuffix: string, isoNow: string)

  /** Why `storeEvent` threw: the guard refused one of its steps, or the insert
      failed (threw, or reported no success). */
  datatype StoreFailure = Refused(error: Trace.TraceError) | InsertFailed(reason: string)

  datatype StoreResult = StoreResult(
    outcome: Result<Trace.Context, StoreFailure>,
    store: Trace.TraceStore,
    row: Option<StoredEvent>)

  /** `x || null` for an optional string column. */
  function OrNull(v: Option<string>): (r: Option<string>)
    ensures r.Some? <==> HasText(v)
    ensures r.Some? ==> r == v
  {
    if HasText(v) then v else None
  }

  function EventId(clock: StoreClock): string {
    "evt_" + NatToString(clock.now) + "_" + clock.randomSuffix
  }

  /** The row `storeEvent` inserts for a flow's handle. */
  function EventRow(ctx: Trace.Context, data: EventData, codec: Codec, clock: StoreClock): (row: StoredEvent)
    ensures StartsWith(row.id, "evt_")
    ensures row.traceId == ctx.traceId && row.pathname == data.pathname && row.createdAt == clock.now
    ensures row.ip.Some? <==> HasText(data.ip)
    ensures row.userAgent.Some? <==> HasText(data.userAgent)
  {
    StoredEvent(EventId(clock), ctx.traceId, clock.isoNow, data.verb, data.url, data.pathname,
                OrNull(data.ip), OrNull(data.userAgent),
                codec.stringify(StringMap(data.headers)), codec.stringify(data.payload),
                data.contentType, data.processingTimeMs, clock.now)
  }

  /** The catch block: record `store/error` with the reason, then rethrow (a
      refusal of that step replaces the original exception). */
  function FailStore(st: Trace.TraceStore, ctx: Trace.Context, reason: string, now: int, row: StoredEvent)
    : StoreResult
  {
    var meta := map["error_code" := JStr("STORAGE_FAILED"), "reason" := JStr(reason)];
    var o := Trace.Step(st, ctx, Trace.Store, Trace.Error, Some(meta), now);
    StoreResult(Err(if o.result.Err? then Refused(o.result.error) else InsertFailed(reason)), o.store, Some(row))
  }

  /** `storeEvent`: `store/enter` (outside the try, so a refusal propagates
      at once), the insert, then `store/exit` with the event id, or
      `store/error` and a rethrow when anything in the try fails. */
  function StoreEvent(st: Trace.TraceStore, ctx: Trace.Context, db: Database, data: EventData,
                      codec: Codec, clock: StoreClock): (r: StoreResult)
    ensures !Trace.Accepts(st, ctx, Trace.Store, Trace.Enter) ==>
      r.outcome.Err? && r.outcome.error.Refused? && r.row.None? && r.store.log == st.log
    ensures r.outcome.Ok? ==>
      && r.outcome.value == Trace.Context(ctx.traceId, ctx.envId, ctx.stepId + 2)
      && r.row.Some? && StartsWith(r.row.value.id, "evt_")
      && |r.store.log| == |st.log| + 2 && r.store.log[..|st.log|] == st.log
      && r.store.log[|st.log|].StepRecord? && r.store.log[|st.log| + 1].StepRecord?
      && r.store.log[|st.log|].node == Trace.Store && r.store.log[|st.log|].status == Trace.Enter
      && r.store.log[|st.log| + 1].node == Trace.Store && r.store.log[|st.log| + 1].status == Trace.Exit
      && r.store.log[|st.log| + 1].meta.Some? && "event_id" in r.store.log[|st.log| + 1].meta.value
      && r.store.log[|st.log| + 1].meta.value["event_id"] == JStr(r.row.value.id)
  {
    var o1 := Trace.Step(st, ctx, Trace.Store, Trace.Enter, None, clock.now);
    if o1.result.Err? then StoreResult(Err(Refused(o1.result.error)), o1.store, None)
    else
      Insert(o1.store, o1.result.value, db, EventRow(o1.result.value, data, codec, clock), clock.now)
  }

  /** The `try` of `storeEvent` once `store/enter` is logged: the insert,
      then `store/exit`, or `store/error` on any failure. */
  function Insert(st: Trace.TraceStore, ctx: Trace.Context, db: Database, row: StoredEvent, now: int): StoreResult {
    match db.insert(row)
    case InsertThrew(message) => FailStore(st, ctx, message, now, row)
    case RunResult(success, rowsWritten) =>
      if !success then FailStore(st, ctx, "D1 insert failed", now, row)
      else
        var meta := map["event_id" := JStr(row.id), "rows_written" := JNum(rowsWritten)];
        var o2 := Trace.Step(st, ctx, Trace.Store, Trace.Exit, Some(meta), now);
        if o2.result.Err? then FailStore(o2.store, ctx, "step refused", now, row)
        else StoreResult(Ok(o2.result.value), o2.store, Some(row))
  }

  /** Once `store/enter` is accepted the guard accepts the rest of the
      protocol: the call either returns a handle two steps on, or records
      `store/error`, which closes the flow, and rethrows the insert failure. */
  lemma StoreProtocol(st: Trace.TraceStore, ctx: Trace.Context, db: Database, data: EventData,
                      codec: Codec, clock: StoreClock)
    requires Trace.Accepts(st, ctx, Trace.Store, Trace.Enter)
    ensures var r := StoreEvent(st, ctx, db, data, codec, clock);
      && r.row == Some(EventRow(Trace.Context(ctx.traceId, ctx.envId, ctx.stepId + 1), data, codec, clock))
      && (r.outcome.Ok? <==> db.insert(r.row.value).RunResult? && db.insert(r.row.value).success)
      && (r.outcome.Err? ==>
            && r.outcome.error.InsertFailed?
            && r.store.log == st.log + [
                 Trace.StepRecord(ctx.traceId, ctx.envId, ctx.stepId + 1, clock.now, Trace.Store, Trace.Enter, None),
                 Trace.StepRecord(ctx.traceId, ctx.envId, ctx.stepId + 2, clock.now, Trace.Store, Trace.Error,
                                  Some(map["error_code" := JStr("STORAGE_FAILED"), "reason" := JStr(r.outcome.error.reason)]))]
            && ctx.traceId in r.store.states && r.store.states[ctx.traceId].hasCriticalError)
  {
    var o1 := Trace.Step(st, ctx, Trace.Store, Trace.Enter, None, clock.now);
    var ctx1 := o1.result.value;
    assert Trace.NodeStatusOf(o1.store.states[ctx.traceId], Trace.Store) == Trace.Entered;
    assert Trace.Accepts(o1.store, ctx1, Trace.Store, Trace.Exit);
    assert Trace.Accepts(o1.store, ctx1, Trace.Store, Trace.Error);
  }

  /** Storing an event, whatever the database does, keeps the trace store
      consistent. */
  lemma StoreEventPreservesValid(st: Trace.TraceStore, ctx: Trace.Context, db: Database, data: EventData,
                                 codec: Codec, clock: StoreClock)
    requires Trace.Valid(st)
    ensures Trace.Valid(StoreEvent(st, ctx, db, data, codec, clock).store)
  {
    var o1 := Trace.Step(st, ctx, Trace.Store, Trace.Enter, None, clock.now);
    Trace.StepPreservesValid(st, ctx, Trace.Store, Trace.Enter, None, clock.now);
    if o1.result.Ok? {
      InsertPreservesValid(o1.store, o1.result.value, db, EventRow(o1.result.value, data, codec, clock), clock.now);
    }
  }

  lemma InsertPreservesValid(st: Trace.TraceStore, ctx: Trace.Context, db: Database, row: StoredEvent, now: int)
    requires Trace.Valid(st)
    ensures Trace.Valid(Insert(st, ctx, db, row, now).store)
  {
    match db.insert(row)
    case InsertThrew(message) =>
      FailStoreKeepsValid(st, ctx, message, now, row);
    case RunResult(success, rowsWritten) =>
      if !success {
        FailStoreKeepsValid(st, ctx, "D1 insert failed", now, row);
      } else {
        var meta := map["event_id" := JStr(row.id), "rows_written" := JNum(rowsWritten)];
        var o2 := Trace.Step(st, ctx, Trace.Store, Trace.Exit, Some(meta), now);
        Trace.StepPreservesValid(st, ctx, Trace.Store, Trace.Exit, Some(meta), now);
        if o2.result.Err? {
          FailStoreKeepsValid(o2.store, ctx, "step refused", now, row);
        }
      }
  }

  lemma FailStoreKeepsValid(st: Trace.TraceStore, ctx: Trace.Context, reason: string, now: int, row: StoredEvent)
    requires Trace.Valid(st)
    ensures Trace.Valid(FailStore(st, ctx, reason, now, row).store)
  {
    var meta := map["error_code" := JStr("STORAGE_FAILED"), "reason" := JStr(reason)];
    Trace.StepPreservesValid(st, ctx, Trace.Store, Trace.Error, Some(meta), now);
  }
}
