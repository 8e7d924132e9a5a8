/** The API handler of the worker (src/shared/handler.ts): the `/h/` to
    `/post/` rewrite, the `/events` query endpoint, trace replay under
    `/trace/`, reading a slug's events, and ingestion of a request body with
    the `parse` node around the parse and storage behind it. */
module Handler {
  import opened Wrappers
  import opened Json
  import opened Strings
  import opened Http
  import Trace
  import Storage

  /** The handler's bindings: the database, JSON and form parsing. */
  datatype HandlerEnv = HandlerEnv(db: Storage.Database, codec: Codec, form: string -> map<string, string>)

  /** What the runtime supplies to one call: the clock and its ISO rendering
      at entry, the elapsed time before storage, random id suffixes and the
      message of a JSON syntax error. */
  datatype Clock = Clock(
    now: nat,
    isoNow: string,
    elapsed: int,
    traceSuffix: string,
    envSuffix: string,
    eventSuffix: string,
    parseError: string)

  datatype Handled = Handled(outcome: Outcome, trace: Trace.TraceStore)

  const JSON_HEADERS: map<string, string> := map["Content-Type" := "application/json"]

  function JsonResponse(status: int, fields: map<string, Json>): Response {
    Response(status, JSON_HEADERS, JsonBody(JObj(fields)))
  }

  // ---------------------------------------------------------------- routing

  /** `/h/{slug}` is served as `/post/{slug}`; every other path is kept. */
  function Route(pathname: string): string {
    if StartsWith(pathname, "/h/") then ReplaceFirst(pathname, "/h/", "/post/") else pathname
  }

  /** The rewrite swaps exactly the leading `/h/` and nothing else. */
  lemma RouteRewritesSlugPaths(pathname: string)
    ensures StartsWith(pathname, "/h/") ==> Route(pathname) == "/post/" + pathname[3..]
    ensures !StartsWith(pathname, "/h/") ==> Route(pathname) == pathname
    ensures StartsWith(pathname, "/h/") ==> Field(Route(pathname), '/', 2) == Field(pathname, '/', 2)
  {
    if StartsWith(pathname, "/h/") {
      ReplaceLeadingPattern(pathname, "/h/", "/post/");
      var rest := pathname[3..];
      assert pathname == "" + "/" + ("h" + "/" + rest);
      assert "/post/" + rest == "" + "/" + ("post" + "/" + rest);
      SplitAtFirstSeparator("", "h" + "/" + rest, '/');
      SplitAtFirstSeparator("", "post" + "/" + rest, '/');
      SplitAtFirstSeparator("h", rest, '/');
      SplitAtFirstSeparator("post", rest, '/');
    }
  }

  // ---------------------------------------------------------------- /events

  /** `parseInt(searchParams.get(name) || fallback)` */
  function NumberParam(req: Request, name: string, fallback: string): ParsedInt {
    ParseInt(QueryParam(req, name).GetOr(fallback))
  }

  /** The options `/events` hands to `queryEvents`. */
  function EventsOptions(req: Request): Storage.QueryOptions {
    Storage.QueryOptions(QueryParam(req, "pathname"), QueryParam(req, "trace_id"),
                         Some(NumberParam(req, "limit", "50")), Some(NumberParam(req, "offset", "0")))
  }

  /** A parsed number as `JSON.stringify` writes it (`NaN` becomes `null`). */
  function NumberJson(n: ParsedInt): Json {
    match n
    case Int(v) => JNum(v)
    case NaN => JNull
  }

  function EventsEndpoint(req: Request, env: HandlerEnv): Response {
    EventsReply(EventsOptions(req), env)
  }

  /** The `/events` reply for the options read from the query string. */
  function EventsReply(opts: Storage.QueryOptions, env: HandlerEnv): Response
    requires opts.limit.Some? && opts.offset.Some?
  {
    match Storage.QueryEvents(env.db, opts)
    case Err(reason) =>
      JsonResponse(500, map["ok" := JBool(false), "error" := JStr("Failed to query events"), "reason" := JStr(reason)])
    case Ok(rows) =>
      JsonResponse(200, map["ok" := JBool(true), "count" := JNum(|rows|),
                            "limit" := NumberJson(opts.limit.value), "offset" := NumberJson(opts.offset.value),
                            "filters" := JObj(Put(Put(map[], "pathname", OptStr(opts.pathname)),
                                                  "trace_id", OptStr(opts.traceId))),
                            "events" := Storage.RowsJson(rows)])
  }

  /** `/events` answers 500 exactly when the query throws, and otherwise 200
      with every returned row and their count. */
  lemma EventsEndpointAnswers(opts: Storage.QueryOptions, env: HandlerEnv)
    requires opts.limit.Some? && opts.offset.Some?
    ensures var q := Storage.BuildQuery(opts);
      var resp := EventsReply(opts, env);
      && (resp.status == 500 <==> env.db.query(q).QueryThrew?)
      && (resp.status == 200 <==> env.db.query(q).Rows?)
      && resp.body.JsonBody?
      && (env.db.query(q).Rows? ==>
            var rows := env.db.query(q).results.GetOr([]);
            && Get(resp.body.value, "count") == Some(JNum(|rows|))
            && Get(resp.body.value, "events") == Some(Storage.RowsJson(rows)))
  {
  }

  /** Without `limit` and `offset` parameters `/events` asks for the newest
      50 events from offset 0, filtered by the non-empty `pathname` and
      `trace_id` parameters. */
  lemma EventsDefaultPage(req: Request)
    requires QueryParam(req, "limit").None? && QueryParam(req, "offset").None?
    ensures var q := Storage.BuildQuery(EventsOptions(req));
      && q.params[|q.params| - 2] == Storage.PNum(Int(50))
      && q.params[|q.params| - 1] == Storage.PNum(Int(0))
      && (QueryParam(req, "pathname").Some? ==> q.params[0] == Storage.PText(QueryParam(req, "pathname").value))
  {
    DefaultOptions(req);
    Storage.QueryShapes(EventsOptions(req));
  }

  /** Without `limit` and `offset` the options carry the defaults 50 and 0. */
  lemma DefaultOptions(req: Request)
    requires QueryParam(req, "limit").None? && QueryParam(req, "offset").None?
    ensures EventsOptions(req) == Storage.QueryOptions(QueryParam(req, "pathname"), QueryParam(req, "trace_id"),
                                                      Some(Int(50)), Some(Int(0)))
  {
    DefaultsParse();
  }

  lemma DefaultsParse()
    ensures ParseInt("50") == Int(50) && ParseInt("0") == Int(0)
  {
    assert "50" == NatToString(50);
    ParseIntOfNatToString(50);
    assert "0" == NatToString(0);
    ParseIntOfNatToString(0);
  }

  /** A `limit` that is not a number reaches the database as `NaN` and the
      reply echoes it as `null`. */
  lemma NonNumericLimitIsNull(req: Request, env: HandlerEnv)
    requires QueryParam(req, "limit").Some? && |QueryParam(req, "limit").value| > 0
    requires !IsDigit(QueryParam(req, "limit").value[0]) && !IsJsSpace(QueryParam(req, "limit").value[0])
    requires QueryParam(req, "limit").value[0] != '-' && QueryParam(req, "limit").value[0] != '+'
    requires env.db.query(Storage.BuildQuery(EventsOptions(req))).Rows?
    ensures EventsOptions(req).limit == Some(NaN)
    ensures Get(EventsEndpoint(req, env).body.value, "limit") == Some(JNull)
  {
    var v := QueryParam(req, "limit").value;
    ParseIntOfNonNumeric(v);
    var opts := EventsOptions(req);
    assert opts.limit == Some(NaN);
    EventsReplyEchoesLimit(opts, env);
  }

  /** A successful `/events` reply echoes the limit it asked for. */
  lemma EventsReplyEchoesLimit(opts: Storage.QueryOptions, env: HandlerEnv)
    requires opts.limit.Some? && opts.offset.Some?
    requires env.db.query(Storage.BuildQuery(opts)).Rows?
    ensures EventsReply(opts, env).body.JsonBody?
    ensures Get(EventsReply(opts, env).body.value, "limit") == Some(NumberJson(opts.limit.value))
  {
  }

  // ----------------------------------------------------------------- /trace

  function NodeName(n: Trace.Node): string {
    match n
    case Receive => "receive"
    case Parse => "parse"
    case Store => "store"
    case Fetch => "fetch"
  }

  function StatusName(s: Trace.Status): string {
    match s
    case Enter => "enter"
    case Exit => "exit"
    case Error => "error"
  }

  /** A trace record as it appears in a replay response. */
  function RecordJson(r: Trace.TraceRecord): Json {
    match r
    case EnvRecord(envId, traceId, ts, source, payload) =>
      JObj(map["type" := JStr("env"), "env_id" := JStr(envId), "trace_id" := JStr(traceId), "ts" := JNum(ts),
               "source" := JStr(if source == Trace.Webhook then "webhook" else "frontend"), "payload" := payload])
    case StepRecord(traceId, envId, stepId, at, node, status, meta) =>
      JObj(Put(map["type" := JStr("step"), "trace_id" := JStr(traceId), "env_id" := JStr(envId),
                   "step_id" := JNum(stepId), "at" := JNum(at), "node" := JStr(NodeName(node)),
                   "status" := JStr(StatusName(status))],
               "meta", if meta.Some? then Some(JObj(meta.value)) else None))
  }

  function TraceEndpoint(st: Trace.TraceStore, pathname: string): Response {
    var traceId := Field(pathname, '/', 2);
    if !HasText(traceId) then JsonResponse(400, map["error" := JStr("trace_id required")])
    else
      match Trace.Replay(st, traceId.value)
      case Err(_) => JsonResponse(500, map["error" := JStr("Failed to replay trace")])
      case Ok(records) =>
        if |records| == 0 then
          JsonResponse(404, map["error" := JStr("Trace not found"), "trace_id" := JStr(traceId.value),
                                "note" := JStr("Traces are stored in-memory and cleared on worker restart")])
        else
          JsonResponse(200, map["trace_id" := JStr(traceId.value),
                                "records" := JArr(seq(|records|, i requires 0 <= i < |records| => RecordJson(records[i]))),
                                "count" := JNum(|records|)])
  }

  /** `/trace/{id}` answers 400 without an id, 404 for an id the log does not
      know, and otherwise 200 with the flow's records: the environment record
      first and then every step in order. */
  lemma TraceEndpointAnswers(st: Trace.TraceStore, pathname: string)
    requires Trace.Valid(st)
    ensures var id := Field(pathname, '/', 2);
      var resp := TraceEndpoint(st, pathname);
      && (resp.status == 400 <==> !HasText(id))
      && (HasText(id) ==>
            && (resp.status == 404 <==> id.value !in st.states)
            && (id.value in st.states ==>
                  && resp.status == 200
                  && Get(resp.body.value, "count") == Some(JNum(st.states[id.value].lastStepId + 1))))
  {
    var id := Field(pathname, '/', 2);
    if HasText(id) {
      if id.value in st.states {
        Trace.ReplayOfOpenedFlow(st, id.value);
      } else {
        Trace.ReplayOfUnknownFlow(st, id.value);
      }
    }
  }

  // ------------------------------------------------------------- GET /post/

  function PostOptions(pathname: string): Storage.QueryOptions {
    Storage.QueryOptions(Some(pathname), None, Some(Int(50)), Some(Int(0)))
  }

  /** `GET /post/{slug}`: the newest 50 events of exactly that path; a query
      failure is not caught. */
  function PostEndpoint(pathname: string, env: HandlerEnv): (o: Outcome)
    ensures o.Uncaught? <==> env.db.query(Storage.BuildQuery(PostOptions(pathname))).QueryThrew?
  {
    match Storage.QueryEvents(env.db, PostOptions(pathname))
    case Err(_) => Uncaught
    case Ok(rows) =>
      Reply(Response(200, map["Content-Type" := "application/json", "Access-Control-Allow-Origin" := "*"],
                     JsonBody(Storage.RowsJson(rows))))
  }

  /** The read of a slug filters by its exact path and asks for one page. */
  lemma PostEndpointQuery(pathname: string)
    requires StartsWith(pathname, "/post/")
    ensures Storage.BuildQuery(PostOptions(pathname)).params
            == [Storage.PText(pathname), Storage.PNum(Int(50)), Storage.PNum(Int(0))]
  {
    Storage.QueryShapes(PostOptions(pathname));
  }

  // ---------------------------------------------------------- parse errors

  /** The match of `/position (\d+)/` in an error message. */
  predicate PositionAt(msg: string, j: nat) {
    j + 10 <= |msg| && msg[j..j + 9] == "position " && IsDigit(msg[j + 9])
  }

  /** `parseInt` of the digits of the leftmost match, if any. */
  function PositionIn(msg: string): (r: Option<nat>)
    ensures r.None? <==> forall j :: 0 <= j < |msg| ==> !PositionAt(msg, j)
    decreases |msg|
  {
    if PositionAt(msg, 0) then Some(DigitsValue(LeadingDigits(msg[9..])))
    else if |msg| == 0 then None
    else
      var r := PositionIn(msg[1..]);
      assert forall j :: 0 <= j < |msg| - 1 ==> (PositionAt(msg[1..], j) <==> PositionAt(msg, j + 1));
      if r.None? then
        assert forall j :: 1 <= j < |msg| ==> !PositionAt(msg, j) by {
          forall j | 1 <= j < |msg| ensures !PositionAt(msg, j) {
            assert !PositionAt(msg[1..], j - 1);
          }
        }
        None
      else r
  }

  /** The position a JSON syntax error reports is read back from its message. */
  lemma {:induction false} PositionOfRenderedNumber(prefix: string, n: nat, suffix: string)
    requires forall j :: 0 <= j < |prefix| ==> !PositionAt(prefix + "position " + NatToString(n) + suffix, j)
    requires |suffix| > 0 ==> !IsDigit(suffix[0])
    ensures PositionIn(prefix + "position " + NatToString(n) + suffix) == Some(n)
    decreases |prefix|
  {
    var msg := prefix + "position " + NatToString(n) + suffix;
    if |prefix| == 0 {
      assert msg == "position " + NatToString(n) + suffix;
      assert msg[9..] == NatToString(n) + suffix;
      assert PositionAt(msg, 0);
      DigitsThenNonDigit(NatToString(n), suffix);
      NatToStringDigits(n);
    } else {
      assert !PositionAt(msg, 0);
      assert msg[1..] == prefix[1..] + "position " + NatToString(n) + suffix;
      forall j | 0 <= j < |prefix[1..]|
        ensures !PositionAt(prefix[1..] + "position " + NatToString(n) + suffix, j)
      {
        assert !PositionAt(msg, j + 1);
      }
      PositionOfRenderedNumber(prefix[1..], n, suffix);
    }
  }

  lemma {:induction false} DigitsThenNonDigit(d: string, rest: string)
    requires forall i :: 0 <= i < |d| ==> IsDigit(d[i])
    requires |rest| > 0 ==> !IsDigit(rest[0])
    ensures LeadingDigits(d + rest) == d
    decreases |d|
  {
    if |d| > 0 {
      assert (d + rest)[1..] == d[1..] + rest;
      DigitsThenNonDigit(d[1..], rest);
      assert [d[0]] + d[1..] == d;
    } else {
      assert d + rest == rest;
    }
  }

  /** The metadata of `parse/error` as the source builds it from the error
      message, the content type and the raw body text, if one was read. */
  function ParseErrorMeta(reason: string, contentType: string, rawBody: Option<string>): Trace.Meta {
    var position := PositionIn(reason);
    var preview := if HasText(rawBody) then Some(JStr(Truncate(rawBody.value, 200))) else None;
    Put(Put(Put(map["error_code" := JStr("PARSE_FAILED"), "reason" := JStr(reason), "content_type" := JStr(contentType)],
                "body_length", if rawBody.Some? then Some(JNum(|rawBody.value|)) else None),
            "error_position", if position.Some? then Some(JNum(position.value)) else None),
        "body_preview", preview)
  }

  /** As written: only `request.json()` can throw, and that branch never
      assigns the raw body, so the `catch` sees it undefined and records
      neither the body's length nor its preview. */
  function JsonParseFailureMeta(reason: string, contentType: string): (m: Trace.Meta)
    ensures "body_length" !in m && "body_preview" !in m
    ensures "error_code" in m && m["error_code"] == JStr("PARSE_FAILED")
    ensures "reason" in m && m["reason"] == JStr(reason)
    ensures "content_type" in m && m["content_type"] == JStr(contentType)
    ensures PositionIn(reason).Some? <==> "error_position" in m
  {
    ParseErrorMeta(reason, contentType, None)
  }

  /** Corrected: the raw text is read before it is parsed, so the failure
      records the body's length and its first 200 characters. */
  function ParseFailureMeta(req: Request, reason: string): (m: Trace.Meta)
    ensures "body_length" in m && m["body_length"] == JNum(|req.body|)
    ensures req.body != "" <==> "body_preview" in m
    ensures req.body != "" ==>
      && m["body_preview"].JStr?
      && |m["body_preview"].s| <= 203
      && m["body_preview"].s == Truncate(req.body, 200)
      && (|req.body| <= 200 ==> m["body_preview"].s == req.body)
      && (|req.body| > 200 ==> req.body[..200] <= m["body_preview"].s)
    ensures "error_code" in m && m["error_code"] == JStr("PARSE_FAILED")
    ensures "reason" in m && m["reason"] == JStr(reason)
    ensures "content_type" in m && m["content_type"] == JStr(ContentType(req))
    ensures PositionIn(reason).Some? <==> "error_position" in m
  {
    ParseErrorMeta(reason, ContentType(req), Some(req.body))
  }

  // ---------------------------------------------------------------- ingest

  /** Parsing, `parse/exit`, storage (a failure is swallowed) and the 200. */
  function Accept(st: Trace.TraceStore, ctx: Trace.Context, req: Request, payload: Json,
                  env: HandlerEnv, clock: Clock): Handled
  {
    var exit := Trace.Step(st, ctx, Trace.Parse, Trace.Exit, None, clock.now);
    if exit.result.Err? then Handled(Uncaught, exit.store)
    else
      var data := Storage.EventData(req.url, req.verb, Route(req.pathname), req.headers, payload, ContentType(req),
                                    clock.elapsed, ClientIp(req), UserAgent(req));
      var stored := Storage.StoreEvent(exit.store, exit.result.value, env.db, data, env.codec,
                                       Storage.StoreClock(clock.now, clock.eventSuffix, clock.isoNow));
      var traceId := if stored.outcome.Ok? then stored.outcome.value.traceId else ctx.traceId;
      Handled(Reply(AcceptReply(req, payload, traceId, clock)), stored.store)
  }

  /** The 200 of an ingested request. */
  function AcceptReply(req: Request, payload: Json, traceId: string, clock: Clock): Response {
    JsonResponse(200, map["ok" := JBool(true), "timestamp" := JStr(clock.isoNow),
                          "method" := JStr(req.verb), "status" := JNum(200),
                          "processingTime" := JStr(IntToString(clock.elapsed) + "ms"),
                          "headers" := StringMap(req.headers), "payload" := payload,
                          "trace_id" := JStr(traceId)])
  }

  lemma AcceptReplyFields(req: Request, payload: Json, traceId: string, clock: Clock)
    ensures var resp := AcceptReply(req, payload, traceId, clock);
      && resp.status == 200 && resp.body.JsonBody?
      && Get(resp.body.value, "trace_id") == Some(JStr(traceId))
      && Get(resp.body.value, "payload") == Some(payload)
  {
  }

  /** `parse/error` with the given failure metadata and the 400 pointing at
      the flow's replay. */
  function RejectWith(st: Trace.TraceStore, ctx: Trace.Context, clock: Clock, meta: Trace.Meta): Handled {
    var failed := Trace.Step(st, ctx, Trace.Parse, Trace.Error, Some(meta), clock.now);
    if failed.result.Err? then Handled(Uncaught, failed.store)
    else
      var traceId := failed.result.value.traceId;
      Handled(Reply(JsonResponse(400, map["ok" := JBool(false), "error" := JStr("Failed to parse request body"),
                                          "details" := JStr(clock.parseError), "trace_id" := JStr(traceId),
                                          "debug_url" := JStr("/trace/" + traceId)])),
              failed.store)
  }

  /** The failure path as the program runs it: the metadata of a failed
      `request.json()`. */
  function Reject(st: Trace.TraceStore, ctx: Trace.Context, req: Request, clock: Clock): Handled {
    RejectWith(st, ctx, clock, JsonParseFailureMeta(clock.parseError, ContentType(req)))
  }

  /** The failure path corrected: the raw text's length and preview are
      recorded. */
  function RejectCorrected(st: Trace.TraceStore, ctx: Trace.Context, req: Request, clock: Clock): Handled {
    RejectWith(st, ctx, clock, ParseFailureMeta(req, clock.parseError))
  }

  /** A new flow; 404 for a path outside `/post`; otherwise `parse/enter`
      and the body. */
  function Ingest(st: Trace.TraceStore, req: Request, env: HandlerEnv, clock: Clock): Handled {
    match Trace.CreateEnv(st, EnvPayload(req), clock.now, clock.traceSuffix, clock.envSuffix)
    case Err(_) => Handled(Uncaught, st)
    case Ok((ctx, st1)) =>
      if !StartsWith(Route(req.pathname), "/post") then
        Handled(Reply(Response(404, map["Content-Type" := "text/plain"], Text("Not Found"))), st1)
      else
        var enter := Trace.Step(st1, ctx, Trace.Parse, Trace.Enter, None, clock.now);
        if enter.result.Err? then Handled(Uncaught, enter.store)
        else Parsed(enter.store, enter.result.value, req, env, clock)
  }

  /** The body read inside the `try` once `parse/enter` is logged. */
  function Parsed(st: Trace.TraceStore, ctx: Trace.Context, req: Request, env: HandlerEnv, clock: Clock): Handled {
    match ReadBody(req, env.codec, env.form)
    case None => Reject(st, ctx, req, clock)
    case Some(payload) => Accept(st, ctx, req, payload, env, clock)
  }

  /** `handleRequest`: the endpoints in the source's order, then ingestion. */
  function HandleRequest(st: Trace.TraceStore, req: Request, env: HandlerEnv, clock: Clock): (h: Handled)
    ensures req.verb == "GET" && Route(req.pathname) == "/events" ==>
      h == Handled(Reply(EventsEndpoint(req, env)), st)
    ensures req.verb == "GET" && Route(req.pathname) != "/events" && StartsWith(Route(req.pathname), "/trace/") ==>
      h == Handled(Reply(TraceEndpoint(st, Route(req.pathname))), st)
    ensures req.verb == "GET" && Route(req.pathname) != "/events" && !StartsWith(Route(req.pathname), "/trace/")
            && StartsWith(Route(req.pathname), "/post/") ==>
      h == Handled(PostEndpoint(Route(req.pathname), env), st)
    ensures !(req.verb == "GET" && (Route(req.pathname) == "/events" || StartsWith(Route(req.pathname), "/trace/")
                                    || StartsWith(Route(req.pathname), "/post/"))) ==>
      h == Ingest(st, req, env, clock)
  {
    var pathname := Route(req.pathname);
    if req.verb == "GET" && pathname == "/events" then Handled(Reply(EventsEndpoint(req, env)), st)
    else if req.verb == "GET" && StartsWith(pathname, "/trace/") then Handled(Reply(TraceEndpoint(st, pathname)), st)
    else if req.verb == "GET" && StartsWith(pathname, "/post/") then Handled(PostEndpoint(pathname, env), st)
    else Ingest(st, req, env, clock)
  }

  /** Reads never touch the trace store; every other request opens exactly
      one flow under the oracle's trace id, which its log starts with. */
  lemma ReadsLeaveTraceAlone(st: Trace.TraceStore, req: Request, env: HandlerEnv, clock: Clock)
    ensures var pathname := Route(req.pathname);
      var h := HandleRequest(st, req, env, clock);
      var isRead := req.verb == "GET" && (pathname == "/events" || StartsWith(pathname, "/trace/") || StartsWith(pathname, "/post/"));
      && (isRead ==> h.trace == st)
      && (!isRead ==>
            && |h.trace.log| > |st.log|
            && h.trace.log[|st.log|] == Trace.EnvRecord(Trace.EnvIdOf(clock.envSuffix), Trace.TraceIdOf(clock.traceSuffix),
                                                        clock.now, Trace.Webhook, EnvPayload(req))
            && Trace.TraceIdOf(clock.traceSuffix) in h.trace.states)
  {
    var pathname := Route(req.pathname);
    var isRead := req.verb == "GET" && (pathname == "/events" || StartsWith(pathname, "/trace/") || StartsWith(pathname, "/post/"));
    if !isRead {
      IngestOpensFlow(st, req, env, clock);
    }
  }

  /** Ingestion logs the new flow's environment record right after the
      records already there. */
  lemma IngestOpensFlow(st: Trace.TraceStore, req: Request, env: HandlerEnv, clock: Clock)
    ensures var h := Ingest(st, req, env, clock);
      && |h.trace.log| > |st.log|
      && h.trace.log[|st.log|] == Trace.EnvRecord(Trace.EnvIdOf(clock.envSuffix), Trace.TraceIdOf(clock.traceSuffix),
                                                  clock.now, Trace.Webhook, EnvPayload(req))
      && Trace.TraceIdOf(clock.traceSuffix) in h.trace.states
  {
    var st1, ctx := IngestIsParsed(st, req, env, clock);
    var h := Ingest(st, req, env, clock);
    if StartsWith(Route(req.pathname), "/post") {
      ParsedReplies(st1, ctx, req, env, clock);
      assert h.trace.log[|st.log|] == h.trace.log[..|st1.log|][..|st.log| + 1][|st.log|];
    }
  }

  /** The store and handle right after `parse/enter` of a new flow. */
  lemma OpenParse(st: Trace.TraceStore, req: Request, clock: Clock) returns (st1: Trace.TraceStore, ctx: Trace.Context)
    ensures var traceId := Trace.TraceIdOf(clock.traceSuffix);
      var envId := Trace.EnvIdOf(clock.envSuffix);
      var env := Trace.EnvRecord(envId, traceId, clock.now, Trace.Webhook, EnvPayload(req));
      var c := Trace.CreateEnv(st, EnvPayload(req), clock.now, clock.traceSuffix, clock.envSuffix);
      && c.Ok? && c.value.1.log == st.log + [env] && c.value.0 == Trace.Context(traceId, envId, 0)
      && traceId in c.value.1.states
      && var enter := Trace.Step(c.value.1, c.value.0, Trace.Parse, Trace.Enter, None, clock.now);
         && enter.result == Ok(ctx) && enter.store == st1
         && ctx == Trace.Context(traceId, envId, 1)
         && st1.log == st.log + [env, Trace.StepRecord(traceId, envId, 1, clock.now, Trace.Parse, Trace.Enter, None)]
         && Trace.Accepts(st1, ctx, Trace.Parse, Trace.Exit)
         && Trace.Accepts(st1, ctx, Trace.Parse, Trace.Error)
         && Trace.NodeStatusOf(st1.states[traceId], Trace.Store) == Trace.Idle
  {
    var (ctx0, st0) := Trace.CreateEnv(st, EnvPayload(req), clock.now, clock.traceSuffix, clock.envSuffix).value;
    assert Trace.Accepts(st0, ctx0, Trace.Parse, Trace.Enter);
    var enter := Trace.Step(st0, ctx0, Trace.Parse, Trace.Enter, None, clock.now);
    st1, ctx := enter.store, enter.result.value;
  }

  /** A parse failure closes the flow with `parse/error` carrying the given
      metadata, and the 400 names the flow and where to replay it. */
  lemma RejectWithReplies(st: Trace.TraceStore, ctx: Trace.Context, clock: Clock, meta: Trace.Meta)
    requires Trace.Accepts(st, ctx, Trace.Parse, Trace.Error)
    ensures var h := RejectWith(st, ctx, clock, meta);
      && h.outcome.Reply? && h.outcome.response.status == 400
      && Get(h.outcome.response.body.value, "trace_id") == Some(JStr(ctx.traceId))
      && Get(h.outcome.response.body.value, "debug_url") == Some(JStr("/trace/" + ctx.traceId))
      && h.trace.log == st.log + [Trace.StepRecord(ctx.traceId, ctx.envId, ctx.stepId + 1, clock.now,
                                                   Trace.Parse, Trace.Error, Some(meta))]
      && ctx.traceId in h.trace.states && h.trace.states[ctx.traceId].hasCriticalError
  {
  }

  /** As written, the 400 of a failed JSON body closes the flow with a
      `parse/error` record that has neither the body's length nor its
      preview. */
  lemma RejectReplies(st: Trace.TraceStore, ctx: Trace.Context, req: Request, clock: Clock)
    requires Trace.Accepts(st, ctx, Trace.Parse, Trace.Error)
    ensures var h := Reject(st, ctx, req, clock);
      var meta := JsonParseFailureMeta(clock.parseError, ContentType(req));
      && h.outcome.Reply? && h.outcome.response.status == 400
      && Get(h.outcome.response.body.value, "trace_id") == Some(JStr(ctx.traceId))
      && Get(h.outcome.response.body.value, "debug_url") == Some(JStr("/trace/" + ctx.traceId))
      && h.trace.log == st.log + [Trace.StepRecord(ctx.traceId, ctx.envId, ctx.stepId + 1, clock.now,
                                                   Trace.Parse, Trace.Error, Some(meta))]
      && "body_length" !in meta && "body_preview" !in meta
      && ctx.traceId in h.trace.states && h.trace.states[ctx.traceId].hasCriticalError
  {
    RejectWithReplies(st, ctx, clock, JsonParseFailureMeta(clock.parseError, ContentType(req)));
  }

  /** Corrected, the same 400 closes the flow with a record that carries the
      body's length and, for a non-empty body, its preview. */
  lemma RejectCorrectedReplies(st: Trace.TraceStore, ctx: Trace.Context, req: Request, clock: Clock)
    requires Trace.Accepts(st, ctx, Trace.Parse, Trace.Error)
    ensures var h := RejectCorrected(st, ctx, req, clock);
      var meta := ParseFailureMeta(req, clock.parseError);
      && h.outcome.Reply? && h.outcome.response.status == 400
      && Get(h.outcome.response.body.value, "trace_id") == Some(JStr(ctx.traceId))
      && h.trace.log == st.log + [Trace.StepRecord(ctx.traceId, ctx.envId, ctx.stepId + 1, clock.now,
                                                   Trace.Parse, Trace.Error, Some(meta))]
      && "body_length" in meta && meta["body_length"] == JNum(|req.body|)
      && (req.body != "" <==> "body_preview" in meta)
  {
    RejectWithReplies(st, ctx, clock, ParseFailureMeta(req, clock.parseError));
  }

  /** After `parse/exit` storage is entered with the guard's consent, and
      whatever the database does the reply is a 200 with the flow's id. */
  lemma AcceptReplies(st: Trace.TraceStore, ctx: Trace.Context, req: Request, payload: Json,
                      env: HandlerEnv, clock: Clock)
    requires Trace.Accepts(st, ctx, Trace.Parse, Trace.Exit)
    requires Trace.NodeStatusOf(st.states[ctx.traceId], Trace.Store) == Trace.Idle
    ensures var h := Accept(st, ctx, req, payload, env, clock);
      && h.outcome.Reply? && h.outcome.response.status == 200
      && h.outcome.response.body.JsonBody?
      && Get(h.outcome.response.body.value, "trace_id") == Some(JStr(ctx.traceId))
      && Get(h.outcome.response.body.value, "payload") == Some(payload)
      && |h.trace.log| > |st.log|
      && h.trace.log[..|st.log|] == st.log
      && h.trace.log[|st.log|] == Trace.StepRecord(ctx.traceId, ctx.envId, ctx.stepId + 1, clock.now,
                                                   Trace.Parse, Trace.Exit, None)
      && ctx.traceId in h.trace.states
  {
    var exit := Trace.Step(st, ctx, Trace.Parse, Trace.Exit, None, clock.now);
    var ctx2 := exit.result.value;
    assert Trace.Accepts(exit.store, ctx2, Trace.Store, Trace.Enter);
    var data := Storage.EventData(req.url, req.verb, Route(req.pathname), req.headers, payload, ContentType(req),
                                  clock.elapsed, ClientIp(req), UserAgent(req));
    var sclock := Storage.StoreClock(clock.now, clock.eventSuffix, clock.isoNow);
    Storage.StoreProtocol(exit.store, ctx2, env.db, data, env.codec, sclock);
    var stored := Storage.StoreEvent(exit.store, ctx2, env.db, data, env.codec, sclock);
    var traceId := if stored.outcome.Ok? then stored.outcome.value.traceId else ctx.traceId;
    assert traceId == ctx.traceId;
    AcceptReplyFields(req, payload, traceId, clock);
    assert Accept(st, ctx, req, payload, env, clock) == Handled(Reply(AcceptReply(req, payload, traceId, clock)), stored.store);
    if stored.outcome.Err? {
      assert stored.store.log[..|exit.store.log|] == exit.store.log;
    }
    Trace.PrefixOfExtension(stored.store.log, st.log, exit.store.log);
    assert stored.store.log[|st.log|] == stored.store.log[..|st.log| + 1][|st.log|];
  }


  /** Ingestion never trips the guard: a path outside `/post` is a 404, a body
      that does not parse a 400, anything else a 200, all with a reply. */
  lemma IngestReplies(st: Trace.TraceStore, req: Request, env: HandlerEnv, clock: Clock)
    ensures var h := Ingest(st, req, env, clock);
      var traceId := Trace.TraceIdOf(clock.traceSuffix);
      && h.outcome.Reply?
      && (h.outcome.response.status == 404 <==> !StartsWith(Route(req.pathname), "/post"))
      && (h.outcome.response.status == 400 <==>
            StartsWith(Route(req.pathname), "/post") && ReadBody(req, env.codec, env.form).None?)
      && (h.outcome.response.status == 200 <==>
            StartsWith(Route(req.pathname), "/post") && ReadBody(req, env.codec, env.form).Some?)
      && |h.trace.log| > |st.log| && traceId in h.trace.states
      && (StartsWith(Route(req.pathname), "/post") ==>
            Get(h.outcome.response.body.value, "trace_id") == Some(JStr(traceId)))
  {
    var st1, ctx := IngestIsParsed(st, req, env, clock);
    if StartsWith(Route(req.pathname), "/post") {
      ParsedReplies(st1, ctx, req, env, clock);
    }
  }

  /** Ingestion is the body read on the store after `parse/enter` of a new
      flow, except outside `/post`, where the new flow is answered 404. */
  lemma IngestIsParsed(st: Trace.TraceStore, req: Request, env: HandlerEnv, clock: Clock)
    returns (st1: Trace.TraceStore, ctx: Trace.Context)
    ensures var traceId := Trace.TraceIdOf(clock.traceSuffix);
      var envRec := Trace.EnvRecord(Trace.EnvIdOf(clock.envSuffix), traceId, clock.now, Trace.Webhook, EnvPayload(req));
      var c := Trace.CreateEnv(st, EnvPayload(req), clock.now, clock.traceSuffix, clock.envSuffix);
      var h := Ingest(st, req, env, clock);
      && c.Ok? && c.value.1.log == st.log + [envRec] && traceId in c.value.1.states
      && st1 == Trace.Step(c.value.1, c.value.0, Trace.Parse, Trace.Enter, None, clock.now).store
      && ctx.traceId == traceId
      && |st1.log| == |st.log| + 2 && st1.log[..|st.log| + 1] == st.log + [envRec]
      && Trace.Accepts(st1, ctx, Trace.Parse, Trace.Exit)
      && Trace.Accepts(st1, ctx, Trace.Parse, Trace.Error)
      && Trace.NodeStatusOf(st1.states[traceId], Trace.Store) == Trace.Idle
      && (StartsWith(Route(req.pathname), "/post") ==> h == Parsed(st1, ctx, req, env, clock))
      && (!StartsWith(Route(req.pathname), "/post") ==>
            h == Handled(Reply(Response(404, map["Content-Type" := "text/plain"], Text("Not Found"))), c.value.1))
  {
    st1, ctx := OpenParse(st, req, clock);
    var envRec := Trace.EnvRecord(Trace.EnvIdOf(clock.envSuffix), Trace.TraceIdOf(clock.traceSuffix), clock.now, Trace.Webhook, EnvPayload(req));
    assert st1.log[..|st.log| + 1] == st.log + [envRec];
  }

  /** Once `parse/enter` is logged the guard accepts the rest: 400 exactly
      when the body does not parse, 200 otherwise, both naming the flow. */
  lemma ParsedReplies(st: Trace.TraceStore, ctx: Trace.Context, req: Request, env: HandlerEnv, clock: Clock)
    requires Trace.Accepts(st, ctx, Trace.Parse, Trace.Exit)
    requires Trace.Accepts(st, ctx, Trace.Parse, Trace.Error)
    requires Trace.NodeStatusOf(st.states[ctx.traceId], Trace.Store) == Trace.Idle
    ensures var h := Parsed(st, ctx, req, env, clock);
      && h.outcome.Reply? && h.outcome.response.body.JsonBody?
      && (h.outcome.response.status == 400 <==> ReadBody(req, env.codec, env.form).None?)
      && (h.outcome.response.status == 200 <==> ReadBody(req, env.codec, env.form).Some?)
      && Get(h.outcome.response.body.value, "trace_id") == Some(JStr(ctx.traceId))
      && |h.trace.log| > |st.log| && h.trace.log[..|st.log|] == st.log
      && ctx.traceId in h.trace.states
  {
    match ReadBody(req, env.codec, env.form)
    case None =>
      RejectReplies(st, ctx, req, clock);
      var log := Reject(st, ctx, req, clock).trace.log;
      assert log[..|st.log|] == st.log;
    case Some(payload) =>
      AcceptReplies(st, ctx, req, payload, env, clock);
  }

  /** Handling a request keeps the trace store consistent under a fresh
      trace id. */
  lemma HandleRequestPreservesValid(st: Trace.TraceStore, req: Request, env: HandlerEnv, clock: Clock)
    requires Trace.Valid(st)
    requires Trace.TraceIdOf(clock.traceSuffix) !in st.states
    ensures Trace.Valid(HandleRequest(st, req, env, clock).trace)
  {
    IngestPreservesValid(st, req, env, clock);
  }

  lemma IngestPreservesValid(st: Trace.TraceStore, req: Request, env: HandlerEnv, clock: Clock)
    requires Trace.Valid(st)
    requires Trace.TraceIdOf(clock.traceSuffix) !in st.states
    ensures Trace.Valid(Ingest(st, req, env, clock).trace)
  {
    var st1, ctx := IngestIsParsed(st, req, env, clock);
    Trace.CreateEnvPreservesValid(st, EnvPayload(req), clock.now, clock.traceSuffix, clock.envSuffix);
    var (ctx0, st0) := Trace.CreateEnv(st, EnvPayload(req), clock.now, clock.traceSuffix, clock.envSuffix).value;
    Trace.StepPreservesValid(st0, ctx0, Trace.Parse, Trace.Enter, None, clock.now);
    if StartsWith(Route(req.pathname), "/post") {
      ParsedPreservesValid(st1, ctx, req, env, clock);
    }
  }

  lemma ParsedPreservesValid(st: Trace.TraceStore, ctx: Trace.Context, req: Request, env: HandlerEnv, clock: Clock)
    requires Trace.Valid(st)
    ensures Trace.Valid(Parsed(st, ctx, req, env, clock).trace)
  {
    match ReadBody(req, env.codec, env.form)
    case None =>
      RejectWithPreservesValid(st, ctx, clock, JsonParseFailureMeta(clock.parseError, ContentType(req)));
    case Some(payload) =>
      AcceptPreservesValid(st, ctx, req, payload, env, clock);
  }

  lemma RejectWithPreservesValid(st: Trace.TraceStore, ctx: Trace.Context, clock: Clock, meta: Trace.Meta)
    requires Trace.Valid(st)
    ensures Trace.Valid(RejectWith(st, ctx, clock, meta).trace)
  {
    Trace.StepPreservesValid(st, ctx, Trace.Parse, Trace.Error, Some(meta), clock.now);
  }

  lemma AcceptPreservesValid(st: Trace.TraceStore, ctx: Trace.Context, req: Request, payload: Json,
                             env: HandlerEnv, clock: Clock)
    requires Trace.Valid(st)
    ensures Trace.Valid(Accept(st, ctx, req, payload, env, clock).trace)
  {
    Trace.StepPreservesValid(st, ctx, Trace.Parse, Trace.Exit, None, clock.now);
    var exit := Trace.Step(st, ctx, Trace.Parse, Trace.Exit, None, clock.now);
    if exit.result.Ok? {
      var data := Storage.EventData(req.url, req.verb, Route(req.pathname), req.headers, payload, ContentType(req),
                                    clock.elapsed, ClientIp(req), UserAgent(req));
      Storage.StoreEventPreservesValid(exit.store, exit.result.value, env.db, data, env.codec,
                                       Storage.StoreClock(clock.now, clock.eventSuffix, clock.isoNow));
    }
  }

  // ------------------------------------------------- the lost body preview

  /** A JSON body that does not parse, posted to a slug: the handler ends the
      flow exactly as `Reject` does from the store after `parse/enter`, and
      the `parse/error` record it appends last has neither the body's length
      nor its preview, while the corrected path, from the same store, appends
      the same record but with the length and, for a non-empty body, the
      preview. */
  lemma JsonParseFailureLosesPreview(st: Trace.TraceStore, req: Request, env: HandlerEnv, clock: Clock)
    returns (before: Trace.TraceStore, ctx: Trace.Context)
    requires !(req.verb == "GET" && (Route(req.pathname) == "/events" || StartsWith(Route(req.pathname), "/trace/")
                                     || StartsWith(Route(req.pathname), "/post/")))
    requires StartsWith(Route(req.pathname), "/post")
    requires ReadBody(req, env.codec, env.form).None?
    ensures var h := HandleRequest(st, req, env, clock);
      var fixed := RejectCorrected(before, ctx, req, clock);
      && h == Reject(before, ctx, req, clock)
      && h.outcome.Reply? && h.outcome.response.status == 400
      && |h.trace.log| == |before.log| + 1 && h.trace.log[..|before.log|] == before.log
      && |fixed.trace.log| == |before.log| + 1 && fixed.trace.log[..|before.log|] == before.log
      && var lost := h.trace.log[|before.log|];
         var kept := fixed.trace.log[|before.log|];
         && lost.StepRecord? && lost.node == Trace.Parse && lost.status == Trace.Error && lost.meta.Some?
         && "body_length" !in lost.meta.value && "body_preview" !in lost.meta.value
         && kept == lost.(meta := kept.meta) && kept.meta.Some?
         && "body_length" in kept.meta.value && kept.meta.value["body_length"] == JNum(|req.body|)
         && (req.body != "" ==> "body_preview" in kept.meta.value)
  {
    before, ctx := IngestIsParsed(st, req, env, clock);
    RejectReplies(before, ctx, req, clock);
    RejectCorrectedReplies(before, ctx, req, clock);
  }
}
