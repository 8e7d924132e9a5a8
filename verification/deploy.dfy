/** The worker's entry point (deploy.ts): the quota pre-check for the
    front end, routing of `/h/{slug}` traffic to the receiver of that slug,
    the worker's own `receive` flow around the API handler, the single-page
    app's assets, and the 405 for anything else. */
module Deploy {
  import opened Wrappers
  import opened Json
  import opened Strings
  import opened Http
  import Trace
  import RateLimiter
  import Receiver
  import Handler

  /** The assets binding answers a path with a response, or throws. */
  datatype AssetAnswer = Asset(response: Response) | AssetThrew

  datatype Bindings = Bindings(
    receiver: Receiver.Services,
    handler: Handler.HandlerEnv,
    assets: string -> AssetAnswer)

  /** The state behind the worker: the trace module's store (one per
      isolate), the global limiter, and one receiver per slug. */
  datatype WorkerState = WorkerState(
    trace: Trace.TraceStore,
    limiter: RateLimiter.Storage,
    receivers: map<string, Receiver.ReceiverState>)

  /** What the runtime supplies: the clock, the worker flow's id suffixes,
      the new socket's id, and what the receiver and the handler draw. */
  datatype Oracle = Oracle(
    now: nat,
    traceSuffix: string,
    envSuffix: string,
    socket: nat,
    receiver: Receiver.Oracle,
    handler: Handler.Clock)

  datatype Served = Served(outcome: Outcome, state: WorkerState)

  const RATE_CHECK_PATH: string := "/h/rate-limit-check"
  const NEW_RECEIVER: Receiver.ReceiverState := Receiver.ReceiverState({}, map[])

  // ---------------------------------------------------- rate-limit pre-check

  /** The body the pre-check posts: a slug no webhook uses, and the Clerk
      header as the only identity. */
  function PreCheckBody(req: Request, now: nat): Json {
    var userId := Header(req, "x-clerk-user-id");
    JObj(map["ip" := JStr(Receiver.GetIP(req)), "slug" := JStr("check_" + NatToString(now)),
             "userId" := if HasText(userId) then JStr(userId.value) else JNull,
             "checkOnly" := JBool(true)])
  }

  /** `POST /h/rate-limit-check`: relays the limiter's answer, 200 when it
      allows and 429 when it does not. */
  function RateLimitCheck(limiter: RateLimiter.Storage, req: Request, now: nat): (r: (Response, RateLimiter.Storage)) {
    var (result, limiter') := Receiver.AskLimiter(limiter, PreCheckBody(req, now), now);
    var allowed := Get(result, "allowed");
    (Response(if allowed.Some? && Truthy(allowed.value) then 200 else 429,
              map["Content-Type" := "application/json", "Access-Control-Allow-Origin" := "*"],
              JsonBody(result)),
     limiter')
  }

  /** The pre-check never spends a slot: the limiter is left as it was, and
      the answer is 200 exactly when a signed-in caller asks or the caller's
      IP could still take a new slug. */
  lemma RateLimitCheckIsReadOnly(limiter: RateLimiter.Storage, req: Request, now: nat)
    ensures var (resp, limiter') := RateLimitCheck(limiter, req, now);
      var c := RateLimiter.CheckIPLimit(limiter, Some(JStr(Receiver.GetIP(req))), Some(JStr("check_" + NatToString(now))), true, now);
      && limiter' == limiter
      && (resp.status == 200 <==> HasText(Header(req, "x-clerk-user-id")) || c.result.allowed)
      && (resp.status == 429 <==> !HasText(Header(req, "x-clerk-user-id")) && !c.result.allowed)
  {
    var body := PreCheckBody(req, now);
    assert Get(body, "ip") == Some(JStr(Receiver.GetIP(req)));
    assert Get(body, "slug") == Some(JStr("check_" + NatToString(now)));
    assert Get(body, "checkOnly") == Some(JBool(true));
    assert RateLimiter.FieldTruthy(Get(body, "checkOnly"));
    if HasText(Header(req, "x-clerk-user-id")) {
      assert RateLimiter.FieldTruthy(Get(body, "userId"));
      RateLimiter.AuthenticatedBypass(Receiver.LIMITER_REQUEST, body, limiter, now);
    } else {
      assert !RateLimiter.FieldTruthy(Get(body, "userId"));
      RateLimiter.AnonymousStatusMapping(Receiver.LIMITER_REQUEST, body, limiter, now);
    }
  }

  // ----------------------------------------------------------- slug routing

  /** Webhook traffic: a socket upgrade, a POST or a GET under `/h/`. */
  predicate ForReceiver(req: Request) {
    StartsWith(req.pathname, "/h/") && (IsWebSocketUpgrade(req) || req.verb == "POST" || req.verb == "GET")
  }

  /** `idFromName(slug)`: the receiver of the slug, created empty on first use. */
  function ReceiverOf(s: WorkerState, slug: string): Receiver.ReceiverState {
    if slug in s.receivers then s.receivers[slug] else NEW_RECEIVER
  }

  /** Forwarding to the receiver named by the second path segment. */
  function Forward(s: WorkerState, req: Request, b: Bindings, o: Oracle): (r: Served)
    ensures !HasText(Field(req.pathname, '/', 2)) ==>
      r == Served(Reply(Response(400, map["Content-Type" := "application/json"],
                                 JsonBody(JObj(map["error" := JStr("Invalid slug")])))), s)
    ensures HasText(Field(req.pathname, '/', 2)) ==>
      var slug := Field(req.pathname, '/', 2).value;
      && r.state.receivers.Keys == s.receivers.Keys + {slug}
      && (forall other :: other in s.receivers && other != slug ==> r.state.receivers[other] == s.receivers[other])
  {
    var slug := Field(req.pathname, '/', 2);
    if !HasText(slug) then
      Served(Reply(Response(400, map["Content-Type" := "application/json"],
                            JsonBody(JObj(map["error" := JStr("Invalid slug")])))), s)
    else
      var w := Receiver.World(s.trace, s.limiter, ReceiverOf(s, slug.value));
      var routed := Receiver.Fetch(w, req, o.socket, b.receiver, o.receiver);
      Served(routed.outcome, WorkerState(routed.world.trace, routed.world.limiter,
                                         s.receivers[slug.value := routed.world.receiver]))
  }

  /** Sockets join the receiver of their own slug only: a connection under
      one slug is never in the session set of another. */
  lemma SocketsJoinTheirSlug(s: WorkerState, req: Request, b: Bindings, o: Oracle)
    requires HasText(Field(req.pathname, '/', 2))
    requires req.verb != "OPTIONS" && IsWebSocketUpgrade(req)
    ensures var slug := Field(req.pathname, '/', 2).value;
      var r := Forward(s, req, b, o);
      && (r.outcome.Reply? ==> r.outcome.response.status == 101)
      && (o.receiver.historySendOk ==> r.outcome.Reply?)
      && r.state.receivers[slug].sessions == ReceiverOf(s, slug).sessions + {o.socket}
      && forall other :: other in s.receivers && other != slug ==> r.state.receivers[other] == s.receivers[other]
  {
  }

  // ------------------------------------------------------------ worker flow

  /** Paths the API handler serves to a GET. */
  predicate IsApiRead(req: Request) {
    req.verb == "GET"
    && (StartsWith(req.pathname, "/post/") || Contains(req.pathname, "/feed")
        || StartsWith(req.pathname, "/trace/") || req.pathname == "/events")
  }

  /** The single-page app: the asset if found, otherwise the index page. The
      index fetch is returned without being awaited, so its failure escapes
      the `catch`. */
  function ServeAsset(req: Request, assets: string -> AssetAnswer): (o: Outcome)
    ensures assets(req.pathname).AssetThrew? ==> o == Reply(Response(500, map["Content-Type" := "text/plain"], Text("Error loading page")))
    ensures assets(req.pathname).Asset? && assets(req.pathname).response.status < 400 ==> o == Reply(assets(req.pathname).response)
    ensures assets(req.pathname).Asset? && assets(req.pathname).response.status >= 400 && assets("/").Asset? ==>
      o == Reply(assets("/").response)
    ensures assets(req.pathname).Asset? && assets(req.pathname).response.status >= 400 && assets("/").AssetThrew? ==>
      o.Uncaught?
  {
    match assets(req.pathname)
    case AssetThrew => Reply(Response(500, map["Content-Type" := "text/plain"], Text("Error loading page")))
    case Asset(response) =>
      if response.status < 400 then Reply(response)
      else
        match assets("/")
        case AssetThrew => Uncaught
        case Asset(index) => Reply(index)
  }

  /** Every route the assets do not have is served the same index page,
      whatever its path: the app's router decides what it shows. */
  lemma UnknownRoutesShareTheIndex(a: Request, b: Request, assets: string -> AssetAnswer)
    requires assets(a.pathname).Asset? && assets(a.pathname).response.status >= 400
    requires assets(b.pathname).Asset? && assets(b.pathname).response.status >= 400
    ensures ServeAsset(a, assets) == ServeAsset(b, assets)
    ensures assets("/").Asset? ==> ServeAsset(a, assets) == Reply(assets("/").response)
  {
  }

  function MethodNotAllowedMeta(req: Request): Trace.Meta {
    map["error_code" := JStr("METHOD_NOT_ALLOWED"),
        "reason" := JStr("Method " + req.verb + " not supported for " + req.pathname)]
  }

  /** Everything not routed to a receiver: a `receive` flow of the worker's
      own, closed by `exit` before the API handler, left open for assets, and
      closed by `error` with a 405 for any other method. */
  function WorkerFlow(s: WorkerState, req: Request, b: Bindings, o: Oracle): Served {
    match Trace.CreateEnv(s.trace, EnvPayload(req), o.now, o.traceSuffix, o.envSuffix)
    case Err(_) => Served(Uncaught, s)
    case Ok((ctx, st1)) =>
      var enter := Trace.Step(st1, ctx, Trace.Receive, Trace.Enter, None, o.now);
      if enter.result.Err? then Served(Uncaught, s.(trace := enter.store))
      else AfterReceive(s, enter.store, enter.result.value, req, b, o)
  }

  /** The route taken once `receive/enter` is logged. */
  function AfterReceive(s: WorkerState, st: Trace.TraceStore, ctx: Trace.Context, req: Request,
                        b: Bindings, o: Oracle): Served {
    if IsApiRead(req) then
      var exit := Trace.Step(st, ctx, Trace.Receive, Trace.Exit, None, o.now);
      if exit.result.Err? then Served(Uncaught, s.(trace := exit.store))
      else
        var h := Handler.HandleRequest(exit.store, req, b.handler, o.handler);
        Served(h.outcome, s.(trace := h.trace))
    else if req.verb == "GET" then Served(ServeAsset(req, b.assets), s.(trace := st))
    else
      var failed := Trace.Step(st, ctx, Trace.Receive, Trace.Error, Some(MethodNotAllowedMeta(req)), o.now);
      if failed.result.Err? then Served(Uncaught, s.(trace := failed.store))
      else Served(Reply(Response(405, map["Content-Type" := "text/plain"], Text("Method not allowed"))),
                  s.(trace := failed.store))
  }

  /** The worker's `receive` flow is opened and then moved exactly as the
      route demands: `exit` before the API handler takes over (the store it
      is handed is returned), nothing more for an asset, `error` naming the
      method and path before a 405. */
  lemma WorkerFlowSteps(s: WorkerState, req: Request, b: Bindings, o: Oracle) returns (handed: Trace.TraceStore)
    ensures var r := WorkerFlow(s, req, b, o);
      var traceId := Trace.TraceIdOf(o.traceSuffix);
      var envId := Trace.EnvIdOf(o.envSuffix);
      var entered := s.trace.log + [Trace.EnvRecord(envId, traceId, o.now, Trace.Webhook, EnvPayload(req)),
                                   Trace.StepRecord(traceId, envId, 1, o.now, Trace.Receive, Trace.Enter, None)];
      && r.state.limiter == s.limiter && r.state.receivers == s.receivers
      && (IsApiRead(req) ==>
            && handed.log == entered + [Trace.StepRecord(traceId, envId, 2, o.now, Trace.Receive, Trace.Exit, None)]
            && r == Served(Handler.HandleRequest(handed, req, b.handler, o.handler).outcome,
                           s.(trace := Handler.HandleRequest(handed, req, b.handler, o.handler).trace)))
      && (!IsApiRead(req) && req.verb == "GET" ==>
            && r.state.trace.log == entered && r.outcome == ServeAsset(req, b.assets)
            && Trace.NodeStatusOf(r.state.trace.states[traceId], Trace.Receive) == Trace.Entered)
      && (req.verb != "GET" ==>
            && r.state.trace.log == entered + [Trace.StepRecord(traceId, envId, 2, o.now, Trace.Receive, Trace.Error,
                                                               Some(MethodNotAllowedMeta(req)))]
            && r.outcome == Reply(Response(405, map["Content-Type" := "text/plain"], Text("Method not allowed"))))
  {
    var st1, ctx := OpenReceive(s.trace, req, o);
    assert WorkerFlow(s, req, b, o) == AfterReceive(s, st1, ctx, req, b, o);
    assert Trace.Accepts(st1, ctx, Trace.Receive, Trace.Exit);
    assert Trace.Accepts(st1, ctx, Trace.Receive, Trace.Error);
    handed := AfterReceiveSteps(s, st1, ctx, req, b, o);
  }

  /** The three routes once `receive/enter` is logged and the guard accepts
      its exit or error. */
  lemma AfterReceiveSteps(s: WorkerState, st: Trace.TraceStore, ctx: Trace.Context, req: Request, b: Bindings, o: Oracle)
    returns (handed: Trace.TraceStore)
    requires Trace.Accepts(st, ctx, Trace.Receive, Trace.Exit)
    requires Trace.Accepts(st, ctx, Trace.Receive, Trace.Error)
    requires Trace.NodeStatusOf(st.states[ctx.traceId], Trace.Receive) == Trace.Entered
    ensures var r := AfterReceive(s, st, ctx, req, b, o);
      && r.state.limiter == s.limiter && r.state.receivers == s.receivers
      && (IsApiRead(req) ==>
            && handed.log == st.log + [Trace.StepRecord(ctx.traceId, ctx.envId, ctx.stepId + 1, o.now, Trace.Receive, Trace.Exit, None)]
            && r == Served(Handler.HandleRequest(handed, req, b.handler, o.handler).outcome,
                           s.(trace := Handler.HandleRequest(handed, req, b.handler, o.handler).trace)))
      && (!IsApiRead(req) && req.verb == "GET" ==>
            && r.state.trace == st && r.outcome == ServeAsset(req, b.assets))
      && (req.verb != "GET" ==>
            && r.state.trace.log == st.log + [Trace.StepRecord(ctx.traceId, ctx.envId, ctx.stepId + 1, o.now, Trace.Receive, Trace.Error,
                                                               Some(MethodNotAllowedMeta(req)))]
            && r.outcome == Reply(Response(405, map["Content-Type" := "text/plain"], Text("Method not allowed"))))
  {
    handed := Trace.Step(st, ctx, Trace.Receive, Trace.Exit, None, o.now).store;
  }

  /** The store and handle right after the worker's `receive/enter`. */
  lemma OpenReceive(st: Trace.TraceStore, req: Request, o: Oracle) returns (st1: Trace.TraceStore, ctx: Trace.Context)
    ensures var traceId := Trace.TraceIdOf(o.traceSuffix);
      var envId := Trace.EnvIdOf(o.envSuffix);
      var c := Trace.CreateEnv(st, EnvPayload(req), o.now, o.traceSuffix, o.envSuffix);
      && c.Ok?
      && var enter := Trace.Step(c.value.1, c.value.0, Trace.Receive, Trace.Enter, None, o.now);
         && enter.result == Ok(ctx) && enter.store == st1
         && ctx == Trace.Context(traceId, envId, 1)
         && st1.log == st.log + [Trace.EnvRecord(envId, traceId, o.now, Trace.Webhook, EnvPayload(req)),
                                 Trace.StepRecord(traceId, envId, 1, o.now, Trace.Receive, Trace.Enter, None)]
         && traceId in st1.states
         && Trace.NodeStatusOf(st1.states[traceId], Trace.Receive) == Trace.Entered
         && !st1.states[traceId].hasCriticalError
         && st1.states[traceId].lastStepId == 1 && st1.states[traceId].envId == envId
  {
    var (ctx0, st0) := Trace.CreateEnv(st, EnvPayload(req), o.now, o.traceSuffix, o.envSuffix).value;
    assert Trace.Accepts(st0, ctx0, Trace.Receive, Trace.Enter);
    var enter := Trace.Step(st0, ctx0, Trace.Receive, Trace.Enter, None, o.now);
    st1, ctx := enter.store, enter.result.value;
  }

  // ------------------------------------------------------------------ fetch

  /** The worker's `fetch`: the pre-check, then receiver traffic, then the
      worker's own flow. */
  function Fetch(s: WorkerState, req: Request, b: Bindings, o: Oracle): (r: Served)
    ensures req.pathname == RATE_CHECK_PATH && req.verb == "POST" ==>
      r.state == s && r.outcome == Reply(RateLimitCheck(s.limiter, req, o.now).0)
  {
    if req.pathname == RATE_CHECK_PATH && req.verb == "POST" then
      RateLimitCheckIsReadOnly(s.limiter, req, o.now);
      var (resp, limiter') := RateLimitCheck(s.limiter, req, o.now);
      Served(Reply(resp), s.(limiter := limiter'))
    else if ForReceiver(req) then Forward(s, req, b, o)
    else WorkerFlow(s, req, b, o)
  }

  /** A PUT, DELETE or other method under `/h/` that is not a socket upgrade
      is not forwarded: it is answered 405 by the worker with its flow closed. */
  lemma OtherMethodsUnderSlugAreRefused(s: WorkerState, req: Request, b: Bindings, o: Oracle)
    requires StartsWith(req.pathname, "/h/") && req.verb != "POST" && req.verb != "GET" && !IsWebSocketUpgrade(req)
    ensures var r := Fetch(s, req, b, o);
      && r.outcome == Reply(Response(405, map["Content-Type" := "text/plain"], Text("Method not allowed")))
      && r.state.receivers == s.receivers
      && Trace.TraceIdOf(o.traceSuffix) in r.state.trace.states
      && r.state.trace.states[Trace.TraceIdOf(o.traceSuffix)].hasCriticalError
  {
    var _ := WorkerFlowSteps(s, req, b, o);
    var st1, ctx := OpenReceive(s.trace, req, o);
    assert Trace.Accepts(st1, ctx, Trace.Receive, Trace.Error);
  }

  /** The worker keeps the shared trace store consistent when every flow it
      opens gets a fresh trace id. */
  lemma FetchPreservesValid(s: WorkerState, req: Request, b: Bindings, o: Oracle)
    requires Trace.Valid(s.trace)
    requires Trace.TraceIdOf(o.traceSuffix) !in s.trace.states
    requires Trace.TraceIdOf(o.handler.traceSuffix) !in s.trace.states
    requires Trace.TraceIdOf(o.handler.traceSuffix) != Trace.TraceIdOf(o.traceSuffix)
    requires Trace.TraceIdOf(o.receiver.traceSuffix) !in s.trace.states
    ensures Trace.Valid(Fetch(s, req, b, o).state.trace)
  {
    if req.pathname == RATE_CHECK_PATH && req.verb == "POST" {
    } else if ForReceiver(req) {
      assert Fetch(s, req, b, o) == Forward(s, req, b, o);
      ForwardPreservesValid(s, req, b, o);
    } else {
      assert Fetch(s, req, b, o) == WorkerFlow(s, req, b, o);
      WorkerFlowPreservesValid(s, req, b, o);
    }
  }

  lemma ForwardPreservesValid(s: WorkerState, req: Request, b: Bindings, o: Oracle)
    requires Trace.Valid(s.trace)
    requires Trace.TraceIdOf(o.receiver.traceSuffix) !in s.trace.states
    ensures Trace.Valid(Forward(s, req, b, o).state.trace)
  {
    var slug := Field(req.pathname, '/', 2);
    if HasText(slug) {
      var w := Receiver.World(s.trace, s.limiter, ReceiverOf(s, slug.value));
      if req.verb != "OPTIONS" && !IsWebSocketUpgrade(req) && req.verb == "POST" {
        Receiver.HandleWebhookPreservesValid(w, req, req.pathname, b.receiver, o.receiver);
      }
    }
  }

  lemma WorkerFlowPreservesValid(s: WorkerState, req: Request, b: Bindings, o: Oracle)
    requires Trace.Valid(s.trace)
    requires Trace.TraceIdOf(o.traceSuffix) !in s.trace.states
    requires Trace.TraceIdOf(o.handler.traceSuffix) !in s.trace.states
    requires Trace.TraceIdOf(o.handler.traceSuffix) != Trace.TraceIdOf(o.traceSuffix)
    ensures Trace.Valid(WorkerFlow(s, req, b, o).state.trace)
  {
    var st1, ctx := WorkerFlowOpens(s, req, b, o);
    AfterReceivePreservesValid(s, st1, ctx, req, b, o);
  }

  /** The worker flow is `AfterReceive` on the store after `receive/enter`,
      which is consistent and holds one more flow. */
  lemma WorkerFlowOpens(s: WorkerState, req: Request, b: Bindings, o: Oracle) returns (st1: Trace.TraceStore, ctx: Trace.Context)
    requires Trace.Valid(s.trace)
    requires Trace.TraceIdOf(o.traceSuffix) !in s.trace.states
    ensures WorkerFlow(s, req, b, o) == AfterReceive(s, st1, ctx, req, b, o)
    ensures Trace.Valid(st1)
    ensures st1.states.Keys == s.trace.states.Keys + {Trace.TraceIdOf(o.traceSuffix)}
  {
    st1, ctx := OpenReceive(s.trace, req, o);
    Trace.CreateEnvPreservesValid(s.trace, EnvPayload(req), o.now, o.traceSuffix, o.envSuffix);
    var (ctx0, st0) := Trace.CreateEnv(s.trace, EnvPayload(req), o.now, o.traceSuffix, o.envSuffix).value;
    Trace.StepPreservesValid(st0, ctx0, Trace.Receive, Trace.Enter, None, o.now);
  }

  lemma AfterReceivePreservesValid(s: WorkerState, st: Trace.TraceStore, ctx: Trace.Context, req: Request,
                                   b: Bindings, o: Oracle)
    requires Trace.Valid(st)
    requires Trace.TraceIdOf(o.handler.traceSuffix) !in st.states
    ensures Trace.Valid(AfterReceive(s, st, ctx, req, b, o).state.trace)
  {
    if IsApiRead(req) {
      Trace.StepPreservesValid(st, ctx, Trace.Receive, Trace.Exit, None, o.now);
      var exit := Trace.Step(st, ctx, Trace.Receive, Trace.Exit, None, o.now);
      Handler.HandleRequestPreservesValid(exit.store, req, b.handler, o.handler);
    } else if req.verb != "GET" {
      Trace.StepPreservesValid(st, ctx, Trace.Receive, Trace.Error, Some(MethodNotAllowedMeta(req)), o.now);
    }
  }
}
