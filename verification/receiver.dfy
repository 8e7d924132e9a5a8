/** The per-slug webhook endpoint (src/shared/reciever.ts): caller identity,
    the global slug quota and the per-minute throttle in front of ingestion,
    the trace steps around body parsing, storage whose failure is tolerated,
    the broadcast to connected sockets, and the socket session set with its
    history message. Everything the runtime supplies arrives as an oracle. */
module Receiver {
  import opened Wrappers
  import opened Json
  import opened Strings
  import opened Http
  import Trace
  import Storage
  import RateLimiter

  const API_USER: string := "api_authenticated"
  const WINDOW_SECONDS: nat := 60
  const AUTHENTICATED_LIMIT: nat := 100
  const ANONYMOUS_LIMIT: nat := 25
  const QUOTA_RETRY_SECONDS: nat := 24 * 60 * 60

  /** Bindings of the receiver: the database, JSON and form parsing, and the
      optional `AUTH_SECRET`. */
  datatype Services = Services(
    db: Storage.Database,
    codec: Codec,
    form: string -> map<string, string>,
    authSecret: Option<string>)

  /** What the runtime supplies to one webhook call: the clock and its ISO
      renderings, random id suffixes, the elapsed parse time, the message of a
      JSON syntax error, and whether each open socket's `send` succeeded. */
  datatype Oracle = Oracle(
    now: nat,
    isoNow: string,
    isoOf: int -> string,
    traceSuffix: string,
    envSuffix: string,
    eventSuffix: string,
    elapsed: int,
    parseError: string,
    sends: seq<bool>,
    historySendOk: bool,
    fallbackSendOk: bool)

  /** The Durable Object's own state: the session set (sockets as ids) and the
      throttle counters of its storage. */
  datatype ReceiverState = ReceiverState(sessions: set<nat>, counts: map<string, nat>)

  /** Everything a webhook call may change. */
  datatype World = World(trace: Trace.TraceStore, limiter: RateLimiter.Storage, receiver: ReceiverState)

  // --------------------------------------------------------------- identity

  /** `get('x-api-key') || get('authorization')?.replace('Bearer ', '')` */
  function ApiKey(req: Request): Option<string> {
    var auth := Header(req, "authorization");
    OrElse(Header(req, "x-api-key"), if auth.Some? then Some(ReplaceFirst(auth.value, "Bearer ", "")) else None)
  }

  /** `getUserId`: the API user when the presented key equals a configured
      secret, otherwise the Clerk user id header when non-empty. */
  function GetUserId(req: Request, secret: Option<string>): (r: Option<string>)
    ensures r.Some? ==> r.value != ""
    ensures !HasText(secret) ==> r == (if HasText(Header(req, "x-clerk-user-id")) then Header(req, "x-clerk-user-id") else None)
  {
    var key := ApiKey(req);
    if HasText(key) && HasText(secret) && key.value == secret.value then Some(API_USER)
    else if HasText(Header(req, "x-clerk-user-id")) then Header(req, "x-clerk-user-id")
    else None
  }

  /** A bearer token equal to the secret authenticates when no API key header
      is sent. */
  lemma BearerTokenAuthenticates(req: Request, secret: string)
    requires secret != ""
    requires !HasText(Header(req, "x-api-key"))
    requires Header(req, "authorization") == Some("Bearer " + secret)
    ensures GetUserId(req, Some(secret)) == Some(API_USER)
  {
    ReplaceLeadingPattern("Bearer " + secret, "Bearer ", "");
    assert ("Bearer " + secret)[|"Bearer "|..] == secret;
  }

  /** A non-empty API key header is the key that counts: a wrong one is not
      rescued by a right bearer token, and the caller is whoever the Clerk
      header names. */
  lemma ApiKeyHeaderTakesPrecedence(req: Request, secret: string)
    requires HasText(Header(req, "x-api-key")) && Header(req, "x-api-key") != Some(secret)
    ensures GetUserId(req, Some(secret))
         == (if HasText(Header(req, "x-clerk-user-id")) then Header(req, "x-clerk-user-id") else None)
  {
  }

  /** `getIP`: the client IP headers, else `'unknown'`. */
  function GetIP(req: Request): (ip: string)
    ensures ip != ""
    ensures ClientIp(req).Some? ==> ip == ClientIp(req).value
    ensures ClientIp(req).None? ==> ip == "unknown"
  {
    ClientIp(req).GetOr("unknown")
  }

  // --------------------------------------------------------------- throttle

  function ThrottleLimit(userId: Option<string>): nat {
    if userId.Some? then AUTHENTICATED_LIMIT else ANONYMOUS_LIMIT
  }

  /** `Math.floor(now / 60000)`: Dafny's division rounds down for a positive divisor. */
  function Minute(now: int): int {
    now / (WINDOW_SECONDS * 1000)
  }

  /** `ratelimit:${userId || ip}:${minute}` */
  function ThrottleKey(userId: Option<string>, ip: string, now: int): string {
    "ratelimit:" + userId.GetOr(ip) + ":" + IntToString(Minute(now))
  }

  function CountOf(counts: map<string, nat>, key: string): nat {
    if key in counts then counts[key] else 0
  }

  datatype Throttled = Throttled(rejection: Option<Response>, counts: map<string, nat>)

  function ThrottleRejection(userId: Option<string>, count: nat, now: int): Response {
    var limit := ThrottleLimit(userId);
    var message := if userId.Some? then "Authenticated users are limited to " + NatToString(limit) + " requests per minute."
                   else "Anonymous users are limited to " + NatToString(limit) + " requests per minute. Sign in for higher limits.";
    Response(429,
             map["Content-Type" := "application/json",
                 "Retry-After" := NatToString(WINDOW_SECONDS),
                 "X-RateLimit-Limit" := NatToString(limit),
                 "X-RateLimit-Remaining" := "0",
                 "X-RateLimit-Reset" := IntToString(now / 1000 + WINDOW_SECONDS),
                 "Access-Control-Allow-Origin" := "*"],
             JsonBody(JObj(map["error" := JStr("Rate limit exceeded"),
                               "limit" := JNum(limit),
                               "window" := JStr(NatToString(WINDOW_SECONDS) + " seconds"),
                               "current" := JNum(count),
                               "retryAfter" := JNum(WINDOW_SECONDS),
                               "message" := JStr(message)])))
  }

  /** `checkRateLimit`: count-then-increment on the caller's key for the
      current minute; at the limit the call is refused and nothing written. */
  function CheckRateLimit(counts: map<string, nat>, userId: Option<string>, ip: string, now: int): (t: Throttled)
    ensures var key := ThrottleKey(userId, ip, now);
      && (t.rejection.Some? <==> CountOf(counts, key) >= ThrottleLimit(userId))
      && (t.rejection.Some? ==> t.counts == counts && t.rejection.value.status == 429)
      && (t.rejection.None? ==> t.counts == counts[key := CountOf(counts, key) + 1])
  {
    var key := ThrottleKey(userId, ip, now);
    var count := CountOf(counts, key);
    if count >= ThrottleLimit(userId) then Throttled(Some(ThrottleRejection(userId, count, now)), counts)
    else Throttled(None, counts[key := count + 1])
  }

  /** A run of throttle checks by one caller: how many passed, and the
      counters afterwards. */
  function ThrottleRun(counts: map<string, nat>, userId: Option<string>, ip: string, nows: seq<int>)
    : (r: (nat, map<string, nat>))
    decreases |nows|
  {
    if |nows| == 0 then (0, counts)
    else
      var t := CheckRateLimit(counts, userId, ip, nows[0]);
      var rest := ThrottleRun(t.counts, userId, ip, nows[1..]);
      (rest.0 + (if t.rejection.None? then 1 else 0), rest.1)
  }

  /** Within one minute a caller gets exactly as many calls through as the
      limit leaves, and the stored count never passes the limit. */
  lemma {:induction false} ThrottleAdmitsUpToLimit(counts: map<string, nat>, userId: Option<string>, ip: string,
                                                   minute: int, nows: seq<int>)
    requires forall i :: 0 <= i < |nows| ==> Minute(nows[i]) == minute
    requires |nows| > 0 ==> CountOf(counts, ThrottleKey(userId, ip, nows[0])) <= ThrottleLimit(userId)
    ensures var r := ThrottleRun(counts, userId, ip, nows);
      |nows| > 0 ==>
        var key := ThrottleKey(userId, ip, nows[0]);
        var c := CountOf(counts, key);
        && r.0 == (if |nows| <= ThrottleLimit(userId) - c then |nows| else ThrottleLimit(userId) - c)
        && CountOf(r.1, key) == c + r.0 <= ThrottleLimit(userId)
    decreases |nows|
  {
    if |nows| > 0 {
      var key := ThrottleKey(userId, ip, nows[0]);
      var t := CheckRateLimit(counts, userId, ip, nows[0]);
      if |nows| > 1 {
        assert Minute(nows[1]) == Minute(nows[0]);
        assert ThrottleKey(userId, ip, nows[1]) == key;
        assert forall i :: 0 <= i < |nows[1..]| ==> Minute(nows[1..][i]) == minute by {
          forall i | 0 <= i < |nows[1..]| ensures Minute(nows[1..][i]) == minute {
            assert nows[1..][i] == nows[i + 1];
          }
        }
        ThrottleAdmitsUpToLimit(t.counts, userId, ip, minute, nows[1..]);
      }
    }
  }

  // ------------------------------------------------------------ global quota

  const QUOTA_DEFAULT_MESSAGE: string := "You have reached the maximum number of webhook URLs for anonymous users."

  /** The body `checkGlobalRateLimit` posts to the limiter; `JSON.stringify`
      keeps a `null` user id and drops an `undefined` slug. */
  function QuotaRequestBody(ip: string, slug: Option<string>, userId: Option<string>): Json {
    JObj(Put(map["ip" := JStr(ip), "userId" := OptStr(userId).GetOr(JNull)], "slug", OptStr(slug)))
  }

  const LIMITER_REQUEST: Request :=
    Request("POST", "https://internal/check", "/check", "", map[], map["content-type" := "application/json"], "")

  function QuotaRejection(result: Json, isoOf: int -> string): Response {
    var reset := Get(result, "resetAt");
    var resetDate := if reset.Some? && Truthy(reset.value) && reset.value.JNum? then isoOf(reset.value.n) else "unknown";
    var reason := Get(result, "reason");
    var message := if reason.Some? && Truthy(reason.value) then reason.value else JStr(QUOTA_DEFAULT_MESSAGE);
    Response(429,
             map["Content-Type" := "application/json",
                 "Retry-After" := NatToString(QUOTA_RETRY_SECONDS),
                 "X-RateLimit-Limit" := "2",
                 "X-RateLimit-Remaining" := "0",
                 "Access-Control-Allow-Origin" := "*"],
             JsonBody(JObj(Put(Put(map["error" := JStr("Slug creation limit exceeded"),
                                       "limit" := JNum(2),
                                       "message" := message,
                                       "resetAt" := JStr(resetDate),
                                       "suggestion" := JStr("Sign in to create unlimited webhook URLs.")],
                                   "current", Get(result, "slugCount")),
                               "slugs", Get(result, "slugs")))))
  }

  datatype QuotaChecked = QuotaChecked(rejection: Option<Response>, limiter: RateLimiter.Storage)

  /** The limiter's answer to the quota request (`response.json()`) and its
      storage afterwards. */
  function AskLimiter(limiter: RateLimiter.Storage, body: Json, now: int): (a: (Json, RateLimiter.Storage)) {
    var (resp, limiter') := RateLimiter.Fetch(LIMITER_REQUEST, Some(body), limiter, now);
    (if resp.body.JsonBody? then resp.body.value else JNull, limiter')
  }

  /** An identified caller is allowed outright; for an anonymous one the
      answer's `allowed` is the quota's verdict on the caller's IP and slug. */
  lemma LimiterAnswer(limiter: RateLimiter.Storage, ip: string, slug: Option<string>, userId: Option<string>, now: int)
    ensures var a := AskLimiter(limiter, QuotaRequestBody(ip, slug, userId), now);
      var c := RateLimiter.CheckIPLimit(limiter, Some(JStr(ip)), OptStr(slug), false, now);
      && (HasText(userId) ==> Get(a.0, "allowed") == Some(JBool(true)) && a.1 == limiter)
      && (!HasText(userId) ==> Get(a.0, "allowed") == Some(JBool(c.result.allowed)) && a.1 == c.storage)
  {
    var body := QuotaRequestBody(ip, slug, userId);
    assert Get(body, "ip") == Some(JStr(ip));
    assert Get(body, "slug") == OptStr(slug);
    assert Get(body, "checkOnly") == None;
    assert Get(body, "userId") == Some(if userId.Some? then JStr(userId.value) else JNull);
    if HasText(userId) {
      RateLimiter.AuthenticatedBypass(LIMITER_REQUEST, body, limiter, now);
    } else {
      RateLimiter.AnonymousStatusMapping(LIMITER_REQUEST, body, limiter, now);
    }
  }

  /** `checkGlobalRateLimit`: asks the limiter about the slug of the path and
      answers 429 when it does not allow it. */
  function CheckGlobalRateLimit(limiter: RateLimiter.Storage, req: Request, pathname: string,
                                secret: Option<string>, now: int, isoOf: int -> string): (q: QuotaChecked)
    ensures q.rejection.Some? ==> q.rejection.value.status == 429 && q.limiter == limiter
  {
    var (result, limiter') := AskLimiter(limiter, QuotaRequestBody(GetIP(req), Field(pathname, '/', 2), GetUserId(req, secret)), now);
    var allowed := Get(result, "allowed");
    if allowed.Some? && Truthy(allowed.value) then QuotaChecked(None, limiter')
    else QuotaChecked(Some(QuotaRejection(result, isoOf)), limiter)
  }

  /** An anonymous caller is refused exactly when the limiter refuses the slug
      of the path for the caller's IP; an identified caller never is. */
  lemma QuotaDecision(limiter: RateLimiter.Storage, req: Request, pathname: string,
                      secret: Option<string>, now: int, isoOf: int -> string)
    ensures var q := CheckGlobalRateLimit(limiter, req, pathname, secret, now, isoOf);
      var slug := OptStr(Field(pathname, '/', 2));
      var c := RateLimiter.CheckIPLimit(limiter, Some(JStr(GetIP(req))), slug, false, now);
      && (GetUserId(req, secret).Some? ==> q.rejection.None? && q.limiter == limiter)
      && (GetUserId(req, secret).None? ==>
            (q.rejection.Some? <==> !c.result.allowed) && (q.rejection.None? ==> q.limiter == c.storage))
  {
    var ip, slug, userId := GetIP(req), Field(pathname, '/', 2), GetUserId(req, secret);
    LimiterAnswer(limiter, ip, slug, userId, now);
    assert userId.Some? <==> HasText(userId);
    var a := AskLimiter(limiter, QuotaRequestBody(ip, slug, userId), now);
    var allowed := Get(a.0, "allowed");
    assert CheckGlobalRateLimit(limiter, req, pathname, secret, now, isoOf)
        == if allowed.Some? && Truthy(allowed.value) then QuotaChecked(None, a.1)
           else QuotaChecked(Some(QuotaRejection(a.0, isoOf)), limiter);
  }

  /** Any non-empty Clerk user id header passes the slug quota: the header is
      trusted as sent. */
  lemma ClerkHeaderPassesQuota(limiter: RateLimiter.Storage, req: Request, pathname: string,
                               now: int, isoOf: int -> string)
    requires HasText(Header(req, "x-clerk-user-id"))
    ensures CheckGlobalRateLimit(limiter, req, pathname, None, now, isoOf).rejection.None?
  {
    QuotaDecision(limiter, req, pathname, None, now, isoOf);
  }

  // -------------------------------------------------------------- broadcast

  /** The number of sockets whose `send` did not throw. */
  function Delivered(sends: seq<bool>): (n: nat)
    ensures n <= |sends|
    decreases |sends|
  {
    if |sends| == 0 then 0 else Delivered(sends[..|sends| - 1]) + (if sends[|sends| - 1] then 1 else 0)
  }

  /** Every send is attempted; `broadcastCount` is the number that succeeded. */
  method Broadcast(sends: seq<bool>) returns (broadcastCount: nat)
    ensures broadcastCount == Delivered(sends)
    ensures broadcastCount == |sends| <==> forall i :: 0 <= i < |sends| ==> sends[i]
  {
    broadcastCount := 0;
    var i := 0;
    while i < |sends|
      invariant 0 <= i <= |sends|
      invariant broadcastCount == Delivered(sends[..i])
    {
      assert sends[..i + 1][..i] == sends[..i];
      if sends[i] {
        broadcastCount := broadcastCount + 1;
      }
      i := i + 1;
    }
    assert sends[..|sends|] == sends;
    AllDeliveredIffNoFailure(sends);
  }

  lemma {:induction false} AllDeliveredIffNoFailure(sends: seq<bool>)
    ensures Delivered(sends) == |sends| <==> forall i :: 0 <= i < |sends| ==> sends[i]
    decreases |sends|
  {
    if |sends| > 0 {
      var init := sends[..|sends| - 1];
      AllDeliveredIffNoFailure(init);
      if forall i :: 0 <= i < |sends| ==> sends[i] {
        assert forall i :: 0 <= i < |init| ==> init[i] == sends[i];
      } else if Delivered(sends) == |sends| {
        assert sends[|sends| - 1];
        assert Delivered(init) == |init|;
        assert forall i :: 0 <= i < |init| ==> init[i];
        forall i | 0 <= i < |sends| ensures sends[i] {
          if i < |init| { assert init[i] == sends[i]; }
        }
      }
    }
  }

  // ---------------------------------------------------------------- webhook

  /** The event pushed to the sockets. */
  function EventJson(req: Request, pathname: string, traceId: string, payload: Json, isoNow: string): Json {
    JObj(Put(Put(map["id" := JStr(traceId), "trace_id" := JStr(traceId), "timestamp" := JStr(isoNow),
                     "method" := JStr(req.verb), "headers" := StringMap(req.headers),
                     "payload" := payload, "path" := JStr(pathname)],
                 "ip", OptStr(ClientIp(req))),
             "user_agent", OptStr(UserAgent(req))))
  }

  function JsonResponse(status: int, fields: map<string, Json>): Response {
    Response(status, map["Content-Type" := "application/json", "Access-Control-Allow-Origin" := "*"],
             JsonBody(JObj(fields)))
  }

  /** What the part of `handleWebhook` after the two limits produces: the
      reply (or an uncaught exception), the trace store, and the event
      broadcast to the sockets, if any. */
  datatype Ingested = Ingested(outcome: Outcome, store: Trace.TraceStore, broadcast: Option<Json>)

  /** Storage (a failure is swallowed and the handle kept), the broadcast, and
      the 200 reply. */
  function Deliver(st: Trace.TraceStore, ctx: Trace.Context, req: Request, pathname: string, payload: Json,
                   svc: Services, o: Oracle): Ingested
  {
    var data := Storage.EventData(req.url, req.verb, pathname, req.headers, payload, ContentType(req),
                                  o.elapsed, ClientIp(req), UserAgent(req));
    var stored := Storage.StoreEvent(st, ctx, svc.db, data, svc.codec, Storage.StoreClock(o.now, o.eventSuffix, o.isoNow));
    var traceId := if stored.outcome.Ok? then stored.outcome.value.traceId else ctx.traceId;
    Ingested(Reply(DeliveryReply(traceId, Delivered(o.sends), o.isoNow)),
             stored.store, Some(EventJson(req, pathname, traceId, payload, o.isoNow)))
  }

  /** The 200 of a delivered webhook. */
  function DeliveryReply(traceId: string, broadcastCount: nat, isoNow: string): Response {
    JsonResponse(200, map["ok" := JBool(true), "trace_id" := JStr(traceId),
                          "broadcastCount" := JNum(broadcastCount), "timestamp" := JStr(isoNow)])
  }

  lemma DeliveryReplyFields(traceId: string, broadcastCount: nat, isoNow: string)
    ensures var resp := DeliveryReply(traceId, broadcastCount, isoNow);
      && resp.status == 200 && resp.body.JsonBody?
      && Get(resp.body.value, "ok") == Some(JBool(true))
      && Get(resp.body.value, "trace_id") == Some(JStr(traceId))
      && Get(resp.body.value, "broadcastCount") == Some(JNum(broadcastCount))
  {
  }

  /** The `catch` of the body read: `receive/error` with `PARSE_FAILED` and
      the reason, then a 400 carrying the trace id. */
  function ParseFailed(st: Trace.TraceStore, ctx: Trace.Context, reason: string, now: int): Ingested {
    var meta := map["error_code" := JStr("PARSE_FAILED"), "reason" := JStr(reason)];
    var failed := Trace.Step(st, ctx, Trace.Receive, Trace.Error, Some(meta), now);
    if failed.result.Err? then Ingested(Uncaught, failed.store, None)
    else Ingested(Reply(JsonResponse(400, map["ok" := JBool(false), "error" := JStr("Invalid payload"),
                                              "trace_id" := JStr(failed.result.value.traceId)])),
                  failed.store, None)
  }

  /** The body is read inside the `try`: `receive/exit` when it parses, then
      delivery; a parse error (or a refused exit step) goes to the `catch`. */
  function Received(st: Trace.TraceStore, ctx: Trace.Context, req: Request, pathname: string,
                    svc: Services, o: Oracle): Ingested
  {
    match ReadBody(req, svc.codec, svc.form)
    case None => ParseFailed(st, ctx, o.parseError, o.now)
    case Some(payload) =>
      var exit := Trace.Step(st, ctx, Trace.Receive, Trace.Exit, None, o.now);
      if exit.result.Ok? then Deliver(exit.store, exit.result.value, req, pathname, payload, svc, o)
      else ParseFailed(exit.store, ctx, "step refused", o.now)
  }

  /** A new flow from the request's environment, then `receive/enter`. */
  function Ingest(st: Trace.TraceStore, req: Request, pathname: string, svc: Services, o: Oracle): Ingested {
    match Trace.CreateEnv(st, EnvPayload(req), o.now, o.traceSuffix, o.envSuffix)
    case Err(_) => Ingested(Uncaught, st, None)
    case Ok((ctx, st')) =>
      var enter := Trace.Step(st', ctx, Trace.Receive, Trace.Enter, None, o.now);
      if enter.result.Err? then Ingested(Uncaught, enter.store, None)
      else Received(enter.store, enter.result.value, req, pathname, svc, o)
  }

  datatype WebhookResult = WebhookResult(outcome: Outcome, world: World, broadcast: Option<Json>)

  /** `handleWebhook`: the slug quota first, then the throttle, then ingestion.
      A refusal by the trace guard is an uncaught exception. */
  function HandleWebhook(w: World, req: Request, pathname: string, svc: Services, o: Oracle): (r: WebhookResult)
    ensures r.world.limiter == w.limiter || r.world.limiter == CheckGlobalRateLimit(w.limiter, req, pathname, svc.authSecret, o.now, o.isoOf).limiter
    ensures r.world.receiver.sessions == w.receiver.sessions
  {
    var q := CheckGlobalRateLimit(w.limiter, req, pathname, svc.authSecret, o.now, o.isoOf);
    if q.rejection.Some? then WebhookResult(Reply(q.rejection.value), w, None)
    else
      var t := CheckRateLimit(w.receiver.counts, GetUserId(req, svc.authSecret), GetIP(req), o.now);
      var w1 := w.(limiter := q.limiter);
      if t.rejection.Some? then WebhookResult(Reply(t.rejection.value), w1, None)
      else
        var i := Ingest(w.trace, req, pathname, svc, o);
        WebhookResult(i.outcome, w1.(trace := i.store, receiver := w.receiver.(counts := t.counts)), i.broadcast)
  }

  /** The quota is asked first: when it refuses, the call answers 429 before
      the throttle is consulted and before any flow is opened. */
  lemma QuotaRefusalComesFirst(w: World, req: Request, pathname: string, svc: Services, o: Oracle)
    requires CheckGlobalRateLimit(w.limiter, req, pathname, svc.authSecret, o.now, o.isoOf).rejection.Some?
    ensures var r := HandleWebhook(w, req, pathname, svc, o);
      && r.outcome.Reply? && r.outcome.response.status == 429
      && r.world == w && r.broadcast.None?
  {
  }

  /** The throttle is asked second: when it refuses, nothing but the quota's
      own bookkeeping has changed and no flow is opened. */
  lemma ThrottleRefusalComesSecond(w: World, req: Request, pathname: string, svc: Services, o: Oracle)
    requires CheckGlobalRateLimit(w.limiter, req, pathname, svc.authSecret, o.now, o.isoOf).rejection.None?
    requires CountOf(w.receiver.counts, ThrottleKey(GetUserId(req, svc.authSecret), GetIP(req), o.now))
               >= ThrottleLimit(GetUserId(req, svc.authSecret))
    ensures var r := HandleWebhook(w, req, pathname, svc, o);
      && r.outcome.Reply? && r.outcome.response.status == 429
      && r.world.trace == w.trace && r.world.receiver == w.receiver
      && r.broadcast.None?
  {
  }

  /** Past the limits, a call is ingested into the trace store and counted by
      the throttle. */
  lemma PastLimitsIngests(w: World, req: Request, pathname: string, svc: Services, o: Oracle)
    requires CheckGlobalRateLimit(w.limiter, req, pathname, svc.authSecret, o.now, o.isoOf).rejection.None?
    requires CheckRateLimit(w.receiver.counts, GetUserId(req, svc.authSecret), GetIP(req), o.now).rejection.None?
    ensures var r := HandleWebhook(w, req, pathname, svc, o);
      var i := Ingest(w.trace, req, pathname, svc, o);
      var key := ThrottleKey(GetUserId(req, svc.authSecret), GetIP(req), o.now);
      && r.outcome == i.outcome && r.world.trace == i.store && r.broadcast == i.broadcast
      && r.world.receiver.counts == w.receiver.counts[key := CountOf(w.receiver.counts, key) + 1]
  {
  }

  /** Storage is entered only after `receive/exit`, so the guard accepts it,
      and whatever the database does the reply is a 200 carrying the flow's
      trace id and the number of sockets that took the event. */
  lemma DeliverAlwaysSucceeds(st: Trace.TraceStore, ctx: Trace.Context, req: Request, pathname: string,
                              payload: Json, svc: Services, o: Oracle)
    requires Trace.Accepts(st, ctx, Trace.Store, Trace.Enter)
    ensures var d := Deliver(st, ctx, req, pathname, payload, svc, o);
      && d.outcome.Reply? && d.outcome.response.status == 200
      && d.outcome.response.body.JsonBody?
      && Get(d.outcome.response.body.value, "ok") == Some(JBool(true))
      && Get(d.outcome.response.body.value, "trace_id") == Some(JStr(ctx.traceId))
      && Get(d.outcome.response.body.value, "broadcastCount") == Some(JNum(Delivered(o.sends)))
      && |d.store.log| >= |st.log| && d.store.log[..|st.log|] == st.log
      && d.broadcast.Some?
  {
    var data := Storage.EventData(req.url, req.verb, pathname, req.headers, payload, ContentType(req),
                                  o.elapsed, ClientIp(req), UserAgent(req));
    var clock := Storage.StoreClock(o.now, o.eventSuffix, o.isoNow);
    Storage.StoreProtocol(st, ctx, svc.db, data, svc.codec, clock);
    var stored := Storage.StoreEvent(st, ctx, svc.db, data, svc.codec, clock);
    var traceId := if stored.outcome.Ok? then stored.outcome.value.traceId else ctx.traceId;
    assert traceId == ctx.traceId;
    DeliveryReplyFields(traceId, Delivered(o.sends), o.isoNow);
    if stored.outcome.Err? {
      assert stored.store.log[..|st.log|] == st.log;
    }
  }

  /** Right after `receive/enter` the guard accepts the rest: a body that is
      not JSON under a JSON content type closes the flow with `receive/error`
      and a 400 carrying the trace id; any other body is answered 200 after
      `receive/exit`. */
  lemma ReceivedReplies(st: Trace.TraceStore, ctx: Trace.Context, req: Request, pathname: string,
                        svc: Services, o: Oracle)
    requires Trace.Accepts(st, ctx, Trace.Receive, Trace.Exit)
    requires Trace.NodeStatusOf(st.states[ctx.traceId], Trace.Store) == Trace.Idle
    ensures var r := Received(st, ctx, req, pathname, svc, o);
      && r.outcome.Reply?
      && r.outcome.response.body.JsonBody?
      && Get(r.outcome.response.body.value, "trace_id") == Some(JStr(ctx.traceId))
      && |r.store.log| > |st.log| && r.store.log[..|st.log|] == st.log
      && (ReadBody(req, svc.codec, svc.form).None? ==>
            && r.outcome.response.status == 400
            && r.store.log == st.log + [Trace.StepRecord(ctx.traceId, ctx.envId, ctx.stepId + 1, o.now,
                 Trace.Receive, Trace.Error,
                 Some(map["error_code" := JStr("PARSE_FAILED"), "reason" := JStr(o.parseError)]))]
            && r.store.states[ctx.traceId].hasCriticalError
            && r.broadcast.None?)
      && (ReadBody(req, svc.codec, svc.form).Some? ==>
            && r.outcome.response.status == 200
            && |r.store.log| > |st.log| && r.store.log[..|st.log| + 1]
                 == st.log + [Trace.StepRecord(ctx.traceId, ctx.envId, ctx.stepId + 1, o.now,
                                               Trace.Receive, Trace.Exit, None)]
            && r.broadcast.Some?)
  {
    match ReadBody(req, svc.codec, svc.form)
    case None =>
      ParseFailedReplies(st, ctx, o.parseError, o.now);
    case Some(payload) =>
      ReceivedDelivers(st, ctx, req, pathname, payload, svc, o);
  }

  /** A body that parses: `receive/exit`, then delivery. */
  lemma ReceivedDelivers(st: Trace.TraceStore, ctx: Trace.Context, req: Request, pathname: string,
                         payload: Json, svc: Services, o: Oracle)
    requires Trace.Accepts(st, ctx, Trace.Receive, Trace.Exit)
    requires Trace.NodeStatusOf(st.states[ctx.traceId], Trace.Store) == Trace.Idle
    requires ReadBody(req, svc.codec, svc.form) == Some(payload)
    ensures var r := Received(st, ctx, req, pathname, svc, o);
      && r.outcome.Reply? && r.outcome.response.status == 200
      && r.outcome.response.body.JsonBody?
      && Get(r.outcome.response.body.value, "trace_id") == Some(JStr(ctx.traceId))
      && |r.store.log| > |st.log| && r.store.log[..|st.log|] == st.log
      && r.store.log[..|st.log| + 1]
           == st.log + [Trace.StepRecord(ctx.traceId, ctx.envId, ctx.stepId + 1, o.now,
                                         Trace.Receive, Trace.Exit, None)]
      && r.broadcast.Some?
  {
    var st2, ctx2 := ReceivedIsDeliver(st, ctx, req, pathname, payload, svc, o);
    DeliverAlwaysSucceeds(st2, ctx2, req, pathname, payload, svc, o);
    var log := Deliver(st2, ctx2, req, pathname, payload, svc, o).store.log;
    Trace.PrefixOfExtension(log, st.log, st2.log);
  }

  lemma ReceivedIsDeliver(st: Trace.TraceStore, ctx: Trace.Context, req: Request, pathname: string,
                          payload: Json, svc: Services, o: Oracle) returns (st2: Trace.TraceStore, ctx2: Trace.Context)
    requires Trace.Accepts(st, ctx, Trace.Receive, Trace.Exit)
    requires Trace.NodeStatusOf(st.states[ctx.traceId], Trace.Store) == Trace.Idle
    requires ReadBody(req, svc.codec, svc.form) == Some(payload)
    ensures Received(st, ctx, req, pathname, svc, o) == Deliver(st2, ctx2, req, pathname, payload, svc, o)
    ensures ctx2.traceId == ctx.traceId
    ensures st2.log == st.log + [Trace.StepRecord(ctx.traceId, ctx.envId, ctx.stepId + 1, o.now, Trace.Receive, Trace.Exit, None)]
    ensures Trace.Accepts(st2, ctx2, Trace.Store, Trace.Enter)
  {
    st2, ctx2 := ExitReceive(st, ctx, o.now);
  }

  /** The `catch` after `receive/enter`: the guard accepts the error step, so
      the reply is the 400 and the flow is closed by exactly one record. */
  lemma ParseFailedReplies(st: Trace.TraceStore, ctx: Trace.Context, reason: string, now: int)
    requires Trace.Accepts(st, ctx, Trace.Receive, Trace.Exit)
    ensures var r := ParseFailed(st, ctx, reason, now);
      && r.outcome == Reply(JsonResponse(400, map["ok" := JBool(false), "error" := JStr("Invalid payload"),
                                                 "trace_id" := JStr(ctx.traceId)]))
      && r.store.log == st.log + [Trace.StepRecord(ctx.traceId, ctx.envId, ctx.stepId + 1, now,
                                   Trace.Receive, Trace.Error,
                                   Some(map["error_code" := JStr("PARSE_FAILED"), "reason" := JStr(reason)]))]
      && ctx.traceId in r.store.states && r.store.states[ctx.traceId].hasCriticalError
      && r.broadcast.None?
  {
    assert Trace.Accepts(st, ctx, Trace.Receive, Trace.Error);
  }

  /** `receive/exit` right after `receive/enter`: the handle moves one step on
      and the guard will accept `store/enter`. */
  lemma ExitReceive(st: Trace.TraceStore, ctx: Trace.Context, now: int) returns (st2: Trace.TraceStore, ctx2: Trace.Context)
    requires Trace.Accepts(st, ctx, Trace.Receive, Trace.Exit)
    requires Trace.NodeStatusOf(st.states[ctx.traceId], Trace.Store) == Trace.Idle
    ensures var exit := Trace.Step(st, ctx, Trace.Receive, Trace.Exit, None, now);
      && exit.result == Ok(ctx2) && exit.store == st2
      && ctx2.traceId == ctx.traceId
      && st2.log == st.log + [Trace.StepRecord(ctx.traceId, ctx.envId, ctx.stepId + 1, now, Trace.Receive, Trace.Exit, None)]
      && Trace.Accepts(st2, ctx2, Trace.Store, Trace.Enter)
  {
    var exit := Trace.Step(st, ctx, Trace.Receive, Trace.Exit, None, now);
    st2, ctx2 := exit.store, exit.result.value;
  }

  /** The endpoint's own trace calls never trip the guard: every call that
      gets past the two limits replies, 400 exactly when the body does not
      parse and 200 otherwise, with the new flow's trace id, and never throws. */
  lemma IngestReplies(st: Trace.TraceStore, req: Request, pathname: string, svc: Services, o: Oracle)
    ensures var i := Ingest(st, req, pathname, svc, o);
      && i.outcome.Reply?
      && i.outcome.response.body.JsonBody?
      && Get(i.outcome.response.body.value, "trace_id") == Some(JStr(Trace.TraceIdOf(o.traceSuffix)))
      && (i.outcome.response.status == 400 <==> ReadBody(req, svc.codec, svc.form).None?)
      && (i.outcome.response.status == 200 <==> ReadBody(req, svc.codec, svc.form).Some?)
      && (i.broadcast.Some? <==> ReadBody(req, svc.codec, svc.form).Some?)
  {
    var st1, ctx1 := OpenFlow(st, req, pathname, svc, o);
    ReceivedReplies(st1, ctx1, req, pathname, svc, o);
  }

  /** The new flow starts with its environment record and `receive/enter`,
      and a body that does not parse closes it with one more record. */
  lemma IngestLogsFlow(st: Trace.TraceStore, req: Request, pathname: string, svc: Services, o: Oracle)
    ensures var i := Ingest(st, req, pathname, svc, o);
      var traceId := Trace.TraceIdOf(o.traceSuffix);
      var envId := Trace.EnvIdOf(o.envSuffix);
      && |i.store.log| >= |st.log| + 3
      && i.store.log[..|st.log| + 2] == st.log + [
           Trace.EnvRecord(envId, traceId, o.now, Trace.Webhook, EnvPayload(req)),
           Trace.StepRecord(traceId, envId, 1, o.now, Trace.Receive, Trace.Enter, None)]
      && (ReadBody(req, svc.codec, svc.form).None? ==>
            |i.store.log| == |st.log| + 3 && traceId in i.store.states && i.store.states[traceId].hasCriticalError)
  {
    var st1, ctx1 := OpenFlow(st, req, pathname, svc, o);
    ReceivedReplies(st1, ctx1, req, pathname, svc, o);
    var log := Received(st1, ctx1, req, pathname, svc, o).store.log;
    assert log[..|st1.log|] == st1.log;
    assert log[..|st.log| + 2] == log[..|st1.log|];
  }

  /** The store and handle right after `receive/enter` of a new flow, which
      is where `Ingest` hands over to `Received`. */
  lemma OpenFlow(st: Trace.TraceStore, req: Request, pathname: string, svc: Services, o: Oracle)
    returns (st1: Trace.TraceStore, ctx1: Trace.Context)
    ensures var traceId := Trace.TraceIdOf(o.traceSuffix);
      var envId := Trace.EnvIdOf(o.envSuffix);
      && ctx1 == Trace.Context(traceId, envId, 1)
      && st1.log == st.log + [Trace.EnvRecord(envId, traceId, o.now, Trace.Webhook, EnvPayload(req)),
                              Trace.StepRecord(traceId, envId, 1, o.now, Trace.Receive, Trace.Enter, None)]
      && Trace.Accepts(st1, ctx1, Trace.Receive, Trace.Exit)
      && Trace.NodeStatusOf(st1.states[ctx1.traceId], Trace.Store) == Trace.Idle
      && Ingest(st, req, pathname, svc, o) == Received(st1, ctx1, req, pathname, svc, o)
  {
    var (ctx, st') := Trace.CreateEnv(st, EnvPayload(req), o.now, o.traceSuffix, o.envSuffix).value;
    assert Trace.Accepts(st', ctx, Trace.Receive, Trace.Enter);
    var enter := Trace.Step(st', ctx, Trace.Receive, Trace.Enter, None, o.now);
    st1, ctx1 := enter.store, enter.result.value;
  }

  /** Ingestion keeps the trace store consistent when the id oracle hands out
      a fresh trace id. */
  lemma IngestPreservesValid(st: Trace.TraceStore, req: Request, pathname: string, svc: Services, o: Oracle)
    requires Trace.Valid(st)
    requires Trace.TraceIdOf(o.traceSuffix) !in st.states
    ensures Trace.Valid(Ingest(st, req, pathname, svc, o).store)
  {
    Trace.CreateEnvPreservesValid(st, EnvPayload(req), o.now, o.traceSuffix, o.envSuffix);
    var (ctx, st') := Trace.CreateEnv(st, EnvPayload(req), o.now, o.traceSuffix, o.envSuffix).value;
    Trace.StepPreservesValid(st', ctx, Trace.Receive, Trace.Enter, None, o.now);
    var enter := Trace.Step(st', ctx, Trace.Receive, Trace.Enter, None, o.now);
    if enter.result.Ok? {
      ReceivedPreservesValid(enter.store, enter.result.value, req, pathname, svc, o);
    }
  }

  lemma ReceivedPreservesValid(st: Trace.TraceStore, ctx: Trace.Context, req: Request, pathname: string,
                               svc: Services, o: Oracle)
    requires Trace.Valid(st)
    ensures Trace.Valid(Received(st, ctx, req, pathname, svc, o).store)
  {
    match ReadBody(req, svc.codec, svc.form)
    case None =>
      ParseFailedPreservesValid(st, ctx, o.parseError, o.now);
    case Some(payload) =>
      Trace.StepPreservesValid(st, ctx, Trace.Receive, Trace.Exit, None, o.now);
      var exit := Trace.Step(st, ctx, Trace.Receive, Trace.Exit, None, o.now);
      if exit.result.Ok? {
        var data := Storage.EventData(req.url, req.verb, pathname, req.headers, payload, ContentType(req),
                                      o.elapsed, ClientIp(req), UserAgent(req));
        Storage.StoreEventPreservesValid(exit.store, exit.result.value, svc.db, data, svc.codec,
                                         Storage.StoreClock(o.now, o.eventSuffix, o.isoNow));
      } else {
        ParseFailedPreservesValid(exit.store, ctx, "step refused", o.now);
      }
  }

  lemma ParseFailedPreservesValid(st: Trace.TraceStore, ctx: Trace.Context, reason: string, now: int)
    requires Trace.Valid(st)
    ensures Trace.Valid(ParseFailed(st, ctx, reason, now).store)
  {
    var meta := map["error_code" := JStr("PARSE_FAILED"), "reason" := JStr(reason)];
    Trace.StepPreservesValid(st, ctx, Trace.Receive, Trace.Error, Some(meta), now);
  }

  /** The whole handler keeps the trace store consistent under a fresh trace id. */
  lemma HandleWebhookPreservesValid(w: World, req: Request, pathname: string, svc: Services, o: Oracle)
    requires Trace.Valid(w.trace)
    requires Trace.TraceIdOf(o.traceSuffix) !in w.trace.states
    ensures Trace.Valid(HandleWebhook(w, req, pathname, svc, o).world.trace)
  {
    IngestPreservesValid(w.trace, req, pathname, svc, o);
  }

  // ---------------------------------------------------------------- sockets

  /** `webSocketClose` / `webSocketError` */
  function Disconnect(s: ReceiverState, socket: nat): (s': ReceiverState)
    ensures socket !in s'.sessions && s'.sessions == s.sessions - {socket} && s'.counts == s.counts
  {
    s.(sessions := s.sessions - {socket})
  }

  /** The events a new socket is sent: the newest 50 of the path, or `None`
      when the query or the decoding of any row throws. */
  function LoadHistory(db: Storage.Database, codec: Codec, pathname: string): Option<seq<Json>> {
    match Storage.QueryEvents(db, HistoryOptions(pathname))
    case Err(_) => None
    case Ok(rows) => FormatAll(rows, codec)
  }

  function HistoryOptions(pathname: string): Storage.QueryOptions {
    Storage.QueryOptions(Some(pathname), None, Some(Int(50)), Some(Int(0)))
  }

  /** A stored row as the event the client expects; `None` when its stored
      headers or payload do not parse. */
  function FormatRow(e: Storage.StoredEvent, codec: Codec): Option<Json> {
    var headers := codec.parse(e.headers);
    var payload := codec.parse(e.payload);
    if headers.None? || payload.None? then None
    else Some(JObj(map["id" := JStr(e.id), "trace_id" := JStr(e.traceId), "timestamp" := JStr(e.timestamp),
                       "method" := JStr(e.verb), "headers" := headers.value, "payload" := payload.value,
                       "path" := JStr(e.pathname),
                       "ip" := OptStr(e.ip).GetOr(JNull), "user_agent" := OptStr(e.userAgent).GetOr(JNull)]))
  }

  /** `rows.map(format)`, which throws at the first row that does not parse. */
  function FormatAll(rows: seq<Storage.StoredEvent>, codec: Codec): (r: Option<seq<Json>>)
    ensures r.Some? <==> forall i :: 0 <= i < |rows| ==> FormatRow(rows[i], codec).Some?
    ensures r.Some? ==> |r.value| == |rows| && forall i :: 0 <= i < |rows| ==> r.value[i] == FormatRow(rows[i], codec).value
    decreases |rows|
  {
    if |rows| == 0 then Some([])
    else
      var head := FormatRow(rows[0], codec);
      var tail := FormatAll(rows[1..], codec);
      if head.None? || tail.None? then
        assert head.None? ==> FormatRow(rows[0], codec).None?;
        assert tail.None? ==> exists i :: 0 <= i < |rows[1..]| && FormatRow(rows[1..][i], codec).None?;
        None
      else Some([head.value] + tail.value)
  }

  function HistoryMessage(events: seq<Json>): Json {
    JObj(map["type" := JStr("history"), "events" := JArr(events)])
  }

  const SWITCHING_PROTOCOLS: Response := Response(101, map[], NoBody)

  /** What opening a socket leaves: the outcome, the state, and the history
      message the socket was actually sent, if any. */
  datatype Connected = Connected(outcome: Outcome, state: ReceiverState, sent: Option<Json>)

  /** `handleWebSocket`: the server socket joins the sessions first. The
      history is then sent, or the empty history when loading or sending it
      throws; that second `send` is outside any `try`, so if it throws too the
      error escapes and there is no 101. `historySendOk` says whether the
      first `send` returns, `fallbackSendOk` whether the one in the `catch`
      does after a failed first one. */
  function HandleWebSocket(s: ReceiverState, socket: nat, pathname: string, svc: Services,
                           historySendOk: bool, fallbackSendOk: bool): (c: Connected)
    ensures c.state.sessions == s.sessions + {socket} && c.state.counts == s.counts
    ensures var h := LoadHistory(svc.db, svc.codec, pathname);
      && (h.Some? && historySendOk ==>
            c.outcome == Reply(SWITCHING_PROTOCOLS) && c.sent == Some(HistoryMessage(h.value)))
      && (h.Some? && !historySendOk && fallbackSendOk ==>
            c.outcome == Reply(SWITCHING_PROTOCOLS) && c.sent == Some(HistoryMessage([])))
      && (h.None? && historySendOk ==>
            c.outcome == Reply(SWITCHING_PROTOCOLS) && c.sent == Some(HistoryMessage([])))
      && (h.Some? && !historySendOk && !fallbackSendOk ==> c.outcome.Uncaught? && c.sent.None?)
      && (h.None? && !historySendOk ==> c.outcome.Uncaught? && c.sent.None?)
  {
    var joined := s.(sessions := s.sessions + {socket});
    var history := LoadHistory(svc.db, svc.codec, pathname);
    // The `try` succeeds only when loading and its `send` both do; when
    // loading throws, the `send` in the `catch` is the first one attempted.
    var tried := if history.Some? && historySendOk then Some(HistoryMessage(history.value)) else None;
    var catchSendOk := if history.Some? then fallbackSendOk else historySendOk;
    var sent := if tried.Some? then tried else if catchSendOk then Some(HistoryMessage([])) else None;
    Connected(if sent.Some? then Reply(SWITCHING_PROTOCOLS) else Uncaught, joined, sent)
  }

  /** The upgrade is answered exactly when a history message reached the
      socket, and it fails exactly when the first `send` throws and there is
      no successful second one. */
  lemma AnsweredIffHistoryDelivered(s: ReceiverState, socket: nat, pathname: string, svc: Services,
                                    historySendOk: bool, fallbackSendOk: bool)
    ensures var c := HandleWebSocket(s, socket, pathname, svc, historySendOk, fallbackSendOk);
      && (c.outcome.Reply? <==> c.sent.Some?)
      && (c.outcome.Uncaught? <==>
            !historySendOk && (LoadHistory(svc.db, svc.codec, pathname).None? || !fallbackSendOk))
      && (c.sent.Some? ==> Get(c.sent.value, "type") == Some(JStr("history")))
  {
  }

  /** The history holds at most the rows of one page of the path's events,
      and loading fails when the query or any row's decoding does. */
  lemma HistoryIsOnePage(db: Storage.Database, codec: Codec, pathname: string)
    ensures var q := Storage.BuildQuery(HistoryOptions(pathname));
      && q.params == (if pathname != "" then [Storage.PText(pathname)] else []) + [Storage.PNum(Int(50)), Storage.PNum(Int(0))]
      && (db.query(q).QueryThrew? ==> LoadHistory(db, codec, pathname).None?)
      && (db.query(q).Rows? && db.query(q).results.Some? ==>
            LoadHistory(db, codec, pathname) == FormatAll(db.query(q).results.value, codec))
  {
    Storage.QueryShapes(HistoryOptions(pathname));
  }

  /** A socket that connects and then closes leaves the session set as it
      was, whether or not the upgrade was answered. */
  lemma ConnectThenCloseRestoresSessions(s: ReceiverState, socket: nat, pathname: string, svc: Services,
                                         historySendOk: bool, fallbackSendOk: bool)
    requires socket !in s.sessions
    ensures Disconnect(HandleWebSocket(s, socket, pathname, svc, historySendOk, fallbackSendOk).state, socket) == s
  {
  }

  // ---------------------------------------------------------------- dispatch

  datatype Routed = Routed(outcome: Outcome, world: World, sent: Option<Json>, broadcast: Option<Json>)

  const PREFLIGHT: Response := Response(204, map["Access-Control-Allow-Origin" := "*",
                                                 "Access-Control-Allow-Methods" := "GET, POST, OPTIONS",
                                                 "Access-Control-Allow-Headers" := "Content-Type"], NoBody)

  /** `WebhookReceiver.fetch`: preflight, socket upgrade, webhook POST, and
      405 for anything else, in that order. */
  function Fetch(w: World, req: Request, socket: nat, svc: Services, o: Oracle): (r: Routed)
    ensures req.verb == "OPTIONS" ==> r.outcome == Reply(PREFLIGHT) && r.world == w
    ensures req.verb != "OPTIONS" && IsWebSocketUpgrade(req) ==>
      && r.world.receiver.sessions == w.receiver.sessions + {socket}
      && (r.outcome.Reply? <==> r.sent.Some?)
      && (r.outcome.Reply? ==> r.outcome.response.status == 101)
      && (o.historySendOk ==> r.outcome.Reply?)
    ensures req.verb != "OPTIONS" && !IsWebSocketUpgrade(req) && req.verb != "POST" ==>
      r.outcome == Reply(TextReply(405, "Method not allowed")) && r.world == w
    ensures req.verb == "POST" && !IsWebSocketUpgrade(req) ==>
      r.outcome == HandleWebhook(w, req, req.pathname, svc, o).outcome
  {
    if req.verb == "OPTIONS" then Routed(Reply(PREFLIGHT), w, None, None)
    else if IsWebSocketUpgrade(req) then
      var c := HandleWebSocket(w.receiver, socket, req.pathname, svc, o.historySendOk, o.fallbackSendOk);
      Routed(c.outcome, w.(receiver := c.state), c.sent, None)
    else if req.verb == "POST" then
      var h := HandleWebhook(w, req, req.pathname, svc, o);
      Routed(h.outcome, h.world, None, h.broadcast)
    else Routed(Reply(TextReply(405, "Method not allowed")), w, None, None)
  }
}
