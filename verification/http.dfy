/** The slice of the Fetch API the engine uses: a request with lower-cased
    header names, a response with status, headers and body, and the outcome of
    a handler, which either replies or lets an exception escape. */
module Http {
  import opened Wrappers
  import opened Json
  import Strings

  datatype Request = Request(
    verb: string,          // the HTTP method
    url: string,
    pathname: string,
    search: string,
    query: map<string, string>,   // `url.searchParams`, first value of each name
    headers: map<string, string>,
    body: string)

  datatype Body = NoBody | Text(text: string) | JsonBody(value: Json)

  datatype Response = Response(status: int, headers: map<string, string>, body: Body)

  /** `Uncaught` is an exception that leaves the handler; the platform turns it
      into a server error. */
  datatype Outcome = Reply(response: Response) | Uncaught

  /** `request.headers.get(name)`; `None` is `null`. */
  function Header(req: Request, name: string): Option<string> {
    if name in req.headers then Some(req.headers[name]) else None
  }

  /** `Upgrade: websocket` */
  predicate IsWebSocketUpgrade(req: Request) {
    Header(req, "upgrade") == Some("websocket")
  }

  /** `get('cf-connecting-ip') || get('x-forwarded-for') || undefined` */
  function ClientIp(req: Request): (r: Option<string>)
    ensures r.Some? ==> r.value != ""
    ensures Strings.HasText(Header(req, "cf-connecting-ip")) ==> r == Header(req, "cf-connecting-ip")
    ensures !Strings.HasText(Header(req, "cf-connecting-ip")) ==>
      (if Strings.HasText(Header(req, "x-forwarded-for")) then r == Header(req, "x-forwarded-for") else r == None)
  {
    var r := Strings.OrElse(Header(req, "cf-connecting-ip"), Header(req, "x-forwarded-for"));
    if Strings.HasText(r) then r else None
  }

  /** `get('user-agent') || undefined` */
  function UserAgent(req: Request): (r: Option<string>)
    ensures r.Some? ==> r.value != "" && r == Header(req, "user-agent")
  {
    var ua := Header(req, "user-agent");
    if Strings.HasText(ua) then ua else None
  }

  /** `get('content-type') || ''` */
  function ContentType(req: Request): string {
    Header(req, "content-type").GetOr("")
  }

  /** The environment payload every entry point hands to the trace guard:
      client IP and user agent when known, and all request headers. */
  function EnvPayload(req: Request): (p: Json)
    ensures p.JObj? && "headers" in p.fields
  {
    JObj(Put(Put(map["headers" := StringMap(req.headers)], "ip", OptStr(ClientIp(req))),
             "ua", OptStr(UserAgent(req))))
  }

  /** `url.searchParams.get(name) || undefined` */
  function QueryParam(req: Request, name: string): (r: Option<string>)
    ensures r.Some? <==> name in req.query && req.query[name] != ""
    ensures r.Some? ==> r.value == req.query[name]
  {
    if name in req.query && req.query[name] != "" then Some(req.query[name]) else None
  }

  /** How both ingestion paths read a body: JSON for a JSON content type, the
      form fields (`parseUrlEncoded`) for a form content type, otherwise JSON
      with a fallback to form fields. `None` is a JSON syntax error, which only
      the JSON content type can raise. */
  function ReadBody(req: Request, codec: Codec, form: string -> map<string, string>): (p: Option<Json>)
    ensures p.None? <==> Strings.Contains(ContentType(req), "application/json") && codec.parse(req.body).None?
    ensures Strings.Contains(ContentType(req), "application/json") ==> p == codec.parse(req.body)
  {
    var contentType := ContentType(req);
    if Strings.Contains(contentType, "application/json") then codec.parse(req.body)
    else if Strings.Contains(contentType, "application/x-www-form-urlencoded") then Some(StringMap(form(req.body)))
    else if codec.parse(req.body).Some? then codec.parse(req.body)
    else Some(StringMap(form(req.body)))
  }

  function JsonReply(status: int, fields: map<string, Json>): Response {
    Response(status, map[], JsonBody(JObj(fields)))
  }

  function TextReply(status: int, text: string): Response {
    Response(status, map[], Text(text))
  }
}
