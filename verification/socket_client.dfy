/** The browser side of the live feed (useWebSocket.ts): the event list the
    socket's messages build, the connection flags, and the reconnect schedule
    with exponential backoff. Each handler of the hook is a transition of
    `Client`; whether `new WebSocket` throws is a parameter. */
module SocketClient {
  import opened Wrappers
  import opened Json

  const NORMAL_CLOSURE: int := 1000
  const BASE_DELAY: nat := 1000
  const MAX_DELAY: nat := 30000

  /** A pending reconnect: the handle `setTimeout` returned, its delay and the
      slug it will reconnect to. */
  datatype Timer = Timer(id: nat, delay: nat, slug: string)

  /** The hook's state and refs: the current slug, the events (newest first),
      `connected`, `error`, the attempt counter, the slug the socket in
      `wsRef` targets, every reconnect still pending (in the order they were
      scheduled), the handle `reconnectTimeoutRef` holds, and the handle the
      next `setTimeout` returns. */
  datatype Client = Client(
    slug: string,
    events: seq<Json>,
    connected: bool,
    error: Option<string>,
    attempts: nat,
    socket: Option<string>,
    pending: seq<Timer>,
    timerRef: Option<nat>,
    nextTimer: nat)

  // ---------------------------------------------------------------- backoff

  function Pow2(n: nat): (p: nat)
    ensures p >= 1
  {
    if n == 0 then 1 else 2 * Pow2(n - 1)
  }

  /** `Math.min(1000 * Math.pow(2, attempt), 30000)` */
  function Backoff(attempt: nat): (d: nat)
    ensures BASE_DELAY <= d <= MAX_DELAY
    ensures d == MAX_DELAY || d == BASE_DELAY * Pow2(attempt)
  {
    var raw := BASE_DELAY * Pow2(attempt);
    if raw < MAX_DELAY then raw else MAX_DELAY
  }

  lemma {:induction false} Pow2Monotone(a: nat, b: nat)
    requires a <= b
    ensures Pow2(a) <= Pow2(b)
    decreases b
  {
    if a < b {
      Pow2Monotone(a, b - 1);
    }
  }

  /** Waiting never shrinks as attempts accumulate. */
  lemma BackoffMonotone(a: nat, b: nat)
    requires a <= b
    ensures Backoff(a) <= Backoff(b)
  {
    Pow2Monotone(a, b);
  }

  /** Each further attempt doubles the wait until it reaches the cap, and from
      the sixth attempt on the wait is the cap. */
  lemma BackoffDoublesUpToCap(a: nat)
    ensures Backoff(a + 1) == if 2 * Backoff(a) < MAX_DELAY then 2 * Backoff(a) else MAX_DELAY
    ensures a >= 5 ==> Backoff(a) == MAX_DELAY
  {
    assert Pow2(a + 1) == 2 * Pow2(a);
    if a >= 5 {
      Pow2Monotone(5, a);
      assert Pow2(5) == 32;
    }
  }

  // ---------------------------------------------------------------- reducer

  /** A `history` message: an object whose `type` is the string "history". */
  predicate IsHistory(data: Json) {
    Get(data, "type") == Some(JStr("history"))
  }

  /** The list after one parsed message. Reading `type` of `null`, or the
      length of a history message's missing or null `events`, throws inside
      the handler's `try`, so the list stays as it was. */
  function Apply(events: seq<Json>, data: Json): (r: seq<Json>)
    ensures data == JNull ==> r == events
    ensures data != JNull && !IsHistory(data) ==> |r| == |events| + 1 && r[0] == data && r[1..] == events
    ensures IsHistory(data) ==>
      (if Get(data, "events").Some? && Get(data, "events").value.JArr?
       then r == Get(data, "events").value.items else r == events)
  {
    if data == JNull then events
    else if IsHistory(data) then
      match Get(data, "events")
      case Some(JArr(items)) => items
      case _ => events
    else [data] + events
  }

  /** The `message` listener: a message that does not parse changes nothing. */
  function Receive(c: Client, text: string, parse: string -> Option<Json>): (c': Client)
    ensures c'.(events := c.events) == c
    ensures parse(text).None? ==> c' == c
    ensures parse(text).Some? ==> c'.events == Apply(c.events, parse(text).value)
  {
    match parse(text)
    case None => c
    case Some(data) => c.(events := Apply(c.events, data))
  }

  /** The list after a run of parsed messages, in arrival order. */
  function ApplyAll(events: seq<Json>, msgs: seq<Json>): seq<Json>
    decreases |msgs|
  {
    if |msgs| == 0 then events else ApplyAll(Apply(events, msgs[0]), msgs[1..])
  }

  function Reverse<T>(s: seq<T>): (r: seq<T>)
    ensures |r| == |s|
  {
    if |s| == 0 then [] else Reverse(s[1..]) + [s[0]]
  }

  predicate IsBroadcast(data: Json) {
    data != JNull && !IsHistory(data)
  }

  /** Broadcasts are kept newest first: after a run of them the list is the
      run reversed in front of what was there. */
  lemma {:induction false} BroadcastsPrependNewestFirst(events: seq<Json>, msgs: seq<Json>)
    requires forall i :: 0 <= i < |msgs| ==> IsBroadcast(msgs[i])
    ensures ApplyAll(events, msgs) == Reverse(msgs) + events
    decreases |msgs|
  {
    if |msgs| > 0 {
      var head := [msgs[0]] + events;
      var rest := msgs[1..];
      assert forall i :: 0 <= i < |rest| ==> IsBroadcast(rest[i]) by {
        forall i | 0 <= i < |rest| ensures IsBroadcast(rest[i]) {
          assert rest[i] == msgs[i + 1];
        }
      }
      PrependBroadcast(events, msgs[0]);
      assert ApplyAll(events, msgs) == ApplyAll(head, rest);
      BroadcastsPrependNewestFirst(head, rest);
      assert Reverse(msgs) == Reverse(rest) + [msgs[0]];
      AppendAssoc(Reverse(rest), [msgs[0]], events);
    }
  }

  lemma AppendAssoc<T>(a: seq<T>, b: seq<T>, c: seq<T>)
    ensures a + (b + c) == (a + b) + c
  {
  }

  lemma PrependBroadcast(events: seq<Json>, data: Json)
    requires IsBroadcast(data)
    ensures Apply(events, data) == [data] + events
  {
  }

  /** A history message forgets everything received before it. */
  lemma HistoryResetsTheList(before: seq<Json>, other: seq<Json>, history: seq<Json>, rest: seq<Json>)
    ensures var h := JObj(map["type" := JStr("history"), "events" := JArr(history)]);
      ApplyAll(before, [h] + rest) == ApplyAll(other, [h] + rest)
  {
    var h := JObj(map["type" := JStr("history"), "events" := JArr(history)]);
    assert ([h] + rest)[1..] == rest;
    assert Apply(before, h) == history == Apply(other, h);
  }

  // ------------------------------------------------------------- connection

  /** `connect(targetSlug)`: nothing for an empty slug; otherwise a socket to
      `/h/{targetSlug}` is kept in the ref, unless creating it throws. */
  function Connect(c: Client, target: string, created: bool): (c': Client)
    ensures target == "" ==> c' == c
    ensures target != "" && created ==> c' == c.(socket := Some(target))
    ensures target != "" && !created ==>
      c' == c.(error := Some("Failed to connect"), connected := false)
  {
    if target == "" then c
    else if !created then c.(error := Some("Failed to connect"), connected := false)
    else c.(socket := Some(target))
  }

  /** The `open` listener. */
  function Opened(c: Client): (c': Client)
    ensures c'.connected && c'.error.None? && c'.attempts == 0
    ensures c'.events == c.events && c'.slug == c.slug && c'.socket == c.socket
    ensures c'.pending == c.pending && c'.timerRef == c.timerRef && c'.nextTimer == c.nextTimer
  {
    c.(connected := true, error := None, attempts := 0)
  }

  /** The `error` listener. */
  function Errored(c: Client): (c': Client)
    ensures c' == c.(error := Some("Connection error"))
  {
    c.(error := Some("Connection error"))
  }

  /** The `close` listener of a socket opened for `target`: always
      disconnected and the ref cleared; a reconnect is scheduled only for an
      abnormal close while the hook still shows `target`. Its handle
      overwrites the one in the ref, and a reconnect pending before stays
      pending. */
  function Closed(c: Client, code: int, target: string): (c': Client)
    ensures !c'.connected && c'.socket.None?
    ensures c'.events == c.events && c'.slug == c.slug && c'.attempts == c.attempts && c'.error == c.error
    ensures code == NORMAL_CLOSURE || c.slug != target ==>
      c'.pending == c.pending && c'.timerRef == c.timerRef && c'.nextTimer == c.nextTimer
    ensures code != NORMAL_CLOSURE && c.slug == target ==>
      && c'.pending == c.pending + [Timer(c.nextTimer, Backoff(c.attempts), target)]
      && c'.timerRef == Some(c.nextTimer) && c'.nextTimer == c.nextTimer + 1
  {
    var down := c.(connected := false, socket := None);
    if code == NORMAL_CLOSURE then down
    else if c.slug == target then
      down.(pending := c.pending + [Timer(c.nextTimer, Backoff(c.attempts), target)],
            timerRef := Some(c.nextTimer), nextTimer := c.nextTimer + 1)
    else down
  }

  /** The pending timers without the one at position `k`. */
  function Without(pending: seq<Timer>, k: nat): (r: seq<Timer>)
    requires k < |pending|
    ensures |r| == |pending| - 1
    ensures forall t :: t in r ==> t in pending
  {
    pending[..k] + pending[k + 1..]
  }

  /** The `k`-th pending timer firing: one more attempt, then `connect` to the
      slug it was scheduled for. The ref keeps its handle. */
  function TimerFired(c: Client, k: int, created: bool): (c': Client)
    ensures !(0 <= k < |c.pending|) ==> c' == c
    ensures 0 <= k < |c.pending| ==>
      && c'.attempts == c.attempts + 1 && c'.pending == Without(c.pending, k)
      && c'.events == c.events && c'.slug == c.slug && c'.timerRef == c.timerRef
    ensures 0 <= k < |c.pending| && c.pending[k].slug != "" && created ==> c'.socket == Some(c.pending[k].slug)
  {
    if 0 <= k < |c.pending| then
      Connect(c.(attempts := c.attempts + 1, pending := Without(c.pending, k)), c.pending[k].slug, created)
    else c
  }

  /** `clearTimeout(handle)`: the timer with that handle no longer fires;
      a handle that is absent or already fired changes nothing. */
  function Cancel(pending: seq<Timer>, handle: Option<nat>): (r: seq<Timer>)
    ensures forall t :: t in r <==> t in pending && Some(t.id) != handle
    decreases |pending|
  {
    if |pending| == 0 then []
    else
      var rest := Cancel(pending[1..], handle);
      assert forall t :: t in pending <==> t == pending[0] || t in pending[1..];
      if Some(pending[0].id) == handle then rest else [pending[0]] + rest
  }

  /** The slug effect with the reconnects `kept` still pending: the old
      socket is closed with code 1000 (reported in the second component),
      the ref is cleared, the state reset, and the new slug connected. */
  function SwitchTo(c: Client, slug: string, created: bool, kept: seq<Timer>): (r: (Client, bool))
    ensures r.1 <==> c.socket.Some?
    ensures var c' := r.0;
      && c'.slug == slug && c'.events == [] && !c'.connected && c'.attempts == 0
      && c'.pending == kept && c'.timerRef.None? && c'.nextTimer == c.nextTimer
      && (slug != "" && created ==> c'.socket == Some(slug) && c'.error.None?)
      && (slug != "" && !created ==> c'.socket.None? && c'.error == Some("Failed to connect"))
      && (slug == "" ==> c'.socket.None? && c'.error.None?)
  {
    var reset := Client(slug, [], false, None, 0, None, kept, None, c.nextTimer);
    (Connect(reset, slug, created), c.socket.Some?)
  }

  /** The slug effect as written: only the reconnect whose handle is in the
      ref is cancelled; any reconnect scheduled before it stays pending. */
  function ChangeSlug(c: Client, slug: string, created: bool): (r: (Client, bool))
    ensures r.1 <==> c.socket.Some?
    ensures var c' := r.0;
      && c'.slug == slug && c'.events == [] && !c'.connected && c'.attempts == 0 && c'.timerRef.None?
      && (forall t :: t in c'.pending <==> t in c.pending && Some(t.id) != c.timerRef)
      && (slug != "" && created ==> c'.socket == Some(slug) && c'.error.None?)
      && (slug != "" && !created ==> c'.socket.None? && c'.error == Some("Failed to connect"))
      && (slug == "" ==> c'.socket.None? && c'.error.None?)
  {
    SwitchTo(c, slug, created, Cancel(c.pending, c.timerRef))
  }

  /** The slug effect corrected: every pending reconnect is cancelled. */
  function ChangeSlugCorrected(c: Client, slug: string, created: bool): (r: (Client, bool))
    ensures r.0.pending == [] && r.0.slug == slug
  {
    SwitchTo(c, slug, created, [])
  }

  /** `reconnect()`: connect again to the current slug. The socket already
      open, if any, is not closed, and the schedule is left alone. */
  function Reconnect(c: Client, created: bool): (c': Client)
    ensures c.slug != "" && created ==> c'.socket == Some(c.slug)
    ensures c'.events == c.events && c'.attempts == c.attempts
    ensures c'.pending == c.pending && c'.timerRef == c.timerRef && c'.nextTimer == c.nextTimer
  {
    Connect(c, c.slug, created)
  }

  // ------------------------------------------------------------- properties

  /** A socket that was closed because the slug changed never schedules a
      reconnect: its close carries code 1000, and even an abnormal close
      names a slug the hook no longer shows. */
  lemma OldSocketNeverReconnects(c: Client, slug: string, created: bool, code: int)
    requires c.socket.Some? && c.socket.value != slug
    ensures var (c', _) := ChangeSlug(c, slug, created);
      Closed(c', code, c.socket.value).pending == c'.pending
  {
  }

  /** One failed round: an abnormal close, then the timer it scheduled firing. */
  function Retry(c: Client, code: int): Client {
    var down := Closed(c, code, c.slug);
    TimerFired(down, |down.pending| - 1, true)
  }

  function Retries(c: Client, code: int, k: nat): Client
    decreases k
  {
    if k == 0 then c else Retries(Retry(c, code), code, k - 1)
  }

  /** Connections that keep failing are retried with waits that grow with
      the attempt count: after `k` failed rounds the counter is `k` higher,
      the list, slug and other pending reconnects are untouched, and the
      next wait is `Backoff` of the new count, never shorter than any
      earlier one. */
  lemma {:induction false} RetriesBackOff(c: Client, code: int, k: nat)
    requires code != NORMAL_CLOSURE
    ensures var r := Retries(c, code, k);
      && r.attempts == c.attempts + k
      && r.slug == c.slug && r.events == c.events && r.pending == c.pending
      && r.nextTimer == c.nextTimer + k
      && (c.slug != "" && k > 0 ==> r.socket == Some(c.slug))
      && Closed(r, code, c.slug).pending == c.pending + [Timer(r.nextTimer, Backoff(c.attempts + k), c.slug)]
      && Backoff(c.attempts) <= Backoff(c.attempts + k)
    decreases k
  {
    BackoffMonotone(c.attempts, c.attempts + k);
    if k > 0 {
      var down := Closed(c, code, c.slug);
      assert Without(down.pending, |down.pending| - 1) == c.pending;
      var once := Retry(c, code);
      assert once.attempts == c.attempts + 1 && once.slug == c.slug && once.events == c.events;
      assert once.pending == c.pending && once.nextTimer == c.nextTimer + 1;
      RetriesBackOff(once, code, k - 1);
    }
  }

  /** A successful open resets the schedule: the next abnormal close waits
      the base delay again. */
  lemma OpenRestartsBackoff(c: Client, code: int)
    requires code != NORMAL_CLOSURE
    ensures Closed(Opened(c), code, c.slug).pending == c.pending + [Timer(c.nextTimer, BASE_DELAY, c.slug)]
  {
  }

  // ------------------------------------------------- the stale reconnect

  /** As written, a reconnect scheduled before the one in the ref outlives a
      slug change: a manual `reconnect()` while a reconnect is pending, an
      abnormal close of that socket, a switch to slug "b", and the first
      timer firing leave the hook showing "b" with its socket on "a". */
  lemma StaleReconnectRevivesOldSlug()
    ensures var start := Client("a", [], false, None, 0, Some("a"), [], None, 1);
      var first := Closed(start, 1006, "a");
      var second := Closed(Reconnect(first, true), 1006, "a");
      var (switched, _) := ChangeSlug(second, "b", true);
      var fired := TimerFired(switched, 0, true);
      && |first.pending| == 1 && |second.pending| == 2
      && switched.pending == [Timer(1, BASE_DELAY, "a")]
      && fired.slug == "b" && fired.socket == Some("a")
  {
    var start := Client("a", [], false, None, 0, Some("a"), [], None, 1);
    var first := Closed(start, 1006, "a");
    var second := Closed(Reconnect(first, true), 1006, "a");
    assert second.pending == [Timer(1, BASE_DELAY, "a"), Timer(2, BASE_DELAY, "a")];
    assert second.timerRef == Some(2);
    var (switched, _) := ChangeSlug(second, "b", true);
    assert second.pending[1..] == [Timer(2, BASE_DELAY, "a")];
    assert Cancel(second.pending[1..], Some(2)) == [];
  }

  /** Corrected, a slug change leaves nothing pending, so no timer can
      reconnect the old slug afterwards. */
  lemma CorrectedChangeSlugCancelsAll(c: Client, slug: string, created: bool, k: int, createdLater: bool)
    ensures var (c', _) := ChangeSlugCorrected(c, slug, created);
      && c'.pending == [] && c'.slug == slug
      && TimerFired(c', k, createdLater) == c'
      && (slug != "" && created ==> c'.socket == Some(slug))
  {
  }
}
