/** The page's webhook state (useWebhookData.ts): the nine-digit slug, where it
    comes from and where it is kept, the decision to switch to a new slug
    after a probe of the rate limit, and the selected event. `Math.random`,
    `localStorage` and the probe's answer are parameters. */
module WebhookData {
  import opened Wrappers
  import opened Json
  import opened Strings
  import Notifications

  const STORAGE_KEY: string := "pothook_slug"
  const SLUG_CHARS: string := "0123456789"
  const SLUG_LENGTH: nat := 9
  const PROBE_WARNING_MS: int := 8000

  // ------------------------------------------------------------------ slugs

  /** `chars.charAt(i)`: the empty string outside the text. */
  function CharAt(s: string, i: int): (r: string)
    ensures 0 <= i < |s| ==> r == [s[i]]
    ensures !(0 <= i < |s|) ==> r == ""
  {
    if 0 <= i < |s| then [s[i]] else ""
  }

  /** The index one draw of `Math.random()` picks: `Math.floor(r * 10)`. */
  function DrawIndex(r: real): int {
    (r * 10.0).Floor
  }

  /** The slug generator of both `generateInitialSlug` and `generateSlug`:
      nine draws, each picking one decimal digit. Since `Math.random()` lies
      in [0, 1) every pick is in range, so the slug is exactly nine digits. */
  method GenerateSlug(draws: seq<real>) returns (slug: string)
    requires |draws| >= SLUG_LENGTH
    requires forall i :: 0 <= i < |draws| ==> 0.0 <= draws[i] < 1.0
    ensures |slug| == SLUG_LENGTH
    ensures forall i :: 0 <= i < SLUG_LENGTH ==> IsDigit(slug[i]) && slug[i] == SLUG_CHARS[DrawIndex(draws[i])]
  {
    slug := "";
    var i := 0;
    while i < SLUG_LENGTH
      invariant 0 <= i <= SLUG_LENGTH
      invariant |slug| == i
      invariant forall j :: 0 <= j < i ==> IsDigit(slug[j]) && slug[j] == SLUG_CHARS[DrawIndex(draws[j])]
    {
      var k := DrawIndex(draws[i]);
      assert 0 <= k < 10;
      slug := slug + CharAt(SLUG_CHARS, k);
      i := i + 1;
    }
  }

  /** The slug on mount: the saved one unless it is missing or empty. */
  function InitialSlug(saved: Option<string>, generated: string): (slug: string)
    ensures HasText(saved) ==> slug == saved.value
    ensures !HasText(saved) ==> slug == generated
  {
    if HasText(saved) then saved.value else generated
  }

  /** The persisting effect: a non-empty slug is written under the key;
      nothing else in the storage changes. */
  function Persist(storage: map<string, string>, slug: string): (s: map<string, string>)
    ensures slug != "" ==> STORAGE_KEY in s && s[STORAGE_KEY] == slug
    ensures slug == "" ==> s == storage
    ensures forall k :: k != STORAGE_KEY ==> (k in s <==> k in storage)
    ensures forall k :: k in storage && k != STORAGE_KEY ==> s[k] == storage[k]
  {
    if slug != "" then storage[STORAGE_KEY := slug] else storage
  }

  /** `localStorage.getItem(key)`: `None` is `null`. */
  function Load(storage: map<string, string>): (saved: Option<string>)
    ensures saved.Some? <==> STORAGE_KEY in storage
  {
    if STORAGE_KEY in storage then Some(storage[STORAGE_KEY]) else None
  }

  /** A slug in use is the one the next visit starts with. */
  lemma PersistedSlugIsRestored(storage: map<string, string>, slug: string, generated: string)
    requires slug != ""
    ensures InitialSlug(Load(Persist(storage, slug)), generated) == slug
  {
  }

  /** Storage that never held a slug yields a freshly generated one. */
  lemma FirstVisitGenerates(storage: map<string, string>, generated: string)
    requires STORAGE_KEY !in storage
    ensures InitialSlug(Load(storage), generated) == generated
  {
  }

  // -------------------------------------------------------- switching slugs

  /** The answer of the probe POST to `/h/{newSlug}`: a status and a body, or
      a thrown `fetch`. */
  datatype Probe = Answered(status: int, body: string) | ProbeThrew

  datatype View = View(slug: string, selected: int, notifications: seq<Notification>)

  type Notification = Notifications.Notification

  /** `errorData.message || errorData.error` on a parsed, non-null body. */
  function WarningText(errorData: Json): (m: Option<Json>)
    ensures Get(errorData, "message").Some? && Truthy(Get(errorData, "message").value) ==> m == Get(errorData, "message")
    ensures !(Get(errorData, "message").Some? && Truthy(Get(errorData, "message").value)) ==> m == Get(errorData, "error")
  {
    var message := Get(errorData, "message");
    if message.Some? && Truthy(message.value) then message else Get(errorData, "error")
  }

  /** The error body of a refused probe, when reading it does not throw:
      `response.json()` must parse and the value must not be `null`. */
  function RefusalBody(probe: Probe, parse: string -> Option<Json>): (r: Option<Json>)
    ensures r.Some? <==> probe.Answered? && probe.status == 429 && parse(probe.body).Some? && parse(probe.body).value != JNull
    ensures r.Some? ==> r == parse(probe.body)
  {
    if probe.Answered? && probe.status == 429 then
      match parse(probe.body)
      case Some(errorData) => if errorData != JNull then Some(errorData) else None
      case None => None
    else None
  }

  /** `generateSlug` after its slug is drawn: a 429 whose body can be read
      raises a warning for eight seconds and keeps the slug; anything else,
      a thrown probe or an unreadable refusal included, switches to the new
      slug and selects the newest event. */
  function SwitchSlug(v: View, newSlug: string, probe: Probe, parse: string -> Option<Json>,
                      now: nat, random: string): (v': View)
  {
    match RefusalBody(probe, parse)
    case Some(errorData) =>
      var shown := Notifications.Show(v.notifications, Notifications.Warning, WarningText(errorData),
                                      Some(PROBE_WARNING_MS), now, random);
      v.(notifications := shown.list)
    case None => View(newSlug, 0, v.notifications)
  }

  /** The slug changes exactly when the probe is not a readable refusal; a
      kept slug comes with one warning appended, and a switch leaves the
      toasts alone. */
  lemma SwitchUnlessRefused(v: View, newSlug: string, probe: Probe, parse: string -> Option<Json>,
                            now: nat, random: string)
    ensures var v' := SwitchSlug(v, newSlug, probe, parse, now, random);
      var refused := probe.Answered? && probe.status == 429 && parse(probe.body).Some? && parse(probe.body).value != JNull;
      && (!refused ==> v' == View(newSlug, 0, v.notifications))
      && (refused ==>
            && v'.slug == v.slug && v'.selected == v.selected
            && |v'.notifications| == |v.notifications| + 1
            && v'.notifications[..|v.notifications|] == v.notifications
            && v'.notifications[|v.notifications|].kind == Notifications.Warning
            && v'.notifications[|v.notifications|].message == WarningText(parse(probe.body).value)
            && v'.notifications[|v.notifications|].duration == PROBE_WARNING_MS)
  {
  }

  /** A probe that throws never blocks the switch. */
  lemma ThrownProbeSwitches(v: View, newSlug: string, parse: string -> Option<Json>, now: nat, random: string)
    ensures SwitchSlug(v, newSlug, ProbeThrew, parse, now, random).slug == newSlug
  {
  }

  // --------------------------------------------------------------- selection

  /** `events[selectedEventIndex] || null` */
  function SelectedEvent(events: seq<Json>, index: int): (e: Option<Json>)
    ensures e.Some? <==> 0 <= index < |events| && Truthy(events[index])
    ensures e.Some? ==> e.value == events[index]
  {
    if 0 <= index < |events| && Truthy(events[index]) then Some(events[index]) else None
  }

  /** After a switch the newest event of the new feed is selected once it
      arrives. */
  lemma SwitchSelectsNewest(v: View, newSlug: string, probe: Probe, parse: string -> Option<Json>,
                            now: nat, random: string, events: seq<Json>)
    requires RefusalBody(probe, parse).None?
    requires |events| > 0 && Truthy(events[0])
    ensures SelectedEvent(events, SwitchSlug(v, newSlug, probe, parse, now, random).selected) == Some(events[0])
  {
  }
}
