/** The two text helpers of the request list (requests.tsx): how long ago an
    event arrived, in the largest whole unit that fits, and a one-line
    preview of its payload. The current time and the parsed event time are
    parameters; a timestamp `Date` cannot read is `None` (`NaN`). */
module RequestsView {
  import opened Wrappers
  import opened Json
  import opened Strings

  const MINUTE_MS: int := 60000
  const HOUR_MS: int := 3600000
  const DAY_MS: int := 86400000
  const PREVIEW_LENGTH: nat := 50
  const NO_BODY: string := "No body content"

  /** `formatTimeAgo`. With an unreadable timestamp every comparison with
      `NaN` fails and the last line renders `NaN` days. */
  function FormatTimeAgo(now: int, eventTime: Option<int>): (r: string)
    ensures eventTime.None? ==> r == "NaNd ago"
    ensures eventTime.Some? && now - eventTime.value < MINUTE_MS ==> r == "Just now"
  {
    match eventTime
    case None => "NaNd ago"
    case Some(t) =>
      var diff := now - t;
      if diff < MINUTE_MS then "Just now"
      else if diff < HOUR_MS then NatToString(diff / MINUTE_MS) + "m ago"
      else if diff < DAY_MS then NatToString(diff / HOUR_MS) + "h ago"
      else NatToString(diff / DAY_MS) + "d ago"
  }

  /** Between one minute and an hour the answer is the whole number of
      minutes elapsed, 1 to 59. */
  lemma MinutesAgo(now: int, t: int, m: nat)
    requires 1 <= m <= 59
    requires m * MINUTE_MS <= now - t < (m + 1) * MINUTE_MS
    ensures FormatTimeAgo(now, Some(t)) == NatToString(m) + "m ago"
  {
  }

  /** Between one hour and a day the answer is the whole number of hours
      elapsed, 1 to 23. */
  lemma HoursAgo(now: int, t: int, h: nat)
    requires 1 <= h <= 23
    requires h * HOUR_MS <= now - t < (h + 1) * HOUR_MS
    ensures FormatTimeAgo(now, Some(t)) == NatToString(h) + "h ago"
  {
  }

  /** From a day on the answer is the whole number of days elapsed. */
  lemma DaysAgo(now: int, t: int, d: nat)
    requires d >= 1
    requires d * DAY_MS <= now - t < (d + 1) * DAY_MS
    ensures FormatTimeAgo(now, Some(t)) == NatToString(d) + "d ago"
  {
  }

  /** Every readable timestamp falls in exactly one bucket, and the count
      shown is the largest whole number of the bucket's unit elapsed. */
  lemma EveryAgeHasOneBucket(now: int, t: int)
    ensures var diff := now - t;
      || (diff < MINUTE_MS && FormatTimeAgo(now, Some(t)) == "Just now")
      || (exists m: nat :: 1 <= m <= 59 && m * MINUTE_MS <= diff < (m + 1) * MINUTE_MS
            && FormatTimeAgo(now, Some(t)) == NatToString(m) + "m ago")
      || (exists h: nat :: 1 <= h <= 23 && h * HOUR_MS <= diff < (h + 1) * HOUR_MS
            && FormatTimeAgo(now, Some(t)) == NatToString(h) + "h ago")
      || (exists d: nat :: d >= 1 && d * DAY_MS <= diff < (d + 1) * DAY_MS
            && FormatTimeAgo(now, Some(t)) == NatToString(d) + "d ago")
  {
    var diff := now - t;
    if MINUTE_MS <= diff < HOUR_MS {
      var m: nat := diff / MINUTE_MS;
      MinutesAgo(now, t, m);
    } else if HOUR_MS <= diff < DAY_MS {
      var h: nat := diff / HOUR_MS;
      HoursAgo(now, t, h);
    } else if diff >= DAY_MS {
      var d: nat := diff / DAY_MS;
      DaysAgo(now, t, d);
    }
  }

  // ----------------------------------------------------------------- preview

  /** The text of a payload: a string as it is, anything else stringified. */
  function PayloadText(payload: Json, stringify: Json -> string): (t: string)
    ensures payload.JStr? ==> t == payload.s
  {
    if payload.JStr? then payload.s else stringify(payload)
  }

  /** `truncatePayload`: a placeholder for a falsy payload, otherwise its
      text cut to fifty characters plus an ellipsis. */
  function TruncatePayload(payload: Option<Json>, stringify: Json -> string): (r: string)
    ensures payload.None? || !Truthy(payload.value) ==> r == NO_BODY
    ensures |r| <= PREVIEW_LENGTH + 3
    ensures payload.Some? && Truthy(payload.value) ==>
      var t := PayloadText(payload.value, stringify);
      && (|t| <= PREVIEW_LENGTH ==> r == t)
      && (|t| > PREVIEW_LENGTH ==> r == t[..PREVIEW_LENGTH] + "...")
  {
    if payload.None? || !Truthy(payload.value) then NO_BODY
    else Truncate(PayloadText(payload.value, stringify), PREVIEW_LENGTH)
  }

  /** A preview shown as a string payload previews as itself. */
  lemma PreviewIsStable(payload: Option<Json>, stringify: Json -> string)
    requires TruncatePayload(payload, stringify) != ""
    ensures var r := TruncatePayload(payload, stringify);
      TruncatePayload(Some(JStr(r)), stringify) == r
  {
    var r := TruncatePayload(payload, stringify);
    if payload.Some? && Truthy(payload.value) {
      TruncateIdempotent(PayloadText(payload.value, stringify), PREVIEW_LENGTH);
    }
  }
}
