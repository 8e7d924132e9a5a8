/** The global slug quota (src/shared/rate-limiter.ts): an anonymous client,
    identified by IP, may use at most two distinct webhook slugs in a rolling
    24-hour window. The Durable Object storage is a map from `ip:<ip>` to the
    IP's record, and the clock is the parameter `now` in milliseconds. */
module RateLimiter {
  import opened Wrappers
  import opened Json
  import Strings
  import Sorting
  import opened Http

  const RESET_WINDOW: int := 24 * 60 * 60 * 1000
  const MAX_SLUGS: nat := 2
  const DENY_REASON: string :=
    "Anonymous users are limited to 2 unique webhook URLs per 24 hours. Sign in for unlimited webhooks."

  /** `slug` is whatever the request body carried; `None` is `undefined`. */
  datatype SlugUsage = SlugUsage(slug: Option<Json>, firstUsed: int, lastUsed: int)

  datatype IPRecord = IPRecord(ip: Option<Json>, slugs: seq<SlugUsage>, createdAt: int)

  type Storage = map<string, IPRecord>

  datatype LimitResult = LimitResult(
    allowed: bool,
    slugCount: nat,
    slugs: seq<Option<Json>>,
    reason: Option<string>,
    resetAt: Option<int>)

  datatype Checked = Checked(result: LimitResult, storage: Storage)

  // ---------------------------------------------------------------- helpers

  /** Template-literal text of a body field (`${v}`). */
  function Text(v: Option<Json>): string {
    match v
    case None => "undefined"
    case Some(j) => JsonText(j)
  }

  function JsonText(j: Json): string
    decreases j
  {
    match j
    case JNull => "null"
    case JBool(b) => if b then "true" else "false"
    case JNum(n) => Strings.IntToString(n)
    case JStr(s) => s
    case JObj(_) => "[object Object]"
    case JArr(items) =>
      // Array.prototype.toString: elements joined by ",", null as ""
      Strings.Join(seq(|items|, i requires 0 <= i < |items| =>
                         if items[i].JNull? then "" else JsonText(items[i])), ",")
  }

  /** The storage key of an IP. */
  function KeyOf(ip: Option<Json>): string {
    "ip:" + Text(ip)
  }

  /** `stored === slug`: objects and arrays parsed from two bodies are never
      the same reference, so they never match. */
  predicate SlugMatches(stored: Option<Json>, slug: Option<Json>) {
    stored == slug && (slug.None? || !IsObject(slug.value))
  }

  predicate IsRecent(u: SlugUsage, now: int) {
    now - u.firstUsed < RESET_WINDOW
  }

  /** `slugs.filter(s => now - s.firstUsed < RESET_WINDOW)` */
  function Recent(slugs: seq<SlugUsage>, now: int): (r: seq<SlugUsage>)
    ensures |r| <= |slugs|
    ensures forall u :: u in r <==> u in slugs && IsRecent(u, now)
    decreases |slugs|
  {
    if |slugs| == 0 then []
    else (if IsRecent(slugs[0], now) then [slugs[0]] else []) + Recent(slugs[1..], now)
  }

  lemma {:induction false} NothingRecent(slugs: seq<SlugUsage>, now: int)
    requires forall u :: u in slugs ==> !IsRecent(u, now)
    ensures Recent(slugs, now) == []
    decreases |slugs|
  {
    if |slugs| > 0 {
      assert slugs[0] in slugs;
      NothingRecent(slugs[1..], now);
    }
  }

  /** `valid.find(s => s.slug === slug)`, as the index of the first match. */
  function FindSlug(valid: seq<SlugUsage>, slug: Option<Json>): (r: Option<nat>)
    ensures r.Some? ==> r.value < |valid| && SlugMatches(valid[r.value].slug, slug)
    ensures r.Some? ==> forall j :: 0 <= j < r.value ==> !SlugMatches(valid[j].slug, slug)
    ensures r.None? ==> forall j :: 0 <= j < |valid| ==> !SlugMatches(valid[j].slug, slug)
    decreases |valid|
  {
    if |valid| == 0 then None
    else if SlugMatches(valid[0].slug, slug) then Some(0)
    else match FindSlug(valid[1..], slug)
      case None => None
      case Some(i) => Some(i + 1)
  }

  /** `valid.map(s => s.slug)` */
  function SlugsOf(us: seq<SlugUsage>): (r: seq<Option<Json>>)
    ensures |r| == |us| && forall i :: 0 <= i < |us| ==> r[i] == us[i].slug
  {
    seq(|us|, i requires 0 <= i < |us| => us[i].slug)
  }

  /** The comparator `(a, b) => a.firstUsed - b.firstUsed` as an order. */
  predicate FirstUsedLe(a: SlugUsage, b: SlugUsage) {
    a.firstUsed <= b.firstUsed
  }

  /** The recent entries of the IP's record; none when there is no record. */
  function RecentOf(storage: Storage, ip: Option<Json>, now: int): seq<SlugUsage> {
    if KeyOf(ip) in storage then Recent(storage[KeyOf(ip)].slugs, now) else []
  }

  // ------------------------------------------------------------ checkIPLimit

  /** `checkIPLimit`: a first sight of the IP opens its record; a slug already
      among the recent entries is reused; a new slug is refused once two recent
      slugs exist and appended otherwise. `checkOnly` computes the answer
      without writing. Only the IP's own key is ever written. */
  function CheckIPLimit(storage: Storage, ip: Option<Json>, slug: Option<Json>, checkOnly: bool, now: int)
    : (c: Checked)
    ensures checkOnly ==> c.storage == storage
    ensures c.storage == storage || (KeyOf(ip) in c.storage && c.storage == storage[KeyOf(ip) := c.storage[KeyOf(ip)]])
    ensures !c.result.allowed ==> c.storage == storage
  {
    var key := KeyOf(ip);
    if key !in storage then
      if checkOnly then Checked(LimitResult(true, 0, [], None, None), storage)
      else
        var record := IPRecord(ip, [SlugUsage(slug, now, now)], now);
        Checked(LimitResult(true, 1, [slug], None, None), storage[key := record])
    else
      var record := storage[key];
      var valid := Recent(record.slugs, now);
      match FindSlug(valid, slug)
      case Some(i) =>
        var result := LimitResult(true, |valid|, SlugsOf(valid), None, None);
        if checkOnly then Checked(result, storage)
        else Checked(result, storage[key := record.(slugs := valid[i := valid[i].(lastUsed := now)])])
      case None =>
        if |valid| >= MAX_SLUGS then
          var sorted := Sorting.Sort(valid, FirstUsedLe);
          Checked(LimitResult(false, |valid|, SlugsOf(sorted), Some(DENY_REASON),
                              Some(sorted[0].firstUsed + RESET_WINDOW)), storage)
        else if checkOnly then
          Checked(LimitResult(true, |valid|, SlugsOf(valid), None, None), storage)
        else
          var valid' := valid + [SlugUsage(slug, now, now)];
          Checked(LimitResult(true, |valid'|, SlugsOf(valid'), None, None),
                  storage[key := record.(slugs := valid')])
  }

  /** A call is allowed exactly when the slug is among the IP's recent
      entries or fewer than two recent entries exist. */
  lemma AllowedExactly(storage: Storage, ip: Option<Json>, slug: Option<Json>, checkOnly: bool, now: int)
    ensures var valid := RecentOf(storage, ip, now);
      CheckIPLimit(storage, ip, slug, checkOnly, now).result.allowed <==>
        (exists j :: 0 <= j < |valid| && SlugMatches(valid[j].slug, slug)) || |valid| < MAX_SLUGS
  {
    var valid := RecentOf(storage, ip, now);
    var found := FindSlug(valid, slug);
    if found.Some? {
      assert SlugMatches(valid[found.value].slug, slug);
    }
  }

  /** The first sight of an IP: a dry run answers allowed with nothing used;
      otherwise the record is created holding just this slug. */
  lemma FirstSightOfIp(storage: Storage, ip: Option<Json>, slug: Option<Json>, checkOnly: bool, now: int)
    requires KeyOf(ip) !in storage
    ensures var c := CheckIPLimit(storage, ip, slug, checkOnly, now);
      && c.result.allowed
      && (checkOnly ==> c.result.slugCount == 0 && c.result.slugs == [] && c.storage == storage)
      && (!checkOnly ==>
            && c.result.slugCount == 1 && c.result.slugs == [slug]
            && c.storage == storage[KeyOf(ip) := IPRecord(ip, [SlugUsage(slug, now, now)], now)])
  {
  }

  /** A slug among the recent entries is allowed without taking a slot; a real
      call prunes the expired entries and moves only the first match's
      `lastUsed` to `now`. */
  lemma ReuseKeepsSlot(storage: Storage, ip: Option<Json>, slug: Option<Json>, checkOnly: bool, now: int, j: nat)
    requires KeyOf(ip) in storage
    requires j < |RecentOf(storage, ip, now)| && SlugMatches(RecentOf(storage, ip, now)[j].slug, slug)
    ensures var c := CheckIPLimit(storage, ip, slug, checkOnly, now);
      var valid := RecentOf(storage, ip, now);
      && c.result.allowed
      && c.result.slugCount == |valid|
      && c.result.slugs == SlugsOf(valid)
      && c.result.reason.None? && c.result.resetAt.None?
      && (!checkOnly ==>
            && KeyOf(ip) in c.storage
            && var stored := c.storage[KeyOf(ip)].slugs;
               && |stored| == |valid|
               && (forall k :: 0 <= k < |valid| ==>
                     stored[k].slug == valid[k].slug && stored[k].firstUsed == valid[k].firstUsed)
               && (exists k :: 0 <= k <= j && stored[k].lastUsed == now && SlugMatches(stored[k].slug, slug)
                     && forall m :: 0 <= m < |valid| && m != k ==> stored[m] == valid[m]))
  {
    var valid := RecentOf(storage, ip, now);
    var i := FindSlug(valid, slug);
    assert i.Some?;
  }

  /** A new slug when two recent slugs exist is refused: nothing is written,
      the recent slugs are listed oldest first, and the quota resets a full
      window after the oldest of them was first used. */
  lemma DenyWhenFull(storage: Storage, ip: Option<Json>, slug: Option<Json>, checkOnly: bool, now: int)
    requires KeyOf(ip) in storage
    requires forall j :: 0 <= j < |RecentOf(storage, ip, now)| ==> !SlugMatches(RecentOf(storage, ip, now)[j].slug, slug)
    requires |RecentOf(storage, ip, now)| >= MAX_SLUGS
    ensures var c := CheckIPLimit(storage, ip, slug, checkOnly, now);
      var valid := RecentOf(storage, ip, now);
      && !c.result.allowed
      && c.storage == storage
      && c.result.slugCount == |valid|
      && multiset(c.result.slugs) == multiset(SlugsOf(valid))
      && (exists sorted :: multiset(sorted) == multiset(valid) && Sorting.SortedBy(sorted, FirstUsedLe)
            && c.result.slugs == SlugsOf(sorted))
      && c.result.reason == Some(DENY_REASON)
      && c.result.resetAt.Some?
      && (exists u :: u in valid && c.result.resetAt.value == u.firstUsed + RESET_WINDOW)
      && (forall u :: u in valid ==> c.result.resetAt.value <= u.firstUsed + RESET_WINDOW)
  {
    var valid := RecentOf(storage, ip, now);
    var sorted := Sorting.Sort(valid, FirstUsedLe);
    assert FindSlug(valid, slug).None?;
    FirstUsedLeIsTotalPreorder();
    Sorting.SortOrders(valid, FirstUsedLe);
    OldestFirst(valid);
    SortKeepsSlugs(valid);
  }

  /** A refusal lists the recent slugs in the order they were first used. */
  lemma DeniedSlugsOldestFirst(storage: Storage, ip: Option<Json>, slug: Option<Json>, checkOnly: bool, now: int)
    requires KeyOf(ip) in storage
    requires forall j :: 0 <= j < |RecentOf(storage, ip, now)| ==> !SlugMatches(RecentOf(storage, ip, now)[j].slug, slug)
    requires |RecentOf(storage, ip, now)| >= MAX_SLUGS
    ensures exists sorted :: && multiset(sorted) == multiset(RecentOf(storage, ip, now))
                             && Sorting.SortedBy(sorted, FirstUsedLe)
                             && CheckIPLimit(storage, ip, slug, checkOnly, now).result.slugs == SlugsOf(sorted)
  {
    DenyWhenFull(storage, ip, slug, checkOnly, now);
  }

  /** The head of the entries sorted by first use is the oldest entry. */
  lemma OldestFirst(valid: seq<SlugUsage>)
    requires |valid| > 0
    ensures var sorted := Sorting.Sort(valid, FirstUsedLe);
      && sorted[0] in valid
      && forall u :: u in valid ==> sorted[0].firstUsed <= u.firstUsed
  {
    var sorted := Sorting.Sort(valid, FirstUsedLe);
    FirstUsedLeIsTotalPreorder();
    Sorting.SortOrders(valid, FirstUsedLe);
    assert sorted[0] in multiset(valid);
    forall u | u in valid ensures sorted[0].firstUsed <= u.firstUsed {
      HeadOfSortedIsLeast(sorted, u);
    }
  }

  lemma FirstUsedLeIsTotalPreorder()
    ensures Sorting.TotalPreorder(FirstUsedLe)
  {
  }

  lemma HeadOfSortedIsLeast(sorted: seq<SlugUsage>, u: SlugUsage)
    requires Sorting.SortedBy(sorted, FirstUsedLe)
    requires u in multiset(sorted)
    ensures sorted[0].firstUsed <= u.firstUsed
  {
    var k :| 0 <= k < |sorted| && sorted[k] == u;
    if k > 0 {
      assert FirstUsedLe(sorted[0], sorted[k]);
    }
  }

  lemma SlugsOfCons(x: SlugUsage, s: seq<SlugUsage>)
    ensures SlugsOf([x] + s) == [x.slug] + SlugsOf(s)
  {
  }

  lemma {:induction false} InsertKeepsSlugs(x: SlugUsage, s: seq<SlugUsage>)
    ensures multiset(SlugsOf(Sorting.Insert(x, s, FirstUsedLe))) == multiset{x.slug} + multiset(SlugsOf(s))
    decreases |s|
  {
    SlugsOfCons(x, s);
    if |s| > 0 && !FirstUsedLe(x, s[0]) {
      InsertKeepsSlugs(x, s[1..]);
      SlugsOfCons(s[0], Sorting.Insert(x, s[1..], FirstUsedLe));
      SlugsOfCons(s[0], s[1..]);
      assert s == [s[0]] + s[1..];
    }
  }

  /** Sorting the entries by first use lists the same slugs. */
  lemma {:induction false} SortKeepsSlugs(s: seq<SlugUsage>)
    ensures multiset(SlugsOf(Sorting.Sort(s, FirstUsedLe))) == multiset(SlugsOf(s))
    decreases |s|
  {
    if |s| > 0 {
      SortKeepsSlugs(s[1..]);
      InsertKeepsSlugs(s[0], Sorting.Sort(s[1..], FirstUsedLe));
      SlugsOfCons(s[0], s[1..]);
      assert s == [s[0]] + s[1..];
    }
  }

  /** A new slug with fewer than two recent slugs is allowed; a real call
      stores the recent entries followed by the new one and counts it. */
  lemma AppendNewSlug(storage: Storage, ip: Option<Json>, slug: Option<Json>, checkOnly: bool, now: int)
    requires KeyOf(ip) in storage
    requires forall j :: 0 <= j < |RecentOf(storage, ip, now)| ==> !SlugMatches(RecentOf(storage, ip, now)[j].slug, slug)
    requires |RecentOf(storage, ip, now)| < MAX_SLUGS
    ensures var c := CheckIPLimit(storage, ip, slug, checkOnly, now);
      var valid := RecentOf(storage, ip, now);
      && c.result.allowed
      && (checkOnly ==> c.result.slugCount == |valid| && c.result.slugs == SlugsOf(valid))
      && (!checkOnly ==>
            && c.result.slugCount == |valid| + 1
            && c.result.slugs == SlugsOf(valid) + [slug]
            && c.storage[KeyOf(ip)] == storage[KeyOf(ip)].(slugs := valid + [SlugUsage(slug, now, now)]))
  {
    var valid := RecentOf(storage, ip, now);
    assert SlugsOf(valid + [SlugUsage(slug, now, now)]) == SlugsOf(valid) + [slug];
  }

  /** Every record a real call writes holds only entries first used within
      the window ending at `now`: expired entries are pruned on write. */
  lemma WritesOnlyRecent(storage: Storage, ip: Option<Json>, slug: Option<Json>, now: int)
    ensures var c := CheckIPLimit(storage, ip, slug, false, now);
      c.storage != storage ==>
        KeyOf(ip) in c.storage && forall u :: u in c.storage[KeyOf(ip)].slugs ==> IsRecent(u, now)
  {
    var c := CheckIPLimit(storage, ip, slug, false, now);
    var key := KeyOf(ip);
    if key in storage && c.storage != storage {
      var valid := Recent(storage[key].slugs, now);
      var stored := c.storage[key].slugs;
      forall u | u in stored ensures IsRecent(u, now) {
        var k :| 0 <= k < |stored| && stored[k] == u;
        if k < |valid| {
          assert u.firstUsed == valid[k].firstUsed && valid[k] in valid;
        }
      }
    }
  }

  // -------------------------------------------------------------- the quota

  /** No two entries of a record match each other. */
  predicate DistinctSlugs(us: seq<SlugUsage>) {
    forall i, j :: 0 <= i < j < |us| ==> !SlugMatches(us[j].slug, us[i].slug)
  }

  /** Every stored record holds at most two entries, no two of them for the
      same slug. */
  predicate QuotaKept(storage: Storage) {
    forall k :: k in storage ==> |storage[k].slugs| <= MAX_SLUGS && DistinctSlugs(storage[k].slugs)
  }

  lemma {:induction false} RecentKeepsDistinct(us: seq<SlugUsage>, now: int)
    requires DistinctSlugs(us)
    ensures DistinctSlugs(Recent(us, now))
    decreases |us|
  {
    if |us| > 0 {
      RecentKeepsDistinct(us[1..], now);
      var rest := Recent(us[1..], now);
      assert DistinctSlugs(us[1..]) by {
        forall i, j | 0 <= i < j < |us[1..]| ensures !SlugMatches(us[1..][j].slug, us[1..][i].slug) {
          assert us[1..][i] == us[i + 1] && us[1..][j] == us[j + 1];
        }
      }
      if IsRecent(us[0], now) {
        var r := [us[0]] + rest;
        forall i, j | 0 <= i < j < |r| ensures !SlugMatches(r[j].slug, r[i].slug) {
          if i == 0 {
            assert r[j] in us[1..];
            var k :| 0 <= k < |us[1..]| && us[1..][k] == r[j];
            assert us[k + 1] == r[j];
          } else {
            assert r[i] == rest[i - 1] && r[j] == rest[j - 1];
          }
        }
      }
    }
  }

  /** Every call keeps the quota: an IP never holds more than two entries and
      never two for one slug. */
  lemma CheckPreservesQuota(storage: Storage, ip: Option<Json>, slug: Option<Json>, checkOnly: bool, now: int)
    requires QuotaKept(storage)
    ensures QuotaKept(CheckIPLimit(storage, ip, slug, checkOnly, now).storage)
  {
    var key := KeyOf(ip);
    var c := CheckIPLimit(storage, ip, slug, checkOnly, now);
    if key in storage && c.storage != storage {
      var valid := Recent(storage[key].slugs, now);
      RecentKeepsDistinct(storage[key].slugs, now);
      var stored := c.storage[key].slugs;
      match FindSlug(valid, slug)
      case Some(i) => {
        forall a, b | 0 <= a < b < |stored| ensures !SlugMatches(stored[b].slug, stored[a].slug) {
          assert stored[a].slug == valid[a].slug && stored[b].slug == valid[b].slug;
        }
      }
      case None => {
        forall a, b | 0 <= a < b < |stored| ensures !SlugMatches(stored[b].slug, stored[a].slug) {
          assert b == |valid| && stored[a] == valid[a];
        }
      }
    }
  }

  /** Under the quota, a real call that is allowed leaves the IP with at most
      two recent slugs, the requested one among them. */
  lemma AllowedSlugIsCounted(storage: Storage, ip: Option<Json>, slug: Option<Json>, now: int)
    requires QuotaKept(storage)
    requires CheckIPLimit(storage, ip, slug, false, now).result.allowed
    ensures var c := CheckIPLimit(storage, ip, slug, false, now);
      && KeyOf(ip) in c.storage
      && 1 <= c.result.slugCount == |c.storage[KeyOf(ip)].slugs| <= MAX_SLUGS
      && exists k :: 0 <= k < |c.storage[KeyOf(ip)].slugs| && c.storage[KeyOf(ip)].slugs[k].slug == slug
  {
    var key := KeyOf(ip);
    var c := CheckIPLimit(storage, ip, slug, false, now);
    if key in storage {
      var valid := Recent(storage[key].slugs, now);
      match FindSlug(valid, slug)
      case Some(i) => {
        assert c.storage[key].slugs[i].slug == slug;
      }
      case None => {
        var stored := c.storage[key].slugs;
        assert stored[|valid|].slug == slug;
      }
    } else {
      assert c.storage[key].slugs[0].slug == slug;
    }
  }

  /** A record all of whose entries have expired answers exactly like a
      missing one, and a real call leaves the same entries behind: so the
      storage TTL, which can only drop such records, changes no answer. */
  lemma ExpiredRecordActsAbsent(storage: Storage, ip: Option<Json>, slug: Option<Json>, checkOnly: bool, now: int)
    requires KeyOf(ip) in storage
    requires forall u :: u in storage[KeyOf(ip)].slugs ==> !IsRecent(u, now)
    ensures var c1 := CheckIPLimit(storage, ip, slug, checkOnly, now);
      var c2 := CheckIPLimit(storage - {KeyOf(ip)}, ip, slug, checkOnly, now);
      && c1.result == c2.result
      && (!checkOnly ==> KeyOf(ip) in c2.storage && c1.storage[KeyOf(ip)].slugs == c2.storage[KeyOf(ip)].slugs)
      && (forall k :: k != KeyOf(ip) ==> (k in c1.storage <==> k in c2.storage))
      && (forall k :: k != KeyOf(ip) && k in c1.storage ==> c1.storage[k] == c2.storage[k])
  {
    NothingRecent(storage[KeyOf(ip)].slugs, now);
  }

  /** With a clock that never runs backwards, every entry of a record written
      at `now` was first used at or before `now`, so all of them have expired
      one window later: exactly when the TTL set by that write lets the
      storage drop the record. */
  lemma RecordExpiresWithItsEntries(storage: Storage, ip: Option<Json>, slug: Option<Json>, now: int, later: int)
    requires forall k, u :: k in storage && u in storage[k].slugs ==> u.firstUsed <= now
    requires later >= now + RESET_WINDOW
    ensures var c := CheckIPLimit(storage, ip, slug, false, now);
      c.storage != storage ==>
        KeyOf(ip) in c.storage && forall u :: u in c.storage[KeyOf(ip)].slugs ==> !IsRecent(u, later)
  {
    var c := CheckIPLimit(storage, ip, slug, false, now);
    var key := KeyOf(ip);
    if key in storage && c.storage != storage {
      var valid := Recent(storage[key].slugs, now);
      var stored := c.storage[key].slugs;
      forall u | u in stored ensures !IsRecent(u, later) {
        var k :| 0 <= k < |stored| && stored[k] == u;
        if k < |valid| {
          assert u.firstUsed == valid[k].firstUsed && valid[k] in storage[key].slugs;
        }
      }
    }
  }

  // ------------------------------------------------------------------ fetch

  /** `checkOnly || false` as the condition it is used as. */
  predicate FieldTruthy(v: Option<Json>) {
    v.Some? && Truthy(v.value)
  }

  function ResultJson(r: LimitResult): Json {
    var slugs := seq(|r.slugs|, i requires 0 <= i < |r.slugs| => r.slugs[i].GetOr(JNull));
    JObj(Put(Put(map["allowed" := JBool(r.allowed), "slugCount" := JNum(r.slugCount), "slugs" := JArr(slugs)],
                 "reason", OptStr(r.reason)),
             "resetAt", if r.resetAt.Some? then Some(JNum(r.resetAt.value)) else None))
  }

  /** `Math.max(0, 2 - slugCount)` */
  function Remaining(slugCount: nat): (n: nat)
    ensures n <= MAX_SLUGS
    ensures slugCount <= MAX_SLUGS ==> n + slugCount == MAX_SLUGS
    ensures slugCount >= MAX_SLUGS ==> n == 0
  {
    if slugCount >= MAX_SLUGS then 0 else MAX_SLUGS - slugCount
  }

  /** `RateLimiter.fetch`: `body` is what `request.json()` produced, `None`
      when it threw. Only POST is served; a body that cannot be destructured
      is a 400; a truthy `userId` bypasses the quota without touching storage;
      otherwise the quota answers, with 429 exactly when it refuses. */
  function Fetch(req: Request, body: Option<Json>, storage: Storage, now: int): (r: (Response, Storage))
    ensures req.verb != "POST" ==> r.0.status == 405 && r.1 == storage
    ensures req.verb == "POST" && (body.None? || body == Some(JNull)) ==>
      r.0.status == 400 && r.1 == storage && r.0.body == JsonBody(JObj(map["error" := JStr("Invalid request"), "allowed" := JBool(false)]))
    ensures r.0.status in {200, 400, 405, 429}
  {
    if req.verb != "POST" then (TextReply(405, "Method not allowed"), storage)
    else if body.None? || body == Some(JNull) then
      (Response(400, map["Content-Type" := "application/json"],
                JsonBody(JObj(map["error" := JStr("Invalid request"), "allowed" := JBool(false)]))), storage)
    else
      var fields := body.value;
      if FieldTruthy(Get(fields, "userId")) then
        (Response(200, map["Content-Type" := "application/json"],
                  JsonBody(JObj(map["allowed" := JBool(true), "reason" := JStr("authenticated")]))), storage)
      else
        QuotaReply(CheckIPLimit(storage, Get(fields, "ip"), Get(fields, "slug"),
                                FieldTruthy(Get(fields, "checkOnly")), now))
  }

  /** The reply to an anonymous caller, given the quota's answer. */
  function QuotaReply(c: Checked): (Response, Storage) {
    var headers := map["Content-Type" := "application/json",
                       "X-RateLimit-Limit" := "2",
                       "X-RateLimit-Remaining" := Strings.NatToString(Remaining(c.result.slugCount))];
    (Response(if c.result.allowed then 200 else 429, headers, JsonBody(ResultJson(c.result))), c.storage)
  }

  lemma ResultJsonAllowed(r: LimitResult)
    ensures Get(ResultJson(r), "allowed") == Some(JBool(r.allowed))
  {
  }

  /** An authenticated caller is let through and storage is neither consulted
      nor changed. */
  lemma AuthenticatedBypass(req: Request, body: Json, storage: Storage, now: int)
    requires req.verb == "POST" && body != JNull
    requires FieldTruthy(Get(body, "userId"))
    ensures var (resp, storage') := Fetch(req, Some(body), storage, now);
      && resp.status == 200 && storage' == storage
      && resp.body.JsonBody? && Get(resp.body.value, "allowed") == Some(JBool(true))
      && Get(resp.body.value, "reason") == Some(JStr("authenticated"))
  {
  }

  /** An anonymous POST is answered by the quota: 429 exactly when it refuses,
      the body's `allowed` says the same, and the remaining-slugs header is
      what is left of the two slots. */
  lemma AnonymousStatusMapping(req: Request, body: Json, storage: Storage, now: int)
    requires req.verb == "POST" && body != JNull
    requires !FieldTruthy(Get(body, "userId"))
    ensures var c := CheckIPLimit(storage, Get(body, "ip"), Get(body, "slug"), FieldTruthy(Get(body, "checkOnly")), now);
      var (resp, storage') := Fetch(req, Some(body), storage, now);
      && (resp.status == 429 <==> !c.result.allowed)
      && (resp.status == 200 <==> c.result.allowed)
      && storage' == c.storage
      && resp.body.JsonBody? && Get(resp.body.value, "allowed") == Some(JBool(c.result.allowed))
      && "X-RateLimit-Remaining" in resp.headers
      && Strings.ParseInt(resp.headers["X-RateLimit-Remaining"]) == Strings.Int(Remaining(c.result.slugCount))
  {
    var c := CheckIPLimit(storage, Get(body, "ip"), Get(body, "slug"), FieldTruthy(Get(body, "checkOnly")), now);
    assert Fetch(req, Some(body), storage, now) == QuotaReply(c);
    ResultJsonAllowed(c.result);
    Strings.ParseIntOfNatToString(Remaining(c.result.slugCount));
  }
}
