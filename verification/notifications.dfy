/** The toast list of the front end (useNotification.ts): showing appends one
    entry and may schedule its own removal, removing filters by id, clearing
    empties the list. The clock and `Math.random` behind an id are
    parameters. */
module Notifications {
  import opened Wrappers
  import opened Json
  import opened Strings

  const DEFAULT_DURATION: int := 5000

  datatype Kind = Success | Error | Warning | Info

  /** One toast. The message is whatever the caller passed: a string from
      the front end's own code, any JSON value (or `undefined`, `None`) when
      relayed from a server answer. */
  datatype Notification = Notification(id: string, kind: Kind, message: Option<Json>, duration: int)

  /** The list after `showNotification`, the id it returned, and the delay of
      the removal it scheduled, if any. */
  datatype Shown = Shown(list: seq<Notification>, id: string, removeAfter: Option<int>)

  /** `notification-${Date.now()}-${Math.random()}` */
  function NotificationId(now: nat, random: string): (id: string)
    ensures StartsWith(id, "notification-")
  {
    "notification-" + NatToString(now) + "-" + random
  }

  /** `showNotification(type, message, duration = 5000)`: appends exactly one
      entry carrying the returned id, and schedules its removal only for a
      positive duration. */
  function Show(list: seq<Notification>, kind: Kind, message: Option<Json>, duration: Option<int>,
                now: nat, random: string): (r: Shown)
    ensures |r.list| == |list| + 1 && r.list[..|list|] == list
    ensures r.list[|list|] == Notification(r.id, kind, message, duration.GetOr(DEFAULT_DURATION))
    ensures r.id == NotificationId(now, random)
    ensures r.removeAfter.Some? <==> duration.GetOr(DEFAULT_DURATION) > 0
    ensures r.removeAfter.Some? ==> r.removeAfter.value == duration.GetOr(DEFAULT_DURATION)
  {
    var d := duration.GetOr(DEFAULT_DURATION);
    var id := NotificationId(now, random);
    Shown(list + [Notification(id, kind, message, d)], id, if d > 0 then Some(d) else None)
  }

  /** `prev.filter(n => n.id !== id)`: every entry with that id goes, the
      others stay in their order. */
  function Remove(list: seq<Notification>, id: string): (r: seq<Notification>)
    ensures |r| <= |list|
    ensures forall i :: 0 <= i < |r| ==> r[i].id != id && r[i] in list
    ensures forall n :: n in list && n.id != id ==> n in r
    decreases |list|
  {
    if |list| == 0 then []
    else if list[0].id == id then Remove(list[1..], id)
    else [list[0]] + Remove(list[1..], id)
  }

  /** `clearAll`: nothing that was shown remains. */
  function ClearAll(list: seq<Notification>): (r: seq<Notification>)
    ensures |r| == 0
    ensures forall n :: n in list ==> n !in r
  {
    []
  }

  /** Removal distributes over concatenation, which is what keeps the order
      of the survivors. */
  lemma {:induction false} RemoveAppend(a: seq<Notification>, b: seq<Notification>, id: string)
    ensures Remove(a + b, id) == Remove(a, id) + Remove(b, id)
    decreases |a|
  {
    if |a| == 0 {
      assert a + b == b;
    } else {
      assert (a + b)[0] == a[0];
      assert (a + b)[1..] == a[1..] + b;
      RemoveAppend(a[1..], b, id);
    }
  }

  /** Removing an id nobody carries changes nothing. */
  lemma {:induction false} RemoveAbsent(list: seq<Notification>, id: string)
    requires forall i :: 0 <= i < |list| ==> list[i].id != id
    ensures Remove(list, id) == list
    decreases |list|
  {
    if |list| > 0 {
      RemoveAbsent(list[1..], id);
    }
  }

  /** Removing twice is removing once. */
  lemma RemoveIdempotent(list: seq<Notification>, id: string)
    ensures Remove(Remove(list, id), id) == Remove(list, id)
  {
    RemoveAbsent(Remove(list, id), id);
  }

  /** Removing one id never disturbs another's entries. */
  lemma {:induction false} RemoveCommutes(list: seq<Notification>, a: string, b: string)
    ensures Remove(Remove(list, a), b) == Remove(Remove(list, b), a)
    decreases |list|
  {
    if |list| > 0 {
      RemoveCommutes(list[1..], a, b);
    }
  }

  /** The scheduled removal of a freshly shown toast takes exactly that toast
      away and leaves the list as it was before showing it. */
  lemma ShowThenExpire(list: seq<Notification>, kind: Kind, message: Option<Json>, duration: Option<int>,
                       now: nat, random: string)
    requires forall i :: 0 <= i < |list| ==> list[i].id != NotificationId(now, random)
    ensures var s := Show(list, kind, message, duration, now, random);
      Remove(s.list, s.id) == list
  {
    var s := Show(list, kind, message, duration, now, random);
    assert s.list == list + [s.list[|list|]];
    RemoveAppend(list, [s.list[|list|]], s.id);
    RemoveAbsent(list, s.id);
    assert [s.list[|list|]][1..] == [];
  }
}
