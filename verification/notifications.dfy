/** The toast list kept by the notification provider: adding appends an entry under a fresh
    id and schedules its removal; removing filters out every entry with an id. The random id
    and the timer are outside the model: the id is a parameter and the timer is recorded as
    the delay after which `RemoveNotification` would run. */
module Notifications {
  import opened Wrappers

  datatype Kind = Info | Success | Error | Otp

  /** What a caller passes to `addNotification`: a notification without its id. */
  datatype Input = Input(message: string, kind: Kind, duration: Option<int>, otp: Option<string>)

  datatype Notification = Notification(
    id: string, message: string, kind: Kind, duration: Option<int>, otp: Option<string>)

  /** The removal scheduled by `addNotification`: drop `id` after `delay` milliseconds. */
  datatype Timer = Timer(id: string, delay: int)

  datatype Added = Added(list: seq<Notification>, timer: Timer)

  const OtpDelay: int := 30000
  const DefaultDelay: int := 5000

  /** The entry stored for `n`: the caller's fields unchanged, plus the id. */
  function WithId(n: Input, id: string): Notification {
    Notification(id, n.message, n.kind, n.duration, n.otp)
  }

  /** The delay before auto-dismissal: an absent or zero duration is falsy in JavaScript and
      falls back to the per-kind default. */
  function DismissDelay(n: Input): (d: int)
    ensures n.duration.Some? && n.duration.value != 0 ==> d == n.duration.value
    ensures (n.duration.None? || n.duration == Some(0)) && n.kind == Otp ==> d == OtpDelay
    ensures (n.duration.None? || n.duration == Some(0)) && n.kind != Otp ==> d == DefaultDelay
  {
    match n.duration
    case Some(v) => if v != 0 then v else if n.kind == Otp then OtpDelay else DefaultDelay
    case None => if n.kind == Otp then OtpDelay else DefaultDelay
  }

  /** `addNotification(n)` with random id `id`. */
  function AddNotification(list: seq<Notification>, n: Input, id: string): (r: Added)
    ensures |r.list| == |list| + 1
    ensures r.list[..|list|] == list
    // the new entry is the caller's record under the new id: its duration is kept as given,
    // not replaced by the defaulted delay
    ensures r.list[|list|].id == id && r.list[|list|].message == n.message
    ensures r.list[|list|].kind == n.kind && r.list[|list|].otp == n.otp
    ensures r.list[|list|].duration == n.duration
    ensures r.timer.id == id && r.timer.delay == DismissDelay(n)
  {
    Added(list + [WithId(n, id)], Timer(id, DismissDelay(n)))
  }

  /** `removeNotification(id)`: keep the entries whose id differs, in order. */
  function RemoveNotification(list: seq<Notification>, id: string): (r: seq<Notification>)
    ensures |r| <= |list|
    ensures forall x :: x in r <==> x in list && x.id != id
  {
    if list == [] then []
    else if list[0].id == id then RemoveNotification(list[1..], id)
    else [list[0]] + RemoveNotification(list[1..], id)
  }

  /** What the scheduled timer does when it fires. */
  function FireTimer(list: seq<Notification>, t: Timer): (r: seq<Notification>)
    ensures forall x :: x in r <==> x in list && x.id != t.id
  {
    RemoveNotification(list, t.id)
  }

  predicate HasId(list: seq<Notification>, id: string) {
    exists i | 0 <= i < |list| :: list[i].id == id
  }

  /** Removal works entry by entry: the survivors of a concatenation are the survivors of
      each part, in the same order. */
  lemma {:induction false} RemoveAppend(a: seq<Notification>, b: seq<Notification>, id: string)
    ensures RemoveNotification(a + b, id) == RemoveNotification(a, id) + RemoveNotification(b, id)
    decreases |a|
  {
    if a == [] {
      assert a + b == b;
    } else {
      assert (a + b)[0] == a[0];
      assert (a + b)[1..] == a[1..] + b;
      RemoveAppend(a[1..], b, id);
    }
  }

  /** Removing an id that no entry carries changes nothing. */
  lemma {:induction false} RemoveAbsent(list: seq<Notification>, id: string)
    requires !HasId(list, id)
    ensures RemoveNotification(list, id) == list
    decreases |list|
  {
    if list != [] {
      assert !HasId(list[1..], id) by {
        forall i | 0 <= i < |list[1..]| ensures list[1..][i].id != id {
          assert list[1..][i] == list[i + 1];
        }
      }
      RemoveAbsent(list[1..], id);
      assert [list[0]] + list[1..] == list;
    }
  }

  /** After removal no entry carries the id, so removing again changes nothing. */
  lemma RemoveIdempotent(list: seq<Notification>, id: string)
    ensures RemoveNotification(RemoveNotification(list, id), id) == RemoveNotification(list, id)
  {
    var r := RemoveNotification(list, id);
    assert !HasId(r, id) by {
      forall i | 0 <= i < |r| ensures r[i].id != id {
        assert r[i] in r;
      }
    }
    RemoveAbsent(r, id);
  }

  /** Adding under an id no entry carries, then removing that id (what the timer does),
      restores the previous list. */
  lemma AddThenRemove(list: seq<Notification>, n: Input, id: string)
    requires !HasId(list, id)
    ensures FireTimer(AddNotification(list, n, id).list, AddNotification(list, n, id).timer) == list
  {
    var a := AddNotification(list, n, id);
    assert a.list == list + [WithId(n, id)];
    RemoveAppend(list, [WithId(n, id)], id);
    RemoveAbsent(list, id);
  }

  /** An add leaves a list whose survivors under removal of any other id are the old
      survivors followed by the new entry: adding and removing different ids commute. */
  lemma AddRemoveCommute(list: seq<Notification>, n: Input, id: string, other: string)
    requires other != id
    ensures RemoveNotification(AddNotification(list, n, id).list, other)
         == AddNotification(RemoveNotification(list, other), n, id).list
  {
    RemoveAppend(list, [WithId(n, id)], other);
  }
}
