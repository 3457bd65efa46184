/** The notification queue: one list shared by the whole application, each
    entry numbered from a counter that only ever goes up. */
module Notifications {
  import W = Wrappers

  datatype NotificationType = Success | Error | Warning | Info

  datatype Notification = Notification(
    id: nat,
    kind: NotificationType,
    title: W.Option<string>,
    message: string,
    timeout: W.Option<int>)

  const ErrorTimeout := 8000
  const DefaultTimeout := 5000

  /** `timeout ?? (type === 'error' ? 8000 : 5000)`. */
  function EffectiveTimeout(kind: NotificationType, timeout: W.Option<int>): (t: int)
    ensures timeout.Some? ==> t == timeout.value
    ensures timeout.None? && kind == Error ==> t == ErrorTimeout
    ensures timeout.None? && kind != Error ==> t == DefaultTimeout
  {
    timeout.GetOr(if kind == Error then ErrorTimeout else DefaultTimeout)
  }

  /** The delay of the automatic removal, scheduled only for a positive
      timeout; an explicit timeout of 0 or less keeps the entry. */
  function RemovalDelay(kind: NotificationType, timeout: W.Option<int>): (d: W.Option<int>)
    ensures d.Some? <==> EffectiveTimeout(kind, timeout) > 0
    ensures d.Some? ==> d.value == EffectiveTimeout(kind, timeout)
    ensures timeout.None? ==> d.Some?
  {
    var t := EffectiveTimeout(kind, timeout);
    if t > 0 then W.Some(t) else W.None
  }

  /** Ids strictly increase along the list. */
  predicate IdsIncreasing(ns: seq<Notification>) {
    forall i, j :: 0 <= i < j < |ns| ==> ns[i].id < ns[j].id
  }

  /** `filter(n => n.id !== id)`. */
  function WithoutNotification(ns: seq<Notification>, id: nat): (r: seq<Notification>)
    ensures |r| <= |ns|
    ensures forall n :: n in r ==> n in ns && n.id != id
    ensures forall n :: n in ns && n.id != id ==> n in r
  {
    if ns == [] then []
    else
      var rest := WithoutNotification(ns[1..], id);
      assert forall n :: n in ns ==> n == ns[0] || n in ns[1..];
      if ns[0].id == id then rest else [ns[0]] + rest
  }

  /** Removal keeps the rest in order, so ids still increase. */
  lemma {:induction false} WithoutNotificationKeepsOrder(ns: seq<Notification>, id: nat)
    requires IdsIncreasing(ns)
    ensures IdsIncreasing(WithoutNotification(ns, id))
  {
    if ns != [] {
      var tail := ns[1..];
      HeadBelowTail(ns);
      WithoutNotificationKeepsOrder(tail, id);
      if ns[0].id != id {
        PrependIncreasing(ns[0], WithoutNotification(tail, id));
      }
    }
  }

  /** In an increasing list the head's id is below every later id, and the
      tail is increasing too. */
  lemma HeadBelowTail(ns: seq<Notification>)
    requires ns != [] && IdsIncreasing(ns)
    ensures IdsIncreasing(ns[1..])
    ensures forall n :: n in ns[1..] ==> ns[0].id < n.id
  {
    var tail := ns[1..];
    forall i, j | 0 <= i < j < |tail| ensures tail[i].id < tail[j].id {
      assert tail[i] == ns[i + 1] && tail[j] == ns[j + 1];
    }
    forall n | n in tail ensures ns[0].id < n.id {
      var k :| 0 <= k < |tail| && tail[k] == n;
      assert ns[k + 1] == n;
    }
  }

  lemma PrependIncreasing(h: Notification, r: seq<Notification>)
    requires IdsIncreasing(r) && forall n :: n in r ==> h.id < n.id
    ensures IdsIncreasing([h] + r)
  {
    var t := [h] + r;
    forall i, j | 0 <= i < j < |t| ensures t[i].id < t[j].id {
      assert t[j] == r[j - 1];
      assert t[j] in r;
      if i > 0 {
        assert t[i] == r[i - 1];
      }
    }
  }

  /** Removing an id no entry has changes nothing; so removal is
      idempotent. */
  lemma {:induction false} WithoutNotificationAbsent(ns: seq<Notification>, id: nat)
    requires forall n :: n in ns ==> n.id != id
    ensures WithoutNotification(ns, id) == ns
  {
    if ns != [] {
      WithoutNotificationAbsent(ns[1..], id);
    }
  }

  lemma WithoutNotificationIdempotent(ns: seq<Notification>, id: nat)
    ensures WithoutNotification(WithoutNotification(ns, id), id) == WithoutNotification(ns, id)
  {
    WithoutNotificationAbsent(WithoutNotification(ns, id), id);
  }

  /** The module-level list and id counter. */
  class NotificationCenter {
    var notifications: seq<Notification>
    var idCounter: nat

    /** Every id handed out is at most the counter, and ids increase along
        the list, so no two entries share an id. */
    ghost predicate Valid()
      reads this
    {
      IdsIncreasing(notifications) &&
      forall i :: 0 <= i < |notifications| ==> notifications[i].id <= idCounter
    }

    constructor ()
      ensures Valid() && notifications == [] && idCounter == 0
    {
      notifications := [];
      idCounter := 0;
    }

    /** `addNotification(notification)`: number it with the incremented
        counter, append it, and report whether (and after how long) it
        would be removed automatically. */
    method AddNotification(kind: NotificationType, title: W.Option<string>, message: string, timeout: W.Option<int>)
      returns (id: nat, removeAfter: W.Option<int>)
      requires Valid()
      modifies this
      ensures Valid()
      ensures id == old(idCounter) + 1 && idCounter == id
      ensures forall n :: n in old(notifications) ==> n.id < id
      ensures notifications == old(notifications) + [Notification(id, kind, title, message, timeout)]
      ensures removeAfter == RemovalDelay(kind, timeout)
    {
      idCounter := idCounter + 1;
      id := idCounter;
      removeAfter := RemovalDelay(kind, timeout);
      notifications := notifications + [Notification(id, kind, title, message, timeout)];
    }

    /** `removeNotification(id)`: drop the entries with the id. */
    method RemoveNotification(id: nat)
      requires Valid()
      modifies this
      ensures Valid()
      ensures notifications == WithoutNotification(old(notifications), id)
      ensures idCounter == old(idCounter)
    {
      WithoutNotificationKeepsOrder(notifications, id);
      notifications := WithoutNotification(notifications, id);
    }

    /** `clearAll()`: empty the list; the counter keeps counting. */
    method ClearAll()
      requires Valid()
      modifies this
      ensures Valid()
      ensures notifications == [] && idCounter == old(idCounter)
    {
      notifications := [];
    }

    /** `notify.success(message, title, timeout)`. */
    method NotifySuccess(message: string, title: W.Option<string>, timeout: W.Option<int>)
      returns (id: nat, removeAfter: W.Option<int>)
      requires Valid()
      modifies this
      ensures Valid() && id == old(idCounter) + 1 && idCounter == id
      ensures notifications == old(notifications) + [Notification(id, Success, title, message, timeout)]
      ensures removeAfter == RemovalDelay(Success, timeout)
    {
      id, removeAfter := AddNotification(Success, title, message, timeout);
    }

    /** `notify.error(message, title, timeout)`. */
    method NotifyError(message: string, title: W.Option<string>, timeout: W.Option<int>)
      returns (id: nat, removeAfter: W.Option<int>)
      requires Valid()
      modifies this
      ensures Valid() && id == old(idCounter) + 1 && idCounter == id
      ensures notifications == old(notifications) + [Notification(id, Error, title, message, timeout)]
      ensures removeAfter == RemovalDelay(Error, timeout)
    {
      id, removeAfter := AddNotification(Error, title, message, timeout);
    }

    /** `notify.warning(message, title, timeout)`. */
    method NotifyWarning(message: string, title: W.Option<string>, timeout: W.Option<int>)
      returns (id: nat, removeAfter: W.Option<int>)
      requires Valid()
      modifies this
      ensures Valid() && id == old(idCounter) + 1 && idCounter == id
      ensures notifications == old(notifications) + [Notification(id, Warning, title, message, timeout)]
      ensures removeAfter == RemovalDelay(Warning, timeout)
    {
      id, removeAfter := AddNotification(Warning, title, message, timeout);
    }

    /** `notify.info(message, title, timeout)`. */
    method NotifyInfo(message: string, title: W.Option<string>, timeout: W.Option<int>)
      returns (id: nat, removeAfter: W.Option<int>)
      requires Valid()
      modifies this
      ensures Valid() && id == old(idCounter) + 1 && idCounter == id
      ensures notifications == old(notifications) + [Notification(id, Info, title, message, timeout)]
      ensures removeAfter == RemovalDelay(Info, timeout)
    {
      id, removeAfter := AddNotification(Info, title, message, timeout);
    }
  }

  /** Ids that increase along the list are unique. */
  lemma IncreasingIdsUnique(ns: seq<Notification>)
    requires IdsIncreasing(ns)
    ensures forall i, j :: 0 <= i < |ns| && 0 <= j < |ns| && i != j ==> ns[i].id != ns[j].id
  {
  }
}
