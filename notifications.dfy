/** The toast queue (frontend-react/src/context/NotificationContext.js): a
    module-level counter hands out ids, showing appends an entry, removing
    filters entries out by id. */
module Notifications {
  import opened Wrappers

  datatype Notification = Notification(id: nat, message: string, kind: string)

  const DefaultKind := "success"

  /** Ids strictly increase along the list. */
  ghost predicate StrictlyIncreasing(ns: seq<Notification>) {
    forall i, j :: 0 <= i < j < |ns| ==> ns[i].id < ns[j].id
  }

  predicate HasId(ns: seq<Notification>, id: nat) {
    exists i :: 0 <= i < |ns| && ns[i].id == id
  }

  /** `prev.filter((n) => n.id !== id)`. */
  function Without(ns: seq<Notification>, id: nat): (r: seq<Notification>)
    ensures |r| <= |ns|
    ensures !HasId(ns, id) ==> r == ns
  {
    if ns == [] then []
    else
      var rest := Without(ns[1..], id);
      assert forall i :: 0 <= i < |ns[1..]| ==> ns[1..][i] == ns[i + 1];
      assert !HasId(ns, id) ==> ns[0].id != id;
      assert ns == [ns[0]] + ns[1..];
      (if ns[0].id == id then [] else [ns[0]]) + rest
  }

  /** The filter keeps exactly the entries with another id. */
  lemma {:induction false} WithoutMembers(ns: seq<Notification>, id: nat)
    ensures forall n :: n in Without(ns, id) <==> n in ns && n.id != id
  {
    if ns != [] {
      WithoutMembers(ns[1..], id);
      assert forall q :: q in ns <==> q == ns[0] || q in ns[1..];
    }
  }

  /** Removing an id twice is removing it once. */
  lemma WithoutIdempotent(ns: seq<Notification>, id: nat)
    ensures Without(Without(ns, id), id) == Without(ns, id)
  {
    WithoutMembers(ns, id);
    var r := Without(ns, id);
    assert forall i :: 0 <= i < |r| ==> r[i] in r;
  }

  /** Filtering keeps the survivors in order, so ids keep increasing. */
  lemma {:induction false} WithoutKeepsOrder(ns: seq<Notification>, id: nat)
    requires StrictlyIncreasing(ns)
    ensures StrictlyIncreasing(Without(ns, id))
  {
    if ns != [] {
      WithoutKeepsOrder(ns[1..], id);
      WithoutMembers(ns[1..], id);
      var rest := Without(ns[1..], id);
      forall k | 0 <= k < |rest| ensures ns[0].id < rest[k].id {
        assert rest[k] in ns[1..];
      }
    }
  }

  /** Removing the id of an entry just shown restores the list before it. */
  lemma {:induction false} RemoveUndoesShow(ns: seq<Notification>, n: Notification)
    requires !HasId(ns, n.id)
    ensures Without(ns + [n], n.id) == ns
  {
    if ns == [] {
      assert [n][1..] == [];
    } else {
      var t := ns[1..];
      assert !HasId(t, n.id) && ns[0].id != n.id by {
        forall i | 0 <= i < |t| ensures t[i].id != n.id {
          assert t[i] == ns[i + 1];
        }
      }
      RemoveUndoesShow(t, n);
      WithoutKept(ns[0], t + [n], n.id);
      assert [ns[0]] + (t + [n]) == ns + [n];
      assert [ns[0]] + t == ns;
    }
  }

  /** An entry with another id survives at the head of the filtered list. */
  lemma WithoutKept(x: Notification, rest: seq<Notification>, id: nat)
    requires x.id != id
    ensures Without([x] + rest, id) == [x] + Without(rest, id)
  {
    assert ([x] + rest)[1..] == rest;
  }

  class NotificationQueue {
    /** The module-level `nextId`. */
    var nextId: nat
    /** The provider's `notifications` state. */
    var notifications: seq<Notification>

    ghost predicate Valid()
      reads this
    {
      StrictlyIncreasing(notifications) && forall i :: 0 <= i < |notifications| ==> notifications[i].id < nextId
    }

    constructor ()
      ensures Valid() && nextId == 0 && notifications == []
    {
      nextId := 0;
      notifications := [];
    }

    /** `showNotification(message, type)`; the type defaults to 'success'
        when it is not given. */
    method Show(message: string, kind: Option<string>)
      requires Valid()
      modifies this
      ensures Valid()
      ensures nextId == old(nextId) + 1
      ensures notifications == old(notifications) + [Notification(old(nextId), message, kind.GetOr(DefaultKind))]
      ensures !HasId(old(notifications), old(nextId))
    {
      var id := nextId;
      nextId := nextId + 1;
      notifications := notifications + [Notification(id, message, kind.GetOr(DefaultKind))];
    }

    /** `removeNotification(id)`. */
    method Remove(id: nat)
      requires Valid()
      modifies this
      ensures Valid()
      ensures nextId == old(nextId) && notifications == Without(old(notifications), id)
    {
      WithoutKeepsOrder(notifications, id);
      WithoutMembers(notifications, id);
      var r := Without(notifications, id);
      assert forall i :: 0 <= i < |r| ==> r[i] in r;
      notifications := r;
    }
  }
}
