/** The kubelet's events and its pods' goroutines together: which traces can make it panic. */
module KubeletPods {
  import opened Options
  import D = KubeletDispatch
  import P = PodProtocol

  /** Event number j leaves the kubelet with a new pod object. */
  ghost predicate Creates(node: string, events: seq<D.Event>, j: nat)
    requires j < |events|
  {
    events[j].Put? && events[j].pod.nodeName == node && node != "" && !events[j].pod.deleting
  }

  /** Event number i assigns a pod the kubelet holds, which makes it delete the pod object it has:
      to recreate it, or for good. */
  ghost predicate Hits(node: string, events: seq<D.Event>, i: nat)
    requires i < |events|
  {
    events[i].Put? && events[i].pod.nodeName != "" && events[i].pod.name in D.Follow(node, events[..i])
  }

  /** The pod object of event j is deleted by a later event. */
  ghost predicate Deleted(events: seq<D.Event>, j: nat)
    requires j < |events|
  {
    events[j].Put? && exists i :: j < i < |events| && D.Names(events[i], events[j].pod.name)
  }

  /** The goroutines of some pod object, whose `DeletePod` is called only if an event deletes it, can
      send on a closed channel. */
  ghost predicate CanCrash(node: string, events: seq<D.Event>) {
    exists j :: 0 <= j < |events| && Creates(node, events, j) && ObjectCanCrash(Deleted(events, j))
  }

  ghost predicate ObjectCanCrash(deleted: bool) {
    exists volumesFailed, actions :: Crashes(deleted, volumesFailed, actions)
  }

  ghost predicate Crashes(deleted: bool, volumesFailed: bool, actions: seq<P.Action>) {
    var r := P.Run(P.Init(volumesFailed), actions);
    r.Some? && r.value.panicked && (P.DeleteLock in actions ==> deleted)
  }

  lemma {:induction false} NotDeleted(volumesFailed: bool, actions: seq<P.Action>)
    requires P.Run(P.Init(volumesFailed), actions).Some? && P.DeleteLock !in actions
    ensures P.Run(P.Init(volumesFailed), actions).value.deleter == P.NotCalled
  {
    if actions != [] {
      NotDeleted(volumesFailed, actions[..|actions| - 1]);
      OnlyDeleteLock(P.Run(P.Init(volumesFailed), actions[..|actions| - 1]).value, actions[|actions| - 1]);
    }
  }

  lemma OnlyDeleteLock(s: P.State, a: P.Action)
    requires P.Next(s, a).Some? && s.deleter == P.NotCalled && a != P.DeleteLock
    ensures P.Next(s, a).value.deleter == P.NotCalled
  {
  }

  lemma {:induction false} RunOn(s: P.State, first: seq<P.Action>, rest: seq<P.Action>)
    requires P.Run(s, first).Some?
    ensures P.Run(s, first + rest) == P.Run(P.Run(s, first).value, rest)
  {
    hide P.Next;
    if rest == [] {
      assert first + rest == first;
    } else {
      assert (first + rest)[..|first + rest| - 1] == first + rest[..|rest| - 1];
      RunOn(s, first, rest[..|rest| - 1]);
    }
  }

  /** Some schedule of a pod object crashes exactly when the object is deleted at all: the deletion can
      always come before the ADD answer is handled. */
  lemma CrashIffDeleted(deleted: bool)
    ensures ObjectCanCrash(deleted) <==> deleted
  {
    if deleted {
      var add, both := [P.SendAdd], [P.SendAdd, P.DeleteLock];
      var s := P.Init(false);
      assert both == add + [P.DeleteLock] && both[..1] == add && add[..0] == [];
      assert P.Run(s, []) == Some(s) && P.Run(s, add) == P.Next(s, P.SendAdd) && P.Run(s, both).Some?;
      P.PanicIffEarly(false, add);
      var t := P.Run(s, both).value;
      var rest :| P.Run(t, rest).Some? && P.Run(t, rest).value.panicked;
      RunOn(s, both, rest);
      assert Crashes(deleted, false, both + rest);
    } else {
      forall volumesFailed, actions
        ensures !Crashes(deleted, volumesFailed, actions)
      {
        if P.Run(P.Init(volumesFailed), actions).Some? && P.DeleteLock !in actions {
          NotDeleted(volumesFailed, actions);
          P.OneProbe(volumesFailed, actions);
        }
      }
    }
  }

  /** The last assignment is at some place, with none after it. */
  lemma {:induction false} LastPlace(events: seq<D.Event>, name: string) returns (j: nat)
    requires D.LastNaming(events, name).Some?
    ensures j < |events| && D.Names(events[j], name) && D.LastNaming(events, name) == Some(events[j].pod)
    ensures forall i :: j < i < |events| ==> !D.Names(events[i], name)
  {
    j := |events| - 1;
    if !D.Names(events[j], name) {
      j := LastPlace(events[..|events| - 1], name);
      assert events[..|events| - 1][j] == events[j];
      assert forall i :: j < i < |events| - 1 ==> events[..|events| - 1][i] == events[i];
    }
  }

  lemma {:induction false} LastIs(events: seq<D.Event>, name: string, j: nat)
    requires j < |events| && D.Names(events[j], name) && forall i :: j < i < |events| ==> !D.Names(events[i], name)
    ensures D.LastNaming(events, name) == Some(events[j].pod)
  {
    if j < |events| - 1 {
      LastIs(events[..|events| - 1], name, j);
    }
  }

  /** An object is deleted by the first later event that names its pod. */
  lemma FirstHit(node: string, events: seq<D.Event>, j: nat) returns (i: nat)
    requires j < |events| && Creates(node, events, j) && Deleted(events, j)
    ensures j < i < |events| && Hits(node, events, i)
  {
    var name := events[j].pod.name;
    i := j + 1;
    while !D.Names(events[i], name)
      invariant j < i < |events| && (forall k :: j < k < i ==> !D.Names(events[k], name))
      invariant exists k :: i <= k < |events| && D.Names(events[k], name)
      decreases |events| - i
    {
      i := i + 1;
    }
    LastIs(events[..i], name, j);
    D.FollowsLast(node, events[..i], name);
  }

  /** A pod that is hit has a pod object, which the hit deletes. */
  lemma HitObject(node: string, events: seq<D.Event>, i: nat) returns (j: nat)
    requires i < |events| && Hits(node, events, i)
    ensures j < i && Creates(node, events, j) && Deleted(events, j)
  {
    var name := events[i].pod.name;
    D.FollowsLast(node, events[..i], name);
    j := LastPlace(events[..i], name);
    assert events[..i][j] == events[j];
    assert D.Names(events[i], events[j].pod.name);
  }

  /** The traces that can panic the kubelet are those in which some event assigns a pod it holds. */
  lemma CrashIffHit(node: string, events: seq<D.Event>)
    ensures CanCrash(node, events) <==> exists i :: 0 <= i < |events| && Hits(node, events, i)
  {
    hide Creates, Hits, Deleted, ObjectCanCrash;
    if CanCrash(node, events) {
      var j :| 0 <= j < |events| && Creates(node, events, j) && ObjectCanCrash(Deleted(events, j));
      CrashIffDeleted(Deleted(events, j));
      var i := FirstHit(node, events, j);
    }
    if i :| 0 <= i < |events| && Hits(node, events, i) {
      var j := HitObject(node, events, i);
      CrashIffDeleted(Deleted(events, j));
    }
  }
}
