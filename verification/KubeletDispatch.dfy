/** How a kubelet turns pod events into updates of its pod table, over a channel between the watch
    handler, which looks at the table, and the loop, which changes it. */
module KubeletDispatch {
  import opened Options

  /** A pod as the apiserver stores it; `deleting` is the phase that asks for its removal. */
  datatype PodConfig = PodConfig(name: string, nodeName: string, deleting: bool, spec: string)

  datatype Event = Removed | Garbage | Put(pod: PodConfig)

  datatype Op = ADD | DELETE | UPDATE

  datatype PodUpdate = PodUpdate(pods: seq<PodConfig>, op: Op)

  type Table = map<string, PodConfig>

  /** Adding fails where the name is taken. */
  function AddOne(t: Table, pod: PodConfig): Table {
    if pod.name in t then t else t[pod.name := pod]
  }

  function AddAll(t: Table, pods: seq<PodConfig>): Table {
    if pods == [] then t else AddOne(AddAll(t, pods[..|pods| - 1]), pods[|pods| - 1])
  }

  function RemoveAll(t: Table, pods: seq<PodConfig>): Table {
    if pods == [] then t else RemoveAll(t, pods[..|pods| - 1]) - {pods[|pods| - 1].name}
  }

  function Apply(t: Table, u: PodUpdate): Table {
    match u.op
    case ADD => AddAll(t, u.pods)
    case UPDATE => AddAll(RemoveAll(t, u.pods), u.pods)
    case DELETE => RemoveAll(t, u.pods)
  }

  function Drain(t: Table, q: seq<PodUpdate>): Table
    decreases |q|
  {
    if q == [] then t else Drain(Apply(t, q[0]), q[1..])
  }

  /** What the watch handler of a node sends when it finds the table like this. */
  function Sends(node: string, t: Table, e: Event): seq<PodUpdate> {
    if !e.Put? || e.pod.nodeName == "" then []
    else if e.pod.name !in t then
      if e.pod.nodeName == node && !e.pod.deleting then [PodUpdate([e.pod], ADD)] else []
    else if e.pod.nodeName == node && !e.pod.deleting then [PodUpdate([e.pod], UPDATE)]
    else [PodUpdate([e.pod], DELETE)]
  }

  /** The channel drained between events. */
  function Follow(node: string, events: seq<Event>): Table {
    if events == [] then map[]
    else
      var t := Follow(node, events[..|events| - 1]);
      Drain(t, Sends(node, t, events[|events| - 1]))
  }

  predicate Names(e: Event, name: string) {
    e.Put? && e.pod.name == name && e.pod.nodeName != ""
  }

  /** The last event that assigns the pod to some node. */
  function LastNaming(events: seq<Event>, name: string): Option<PodConfig> {
    if events == [] then None
    else if Names(events[|events| - 1], name) then Some(events[|events| - 1].pod)
    else LastNaming(events[..|events| - 1], name)
  }

  /** What a node should hold of a pod. */
  function Wanted(node: string, events: seq<Event>, name: string): Option<PodConfig> {
    var last := LastNaming(events, name);
    if last.Some? && last.value.nodeName == node && !last.value.deleting then last else None
  }

  lemma One(t: Table, pod: PodConfig)
    ensures AddAll(t, [pod]) == AddOne(t, pod) && RemoveAll(t, [pod]) == t - {pod.name}
  {
    assert [pod][..0] == [];
  }

  /** The table after one event on a drained channel. */
  lemma StepDrained(node: string, t: Table, e: Event)
    ensures Drain(t, Sends(node, t, e)) ==
            if !e.Put? || e.pod.nodeName == "" then t
            else if e.pod.nodeName == node && !e.pod.deleting then t[e.pod.name := e.pod]
            else t - {e.pod.name}
  {
    hide AddAll, RemoveAll;
    if e.Put? {
      One(t, e.pod);
      One(t - {e.pod.name}, e.pod);
      assert e.pod.name !in t ==> t - {e.pod.name} == t;
    }
  }

  /** After every trace, the node's table is what the last assignments want. */
  lemma {:induction false} FollowsLast(node: string, events: seq<Event>, name: string)
    ensures var t := Follow(node, events);
            Wanted(node, events, name) == if name in t then Some(t[name]) else None
  {
    if events != [] {
      hide Drain, Sends;
      FollowsLast(node, events[..|events| - 1], name);
      StepDrained(node, Follow(node, events[..|events| - 1]), events[|events| - 1]);
    }
  }

  /** Of two nodes with different names that saw the same events, at most one holds a pod. */
  lemma HeldOnce(node: string, other: string, events: seq<Event>, name: string)
    requires node != other
    ensures !(name in Follow(node, events) && name in Follow(other, events))
  {
    hide Follow;
    FollowsLast(node, events, name);
    FollowsLast(other, events, name);
  }

  /** An event handled while updates still wait comes out differently from one handled after them,
      exactly when a waiting update is to bring the pod in; unless the event would only repeat it. */
  lemma QueueMatters(node: string, t: Table, q: seq<PodUpdate>, e: Event)
    ensures var early := Drain(t, q + Sends(node, t, e));
            var later := Drain(Drain(t, q), Sends(node, Drain(t, q), e));
            early != later <==>
            (e.Put? && e.pod.nodeName != "" && e.pod.name !in t && e.pod.name in Drain(t, q) &&
             !(e.pod.nodeName == node && !e.pod.deleting && Drain(t, q)[e.pod.name] == e.pod))
  {
    hide AddAll, RemoveAll;
    DrainAppend(t, q, Sends(node, t, e));
    var d := Drain(t, q);
    StepDrained(node, d, e);
    if e.Put? {
      One(d, e.pod);
      One(d - {e.pod.name}, e.pod);
      SentOf(node, t, d, e);
    }
  }

  /** What the updates decided on one table do to another. */
  lemma SentOf(node: string, t: Table, d: Table, e: Event)
    requires e.Put?
    ensures Drain(d, Sends(node, t, e)) ==
            if e.pod.nodeName == "" then d
            else if e.pod.nodeName == node && !e.pod.deleting then
              (if e.pod.name in t then d[e.pod.name := e.pod] else AddOne(d, e.pod))
            else if e.pod.name in t then d - {e.pod.name} else d
  {
    hide AddAll, RemoveAll;
    One(d, e.pod);
    One(d - {e.pod.name}, e.pod);
    assert (d - {e.pod.name})[e.pod.name := e.pod] == d[e.pod.name := e.pod];
  }

  lemma {:induction false} DrainAppend(t: Table, p: seq<PodUpdate>, q: seq<PodUpdate>)
    ensures Drain(t, p + q) == Drain(Drain(t, p), q)
    decreases |p|
  {
    if p == [] {
      assert p + q == q;
    } else {
      hide Apply;
      assert (p + q)[1..] == p[1..] + q;
      DrainAppend(Apply(t, p[0]), p[1..], q);
    }
  }

  class PodManager {
    var name2pod: Table

    constructor ()
      ensures name2pod == map[]
    {
      name2pod := map[];
    }

    predicate CheckIfPodExist(podName: string)
      reads this
    {
      podName in name2pod
    }

    method DeletePod(podName: string) returns (ok: bool)
      modifies this
      ensures ok == old(CheckIfPodExist(podName)) && name2pod == old(name2pod) - {podName}
    {
      if !CheckIfPodExist(podName) {
        assert name2pod == name2pod - {podName};
        return false;
      }
      name2pod := name2pod - {podName};
      return true;
    }

    method AddPod(config: PodConfig) returns (ok: bool)
      modifies this
      ensures ok == !old(CheckIfPodExist(config.name)) && name2pod == AddOne(old(name2pod), config)
    {
      if CheckIfPodExist(config.name) {
        return false;
      }
      name2pod := name2pod[config.name := config];
      return true;
    }
  }

  class Kubelet {
    const nodeName: string
    const podManager: PodManager
    /** The channel between the watch handler and the loop. */
    var updates: seq<PodUpdate>

    constructor (nodeName: string)
      ensures this.nodeName == nodeName && updates == [] && fresh(podManager) && podManager.name2pod == map[]
    {
      this.nodeName := nodeName;
      podManager := new PodManager();
      updates := [];
    }

    method WatchPod(res: Event)
      modifies this
      ensures updates == old(updates) + Sends(nodeName, podManager.name2pod, res)
    {
      if !res.Put? {
        return;
      }
      var pod := res.pod;
      if pod.nodeName == "" {
        return;
      }
      var ok := podManager.CheckIfPodExist(pod.name);
      if !ok {
        if pod.nodeName != nodeName {
          return;
        }
        if !pod.deleting {
          updates := updates + [PodUpdate([pod], ADD)];
        }
      } else if pod.nodeName == nodeName {
        if pod.deleting {
          updates := updates + [PodUpdate([pod], DELETE)];
        } else {
          updates := updates + [PodUpdate([pod], UPDATE)];
        }
      } else {
        updates := updates + [PodUpdate([pod], DELETE)];
      }
    }

    method HandlePodAdditions(pods: seq<PodConfig>)
      modifies podManager
      ensures podManager.name2pod == AddAll(old(podManager.name2pod), pods)
    {
      for i := 0 to |pods|
        invariant podManager.name2pod == AddAll(old(podManager.name2pod), pods[..i])
      {
        assert pods[..i + 1][..i] == pods[..i];
        var _ := podManager.AddPod(pods[i]);
      }
      assert pods[..|pods|] == pods;
    }

    method HandlePodRemoves(pods: seq<PodConfig>)
      modifies podManager
      ensures podManager.name2pod == RemoveAll(old(podManager.name2pod), pods)
    {
      for i := 0 to |pods|
        invariant podManager.name2pod == RemoveAll(old(podManager.name2pod), pods[..i])
      {
        assert pods[..i + 1][..i] == pods[..i];
        var _ := podManager.DeletePod(pods[i].name);
      }
      assert pods[..|pods|] == pods;
    }

    /** Delete the old ones, then create the new. */
    method HandlePodUpdates(pods: seq<PodConfig>)
      modifies podManager
      ensures podManager.name2pod == AddAll(RemoveAll(old(podManager.name2pod), pods), pods)
    {
      HandlePodRemoves(pods);
      HandlePodAdditions(pods);
    }

    method SyncLoopIteration()
      requires updates != []
      modifies this, podManager
      ensures updates == old(updates)[1..] && podManager.name2pod == Apply(old(podManager.name2pod), old(updates)[0])
    {
      var u := updates[0];
      updates := updates[1..];
      match u.op
      case UPDATE => HandlePodUpdates(u.pods);
      case ADD => HandlePodAdditions(u.pods);
      case DELETE => HandlePodRemoves(u.pods);
    }

    /** Events one after the other, each followed by what the loop makes of it. */
    method Serve(events: seq<Event>)
      requires updates == [] && podManager.name2pod == map[]
      modifies this, podManager
      ensures updates == [] && podManager.name2pod == Follow(nodeName, events)
      ensures forall name :: Wanted(nodeName, events, name) ==
                             if name in podManager.name2pod then Some(podManager.name2pod[name]) else None
    {
      hide Apply, Sends;
      for i := 0 to |events|
        invariant updates == [] && podManager.name2pod == Follow(nodeName, events[..i])
      {
        ghost var t := podManager.name2pod;
        WatchPod(events[i]);
        ghost var sent := updates;
        assert sent == Sends(nodeName, t, events[i]);
        while updates != []
          invariant Drain(podManager.name2pod, updates) == Drain(t, sent)
          decreases |updates|
        {
          SyncLoopIteration();
        }
        assert events[..i + 1][..i] == events[..i];
      }
      assert events[..|events|] == events;
      forall name
        ensures Wanted(nodeName, events, name) == if name in podManager.name2pod then Some(podManager.name2pod[name])
                else None
      {
        FollowsLast(nodeName, events, name);
      }
    }
  }
}
