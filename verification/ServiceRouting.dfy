/** Where packets go, said in the terms of the service objects alone: pod addresses and target ports. */
module ServiceRouting {
  import opened Options
  import opened Objects
  import opened RoundRobin
  import opened ServiceChain
  import opened ServiceLayout
  import opened ServiceTraffic
  import opened ProxySpec
  import KubeProxy

  /** The service's rule matches the packet. */
  predicate Header(s: Live, f: Flow) {
    s.clusterIp == f.clusterIp && s.protocol == f.protocol && s.port == f.dport
  }

  /** Service number i and no other matches the packet. */
  ghost predicate OnlyFor(live: seq<Live>, i: nat, f: Flow) {
    i < |live| && Header(live[i], f) && forall j | 0 <= j < |live| && j != i :: !Header(live[j], f)
  }

  function Packets(flows: seq<Flow>): (actions: seq<Action>)
    ensures |actions| == |flows| && forall i | 0 <= i < |flows| :: actions[i] == Traffic(flows[i])
  {
    seq(|flows|, i requires 0 <= i < |flows| => Traffic(flows[i]))
  }

  function Times(flows: seq<Flow>, f: Flow): nat {
    if flows == [] then 0 else Times(flows[..|flows| - 1], f) + if flows[|flows| - 1] == f then 1 else 0
  }

  /** A packet changes the count of the service that takes it. */
  lemma ServedOne(live: seq<Live>, i: nat, f: Flow, g: Flow)
    requires OnlyFor(live, i, f) && live[i].units != []
    ensures OnlyFor(Served(live, g), i, f)
    ensures Served(live, g)[i] == live[i].(hits := live[i].hits + if g == f then 1 else 0)
    ensures Destination(live, f) == Some(Turn(live[i]))
  {
    hide Turn;
    assert Takes(live[i], f);
    assert Taker(live, f, 0) == i;
  }

  lemma {:induction false} TrafficOnly(v: View, i: nat, f: Flow, flows: seq<Flow>)
    requires OnlyFor(v.live, i, f) && v.live[i].units != []
    ensures var live := Run(v, Packets(flows)).live;
            OnlyFor(live, i, f) && live[i] == v.live[i].(hits := v.live[i].hits + Times(flows, f))
  {
    hide Served, OnlyFor;
    if flows != [] {
      var init, g := flows[..|flows| - 1], flows[|flows| - 1];
      assert Packets(flows)[..|flows| - 1] == Packets(init);
      TrafficOnly(v, i, f, init);
      ServedOne(Run(v, Packets(init)).live, i, f, g);
    }
  }

  lemma {:induction false} RunFrom(v: View, a: Action, rest: seq<Action>)
    ensures Run(v, [a] + rest) == Run(Step(v, a), rest)
    ensures RunOk(v, [a] + rest) <==> ActionOk(v, a) && RunOk(Step(v, a), rest)
  {
    hide Step, ActionOk;
    if rest == [] {
      assert [a] + rest == [a] && [a][..0] == [];
      assert Run(v, [a][..0]) == v;
    } else {
      assert ([a] + rest)[..|rest|] == [a] + rest[..|rest| - 1];
      RunFrom(v, a, rest[..|rest| - 1]);
    }
  }

  lemma {:induction false} TrafficOk(v: View, flows: seq<Flow>)
    ensures RunOk(v, Packets(flows))
  {
    if flows != [] {
      assert Packets(flows)[..|flows| - 1] == Packets(flows[..|flows| - 1]);
      TrafficOk(v, flows[..|flows| - 1]);
    }
  }

  /** Where the next packet of service i goes after an event and some traffic. */
  lemma AfterEvent(v: View, e: Event, i: nat, f: Flow, flows: seq<Flow>)
    requires var live := Next(v, e).live; OnlyFor(live, i, f) && live[i].units != []
    ensures var s := Next(v, e).live[i];
            var u := s.units[(s.hits + Times(flows, f)) % |s.units|];
            Destination(Run(v, [Watch(e)] + Packets(flows)).live, f) == Some(u.podIp + ":" + u.podPort)
  {
    hide OnlyFor, Destination, Next;
    RunFrom(v, Watch(e), Packets(flows));
    TrafficOnly(Next(v, e), i, f, flows);
    ServedOne(Run(Next(v, e), Packets(flows)).live, i, f, f);
  }

  /** The flow of one port of a service. */
  function FlowOf(spec: ServiceSpec, p: Port): Flow {
    Flow(spec.clusterIp, p.protocol, p.port)
  }

  lemma SvcNameByPort(spec: ServiceSpec, p: Port, q: Port)
    ensures SvcName(spec, p) == SvcName(spec, q) <==> p.port == q.port
  {
    if SvcName(spec, p) == SvcName(spec, q) {
      CancelPrefix(SVC_PREFIX + "-" + spec.name, p.port, q.port);
    }
  }

  lemma FreshAt(key: string, spec: ServiceSpec, k: nat)
    requires k < |spec.ports|
    ensures var s := FreshAll(key, spec)[k];
            && s.key == key && s.name == SvcName(spec, spec.ports[k]) && s.hits == 0 && |s.units| == |spec.pods|
            && (forall f :: Header(s, f) <==> f == FlowOf(spec, spec.ports[k]))
            && forall j | 0 <= j < |spec.pods| ::
                 s.units[j] == PodUnit(spec.pods[j].ip, spec.pods[j].name, spec.ports[k].targetPort)
  {
  }

  lemma CreatedOnly(v: View, key: string, spec: ServiceSpec, i: nat)
    requires key !in v.keys && !spec.failed && EventOk(v, Put(key, spec)) && i < |spec.ports|
    requires forall j | 0 <= j < |v.live| :: !Header(v.live[j], FlowOf(spec, spec.ports[i]))
    ensures OnlyFor(Next(v, Put(key, spec)).live, |v.live| + i, FlowOf(spec, spec.ports[i]))
  {
    hide FreshAll, SvcName, CollisionFree;
    var live, f := v.live + FreshAll(key, spec), FlowOf(spec, spec.ports[i]);
    NamesDiffer(live);
    FreshAt(key, spec, i);
    forall j | 0 <= j < |live| && j != |v.live| + i
      ensures !Header(live[j], f)
    {
      if j >= |v.live| {
        FreshAt(key, spec, j - |v.live|);
        SvcNameByPort(spec, spec.ports[i], spec.ports[j - |v.live|]);
        assert live[j].name != live[|v.live| + i].name;
        assert live[j] == FreshAll(key, spec)[j - |v.live|];
      }
    }
  }

  /** The packets to one port of a new service go to its pods in turn, at the target port. */
  lemma CreateRoutes(v: View, key: string, spec: ServiceSpec, i: nat, flows: seq<Flow>)
    requires key !in v.keys && !spec.failed && EventOk(v, Put(key, spec)) && i < |spec.ports| && spec.pods != []
    requires forall j | 0 <= j < |v.live| :: !Header(v.live[j], FlowOf(spec, spec.ports[i]))
    ensures var f := FlowOf(spec, spec.ports[i]);
            Destination(Run(v, [Watch(Put(key, spec))] + Packets(flows)).live, f) ==
            Some(spec.pods[Times(flows, f) % |spec.pods|].ip + ":" + spec.ports[i].targetPort)
  {
    hide FreshAll, EventOk, Destination, Run, OnlyFor;
    CreatedOnly(v, key, spec, i);
    FreshAt(key, spec, i);
    assert Next(v, Put(key, spec)).live[|v.live| + i] == FreshAll(key, spec)[i];
    AfterEvent(v, Put(key, spec), |v.live| + i, FlowOf(spec, spec.ports[i]), flows);
  }

  /** Ports are told apart by their number. */
  ghost predicate PortsDiffer(ports: seq<Port>) {
    forall i, j | 0 <= i < j < |ports| :: ports[i].port != ports[j].port
  }

  /** A port that comes after none unknown is rewired, once, and nothing else happens to its service. */
  lemma {:induction false} EditedAt(live: seq<Live>, key: string, spec: ServiceSpec, ports: seq<Port>, i: nat, x: nat)
    requires DistinctLive(live) && PortsDiffer(ports) && i < |ports| && x < |live|
    requires live[x].key == key && live[x].name == SvcName(spec, ports[i])
    requires forall k | 0 <= k <= i :: Owns(live, key, SvcName(spec, ports[k]))
    ensures var r := EditPorts(live, key, spec, ports);
            |r| == |live| && r[x] == Changed(live[x], Rewire(UnitsFor(spec, ports[i])))
    decreases |ports|
  {
    hide Alter, UnitsFor, SvcName, Owns, Effective;
    var p, rest := ports[0], ports[1..];
    var next := EditPort(live, key, spec, p);
    AlterEach(live, key, SvcName(spec, p), Rewire(UnitsFor(spec, p)));
    assert Owns(live, key, SvcName(spec, p));
    SameNames(live, next);
    if i == 0 {
      EditedNot(next, key, spec, rest, x, ports, 0);
    } else {
      SvcNameByPort(spec, ports[0], ports[i]);
      assert rest[i - 1] == ports[i];
      EditedAt(next, key, spec, rest, i - 1, x);
    }
  }

  lemma SameNames(live: seq<Live>, next: seq<Live>)
    requires |next| == |live| && forall i | 0 <= i < |live| :: next[i].name == live[i].name
                                                               && next[i].key == live[i].key
    ensures DistinctLive(live) ==> DistinctLive(next)
    ensures forall key, name :: Owns(live, key, name) <==> Owns(next, key, name)
  {
    forall key, name
      ensures Owns(live, key, name) <==> Owns(next, key, name)
    {
      if Owns(live, key, name) {
        var i := Rank(live, key, name);
        assert next[i].key == key && next[i].name == name;
      }
      if Owns(next, key, name) {
        var i := Rank(next, key, name);
        assert live[i].key == key && live[i].name == name;
      }
    }
  }

  /** The other ports leave it alone. */
  lemma {:induction false} EditedNot(live: seq<Live>, key: string, spec: ServiceSpec, rest: seq<Port>, x: nat,
                                     ports: seq<Port>, i: nat)
    requires i < |ports| && x < |live| && live[x].name == SvcName(spec, ports[i])
    requires forall k | 0 <= k < |rest| :: rest[k].port != ports[i].port
    ensures var r := EditPorts(live, key, spec, rest); |r| == |live| && r[x] == live[x]
    decreases |rest|
  {
    hide Alter, UnitsFor, SvcName, Owns;
    if rest != [] {
      AlterEach(live, key, SvcName(spec, rest[0]), Rewire(UnitsFor(spec, rest[0])));
      SvcNameByPort(spec, rest[0], ports[i]);
      EditedNot(EditPort(live, key, spec, rest[0]), key, spec, rest[1..], x, ports, i);
    }
  }

  /** Ports behind one the service does not have are not looked at. */
  lemma {:induction false} StopsAtUnknown(live: seq<Live>, key: string, spec: ServiceSpec, ports: seq<Port>, n: nat)
    requires n < |ports| && !Owns(live, key, SvcName(spec, ports[n]))
    ensures EditPorts(live, key, spec, ports) == EditPorts(live, key, spec, ports[..n])
    decreases |ports|
  {
    hide Alter, UnitsFor, SvcName, Owns;
    if n > 0 && Owns(live, key, SvcName(spec, ports[0])) {
      var next := EditPort(live, key, spec, ports[0]);
      AlterEach(live, key, SvcName(spec, ports[0]), Rewire(UnitsFor(spec, ports[0])));
      SameNames(live, next);
      assert ports[..n][1..] == ports[1..][..n - 1] && ports[1..][n - 1] == ports[n];
      StopsAtUnknown(next, key, spec, ports[1..], n - 1);
    }
  }

  /** A service that failed before it was known stays unknown. */
  lemma FailedIgnored(v: View, key: string, spec: ServiceSpec)
    requires key !in v.keys
    ensures Next(v, Put(key, spec)) == v <==> spec.failed
    ensures key in Next(v, Put(key, spec)).keys <==> !spec.failed
  {
  }

  /** The address a pod has after an update: the one it had, or the one the new list gives. */
  ghost predicate AddressAfter(before: seq<PodUnit>, pod: PodNameAndIp, targetPort: string, address: string) {
    if Named(before, pod.name)
    then exists u :: u in before && u.podName == pod.name && address == u.podIp + ":" + u.podPort
    else address == pod.ip + ":" + targetPort
  }

  lemma RewiredUnits(s: Live, spec: ServiceSpec, p: Port, j: nat)
    requires j < |spec.pods|
    ensures var r := Changed(s, Rewire(UnitsFor(spec, p)));
            && |r.units| == |spec.pods| && r.hits == 0 && r.clusterIp == s.clusterIp && r.protocol == s.protocol
               && r.port == s.port
            && AddressAfter(s.units, spec.pods[j], p.targetPort, r.units[j].podIp + ":" + r.units[j].podPort)
  {
    var r := Changed(s, Rewire(UnitsFor(spec, p)));
    if Named(s.units, spec.pods[j].name) {
      assert r.units[j] in s.units && r.units[j].podName == spec.pods[j].name;
    }
  }

  lemma {:induction false} EditedHeaders(live: seq<Live>, key: string, spec: ServiceSpec, ports: seq<Port>)
    ensures var r := EditPorts(live, key, spec, ports);
            |r| == |live| && forall j, f | 0 <= j < |live| :: Header(r[j], f) <==> Header(live[j], f)
    decreases |ports|
  {
    hide Alter, UnitsFor, SvcName, Owns, Effective;
    if ports != [] && Owns(live, key, SvcName(spec, ports[0])) {
      AlterEach(live, key, SvcName(spec, ports[0]), Rewire(UnitsFor(spec, ports[0])));
      EditedHeaders(EditPort(live, key, spec, ports[0]), key, spec, ports[1..]);
    }
  }

  /** The packets to one port of an updated service go to its pods in turn again from the first: to the
      address and target port of the new list, or for a pod that stays to the address it had. */
  lemma UpdateRoutes(v: View, key: string, spec: ServiceSpec, i: nat, x: nat, f: Flow, flows: seq<Flow>)
    requires key in v.keys && DistinctLive(v.live) && PortsDiffer(spec.ports) && i < |spec.ports| && spec.pods != []
    requires forall k | 0 <= k <= i :: Owns(v.live, key, SvcName(spec, spec.ports[k]))
    requires OnlyFor(v.live, x, f) && v.live[x].key == key && v.live[x].name == SvcName(spec, spec.ports[i])
    ensures var d := Destination(Run(v, [Watch(Put(key, spec))] + Packets(flows)).live, f);
            d.Some? && AddressAfter(v.live[x].units, spec.pods[Times(flows, f) % |spec.pods|],
              spec.ports[i].targetPort, d.value)
  {
    var live := EditPorts(v.live, key, spec, spec.ports);
    EditedAt(v.live, key, spec, spec.ports, i, x);
    EditedHeaders(v.live, key, spec, spec.ports);
    hide EditPorts, UnitsFor, Destination, Run, Owns, SvcName, AddressAfter, Changed, DistinctLive;
    RewiredUnits(v.live[x], spec, spec.ports[i], Times(flows, f) % |spec.pods|);
    assert OnlyFor(live, x, f);
    AfterEvent(v, Put(key, spec), x, f, flows);
  }

  /** The first packets of a new service, on the table itself. */
  method ServeNew(proxy: KubeProxy.Proxy, key: string, spec: ServiceSpec, i: nat, flows: seq<Flow>)
    returns (ds: seq<Option<string>>)
    requires proxy.Valid() && proxy.intact && key !in proxy.services && EventOk(proxy.ToView(), Put(key, spec))
    requires !spec.failed && i < |spec.ports| && spec.pods != []
    requires forall j | 0 <= j < |proxy.live| :: !Header(proxy.live[j], FlowOf(spec, spec.ports[i]))
    modifies proxy, proxy.ipt, proxy.repr
    ensures |ds| == |flows|
    ensures var f := FlowOf(spec, spec.ports[i]);
            forall k | 0 <= k < |flows| && flows[k] == f ::
              ds[k] == Some(spec.pods[Times(flows[..k], f) % |spec.pods|].ip + ":" + spec.ports[i].targetPort)
  {
    hide KubeProxy.Proxy.Valid, Destination, Run, RunOk, EventOk, CollisionFree, Layout, AllNoticed, FlowOf;
    ghost var v := proxy.ToView();
    var actions := [Watch(Put(key, spec))] + Packets(flows);
    var all := proxy.Serve(actions);
    ds := all[1..];
    forall k | 0 <= k < |flows| && flows[k] == FlowOf(spec, spec.ports[i])
      ensures RunOk(v, actions[..k + 1])
      ensures actions[..k + 1] == [Watch(Put(key, spec))] + Packets(flows[..k])
    {
      assert actions[..k + 1] == [Watch(Put(key, spec))] + Packets(flows[..k]);
      RunFrom(v, Watch(Put(key, spec)), Packets(flows[..k]));
      TrafficOk(Step(v, Watch(Put(key, spec))), flows[..k]);
      CreateRoutes(v, key, spec, i, flows[..k]);
    }
    var f := FlowOf(spec, spec.ports[i]);
    forall k | 0 <= k < |flows| && flows[k] == f
      ensures ds[k] == Some(spec.pods[Times(flows[..k], f) % |spec.pods|].ip + ":" + spec.ports[i].targetPort)
    {
      assert actions[k + 1] == Traffic(f);
      CreateRoutes(v, key, spec, i, flows[..k]);
    }
  }
}
