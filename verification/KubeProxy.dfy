/** kube-proxy's reaction to service events, against the live services alone. Every method may be
    called in every state; `intact` tells that no command has failed or been ambiguous so far. */
module KubeProxy {
  import opened Options
  import opened Collections
  import opened NatTable
  import opened RoundRobin
  import opened ServiceChain
  import opened ServiceLayout
  import opened ServiceTraffic
  import opened ProxySpec

  type Services = map<string, map<string, SvcChain>>

  /** Every chain object is filed under the key of its service, which is live. */
  ghost predicate Filed<V>(svcs: map<string, map<string, V>>, live: seq<Live>) {
    forall k, n | k in svcs && n in svcs[k] :: Owns(live, k, n)
  }

  lemma FiledSame<V>(svcs: map<string, map<string, V>>, live: seq<Live>, i: nat, s: Live)
    requires Filed(svcs, live) && i < |live| && s.name == live[i].name && s.key == live[i].key
    ensures Filed(svcs, live[i := s])
  {
    forall k, n | k in svcs && n in svcs[k] ensures Owns(live[i := s], k, n) {
      var j := Rank(live, k, n);
      assert live[i := s][j].name == n && live[i := s][j].key == k;
    }
  }

  lemma FiledAdd<V>(svcs: map<string, map<string, V>>, svcS: map<string, V>, v: V, live: seq<Live>, s: Live)
    requires Filed(svcs[s.key := svcS], live)
    ensures Filed(svcs[s.key := svcS[s.name := v]], live + [s])
  {
    var before, after := svcs[s.key := svcS], svcs[s.key := svcS[s.name := v]];
    assert (live + [s])[|live|] == s;
    forall k, n | k in after && n in after[k] ensures Owns(live + [s], k, n) {
      if k != s.key || n != s.name {
        assert k in before && n in before[k];
        var j := Rank(live, k, n);
        assert (live + [s])[j] == live[j];
      }
    }
  }

  /** The service's own map only has to lose the one removed. */
  lemma FiledDrop<V>(svcs: map<string, map<string, V>>, svcS: map<string, V>, live: seq<Live>, i: nat)
    requires i < |live| && Filed(svcs[live[i].key := svcS], live)
    ensures Filed(svcs[live[i].key := svcS - {live[i].name}], RemoveAt(live, i))
  {
    var before, after, r := svcs[live[i].key := svcS], svcs[live[i].key := svcS - {live[i].name}], RemoveAt(live, i);
    forall k, n | k in after && n in after[k] ensures Owns(r, k, n) {
      assert k in before && n in before[k];
      var j := Rank(live, k, n);
      assert j != i;
      assert r[if j < i then j else j - 1] == live[j];
    }
  }

  ghost predicate Backs(svc: SvcChain, ipt: IpTables, s: Live)
    reads svc
  {
    && svc.ipt == ipt && svc.name == s.name && svc.fatherChain == SERVICE_CHAIN
    && svc.clusterIp == s.clusterIp && svc.clusterPort == s.port && svc.protocol == s.protocol
    && svc.Valid() && svc.order == s.Order()
  }

  /** The chain object of a live service. */
  ghost predicate Recorded(ipt: IpTables, repr: set<SvcChain>, svcs: Services, s: Live)
    reads repr
  {
    && s.key in svcs && s.name in svcs[s.key] && svcs[s.key][s.name] in repr
    && Backs(svcs[s.key][s.name], ipt, s)
  }

  ghost predicate AllRecorded(ipt: IpTables, repr: set<SvcChain>, svcs: Services, live: seq<Live>)
    reads repr
  {
    forall i | 0 <= i < |live| :: Recorded(ipt, repr, svcs, live[i])
  }

  /** The chain objects are the proxy's own. */
  ghost predicate Framed(ipt: IpTables, repr: set<SvcChain>, svcs: Services) {
    forall k, n | k in svcs && n in svcs[k] :: svcs[k][n] in repr && svcs[k][n].ipt == ipt
  }

  lemma FiledUnder(ipt: IpTables, repr: set<SvcChain>, svcs: Services, live: seq<Live>, key: string)
    requires AllRecorded(ipt, repr, svcs, live) && Filed(svcs, live) && key in svcs && DistinctLive(live)
    ensures forall i | 0 <= i < |live| :: live[i].name in svcs[key].Keys <==> live[i].key == key
  {
    hide Backs;
    forall i | 0 <= i < |live| ensures live[i].name in svcs[key].Keys <==> live[i].key == key {
      assert Recorded(ipt, repr, svcs, live[i]);
      if live[i].name in svcs[key] {
        assert Rank(live, key, live[i].name) == i;
      }
    }
  }

  lemma RecordedAdd(ipt: IpTables, repr: set<SvcChain>, svcs: Services,
                    svcS: map<string, SvcChain>, tmp: SvcChain, live: seq<Live>, s: Live)
    requires AllRecorded(ipt, repr, svcs[s.key := svcS], live) && s.name !in svcS && Backs(tmp, ipt, s)
    ensures AllRecorded(ipt, repr + {tmp}, svcs[s.key := svcS[s.name := tmp]], live + [s])
  {
    hide Backs;
    forall i | 0 <= i < |live + [s]|
      ensures Recorded(ipt, repr + {tmp}, svcs[s.key := svcS[s.name := tmp]], (live + [s])[i])
    {
      if i < |live| {
        assert Recorded(ipt, repr, svcs[s.key := svcS], live[i]);
      }
    }
  }

  lemma RecordedDrop(ipt: IpTables, repr: set<SvcChain>, svcs: Services, left: map<string, SvcChain>,
                     live: seq<Live>, i: nat)
    requires DistinctLive(live) && i < |live|
    requires AllRecorded(ipt, repr, svcs[live[i].key := left], live)
    ensures AllRecorded(ipt, repr, svcs[live[i].key := left - {live[i].name}], RemoveAt(live, i))
  {
    hide Backs;
    var r := RemoveAt(live, i);
    forall j | 0 <= j < |r| ensures Recorded(ipt, repr, svcs[live[i].key := left - {live[i].name}], r[j]) {
      var j' := if j < i then j else j + 1;
      assert r[j] == live[j'] && Recorded(ipt, repr, svcs[live[i].key := left], live[j']);
    }
  }

  lemma CountedRecord(ipt: IpTables, repr: set<SvcChain>, svcs: Services, live: seq<Live>, i: nat)
    requires AllRecorded(ipt, repr, svcs, live) && i < |live|
    ensures AllRecorded(ipt, repr, svcs, live[i := Changed(live[i], Packet)])
  {
    hide Plan;
    var live' := live[i := Changed(live[i], Packet)];
    forall j | 0 <= j < |live'| ensures Recorded(ipt, repr, svcs, live'[j]) {
      assert Recorded(ipt, repr, svcs, live[j]);
    }
  }

  /** The chain, the pods and the general chain's rule of a new service port. */
  method BuildPort(ipt: IpTables, spec: ServiceSpec, p: Port, ghost sound: bool, ghost live: seq<Live>, ghost s: Live)
    returns (svc: SvcChain)
    requires s == Fresh(s.key, spec, p)
    requires sound ==> CollisionFree(live) && ipt.table == Layout(live)
    modifies ipt
    ensures fresh(svc) && svc.ipt == ipt && svc.name == SvcName(spec, p) && old(ipt.faults) <= ipt.faults
    ensures sound && CollisionFree(live + [s]) ==>
              Backs(svc, ipt, s) && ipt.table == Layout(live + [s]) && ipt.faults == old(ipt.faults)
    ensures sound && !CollisionFree(live + [s]) ==> ipt.faults > old(ipt.faults)
  {
    hide Layout, Entries, EndsOf, Apart, Assemble, DistinctNames, DistinctSeps, OnePort, Jumps, Plan, UnitsOf,
         CollisionFree, ByPod, UnitsFor, Fits, Closed, Clashes, JumpEntries;
    if sound {
      LayoutExtend(live, s);
      UnitsOnePort(spec, p);
      BuildClash(ipt.table, s.name, s.units);
    }
    svc := new SvcChain(ipt, spec.name, SERVICE_CHAIN, spec.clusterIp, p.port, p.protocol, UnitsFor(spec, p), sound);
    var _ := svc.ApplyRule();
  }

  class Proxy {
    const ipt: IpTables
    var services: Services
    /** No command has failed so far, nor has a `-D` met more than one rule. */
    ghost var intact: bool
    ghost var live: seq<Live>
    ghost var repr: set<SvcChain>

    ghost function ToView(): View
      reads this
    {
      View(services.Keys, live)
    }

    /** The table is exactly the layout of the live services, and `svcs` holds their chains. */
    ghost predicate Sound(svcs: Services)
      reads this, ipt, repr
    {
      && CollisionFree(live) && ipt.table == Layout(live)
      && AllRecorded(ipt, repr, svcs, live)
      && Filed(svcs, live)
    }

    ghost predicate ValidWith(svcs: Services)
      reads this, ipt, repr
    {
      Framed(ipt, repr, svcs) && (intact ==> Sound(svcs))
    }

    ghost predicate Valid()
      reads this, ipt, repr
    {
      ValidWith(services)
    }

    constructor (ipt: IpTables)
      requires ipt.table == map[SERVICE_CHAIN := []]
      ensures this.ipt == ipt && Valid() && intact && ToView() == View({}, [])
    {
      this.ipt := ipt;
      services := map[];
      intact := true;
      live := [];
      repr := {};
    }

    /** `UpdateRule` on the chain of live service number i. */
    method EditAt(target: SvcChain, units: seq<PodUnit>, ghost i: nat)
      requires Valid() && target in repr && target.ipt == ipt
      requires intact ==> i < |live| && Recorded(ipt, repr, services, live[i])
                          && target == services[live[i].key][live[i].name]
      modifies this`live, this`intact, ipt, repr
      ensures Valid() && old(ipt.faults) <= ipt.faults
      ensures old(intact) ==>
              intact == CollisionFree(Alter(old(live), old(live[i]).key, old(live[i]).name, Rewire(units)))
      ensures intact ==> old(intact) && live == Alter(old(live), old(live[i]).key, old(live[i]).name, Rewire(units))
                         && ipt.faults == old(ipt.faults)
      ensures old(intact) ==>
                (ipt.faults > old(ipt.faults) <==> EditClashes(old(live), i, units))
      ensures old(intact) && !intact && DistinctPods(units) ==> ipt.faults > old(ipt.faults)
    {
      hide Alter, Layout, Entries, Effective, EndsOf, Apart, Assemble, DistinctNames, DistinctSeps, UpdateClashes,
           Jumps, Plan, UnitsOf,
           CollisionFree, Others, ByPod, Owns, Filed, Fits, Closed, Framed;
      ghost var live0 := live;
      ghost var s: Live, s': Live;
      ghost var rest: Table := map[];
      ghost var ents: seq<Entry> := [];
      if intact {
        s := live[i];
        s' := Changed(s, Rewire(units));
        EditFacts(live, i, units);
        if DistinctPods(units) {
          EditClash(live, i, units);
        }
        FiledSame(services, live, i, s');
        rest, ents := Others(live, i), Entries(s.Order(), s.hits);
      }
      target.UpdateRule(units, intact, rest, ents);
      if intact {
        if CollisionFree(live[i := s']) {
          live := live[i := s'];
          assert Backs(target, ipt, s');
          forall j | 0 <= j < |live| ensures Recorded(ipt, repr, services, live[j]) {
            assert old(Recorded(ipt, repr, services, live0[j]));
          }
        } else {
          intact := false;
        }
      }
    }

    /** One port of a PUT for a known service. */
    method UpdatePort(key: string, spec: ServiceSpec, p: Port) returns (found: bool)
      requires Valid() && key in services
      modifies this`live, this`intact, ipt, repr
      ensures Valid() && old(ipt.faults) <= ipt.faults
      ensures old(intact) ==> found == Owns(old(live), key, SvcName(spec, p))
      ensures old(intact) ==> intact == (found ==> CollisionFree(EditPort(old(live), key, spec, p)))
      ensures intact ==> old(intact) && live == (if found then EditPort(old(live), key, spec, p) else old(live))
                         && ipt.faults == old(ipt.faults)
      ensures old(intact) ==> (ipt.faults > old(ipt.faults) <==> PortClashes(old(live), key, spec, p))
      ensures old(intact) && !intact && DistinctPods(UnitsFor(spec, p)) ==> ipt.faults > old(ipt.faults)
    {
      hide Layout, CollisionFree, Backs, Alter, DistinctPods, EditClashes;
      var name := SvcName(spec, p);
      found := name in services[key];
      assert intact && Owns(live, key, name) ==> Recorded(ipt, repr, services, live[Rank(live, key, name)]);
      if found {
        EditAt(services[key][name], UnitsFor(spec, p), if intact then Rank(live, key, name) else 0);
      }
    }

    /** PUT for a known service. */
    method OnUpdate(key: string, spec: ServiceSpec)
      requires Valid() && key in services
      modifies this`live, this`intact, ipt, repr
      ensures Valid() && old(ipt.faults) <= ipt.faults
      ensures old(intact) ==> intact == EditsOk(old(live), key, spec, spec.ports)
      ensures intact ==> old(intact) && live == EditPorts(old(live), key, spec, spec.ports)
                         && ipt.faults == old(ipt.faults)
      ensures old(intact) && !intact && PodsDiffer(Put(key, spec)) ==> ipt.faults > old(ipt.faults)
    {
      hide Layout, CollisionFree, Owns, SvcName, Alter, UnitsFor, Filed, AllRecorded, Framed, EditPort, Valid,
           DistinctPods, PodsDiffer, PortClashes;
      assert spec.ports[0..] == spec.ports;
      for i := 0 to |spec.ports|
        invariant Valid() && old(ipt.faults) <= ipt.faults
        invariant intact ==> old(intact) && ipt.faults == old(ipt.faults)
        invariant intact ==> EditPorts(live, key, spec, spec.ports[i..]) == EditPorts(old(live), key, spec, spec.ports)
        invariant intact ==> EditsOk(live, key, spec, spec.ports[i..]) == EditsOk(old(live), key, spec, spec.ports)
        invariant old(intact) && !intact ==> !EditsOk(old(live), key, spec, spec.ports)
        invariant old(intact) && !intact && PodsDiffer(Put(key, spec)) ==> ipt.faults > old(ipt.faults)
      {
        assert spec.ports[i..][1..] == spec.ports[i + 1..];
        if PodsDiffer(Put(key, spec)) {
          UnitsDiffer(key, spec, spec.ports[i]);
        }
        var found := UpdatePort(key, spec, spec.ports[i]);
        if !found {
          return;
        }
      }
    }

    /** One port of a PUT for an unknown service. */
    method CreatePort(key: string, spec: ServiceSpec, p: Port, svcS: map<string, SvcChain>)
      returns (svcS': map<string, SvcChain>)
      requires ValidWith(services[key := svcS])
      modifies this`live, this`intact, this`repr, ipt
      ensures ValidWith(services[key := svcS']) && fresh(repr - old(repr)) && old(repr) <= repr
              && old(ipt.faults) <= ipt.faults
      ensures old(intact) ==> intact == CollisionFree(old(live) + [Fresh(key, spec, p)])
      ensures intact ==> old(intact) && live == old(live) + [Fresh(key, spec, p)] && ipt.faults == old(ipt.faults)
      ensures old(intact) && !intact ==> ipt.faults > old(ipt.faults)
    {
      hide Layout, CollisionFree, Backs, SvcName, AllRecorded, Filed, Owns, Recorded, Framed;
      ghost var s := Fresh(key, spec, p);
      ghost var joins := intact && CollisionFree(live + [s]);
      if joins {
        NotFiled(services[key := svcS], s);
      }
      var tmp := BuildPort(ipt, spec, p, intact, live, s);
      svcS' := svcS[tmp.name := tmp];
      FramedAdd(ipt, repr, services, key, svcS, tmp);
      if joins {
        RecordedAdd(ipt, repr, services, svcS, tmp, live, s);
        FiledAdd(services, svcS, tmp, live, s);
        live := live + [s];
      }
      intact, repr := joins, repr + {tmp};
    }

    lemma NotFiled(svcs: Services, s: Live)
      requires Sound(svcs) && s.key in svcs && CollisionFree(live + [s])
      ensures s.name !in svcs[s.key]
    {
      hide Layout, CollisionFree, Backs;
      NotOwned(live, s);
    }

    /** PUT for an unknown service that has not failed. */
    method OnCreate(key: string, spec: ServiceSpec)
      requires Valid() && key !in services
      modifies this, ipt
      ensures Valid() && fresh(repr - old(repr)) && services.Keys == old(services.Keys) + {key}
              && old(ipt.faults) <= ipt.faults
      ensures old(intact) ==> intact == CollisionFree(old(live) + FreshAll(key, spec))
      ensures intact ==> old(intact) && live == old(live) + FreshAll(key, spec) && ipt.faults == old(ipt.faults)
      ensures old(intact) && !intact ==> ipt.faults > old(ipt.faults)
    {
      hide SvcName, Fresh, FreshAll, CollisionFree, Layout, AllRecorded, Filed, Framed, UnitsFor;
      var svcS: map<string, SvcChain> := map[];
      StartEmpty(key);
      for i := 0 to |spec.ports|
        invariant services == old(services) && ValidWith(services[key := svcS])
        invariant old(ipt.faults) <= ipt.faults && fresh(repr - old(repr)) && old(repr) <= repr
        invariant intact ==> old(intact) && ipt.faults == old(ipt.faults)
                             && live == old(live) + FreshAll(key, spec)[..i]
        invariant old(intact) && !intact ==> ipt.faults > old(ipt.faults)
                                             && !CollisionFree(old(live) + FreshAll(key, spec))
      {
        FreshPrefix(key, spec, i);
        ghost var longer := old(live) + FreshAll(key, spec)[..i + 1];
        assert longer == old(live) + FreshAll(key, spec)[..i] + [Fresh(key, spec, spec.ports[i])];
        svcS := CreatePort(key, spec, spec.ports[i], svcS);
        if !CollisionFree(longer) {
          FreePrefix(old(live) + FreshAll(key, spec), |longer|);
          assert (old(live) + FreshAll(key, spec))[..|longer|] == longer;
        }
      }
      services := services[key := svcS];
      assert FreshAll(key, spec)[..|spec.ports|] == FreshAll(key, spec);
      assert intact ==> Sound(services);
    }

    /** Removes the service port `name` of `key`, whose remaining ports are `left`. */
    method DropPort(key: string, name: string, svc: SvcChain, ghost left: map<string, SvcChain>)
      returns (ghost i: nat)
      requires ValidWith(services[key := left]) && name in left && svc == left[name]
      modifies this`live, ipt
      ensures ValidWith(services[key := left - {name}]) && old(ipt.faults) <= ipt.faults
      ensures intact ==> i < |old(live)| && old(live)[i].name == name && live == RemoveAt(old(live), i)
                         && ipt.faults == old(ipt.faults)
    {
      hide Layout, Entries, EndsOf, Apart, Assemble, DistinctNames, DistinctSeps, Jumps, Plan, UnitsOf,
           CollisionFree, Others, ByPod,
           Owns, Filed, AllRecorded, Framed, IsOnly, Referenced, Closed;
      FramedDrop(ipt, repr, services, key, left, name);
      i := 0;
      ghost var rest: Table := map[];
      ghost var ents: seq<Entry> := [];
      if intact {
        i := DropFacts(key, name, svc, left);
        var s := live[i];
        LayoutParts(live, i);
        LayoutDrop(live, i);
        EntriesJumpAt(s.Order(), s.hits);
        rest, ents := Others(live, i), Entries(s.Order(), s.hits);
      }
      var _ := svc.DeleteRule(intact, rest, ents, i);
      if intact {
        live := RemoveAt(live, i);
      }
    }

    lemma DropFacts(key: string, name: string, svc: SvcChain, left: map<string, SvcChain>) returns (i: nat)
      requires Sound(services[key := left]) && name in left && svc == left[name]
      ensures i < |live| && live[i].name == name && Backs(svc, ipt, live[i])
      ensures Filed(services[key := left - {name}], RemoveAt(live, i))
      ensures AllRecorded(ipt, repr, services[key := left - {name}], RemoveAt(live, i))
    {
      ghost var svcs := services[key := left];
      assert name in svcs[key];
      i := Rank(live, key, name);
      assert Recorded(ipt, repr, svcs, live[i]);
      NamesDiffer(live);
      hide Layout, CollisionFree, Backs;
      FiledDrop(services, left, live, i);
      RecordedDrop(ipt, repr, services, left, live, i);
    }

    /** DELETE of a known service: all its ports, in whatever order the map yields them. */
    method OnDelete(key: string)
      requires Valid() && key in services
      modifies this`services, this`live, ipt
      ensures Valid() && services.Keys == old(services.Keys) - {key} && old(ipt.faults) <= ipt.faults
      ensures intact ==> live == Except(old(live), key) && ipt.faults == old(ipt.faults)
    {
      hide Without, Except, DistinctLive, CollisionFree, Layout, AllRecorded, Filed, Framed;
      var svcs := services[key];
      var todo := svcs.Keys;
      ghost var live0, gone, left := live, {}, svcs;
      assert services[key := services[key]] == services;
      if intact {
        KeyNames(key);
      }
      while todo != {}
        invariant todo == left.Keys && todo + gone == svcs.Keys && todo !! gone
        invariant forall n | n in left :: left[n] == svcs[n]
        invariant services == old(services) && ValidWith(services[key := left]) && old(ipt.faults) <= ipt.faults
        invariant intact ==> live == Without(live0, gone) && ipt.faults == old(ipt.faults)
        decreases todo
      {
        var n :| n in todo;
        ghost var i := DropPort(key, n, svcs[n], left);
        if intact {
          WithoutOne(live0, gone, i);
        }
        todo, gone, left := todo - {n}, gone + {n}, left - {n};
      }
      assert left == map[] && gone == svcs.Keys;
      Forget(key);
      services := services - {key};
    }

    /** The watch callback. Its commands succeed exactly when the event makes no chain names collide, but
        for an update that names a pod twice, where a collision may go unnoticed. */
    method WatchRuntimeService(e: Event)
      requires Valid()
      modifies this, ipt, repr
      ensures Valid() && fresh(repr - old(repr)) && old(ipt.faults) <= ipt.faults
      ensures old(intact) ==> intact == EventOk(old(ToView()), e)
      ensures old(intact) && Noticed(old(ToView()), e) ==>
              (ipt.faults == old(ipt.faults) <==> EventOk(old(ToView()), e))
      ensures intact ==> old(intact) && ToView() == Next(old(ToView()), e) && ipt.faults == old(ipt.faults)
    {
      hide Except, EditPorts, EditsOk, FreshAll, CollisionFree, Layout, AllRecorded, Filed, Framed, PodsDiffer;
      match e
      case Malformed(_) =>
      case Delete(key) =>
        if key in services {
          OnDelete(key);
        }
      case Put(key, spec) =>
        if key in services {
          OnUpdate(key, spec);
        } else if !spec.failed {
          OnCreate(key, spec);
        }
    }

    /** The kernel handles a packet that enters the general service chain. */
    method OnPacket(f: Flow) returns (d: Option<string>)
      requires Valid()
      modifies this`live, ipt
      ensures Valid() && ipt.faults == old(ipt.faults)
      ensures intact ==> live == Served(old(live), f) && d == Destination(old(live), f)
    {
      hide Forward, CollisionFree, AllRecorded, Filed, Bodies, Backs, Taker, Framed;
      if intact {
        ForwardFrom(live, f, 0);
        assert JumpEntries(live)[0..] == JumpEntries(live);
      }
      d := None;
      if SERVICE_CHAIN in ipt.table {
        var (d', t) := Forward(ipt.table, ipt.table[SERVICE_CHAIN], f);
        d, ipt.table := d', t;
      }
      if intact {
        var i := Taker(live, f, 0);
        if i < |live| {
          CountedRecord(ipt, repr, services, live, i);
          FiledSame(services, live, i, Changed(live[i], Packet));
        }
        live := Served(live, f);
      }
    }

    /** Any run of events and packets from a state without faults: the commands all succeed when no chain
        names ever collide, and only then unless an update names a pod twice; up to the first collision
        the table is the layout of the live services and every packet goes where round robin sends it. */
    method Serve(actions: seq<Action>) returns (ds: seq<Option<string>>)
      requires Valid() && intact
      modifies this, ipt, repr
      ensures Valid() && |ds| == |actions|
      ensures AllNoticed(old(ToView()), actions) ==> (ipt.faults == old(ipt.faults) <==> RunOk(old(ToView()), actions))
      ensures RunOk(old(ToView()), actions) ==>
                intact && ipt.faults == old(ipt.faults) && ToView() == ProxySpec.Run(old(ToView()), actions)
                  && CollisionFree(live)
                  && ipt.table == Layout(live)
      ensures forall i | 0 <= i < |actions| && actions[i].Traffic? && RunOk(old(ToView()), actions[..i]) ::
                ds[i] == Destination(ProxySpec.Run(old(ToView()), actions[..i]).live, actions[i].flow)
    {
      hide Valid, Next, Served, Destination, EventOk, Noticed;
      ghost var v := ToView();
      ds := [];
      for i := 0 to |actions|
        invariant Valid() && fresh(repr - old(repr)) && |ds| == i && old(ipt.faults) <= ipt.faults
        invariant intact == RunOk(v, actions[..i])
        invariant intact ==> ipt.faults == old(ipt.faults) && ToView() == ProxySpec.Run(v, actions[..i])
        invariant !intact && AllNoticed(v, actions[..i]) ==> ipt.faults > old(ipt.faults)
        invariant forall j | 0 <= j < i && actions[j].Traffic? && RunOk(v, actions[..j]) ::
                    ds[j] == Destination(ProxySpec.Run(v, actions[..j]).live, actions[j].flow)
      {
        assert actions[..i + 1][..i] == actions[..i];
        match actions[i]
        case Watch(e) =>
          WatchRuntimeService(e);
          ds := ds + [None];
        case Traffic(f) =>
          var d := OnPacket(f);
          ds := ds + [d];
      }
      assert actions[..|actions|] == actions;
      TableIsLayout();
    }

    lemma TableIsLayout()
      requires Valid()
      ensures intact ==> CollisionFree(live) && ipt.table == Layout(live)
    {
    }

    lemma KeyNames(key: string)
      requires Sound(services) && key in services
      ensures Without(live, services[key].Keys) == Except(live, key)
      ensures Without(live, {}) == live && DistinctLive(live)
    {
      NamesDiffer(live);
      hide Layout, Without, Except, AllRecorded, Filed, Backs, CollisionFree, DistinctLive;
      WithoutNone(live);
      FiledUnder(ipt, repr, services, live, key);
      WithoutIsExcept(live, key, services[key].Keys);
    }

    lemma StartEmpty(key: string)
      requires Valid() && key !in services
      ensures ValidWith(services[key := map[]])
    {
      hide Layout, CollisionFree, Backs;
      var svcs := services[key := map[]];
      if intact {
        forall i | 0 <= i < |live| ensures Recorded(ipt, repr, svcs, live[i]) {
          assert Recorded(ipt, repr, services, live[i]);
        }
      }
      assert forall k, n | k in svcs && n in svcs[k] :: k in services && n in services[k];
    }

    lemma Forget(key: string)
      requires ValidWith(services[key := map[]])
      ensures ValidWith(services - {key})
    {
      hide Layout, CollisionFree, Backs;
      var svcs := services[key := map[]];
      if intact {
        forall i | 0 <= i < |live| ensures Recorded(ipt, repr, services - {key}, live[i]) {
          assert Recorded(ipt, repr, svcs, live[i]);
        }
      }
      assert forall k, n | k in services - {key} && n in services[k] :: k in svcs && n in svcs[k];
    }
  }

  lemma FramedAdd(ipt: IpTables, repr: set<SvcChain>, svcs: Services, key: string, svcS: map<string, SvcChain>,
                  tmp: SvcChain)
    requires Framed(ipt, repr, svcs[key := svcS]) && tmp.ipt == ipt
    ensures Framed(ipt, repr + {tmp}, svcs[key := svcS[tmp.name := tmp]])
  {
    var before, after := svcs[key := svcS], svcs[key := svcS[tmp.name := tmp]];
    forall k, n | k in after && n in after[k]
      ensures after[k][n] in repr + {tmp} && after[k][n].ipt == ipt
    {
      assert (k == key && n == tmp.name) || (k in before && n in before[k] && after[k][n] == before[k][n]);
    }
  }

  lemma FramedDrop(ipt: IpTables, repr: set<SvcChain>, svcs: Services, key: string, left: map<string, SvcChain>,
                   name: string)
    requires Framed(ipt, repr, svcs[key := left])
    ensures Framed(ipt, repr, svcs[key := left - {name}])
    ensures name in left ==> left[name] in repr && left[name].ipt == ipt
  {
    var before, after := svcs[key := left], svcs[key := left - {name}];
    assert forall k, n | k in after && n in after[k] :: k in before && n in before[k] && after[k][n] == before[k][n];
    assert name in left ==> name in before[key];
  }

  /** What an update of service i relies on and leaves. */
  lemma EditFacts(live: seq<Live>, i: nat, units: seq<PodUnit>)
    requires CollisionFree(live) && i < |live|
    ensures var s := live[i];
            var s' := Changed(s, Rewire(units));
            var rest := Others(live, i);
            && DistinctSeps(s.Order()) && UnitsOf(s.Order()) == s.units && Closed(rest, s.name)
            && Jumps(Entries(s.Order(), s.hits), s.Order()) && Apart(rest, s.name, EndsOf(s.Order()))
            && Layout(live) == Assemble(rest, s.name, Entries(s.Order(), s.hits), EndsOf(s.Order()))
            && Alter(live, s.key, s.name, Rewire(units)) == live[i := s']
            && (Fits(rest, s.name, Effective(s.units, units)) <==> CollisionFree(live[i := s']))
            && (CollisionFree(live[i := s']) ==>
                  && DistinctSeps(s'.Order()) && UnitsOf(s'.Order()) == s'.units
                  && Layout(live[i := s']) == Assemble(rest, s.name, Entries(s'.Order(), 0), EndsOf(s'.Order())))
            && (forall j | 0 <= j < |live| && j != i :: live[j].name != s.name)
  {
    var s := live[i];
    NamesDiffer(live);
    AlterAt(live, i, Rewire(units));
    hide Alter, Layout, Entries, Effective, EndsOf, Apart, Assemble, DistinctNames, DistinctSeps, Jumps, Plan,
         UnitsOf, CollisionFree, Others, ByPod, Fits, Closed;
    LayoutParts(live, i);
    LayoutEdit(live, i, Effective(s.units, units), 0);
    EntriesJumpAt(s.Order(), s.hits);
  }

  /** An update of live service i meets a taken chain name. */
  ghost predicate EditClashes(live: seq<Live>, i: nat, units: seq<PodUnit>)
    requires CollisionFree(live) && i < |live|
  {
    UpdateClashes(Others(live, i), live[i].name, live[i].units, units)
  }

  /** One port of a PUT for a known service meets a taken chain name. */
  ghost predicate PortClashes(live: seq<Live>, key: string, spec: ServiceSpec, p: Port)
    requires CollisionFree(live)
  {
    Owns(live, key, SvcName(spec, p)) && EditClashes(live, Rank(live, key, SvcName(spec, p)), UnitsFor(spec, p))
  }

  /** For pods with different names, that is a collision. */
  lemma EditClash(live: seq<Live>, i: nat, units: seq<PodUnit>)
    requires CollisionFree(live) && i < |live| && DistinctPods(units)
    ensures EditClashes(live, i, units) <==> !CollisionFree(live[i := Changed(live[i], Rewire(units))])
  {
    hide Entries, Effective, EndsOf, Apart, DistinctNames, DistinctSeps, DistinctPods, Plan, UnitsOf, CollisionFree,
         Others,
         Fits, Closed, UpdateClashes, Layout;
    var s := live[i];
    LayoutParts(live, i);
    ApartFits(Others(live, i), s.protocol, s.name, s.units);
    UnitsClash(Others(live, i), s.name, s.units, units);
    LayoutEdit(live, i, Effective(s.units, units), 0);
  }

  lemma UnitsOnePort(spec: ServiceSpec, p: Port)
    ensures OnePort(UnitsFor(spec, p))
  {
  }

  lemma UnitsDiffer(key: string, spec: ServiceSpec, p: Port)
    requires PodsDiffer(Put(key, spec))
    ensures DistinctPods(UnitsFor(spec, p))
  {
  }

  lemma FreshPrefix(key: string, spec: ServiceSpec, i: nat)
    requires i < |spec.ports|
    ensures FreshAll(key, spec)[..i + 1] == FreshAll(key, spec)[..i] + [Fresh(key, spec, spec.ports[i])]
  {
  }

  lemma NotOwned(live: seq<Live>, s: Live)
    requires CollisionFree(live + [s])
    ensures !Owns(live, s.key, s.name)
  {
    NamesDiffer(live + [s]);
    hide CollisionFree;
    forall j | 0 <= j < |live| ensures live[j].name != s.name {
      assert (live + [s])[j] == live[j] && (live + [s])[|live|] == s;
    }
  }

  /** A collision stays one when more services come. */
  lemma FreePrefix(live: seq<Live>, n: nat)
    requires n <= |live|
    ensures CollisionFree(live) ==> CollisionFree(live[..n])
  {
  }

  lemma EntriesJumpAt(plan: seq<SepChain>, hits: nat)
    ensures Jumps(Entries(plan, hits), plan)
  {
  }
}
