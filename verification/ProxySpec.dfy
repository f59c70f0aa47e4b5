/** What service events and packets do to the live services, and why deleting a service
    undoes everything that was ever done for it. */
module ProxySpec {
  import opened Objects
  import opened Options
  import opened RoundRobin
  import opened ServiceChain
  import opened ServiceLayout
  import opened ServiceTraffic

  datatype Port = Port(port: string, targetPort: string, protocol: string)
  datatype ServiceSpec = ServiceSpec(name: string, clusterIp: string, failed: bool, ports: seq<Port>,
    pods: seq<PodNameAndIp>)

  /** What the watch on the service prefix delivers. */
  datatype Event = Delete(key: string) | Malformed(key: string) | Put(key: string, spec: ServiceSpec)

  /** The keys kube-proxy has seen and not seen deleted, and the live service ports in creation order. */
  datatype View = View(keys: set<string>, live: seq<Live>)

  function SvcName(spec: ServiceSpec, p: Port): string {
    SVC_PREFIX + "-" + spec.name + p.port
  }

  function UnitsFor(spec: ServiceSpec, p: Port): (us: seq<PodUnit>)
    ensures |us| == |spec.pods|
  {
    seq(|spec.pods|, i requires 0 <= i < |spec.pods| => PodUnit(spec.pods[i].ip, spec.pods[i].name, p.targetPort))
  }

  function Fresh(key: string, spec: ServiceSpec, p: Port): Live {
    Live(key, SvcName(spec, p), spec.clusterIp, p.port, p.protocol, UnitsFor(spec, p), 0)
  }

  function FreshAll(key: string, spec: ServiceSpec): (r: seq<Live>)
    ensures |r| == |spec.ports|
  {
    seq(|spec.ports|, i requires 0 <= i < |spec.ports| => Fresh(key, spec, spec.ports[i]))
  }

  /** The pods of an event have different names, as pods of a cluster do. */
  ghost predicate PodsDiffer(e: Event) {
    e.Put? ==> forall i, j | 0 <= i < j < |e.spec.pods| :: e.spec.pods[i].name != e.spec.pods[j].name
  }

  /** A collision of this event cannot go unnoticed: it creates a service, or names no pod twice. */
  ghost predicate Noticed(v: View, e: Event) {
    PodsDiffer(e) || e.key !in v.keys
  }

  ghost predicate Owns(live: seq<Live>, key: string, name: string) {
    exists i :: 0 <= i < |live| && live[i].key == key && live[i].name == name
  }

  ghost function Rank(live: seq<Live>, key: string, name: string): (i: nat)
    requires Owns(live, key, name)
    ensures i < |live| && live[i].key == key && live[i].name == name
  {
    var i :| 0 <= i < |live| && live[i].key == key && live[i].name == name;
    i
  }

  /** One port of a PUT for a known service. */
  ghost function EditPort(live: seq<Live>, key: string, spec: ServiceSpec, p: Port): seq<Live> {
    Alter(live, key, SvcName(spec, p), Rewire(UnitsFor(spec, p)))
  }

  /** Ports are updated in order until one is met that the service does not have. */
  ghost function EditPorts(live: seq<Live>, key: string, spec: ServiceSpec, ports: seq<Port>): seq<Live>
    decreases |ports|
  {
    if ports == [] || !Owns(live, key, SvcName(spec, ports[0])) then live
    else EditPorts(EditPort(live, key, spec, ports[0]), key, spec, ports[1..])
  }

  /** No chain names collide after any of these ports. */
  ghost predicate EditsOk(live: seq<Live>, key: string, spec: ServiceSpec, ports: seq<Port>)
    decreases |ports|
  {
    ports == [] || !Owns(live, key, SvcName(spec, ports[0])) ||
    (CollisionFree(EditPort(live, key, spec, ports[0]))
      && EditsOk(EditPort(live, key, spec, ports[0]), key, spec, ports[1..]))
  }

  /** The live services of other keys. */
  ghost function Except(live: seq<Live>, key: string): seq<Live> {
    if live == [] then []
    else
      var r := Except(live[..|live| - 1], key);
      if live[|live| - 1].key == key then r else r + [live[|live| - 1]]
  }

  /** What an event does to the live services. */
  ghost function Next(v: View, e: Event): View {
    match e
    case Malformed(_) => v
    case Delete(key) =>
      if key !in v.keys then v else View(v.keys - {key}, Except(v.live, key))
    case Put(key, spec) =>
      if key in v.keys then View(v.keys, EditPorts(v.live, key, spec, spec.ports))
      else if spec.failed then v
      else View(v.keys + {key}, v.live + FreshAll(key, spec))
  }

  /** At this moment, and at every moment while the event is handled, no chain names collide. */
  ghost predicate EventOk(v: View, e: Event) {
    match e
    case Malformed(_) => true
    case Delete(_) => true
    case Put(key, spec) =>
      if key in v.keys then EditsOk(v.live, key, spec, spec.ports)
      else spec.failed || CollisionFree(v.live + FreshAll(key, spec))
  }

  lemma {:induction false} WithoutIsExcept(live: seq<Live>, key: string, gone: set<string>)
    requires forall i | 0 <= i < |live| :: live[i].name in gone <==> live[i].key == key
    ensures Without(live, gone) == Except(live, key)
  {
    if live != [] {
      WithoutIsExcept(live[..|live| - 1], key, gone);
    }
  }

  /** The kernel and the watch take turns. */
  datatype Action = Watch(event: Event) | Traffic(flow: Flow)

  ghost predicate ActionOk(v: View, a: Action) {
    a.Watch? ==> EventOk(v, a.event)
  }

  ghost function Step(v: View, a: Action): View {
    match a
    case Watch(e) => Next(v, e)
    case Traffic(f) => v.(live := Served(v.live, f))
  }

  ghost function Run(v: View, actions: seq<Action>): View {
    if actions == [] then v
    else Step(Run(v, actions[..|actions| - 1]), actions[|actions| - 1])
  }

  /** A view some run can reach: names are unique and filed under a known key. */
  ghost predicate SoundView(v: View) {
    DistinctLive(v.live) && forall i | 0 <= i < |v.live| :: v.live[i].key in v.keys
  }

  /** The view without one service. */
  ghost function Strip(v: View, key: string): View {
    View(v.keys - {key}, Except(v.live, key))
  }

  lemma {:induction false} ExceptMembers(live: seq<Live>, key: string)
    ensures forall s :: s in Except(live, key) <==> s in live && s.key != key
  {
    if live != [] {
      ExceptMembers(live[..|live| - 1], key);
      assert live == live[..|live| - 1] + [live[|live| - 1]];
    }
  }

  lemma ExceptOwns(live: seq<Live>, key: string, key': string, name: string)
    requires key' != key
    ensures Owns(Except(live, key), key', name) <==> Owns(live, key', name)
  {
    ExceptMembers(live, key);
    hide Except;
    var r := Except(live, key);
    if Owns(live, key', name) {
      assert live[Rank(live, key', name)] in r;
    }
    if Owns(r, key', name) {
      assert r[Rank(r, key', name)] in live;
    }
  }

  lemma {:induction false} ExceptAppend(live: seq<Live>, more: seq<Live>, key: string, key': string)
    requires forall i | 0 <= i < |more| :: more[i].key == key'
    ensures Except(live + more, key) == if key' == key then Except(live, key) else Except(live, key) + more
  {
    if more == [] {
      assert live + more == live;
    } else {
      var init := more[..|more| - 1];
      ExceptAppend(live, init, key, key');
      assert (live + more)[..|live + more| - 1] == live + init;
      assert more == init + [more[|more| - 1]];
    }
  }

  /** Changing a service of the key is invisible outside it; changing another one commutes. */
  lemma {:induction false} ExceptAlter(live: seq<Live>, key: string, key': string, name: string, c: Change)
    ensures Except(Alter(live, key', name, c), key)
            == if key' == key then Except(live, key) else Alter(Except(live, key), key', name, c)
  {
    if live != [] {
      var init, last := live[..|live| - 1], live[|live| - 1];
      ExceptAlter(init, key, key', name, c);
      var a, r := Alter(live, key', name, c), Except(init, key);
      assert a[..|a| - 1] == Alter(init, key', name, c);
      assert (r + [last])[..|r|] == r;
    }
  }

  lemma {:induction false} ExceptTwice(live: seq<Live>, k: string, k': string)
    ensures Except(Except(live, k), k') == Except(Except(live, k'), k)
  {
    if live != [] {
      var init, last := live[..|live| - 1], live[|live| - 1];
      ExceptTwice(init, k, k');
      var r, r' := Except(init, k), Except(init, k');
      assert (r + [last])[..|r|] == r && (r' + [last])[..|r'|] == r';
    }
  }

  lemma {:induction false} ExceptOnce(live: seq<Live>, key: string)
    ensures Except(Except(live, key), key) == Except(live, key)
  {
    if live != [] {
      var init, last := live[..|live| - 1], live[|live| - 1];
      ExceptOnce(init, key);
      var r := Except(init, key);
      assert (r + [last])[..|r|] == r;
    }
  }

  lemma {:induction false} ExceptNothing(live: seq<Live>, key: string)
    requires forall i | 0 <= i < |live| :: live[i].key != key
    ensures Except(live, key) == live
  {
    if live != [] {
      ExceptNothing(live[..|live| - 1], key);
    }
  }

  lemma {:induction false} ExceptEdit(live: seq<Live>, key: string, key': string, spec: ServiceSpec, ports: seq<Port>)
    ensures Except(EditPorts(live, key', spec, ports), key)
            == if key' == key then Except(live, key) else EditPorts(Except(live, key), key', spec, ports)
    decreases |ports|
  {
    hide Except, Alter, Owns, SvcName, UnitsFor;
    if ports != [] {
      var name := SvcName(spec, ports[0]);
      if key' != key {
        ExceptOwns(live, key, key', name);
      }
      ExceptAlter(live, key, key', name, Rewire(UnitsFor(spec, ports[0])));
      if Owns(live, key', name) {
        ExceptEdit(EditPort(live, key', spec, ports[0]), key, key', spec, ports[1..]);
      }
    }
  }

  /** `Taker` seen from the other end of the list. */
  ghost function FirstTaker(live: seq<Live>, f: Flow): Option<Live> {
    if live == [] then None
    else
      var first, last := FirstTaker(live[..|live| - 1], f), live[|live| - 1];
      if first.Some? then first else if Takes(last, f) then Some(last) else None
  }

  lemma {:induction false} FirstTakerIs(live: seq<Live>, f: Flow, i: nat)
    requires i <= |live| && (forall j | 0 <= j < i :: !Takes(live[j], f)) && (i < |live| ==> Takes(live[i], f))
    ensures FirstTaker(live, f) == if i == |live| then None else Some(live[i])
  {
    if live != [] {
      FirstTakerIs(live[..|live| - 1], f, if i == |live| then i - 1 else i);
    }
  }

  lemma {:induction false} FirstTakerExcept(live: seq<Live>, f: Flow, key: string)
    requires FirstTaker(live, f).None? || FirstTaker(live, f).value.key != key
    ensures FirstTaker(Except(live, key), f) == FirstTaker(live, f)
  {
    if live != [] {
      var init, last := live[..|live| - 1], live[|live| - 1];
      FirstTakerExcept(init, f, key);
      var r := Except(init, key);
      assert (r + [last])[..|r|] == r;
    }
  }

  /** Serving a packet changes the first taker and nothing else. */
  lemma ServedIsAlter(live: seq<Live>, f: Flow)
    requires DistinctLive(live)
    ensures var s := FirstTaker(live, f);
            && (s.None? ==> Served(live, f) == live)
            && (s.Some? ==> Served(live, f) == Alter(live, s.value.key, s.value.name, Packet))
  {
    var i := Taker(live, f, 0);
    FirstTakerIs(live, f, i);
    hide Alter, FirstTaker;
    if i < |live| {
      AlterAt(live, i, Packet);
    }
  }

  lemma {:induction false} ExceptDistinct(live: seq<Live>, key: string)
    requires DistinctLive(live)
    ensures DistinctLive(Except(live, key))
  {
    if live != [] {
      var init, last := live[..|live| - 1], live[|live| - 1];
      ExceptDistinct(init, key);
      ExceptMembers(init, key);
      var r := Except(init, key);
      forall i | 0 <= i < |r| ensures r[i].name != last.name {
        assert r[i] in init;
      }
    }
  }

  /** The action is for the service: an event with its key, or a packet it takes. */
  ghost predicate About(v: View, a: Action, key: string) {
    match a
    case Watch(e) => e.key == key
    case Traffic(f) => FirstTaker(v.live, f).Some? && FirstTaker(v.live, f).value.key == key
  }

  /** An action for one service is invisible to the others, and any other action does to the
      others what it would do without that service. */
  lemma StripStep(v: View, a: Action, key: string)
    requires SoundView(v)
    ensures Strip(Step(v, a), key)
            == if About(v, a, key) then Strip(v, key) else Step(Strip(v, key), a)
  {
    hide Served, Alter, Except, FirstTaker, EditPorts, FreshAll, SvcName, DistinctLive;
    match a
    case Traffic(f) =>
      ServedIsAlter(v.live, f);
      ExceptDistinct(v.live, key);
      ServedIsAlter(Except(v.live, key), f);
      var s := FirstTaker(v.live, f);
      if s.Some? {
        ExceptAlter(v.live, key, s.value.key, s.value.name, Packet);
      }
      if !About(v, a, key) {
        FirstTakerExcept(v.live, f, key);
      }
    case Watch(Malformed(_)) =>
    case Watch(Delete(k)) =>
      ExceptTwice(v.live, k, key);
      ExceptOnce(v.live, key);
    case Watch(Put(k, spec)) =>
      ExceptEdit(v.live, key, k, spec, spec.ports);
      FreshKeys(k, spec);
      ExceptAppend(v.live, FreshAll(k, spec), key, k);
  }

  lemma FreshKeys(key: string, spec: ServiceSpec)
    ensures forall i | 0 <= i < |FreshAll(key, spec)| :: FreshAll(key, spec)[i].key == key
  {
    hide SvcName;
  }

  lemma {:induction false} EditNames(live: seq<Live>, key: string, spec: ServiceSpec, ports: seq<Port>)
    ensures var r := EditPorts(live, key, spec, ports);
            |r| == |live| && forall i | 0 <= i < |live| :: r[i].name == live[i].name && r[i].key == live[i].key
    decreases |ports|
  {
    if ports != [] && Owns(live, key, SvcName(spec, ports[0])) {
      AlterEach(live, key, SvcName(spec, ports[0]), Rewire(UnitsFor(spec, ports[0])));
      EditNames(EditPort(live, key, spec, ports[0]), key, spec, ports[1..]);
    }
  }

  /** Names stay unique and filed under a known key. */
  lemma SoundStep(v: View, a: Action)
    requires SoundView(v) && ActionOk(v, a)
    ensures SoundView(Step(v, a))
  {
    match a
    case Traffic(f) =>
    case Watch(Malformed(_)) =>
    case Watch(Delete(k)) =>
      ExceptDistinct(v.live, k);
      ExceptMembers(v.live, k);
      hide Except, DistinctLive;
      var r := Except(v.live, k);
      forall i | 0 <= i < |r| ensures r[i].key in v.keys && r[i].key != k {
        assert r[i] in v.live;
      }
    case Watch(Put(k, spec)) =>
      EditNames(v.live, k, spec, spec.ports);
      FreshKeys(k, spec);
      if k !in v.keys && !spec.failed {
        NamesDiffer(v.live + FreshAll(k, spec));
      }
      hide EditPorts, SvcName, UnitsFor, CollisionFree;
  }

  /** A run in which no chain names ever collide. */
  ghost predicate RunOk(v: View, actions: seq<Action>) {
    actions == [] ||
    var init := actions[..|actions| - 1];
    RunOk(v, init) && ActionOk(Run(v, init), actions[|actions| - 1])
  }

  /** The actions of a run that are not for the service. */
  ghost function Foreign(v: View, actions: seq<Action>, key: string): seq<Action> {
    if actions == [] then []
    else
      var init, last := actions[..|actions| - 1], actions[|actions| - 1];
      Foreign(v, init, key) + if About(Run(v, init), last, key) then [] else [last]
  }

  lemma {:induction false} ExceptFree(live: seq<Live>, key: string)
    requires CollisionFree(live)
    ensures CollisionFree(Except(live, key))
    ensures forall n | Claimed(Except(live, key), n) :: Claimed(live, n)
  {
    if live != [] {
      var init, last := live[..|live| - 1], live[|live| - 1];
      assert live == init + [last];
      hide CollisionFree, Names, Claimed, Tidy;
      FirstFree(live);
      ExceptFree(init, key);
      FreeNext(init, last);
      ClaimedMore(init, last);
      FreeNext(Except(init, key), last);
      ClaimedMore(Except(init, key), last);
    }
  }

  lemma FirstFree(live: seq<Live>)
    requires CollisionFree(live) && live != []
    ensures CollisionFree(live[..|live| - 1])
  {
  }

  lemma {:induction false} EditsOkExcept(live: seq<Live>, key: string, key': string, spec: ServiceSpec,
                                         ports: seq<Port>)
    requires key' != key && EditsOk(live, key', spec, ports)
    ensures EditsOk(Except(live, key), key', spec, ports)
    decreases |ports|
  {
    hide Except, Alter, Owns, SvcName, UnitsFor, CollisionFree;
    if ports != [] {
      var name := SvcName(spec, ports[0]);
      ExceptOwns(live, key, key', name);
      ExceptAlter(live, key, key', name, Rewire(UnitsFor(spec, ports[0])));
      if Owns(live, key', name) {
        ExceptFree(EditPort(live, key', spec, ports[0]), key);
        EditsOkExcept(EditPort(live, key', spec, ports[0]), key, key', spec, ports[1..]);
      }
    }
  }

  /** What makes no names collide makes none collide without one of the services either. */
  lemma StillOk(v: View, a: Action, key: string)
    requires ActionOk(v, a) && !About(v, a, key)
    ensures ActionOk(Strip(v, key), a)
  {
    hide Except, FirstTaker, EditsOk, FreshAll, CollisionFree, Takes;
    match a
    case Traffic(f) =>
    case Watch(Malformed(_)) =>
    case Watch(Delete(k)) =>
    case Watch(Put(k, spec)) =>
      if k in v.keys {
        EditsOkExcept(v.live, key, k, spec, spec.ports);
      } else if !spec.failed {
        ExceptFree(v.live + FreshAll(k, spec), key);
        FreshKeys(k, spec);
        ExceptAppend(v.live, FreshAll(k, spec), key, k);
      }
  }

  /** As long as nothing collides, no event could collide unnoticed. */
  ghost predicate AllNoticed(v: View, actions: seq<Action>) {
    actions == [] ||
    var init, last := actions[..|actions| - 1], actions[|actions| - 1];
    AllNoticed(v, init) && (RunOk(v, init) && last.Watch? ==> Noticed(Run(v, init), last.event))
  }

  /** Whatever a run does for one service, the others end up as if that service had never been. */
  lemma {:induction false} RunOthers(v: View, actions: seq<Action>, key: string)
    requires SoundView(v) && RunOk(v, actions)
    ensures SoundView(Run(v, actions))
    ensures Strip(Run(v, actions), key) == Run(Strip(v, key), Foreign(v, actions, key))
    ensures RunOk(Strip(v, key), Foreign(v, actions, key))
  {
    hide SoundView, ActionOk, Strip, Step, About;
    if actions != [] {
      var init, last := actions[..|actions| - 1], actions[|actions| - 1];
      RunOthers(v, init, key);
      StripStep(Run(v, init), last, key);
      SoundStep(Run(v, init), last);
      var fs := Foreign(v, init, key);
      assert (fs + [last])[..|fs|] == fs && fs + [] == fs;
      if !About(Run(v, init), last, key) {
        StillOk(Run(v, init), last, key);
      }
    }
  }

  /** Create, any updates and traffic, then delete: the services, and with them the whole nat
      table, are back to what the rest of the run alone leaves. */
  lemma DeleteRestores(v: View, actions: seq<Action>, key: string)
    requires SoundView(v) && key !in v.keys && RunOk(v, actions)
    ensures Step(Run(v, actions), Watch(Delete(key))) == Run(v, Foreign(v, actions, key))
  {
    hide Run, Foreign, Step, SoundView, RunOk, Strip;
    RunOthers(v, actions, key);
    StripAbsent(v, key);
    DeleteStrips(Run(v, actions), key);
  }

  lemma StripAbsent(v: View, key: string)
    requires SoundView(v) && key !in v.keys
    ensures Strip(v, key) == v
  {
    hide Except;
    ExceptNothing(v.live, key);
  }

  lemma DeleteStrips(v: View, key: string)
    requires SoundView(v)
    ensures Step(v, Watch(Delete(key))) == Strip(v, key)
  {
    hide Except;
    if key !in v.keys {
      ExceptNothing(v.live, key);
    }
  }

  /** With no other actions in between the view is exactly restored. */
  lemma {:induction false} RestoresExactly(v: View, actions: seq<Action>, key: string)
    requires SoundView(v) && key !in v.keys && RunOk(v, actions)
    requires forall i | 0 <= i < |actions| :: About(Run(v, actions[..i]), actions[i], key)
    ensures Step(Run(v, actions), Watch(Delete(key))) == v
  {
    DeleteRestores(v, actions, key);
    NothingForeign(v, actions, key);
  }

  lemma {:induction false} NothingForeign(v: View, actions: seq<Action>, key: string)
    requires forall i | 0 <= i < |actions| :: About(Run(v, actions[..i]), actions[i], key)
    ensures Foreign(v, actions, key) == []
  {
    if actions != [] {
      var init := actions[..|actions| - 1];
      forall i | 0 <= i < |init| ensures About(Run(v, init[..i]), init[i], key) {
        assert init[..i] == actions[..i] && init[i] == actions[i];
      }
      NothingForeign(v, init, key);
      assert About(Run(v, actions[..|init|]), actions[|init|], key);
    }
  }

  /** Names may be used again: a service can follow another with the same pods and target ports. */
  lemma NamesReused(ka: string, a: ServiceSpec, kb: string, b: ServiceSpec)
    requires !a.failed && !b.failed && CollisionFree(FreshAll(ka, a)) && CollisionFree(FreshAll(kb, b))
    ensures RunOk(View({}, []), [Watch(Put(ka, a)), Watch(Delete(ka)), Watch(Put(kb, b))])
  {
    hide CollisionFree, FreshAll, Except, EditsOk;
    var v := View({}, []);
    var all := [Watch(Put(ka, a)), Watch(Delete(ka)), Watch(Put(kb, b))];
    var v1, v2 := View({ka}, FreshAll(ka, a)), View({}, []);
    assert [] + FreshAll(ka, a) == FreshAll(ka, a) && [] + FreshAll(kb, b) == FreshAll(kb, b);
    FreshKeys(ka, a);
    ExceptAppend([], FreshAll(ka, a), ka, ka);
    ExceptNothing([], ka);
    assert all[..2][..1] == all[..1] && all[..1][..0] == [] && all[..3][..2] == all[..2] && all[..3] == all;
    assert RunOk(v, all[..1]) && Run(v, all[..1]) == v1;
    assert RunOk(v, all[..2]) && Run(v, all[..2]) == v2;
    assert ActionOk(v2, all[2]);
  }

  /** Two live services that send to one pod on one port cannot be told apart by chain names. */
  lemma SharedPodCollides(live: seq<Live>, i: nat, j: nat, a: nat, b: nat)
    requires i < j < |live| && a < |live[i].units| && b < |live[j].units|
    requires live[i].units[a].podName == live[j].units[b].podName
             && live[i].units[a].podPort == live[j].units[b].podPort
    ensures !CollisionFree(live)
  {
    assert SepName(live[i].units[a]) in Names(live[i]) && SepName(live[j].units[b]) in Names(live[j]);
  }
}
