/** What the whole table does to a packet that enters the general service chain. */
module ServiceTraffic {
  import opened Options
  import opened NatTable
  import opened RoundRobin
  import opened ServiceChain
  import opened ServiceLayout

  /** The header fields the service rules look at. */
  datatype Flow = Flow(clusterIp: string, protocol: string, dport: string)

  predicate Matches(r: Rule, f: Flow) {
    r.ServiceJump? && r.clusterIp == f.clusterIp && r.protocol == f.protocol && r.dport == f.dport
  }

  /** A packet walks down the general chain: each matching rule sends it into a service chain,
      and a service chain that rewrites nothing returns it. */
  function Forward(t: Table, entries: seq<Entry>, f: Flow): (Option<string>, Table) {
    if entries == [] then (None, t)
    else if Matches(entries[0].rule, f) && entries[0].rule.target in t then
      var name := entries[0].rule.target;
      var (d, es) := Walk(t, t[name], f.protocol);
      if d.Some? then (d, t[name := es]) else Forward(t[name := es], entries[1..], f)
    else Forward(t, entries[1..], f)
  }

  /** The service takes the packet: the header matches and there is a pod to send it to. */
  predicate Takes(s: Live, f: Flow) {
    s.clusterIp == f.clusterIp && s.protocol == f.protocol && s.port == f.dport && s.units != []
  }

  /** The first service that takes the packet, or |live|. */
  function Taker(live: seq<Live>, f: Flow, from: nat): (i: nat)
    requires from <= |live|
    ensures from <= i <= |live| && (i < |live| ==> Takes(live[i], f))
    ensures forall j | from <= j < i :: !Takes(live[j], f)
    decreases |live| - from
  {
    if from == |live| || Takes(live[from], f) then from else Taker(live, f, from + 1)
  }

  /** Round robin over the pods of a service. */
  function Turn(s: Live): string
    requires s.units != []
  {
    var u := s.units[s.hits % |s.units|];
    u.podIp + ":" + u.podPort
  }

  ghost function Served(live: seq<Live>, f: Flow): seq<Live> {
    var i := Taker(live, f, 0);
    if i == |live| then live else live[i := Changed(live[i], Packet)]
  }

  function Destination(live: seq<Live>, f: Flow): Option<string> {
    var i := Taker(live, f, 0);
    if i == |live| then None else Some(Turn(live[i]))
  }

  lemma WalkService(live: seq<Live>, i: nat)
    requires CollisionFree(live) && i < |live|
    ensures var t, s := Layout(live), live[i];
            var s' := Changed(s, Packet);
            && s.name in t && CollisionFree(live[i := s'])
            && (s.units == [] ==> Walk(t, t[s.name], s.protocol) == (None, t[s.name]))
            && (s.units != [] ==> Walk(t, t[s.name], s.protocol) == (Some(Turn(s)), Entries(s.Order(), s.hits + 1))
                                  && t[s.name := Entries(s.Order(), s.hits + 1)] == Layout(live[i := s']))
  {
    hide Layout, Entries, EndsOf, Apart, DistinctNames, DistinctSeps, Plan, UnitsOf, Others, EndsInstalled, Walk,
         CollisionFree;
    var s := live[i];
    LayoutParts(live, i);
    ApartFits(Others(live, i), s.protocol, s.name, s.units);
    LayoutEdit(live, i, s.units, s.hits + 1);
    InstalledIn(live, i);
    if s.units == [] {
      NoPods(Layout(live), s.protocol, s.name, s.hits);
    } else {
      RoundRobinStep(Layout(live), s.protocol, s.name, s.units, s.hits);
    }
  }

  lemma NoPods(t: Table, protocol: string, name: string, hits: nat)
    ensures Entries(Plan(protocol, name, []), hits) == [] && Walk(t, [], protocol) == (None, [])
  {
  }

  lemma InstalledIn(live: seq<Live>, i: nat)
    requires CollisionFree(live) && i < |live|
    ensures EndsInstalled(Layout(live), live[i].Order())
  {
    hide Layout, Entries, EndsOf, Apart, DistinctNames, DistinctSeps, Plan, UnitsOf, Others, CollisionFree;
    LayoutParts(live, i);
    var s, order := live[i], live[i].Order();
    forall j | 0 <= j < |order|
      ensures order[j].name in Layout(live) && Layout(live)[order[j].name] == [Entry(order[j].DnatRule(), 0)]
    {
      EndsAt(order, j);
      NotItself(Others(live, i), s.name, EndsOf(order), order[j].name);
    }
  }

  lemma NotItself(rest: Table, name: string, ends: Table, n: string)
    requires Apart(rest, name, ends) && n in ends
    ensures n != name
  {
  }

  /** The table forwards every packet to the pod whose turn it is at the first service that takes
      it, and counts it there; a packet no service takes passes through and changes nothing. */
  lemma {:induction false} ForwardFrom(live: seq<Live>, f: Flow, from: nat)
    requires CollisionFree(live) && from <= |live|
    ensures var i := Taker(live, f, from);
            var js := JumpEntries(live)[from..];
            if i == |live| then Forward(Layout(live), js, f) == (None, Layout(live))
            else CollisionFree(live[i := Changed(live[i], Packet)])
                 && Forward(Layout(live), js, f) == (Some(Turn(live[i])), Layout(live[i := Changed(live[i], Packet)]))
    decreases |live| - from
  {
    hide Layout, Entries, Plan, UnitsOf, Walk, CollisionFree;
    var js := JumpEntries(live)[from..];
    if from < |live| {
      var s, t := live[from], Layout(live);
      assert js[0] == Entry(s.JumpRule(), 0) && js[1..] == JumpEntries(live)[from + 1..];
      WalkService(live, from);
      if !Takes(s, f) {
        assert t[s.name := t[s.name]] == t;
        ForwardFrom(live, f, from + 1);
      }
    }
  }
}
