/** What kube-proxy compiles a service into, and what the compiled chain does to packets:
    a cascade of independent nth counters is plain round robin. */
module RoundRobin {
  import opened Options
  import opened NatTable

  const SERVICE_CHAIN := "SERVICE"
  const SEP_PREFIX := "SEP"
  const SVC_PREFIX := "SVC"

  /** A pod to forward to. */
  datatype PodUnit = PodUnit(podIp: string, podName: string, podPort: string)

  /** The chain of one pod, with its rule in the service chain (every `rrNum` packets). */
  datatype SepChain = SepChain(name: string, protocol: string, fatherChain: string, unit: PodUnit, rrNum: nat)
  {
    function JumpRule(): Rule { NthJump(protocol, rrNum, name) }
    function DnatRule(): Rule { Dnat(protocol, unit.podIp + ":" + unit.podPort) }
  }

  function SepName(u: PodUnit): string {
    SEP_PREFIX + "-" + u.podName + u.podPort
  }

  function MakeSep(protocol: string, fatherChain: string, u: PodUnit, rrNum: nat): SepChain {
    SepChain(SepName(u), protocol, fatherChain, u, rrNum)
  }

  /** The endpoint chains of a unit list: the pod at place i is used once in |units| - i packets. */
  function Plan(protocol: string, fatherChain: string, units: seq<PodUnit>): (order: seq<SepChain>)
    ensures |order| == |units|
  {
    seq(|units|, i requires 0 <= i < |units| => MakeSep(protocol, fatherChain, units[i], |units| - i))
  }

  ghost predicate DistinctNames(units: seq<PodUnit>) {
    forall i, j | 0 <= i < j < |units| ::
      units[i].podName != units[j].podName && SepName(units[i]) != SepName(units[j])
  }

  /** Counter of rule i after `hits` packets through a chain of k rules. */
  function Lag(k: nat, hits: nat, i: nat): nat
    requires 0 < k
  {
    if i < hits % k then hits % k - i else 0
  }

  /** The rules of a service chain after `hits` packets. */
  function Entries(order: seq<SepChain>, hits: nat): (es: seq<Entry>)
    ensures |es| == |order|
  {
    seq(|order|, i requires 0 <= i < |order| => Entry(order[i].JumpRule(), Lag(|order|, hits, i)))
  }

  /** The chain of every pod is there and rewrites to that pod. */
  ghost predicate EndsInstalled(t: Table, order: seq<SepChain>) {
    forall i | 0 <= i < |order| :: order[i].name in t && t[order[i].name] == [Entry(order[i].DnatRule(), 0)]
  }

  lemma FallPast(t: Table, protocol: string, father: string, units: seq<PodUnit>, hits: nat, from: nat)
    requires units != [] && from <= hits % |units|
    requires EndsInstalled(t, Plan(protocol, father, units))
    ensures var order := Plan(protocol, father, units);
            var r := hits % |units|;
            Walk(t, Entries(order, hits)[from..], protocol)
            == (Some(order[r].DnatRule().destination), Entries(order, hits + 1)[from..])
    decreases |units| - from
  {
    var order := Plan(protocol, father, units);
    var k, r := |units|, hits % |units|;
    var now, next := Entries(order, hits), Entries(order, hits + 1);
    NextResidue(hits, k);
    assert now[from..] == [now[from]] + now[from + 1..];
    assert next[from..] == [next[from]] + next[from + 1..];
    assert Bump(now[from]) == next[from];
    if from < r {
      FallPast(t, protocol, father, units, hits, from + 1);
    } else {
      var end := t[order[r].name];
      assert end == [Entry(order[r].DnatRule(), 0)];
      assert now[from + 1..] == next[from + 1..];
    }
  }

  lemma NextResidue(hits: nat, k: nat)
    requires 0 < k
    ensures (hits + 1) % k == if hits % k + 1 < k then hits % k + 1 else 0
  {
    var q, r := hits / k, hits % k;
    assert hits == q * k + r;
    if r + 1 < k {
      assert hits + 1 == q * k + (r + 1);
      Residue(q, k, r + 1, hits + 1);
    } else {
      assert hits + 1 == (q + 1) * k + 0;
      Residue(q + 1, k, 0, hits + 1);
    }
  }

  lemma Residue(q: nat, k: nat, r: nat, x: nat)
    requires 0 < k && r < k && x == q * k + r
    ensures x % k == r
  {
    var q', r' := x / k, x % k;
    assert x == q' * k + r';
    assert (q - q') * k == r' - r;
    Multiple(q - q', k);
  }

  lemma Multiple(d: int, k: int)
    requires 0 < k
    ensures d * k == 0 || d * k >= k || d * k <= 0 - k
  {
  }

  /** The packet after `hits` packets reaches pod number hits mod k, never falls through,
      and leaves the counters as they are after hits + 1 packets. */
  lemma RoundRobinStep(t: Table, protocol: string, father: string, units: seq<PodUnit>, hits: nat)
    requires units != []
    requires EndsInstalled(t, Plan(protocol, father, units))
    ensures var order := Plan(protocol, father, units);
            var u := units[hits % |units|];
            Walk(t, Entries(order, hits), protocol)
            == (Some(u.podIp + ":" + u.podPort), Entries(order, hits + 1))
  {
    FallPast(t, protocol, father, units, hits, 0);
    var order := Plan(protocol, father, units);
    assert Entries(order, hits)[0..] == Entries(order, hits);
    assert Entries(order, hits + 1)[0..] == Entries(order, hits + 1);
  }

  /** Destinations of n packets sent one after another into the chain `name`. */
  function Send(t: Table, name: string, protocol: string, n: nat): (seq<Option<string>>, Table)
    requires name in t
    ensures name in Send(t, name, protocol, n).1
    ensures |Send(t, name, protocol, n).0| == n
  {
    if n == 0 then ([], t)
    else
      var (ds, t') := Send(t, name, protocol, n - 1);
      var (d, es) := Walk(t', t'[name], protocol);
      (ds + [d], t'[name := es])
  }

  /** A freshly built chain serves k pods in turn: packet number i goes to pod i mod k. */
  lemma {:induction false} RoundRobin(t: Table, name: string, protocol: string, units: seq<PodUnit>, n: nat)
    requires units != [] && name in t
    requires t[name] == Entries(Plan(protocol, name, units), 0)
    requires EndsInstalled(t, Plan(protocol, name, units))
    requires forall u | u in units :: SepName(u) != name
    ensures var (ds, t') := Send(t, name, protocol, n);
            && (forall i | 0 <= i < n ::
                  ds[i] == Some(units[i % |units|].podIp + ":" + units[i % |units|].podPort))
            && t' == t[name := Entries(Plan(protocol, name, units), n)]
  {
    hide Entries, Walk, Plan, EndsInstalled, SepName;
    var order := Plan(protocol, name, units);
    if n == 0 {
      assert t[name := t[name]] == t;
    } else {
      RoundRobin(t, name, protocol, units, n - 1);
      StillInstalled(t, name, protocol, units, Entries(order, n - 1));
      RoundRobinStep(t[name := Entries(order, n - 1)], protocol, name, units, n - 1);
      Rewritten(t, name, Entries(order, n - 1), Entries(order, n));
    }
  }

  lemma Rewritten(t: Table, name: string, es: seq<Entry>, es': seq<Entry>)
    ensures t[name := es][name] == es && t[name := es][name := es'] == t[name := es']
  {
  }

  /** The service chain is none of its pods' chains. */
  lemma StillInstalled(t: Table, name: string, protocol: string, units: seq<PodUnit>, es: seq<Entry>)
    requires EndsInstalled(t, Plan(protocol, name, units)) && forall u | u in units :: SepName(u) != name
    ensures EndsInstalled(t[name := es], Plan(protocol, name, units))
  {
  }
}
