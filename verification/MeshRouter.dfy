/** The mesh router: a weighted lottery over a cluster IP's endpoints, and service updates that
    carry weights over. */
module MeshRouter {
  import opened Objects
  import opened Options

  datatype EndPoint = EndPoint(podIP: string, weight: int)

  datatype Outcome = Chosen(podIP: string) | NoEndpoints | Panic

  /** What the watch on services delivers, `Garbage` being what does not unmarshal; and a weight set. */
  datatype Event =
    | Delete(name: string)
    | Put(name: string, clusterIP: string, pods: seq<PodNameAndIp>)
    | Garbage
    | Upsert(clusterIP: string, podIP: string, weight: int)

  /** The weight of the first `i` endpoints together. */
  function Below(eps: seq<EndPoint>, i: nat): int
    requires i <= |eps|
  {
    if i == 0 then 0 else Below(eps, i - 1) + eps[i - 1].weight
  }

  function Total(eps: seq<EndPoint>): int {
    Below(eps, |eps|)
  }

  predicate NonNegative(eps: seq<EndPoint>) {
    forall i :: 0 <= i < |eps| ==> eps[i].weight >= 0
  }

  lemma {:induction false} BelowGrows(eps: seq<EndPoint>, i: nat, j: nat)
    requires i <= j <= |eps| && NonNegative(eps)
    ensures Below(eps, i) <= Below(eps, j)
  {
    if i < j {
      BelowGrows(eps, i, j - 1);
    }
  }

  /** The loop stops at `i` on this draw: the first place where the running sum reaches it. */
  ghost predicate Stops(eps: seq<EndPoint>, num: int, i: int) {
    0 <= i < |eps| && num <= Below(eps, i + 1) && forall k :: 0 < k <= i ==> Below(eps, k) < num
  }

  /** lo + 1, ..., lo + n */
  ghost function Span(lo: int, n: nat): set<int> {
    if n == 0 then {} else Span(lo, n - 1) + {lo + n}
  }

  /** The draws on which endpoint `i` is chosen. */
  ghost function Draws(eps: seq<EndPoint>, i: nat): set<int> {
    set num | 0 < num <= Total(eps) && Stops(eps, num, i)
  }

  lemma {:induction false} SpanCounts(lo: int, n: nat)
    ensures |Span(lo, n)| == n
    ensures forall num :: num in Span(lo, n) <==> lo < num <= lo + n
  {
    if n > 0 {
      SpanCounts(lo, n - 1);
    }
  }

  lemma StopsWithin(eps: seq<EndPoint>, num: int, i: nat)
    requires NonNegative(eps) && i < |eps| && 0 < num <= Total(eps)
    ensures Stops(eps, num, i) <==> Below(eps, i) < num <= Below(eps, i + 1)
  {
    if Below(eps, i) < num {
      forall k | 0 < k <= i
        ensures Below(eps, k) < num
      {
        BelowGrows(eps, k, i);
      }
    }
  }

  /** Of the draws 1, ..., Total, exactly `weight` choose an endpoint: none a weightless one. */
  lemma FairShare(eps: seq<EndPoint>, i: nat)
    requires NonNegative(eps) && i < |eps|
    ensures |Draws(eps, i)| == eps[i].weight
  {
    var lo := Below(eps, i);
    assert eps[i].weight >= 0;
    SpanCounts(lo, eps[i].weight);
    BelowGrows(eps, 0, i);
    BelowGrows(eps, i + 1, |eps|);
    forall num
      ensures num in Draws(eps, i) <==> num in Span(lo, eps[i].weight)
    {
      if 0 < num <= Total(eps) {
        StopsWithin(eps, num, i);
      }
    }
    assert Draws(eps, i) == Span(lo, eps[i].weight);
  }

  /** Every draw chooses exactly one endpoint. */
  lemma {:induction false} OneStop(eps: seq<EndPoint>, num: int, n: nat)
    requires n <= |eps| && 0 < num <= Below(eps, n)
    ensures exists i :: Stops(eps, num, i)
    ensures forall i, j :: Stops(eps, num, i) && Stops(eps, num, j) ==> i == j
  {
    if j :| 0 <= j < n && num <= Below(eps, j) {
      OneStop(eps, num, j);
    } else {
      assert Stops(eps, num, n - 1);
    }
    assert forall i, j :: Stops(eps, num, i) && Stops(eps, num, j) && i < j ==> 0 < i + 1 <= j;
  }

  /** An address has one weight, however often it is listed. */
  ghost predicate Uniform(eps: seq<EndPoint>) {
    forall i, j :: 0 <= i < |eps| && 0 <= j < |eps| && eps[i].podIP == eps[j].podIP ==> eps[i].weight == eps[j].weight
  }

  /** The weight an address is remembered with: that of its last endpoint, or zero. */
  function WeightOf(eps: seq<EndPoint>, ip: string): int {
    if eps == [] then 0
    else if eps[|eps| - 1].podIP == ip then eps[|eps| - 1].weight
    else WeightOf(eps[..|eps| - 1], ip)
  }

  function Carry(eps: seq<EndPoint>, pods: seq<PodNameAndIp>): (r: seq<EndPoint>)
    ensures |r| == |pods|
    ensures forall i :: 0 <= i < |pods| ==> r[i] == EndPoint(pods[i].ip, WeightOf(eps, pods[i].ip))
  {
    seq(|pods|, i requires 0 <= i < |pods| => EndPoint(pods[i].ip, WeightOf(eps, pods[i].ip)))
  }

  lemma {:induction false} WeightOfMember(eps: seq<EndPoint>, i: nat)
    requires i < |eps| && Uniform(eps)
    ensures WeightOf(eps, eps[i].podIP) == eps[i].weight
  {
    if i < |eps| - 1 {
      WeightOfMember(eps[..|eps| - 1], i);
    }
  }

  lemma {:induction false} WeightOfStranger(eps: seq<EndPoint>, ip: string)
    requires forall i :: 0 <= i < |eps| ==> eps[i].podIP != ip
    ensures WeightOf(eps, ip) == 0
  {
    if eps != [] {
      WeightOfStranger(eps[..|eps| - 1], ip);
    }
  }

  /** An update keeps the chances, in draws, of every address that stays, wherever it moves to, and
      gives a new address none; so what is ever chosen was given its weight before. */
  lemma CarriesChances(eps: seq<EndPoint>, pods: seq<PodNameAndIp>)
    requires NonNegative(eps) && Uniform(eps)
    ensures var after := Carry(eps, pods);
            && NonNegative(after)
            && (forall i, j :: 0 <= i < |eps| && 0 <= j < |after| && eps[i].podIP == after[j].podIP ==>
               |Draws(after, j)| == |Draws(eps, i)|)
            && (forall j :: 0 <= j < |after| && after[j].podIP !in Addresses(eps) ==> Draws(after, j) == {})
  {
    hide Draws, Below;
    var after := Carry(eps, pods);
    forall j | 0 <= j < |after|
      ensures after[j].weight >= 0
      ensures forall i :: 0 <= i < |eps| && eps[i].podIP == after[j].podIP ==> after[j].weight == eps[i].weight
      ensures after[j].podIP !in Addresses(eps) ==> after[j].weight == 0
    {
      if i :| 0 <= i < |eps| && eps[i].podIP == after[j].podIP {
        WeightOfMember(eps, i);
      } else {
        WeightOfStranger(eps, after[j].podIP);
      }
    }
    forall i | 0 <= i < |eps|
      ensures |Draws(eps, i)| == eps[i].weight
    {
      FairShare(eps, i);
    }
    forall j | 0 <= j < |after|
      ensures |Draws(after, j)| == after[j].weight
    {
      FairShare(after, j);
    }
  }

  function Addresses(eps: seq<EndPoint>): set<string> {
    set ep | ep in eps :: ep.podIP
  }

  /** The two maps of a router, nil where `None`. */
  datatype Table = Table(m: Option<map<string, seq<EndPoint>>>, svcMap: Option<map<string, string>>)
  {
    /** Reading a nil map finds nothing. */
    function Eps(clusterIP: string): seq<EndPoint> {
      if m.Some? && clusterIP in m.value then m.value[clusterIP] else []
    }

    function ClusterOf(name: string): Option<string> {
      if svcMap.Some? && name in svcMap.value then Some(svcMap.value[name]) else None
    }
  }

  const Nil := Table(None, None)

  const Made := Table(Some(map[]), Some(map[]))

  predicate Listed(eps: seq<EndPoint>, ip: string) {
    exists i | 0 <= i < |eps| :: eps[i].podIP == ip
  }

  /** Assigning to a nil map panics. */
  predicate Panics(t: Table, e: Event) {
    match e
    case Put(_, _, _) => t.svcMap.None? || t.m.None?
    case Upsert(clusterIP, podIP, _) => t.m.None?
    case _ => false
  }

  /** The maps after an event that does not panic. */
  function Next(t: Table, e: Event): Table
    requires !Panics(t, e)
  {
    match e
    case Garbage => t
    case Delete(name) =>
      if t.ClusterOf(name).None? then t
      else
        t.(svcMap := Some(t.svcMap.value - {name}),
           m := if t.m.Some? then Some(t.m.value - {t.svcMap.value[name]}) else None)
    case Put(name, clusterIP, pods) =>
      Table(Some(t.m.value[clusterIP := Carry(t.Eps(clusterIP), pods)]), Some(t.svcMap.value[name := clusterIP]))
    case Upsert(clusterIP, podIP, weight) =>
      if Listed(t.Eps(clusterIP), podIP) then t
      else t.(m := Some(t.m.value[clusterIP := t.Eps(clusterIP) + [EndPoint(podIP, weight)]]))
  }

  /** The maps after all these events, or None where one of them panicked. */
  function After(t: Table, events: seq<Event>): Option<Table> {
    if events == [] then Some(t)
    else
      var r := After(t, events[..|events| - 1]);
      if r.None? || Panics(r.value, events[|events| - 1]) then None else Some(Next(r.value, events[|events| - 1]))
  }

  /** A router as `NewRouter` leaves it survives until the first service or weight, and knows no endpoint until then. */
  lemma {:induction false} NewRouterPanics(events: seq<Event>)
    ensures After(Nil, events).None? <==> exists i :: 0 <= i < |events| && (events[i].Put? || events[i].Upsert?)
    ensures After(Nil, events).Some? ==> After(Nil, events) == Some(Nil)
  {
    if events != [] {
      var front, last := events[..|events| - 1], events[|events| - 1];
      NewRouterPanics(front);
      assert forall i :: 0 <= i < |front| ==> front[i] == events[i];
      if After(Nil, front).None? {
        var i :| 0 <= i < |front| && (front[i].Put? || front[i].Upsert?);
        assert events[i].Put? || events[i].Upsert?;
      } else if last.Put? || last.Upsert? {
        assert events[|events| - 1] == last;
      }
    }
  }

  /** With its maps made, it never panics. */
  lemma {:induction false} MadeSurvives(events: seq<Event>)
    ensures After(Made, events).Some?
    ensures var t := After(Made, events).value; t.m.Some? && t.svcMap.Some?
  {
    if events != [] {
      MadeSurvives(events[..|events| - 1]);
    }
  }

  ghost function Eps(events: seq<Event>, c: string): seq<EndPoint> {
    MadeSurvives(events);
    After(Made, events).value.Eps(c)
  }

  /** The cluster IP a service was last PUT with, unless it was deleted since. */
  ghost function LastCluster(events: seq<Event>, name: string): Option<string> {
    if events == [] then None
    else
      var e := events[|events| - 1];
      if e.Put? && e.name == name then Some(e.clusterIP)
      else if e.Delete? && e.name == name then None
      else LastCluster(events[..|events| - 1], name)
  }

  lemma {:induction false} ClusterOfIsLast(events: seq<Event>, name: string)
    ensures After(Made, events).Some? && After(Made, events).value.ClusterOf(name) == LastCluster(events, name)
  {
    MadeSurvives(events);
    if events != [] {
      ClusterOfIsLast(events[..|events| - 1], name);
    }
  }

  /** The event takes the address from the cluster IP's endpoints: it lists other pods for it, or deletes
      a service last PUT with it. */
  ghost predicate Drops(events: seq<Event>, e: Event, c: string, ip: string) {
    || (e.Put? && e.clusterIP == c && forall i :: 0 <= i < |e.pods| ==> e.pods[i].ip != ip)
    || (e.Delete? && LastCluster(events, e.name) == Some(c))
  }

  /** The event inserts the address with this weight. */
  ghost predicate Inserts(events: seq<Event>, e: Event, c: string, ip: string, w: int) {
    e == Upsert(c, ip, w) && !Listed(Eps(events, c), ip)
  }

  lemma {:induction false} WeightOfAppended(eps: seq<EndPoint>, ep: EndPoint, ip: string)
    ensures WeightOf(eps + [ep], ip) == if ep.podIP == ip then ep.weight else WeightOf(eps, ip)
  {
    assert (eps + [ep])[..|eps|] == eps;
  }

  lemma {:induction false} WeightOfCarried(eps: seq<EndPoint>, pods: seq<PodNameAndIp>, n: nat, ip: string)
    requires n <= |pods|
    ensures WeightOf(Carry(eps, pods)[..n], ip) ==
            if exists i :: 0 <= i < n && pods[i].ip == ip then WeightOf(eps, ip) else 0
  {
    if n > 0 {
      var r := Carry(eps, pods);
      assert r[..n][..n - 1] == r[..n - 1];
      WeightOfCarried(eps, pods, n - 1, ip);
      if pods[n - 1].ip != ip && exists i :: 0 <= i < n && pods[i].ip == ip {
        var i :| 0 <= i < n && pods[i].ip == ip;
        assert i < n - 1;
      }
    }
  }

  /** How one event moves one address's weight under one cluster IP. */
  lemma WeightStep(events: seq<Event>, e: Event, c: string, ip: string)
    ensures var was, now := WeightOf(Eps(events, c), ip), WeightOf(Eps(events + [e], c), ip);
            now == if e.Upsert? && Inserts(events, e, c, ip, e.weight) then e.weight
                   else if Drops(events, e, c, ip) then 0 else was
  {
    MadeSurvives(events);
    assert (events + [e])[..|events|] == events;
    var t := After(Made, events).value;
    assert After(Made, events + [e]) == Some(Next(t, e));
    hide After, WeightOf;
    match e
    case Garbage =>
    case Delete(name) =>
      ClusterOfIsLast(events, name);
      NoWeight(ip);
    case Put(name, clusterIP, pods) =>
      if clusterIP == c {
        var r := Carry(t.Eps(c), pods);
        WeightOfCarried(t.Eps(c), pods, |pods|, ip);
        assert r[..|pods|] == r;
      }
    case Upsert(clusterIP, podIP, weight) =>
      if clusterIP == c {
        WeightOfAppended(t.Eps(c), EndPoint(podIP, weight), ip);
      }
  }

  lemma NoWeight(ip: string)
    ensures WeightOf([], ip) == 0
  {
  }

  /** After a PUT the cluster IP has the listed pods in order. */
  lemma PutLists(events: seq<Event>, name: string, c: string, pods: seq<PodNameAndIp>)
    ensures var eps := Eps(events + [Put(name, c, pods)], c);
            |eps| == |pods| && forall i :: 0 <= i < |pods| ==> eps[i].podIP == pods[i].ip
    ensures LastCluster(events + [Put(name, c, pods)], name) == Some(c)
  {
    MadeSurvives(events);
    assert (events + [Put(name, c, pods)])[..|events|] == events;
  }

  /** An insertion of the address with weight w that no later event undid. */
  ghost predicate Survives(events: seq<Event>, c: string, ip: string, w: int) {
    exists j :: 0 <= j < |events| && Inserts(events[..j], events[j], c, ip, w) && Undropped(events, j, c, ip)
  }

  ghost predicate Undropped(events: seq<Event>, j: nat, c: string, ip: string) {
    forall k :: j < k < |events| ==> !Drops(events[..k], events[k], c, ip)
  }

  lemma SurvivesStep(events: seq<Event>, e: Event, c: string, ip: string, w: int)
    ensures Survives(events + [e], c, ip, w) <==>
            Inserts(events, e, c, ip, w) || (Survives(events, c, ip, w) && !Drops(events, e, c, ip))
  {
    hide Inserts, Drops;
    var longer := events + [e];
    assert forall j :: 0 <= j < |events| ==> longer[j] == events[j] && longer[..j] == events[..j];
    assert longer[|events|] == e && longer[..|events|] == events;
    if Inserts(events, e, c, ip, w) {
      assert Undropped(longer, |events|, c, ip);
    }
    if Survives(events, c, ip, w) && !Drops(events, e, c, ip) {
      var j :| 0 <= j < |events| && Inserts(events[..j], events[j], c, ip, w) && Undropped(events, j, c, ip);
      assert Undropped(longer, j, c, ip);
    }
    if Survives(longer, c, ip, w) && !Inserts(events, e, c, ip, w) {
      var j :| 0 <= j < |longer| && Inserts(longer[..j], longer[j], c, ip, w) && Undropped(longer, j, c, ip);
      assert j < |events| && Undropped(events, j, c, ip);
      assert !Drops(longer[..|events|], longer[|events|], c, ip);
    }
  }

  /** An address has a positive weight exactly when an insertion with that weight survives. */
  lemma {:induction false} WeightIffSurvives(events: seq<Event>, c: string, ip: string, w: int)
    requires w > 0
    ensures WeightOf(Eps(events, c), ip) == w <==> Survives(events, c, ip, w)
  {
    hide WeightOf, Drops, Survives, After, Eps, Listed, LastCluster;
    if events == [] {
      NothingYet(c, ip, w);
    } else {
      var front, e := events[..|events| - 1], events[|events| - 1];
      assert events == front + [e];
      WeightIffSurvives(front, c, ip, w);
      WeightStep(front, e, c, ip);
      SurvivesStep(front, e, c, ip, w);
      Unlisted(Eps(front, c), ip);
    }
  }

  lemma NothingYet(c: string, ip: string, w: int)
    ensures WeightOf(Eps([], c), ip) == 0 && !Survives([], c, ip, w)
  {
  }

  lemma Unlisted(eps: seq<EndPoint>, ip: string)
    ensures !Listed(eps, ip) ==> WeightOf(eps, ip) == 0
  {
    if !Listed(eps, ip) {
      WeightOfStranger(eps, ip);
    }
  }

  predicate WeightsNonNegative(events: seq<Event>) {
    forall i :: 0 <= i < |events| && events[i].Upsert? ==> events[i].weight >= 0
  }

  /** Whatever is listed is listed with one weight, and with none below zero. */
  lemma {:induction false} Orderly(events: seq<Event>, c: string)
    ensures Uniform(Eps(events, c))
    ensures WeightsNonNegative(events) ==> NonNegative(Eps(events, c))
  {
    MadeSurvives(events);
    if events != [] {
      var front, e := events[..|events| - 1], events[|events| - 1];
      Orderly(front, c);
      MadeSurvives(front);
      var t := After(Made, front).value;
      assert After(Made, events) == Some(Next(t, e));
      hide After;
      assert WeightsNonNegative(events) ==> WeightsNonNegative(front);
      if e.Put? && e.clusterIP == c {
        CarryOrderly(t.Eps(c), e.pods);
      }
    }
  }

  lemma CarryOrderly(eps: seq<EndPoint>, pods: seq<PodNameAndIp>)
    ensures Uniform(Carry(eps, pods))
    ensures NonNegative(eps) ==> NonNegative(Carry(eps, pods))
  {
    var r := Carry(eps, pods);
    if NonNegative(eps) {
      forall i | 0 <= i < |r|
        ensures r[i].weight >= 0
      {
        WeightOfBounds(eps, r[i].podIP);
      }
    }
  }

  lemma {:induction false} WeightOfBounds(eps: seq<EndPoint>, ip: string)
    requires NonNegative(eps)
    ensures WeightOf(eps, ip) >= 0
    ensures WeightOf(eps, ip) > 0 ==> exists i :: 0 <= i < |eps| && eps[i].weight > 0
  {
    if eps != [] {
      WeightOfBounds(eps[..|eps| - 1], ip);
      var front := eps[..|eps| - 1];
      if i :| 0 <= i < |front| && front[i].weight > 0 {
        assert eps[i].weight > 0;
      }
      assert eps[|eps| - 1].weight > 0 || eps[|eps| - 1].weight == 0;
    }
  }

  lemma {:induction false} TotalPositive(eps: seq<EndPoint>, n: nat)
    requires NonNegative(eps) && n <= |eps|
    ensures Below(eps, n) > 0 <==> exists i :: 0 <= i < n && eps[i].weight > 0
    ensures Below(eps, n) >= 0
  {
    if n > 0 {
      TotalPositive(eps, n - 1);
      if exists i :: 0 <= i < n && eps[i].weight > 0 {
        var i :| 0 <= i < n && eps[i].weight > 0;
        assert i < n - 1 || i == n - 1;
      }
      assert eps[n - 1].weight >= 0;
    }
  }

  /** Over every run: a cluster IP has something to draw from exactly when an insertion with positive
      weight survives under it. Service updates alone never give it anything. */
  lemma DrawableIffSurvives(events: seq<Event>, c: string)
    requires WeightsNonNegative(events)
    ensures Total(Eps(events, c)) > 0 <==> exists ip, w :: w > 0 && Survives(events, c, ip, w)
  {
    hide Survives;
    var eps := Eps(events, c);
    hide Eps;
    Orderly(events, c);
    TotalPositive(eps, |eps|);
    if i :| 0 <= i < |eps| && eps[i].weight > 0 {
      WeightOfMember(eps, i);
      WeightIffSurvives(events, c, eps[i].podIP, eps[i].weight);
    }
    if ip, w :| w > 0 && Survives(events, c, ip, w) {
      WeightIffSurvives(events, c, ip, w);
      WeightOfBounds(eps, ip);
    }
  }

  class Router {
    var m: Option<map<string, seq<EndPoint>>>
    /** service name -> cluster IP */
    var svcMap: Option<map<string, string>>

    ghost function Maps(): Table
      reads this
    {
      Table(m, svcMap)
    }

    /** Neither map is made. */
    constructor NewRouter()
      ensures Maps() == Nil
    {
      m := None;
      svcMap := None;
    }

    constructor WithMaps()
      ensures Maps() == Made
    {
      m := Some(map[]);
      svcMap := Some(map[]);
    }

    /** Not `ok` where the handler panics. */
    method WatchRuntimeService(event: Event) returns (ok: bool)
      requires !event.Upsert?
      modifies this
      ensures ok <==> !Panics(old(Maps()), event)
      ensures ok ==> Maps() == Next(old(Maps()), event)
    {
      ok := true;
      match event
      case Garbage =>
      case Delete(name) =>
        if svcMap.Some? && name in svcMap.value {
          if m.Some? {
            m := Some(m.value - {svcMap.value[name]});
          }
          svcMap := Some(svcMap.value - {name});
        }
      case Put(name, clusterIP, pods) =>
        if svcMap.None? {
          return false;
        }
        svcMap := Some(svcMap.value[name := clusterIP]);
        var endpoints := if m.Some? && clusterIP in m.value then m.value[clusterIP] else [];
        var newEndpoints := CarryOver(endpoints, pods);
        if m.None? {
          return false;
        }
        m := Some(m.value[clusterIP := newEndpoints]);
    }

    /** Inserts an address that is not there; the weight of one that is stays, for the assignment is
        to a copy. */
    method UpsertEndpoints(clusterIP: string, podIP: string, weight: int) returns (ok: bool)
      modifies this
      ensures ok <==> !Panics(old(Maps()), Upsert(clusterIP, podIP, weight))
      ensures ok ==> Maps() == Next(old(Maps()), Upsert(clusterIP, podIP, weight))
    {
      if m.None? {
        return false;
      }
      if clusterIP !in m.value {
        m := Some(m.value[clusterIP := [EndPoint(podIP, weight)]]);
        assert [] + [EndPoint(podIP, weight)] == [EndPoint(podIP, weight)];
      } else {
        var endpoints := m.value[clusterIP];
        for i := 0 to |endpoints|
          invariant m == old(m) && svcMap == old(svcMap)
          invariant forall k :: 0 <= k < i ==> endpoints[k].podIP != podIP
        {
          var ep := endpoints[i];
          if ep.podIP == podIP {
            ep := ep.(weight := weight);
            return true;
          }
        }
        m := Some(m.value[clusterIP := m.value[clusterIP] + [EndPoint(podIP, weight)]]);
      }
      ok := true;
    }

    /** `draw` is the random number, from 1 to the sum of the weights; the random generator panics
        when there is no such number. */
    method GetEndPoint(clusterIP: string, draw: int) returns (r: Outcome)
      requires var eps := Maps().Eps(clusterIP); Total(eps) > 0 ==> 1 <= draw <= Total(eps)
      ensures var eps := Maps().Eps(clusterIP);
              && (r == NoEndpoints <==> eps == [])
              && (r == Panic <==> eps != [] && Total(eps) <= 0)
              && (r.Chosen? ==> exists i :: Stops(eps, draw, i) && r.podIP == eps[i].podIP)
    {
      if m.None? || clusterIP !in m.value || m.value[clusterIP] == [] {
        return NoEndpoints;
      }
      var endpoints := m.value[clusterIP];
      var sum := 0;
      for i := 0 to |endpoints|
        invariant sum == Below(endpoints, i)
      {
        sum := sum + endpoints[i].weight;
      }
      if sum <= 0 {
        return Panic;
      }
      sum := 0;
      for i := 0 to |endpoints|
        invariant sum == Below(endpoints, i) && sum < draw
        invariant forall k :: 0 < k <= i ==> Below(endpoints, k) < draw
      {
        sum := sum + endpoints[i].weight;
        if sum >= draw {
          assert Stops(endpoints, draw, i);
          return Chosen(endpoints[i].podIP);
        }
      }
    }
  }

  /** The two loops of an update: the weights by address, then the pods with theirs. */
  method CarryOver(endpoints: seq<EndPoint>, pods: seq<PodNameAndIp>) returns (newEndpoints: seq<EndPoint>)
    ensures newEndpoints == Carry(endpoints, pods)
  {
    var weightMap: map<string, int> := map[];
    for i := 0 to |endpoints|
      invariant forall ip :: (if ip in weightMap then weightMap[ip] else 0) == WeightOf(endpoints[..i], ip)
    {
      weightMap := weightMap[endpoints[i].podIP := endpoints[i].weight];
      assert endpoints[..i + 1][..i] == endpoints[..i];
    }
    assert endpoints[..|endpoints|] == endpoints;
    newEndpoints := [];
    for i := 0 to |pods|
      invariant newEndpoints == Carry(endpoints, pods)[..i]
    {
      var weight := 0;
      if pods[i].ip in weightMap {
        weight := weightMap[pods[i].ip];
      }
      newEndpoints := newEndpoints + [EndPoint(pods[i].ip, weight)];
    }
  }

  lemma AfterNone(t: Table)
    ensures After(t, []) == Some(t)
  {
  }

  lemma AfterNext(t: Table, events: seq<Event>, e: Event)
    ensures var r := After(t, events);
            After(t, events + [e]) == if r.None? || Panics(r.value, e) then None else Some(Next(r.value, e))
  {
    hide Next, Panics;
    assert (events + [e])[..|events|] == events;
  }

  /** Any sequence of events, from nil or from made maps. */
  method Serve(made: bool, events: seq<Event>) returns (router: Router, ok: bool)
    ensures fresh(router) && ok == (made || forall i :: 0 <= i < |events| ==> !events[i].Put? && !events[i].Upsert?)
    ensures ok ==> Some(router.Maps()) == After(if made then Made else Nil, events)
  {
    hide After, Next, Panics;
    var start := if made then Made else Nil;
    AfterNone(start);
    if made {
      router := new Router.WithMaps();
    } else {
      router := new Router.NewRouter();
    }
    MadeSurvives(events);
    NewRouterPanics(events);
    for i := 0 to |events|
      invariant fresh(router) && Some(router.Maps()) == After(start, events[..i])
    {
      AfterNext(start, events[..i], events[i]);
      assert events[..i + 1] == events[..i] + [events[i]];
      var good;
      if events[i].Upsert? {
        good := router.UpsertEndpoints(events[i].clusterIP, events[i].podIP, events[i].weight);
      } else {
        good := router.WatchRuntimeService(events[i]);
      }
      if !good {
        NewRouterPanics(events[..i + 1]);
        MadeSurvives(events[..i + 1]);
        return router, false;
      }
    }
    assert events[..|events|] == events;
    ok := true;
  }
}
