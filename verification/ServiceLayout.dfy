/** What the nat table looks like as a whole: a function of the live services alone. */
module ServiceLayout {
  import opened Collections
  import opened NatTable
  import opened RoundRobin
  import opened ServiceChain

  /** One live service port: the key it is filed under, its pods in order and the packets served
      since it was last built. */
  datatype Live = Live(key: string, name: string, clusterIp: string, port: string, protocol: string,
                       units: seq<PodUnit>, hits: nat)
  {
    function JumpRule(): Rule { ServiceJump(clusterIp, protocol, port, name) }
    function Order(): seq<SepChain> { Plan(protocol, name, units) }
  }

  /** The chain names of a service. */
  ghost function Names(s: Live): set<string> {
    {s.name} + set i | 0 <= i < |s.units| :: SepName(s.units[i])
  }

  /** A service whose own chain names differ, from each other and from the general chain's. */
  ghost predicate Tidy(s: Live) {
    && s.name != SERVICE_CHAIN && DistinctNames(s.units)
    && (forall i | 0 <= i < |s.units| :: SepName(s.units[i]) != SERVICE_CHAIN && SepName(s.units[i]) != s.name)
  }

  /** No two chains of the live services have the same name, nor the name of the general chain. */
  ghost predicate CollisionFree(live: seq<Live>) {
    && (forall i | 0 <= i < |live| :: Tidy(live[i]))
    && (forall i, j | 0 <= i < j < |live| :: Names(live[i]) !! Names(live[j]))
  }

  /** Some live service has a chain of this name. */
  ghost predicate Claimed(live: seq<Live>, n: string) {
    exists i :: 0 <= i < |live| && n in Names(live[i])
  }

  /** The service could live beside these. */
  ghost predicate Joins(live: seq<Live>, s: Live) {
    Tidy(s) && forall n | n in Names(s) :: !Claimed(live, n)
  }

  lemma NamesAre(s: Live)
    ensures s.name in Names(s) && forall i | 0 <= i < |s.units| :: SepName(s.units[i]) in Names(s)
    ensures forall n | n in Names(s) :: n == s.name || exists i :: 0 <= i < |s.units| && n == SepName(s.units[i])
  {
  }

  lemma TidyPlan(s: Live)
    requires Tidy(s)
    ensures DistinctNames(s.units) && DistinctSeps(s.Order()) && UnitsOf(s.Order()) == s.units
    ensures forall n | n in EndsOf(s.Order()) :: n != SERVICE_CHAIN && n != s.name && n in Names(s)
                                                 && NoJumps(EndsOf(s.Order())[n])
    ensures forall n | n in Names(s) && n != s.name :: n in EndsOf(s.Order())
  {
    hide DistinctSeps, EndsOf, Plan, UnitsOf, SepName, NoJumps, DistinctNames, Names;
    PlanFacts(s.protocol, s.name, s.units);
    NamesAre(s);
    PlanEnds(s.protocol, s.name, s.units);
  }

  /** The chains of one service. */
  ghost function Chains(s: Live): Table
    requires Tidy(s)
  {
    TidyPlan(s);
    EndsOf(s.Order())[s.name := Entries(s.Order(), s.hits)]
  }

  ghost function Bodies(live: seq<Live>): Table
    requires CollisionFree(live)
  {
    if live == [] then map[]
    else Bodies(live[..|live| - 1]) + Chains(live[|live| - 1])
  }

  function JumpEntries(live: seq<Live>): (es: seq<Entry>)
    ensures |es| == |live|
  {
    seq(|live|, i requires 0 <= i < |live| => Entry(live[i].JumpRule(), 0))
  }

  /** The whole table: one rule per live service in the general chain, and the services' chains. */
  ghost function Layout(live: seq<Live>): Table
    requires CollisionFree(live)
  {
    Bodies(live)[SERVICE_CHAIN := JumpEntries(live)]
  }

  lemma ChainsNames(s: Live)
    requires Tidy(s)
    ensures Chains(s).Keys == Names(s) && SERVICE_CHAIN !in Names(s)
    ensures forall n, e | n in Chains(s) && e in Chains(s)[n] && !e.rule.Dnat? :: e.rule.target in Names(s)
  {
    hide Entries, Plan, EndsOf, DistinctSeps, DistinctNames, Names, UnitsOf;
    TidyPlan(s);
    EntriesTargets(s);
    NamesAre(s);
    assert forall n | n in EndsOf(s.Order()) :: NoJumps(EndsOf(s.Order())[n]);
  }

  lemma EntriesTargets(s: Live)
    ensures forall e | e in Entries(s.Order(), s.hits) :: !e.rule.Dnat? && e.rule.target in Names(s)
  {
    var es := Entries(s.Order(), s.hits);
    forall e | e in es ensures !e.rule.Dnat? && e.rule.target in Names(s) {
      var i :| 0 <= i < |es| && es[i] == e;
      assert e.rule.target == SepName(s.units[i]);
    }
  }

  /** Every jump of the table is to a claimed name. */
  ghost predicate JumpsInto(t: Table, live: seq<Live>) {
    forall n, e | n in t && e in t[n] && !e.rule.Dnat? :: Claimed(live, e.rule.target)
  }

  /** The services' chains are just those with a claimed name, and jump only to claimed names. */
  lemma {:induction false} BodiesNames(live: seq<Live>)
    requires CollisionFree(live)
    ensures forall n :: n in Bodies(live) <==> Claimed(live, n)
    ensures SERVICE_CHAIN !in Bodies(live) && JumpsInto(Bodies(live), live)
  {
    if live != [] {
      hide Names, Tidy, Claimed, JumpsInto, Chains, Bodies, CollisionFree;
      var init, last := live[..|live| - 1], live[|live| - 1];
      BodiesLast(live);
      BodiesNames(init);
      ChainsNames(last);
      ClaimedMore(init, last);
      JumpsBoth(Bodies(init), Chains(last), init, last);
    } else {
      assert Bodies(live) == map[];
    }
  }

  lemma BodiesLast(live: seq<Live>)
    requires CollisionFree(live) && live != []
    ensures var init, last := live[..|live| - 1], live[|live| - 1];
            CollisionFree(init) && Tidy(last) && Bodies(live) == Bodies(init) + Chains(last) && live == init + [last]
  {
    hide Names, Tidy, Chains;
  }

  lemma JumpsBoth(a: Table, b: Table, live: seq<Live>, s: Live)
    requires JumpsInto(a, live)
    requires forall n, e | n in b && e in b[n] && !e.rule.Dnat? :: e.rule.target in Names(s)
    ensures JumpsInto(a + b, live + [s])
  {
    hide Claimed, Names;
    ClaimedMore(live, s);
    forall n, e | n in a + b && e in (a + b)[n] && !e.rule.Dnat?
      ensures Claimed(live + [s], e.rule.target)
    {
      assert (n in b && e in b[n]) || (n in a && e in a[n]);
    }
  }

  lemma ClaimedMore(live: seq<Live>, s: Live)
    ensures forall n :: Claimed(live + [s], n) <==> Claimed(live, n) || n in Names(s)
  {
    hide Names;
    var longer := live + [s];
    forall n
      ensures Claimed(longer, n) <==> Claimed(live, n) || n in Names(s)
    {
      if i :| 0 <= i < |live| && n in Names(live[i]) {
        assert longer[i] == live[i];
      }
      assert longer[|live|] == s;
    }
  }

  lemma Split(live: seq<Live>, i: nat)
    requires CollisionFree(live) && i < |live|
    ensures CollisionFree(RemoveAt(live, i)) && Joins(RemoveAt(live, i), live[i])
  {
    hide Names, Tidy;
    var r := RemoveAt(live, i);
    forall j | 0 <= j < |r| ensures r[j] == live[if j < i then j else j + 1] {
    }
    assert forall n | n in Names(live[i]) :: !Claimed(r, n);
  }

  /** A service can take a place among others exactly when it could live beside them. */
  lemma FreeAt(live: seq<Live>, i: nat)
    requires i < |live| && CollisionFree(RemoveAt(live, i))
    ensures CollisionFree(live) <==> Joins(RemoveAt(live, i), live[i])
  {
    if CollisionFree(live) {
      Split(live, i);
    } else {
      hide Names, Tidy;
      var r := RemoveAt(live, i);
      if Joins(r, live[i]) {
        forall j | 0 <= j < |live| && j != i
          ensures Tidy(live[j]) && Names(live[j]) !! Names(live[i])
        {
          assert r[if j < i then j else j - 1] == live[j];
        }
        forall j, k | 0 <= j < k < |live|
          ensures Names(live[j]) !! Names(live[k])
        {
          if j != i && k != i {
            assert r[if j < i then j else j - 1] == live[j] && r[if k < i then k else k - 1] == live[k];
          }
        }
      }
    }
  }

  lemma FreeNext(live: seq<Live>, s: Live)
    requires CollisionFree(live)
    ensures CollisionFree(live + [s]) <==> Joins(live, s)
  {
    hide CollisionFree, Joins;
    assert RemoveAt(live + [s], |live|) == live;
    FreeAt(live + [s], |live|);
  }

  /** A service could live beside others exactly when its chain names are free in their table. */
  lemma FitsIffJoins(others: seq<Live>, js: seq<Entry>, s: Live)
    requires CollisionFree(others)
    ensures Fits(Bodies(others)[SERVICE_CHAIN := js], s.name, s.units) <==> Joins(others, s)
  {
    hide Bodies, CollisionFree, Claimed, DistinctNames, SepName, Names, JumpsInto;
    BodiesNames(others);
    NamesAre(s);
    var rest: Table := Bodies(others)[SERVICE_CHAIN := js];
    assert forall n :: n in rest <==> n == SERVICE_CHAIN || Claimed(others, n);
  }

  /** The chains of one service and of the others make up the whole, without overlap. */
  lemma {:induction false} BodiesSplit(live: seq<Live>, i: nat)
    requires CollisionFree(live) && i < |live| && CollisionFree(RemoveAt(live, i))
    ensures Bodies(live) == Bodies(RemoveAt(live, i)) + Chains(live[i])
  {
    hide Names, Tidy, Chains, Bodies, CollisionFree;
    var init, last := live[..|live| - 1], live[|live| - 1];
    BodiesLast(live);
    if i == |live| - 1 {
      assert RemoveAt(live, i) == init;
    } else {
      var r, r' := RemoveAt(live, i), RemoveAt(init, i);
      assert r == r' + [last];
      assert r[..|r| - 1] == r';
      Split(init, i);
      BodiesSplit(init, i);
      BodiesLast(r);
      PairApart(live, i, |live| - 1);
      ChainsNames(live[i]);
      ChainsNames(last);
      Swap(Bodies(r'), Chains(live[i]), Chains(last));
    }
  }

  lemma PairApart(live: seq<Live>, i: nat, j: nat)
    requires CollisionFree(live) && i < j < |live|
    ensures Names(live[i]) !! Names(live[j]) && Tidy(live[i])
  {
    hide Names, Tidy;
  }

  lemma Swap<K, V>(m: map<K, V>, a: map<K, V>, b: map<K, V>)
    requires a.Keys !! b.Keys
    ensures (m + a) + b == (m + b) + a
  {
  }

  /** Jumps in the table of some services lead to their names, and jumps in `js` where it says. */
  lemma References(others: seq<Live>, js: seq<Entry>, n: string)
    requires CollisionFree(others) && Referenced(Bodies(others)[SERVICE_CHAIN := js], n)
    ensures Claimed(others, n) || exists e :: e in js && e.rule.JumpsTo(n)
  {
    BodiesNames(others);
    hide Bodies, Claimed, CollisionFree;
    var rest: Table := Bodies(others)[SERVICE_CHAIN := js];
    var c :| c in rest && exists i | 0 <= i < |rest[c]| :: rest[c][i].rule.JumpsTo(n);
    var i :| 0 <= i < |rest[c]| && rest[c][i].rule.JumpsTo(n);
    if c == SERVICE_CHAIN {
      assert js[i] in js;
    } else {
      assert rest[c][i] in Bodies(others)[c];
    }
  }

  /** The rules of the general chain all jump to a claimed name, or to `name`. */
  ghost predicate Leads(js: seq<Entry>, others: seq<Live>, name: string) {
    forall e | e in js && !e.rule.Dnat? :: e.rule.target == name || Claimed(others, e.rule.target)
  }

  /** A service that could live beside the others is apart from their table. */
  lemma OthersApart(others: seq<Live>, js: seq<Entry>, s: Live)
    requires CollisionFree(others) && Leads(js, others, s.name)
    ensures Closed(Bodies(others)[SERVICE_CHAIN := js], s.name)
    ensures Joins(others, s) ==> DistinctSeps(s.Order()) && UnitsOf(s.Order()) == s.units && DistinctNames(s.units)
                                 && Apart(Bodies(others)[SERVICE_CHAIN := js], s.name, EndsOf(s.Order()))
  {
    hide Joins, Fits, DistinctSeps, DistinctNames, UnitsOf, EndsOf, Apart, Plan, Referenced, CollisionFree, Bodies,
         Claimed;
    var rest: Table := Bodies(others)[SERVICE_CHAIN := js];
    BodiesNames(others);
    forall n | Referenced(rest, n)
      ensures n in rest || n == s.name
    {
      References(others, js, n);
    }
    if Joins(others, s) {
      FitsIffJoins(others, js, s);
      FitsApart(rest, s.protocol, s.name, s.units);
    }
  }

  /** The table without service number i, but with its rule still in the general chain. */
  ghost function Others(live: seq<Live>, i: nat): Table
    requires CollisionFree(live) && i < |live|
  {
    Split(live, i);
    Bodies(RemoveAt(live, i))[SERVICE_CHAIN := JumpEntries(live)]
  }

  lemma JumpTargets(live: seq<Live>, i: nat)
    requires i < |live|
    ensures Leads(JumpEntries(live), RemoveAt(live, i), live[i].name)
    ensures Leads(JumpEntries(live), live, "")
  {
    var js, r := JumpEntries(live), RemoveAt(live, i);
    forall e | e in js
      ensures (e.rule.target == live[i].name || Claimed(r, e.rule.target)) && Claimed(live, e.rule.target)
    {
      var k :| 0 <= k < |js| && js[k] == e;
      assert e == Entry(live[k].JumpRule(), 0);
      assert live[k].name in Names(live[k]);
      if k != i {
        assert r[if k < i then k else k - 1] == live[k];
      }
    }
  }

  /** The table seen from live service number i. */
  lemma LayoutParts(live: seq<Live>, i: nat)
    requires CollisionFree(live) && i < |live|
    ensures var s, rest := live[i], Others(live, i);
            && DistinctNames(s.units) && DistinctSeps(s.Order()) && UnitsOf(s.Order()) == s.units
            && Apart(rest, s.name, EndsOf(s.Order())) && Closed(rest, s.name)
            && Layout(live) == Assemble(rest, s.name, Entries(s.Order(), s.hits), EndsOf(s.Order()))
  {
    Split(live, i);
    BodiesSplit(live, i);
    JumpTargets(live, i);
    TidyPlan(live[i]);
    OthersApart(RemoveAt(live, i), JumpEntries(live), live[i]);
    hide Bodies, EndsOf, DistinctSeps, DistinctNames, Plan, Entries, JumpEntries, UnitsOf, Joins, Leads, Closed,
         Apart, CollisionFree;
    UpdateLeft(Bodies(RemoveAt(live, i)), Chains(live[i]), SERVICE_CHAIN, JumpEntries(live));
  }

  /** Another state of one service: the new chain names fit exactly when nothing collides, and the
      table then changes in its chains only. */
  lemma LayoutEdit(live: seq<Live>, i: nat, units: seq<PodUnit>, hits: nat)
    requires CollisionFree(live) && i < |live|
    ensures var s := live[i].(units := units, hits := hits);
            && (Fits(Others(live, i), s.name, units) <==> CollisionFree(live[i := s]))
            && (CollisionFree(live[i := s]) ==>
                  && DistinctSeps(s.Order()) && UnitsOf(s.Order()) == units
                  && Layout(live[i := s]) ==
                     Assemble(Others(live, i), s.name, Entries(s.Order(), hits), EndsOf(s.Order())))
  {
    var s := live[i].(units := units, hits := hits);
    var live' := live[i := s];
    Split(live, i);
    assert RemoveAt(live', i) == RemoveAt(live, i);
    assert JumpEntries(live') == JumpEntries(live);
    hide Bodies, EndsOf, DistinctSeps, DistinctNames, Plan, Entries, JumpEntries, UnitsOf, Joins, Closed, Apart,
         CollisionFree, Fits;
    FitsIffJoins(RemoveAt(live, i), JumpEntries(live), s);
    FreeAt(live', i);
    if CollisionFree(live') {
      LayoutParts(live', i);
    }
  }

  /** Removing one service removes its chains and its rule in the general chain, which it alone holds. */
  lemma LayoutDrop(live: seq<Live>, i: nat)
    requires CollisionFree(live) && i < |live|
    ensures var s, rest := live[i], Others(live, i);
            && SERVICE_CHAIN in rest && i < |rest[SERVICE_CHAIN]| && IsOnly(rest[SERVICE_CHAIN], s.JumpRule(), i)
            && CollisionFree(RemoveAt(live, i))
            && rest[SERVICE_CHAIN := RemoveAt(rest[SERVICE_CHAIN], i)] == Layout(RemoveAt(live, i))
            && !Referenced(Layout(RemoveAt(live, i)), s.name)
  {
    Split(live, i);
    NamesDiffer(live);
    hide Bodies, CollisionFree, JumpEntries, IsOnly, Claimed, Referenced, Names, Tidy, DistinctLive;
    var s, left := live[i], RemoveAt(live, i);
    JumpOnly(live, i);
    Overwrite(Bodies(left), SERVICE_CHAIN, JumpEntries(live), JumpEntries(left));
    if Referenced(Layout(left), s.name) {
      References(left, JumpEntries(left), s.name);
      NotJumpedTo(live, i);
    }
  }

  lemma NotJumpedTo(live: seq<Live>, i: nat)
    requires DistinctLive(live) && i < |live|
    ensures forall e | e in JumpEntries(RemoveAt(live, i)) :: !e.rule.JumpsTo(live[i].name)
    ensures live[i].name in Names(live[i])
  {
    var js := JumpEntries(RemoveAt(live, i));
    forall e | e in js
      ensures !e.rule.JumpsTo(live[i].name)
    {
      var k :| 0 <= k < |js| && js[k] == e;
      assert e.rule.target == live[if k < i then k else k + 1].name;
    }
  }

  lemma Overwrite<K, V>(m: map<K, V>, k: K, v: V, v': V)
    ensures m[k := v][k := v'] == m[k := v']
  {
  }

  lemma NamesDiffer(live: seq<Live>)
    requires CollisionFree(live)
    ensures DistinctLive(live)
  {
    forall i, j | 0 <= i < j < |live| ensures live[i].name != live[j].name {
      assert live[i].name in Names(live[i]) && live[j].name in Names(live[j]);
    }
  }

  lemma JumpOnly(live: seq<Live>, i: nat)
    requires DistinctLive(live) && i < |live|
    ensures IsOnly(JumpEntries(live), live[i].JumpRule(), i)
    ensures RemoveAt(JumpEntries(live), i) == JumpEntries(RemoveAt(live, i))
  {
  }

  lemma OneMore(live: seq<Live>, s: Live)
    ensures RemoveAt(live + [s], |live|) == live
    ensures JumpEntries(live + [s]) == JumpEntries(live) + [Entry(s.JumpRule(), 0)]
  {
  }

  /** One more service: its chain names fit exactly when nothing collides, and then it builds its
      chains and appends its rule to the general chain. */
  lemma LayoutExtend(live: seq<Live>, s: Live)
    requires CollisionFree(live)
    ensures Fits(Layout(live), s.name, s.units) <==> CollisionFree(live + [s])
    ensures Closed(Layout(live), s.name)
    ensures CollisionFree(live + [s]) ==>
              && DistinctSeps(s.Order())
              && var t := Assemble(Layout(live), s.name, Entries(s.Order(), s.hits), EndsOf(s.Order()));
                 && SERVICE_CHAIN in t && s.name in t && t[SERVICE_CHAIN] == JumpEntries(live)
                 && Layout(live + [s]) == t[SERVICE_CHAIN := JumpEntries(live) + [Entry(s.JumpRule(), 0)]]
  {
    hide Bodies, EndsOf, DistinctSeps, DistinctNames, Plan, Entries, JumpEntries, UnitsOf, Joins, Closed, Apart,
         CollisionFree, Fits, Names, Tidy;
    FitsIffJoins(live, JumpEntries(live), s);
    FreeNext(live, s);
    OneMore(live, s);
    JumpTargets(live + [s], |live|);
    AlsoLeads(live, s);
    OthersApart(live, JumpEntries(live), s);
    if CollisionFree(live + [s]) {
      LayoutParts(live + [s], |live|);
      NotGeneral(live, s);
      var own := EndsOf(s.Order())[s.name := Entries(s.Order(), s.hits)];
      UpdateLeft(Layout(live), own, SERVICE_CHAIN, JumpEntries(live + [s]));
    }
  }

  lemma AlsoLeads(live: seq<Live>, s: Live)
    requires Leads(JumpEntries(live + [s]), live, s.name)
    ensures Leads(JumpEntries(live), live, s.name)
  {
    OneMore(live, s);
  }

  lemma NotGeneral(live: seq<Live>, s: Live)
    requires Joins(live, s) && DistinctSeps(s.Order())
    ensures s.name != SERVICE_CHAIN && SERVICE_CHAIN !in EndsOf(s.Order())
  {
    TidyPlan(s);
  }

  /** The services that are not among `gone`. */
  ghost function Without(live: seq<Live>, gone: set<string>): (r: seq<Live>) {
    if live == [] then []
    else
      var r := Without(live[..|live| - 1], gone);
      if live[|live| - 1].name in gone then r else r + [live[|live| - 1]]
  }

  lemma {:induction false} WithoutMembers(live: seq<Live>, gone: set<string>)
    ensures forall s :: s in Without(live, gone) <==> s in live && s.name !in gone
  {
    if live != [] {
      WithoutMembers(live[..|live| - 1], gone);
      assert live == live[..|live| - 1] + [live[|live| - 1]];
    }
  }

  lemma {:induction false} WithoutNone(live: seq<Live>)
    ensures Without(live, {}) == live
  {
    if live != [] {
      WithoutNone(live[..|live| - 1]);
      assert live == live[..|live| - 1] + [live[|live| - 1]];
    }
  }

  /** What can happen to one live service: an update of its pods, or a packet. */
  datatype Change = Rewire(wanted: seq<PodUnit>) | Packet

  ghost function Changed(s: Live, c: Change): (r: Live)
    ensures r.name == s.name && r.key == s.key
  {
    match c
    case Rewire(wanted) => s.(units := Effective(s.units, wanted), hits := 0)
    case Packet => s.(hits := s.hits + 1)
  }

  ghost function Alter(live: seq<Live>, key: string, name: string, c: Change): (r: seq<Live>)
    ensures |r| == |live|
  {
    if live == [] then []
    else
      var last := live[|live| - 1];
      Alter(live[..|live| - 1], key, name, c) + [if last.key == key
        && last.name == name then Changed(last, c) else last]
  }

  lemma {:induction false} AlterEach(live: seq<Live>, key: string, name: string, c: Change)
    ensures forall i | 0 <= i < |live| ::
              Alter(live, key, name, c)[i] == if live[i].key == key
                && live[i].name == name then Changed(live[i], c) else live[i]
  {
    if live != [] {
      AlterEach(live[..|live| - 1], key, name, c);
    }
  }

  lemma AlterAt(live: seq<Live>, i: nat, c: Change)
    requires DistinctLive(live) && i < |live|
    ensures Alter(live, live[i].key, live[i].name, c) == live[i := Changed(live[i], c)]
  {
    AlterEach(live, live[i].key, live[i].name, c);
  }

  ghost predicate DistinctLive(live: seq<Live>) {
    forall i, j | 0 <= i < j < |live| :: live[i].name != live[j].name
  }

  /** One more name gone is one more service removed from its place. */
  lemma {:induction false} WithoutOne(live: seq<Live>, gone: set<string>, i: nat)
    requires DistinctLive(live) && i < |Without(live, gone)|
    ensures Without(live, gone + {Without(live, gone)[i].name}) == RemoveAt(Without(live, gone), i)
  {
    var init, last := live[..|live| - 1], live[|live| - 1];
    var w, n := Without(live, gone), Without(live, gone)[i].name;
    var w' := Without(init, gone);
    if last.name in gone {
      WithoutOne(init, gone, i);
    } else if i == |w'| {
      NotThere(init, gone, n);
      assert RemoveAt(w, i) == w';
    } else {
      WithoutOne(init, gone, i);
      WithoutMembers(init, gone);
      assert w'[i] in init;
      assert n != last.name;
      assert RemoveAt(w' + [last], i) == RemoveAt(w', i) + [last];
    }
  }

  lemma {:induction false} NotThere(live: seq<Live>, gone: set<string>, n: string)
    requires forall i | 0 <= i < |live| :: live[i].name != n
    ensures Without(live, gone + {n}) == Without(live, gone)
  {
    if live != [] {
      NotThere(live[..|live| - 1], gone, n);
    }
  }
}
