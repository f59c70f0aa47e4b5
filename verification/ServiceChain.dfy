/** Building, editing in place and removing the chain of one service port. */
module ServiceChain {
  import opened Collections
  import opened NatTable
  import opened RoundRobin

  ghost predicate DistinctSeps(seps: seq<SepChain>) {
    DistinctKeys(EndPairs(seps)) && DistinctKeys(PodPairs(seps))
  }

  ghost function EndPairs(seps: seq<SepChain>): (ps: seq<(string, seq<Entry>)>)
    ensures |ps| == |seps|
  {
    seq(|seps|, i requires 0 <= i < |seps| => (seps[i].name, [Entry(seps[i].DnatRule(), 0)]))
  }

  ghost function PodPairs(seps: seq<SepChain>): (ps: seq<(string, SepChain)>)
    ensures |ps| == |seps|
  {
    seq(|seps|, i requires 0 <= i < |seps| => (seps[i].unit.podName, seps[i]))
  }

  /** The chains of the pods: one DNAT rule each. */
  ghost function EndsOf(seps: seq<SepChain>): Table
    requires DistinctSeps(seps)
  {
    Assoc(EndPairs(seps))
  }

  ghost function ByPod(seps: seq<SepChain>): map<string, SepChain>
    requires DistinctSeps(seps)
  {
    Assoc(PodPairs(seps))
  }

  lemma EndsAt(seps: seq<SepChain>, i: nat)
    requires DistinctSeps(seps) && i < |seps|
    ensures seps[i].name in EndsOf(seps) && EndsOf(seps)[seps[i].name] == [Entry(seps[i].DnatRule(), 0)]
    ensures seps[i].unit.podName in ByPod(seps) && ByPod(seps)[seps[i].unit.podName] == seps[i]
  {
    assert EndPairs(seps)[i].0 == seps[i].name;
    assert PodPairs(seps)[i].0 == seps[i].unit.podName;
  }

  lemma SepsWithout(seps: seq<SepChain>, i: nat)
    requires DistinctSeps(seps) && i < |seps|
    ensures DistinctSeps(RemoveAt(seps, i))
    ensures EndsOf(RemoveAt(seps, i)) == EndsOf(seps) - {seps[i].name}
    ensures ByPod(RemoveAt(seps, i)) == ByPod(seps) - {seps[i].unit.podName}
  {
    PairsWithout(seps, i);
    AssocWithout(EndPairs(seps), i);
    AssocWithout(PodPairs(seps), i);
  }

  lemma PairsWithout(seps: seq<SepChain>, i: nat)
    requires i < |seps|
    ensures EndPairs(RemoveAt(seps, i)) == RemoveAt(EndPairs(seps), i)
    ensures PodPairs(RemoveAt(seps, i)) == RemoveAt(PodPairs(seps), i)
  {
  }

  lemma SepsExtend(seps: seq<SepChain>, s: SepChain)
    requires DistinctSeps(seps + [s])
    ensures DistinctSeps(seps) && s.name !in EndsOf(seps)
    ensures EndsOf(seps + [s]) == EndsOf(seps)[s.name := [Entry(s.DnatRule(), 0)]]
    ensures ByPod(seps + [s]) == ByPod(seps)[s.unit.podName := s]
  {
    assert EndPairs(seps + [s]) == EndPairs(seps) + [(s.name, [Entry(s.DnatRule(), 0)])];
    assert PodPairs(seps + [s]) == PodPairs(seps) + [(s.unit.podName, s)];
    AssocExtend(EndPairs(seps), s.name, [Entry(s.DnatRule(), 0)]);
    AssocExtend(PodPairs(seps), s.unit.podName, s);
  }

  lemma NoSeps()
    ensures DistinctSeps([]) && EndsOf([]) == map[] && ByPod([]) == map[]
  {
  }

  /** The table in which service chain `name` holds `ents`, its pods have the chains `ends`,
      and everything else is `rest`. */
  ghost function Assemble(rest: Table, name: string, ents: seq<Entry>, ends: Table): Table {
    rest + ends[name := ents]
  }

  /** A chain that only rewrites addresses. */
  ghost predicate NoJumps(entries: seq<Entry>) {
    forall i | 0 <= i < |entries| :: entries[i].rule.Dnat?
  }

  /** The chain names of the service collide with nothing in `rest`, and `rest` never jumps
      to a pod's chain. */
  ghost predicate Apart(rest: Table, name: string, ends: Table) {
    && name !in rest && name !in ends
    && (forall n | n in ends :: n !in rest && !Referenced(rest, n) && NoJumps(ends[n]))
  }

  ghost predicate Jumps(ents: seq<Entry>, seps: seq<SepChain>) {
    |ents| == |seps| && forall i | 0 <= i < |ents| :: ents[i].rule == seps[i].JumpRule()
  }

  lemma OnlyOwnReferences(rest: Table, name: string, ents: seq<Entry>, ends: Table, n: string)
    requires Apart(rest, name, ends) && n in ends
    requires forall i | 0 <= i < |ents| :: !ents[i].rule.JumpsTo(n)
    ensures !Referenced(Assemble(rest, name, ents, ends[n := []]), n)
  {
    var t: Table := Assemble(rest, name, ents, ends[n := []]);
    forall c: string, i | c in t && 0 <= i < |t[c]|
      ensures !t[c][i].rule.JumpsTo(n)
    {
      if c == name {
        assert t[c] == ents;
      } else if c == n {
      } else if c in ends {
        assert t[c] == ends[c];
      } else {
        assert t[c] == rest[c];
      }
    }
  }

  /** `-D` of a rule held once removes that entry and leaves the rest in order. */
  method DeleteOnly(ipt: IpTables, chain: string, rule: Rule, ghost sound: bool, ghost i: nat) returns (ok: bool)
    requires sound ==> chain in ipt.table && i < |ipt.table[chain]| && IsOnly(ipt.table[chain], rule, i)
    modifies ipt
    ensures old(ipt.faults) <= ipt.faults
    ensures sound ==> ok && ipt.faults == old(ipt.faults)
                      && ipt.table == old(ipt.table)[chain := RemoveAt(old(ipt.table)[chain], i)]
  {
    assert sound ==> Holds(ipt.table[chain], rule) && HoldsOnce(ipt.table[chain], rule);
    ok := ipt.Delete(chain, rule);
  }

  /** Creates the chain of one pod with its DNAT rule; a name that is taken is a fault. */
  method NewSepChain(ipt: IpTables, protocol: string, fatherChain: string, u: PodUnit, rrNum: nat,
                     ghost sound: bool, ghost rest: Table, ghost ents: seq<Entry>, ghost ends: Table)
    returns (sep: SepChain)
    requires sound ==> ipt.table == Assemble(rest, fatherChain, ents, ends)
    requires sound ==> SepName(u) !in rest && SepName(u) !in ends && SepName(u) != fatherChain
    modifies ipt
    ensures sep == MakeSep(protocol, fatherChain, u, rrNum)
    ensures Adds(old(ipt.table), old(ipt.faults), ipt.table, ipt.faults, {SepName(u)})
    ensures SepName(u) in old(ipt.table) <==> ipt.faults > old(ipt.faults)
    ensures sound ==> ipt.faults == old(ipt.faults)
                      && ipt.table == Assemble(rest, fatherChain, ents, ends[sep.name := [Entry(sep.DnatRule(), 0)]])
  {
    sep := MakeSep(protocol, fatherChain, u, rrNum);
    var _ := ipt.NewChain(sep.name);
    var _ := ipt.Append(sep.name, sep.DnatRule());
    if sound {
      var chain := [Entry(sep.DnatRule(), 0)];
      assert [] + chain == chain;
      assert ipt.table == Assemble(rest, fatherChain, ents, ends)[sep.name := chain];
      UpdateRight(rest, ends[fatherChain := ents], sep.name, chain);
      UpdateCommutes(ends, fatherChain, ents, sep.name, chain);
    }
  }

  /** Commands that only add: no chain goes away, the named ones are there, faults do not shrink. */
  ghost predicate Adds(t: Table, faults: nat, t': Table, faults': nat, names: set<string>) {
    t'.Keys == t.Keys + names && faults <= faults'
  }

  /** Appends the pod's rule to the service chain. */
  method ApplySep(ipt: IpTables, sep: SepChain, ghost sound: bool, ghost rest: Table, ghost ents: seq<Entry>,
                  ghost ends: Table)
    requires sound ==> sep.name in ends && ipt.table == Assemble(rest, sep.fatherChain, ents, ends)
    modifies ipt
    ensures Adds(old(ipt.table), old(ipt.faults), ipt.table, ipt.faults, {})
    ensures sep.name in old(ipt.table) && sep.fatherChain in old(ipt.table) ==> ipt.faults == old(ipt.faults)
    ensures sound ==> ipt.faults == old(ipt.faults)
                      && ipt.table == Assemble(rest, sep.fatherChain, ents + [Entry(sep.JumpRule(), 0)], ends)
  {
    var _ := ipt.Append(sep.fatherChain, sep.JumpRule());
  }

  /** A new pod for the service: its chain first, then the rule that jumps to it. */
  method AddSep(ipt: IpTables, protocol: string, fatherChain: string, u: PodUnit, rrNum: nat,
                ghost sound: bool, ghost rest: Table, ghost ents: seq<Entry>, ghost ends: Table)
    returns (sep: SepChain)
    requires sound ==> ipt.table == Assemble(rest, fatherChain, ents, ends)
    requires sound ==> SepName(u) !in rest && SepName(u) !in ends && SepName(u) != fatherChain
    modifies ipt
    ensures sep == MakeSep(protocol, fatherChain, u, rrNum)
    ensures Adds(old(ipt.table), old(ipt.faults), ipt.table, ipt.faults, {SepName(u)})
    ensures SepName(u) in old(ipt.table) ==> ipt.faults > old(ipt.faults)
    ensures SepName(u) !in old(ipt.table) && fatherChain in old(ipt.table) ==> ipt.faults == old(ipt.faults)
    ensures sound ==> ipt.faults == old(ipt.faults)
                      && ipt.table == Assemble(rest, fatherChain, ents + [Entry(sep.JumpRule(), 0)],
                                               ends[sep.name := [Entry(sep.DnatRule(), 0)]])
  {
    hide Assemble;
    sep := NewSepChain(ipt, protocol, fatherChain, u, rrNum, sound, rest, ents, ends);
    ApplySep(ipt, sep, sound, rest, ents, ends[sep.name := [Entry(sep.DnatRule(), 0)]]);
  }

  /** Removes the pod's rule from the service chain. */
  method UnapplySep(ipt: IpTables, sep: SepChain,
                    ghost sound: bool, ghost rest: Table, ghost ents: seq<Entry>, ghost ends: Table, ghost i: nat)
    returns (ok: bool)
    requires sound ==> ipt.table == Assemble(rest, sep.fatherChain, ents, ends)
    requires sound ==> i < |ents| && IsOnly(ents, sep.JumpRule(), i)
    modifies ipt
    ensures old(ipt.faults) <= ipt.faults
    ensures sound ==> ok && ipt.faults == old(ipt.faults)
                      && ipt.table == Assemble(rest, sep.fatherChain, RemoveAt(ents, i), ends)
  {
    ok := DeleteOnly(ipt, sep.fatherChain, sep.JumpRule(), sound, i);
  }

  lemma OnlyJump(ents: seq<Entry>, seps: seq<SepChain>, i: nat)
    requires DistinctSeps(seps) && Jumps(ents, seps) && i < |seps|
    ensures IsOnly(ents, seps[i].JumpRule(), i)
    ensures forall j | 0 <= j < |ents| && j != i :: !ents[j].rule.JumpsTo(seps[i].name)
  {
    forall j | 0 <= j < |ents| && j != i ensures seps[j].name != seps[i].name {
      assert EndPairs(seps)[j].0 != EndPairs(seps)[i].0;
    }
  }

  lemma JumpsWithout(ents: seq<Entry>, seps: seq<SepChain>, i: nat)
    requires Jumps(ents, seps) && i < |seps|
    ensures Jumps(RemoveAt(ents, i), RemoveAt(seps, i))
    ensures forall e | e in RemoveAt(ents, i) :: exists j :: 0 <= j < |ents| && j != i && ents[j] == e
  {
    var l := RemoveAt(ents, i);
    forall e | e in l ensures exists j :: 0 <= j < |ents| && j != i && ents[j] == e {
      var k :| 0 <= k < |l| && l[k] == e;
      assert ents[if k < i then k else k + 1] == e;
    }
  }

  /** Removes the DNAT rule and the chain of a pod no rule jumps to any more. */
  method DeleteEnd(ipt: IpTables, sep: SepChain, ghost sound: bool, ghost rest: Table, ghost ents: seq<Entry>,
                   ghost ends: Table)
    returns (ok: bool)
    requires sound ==> Apart(rest, sep.fatherChain, ends)
    requires sound ==> sep.name in ends && ends[sep.name] == [Entry(sep.DnatRule(), 0)]
    requires sound ==> forall i | 0 <= i < |ents| :: !ents[i].rule.JumpsTo(sep.name)
    requires sound ==> ipt.table == Assemble(rest, sep.fatherChain, ents, ends)
    modifies ipt
    ensures old(ipt.faults) <= ipt.faults
    ensures sound ==> ok && ipt.faults == old(ipt.faults)
                      && ipt.table == Assemble(rest, sep.fatherChain, ents, ends - {sep.name})
  {
    assert sound ==> IsOnly(ipt.table[sep.name], sep.DnatRule(), 0);
    ok := DeleteOnly(ipt, sep.name, sep.DnatRule(), sound, 0);
    if !ok { return; }
    if sound {
      UpdateRight(rest, ends[sep.fatherChain := ents], sep.name, []);
      UpdateCommutes(ends, sep.fatherChain, ents, sep.name, []);
      assert ipt.table == Assemble(rest, sep.fatherChain, ents, ends[sep.name := []]);
      OnlyOwnReferences(rest, sep.fatherChain, ents, ends, sep.name);
    }
    ok := ipt.DeleteChain(sep.name);
    if sound {
      RemoveRight(rest, ends[sep.name := []][sep.fatherChain := ents], sep.name);
      assert ends[sep.name := []][sep.fatherChain := ents] - {sep.name} == (ends - {sep.name})[sep.fatherChain := ents];
    }
  }

  /** Removes a pod from the service: its rule, its DNAT rule and its chain. */
  method DeleteSep(ipt: IpTables, sep: SepChain, ghost sound: bool,
                   ghost rest: Table, ghost ents: seq<Entry>, ghost seps: seq<SepChain>, ghost i: nat)
    returns (ok: bool)
    requires sound ==> DistinctSeps(seps) && Jumps(ents, seps) && i < |seps| && seps[i] == sep
    requires sound ==> Apart(rest, sep.fatherChain, EndsOf(seps))
    requires sound ==> ipt.table == Assemble(rest, sep.fatherChain, ents, EndsOf(seps))
    modifies ipt
    ensures old(ipt.faults) <= ipt.faults
    ensures sound ==> ok && ipt.faults == old(ipt.faults)
    ensures sound ==> DistinctSeps(RemoveAt(seps, i)) && Jumps(RemoveAt(ents, i), RemoveAt(seps, i))
    ensures sound ==> Apart(rest, sep.fatherChain, EndsOf(RemoveAt(seps, i)))
                      && ipt.table == Assemble(rest, sep.fatherChain, RemoveAt(ents, i), EndsOf(RemoveAt(seps, i)))
  {
    hide DistinctSeps, EndsOf, Jumps, Assemble, IsOnly;
    ghost var ends: Table := map[];
    ghost var less := [];
    if sound {
      EndsAt(seps, i);
      OnlyJump(ents, seps, i);
      SepsWithout(seps, i);
      JumpsWithout(ents, seps, i);
      ends, less := EndsOf(seps), RemoveAt(ents, i);
    }
    ok := UnapplySep(ipt, sep, sound, rest, ents, ends, i);
    if !ok { return; }
    ok := DeleteEnd(ipt, sep, sound, rest, less, ends);
  }

  lemma PlanAt(protocol: string, name: string, units: seq<PodUnit>, i: nat)
    requires i < |units|
    ensures var plan := Plan(protocol, name, units);
            var sep := MakeSep(protocol, name, units[i], |units| - i);
            && plan[i] == sep
            && Entries(plan, 0)[..i] + [Entry(sep.JumpRule(), 0)] == Entries(plan, 0)[..i + 1]
  {
  }

  /** A pod that needs a new chain finds the name taken, or gave it to another new pod before. */
  ghost predicate ClashAt(taken: set<string>, keep: set<string>, units: seq<PodUnit>, j: nat)
    requires j < |units|
  {
    units[j].podName !in keep && (SepName(units[j]) in taken || GivenBefore(keep, units, j))
  }

  ghost predicate GivenBefore(keep: set<string>, units: seq<PodUnit>, j: nat)
    requires j < |units|
  {
    exists k :: 0 <= k < j && units[k].podName !in keep && SepName(units[k]) == SepName(units[j])
  }

  ghost predicate Clashes(taken: set<string>, keep: set<string>, units: seq<PodUnit>) {
    exists j :: 0 <= j < |units| && ClashAt(taken, keep, units, j)
  }

  /** The chain of some pod before place i was given this name. */
  ghost predicate GivenName(keep: set<string>, units: seq<PodUnit>, i: nat, n: string)
    requires i <= |units|
  {
    exists k :: 0 <= k < i && units[k].podName !in keep && SepName(units[k]) == n
  }

  ghost predicate ClashBefore(taken: set<string>, keep: set<string>, units: seq<PodUnit>, i: nat)
    requires i <= |units|
  {
    exists j :: 0 <= j < i && ClashAt(taken, keep, units, j)
  }

  /** The table has the chains taken at first and those given out since, and a clash was a fault;
      where the chains that stay are standing, nothing else was. */
  ghost predicate Given(taken: set<string>, keep: set<string>, units: seq<PodUnit>, i: nat,
                        keys: set<string>, raised: bool, standing: bool)
    requires i <= |units|
  {
    && (forall n :: n in keys <==> n in taken || GivenName(keep, units, i, n))
    && (ClashBefore(taken, keep, units, i) ==> raised)
    && (standing && raised ==> ClashBefore(taken, keep, units, i))
  }

  lemma GivenNext(taken: set<string>, keep: set<string>, units: seq<PodUnit>, i: nat, keys: set<string>, raised: bool,
                  keys': set<string>, raised': bool, standing: bool)
    requires i < |units| && Given(taken, keep, units, i, keys, raised, standing) && (raised ==> raised')
    requires keys' == keys + if units[i].podName in keep then {} else {SepName(units[i])}
    requires units[i].podName !in keep && SepName(units[i]) in keys ==> raised'
    requires standing && raised' && !raised ==> units[i].podName !in keep && SepName(units[i]) in keys
    ensures Given(taken, keep, units, i + 1, keys', raised', standing)
  {
    hide SepName;
    GivenMore(keep, units, i);
    assert GivenName(keep, units, i, SepName(units[i])) <==> GivenBefore(keep, units, i);
    assert ClashBefore(taken, keep, units, i + 1) <==> ClashBefore(taken, keep, units, i)
                                                       || ClashAt(taken, keep, units, i);
  }

  lemma GivenMore(keep: set<string>, units: seq<PodUnit>, i: nat)
    requires i < |units|
    ensures forall n :: GivenName(keep, units, i + 1, n) <==>
                        GivenName(keep, units, i, n) || (units[i].podName !in keep && n == SepName(units[i]))
  {
    hide SepName;
    forall n
      ensures GivenName(keep, units, i + 1, n) <==>
              GivenName(keep, units, i, n) || (units[i].podName !in keep && n == SepName(units[i]))
    {
      if GivenName(keep, units, i + 1, n) {
        var k :| 0 <= k < i + 1 && units[k].podName !in keep && SepName(units[k]) == n;
        assert k < i || k == i;
      }
    }
  }

  /** Chains and rules for all pods of a new service, the rule of pod i firing once in
      |units| - i packets. */
  method BuildSeps(ipt: IpTables, protocol: string, name: string, units: seq<PodUnit>, ghost sound: bool,
                   ghost rest: Table)
    returns (seps: map<string, SepChain>)
    requires sound ==> DistinctSeps(Plan(protocol, name, units))
                       && Apart(rest, name, EndsOf(Plan(protocol, name, units)))
    requires sound ==> ipt.table == Assemble(rest, name, [], map[])
    modifies ipt
    ensures old(ipt.faults) <= ipt.faults
    ensures name in old(ipt.table) ==> (ipt.faults > old(ipt.faults) <==> Clashes(old(ipt.table).Keys, {}, units))
    ensures sound ==> var plan := Plan(protocol, name, units);
                      seps == ByPod(plan) && ipt.table == Assemble(rest, name, Entries(plan, 0), EndsOf(plan))
    ensures sound ==> ipt.faults == old(ipt.faults)
  {
    hide DistinctSeps, Entries, Plan, Apart, EndsOf, ByPod, Assemble, Given, Clashes, SepName;
    ghost var plan := Plan(protocol, name, units);
    ghost var ents := Entries(plan, 0);
    ghost var taken, standing := ipt.table.Keys, name in ipt.table;
    NoneGiven(taken, {}, units, standing);
    seps := map[];
    NoSeps();
    assert plan[..0] == [] && ents[..0] == [];
    var total := |units|;
    for i := 0 to |units|
      invariant total == |units| - i && old(ipt.faults) <= ipt.faults
      invariant taken <= ipt.table.Keys
      invariant Given(taken, {}, units, i, ipt.table.Keys, ipt.faults > old(ipt.faults), standing)
      invariant sound ==> DistinctSeps(plan[..i]) && seps == ByPod(plan[..i])
      invariant sound ==> ipt.table == Assemble(rest, name, ents[..i], EndsOf(plan[..i]))
      invariant sound ==> ipt.faults == old(ipt.faults)
    {
      ghost var ends: Table := map[];
      if sound {
        PlanPrefix(rest, name, plan, i);
        PlanAt(protocol, name, units, i);
        ends := EndsOf(plan[..i]);
      }
      ghost var keys, raised := ipt.table.Keys, ipt.faults > old(ipt.faults);
      var sep := AddSep(ipt, protocol, name, units[i], total, sound, rest, ents[..i], ends);
      GivenNext(taken, {}, units, i, keys, raised, ipt.table.Keys, ipt.faults > old(ipt.faults), standing);
      total := total - 1;
      seps := seps[units[i].podName := sep];
    }
    assert plan[..|units|] == plan && ents[..|units|] == ents;
    GivenAll(taken, {}, units, ipt.table.Keys, ipt.faults > old(ipt.faults), standing);
  }

  ghost function UnitsOf(order: seq<SepChain>): (us: seq<PodUnit>)
    ensures |us| == |order|
  {
    seq(|order|, i requires 0 <= i < |order| => order[i].unit)
  }

  predicate Named(units: seq<PodUnit>, podName: string) {
    exists i | 0 <= i < |units| :: units[i].podName == podName
  }

  ghost function Find(units: seq<PodUnit>, podName: string): (i: nat)
    requires Named(units, podName)
    ensures i < |units| && units[i].podName == podName
  {
    var i :| 0 <= i < |units| && units[i].podName == podName;
    i
  }

  /** The units an update really leaves: a pod that was there before keeps the address and port
      it had, whatever the new list says. */
  ghost function Effective(before: seq<PodUnit>, wanted: seq<PodUnit>): (us: seq<PodUnit>)
    ensures |us| == |wanted|
  {
    seq(|wanted|, i requires 0 <= i < |wanted| =>
      if Named(before, wanted[i].podName) then before[Find(before, wanted[i].podName)] else wanted[i])
  }

  lemma PlanFacts(protocol: string, name: string, units: seq<PodUnit>)
    requires DistinctNames(units)
    ensures DistinctSeps(Plan(protocol, name, units))
    ensures UnitsOf(Plan(protocol, name, units)) == units
  {
  }

  /** The chain of one service port. */
  class SvcChain {
    const ipt: IpTables
    const name: string
    const fatherChain: string
    const clusterIp: string
    const clusterPort: string
    const protocol: string
    var podName2SepChain: map<string, SepChain>
    /** The endpoint chains in the order of their rules. */
    ghost var order: seq<SepChain>

    function RuleSpec(): Rule {
      ServiceJump(clusterIp, protocol, clusterPort, name)
    }

    ghost predicate Valid()
      reads this
    {
      && DistinctNames(UnitsOf(order))
      && order == Plan(protocol, name, UnitsOf(order))
      && DistinctSeps(order)
      && podName2SepChain == ByPod(order)
    }

    /** The table is `rest` plus this service, whose rules may carry any counters. */
    ghost predicate In(rest: Table, ents: seq<Entry>)
      requires Valid()
      reads this, ipt
    {
      && Jumps(ents, order)
      && Apart(rest, name, EndsOf(order))
      && ipt.table == Assemble(rest, name, ents, EndsOf(order))
    }

    /** `sound` tells that the table is closed. */
    constructor (ipt: IpTables, serviceName: string, fatherChain: string, clusterIp: string,
                 clusterPort: string, protocol: string, units: seq<PodUnit>, ghost sound: bool)
      requires sound ==> Closed(ipt.table, SVC_PREFIX + "-" + serviceName + clusterPort)
      modifies ipt
      ensures fresh(this)
      ensures this.ipt == ipt && name == SVC_PREFIX + "-" + serviceName + clusterPort
      ensures this.fatherChain == fatherChain && this.clusterIp == clusterIp
      ensures this.clusterPort == clusterPort && this.protocol == protocol
      ensures old(ipt.faults) <= ipt.faults
      ensures ipt.faults > old(ipt.faults) <==> name in old(ipt.table)
                                                || Clashes(old(ipt.table).Keys + {name}, {}, units)
      ensures sound && Fits(old(ipt.table), name, units) ==>
                && Valid() && order == Plan(protocol, name, units)
                && In(old(ipt.table), Entries(order, 0)) && ipt.faults == old(ipt.faults)
    {
      this.ipt := ipt;
      this.name := SVC_PREFIX + "-" + serviceName + clusterPort;
      this.fatherChain := fatherChain;
      this.clusterIp := clusterIp;
      this.clusterPort := clusterPort;
      this.protocol := protocol;
      podName2SepChain := map[];
      order := Plan(protocol, SVC_PREFIX + "-" + serviceName + clusterPort, units);
      new;
      hide Fits, Plan, DistinctSeps, DistinctNames, UnitsOf, EndsOf, ByPod, Apart, Closed, Clashes, Entries, Jumps,
           Assemble, DistinctPods;
      ghost var rest := ipt.table;
      ghost var fits := sound && Fits(rest, name, units);
      if fits {
        FitsApart(rest, protocol, name, units);
        EntriesJump(order);
        NoSeps();
        Bare(rest, name);
        NewName(rest, name, units);
      }
      var _ := ipt.NewChain(name);
      assert ipt.table.Keys == rest.Keys + {name};
      podName2SepChain := BuildSeps(ipt, protocol, name, units, fits, rest);
    }

    /** Appends the rule that sends the service's traffic here to the father chain. */
    method ApplyRule() returns (ok: bool)
      modifies ipt
      ensures old(ipt.faults) <= ipt.faults
      ensures ok == (fatherChain in old(ipt.table) && name in old(ipt.table))
      ensures ok ==> ipt.table == old(ipt.table)[fatherChain := old(ipt.table)[fatherChain] + [Entry(RuleSpec(), 0)]]
      ensures ok ==> ipt.faults == old(ipt.faults)
    {
      ok := ipt.Append(fatherChain, RuleSpec());
    }

    /** Edits the chain in place so that it serves `newUnits`; a pod whose chain name is taken is a fault. */
    method UpdateRule(newUnits: seq<PodUnit>, ghost sound: bool, ghost rest: Table, ghost ents0: seq<Entry>)
      requires sound ==> Valid() && In(rest, ents0) && Closed(rest, name)
      modifies this, ipt
      ensures old(ipt.faults) <= ipt.faults
      ensures sound ==> (ipt.faults > old(ipt.faults) <==> UpdateClashes(rest, name, old(UnitsOf(order)), newUnits))
      ensures sound && Fits(rest, name, Effective(old(UnitsOf(order)), newUnits)) ==>
                && Valid() && order == Plan(protocol, name, Effective(old(UnitsOf(order)), newUnits))
                && In(rest, Entries(order, 0)) && ipt.faults == old(ipt.faults)
    {
      hide Fits, DistinctNames, DistinctSeps, Effective, Plan, UnitsOf, EndsOf, ByPod, Jumps, Apart, Assemble,
           Entries, Named, Clashes, Closed, UpdateClashes, Standing;
      ghost var units := Effective(UnitsOf(order), newUnits);
      ghost var plan := Plan(protocol, name, units);
      ghost var fits := sound && Fits(rest, name, units);
      if sound {
        KeyedByPod(order);
        PlanMembers(protocol, name, UnitsOf(order));
      }
      if fits {
        FitsApart(rest, protocol, name, units);
        EntriesJump(plan);
      }
      var remain, left, ents := DropVanished(ipt, name, podName2SepChain, newUnits, sound, rest, ents0, order);
      if sound {
        WhoStays(protocol, name, order, newUnits, remain, left);
      }
      podName2SepChain := map[];
      ClearRules(ipt, name, remain, sound, rest, left, ents);
      if sound {
        UpdateTakes(rest, protocol, name, order, newUnits, remain, left);
      }
      podName2SepChain := AppendUnits(ipt, protocol, name, newUnits, remain, fits, rest, left, plan);
      order := plan;
    }

    /** Removes the service: its rule in the father chain, all its pods, then its own chain. */
    method DeleteRule(ghost sound: bool, ghost rest: Table, ghost ents0: seq<Entry>, ghost p: nat) returns (ok: bool)
      requires sound ==> Valid() && In(rest, ents0)
      requires sound ==> fatherChain in rest && p < |rest[fatherChain]| && IsOnly(rest[fatherChain], RuleSpec(), p)
      requires sound ==> !Referenced(rest[fatherChain := RemoveAt(rest[fatherChain], p)], name)
      modifies ipt
      ensures old(ipt.faults) <= ipt.faults
      ensures sound ==> ok && ipt.faults == old(ipt.faults)
                        && ipt.table == rest[fatherChain := RemoveAt(rest[fatherChain], p)]
    {
      hide DistinctNames, DistinctSeps, Plan, UnitsOf, EndsOf, ByPod, Jumps, Apart, Entries, Referenced;
      ghost var rest' := rest;
      if sound {
        rest' := rest[fatherChain := RemoveAt(rest[fatherChain], p)];
        KeyedByPod(order);
        PlanMembers(protocol, name, UnitsOf(order));
        StillApart(rest, name, EndsOf(order), fatherChain, p);
        assert fatherChain in ipt.table && ipt.table[fatherChain] == rest[fatherChain];
      }
      ok := DeleteOnly(ipt, fatherChain, RuleSpec(), sound, p);
      if !ok { return; }
      if sound {
        UpdateLeft(rest, EndsOf(order)[name := ents0], fatherChain, rest'[fatherChain]);
      }
      ok := DeleteAll(ipt, name, podName2SepChain, sound, rest', ents0, order);
      if !ok { return; }
      if sound {
        NoSelfJump(rest', name);
      }
      ok := ipt.DeleteChain(name);
      assert sound ==> rest'[name := []] - {name} == rest';
    }
  }

  ghost predicate DistinctPods(units: seq<PodUnit>) {
    forall i, j | 0 <= i < j < |units| :: units[i].podName != units[j].podName
  }

  /** The chain names of the service are different and free. */
  ghost predicate Fits(rest: Table, name: string, units: seq<PodUnit>) {
    && name !in rest && DistinctNames(units)
    && (forall i | 0 <= i < |units| :: SepName(units[i]) !in rest && SepName(units[i]) != name)
  }

  /** Rules jump to chains that are there, or to `name`. */
  ghost predicate Closed(rest: Table, name: string) {
    forall n | Referenced(rest, n) :: n in rest || n == name
  }

  lemma EndNamed(seps: seq<SepChain>, n: string) returns (i: nat)
    requires DistinctSeps(seps) && n in EndsOf(seps)
    ensures i < |seps| && seps[i].name == n && EndsOf(seps)[n] == [Entry(seps[i].DnatRule(), 0)]
  {
    i :| 0 <= i < |EndPairs(seps)| && EndPairs(seps)[i].0 == n;
    EndsAt(seps, i);
  }

  lemma PlanEnds(protocol: string, name: string, units: seq<PodUnit>)
    requires DistinctSeps(Plan(protocol, name, units))
    ensures var ends := EndsOf(Plan(protocol, name, units));
            && (forall i | 0 <= i < |units| :: SepName(units[i]) in ends)
            && (forall n | n in ends :: NoJumps(ends[n]) && exists i :: 0 <= i < |units| && n == SepName(units[i]))
  {
    hide DistinctSeps, EndsOf, Plan, Entries, SepName;
    var plan := Plan(protocol, name, units);
    var ends := EndsOf(plan);
    forall i | 0 <= i < |units|
      ensures SepName(units[i]) in ends
    {
      EndsAt(plan, i);
      PlanAt(protocol, name, units, i);
    }
    forall n | n in ends
      ensures NoJumps(ends[n]) && exists i :: 0 <= i < |units| && n == SepName(units[i])
    {
      var i := EndNamed(plan, n);
      PlanAt(protocol, name, units, i);
    }
  }

  lemma FitsApart(rest: Table, protocol: string, name: string, units: seq<PodUnit>)
    requires Fits(rest, name, units) && Closed(rest, name)
    ensures var plan := Plan(protocol, name, units);
            DistinctSeps(plan) && UnitsOf(plan) == units && DistinctNames(units) && Apart(rest, name, EndsOf(plan))
  {
    PlanFacts(protocol, name, units);
    hide DistinctSeps, DistinctNames, Plan, EndsOf, UnitsOf, Referenced, SepName, NoJumps;
    PlanEnds(protocol, name, units);
  }

  lemma ApartFits(rest: Table, protocol: string, name: string, units: seq<PodUnit>)
    requires DistinctSeps(Plan(protocol, name, units)) && Apart(rest, name, EndsOf(Plan(protocol, name, units)))
    ensures Fits(rest, name, units)
  {
    SepsDiffer(protocol, name, units);
    hide DistinctSeps, DistinctNames, Plan, EndsOf, Referenced, SepName, NoJumps;
    PlanEnds(protocol, name, units);
  }

  lemma SepsDiffer(protocol: string, name: string, units: seq<PodUnit>)
    requires DistinctSeps(Plan(protocol, name, units))
    ensures DistinctNames(units)
  {
    var plan := Plan(protocol, name, units);
    forall i, j | 0 <= i < j < |units|
      ensures units[i].podName != units[j].podName && SepName(units[i]) != SepName(units[j])
    {
      assert EndPairs(plan)[i].0 != EndPairs(plan)[j].0;
      assert PodPairs(plan)[i].0 != PodPairs(plan)[j].0;
    }
  }

  lemma NewName(rest: Table, name: string, units: seq<PodUnit>)
    requires Fits(rest, name, units)
    ensures name !in rest
  {
  }

  predicate OnePort(units: seq<PodUnit>) {
    forall i, j | 0 <= i < j < |units| :: units[i].podPort == units[j].podPort
  }

  /** A service whose pods all listen on one port fits exactly when no name is taken or given twice. */
  lemma BuildClash(rest: Table, name: string, units: seq<PodUnit>)
    requires OnePort(units)
    ensures Fits(rest, name, units) <==> name !in rest && !Clashes(rest.Keys + {name}, {}, units)
  {
    var taken := rest.Keys + {name};
    if i :| 0 <= i < |units| && (SepName(units[i]) in rest || SepName(units[i]) == name) {
      assert ClashAt(taken, {}, units, i);
    } else if i, j :| 0 <= i < j < |units| && SepName(units[i]) == SepName(units[j]) {
      assert GivenBefore({}, units, j);
      assert ClashAt(taken, {}, units, j);
    } else {
      forall i, j | 0 <= i < j < |units|
        ensures units[i].podName != units[j].podName
      {
        assert SepName(units[i]) != SepName(units[j]);
      }
      assert forall j | 0 <= j < |units| :: !ClashAt(taken, {}, units, j);
    }
  }

  /** An update of a service meets a taken name: its own chains that stay are taken too. */
  ghost predicate UpdateClashes(rest: Table, name: string, before: seq<PodUnit>, wanted: seq<PodUnit>) {
    Clashes(rest.Keys + {name} + KeptNames(before, wanted), KeptPods(before, wanted), wanted)
  }

  ghost function KeptPods(before: seq<PodUnit>, wanted: seq<PodUnit>): set<string> {
    set i | 0 <= i < |before| && Named(wanted, before[i].podName) :: before[i].podName
  }

  ghost function KeptNames(before: seq<PodUnit>, wanted: seq<PodUnit>): set<string> {
    set i | 0 <= i < |before| && Named(wanted, before[i].podName) :: SepName(before[i])
  }

  /** Lists of pods that all stay never clash, and are free of collisions exactly when they name no pod
      twice: a pod that stays and is named twice gets two rules, and nothing fails. */
  lemma TwiceUnnoticed(rest: Table, name: string, before: seq<PodUnit>, wanted: seq<PodUnit>)
    requires Fits(rest, name, before) && forall i | 0 <= i < |wanted| :: Named(before, wanted[i].podName)
    ensures !UpdateClashes(rest, name, before, wanted)
    ensures Fits(rest, name, Effective(before, wanted)) <==> DistinctPods(wanted)
  {
    forall j | 0 <= j < |wanted|
      ensures wanted[j].podName in KeptPods(before, wanted)
    {
      var i := Find(before, wanted[j].podName);
      assert Named(wanted, before[i].podName);
    }
    EffectiveFits(rest, name, before, wanted);
  }

  lemma EffectiveFits(rest: Table, name: string, before: seq<PodUnit>, wanted: seq<PodUnit>)
    requires Fits(rest, name, before) && forall i | 0 <= i < |wanted| :: Named(before, wanted[i].podName)
    ensures Fits(rest, name, Effective(before, wanted)) <==> DistinctPods(wanted)
  {
    var eff := Effective(before, wanted);
    forall i | 0 <= i < |wanted|
      ensures eff[i] in before && eff[i].podName == wanted[i].podName
    {
    }
    hide Effective, Named, SepName;
    if DistinctPods(wanted) {
      forall i, j | 0 <= i < j < |eff|
        ensures SepName(eff[i]) != SepName(eff[j])
      {
        if SepName(eff[i]) == SepName(eff[j]) {
          OneIsNew(before, eff[i], eff[j]);
        }
      }
    }
  }

  /** For pods with different names, a new list fits exactly when no name it needs is taken. */
  lemma UnitsClash(rest: Table, name: string, before: seq<PodUnit>, wanted: seq<PodUnit>)
    requires Fits(rest, name, before) && DistinctPods(wanted)
    ensures Fits(rest, name, Effective(before, wanted)) <==> !UpdateClashes(rest, name, before, wanted)
  {
    hide Effective, Named, SepName, KeptPods, KeptNames, Clashes, DistinctNames;
    var keep, taken := KeptPods(before, wanted), rest.Keys + {name} + KeptNames(before, wanted);
    var eff := Effective(before, wanted);
    forall i | 0 <= i < |wanted|
      ensures eff[i].podName == wanted[i].podName
      ensures if wanted[i].podName in keep then eff[i] in before && SepName(eff[i]) in taken else eff[i] == wanted[i]
    {
      KeptAt(before, wanted, i);
    }
    KeptIsEffective(before, wanted);
    if Fits(rest, name, eff) {
      FitsNoClash(rest, name, eff, wanted, keep, taken);
    } else {
      NoFitClash(rest, name, before, eff, wanted, keep, taken);
    }
  }

  lemma NoFitClash(rest: Table, name: string, before: seq<PodUnit>, eff: seq<PodUnit>, wanted: seq<PodUnit>,
                   keep: set<string>, taken: set<string>)
    requires Fits(rest, name, before) && DistinctPods(wanted) && !Fits(rest, name, eff) && |eff| == |wanted|
    requires rest.Keys <= taken && name in taken
    requires forall i | 0 <= i < |wanted| :: eff[i].podName == wanted[i].podName
    requires forall i | 0 <= i < |wanted| :: if wanted[i].podName in keep then eff[i] in before
                                             && SepName(eff[i]) in taken
                                             else eff[i] == wanted[i]
    ensures Clashes(taken, keep, wanted)
  {
    hide SepName, Clashes;
    if i :| 0 <= i < |wanted| && (SepName(eff[i]) in rest || SepName(eff[i]) == name) {
      Clash(taken, keep, wanted, i);
    } else {
      var i, j :| 0 <= i < j < |wanted| && SepName(eff[i]) == SepName(eff[j]);
      OneIsNew(before, eff[i], eff[j]);
      if wanted[i].podName !in keep && wanted[j].podName !in keep {
        assert GivenBefore(keep, wanted, j);
        Clash(taken, keep, wanted, j);
      } else if wanted[i].podName in keep {
        Clash(taken, keep, wanted, j);
      } else {
        Clash(taken, keep, wanted, i);
      }
    }
  }

  lemma Clash(taken: set<string>, keep: set<string>, units: seq<PodUnit>, j: nat)
    requires j < |units| && ClashAt(taken, keep, units, j)
    ensures Clashes(taken, keep, units)
  {
  }

  lemma FitsNoClash(rest: Table, name: string, eff: seq<PodUnit>, wanted: seq<PodUnit>, keep: set<string>,
                    taken: set<string>)
    requires Fits(rest, name, eff) && |eff| == |wanted|
    requires forall i | 0 <= i < |wanted| && wanted[i].podName !in keep :: eff[i] == wanted[i]
    requires forall n | n in taken :: n in rest || n == name ||
               exists k :: 0 <= k < |wanted| && wanted[k].podName in keep && SepName(eff[k]) == n
    ensures !Clashes(taken, keep, wanted)
  {
    hide SepName;
    forall j | 0 <= j < |wanted|
      ensures !ClashAt(taken, keep, wanted, j)
    {
      assert forall k | 0 <= k < |eff| && k != j :: SepName(eff[k]) != SepName(eff[j]);
    }
  }

  lemma KeptAt(before: seq<PodUnit>, wanted: seq<PodUnit>, i: nat)
    requires i < |wanted|
    ensures var u := Effective(before, wanted)[i];
            && u.podName == wanted[i].podName
            && if wanted[i].podName in KeptPods(before, wanted) then u in before
               && SepName(u) in KeptNames(before, wanted)
               else u == wanted[i]
  {
    var n := wanted[i].podName;
    assert Named(wanted, n);
    if Named(before, n) {
      var k := Find(before, n);
      assert before[k].podName in KeptPods(before, wanted);
    }
  }

  /** The chains that stay are those of pods the new list has. */
  lemma KeptIsEffective(before: seq<PodUnit>, wanted: seq<PodUnit>)
    requires DistinctNames(before)
    ensures forall n | n in KeptNames(before, wanted) ::
              exists k :: 0 <= k < |wanted| && wanted[k].podName in KeptPods(before, wanted)
                          && SepName(Effective(before, wanted)[k]) == n
  {
    forall n | n in KeptNames(before, wanted)
      ensures exists k :: 0 <= k < |wanted| && wanted[k].podName in KeptPods(before, wanted)
                          && SepName(Effective(before, wanted)[k]) == n
    {
      var i :| 0 <= i < |before| && Named(wanted, before[i].podName) && SepName(before[i]) == n;
      var k := Find(wanted, before[i].podName);
      assert Named(before, wanted[k].podName);
      assert Find(before, wanted[k].podName) == i;
    }
  }

  lemma OneIsNew(before: seq<PodUnit>, a: PodUnit, b: PodUnit)
    requires DistinctNames(before) && a.podName != b.podName && SepName(a) == SepName(b)
    ensures a !in before || b !in before
  {
  }

  /** What an update finds in the table when it comes to append. */
  lemma UpdateTakes(rest: Table, protocol: string, name: string, order: seq<SepChain>, wanted: seq<PodUnit>,
                    remain: map<string, SepChain>, left: seq<SepChain>)
    requires DistinctSeps(order) && order == Plan(protocol, name, UnitsOf(order))
    requires DistinctSeps(left) && remain == ByPod(left)
    requires forall k :: k in remain <==> k in ByPod(order) && Named(wanted, k)
    requires forall k | k in remain :: remain[k] == ByPod(order)[k]
    ensures var t := Assemble(rest, name, [], EndsOf(left));
            && Standing(remain, name, t)
            && (Clashes(t.Keys, remain.Keys, wanted) <==> UpdateClashes(rest, name, UnitsOf(order), wanted))
  {
    hide Clashes, DistinctSeps, EndsOf, ByPod, Plan, UnitsOf, SepName, Assemble, KeptNames, KeptPods, Named;
    KeptChains(protocol, name, order, wanted, remain, left);
    KeptPodsAre(order, wanted, remain);
    AssembleKeys(rest, name, EndsOf(left));
    assert remain.Keys == KeptPods(UnitsOf(order), wanted);
  }

  lemma AssembleKeys(rest: Table, name: string, ends: Table)
    ensures Assemble(rest, name, [], ends).Keys == rest.Keys + {name} + ends.Keys
  {
  }

  lemma KeptPodsAre(order: seq<SepChain>, wanted: seq<PodUnit>, remain: map<string, SepChain>)
    requires DistinctSeps(order) && forall k :: k in remain <==> k in ByPod(order) && Named(wanted, k)
    ensures forall k :: k in remain <==> k in KeptPods(UnitsOf(order), wanted)
  {
    hide DistinctSeps, ByPod, UnitsOf;
    forall k
      ensures k in remain <==> k in KeptPods(UnitsOf(order), wanted)
    {
      PodIsNamed(order, k);
      if Named(UnitsOf(order), k) {
        assert UnitsOf(order)[Find(UnitsOf(order), k)].podName == k;
      }
    }
  }

  lemma KeptChains(protocol: string, name: string, order: seq<SepChain>, wanted: seq<PodUnit>,
                   remain: map<string, SepChain>, left: seq<SepChain>)
    requires DistinctSeps(order) && order == Plan(protocol, name, UnitsOf(order))
    requires DistinctSeps(left) && remain == ByPod(left)
    requires forall k :: k in remain <==> k in ByPod(order) && Named(wanted, k)
    requires forall k | k in remain :: remain[k] == ByPod(order)[k]
    ensures EndsOf(left).Keys == KeptNames(UnitsOf(order), wanted)
    ensures forall k | k in remain :: remain[k].name in EndsOf(left) && remain[k].fatherChain == name
  {
    hide DistinctSeps, EndsOf, ByPod, Plan, SepName;
    var before := UnitsOf(order);
    KeyedByPod(order);
    KeyedByPod(left);
    PlanMembers(protocol, name, before);
    forall k | k in remain
      ensures remain[k].name in EndsOf(left) && remain[k].fatherChain == name
    {
      var j :| 0 <= j < |left| && left[j] == remain[k];
      EndsAt(left, j);
    }
    forall n | n in EndsOf(left)
      ensures n in KeptNames(before, wanted)
    {
      var j := EndNamed(left, n);
      assert left[j] in left && left[j] in order;
      var i :| 0 <= i < |order| && order[i] == left[j];
      assert before[i] == left[j].unit && Named(wanted, before[i].podName);
    }
    forall i | 0 <= i < |before| && Named(wanted, before[i].podName)
      ensures SepName(before[i]) in EndsOf(left)
    {
      assert order[i] in order && order[i].unit == before[i];
      StaysTaken(protocol, name, order, remain, left, i);
    }
  }

  lemma StaysTaken(protocol: string, name: string, order: seq<SepChain>, remain: map<string, SepChain>,
                   left: seq<SepChain>, i: nat)
    requires DistinctSeps(order) && order == Plan(protocol, name, UnitsOf(order)) && i < |order|
    requires DistinctSeps(left) && remain == ByPod(left) && UnitsOf(order)[i].podName in remain
    requires forall k | k in remain :: k in ByPod(order) && remain[k] == ByPod(order)[k]
    ensures SepName(UnitsOf(order)[i]) in EndsOf(left)
  {
    EndsAt(order, i);
    PlanAt(protocol, name, UnitsOf(order), i);
    KeyedByPod(left);
    var j :| 0 <= j < |left| && left[j] == order[i];
    EndsAt(left, j);
  }

  lemma NoSelfJump(rest: Table, name: string)
    requires !Referenced(rest, name)
    ensures !Referenced(rest[name := []], name)
  {
  }

  lemma EntriesJump(plan: seq<SepChain>)
    ensures Jumps(Entries(plan, 0), plan)
  {
  }

  /** Dropping a rule makes no new references. */
  lemma StillApart(rest: Table, name: string, ends: Table, chain: string, p: nat)
    requires Apart(rest, name, ends) && chain in rest && p < |rest[chain]|
    ensures Apart(rest[chain := RemoveAt(rest[chain], p)], name, ends)
    ensures chain !in ends && chain != name && name !in rest
  {
    var rest': Table := rest[chain := RemoveAt(rest[chain], p)];
    forall n | Referenced(rest', n) ensures Referenced(rest, n) {
      var c :| c in rest' && exists i | 0 <= i < |rest'[c]| :: rest'[c][i].rule.JumpsTo(n);
      var i :| 0 <= i < |rest'[c]| && rest'[c][i].rule.JumpsTo(n);
      assert rest'[c][i] == rest[c][if c != chain || i < p then i else i + 1];
    }
  }

  /** A pod that stays keeps its chain with a new period, any other pod gets the chain of its
      unit; and the chains that stay are all wanted. */
  ghost predicate Agree(remain: map<string, SepChain>, left: seq<SepChain>, units: seq<PodUnit>,
                        plan: seq<SepChain>, protocol: string, name: string) {
    && |units| == |plan|
    && (forall i | 0 <= i < |plan| :: plan[i].fatherChain == name)
    && (forall i | 0 <= i < |units| ::
          && plan[i].unit.podName == units[i].podName
          && (if units[i].podName in remain
              then remain[units[i].podName] in left && plan[i] == remain[units[i].podName].(rrNum := |plan| - i)
              else plan[i] == MakeSep(protocol, name, units[i], |plan| - i)))
    && (forall s | s in left :: exists j :: 0 <= j < |plan| && units[j].podName in remain
                                            && s == remain[units[j].podName])
  }

  lemma EntriesPrefix(plan: seq<SepChain>, i: nat)
    requires i < |plan|
    ensures Entries(plan, 0)[..i] + [Entry(plan[i].JumpRule(), 0)] == Entries(plan, 0)[..i + 1]
  {
  }

  /** The chain of pod i is there already exactly when the pod stays. */
  lemma Place(remain: map<string, SepChain>, left: seq<SepChain>, units: seq<PodUnit>,
              plan: seq<SepChain>, protocol: string, name: string, i: nat)
    requires Agree(remain, left, units, plan, protocol, name) && i < |plan|
    requires DistinctSeps(left) && DistinctSeps(plan) && DistinctSeps(plan[..i]) && DistinctSeps(plan[..i + 1])
    requires plan[i].name !in EndsOf(plan[..i])
    requires EndsOf(plan[..i + 1]) == EndsOf(plan[..i])[plan[i].name := [Entry(plan[i].DnatRule(), 0)]]
    ensures plan[i].unit.podName == units[i].podName && plan[i].fatherChain == name
    ensures var ends := EndsOf(left) + EndsOf(plan[..i]);
            if units[i].podName in remain
            then plan[i] == remain[units[i].podName].(rrNum := |plan| - i)
                 && plan[i].name in ends && EndsOf(left) + EndsOf(plan[..i + 1]) == ends
            else plan[i] == MakeSep(protocol, name, units[i], |plan| - i)
                 && plan[i].name == SepName(units[i]) && plan[i].name !in ends
                 && EndsOf(left) + EndsOf(plan[..i + 1]) == ends[plan[i].name := [Entry(plan[i].DnatRule(), 0)]]
  {
    if units[i].podName in remain {
      var s := remain[units[i].podName];
      var j :| 0 <= j < |left| && left[j] == s;
      EndsAt(left, j);
      hide *;
      UpdateHeld(EndsOf(left), EndsOf(plan[..i]), plan[i].name, EndsOf(left)[plan[i].name]);
    } else {
      StillFree(remain, left, units, plan, protocol, name, i);
      hide *;
      UpdateRight(EndsOf(left), EndsOf(plan[..i]), plan[i].name, [Entry(plan[i].DnatRule(), 0)]);
    }
  }

  lemma StillFree(remain: map<string, SepChain>, left: seq<SepChain>, units: seq<PodUnit>,
                  plan: seq<SepChain>, protocol: string, name: string, i: nat)
    requires Agree(remain, left, units, plan, protocol, name) && i < |plan|
    requires DistinctSeps(left) && DistinctSeps(plan) && units[i].podName !in remain
    ensures plan[i].name !in EndsOf(left)
  {
    forall k | 0 <= k < |left| ensures left[k].name != plan[i].name {
      assert left[k] in left;
      var j :| 0 <= j < |plan| && units[j].podName in remain && left[k] == remain[units[j].podName];
      assert EndPairs(plan)[i].0 == plan[i].name && EndPairs(plan)[j].0 == plan[j].name;
    }
    assert forall k | 0 <= k < |left| :: EndPairs(left)[k].0 != plan[i].name;
  }

  /** When all rules are back, the chains that stayed are among the chains of the plan. */
  lemma Absorb(remain: map<string, SepChain>, left: seq<SepChain>, units: seq<PodUnit>,
               plan: seq<SepChain>, protocol: string, name: string)
    requires Agree(remain, left, units, plan, protocol, name)
    requires DistinctSeps(left) && DistinctSeps(plan)
    ensures EndsOf(left) + EndsOf(plan) == EndsOf(plan)
  {
    forall n | n in EndsOf(left) ensures n in EndsOf(plan) {
      var k :| 0 <= k < |EndPairs(left)| && EndPairs(left)[k].0 == n;
      assert left[k] in left;
      var j :| 0 <= j < |plan| && units[j].podName in remain && left[k] == remain[units[j].podName];
      EndsAt(plan, j);
    }
  }

  /** A pod's rule is at one place only, and removing it leaves the other pods. */
  lemma PlaceOf(seps: seq<SepChain>, ents: seq<Entry>, k: string) returns (i: nat)
    requires DistinctSeps(seps) && Jumps(ents, seps) && k in ByPod(seps)
    ensures i < |seps| == |ents| && seps[i] == ByPod(seps)[k] && IsOnly(ents, seps[i].JumpRule(), i)
    ensures DistinctSeps(RemoveAt(seps, i)) && Jumps(RemoveAt(ents, i), RemoveAt(seps, i))
    ensures ByPod(RemoveAt(seps, i)) == ByPod(seps) - {k}
  {
    i :| 0 <= i < |seps| && PodPairs(seps)[i].0 == k;
    OnlyJump(ents, seps, i);
    SepsWithout(seps, i);
    JumpsWithout(ents, seps, i);
  }

  lemma NoneLeft(seps: seq<SepChain>, ents: seq<Entry>)
    requires DistinctSeps(seps) && Jumps(ents, seps) && ByPod(seps).Keys == {}
    ensures seps == [] && ents == []
  {
    if seps != [] {
      EndsAt(seps, 0);
      assert false;
    }
  }

  /** Removes the pods that are no longer wanted, in whatever order the map yields them. */
  method DropVanished(ipt: IpTables, name: string, seps: map<string, SepChain>, newUnits: seq<PodUnit>,
                      ghost sound: bool, ghost rest: Table, ghost ents0: seq<Entry>, ghost order: seq<SepChain>)
    returns (remain: map<string, SepChain>, ghost left: seq<SepChain>, ghost ents: seq<Entry>)
    requires sound ==> DistinctSeps(order) && Jumps(ents0, order) && seps == ByPod(order)
    requires sound ==> forall k | k in seps :: seps[k].fatherChain == name
    requires sound ==> Apart(rest, name, EndsOf(order)) && ipt.table == Assemble(rest, name, ents0, EndsOf(order))
    modifies ipt
    ensures old(ipt.faults) <= ipt.faults
    ensures forall k :: k in remain <==> k in seps && Named(newUnits, k)
    ensures forall k | k in remain :: remain[k] == seps[k]
    ensures sound ==> DistinctSeps(left) && Jumps(ents, left) && Apart(rest, name, EndsOf(left))
                      && remain == ByPod(left)
    ensures sound ==> ipt.table == Assemble(rest, name, ents, EndsOf(left)) && ipt.faults == old(ipt.faults)
  {
    hide *;
    remain, left, ents := map[], order, ents0;
    var todo := seps.Keys;
    while todo != {}
      invariant todo <= seps.Keys && old(ipt.faults) <= ipt.faults
      invariant forall k :: k in remain <==> k in seps && k !in todo && Named(newUnits, k)
      invariant forall k | k in remain :: remain[k] == seps[k]
      invariant sound ==> DistinctSeps(left) && Jumps(ents, left) && Apart(rest, name, EndsOf(left))
      invariant sound ==> ByPod(left).Keys == todo + remain.Keys
      invariant sound ==> forall k | k in todo + remain.Keys :: ByPod(left)[k] == seps[k]
      invariant sound ==> ipt.table == Assemble(rest, name, ents, EndsOf(left)) && ipt.faults == old(ipt.faults)
      decreases todo
    {
      var k :| k in todo;
      var sep := seps[k];
      todo := todo - {k};
      var isRemain := IsNamed(newUnits, k);
      if isRemain {
        remain := remain[k := sep];
      } else {
        ghost var i := 0;
        if sound {
          i := PlaceOf(left, ents, k);
        }
        var _ := DeleteSep(ipt, sep, sound, rest, ents, left, i);
        if sound {
          left, ents := RemoveAt(left, i), RemoveAt(ents, i);
        }
      }
    }
  }

  /** Removes every pod of the service, in whatever order the map yields them. */
  method DeleteAll(ipt: IpTables, name: string, seps: map<string, SepChain>,
                   ghost sound: bool, ghost rest: Table, ghost ents0: seq<Entry>, ghost order: seq<SepChain>)
    returns (ok: bool)
    requires sound ==> DistinctSeps(order) && Jumps(ents0, order) && seps == ByPod(order)
    requires sound ==> forall k | k in seps :: seps[k].fatherChain == name
    requires sound ==> Apart(rest, name, EndsOf(order)) && ipt.table == Assemble(rest, name, ents0, EndsOf(order))
    modifies ipt
    ensures old(ipt.faults) <= ipt.faults
    ensures sound ==> ok && ipt.faults == old(ipt.faults) && ipt.table == rest[name := []]
  {
    hide DistinctSeps, Jumps, ByPod, EndsOf, Apart, Assemble;
    var todo := seps.Keys;
    ghost var left, ents := order, ents0;
    while todo != {}
      invariant todo <= seps.Keys && old(ipt.faults) <= ipt.faults
      invariant sound ==> DistinctSeps(left) && Jumps(ents, left) && Apart(rest, name, EndsOf(left))
                          && ByPod(left).Keys == todo
      invariant sound ==> forall k | k in todo :: ByPod(left)[k] == seps[k]
      invariant sound ==> ipt.table == Assemble(rest, name, ents, EndsOf(left)) && ipt.faults == old(ipt.faults)
      decreases todo
    {
      var k :| k in todo;
      var sep := seps[k];
      todo := todo - {k};
      ghost var i := 0;
      if sound {
        i := PlaceOf(left, ents, k);
      }
      ok := DeleteSep(ipt, sep, sound, rest, ents, left, i);
      if !ok { return; }
      if sound {
        left, ents := RemoveAt(left, i), RemoveAt(ents, i);
      }
    }
    if sound {
      NoneLeft(left, ents);
      Bare(rest, name);
    }
    ok := true;
  }

  lemma Bare(rest: Table, name: string)
    ensures DistinctSeps([]) && Assemble(rest, name, [], EndsOf([])) == rest[name := []]
  {
    NoSeps();
  }

  /** Removes the rules, but not the chains, of the pods that stay. */
  method ClearRules(ipt: IpTables, name: string, remain: map<string, SepChain>,
                    ghost sound: bool, ghost rest: Table, ghost left: seq<SepChain>, ghost ents0: seq<Entry>)
    requires sound ==> DistinctSeps(left) && Jumps(ents0, left) && remain == ByPod(left)
    requires sound ==> forall k | k in remain :: remain[k].fatherChain == name
    requires sound ==> ipt.table == Assemble(rest, name, ents0, EndsOf(left))
    modifies ipt
    ensures old(ipt.faults) <= ipt.faults
    ensures sound ==> ipt.table == Assemble(rest, name, [], EndsOf(left)) && ipt.faults == old(ipt.faults)
  {
    hide *;
    var todo := remain.Keys;
    ghost var up, ents := left, ents0;
    while todo != {}
      invariant todo <= remain.Keys && old(ipt.faults) <= ipt.faults
      invariant sound ==> DistinctSeps(up) && Jumps(ents, up) && ByPod(up).Keys == todo
      invariant sound ==> forall k | k in todo :: ByPod(up)[k] == remain[k]
      invariant sound ==> ipt.table == Assemble(rest, name, ents, EndsOf(left)) && ipt.faults == old(ipt.faults)
      decreases todo
    {
      var k :| k in todo;
      var sep := remain[k];
      todo := todo - {k};
      ghost var i := 0;
      ghost var ends: Table := map[];
      if sound {
        i := PlaceOf(up, ents, k);
        ends := EndsOf(left);
      }
      var _ := UnapplySep(ipt, sep, sound, rest, ents, ends, i);
      if sound {
        up, ents := RemoveAt(up, i), RemoveAt(ents, i);
      }
    }
    if sound {
      NoneLeft(up, ents);
    }
  }

  /** One pod of the new list: keep its chain or create it, then append its rule. */
  method AppendUnit(ipt: IpTables, protocol: string, name: string, u: PodUnit, total: nat,
                    remain: map<string, SepChain>, seps: map<string, SepChain>, ghost sound: bool,
                    ghost rest: Table, ghost left: seq<SepChain>, ghost units: seq<PodUnit>,
                      ghost plan: seq<SepChain>, ghost i: nat)
    returns (seps': map<string, SepChain>)
    requires sound ==> DistinctSeps(left) && DistinctSeps(plan) && Apart(rest, name, EndsOf(plan))
    requires sound ==> Agree(remain, left, units, plan, protocol, name)
    requires sound ==> i < |units| == |plan| && u == units[i] && total == |plan| - i
    requires sound ==> DistinctSeps(plan[..i]) && seps == ByPod(plan[..i])
    requires sound ==> ipt.table == Assemble(rest, name, Entries(plan, 0)[..i], EndsOf(left) + EndsOf(plan[..i]))
    modifies ipt
    ensures Adds(old(ipt.table), old(ipt.faults), ipt.table, ipt.faults, if u.podName in remain then {}
            else {SepName(u)})
    ensures u.podName !in remain && SepName(u) in old(ipt.table) ==> ipt.faults > old(ipt.faults)
    ensures Standing(remain, name, old(ipt.table)) && !(u.podName !in remain && SepName(u) in old(ipt.table)) ==>
              ipt.faults == old(ipt.faults)
    ensures sound ==> DistinctSeps(plan[..i + 1]) && seps' == ByPod(plan[..i + 1])
    ensures sound ==> ipt.table == Assemble(rest, name, Entries(plan, 0)[..i + 1], EndsOf(left) + EndsOf(plan[..i + 1]))
    ensures sound ==> ipt.faults == old(ipt.faults)
  {
    hide *;
    Stands(remain, name, ipt.table, u.podName);
    ghost var ents: seq<Entry> := [];
    ghost var ends: Table := map[];
    if sound {
      ents, ends := Entries(plan, 0)[..i], EndsOf(left) + EndsOf(plan[..i]);
      PlanPrefix(rest, name, plan, i);
      EntriesPrefix(plan, i);
      Place(remain, left, units, plan, protocol, name, i);
    }
    var sep;
    if u.podName in remain {
      sep := remain[u.podName].(rrNum := total);
      ApplySep(ipt, sep, sound, rest, ents, ends);
    } else {
      sep := AddSep(ipt, protocol, name, u, total, sound, rest, ents, ends);
    }
    seps' := seps[u.podName := sep];
  }

  lemma Beginning(left: seq<SepChain>, plan: seq<SepChain>)
    requires DistinctSeps(left)
    ensures plan[..0] == [] && Entries(plan, 0)[..0] == [] && DistinctSeps(plan[..0])
    ensures ByPod(plan[..0]) == map[] && EndsOf(left) + EndsOf(plan[..0]) == EndsOf(left)
  {
    NoSeps();
    assert plan[..0] == [];
  }

  /** Gives every wanted pod its rule again, in the new order, creating chains where needed. */
  method AppendUnits(ipt: IpTables, protocol: string, name: string, newUnits: seq<PodUnit>, remain: map<string,
                     SepChain>,
                     ghost sound: bool, ghost rest: Table, ghost left: seq<SepChain>, ghost plan: seq<SepChain>)
    returns (seps: map<string, SepChain>)
    requires sound ==> DistinctSeps(left) && DistinctSeps(plan) && Apart(rest, name, EndsOf(plan))
    requires sound ==> Agree(remain, left, newUnits, plan, protocol, name) && |newUnits| == |plan|
    requires sound ==> ipt.table == Assemble(rest, name, [], EndsOf(left))
    modifies ipt
    ensures old(ipt.faults) <= ipt.faults
    ensures Clashes(old(ipt.table).Keys, remain.Keys, newUnits) ==> ipt.faults > old(ipt.faults)
    ensures Standing(remain, name, old(ipt.table)) && ipt.faults > old(ipt.faults) ==>
              Clashes(old(ipt.table).Keys, remain.Keys, newUnits)
    ensures sound ==> seps == ByPod(plan)
    ensures sound ==> ipt.table == Assemble(rest, name, Entries(plan, 0), EndsOf(plan)) && ipt.faults == old(ipt.faults)
  {
    hide *;
    ghost var ents := Entries(plan, 0);
    ghost var taken, standing := ipt.table.Keys, Standing(remain, name, ipt.table);
    if sound {
      Beginning(left, plan);
    }
    NoneGiven(taken, remain.Keys, newUnits, standing);
    seps := map[];
    var total := |newUnits|;
    for i := 0 to |newUnits|
      invariant total == |newUnits| - i && old(ipt.faults) <= ipt.faults
      invariant standing ==> Standing(remain, name, ipt.table)
      invariant Given(taken, remain.Keys, newUnits, i, ipt.table.Keys, ipt.faults > old(ipt.faults), standing)
      invariant sound ==> DistinctSeps(plan[..i]) && seps == ByPod(plan[..i])
      invariant sound ==> ipt.table == Assemble(rest, name, ents[..i], EndsOf(left) + EndsOf(plan[..i]))
      invariant sound ==> ipt.faults == old(ipt.faults)
    {
      ghost var t, faults := ipt.table, ipt.faults;
      seps := AppendUnit(ipt, protocol, name, newUnits[i], total, remain, seps, sound, rest, left, newUnits, plan, i);
      AddsMore(t, faults, ipt.table, ipt.faults, newUnits[i], remain, name);
      GivenNext(taken, remain.Keys, newUnits, i, t.Keys, faults > old(ipt.faults),
                ipt.table.Keys, ipt.faults > old(ipt.faults), standing);
      total := total - 1;
    }
    if sound {
      assert plan[..|newUnits|] == plan && ents[..|newUnits|] == ents;
      Absorb(remain, left, newUnits, plan, protocol, name);
    }
    GivenAll(taken, remain.Keys, newUnits, ipt.table.Keys, ipt.faults > old(ipt.faults), standing);
  }

  /** The service chain and the chains that stay are there. */
  ghost predicate Standing(remain: map<string, SepChain>, name: string, t: Table) {
    name in t && forall k | k in remain :: remain[k].name in t && remain[k].fatherChain == name
  }

  lemma Stands(remain: map<string, SepChain>, name: string, t: Table, k: string)
    ensures Standing(remain, name, t) ==> name in t
    ensures Standing(remain, name, t) && k in remain ==> remain[k].name in t && remain[k].fatherChain == name
  {
  }

  lemma AddsMore(t: Table, faults: nat, t': Table, faults': nat, u: PodUnit, remain: map<string, SepChain>,
                 name: string)
    requires Adds(t, faults, t', faults', if u.podName in remain then {} else {SepName(u)})
    ensures t'.Keys == t.Keys + (if u.podName in remain.Keys then {} else {SepName(u)}) && faults <= faults'
    ensures Standing(remain, name, t) ==> Standing(remain, name, t')
  {
  }

  lemma NoneGiven(taken: set<string>, keep: set<string>, units: seq<PodUnit>, standing: bool)
    ensures Given(taken, keep, units, 0, taken, false, standing)
  {
  }

  lemma GivenAll(taken: set<string>, keep: set<string>, units: seq<PodUnit>, keys: set<string>, raised: bool,
                 standing: bool)
    requires Given(taken, keep, units, |units|, keys, raised, standing)
    ensures Clashes(taken, keep, units) ==> raised
    ensures standing && raised ==> Clashes(taken, keep, units)
  {
  }

  /** The pods that survive `DropVanished` are the ones the effective plan keeps. */
  lemma WhoStays(protocol: string, name: string, order: seq<SepChain>, wanted: seq<PodUnit>,
                 remain: map<string, SepChain>, left: seq<SepChain>)
    requires DistinctSeps(order) && DistinctSeps(left) && order == Plan(protocol, name, UnitsOf(order))
    requires remain == ByPod(left)
    requires forall k :: k in remain <==> k in ByPod(order) && Named(wanted, k)
    requires forall k | k in remain :: remain[k] == ByPod(order)[k]
    ensures Agree(remain, left, wanted, Plan(protocol, name, Effective(UnitsOf(order), wanted)), protocol, name)
  {
    hide Effective, Plan, ByPod, DistinctSeps, MakeSep, UnitsOf, Named;
    var units := UnitsOf(order);
    var plan := Plan(protocol, name, Effective(units, wanted));
    forall i | 0 <= i < |wanted|
      ensures plan[i].unit.podName == wanted[i].podName && plan[i].fatherChain == name
      ensures if wanted[i].podName in remain
              then remain[wanted[i].podName] in left && plan[i] == remain[wanted[i].podName].(rrNum := |plan| - i)
              else plan[i] == MakeSep(protocol, name, wanted[i], |plan| - i)
    {
      KeyedByPod(left);
      KeptUnit(protocol, name, order, wanted, i);
    }
    KeyedByPod(left);
    NamedAt(wanted);
  }

  lemma NamedAt(units: seq<PodUnit>)
    ensures forall k | Named(units, k) :: exists j :: 0 <= j < |units| && units[j].podName == k
  {
  }

  lemma PodIsNamed(order: seq<SepChain>, n: string)
    requires DistinctSeps(order)
    ensures n in ByPod(order) <==> Named(UnitsOf(order), n)
  {
    KeyedByPod(order);
    if n in ByPod(order) {
      var j :| 0 <= j < |order| && order[j] == ByPod(order)[n];
      assert UnitsOf(order)[j].podName == n;
    }
    if Named(UnitsOf(order), n) {
      var j := Find(UnitsOf(order), n);
      assert order[j] in order && order[j].unit.podName == n;
    }
  }

  lemma KeptUnit(protocol: string, name: string, order: seq<SepChain>, wanted: seq<PodUnit>, i: nat)
    requires DistinctSeps(order) && order == Plan(protocol, name, UnitsOf(order)) && i < |wanted|
    ensures var n := wanted[i].podName;
            var sep := Plan(protocol, name, Effective(UnitsOf(order), wanted))[i];
            && Named(wanted, n) && sep.unit.podName == n && sep.fatherChain == name
            && sep == if n in ByPod(order) then ByPod(order)[n].(rrNum := |wanted| - i)
                      else MakeSep(protocol, name, wanted[i], |wanted| - i)
  {
    var n, units := wanted[i].podName, UnitsOf(order);
    var eff := Effective(units, wanted);
    assert Named(wanted, n);
    PodIsNamed(order, n);
    PlanAt(protocol, name, eff, i);
    if Named(units, n) {
      var j := Find(units, n);
      assert eff[i] == units[j] == order[j].unit;
      EndsAt(order, j);
      PlanAt(protocol, name, units, j);
    } else {
      assert eff[i] == wanted[i];
    }
    hide DistinctSeps, ByPod, Plan, Effective, UnitsOf, Named;
  }

  /** Every wanted pod that was there before is wanted with the address and port it has. */
  ghost predicate AddressesKept(before: seq<PodUnit>, wanted: seq<PodUnit>) {
    forall i, j | 0 <= i < |before| && 0 <= j < |wanted|
      && before[i].podName == wanted[j].podName :: before[i] == wanted[j]
  }

  lemma EffectiveIsWanted(before: seq<PodUnit>, wanted: seq<PodUnit>)
    requires DistinctNames(before)
    ensures Effective(before, wanted) == wanted <==> AddressesKept(before, wanted)
  {
    var eff := Effective(before, wanted);
    if eff == wanted {
      forall i, j | 0 <= i < |before| && 0 <= j < |wanted| && before[i].podName == wanted[j].podName
        ensures before[i] == wanted[j]
      {
        assert Named(before, wanted[j].podName);
        var k := Find(before, wanted[j].podName);
        assert k == i;
        assert eff[j] == before[i];
      }
    }
    if AddressesKept(before, wanted) {
      forall j | 0 <= j < |wanted| ensures eff[j] == wanted[j] {
      }
    }
  }

  /** The table after a service with these endpoint chains is built on top of `rest`. */
  ghost function Built(rest: Table, protocol: string, name: string, units: seq<PodUnit>): Table
    requires DistinctSeps(Plan(protocol, name, units))
  {
    var plan := Plan(protocol, name, units);
    Assemble(rest, name, Entries(plan, 0), EndsOf(plan))
  }

  /** An update leaves the table a fresh build of the new list would leave exactly when every pod
      that was there before keeps its address and port. */
  lemma SameAsFresh(rest: Table, protocol: string, name: string, before: seq<PodUnit>, wanted: seq<PodUnit>)
    requires DistinctNames(before)
    requires DistinctSeps(Plan(protocol, name, Effective(before, wanted))) && DistinctSeps(Plan(protocol, name, wanted))
    requires Apart(rest, name, EndsOf(Plan(protocol, name, Effective(before, wanted))))
    requires Apart(rest, name, EndsOf(Plan(protocol, name, wanted)))
    ensures Built(rest, protocol, name, Effective(before, wanted)) == Built(rest, protocol, name, wanted)
            <==> AddressesKept(before, wanted)
  {
    var eff := Effective(before, wanted);
    EffectiveIsWanted(before, wanted);
    assert forall j | 0 <= j < |wanted| :: eff[j].podName == wanted[j].podName;
    hide *;
    if Built(rest, protocol, name, eff) == Built(rest, protocol, name, wanted) {
      forall j | 0 <= j < |wanted| ensures eff[j] == wanted[j] {
        SameUnit(rest, protocol, name, eff, wanted, j);
      }
      assert eff == wanted;
    }
  }

  lemma SameUnit(rest: Table, protocol: string, name: string, a: seq<PodUnit>, b: seq<PodUnit>, j: nat)
    requires |a| == |b| && j < |b| && a[j].podName == b[j].podName
    requires DistinctSeps(Plan(protocol, name, a)) && DistinctSeps(Plan(protocol, name, b))
    requires Apart(rest, name, EndsOf(Plan(protocol, name, a))) && Apart(rest, name, EndsOf(Plan(protocol, name, b)))
    requires Built(rest, protocol, name, a) == Built(rest, protocol, name, b)
    ensures a[j] == b[j]
  {
    var t := Built(rest, protocol, name, a);
    BuiltAt(rest, protocol, name, a, j);
    BuiltAt(rest, protocol, name, b, j);
    hide *;
    assert [Entry(MakeSep(protocol, name, a[j], |a| - j).DnatRule(), 0)][0] == t[SepName(a[j])][0];
    assert [Entry(MakeSep(protocol, name, b[j], |b| - j).DnatRule(), 0)][0] == t[SepName(b[j])][0];
    SameText(protocol, name, a[j], b[j], |a| - j);
  }

  lemma BuiltAt(rest: Table, protocol: string, name: string, a: seq<PodUnit>, j: nat)
    requires j < |a| && DistinctSeps(Plan(protocol, name, a)) && Apart(rest, name, EndsOf(Plan(protocol, name, a)))
    ensures var t := Built(rest, protocol, name, a);
            var sep := MakeSep(protocol, name, a[j], |a| - j);
            && name in t && j < |t[name]| && t[name][j] == Entry(sep.JumpRule(), 0)
            && SepName(a[j]) in t && t[SepName(a[j])] == [Entry(sep.DnatRule(), 0)]
  {
    var plan := Plan(protocol, name, a);
    EndsAt(plan, j);
    PlanAt(protocol, name, a, j);
    assert Entries(plan, 0)[j] == Entry(plan[j].JumpRule(), 0);
    hide DistinctSeps, EndsOf, Plan, Entries;
  }

  lemma SameText(protocol: string, name: string, a: PodUnit, b: PodUnit, rrNum: nat)
    requires a.podName == b.podName
    requires MakeSep(protocol, name, a, rrNum).JumpRule() == MakeSep(protocol, name, b, rrNum).JumpRule()
    requires SepName(a) == SepName(b) ==>
             MakeSep(protocol, name, a, rrNum).DnatRule() == MakeSep(protocol, name, b, rrNum).DnatRule()
    ensures a == b
  {
    CancelPrefix(SEP_PREFIX + "-" + a.podName, a.podPort, b.podPort);
    assert a.podIp + ":" + a.podPort == a.podIp + (":" + a.podPort);
    assert b.podIp + ":" + b.podPort == b.podIp + (":" + b.podPort);
    CancelSuffix(a.podIp, b.podIp, ":" + a.podPort);
  }

  lemma CancelPrefix(p: string, a: string, b: string)
    requires p + a == p + b
    ensures a == b
  {
    assert a == (p + a)[|p|..];
    assert b == (p + b)[|p|..];
  }

  lemma CancelSuffix(a: string, b: string, s: string)
    ensures a + s == b + s ==> a == b
  {
    if a + s == b + s {
      assert a == (a + s)[..|a|];
      assert b == (b + s)[..|b|];
    }
  }

  lemma PlanMembers(protocol: string, name: string, units: seq<PodUnit>)
    ensures forall s | s in Plan(protocol, name, units) :: s.fatherChain == name && s.protocol == protocol
                                                           && s.name == SepName(s.unit) && s.unit in units
  {
  }

  method IsNamed(units: seq<PodUnit>, podName: string) returns (found: bool)
    ensures found == Named(units, podName)
  {
    found := false;
    for i := 0 to |units|
      invariant !found && forall j | 0 <= j < i :: units[j].podName != podName
    {
      if units[i].podName == podName {
        return true;
      }
    }
  }

  lemma KeyedByPod(seps: seq<SepChain>)
    requires DistinctSeps(seps)
    ensures forall k | k in ByPod(seps) :: ByPod(seps)[k] in seps && ByPod(seps)[k].unit.podName == k
    ensures forall s | s in seps :: s.unit.podName in ByPod(seps) && ByPod(seps)[s.unit.podName] == s
  {
    var pairs := PodPairs(seps);
    forall k | k in ByPod(seps) ensures ByPod(seps)[k] in seps && ByPod(seps)[k].unit.podName == k {
      var i :| 0 <= i < |pairs| && pairs[i].0 == k;
      assert pairs[i].1 == seps[i];
    }
    forall s | s in seps ensures s.unit.podName in ByPod(seps) && ByPod(seps)[s.unit.podName] == s {
      var i :| 0 <= i < |seps| && seps[i] == s;
      assert pairs[i].1 == seps[i];
    }
  }

  /** One more pod of a plan: its chain name is still free. */
  lemma PlanPrefix(rest: Table, name: string, plan: seq<SepChain>, i: nat)
    requires DistinctSeps(plan) && i < |plan| && Apart(rest, name, EndsOf(plan))
    ensures DistinctSeps(plan[..i]) && DistinctSeps(plan[..i + 1])
    ensures plan[i].name !in EndsOf(plan[..i]) && plan[i].name !in rest && plan[i].name != name
    ensures EndsOf(plan[..i + 1]) == EndsOf(plan[..i])[plan[i].name := [Entry(plan[i].DnatRule(), 0)]]
    ensures ByPod(plan[..i + 1]) == ByPod(plan[..i])[plan[i].unit.podName := plan[i]]
  {
    assert plan[..i + 1] == plan[..i] + [plan[i]];
    assert EndPairs(plan[..i + 1]) == EndPairs(plan)[..i + 1];
    assert PodPairs(plan[..i + 1]) == PodPairs(plan)[..i + 1];
    SepsExtend(plan[..i], plan[i]);
    EndsAt(plan, i);
  }
}
