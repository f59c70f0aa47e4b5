/** The nat table of the kernel, as far as kube-proxy programs it through the
    `iptables` command: named chains of rules, one packet counter per rule. */
module NatTable {
  import opened Options
  import opened Collections

  /** The three rule shapes kube-proxy writes.
      - `ServiceJump`: `-s 0/0 -d ip -p protocol --dport port -j target`
      - `NthJump`: `-p protocol -m statistic --mode nth --every n --packet 0 -j target`
      - `Dnat`: `-s 0/0 -d 0/0 -p protocol -j DNAT --to-destination destination` */
  datatype Rule =
    | ServiceJump(clusterIp: string, protocol: string, dport: string, target: string)
    | NthJump(protocol: string, every: nat, target: string)
    | Dnat(protocol: string, destination: string)
  {
    predicate JumpsTo(chain: string) {
      !Dnat? && target == chain
    }
  }

  /** A rule in a chain with its packet counter, which an append resets. */
  datatype Entry = Entry(rule: Rule, count: nat)

  type Table = map<string, seq<Entry>>

  predicate Referenced(t: Table, chain: string) {
    exists c | c in t :: exists i | 0 <= i < |t[c]| :: t[c][i].rule.JumpsTo(chain)
  }

  predicate Holds(entries: seq<Entry>, rule: Rule) {
    exists i | 0 <= i < |entries| :: entries[i].rule == rule
  }

  /** The rule sits in the chain exactly once, so `-D` cannot take the wrong one. */
  ghost predicate HoldsOnce(entries: seq<Entry>, rule: Rule) {
    exists i :: 0 <= i < |entries| && IsOnly(entries, rule, i)
  }

  ghost predicate IsOnly(entries: seq<Entry>, rule: Rule, i: nat)
    requires i < |entries|
  {
    entries[i].rule == rule && forall j | 0 <= j < |entries| && j != i :: entries[j].rule != rule
  }

  /** One packet passes a `--every n --packet 0` rule: the counter wraps at n. */
  function Bump(e: Entry): Entry {
    match e.rule
    case NthJump(_, every, _) => e.(count := if e.count + 1 < every then e.count + 1 else 0)
    case _ => e
  }

  /** The address a chain of DNAT rules rewrites a packet to; None is a fall through. */
  function Rewrite(entries: seq<Entry>, protocol: string): Option<string> {
    if entries == [] then None
    else if entries[0].rule.Dnat? && entries[0].rule.protocol == protocol then Some(entries[0].rule.destination)
    else Rewrite(entries[1..], protocol)
  }

  /** A packet walks down a service chain. A matching nth rule whose counter is zero
      sends it to its endpoint chain; the counters it passes on the way move on. */
  function Walk(t: Table, entries: seq<Entry>, protocol: string): (Option<string>, seq<Entry>) {
    if entries == [] then (None, [])
    else
      var e := entries[0];
      if e.rule.NthJump? && e.rule.protocol == protocol then
        var hit := if e.count == 0 && e.rule.target in t then Rewrite(t[e.rule.target], protocol) else None;
        if hit.Some? then (hit, [Bump(e)] + entries[1..])
        else var (d, rest) := Walk(t, entries[1..], protocol); (d, [Bump(e)] + rest)
      else
        var (d, rest) := Walk(t, entries[1..], protocol); (d, [e] + rest)
  }

  /** The `iptables` command. Each method is one invocation and reports its exit status. */
  class IpTables {
    var table: Table
    /** Invocations that failed, and deletions that named a rule held more than once. */
    ghost var faults: nat

    constructor ()
      ensures table == map[] && faults == 0
    {
      table := map[];
      faults := 0;
    }

    /** `-N chain` */
    method NewChain(chain: string) returns (ok: bool)
      modifies this
      ensures ok == (chain !in old(table))
      ensures table == if ok then old(table)[chain := []] else old(table)
      ensures faults == old(faults) + if ok then 0 else 1
    {
      ok := chain !in table;
      if ok {
        table := table[chain := []];
      } else {
        faults := faults + 1;
      }
    }

    /** `-A chain rule`; the target of a jump has to exist. */
    method Append(chain: string, rule: Rule) returns (ok: bool)
      modifies this
      ensures ok == (chain in old(table) && (rule.Dnat? || rule.target in old(table)))
      ensures table == if ok then old(table)[chain := old(table)[chain] + [Entry(rule, 0)]] else old(table)
      ensures faults == old(faults) + if ok then 0 else 1
    {
      ok := chain in table && (rule.Dnat? || rule.target in table);
      if ok {
        table := table[chain := table[chain] + [Entry(rule, 0)]];
      } else {
        faults := faults + 1;
      }
    }

    /** `-D chain rule` removes the first occurrence of the rule. */
    method Delete(chain: string, rule: Rule) returns (ok: bool)
      modifies this
      ensures ok == (chain in old(table) && Holds(old(table)[chain], rule))
      ensures !ok ==> table == old(table)
      ensures ok ==> exists i :: 0 <= i < |old(table)[chain]| && old(table)[chain][i].rule == rule
                                 && (forall j | 0 <= j < i :: old(table)[chain][j].rule != rule)
                                 && table == old(table)[chain := RemoveAt(old(table)[chain], i)]
      ensures faults == old(faults) + if ok && HoldsOnce(old(table)[chain], rule) then 0 else 1
    {
      if chain !in table {
        faults := faults + 1;
        return false;
      }
      var i := 0;
      while i < |table[chain]| && table[chain][i].rule != rule
        invariant 0 <= i <= |table[chain]|
        invariant forall j | 0 <= j < i :: table[chain][j].rule != rule
      {
        i := i + 1;
      }
      ok := i < |table[chain]|;
      faults := faults + if ok && HoldsOnce(table[chain], rule) then 0 else 1;
      if ok {
        table := table[chain := RemoveAt(table[chain], i)];
      }
    }

    /** `-X chain` wants an empty chain that no rule jumps to. */
    method DeleteChain(chain: string) returns (ok: bool)
      modifies this
      ensures ok == (chain in old(table) && old(table)[chain] == [] && !Referenced(old(table), chain))
      ensures table == if ok then old(table) - {chain} else old(table)
      ensures faults == old(faults) + if ok then 0 else 1
    {
      ok := chain in table && table[chain] == [] && !Referenced(table, chain);
      if ok {
        table := table - {chain};
      } else {
        faults := faults + 1;
      }
    }
  }
}
