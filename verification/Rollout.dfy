/** The rolling update of a deployment: two replica counts moved step by step through an API
    server whose writes can fail. */
module Rollout {
  import opened Options

  /** Replica counts are 32-bit and wrap around. */
  function Inc32(x: int): int {
    if x == 0x7fff_ffff then -0x8000_0000 else x + 1
  }

  function Min(a: int, b: int): int { if a < b then a else b }
  function Max(a: int, b: int): int { if a < b then b else a }

  /** Where the loop stands: about to write the new replica set, about to write the old one, left. */
  datatype Phase = AtNew | AtOld | Done

  /** `pubNew` and `pubOld` are the counts the API server holds; `next` and `held` the controller's
      own copies. The counters tell iterations begun and iterations cut short by an error. */
  datatype Roll = Roll(pubNew: Option<int>, pubOld: Option<int>, next: int, held: int,
                       increaseNewDone: bool, decreaseOldDone: bool, phase: Phase, iterations: nat, errors: nat)
  {
    function Total(): int { pubNew.GetOr(0) + pubOld.GetOr(0) }
  }

  /** The state in which the loop starts for `held` old replicas, `target` and `surge`. */
  function Start(pubOld: Option<int>, held: int, surge: int, target: int): Roll {
    Roll(None, pubOld, Min(surge, target), held, false, held <= 0, AtNew, 0, 0)
  }

  /** One write of the loop, or one write skipped because that side is done. A failed write
      starts the next iteration. */
  function Step(s: Roll, target: int, fails: bool): Roll {
    match s.phase
    case Done => s
    case AtNew =>
      var s := s.(iterations := s.iterations + 1);
      if s.increaseNewDone then s.(phase := AtOld)
      else if fails then s.(errors := s.errors + 1)
      else s.(pubNew := Some(s.next), next := Inc32(s.next), increaseNewDone := Inc32(s.next) > target, phase := AtOld)
    case AtOld =>
      if s.decreaseOldDone then Leave(s)
      else if s.held - 1 > 0 then
        if fails then s.(errors := s.errors + 1, phase := AtNew)
        else Leave(s.(pubOld := Some(s.held - 1), held := s.held - 1))
      else if fails || s.pubOld.None? then s.(errors := s.errors + 1, phase := AtNew)   // nothing there to delete
      else Leave(s.(pubOld := Some(0), held := s.held - 1, decreaseOldDone := true))
  }

  function Leave(s: Roll): Roll {
    s.(phase := if s.decreaseOldDone && s.increaseNewDone then Done else AtNew)
  }

  function Run(s: Roll, target: int, fails: seq<bool>): Roll {
    if fails == [] then s else Step(Run(s, target, fails[..|fails| - 1]), target, fails[|fails| - 1])
  }

  /** Sizes a rollout is asked for: counts from 0 and a target that can still be counted past. */
  predicate Sizes(held: int, surge: int, target: int) {
    0 <= held <= 0x7fff_ffff && 0 <= surge && 0 <= target < 0x7fff_ffff
  }

  /** What every step keeps. `a` counts the writes of the new set, `b` those of the old one. */
  ghost predicate Inv(s: Roll, pubOld: Option<int>, o: int, surge: int, target: int) {
    var first := Min(surge, target);
    var a, b := s.next - first, o - s.held;
    && 0 <= a && s.next <= target + 1 && 0 <= b && 0 <= s.held
    && (s.increaseNewDone <==> s.next == target + 1)
    && (s.decreaseOldDone <==> s.held == 0)
    && s.pubNew == (if a == 0 then None else Some(s.next - 1))
    && (if b == 0 then s.pubOld == pubOld else s.pubOld == Some(s.held))
    && (!s.increaseNewDone ==> if s.phase == AtOld then b < a else b <= a)
    && (s.phase == AtOld ==> 0 < a)
    && (s.phase == Done ==> s.increaseNewDone && s.decreaseOldDone)
  }

  lemma {:induction false} Reaches(pubOld: Option<int>, o: int, surge: int, target: int, fails: seq<bool>)
    requires Sizes(o, surge, target)
    ensures Inv(Run(Start(pubOld, o, surge, target), target, fails), pubOld, o, surge, target)
  {
    if fails != [] {
      Reaches(pubOld, o, surge, target, fails[..|fails| - 1]);
    }
  }

  /** Availability: once a first write of the new replica set went through, the published replicas
      never drop below min(old + min(surge, target) - 1, target), whichever writes fail. */
  lemma NeverTooFew(o: int, surge: int, target: int, fails: seq<bool>)
    requires Sizes(o, surge, target)
    ensures var s := Run(Start(Some(o), o, surge, target), target, fails);
            s.pubNew.Some? ==> s.Total() >= Min(o + Min(surge, target) - 1, target)
  {
    Reaches(Some(o), o, surge, target, fails);
  }

  ghost predicate Enough(s: Roll, o: int, surge: int, target: int) {
    s.pubNew.Some? ==> s.Total() >= Min(o + Min(surge, target) - 1, target)
  }

  /** If the write that created the old replica set was lost, availability holds exactly for the
      sizes at which the old replicas do not matter. */
  lemma NeedsPublishedOld(o: int, surge: int, target: int)
    requires Sizes(o, surge, target) && 0 < o
    ensures (forall fails :: Enough(Run(Start(None, o, surge, target), target, fails), o, surge, target))
            <==> o == 1 || target <= surge
  {
    if o == 1 || target <= surge {
      forall fails ensures Enough(Run(Start(None, o, surge, target), target, fails), o, surge, target) {
        Reaches(None, o, surge, target, fails);
      }
    } else {
      var s := Start(None, o, surge, target);
      assert Run(s, target, [false]) == Step(s, target, false) by {
        assert [false][..0] == [];
      }
      assert !Enough(Run(s, target, [false]), o, surge, target);
    }
  }

  /** Before that first write the old replicas are all still published. */
  lemma OldUntouched(o: int, surge: int, target: int, fails: seq<bool>)
    requires Sizes(o, surge, target)
    ensures var s := Run(Start(Some(o), o, surge, target), target, fails);
            s.pubNew.None? ==> s.pubOld == Some(o)
  {
    Reaches(Some(o), o, surge, target, fails);
  }

  /** A rollout that keeps the size never serves fewer replicas than it had. */
  lemma KeepsCapacity(o: int, surge: int, fails: seq<bool>)
    requires Sizes(o, surge, o) && 1 <= surge && 1 <= o
    ensures Run(Start(Some(o), o, surge, o), o, fails).Total() >= o
  {
    NeverTooFew(o, surge, o, fails);
    OldUntouched(o, surge, o, fails);
  }

  /** Under any failures at most old + target replicas are published. */
  lemma NeverTooMany(o: int, surge: int, target: int, fails: seq<bool>)
    requires Sizes(o, surge, target)
    ensures Run(Start(Some(o), o, surge, target), target, fails).Total() <= o + target
  {
    Reaches(Some(o), o, surge, target, fails);
  }

  /** No write to the old replica set fails in this run. */
  ghost predicate OldWritesWork(s: Roll, target: int, fails: seq<bool>) {
    forall i | 0 <= i < |fails| :: Run(s, target, fails[..i]).phase == AtOld ==> !fails[i]
  }

  /** The old replicas have gone down as often as the new ones went up, but for a write in between. */
  ghost predicate KeepsUp(s: Roll, o: int, surge: int, target: int) {
    var a, b := s.next - Min(surge, target), o - s.held;
    !s.decreaseOldDone ==> b >= if s.phase == AtOld then a - 1 else a
  }

  lemma KeepsUpStep(s: Roll, o: int, surge: int, target: int, fails: bool)
    requires Sizes(o, surge, target) && Inv(s, Some(o), o, surge, target) && KeepsUp(s, o, surge, target)
    requires s.phase == AtOld ==> !fails
    ensures KeepsUp(Step(s, target, fails), o, surge, target)
  {
  }

  lemma {:induction false} OldKeepsUp(o: int, surge: int, target: int, fails: seq<bool>)
    requires Sizes(o, surge, target) && OldWritesWork(Start(Some(o), o, surge, target), target, fails)
    ensures KeepsUp(Run(Start(Some(o), o, surge, target), target, fails), o, surge, target)
  {
    if fails != [] {
      hide Step, Inv, KeepsUp;
      var s0 := Start(Some(o), o, surge, target);
      var init := fails[..|fails| - 1];
      OldWorked(s0, target, fails, |init|);
      OldKeepsUp(o, surge, target, init);
      Reaches(Some(o), o, surge, target, init);
      assert fails[..|init|] == init;
      KeepsUpStep(Run(s0, target, init), o, surge, target, fails[|init|]);
    }
  }

  lemma OldWorked(s: Roll, target: int, fails: seq<bool>, n: nat)
    requires OldWritesWork(s, target, fails) && n <= |fails|
    ensures OldWritesWork(s, target, fails[..n])
  {
    hide Run;
    assert forall i | 0 <= i < n :: fails[..n][..i] == fails[..i];
  }

  /** The surge is respected as long as the old replica set can be written. */
  lemma SurgeRespected(o: int, surge: int, target: int, fails: seq<bool>)
    requires Sizes(o, surge, target) && OldWritesWork(Start(Some(o), o, surge, target), target, fails)
    ensures Run(Start(Some(o), o, surge, target), target, fails).Total() <= Max(o + Min(surge, target), target)
  {
    Reaches(Some(o), o, surge, target, fails);
    OldKeepsUp(o, surge, target, fails);
  }

  function Failures(fails: seq<bool>): nat {
    if fails == [] then 0 else Failures(fails[..|fails| - 1]) + if fails[|fails| - 1] then 1 else 0
  }

  /** Iterations that a rollout needs when nothing fails. */
  function Work(o: int, surge: int, target: int): int {
    Max(target - Min(surge, target) + 1, o)
  }

  /** The old replica set can be deleted when its turn comes. */
  predicate Deletable(pubOld: Option<int>, o: int) {
    pubOld.Some? || o != 1
  }

  lemma {:induction false} Progress(pubOld: Option<int>, o: int, surge: int, target: int, fails: seq<bool>)
    requires Sizes(o, surge, target) && Deletable(pubOld, o)
    ensures var s := Run(Start(pubOld, o, surge, target), target, fails);
            var good := s.iterations - s.errors - if s.phase == AtOld then 1 else 0;
            && s.errors <= Failures(fails) && 0 <= good
            && (!s.increaseNewDone ==> good <= s.next - Min(surge, target) - if s.phase == AtOld then 1 else 0)
            && (s.phase == AtOld ==> good <= Work(o, surge, target) - 1)
            && (s.phase == Done ==> good <= Work(o, surge, target))
            && (!s.decreaseOldDone ==> good <= o - s.held)
            && (s.phase != Done ==> 2 * s.iterations >= |fails| - (if s.phase == AtOld then -1 else 0))
            && (s.phase == AtNew ==> !s.increaseNewDone || !s.decreaseOldDone)
  {
    if fails != [] {
      Progress(pubOld, o, surge, target, fails[..|fails| - 1]);
      Reaches(pubOld, o, surge, target, fails[..|fails| - 1]);
    }
  }

  /** With at most f failing writes the loop is left within f + Work iterations, at the target and
      with the old replica set at zero. */
  lemma Ends(pubOld: Option<int>, o: int, surge: int, target: int, fails: seq<bool>, f: nat)
    requires Sizes(o, surge, target) && Deletable(pubOld, o) && Failures(fails) <= f
    ensures var s := Run(Start(pubOld, o, surge, target), target, fails);
            && s.iterations <= f + Work(o, surge, target)
            && (|fails| > 2 * (f + Work(o, surge, target)) ==> s.phase == Done)
            && (s.phase == Done ==> s.pubNew == Some(target) && (o > 0 ==> s.pubOld == Some(0)))
  {
    Progress(pubOld, o, surge, target, fails);
    Reaches(pubOld, o, surge, target, fails);
  }

  /** The one rollout that never ends: the single old replica was never published, so deleting it
      fails for ever. */
  lemma {:induction false} StuckExactly(pubOld: Option<int>, surge: int, target: int, fails: seq<bool>)
    requires Sizes(1, surge, target) && !Deletable(pubOld, 1)
    ensures Run(Start(pubOld, 1, surge, target), target, fails).phase != Done
    ensures Run(Start(pubOld, 1, surge, target), target, fails).pubOld.None?
    ensures Run(Start(pubOld, 1, surge, target), target, fails).held == 1
    ensures !Run(Start(pubOld, 1, surge, target), target, fails).decreaseOldDone
  {
    if fails != [] {
      StuckExactly(pubOld, surge, target, fails[..|fails| - 1]);
    }
  }

  /** The largest target can never be counted past, so a rollout to it is never done: the next count
      wraps around. */
  lemma {:induction false} NeverDoneAtMax(pubOld: Option<int>, o: int, surge: int, fails: seq<bool>)
    requires 0 <= o <= 0x7fff_ffff && 0 <= surge
    ensures var s := Run(Start(pubOld, o, surge, 0x7fff_ffff), 0x7fff_ffff, fails);
            !s.increaseNewDone && s.phase != Done && -0x8000_0000 <= s.next <= 0x7fff_ffff
  {
    if fails != [] {
      NeverDoneAtMax(pubOld, o, surge, fails[..|fails| - 1]);
    }
  }

  /** What follows the largest count. */
  lemma WrapsAround(pubOld: Option<int>, o: int, surge: int)
    requires 0 <= o && 0x7fff_ffff <= surge
    ensures var s := Run(Start(pubOld, o, surge, 0x7fff_ffff), 0x7fff_ffff, [false]);
            s.pubNew == Some(0x7fff_ffff) && s.next == -0x8000_0000
  {
    assert [false][..0] == [];
  }

  /** The API server, as far as replica sets go: published counts by key. */
  class ApiServer {
    var replicas: map<string, int>
    /** What was published after each write, failed ones included. */
    ghost var history: seq<map<string, int>>

    constructor ()
      ensures replicas == map[] && history == []
    {
      replicas := map[];
      history := [];
    }

    /** PUT; a failed write is not applied. */
    method Put(key: string, n: int, fails: bool) returns (ok: bool)
      modifies this
      ensures ok == !fails
      ensures replicas == if ok then old(replicas)[key := n] else old(replicas)
      ensures history == old(history) + [replicas]
    {
      ok := !fails;
      if ok {
        replicas := replicas[key := n];
      }
      history := history + [replicas];
    }

    /** DELETE sets the count to zero, or really deletes a replica set already at zero; a replica
        set that is not there is an error. */
    method Del(key: string, fails: bool) returns (ok: bool)
      modifies this
      ensures ok == (!fails && key in old(replicas))
      ensures replicas == if !ok then old(replicas)
                          else if old(replicas)[key] == 0 then old(replicas) - {key}
                          else old(replicas)[key := 0]
      ensures history == old(history) + [replicas]
    {
      ok := !fails && key in replicas;
      if ok {
        replicas := if replicas[key] == 0 then replicas - {key} else replicas[key := 0];
      }
      history := history + [replicas];
    }
  }

  ghost function Published(m: map<string, int>, key: string): Option<int> {
    if key in m then Some(m[key]) else None
  }

  /** The published counts are those of machine state s. */
  ghost predicate Shows(m: map<string, int>, s: Roll, rsKeyNew: string, rsKeyOld: string) {
    && s.pubNew == Published(m, rsKeyNew)
    && (s.pubOld.Some? || s.held > 0 ==> s.pubOld == Published(m, rsKeyOld))
  }

  /** They are those of the machine at some time of the run `turns`. */
  ghost predicate Shown(m: map<string, int>, start: Roll, target: int, turns: seq<bool>, rsKeyNew: string,
                        rsKeyOld: string) {
    exists i :: 0 <= i <= |turns| && Shows(m, Run(start, target, turns[..i]), rsKeyNew, rsKeyOld)
  }

  /** The turn is used for a write. */
  predicate Writes(s: Roll) {
    match s.phase
    case AtNew => !s.increaseNewDone
    case AtOld => !s.decreaseOldDone
    case Done => false
  }

  /** The machine's states after each of its writes, failed ones included. */
  function Log(start: Roll, target: int, turns: seq<bool>): seq<Roll> {
    if turns == [] then []
    else
      var init := turns[..|turns| - 1];
      Log(start, target, init) + if Writes(Run(start, target, init)) then [Run(start, target, turns)] else []
  }

  /** From place n on, the history is that of the machine, write for write. */
  ghost predicate Logged(history: seq<map<string, int>>, n: nat, log: seq<Roll>, rsKeyNew: string, rsKeyOld: string) {
    |history| == n + |log| && forall k | 0 <= k < |log| :: Shows(history[n + k], log[k], rsKeyNew, rsKeyOld)
  }

  lemma LoggedNext(history: seq<map<string, int>>, n: nat, log: seq<Roll>, m: map<string, int>, s: Roll, writes: bool,
                   rsKeyNew: string, rsKeyOld: string)
    requires Logged(history, n, log, rsKeyNew, rsKeyOld) && Shows(m, s, rsKeyNew, rsKeyOld)
    ensures Logged(history + if writes then [m] else [], n, log + if writes then [s] else [], rsKeyNew, rsKeyOld)
  {
    hide Shows;
  }

  lemma LogNext(start: Roll, target: int, turns: seq<bool>, f: bool)
    ensures Log(start, target, turns + [f]) ==
            Log(start, target, turns) + if Writes(Run(start, target, turns)) then [Run(start, target, turns + [f])]
              else []
  {
    hide Run;
    assert (turns + [f])[..|turns|] == turns;
  }

  lemma {:induction false} LogMember(start: Roll, target: int, turns: seq<bool>, k: nat)
    requires k < |Log(start, target, turns)|
    ensures exists i :: 0 <= i <= |turns| && Log(start, target, turns)[k] == Run(start, target, turns[..i])
  {
    hide Run;
    var init := turns[..|turns| - 1];
    if k < |Log(start, target, init)| {
      LogMember(start, target, init, k);
      var i :| 0 <= i <= |init| && Log(start, target, init)[k] == Run(start, target, init[..i]);
      assert turns[..i] == init[..i];
    } else {
      assert turns[..|turns|] == turns;
    }
  }

  lemma LoggedShown(history: seq<map<string, int>>, n: nat, start: Roll, target: int, turns: seq<bool>, k: nat,
                    rsKeyNew: string, rsKeyOld: string)
    requires Logged(history, n, Log(start, target, turns), rsKeyNew, rsKeyOld) && n <= k < |history|
    ensures Shown(history[k], start, target, turns, rsKeyNew, rsKeyOld)
  {
    hide Run, Log, Shows;
    LogMember(start, target, turns, k - n);
    assert Shows(history[n + (k - n)], Log(start, target, turns)[k - n], rsKeyNew, rsKeyOld);
  }

  ghost function Counted(m: map<string, int>, rsKeyNew: string, rsKeyOld: string): int {
    Published(m, rsKeyNew).GetOr(0) + Published(m, rsKeyOld).GetOr(0)
  }

  /** The bounds on what is published for both replica sets together; `kept` tells that no write to
      the old one failed. */
  ghost predicate Bounded(m: map<string, int>, o: int, surge: int, target: int, kept: bool, rsKeyNew: string,
                          rsKeyOld: string) {
    var n := Counted(m, rsKeyNew, rsKeyOld);
    && (Published(m, rsKeyNew).Some? ==> n >= Min(o + Min(surge, target) - 1, target))
    && (Published(m, rsKeyNew).None? ==> n == o)
    && n <= o + target
    && (kept ==> n <= Max(o + Min(surge, target), target))
    && (o == target && surge >= 1 ==> n >= o)
  }

  lemma ShownBounded(m: map<string, int>, o: int, surge: int, target: int, turns: seq<bool>, rsKeyNew: string,
                     rsKeyOld: string)
    requires Sizes(o, surge, target) && 0 < o
             && Shown(m, Start(Some(o), o, surge, target), target, turns, rsKeyNew, rsKeyOld)
    ensures Bounded(m, o, surge, target, OldWritesWork(Start(Some(o), o, surge, target), target, turns), rsKeyNew,
            rsKeyOld)
  {
    hide Run, Inv, OldWritesWork;
    var start := Start(Some(o), o, surge, target);
    var i :| 0 <= i <= |turns| && Shows(m, Run(start, target, turns[..i]), rsKeyNew, rsKeyOld);
    var early := turns[..i];
    StillShown(o, surge, target, early);
    NeverTooFew(o, surge, target, early);
    NeverTooMany(o, surge, target, early);
    OldUntouched(o, surge, target, early);
    if OldWritesWork(start, target, turns) {
      OldWorked(start, target, turns, i);
      SurgeRespected(o, surge, target, early);
    }
    if o == target && surge >= 1 {
      KeepsCapacity(o, surge, early);
    }
  }

  /** The old replica set is published throughout. */
  lemma StillShown(o: int, surge: int, target: int, turns: seq<bool>)
    requires Sizes(o, surge, target) && 0 < o
    ensures Run(Start(Some(o), o, surge, target), target, turns).pubOld.Some?
  {
    Reaches(Some(o), o, surge, target, turns);
  }

  class DeploymentController {
    const server: ApiServer
    /** Deployment key to the key of its current replica set. */
    var dm2rs: map<string, string>
    /** Replica set key to the count the controller last wrote for it. */
    var replicasetMap: map<string, int>

    constructor (server: ApiServer)
      ensures this.server == server && dm2rs == map[] && replicasetMap == map[]
    {
      this.server := server;
      dm2rs, replicasetMap := map[], map[];
    }

    /** The count the next rollout of the deployment starts from. */
    function Held(key: string): int
      reads this
    {
      if key in dm2rs && dm2rs[key] in replicasetMap then replicasetMap[dm2rs[key]] else 0
    }

    /** A new deployment; the write may be lost. */
    method Create(key: string, rsKeyNew: string, replicas: int, fails: bool)
      modifies this, server
      ensures dm2rs == old(dm2rs)[key := rsKeyNew]
      ensures replicasetMap == old(replicasetMap)[rsKeyNew := replicas]
      ensures server.replicas == if fails then old(server.replicas) else old(server.replicas)[rsKeyNew := replicas]
      ensures server.history == old(server.history) + [server.replicas]
    {
      dm2rs := dm2rs[key := rsKeyNew];
      var _ := server.Put(rsKeyNew, replicas, fails);
      replicasetMap := replicasetMap[rsKeyNew := replicas];
    }

    /** The rolling update to `replicas`, under a fresh replica set key. `fails[i]` tells whether
        the i-th turn's write is lost; later writes go through. `turns` is the run of the loop. */
    method Update(key: string, rsKeyNew: string, surge: int, replicas: int, clearFails: bool, fails: seq<bool>)
      returns (ghost turns: seq<bool>, ghost rounds: nat)
      requires Sizes(Held(key), surge, replicas)
      requires rsKeyNew != "" && rsKeyNew !in replicasetMap && rsKeyNew !in server.replicas
      requires key in dm2rs ==> dm2rs[key] != rsKeyNew
      requires Held(key) == 1 && clearFails ==> dm2rs[key] in server.replicas
      requires Held(key) > 0 && dm2rs[key] in server.replicas ==> server.replicas[dm2rs[key]] == Held(key)
      modifies this, server
      ensures dm2rs == old(dm2rs)[key := rsKeyNew] && rsKeyNew in replicasetMap && Held(key) == replicas
      ensures Published(server.replicas, rsKeyNew) == Some(replicas)
      ensures old(Held(key)) > 0 ==> Published(server.replicas, old(dm2rs)[key]) == Some(0)
      ensures var rsKeyOld := if key in old(dm2rs) then old(dm2rs)[key] else "";
              && Frame(old(server.replicas), server.replicas, rsKeyNew, rsKeyOld)
              && Frame(old(replicasetMap), replicasetMap, rsKeyNew, rsKeyOld)
      ensures forall i | 0 <= i < |turns| :: turns[i] == (i < |fails| && fails[i])
      ensures rounds <= Failures(fails) + Work(old(Held(key)), surge, replicas)
      ensures old(server.history) <= server.history
      ensures var o := old(Held(key));
              var pub := if o == 0 then None
                         else if clearFails then old(Published(server.replicas, dm2rs[key])) else Some(o);
              var start := Start(pub, o, surge, replicas);
              var rsKeyOld := if key in old(dm2rs) then old(dm2rs)[key] else "";
              && Run(start, replicas, turns).phase == Done && Run(start, replicas, turns).iterations == rounds
              && (o > 0 ==> |server.history| > |old(server.history)|
                            && Shows(server.history[|old(server.history)|], start, rsKeyNew, rsKeyOld))
              && Logged(server.history, |old(server.history)| + (if o > 0 then 1 else 0),
                 Log(start, replicas, turns), rsKeyNew, rsKeyOld)
              && (pub == Some(o) ==> forall k | |old(server.history)| <= k < |server.history| ::
                    Bounded(server.history[k], o, surge, replicas, OldWritesWork(start, replicas, turns), rsKeyNew,
                      rsKeyOld))
    {
      hide Run, Step, Failures, Work, Inv, Frame, Shows, Shown, OldWritesWork, Bounded, Log, Logged;
      var rsKeyOld := if key in dm2rs then dm2rs[key] else "";
      var isOldRSExist := key in dm2rs && rsKeyOld in replicasetMap;
      var held := if isOldRSExist then replicasetMap[rsKeyOld] else 0;
      var decreaseOldDone, increaseNewDone := held <= 0, false;
      FrameOwn(server.replicas, rsKeyNew, rsKeyOld, held);
      FrameOwn(replicasetMap, rsKeyNew, rsKeyOld, held);
      ghost var n := |server.history|;
      if isOldRSExist && !decreaseOldDone {
        var _ := server.Put(rsKeyOld, held, clearFails);
        replicasetMap := replicasetMap[rsKeyOld := held];
      }
      ghost var pub := if held == 0 then None else Published(server.replicas, rsKeyOld);
      ghost var start := Start(pub, held, surge, replicas);
      ShowsStart(server.replicas, pub, held, surge, replicas, rsKeyNew, rsKeyOld);
      ghost var n' := |server.history|;
      turns, rounds := RollingLoop(rsKeyNew, rsKeyOld, held, surge, replicas, fails, pub);
      dm2rs := dm2rs[key := rsKeyNew];
      if pub == Some(held) {
        forall k | n <= k < |server.history|
          ensures Bounded(server.history[k], held, surge, replicas, OldWritesWork(start, replicas, turns), rsKeyNew,
                  rsKeyOld)
        {
          if k < n' {
            ShownFirst(server.history[k], start, replicas, turns, rsKeyNew, rsKeyOld);
          } else {
            LoggedShown(server.history, n', start, replicas, turns, k, rsKeyNew, rsKeyOld);
          }
          ShownBounded(server.history[k], held, surge, replicas, turns, rsKeyNew, rsKeyOld);
        }
      }
    }

    /** The loop itself, from `o` old replicas: write for write it publishes what the machine does. */
    method RollingLoop(rsKeyNew: string, rsKeyOld: string, o: int, surge: int, replicas: int, fails: seq<bool>,
                       ghost pub: Option<int>)
      returns (ghost turns: seq<bool>, ghost rounds: nat)
      requires Sizes(o, surge, replicas) && Deletable(pub, o) && (pub == None || pub == Some(o))
      requires rsKeyNew != rsKeyOld && rsKeyNew !in server.replicas
      requires pub == if o == 0 then None else Published(server.replicas, rsKeyOld)
      modifies this`replicasetMap, server
      ensures var s := Run(Start(pub, o, surge, replicas), replicas, turns);
              && s.phase == Done && s.iterations == rounds
              && Published(replicasetMap, rsKeyNew) == Published(server.replicas, rsKeyNew) == Some(replicas)
      ensures forall i | 0 <= i < |turns| :: turns[i] == (i < |fails| && fails[i])
      ensures rounds <= Failures(fails) + Work(o, surge, replicas)
      ensures old(server.history) <= server.history
      ensures Logged(server.history, |old(server.history)|, Log(Start(pub, o, surge, replicas), replicas, turns),
              rsKeyNew, rsKeyOld)
      ensures o > 0 ==> Published(server.replicas, rsKeyOld) == Some(0)
      ensures forall m | Frame(m, old(replicasetMap), rsKeyNew, rsKeyOld) :: Frame(m, replicasetMap, rsKeyNew, rsKeyOld)
      ensures forall m | Frame(m, old(server.replicas), rsKeyNew, rsKeyOld) ::
              Frame(m, server.replicas, rsKeyNew, rsKeyOld)
    {
      hide Run, Step, Failures, Work, Inv, Frame, Log, Logged;
      var held, next := o, if surge < replicas then surge else replicas;
      var decreaseOldDone, increaseNewDone := held <= 0, false;
      ghost var start := Start(pub, o, surge, replicas);
      ghost var s := start;
      turns, rounds := [], 0;
      RunNothing(s, replicas);
      LogNothing(s, replicas, server.history, rsKeyNew, rsKeyOld);
      var t, running := 0, true;
      while running
        invariant |turns| == t && forall i | 0 <= i < t :: turns[i] == (i < |fails| && fails[i])
        invariant s == Run(start, replicas, turns) && s.phase == if running then AtNew else Done
        invariant s.iterations == rounds && old(server.history) <= server.history
        invariant Logged(server.history, |old(server.history)|, Log(start, replicas, turns), rsKeyNew, rsKeyOld)
        invariant Mirrors(s, next, held, increaseNewDone, decreaseOldDone, rsKeyNew, rsKeyOld)
        invariant forall m | Frame(m, old(replicasetMap), rsKeyNew, rsKeyOld) ::
                  Frame(m, replicasetMap, rsKeyNew, rsKeyOld)
        invariant forall m | Frame(m, old(server.replicas), rsKeyNew, rsKeyOld) ::
                  Frame(m, server.replicas, rsKeyNew, rsKeyOld)
        decreases 2 * (|fails| + Work(o, surge, replicas)) + 2 - t
      {
        FewFailures(turns, |fails|);
        Ends(pub, o, surge, replicas, turns, |fails|);
        var lost := t < |fails| && fails[t];
        RunOne(start, replicas, turns, lost);
        StepCounts(s, replicas, lost);
        rounds := rounds + 1;
        var failed;
        ghost var history, log, w := server.history, Log(start, replicas, turns), Writes(s);
        next, increaseNewDone,
          failed := IncreaseNew(rsKeyNew, rsKeyOld, next, increaseNewDone, replicas, lost, s, held, decreaseOldDone);
        s := Step(s, replicas, lost);
        LogNext(start, replicas, turns, lost);
        LoggedNext(history, |old(server.history)|, log, server.replicas, s, w, rsKeyNew, rsKeyOld);
        turns, t := turns + [lost], t + 1;
        if !failed {
          StepFacts(pub, o, surge, replicas, turns);
          lost := t < |fails| && fails[t];
          RunOne(start, replicas, turns, lost);
          StepCounts(s, replicas, lost);
          history, log, w := server.history, Log(start, replicas, turns), Writes(s);
          held, decreaseOldDone,
            failed := DecreaseOld(rsKeyNew, rsKeyOld, held, decreaseOldDone, lost, s, next, increaseNewDone, replicas);
          s := Step(s, replicas, lost);
          LogNext(start, replicas, turns, lost);
          LoggedNext(history, |old(server.history)|, log, server.replicas, s, w, rsKeyNew, rsKeyOld);
          turns, t := turns + [lost], t + 1;
          if !failed && decreaseOldDone && increaseNewDone {
            running := false;
          }
        }
      }
      StepFacts(pub, o, surge, replicas, turns);
      SameFailures(turns, fails);
      Ends(pub, o, surge, replicas, turns, Failures(fails));
    }

    /** The loop's variables, the server and the maps are in machine state s. */
    ghost predicate Mirrors(s: Roll, next: int, held: int, increaseNewDone: bool, decreaseOldDone: bool,
                            rsKeyNew: string, rsKeyOld: string)
      reads this, server
    {
      && s.next == next && s.held == held && s.increaseNewDone == increaseNewDone
         && s.decreaseOldDone == decreaseOldDone
      && Shows(server.replicas, s, rsKeyNew, rsKeyOld)
      && (s.pubNew.Some? ==> Published(replicasetMap, rsKeyNew) == s.pubNew)
      && rsKeyNew != rsKeyOld
    }

    /** First half of an iteration: publish the new replica set with the next count. */
    method IncreaseNew(rsKeyNew: string, rsKeyOld: string, next: int, increaseNewDone: bool, replicas: int, lost: bool,
                       ghost s: Roll, ghost held: int, ghost decreaseOldDone: bool)
      returns (next': int, increaseNewDone': bool, failed: bool)
      requires Mirrors(s, next, held, increaseNewDone, decreaseOldDone, rsKeyNew, rsKeyOld) && s.phase == AtNew
      modifies this`replicasetMap, server
      ensures Mirrors(Step(s, replicas, lost), next', held, increaseNewDone', decreaseOldDone, rsKeyNew, rsKeyOld)
      ensures Step(s, replicas, lost).phase == if failed then AtNew else AtOld
      ensures server.history == old(server.history) + if increaseNewDone then [] else [server.replicas]
      ensures forall m | Frame(m, old(replicasetMap), rsKeyNew, rsKeyOld) :: Frame(m, replicasetMap, rsKeyNew, rsKeyOld)
      ensures forall m | Frame(m, old(server.replicas), rsKeyNew, rsKeyOld) ::
              Frame(m, server.replicas, rsKeyNew, rsKeyOld)
    {
      next', increaseNewDone', failed := next, increaseNewDone, false;
      if !increaseNewDone {
        var ok := server.Put(rsKeyNew, next, lost);
        if ok {
          replicasetMap := replicasetMap[rsKeyNew := next];
          next' := Inc32(next);
          if next' > replicas {
            increaseNewDone' := true;
          }
        } else {
          failed := true;
        }
      }
    }

    /** Second half: publish the old replica set with one replica less, or delete it at zero. */
    method DecreaseOld(rsKeyNew: string, rsKeyOld: string, held: int, decreaseOldDone: bool, lost: bool,
                       ghost s: Roll, ghost next: int, ghost increaseNewDone: bool, ghost replicas: int)
      returns (held': int, decreaseOldDone': bool, failed: bool)
      requires Mirrors(s, next, held, increaseNewDone, decreaseOldDone, rsKeyNew, rsKeyOld) && s.phase == AtOld
      requires 0 <= held && (decreaseOldDone <==> held == 0) && (held > 0 && s.pubOld.Some? ==> s.pubOld.value == held)
      modifies this`replicasetMap, server
      ensures Mirrors(Step(s, replicas, lost), next, held', increaseNewDone, decreaseOldDone', rsKeyNew, rsKeyOld)
      ensures Step(s, replicas, lost).phase == if !failed && decreaseOldDone' && increaseNewDone then Done else AtNew
      ensures server.history == old(server.history) + if decreaseOldDone then [] else [server.replicas]
      ensures forall m | Frame(m, old(replicasetMap), rsKeyNew, rsKeyOld) :: Frame(m, replicasetMap, rsKeyNew, rsKeyOld)
      ensures forall m | Frame(m, old(server.replicas), rsKeyNew, rsKeyOld) ::
              Frame(m, server.replicas, rsKeyNew, rsKeyOld)
    {
      held', decreaseOldDone', failed := held, decreaseOldDone, false;
      if !decreaseOldDone {
        held' := held - 1;
        if held' > 0 {
          var ok := server.Put(rsKeyOld, held', lost);
          if ok {
            replicasetMap := replicasetMap[rsKeyOld := held'];
          } else {
            held', failed := held, true;
          }
        } else if held' == 0 {
          var ok := server.Del(rsKeyOld, lost);
          if ok {
            decreaseOldDone' := true;
          } else {
            held', failed := held, true;
          }
        }
      }
    }

    /** Any sequence of rollouts, one after the other: the controller's count for the deployment is
        always the last target, which is the count the next rollout starts from. */
    method Rollouts(key: string, requests: seq<Request>)
      requires key in dm2rs && dm2rs[key] in replicasetMap && 0 <= Held(key) < 0x7fff_ffff
      requires requests != [] && Held(key) == 1 && requests[0].clearFails ==> dm2rs[key] in server.replicas
      requires Held(key) > 0 && dm2rs[key] in server.replicas ==> server.replicas[dm2rs[key]] == Held(key)
      requires forall i | 0 <= i < |requests| :: 0 <= requests[i].surge && 0 <= requests[i].target < 0x7fff_ffff
      requires forall i | 0 <= i < |requests| :: requests[i].rsKey != "" && requests[i].rsKey !in replicasetMap
                                                 && requests[i].rsKey !in server.replicas
      requires forall i, j | 0 <= i < j < |requests| :: requests[i].rsKey != requests[j].rsKey
      modifies this, server
      ensures Held(key) == if requests == [] then old(Held(key)) else requests[|requests| - 1].target
      ensures requests != [] ==> key in dm2rs && Published(server.replicas, dm2rs[key]) == Some(Held(key))
    {
      for i := 0 to |requests|
        invariant key in dm2rs && dm2rs[key] in replicasetMap && 0 <= Held(key) < 0x7fff_ffff
        invariant Held(key) == if i == 0 then old(Held(key)) else requests[i - 1].target
        invariant i > 0 ==> Published(server.replicas, dm2rs[key]) == Some(Held(key))
        invariant i == 0 && Held(key) > 0 && dm2rs[key] in server.replicas ==> server.replicas[dm2rs[key]] == Held(key)
        invariant i == 0 && i < |requests| && Held(key) == 1 && requests[i].clearFails ==> dm2rs[key] in server.replicas
        invariant forall j | i <= j < |requests| :: requests[j].rsKey !in replicasetMap
                                                    && requests[j].rsKey !in server.replicas
      {
        var r := requests[i];
        ghost var m, m' := replicasetMap, server.replicas;
        assert forall j | i < j < |requests| :: Published(m, requests[j].rsKey) == None
                                                && Published(m', requests[j].rsKey) == None;
        var _, _ := Update(key, r.rsKey, r.surge, r.target, r.clearFails, r.fails);
        assert forall j | i < j < |requests| :: Published(replicasetMap, requests[j].rsKey) == None
                                                && Published(server.replicas, requests[j].rsKey) == None;
      }
    }
  }

  datatype Request = Request(rsKey: string, surge: int, target: int, clearFails: bool, fails: seq<bool>)

  lemma FrameOwn(m: map<string, int>, a: string, b: string, x: int)
    ensures Frame(m, m, a, b) && Frame(m, m[b := x], a, b)
  {
  }

  /** The two maps agree on every other replica set. */
  ghost predicate Frame(m: map<string, int>, m': map<string, int>, a: string, b: string) {
    forall k | k != a && k != b :: Published(m, k) == Published(m', k)
  }

  /** What the loop needs to know of the invariant. */
  lemma StepFacts(pubOld: Option<int>, o: int, surge: int, target: int, fails: seq<bool>)
    requires Sizes(o, surge, target) && (pubOld == None || pubOld == Some(o))
    ensures var s := Run(Start(pubOld, o, surge, target), target, fails);
            && 0 <= s.held && (s.decreaseOldDone <==> s.held == 0)
                                                      && (s.held > 0 && s.pubOld.Some? ==> s.pubOld.value == s.held)
            && (s.phase == Done ==> s.pubNew == Some(target) && s.held == 0 && (o > 0 ==> s.pubOld == Some(0)))
  {
    Reaches(pubOld, o, surge, target, fails);
  }

  lemma ShowsStart(m: map<string, int>, pub: Option<int>, o: int, surge: int, target: int, rsKeyNew: string,
                   rsKeyOld: string)
    requires rsKeyNew !in m && 0 <= o && pub == if o == 0 then None else Published(m, rsKeyOld)
    ensures Shows(m, Start(pub, o, surge, target), rsKeyNew, rsKeyOld)
  {
  }

  lemma ShownFirst(m: map<string, int>, start: Roll, target: int, turns: seq<bool>, rsKeyNew: string, rsKeyOld: string)
    requires Shows(m, start, rsKeyNew, rsKeyOld)
    ensures Shown(m, start, target, turns, rsKeyNew, rsKeyOld)
  {
    assert Run(start, target, turns[..0]) == start;
  }

  lemma LogNothing(s: Roll, target: int, history: seq<map<string, int>>, rsKeyNew: string, rsKeyOld: string)
    ensures Logged(history, |history|, Log(s, target, []), rsKeyNew, rsKeyOld)
  {
  }

  lemma StepCounts(s: Roll, target: int, fails: bool)
    ensures Step(s, target, fails).iterations == s.iterations + if s.phase == AtNew then 1 else 0
  {
  }

  /** The failures a run meets are among those it was given. */
  lemma {:induction false} SameFailures(turns: seq<bool>, fails: seq<bool>)
    requires forall i | 0 <= i < |turns| :: turns[i] == (i < |fails| && fails[i])
    ensures Failures(turns) <= Failures(fails)
  {
    if turns != [] {
      if |turns| <= |fails| {
        SameFailures(turns[..|turns| - 1], fails[..|turns| - 1]);
        PrefixFailures(fails, |turns|);
        assert fails[..|turns|][..|turns| - 1] == fails[..|turns| - 1];
      } else {
        SameFailures(turns[..|turns| - 1], fails);
      }
    }
  }

  lemma {:induction false} PrefixFailures(fails: seq<bool>, n: nat)
    requires n <= |fails|
    ensures Failures(fails[..n]) <= Failures(fails)
  {
    if n < |fails| {
      PrefixFailures(fails[..|fails| - 1], n);
      assert fails[..|fails| - 1][..n] == fails[..n];
    } else {
      assert fails[..n] == fails;
    }
  }

  lemma RunNothing(s: Roll, target: int)
    ensures Run(s, target, []) == s
  {
  }

  lemma RunOne(s: Roll, target: int, fails: seq<bool>, f: bool)
    ensures Run(s, target, fails + [f]) == Step(Run(s, target, fails), target, f)
  {
    assert (fails + [f])[..|fails|] == fails;
  }

  lemma {:induction false} FewFailures(fails: seq<bool>, n: nat)
    requires forall i | n <= i < |fails| :: !fails[i]
    ensures Failures(fails) <= n
  {
    if fails != [] {
      FewFailures(fails[..|fails| - 1], if n < |fails| then n else |fails| - 1);
    }
  }
}
