/** The autoscaler's loop for one replica set: the decision over the last five samples of each
    metric, and the writes that carry it out, of which any may fail. */
module Autoscaler {
  import opened Options
  import opened RingQueues

  datatype Decision = Increase | Decrease | Keep

  const WINDOW: nat := 5

  /** A metric's samples above its bound at some time in the window. A negative bound is always exceeded:
      the loop's maximum starts at zero. */
  ghost predicate Exceeded(bound: Option<real>, samples: seq<real>) {
    bound.Some? && (bound.value < 0.0 || exists x :: x in samples && x > bound.value)
  }

  /** A metric's samples below its bound throughout the window; never so for a bound of zero. */
  ghost predicate Calm(bound: Option<real>, samples: seq<real>) {
    bound.None? || (bound.value > 0.0 && forall x :: x in samples ==> x < bound.value)
  }

  /** The specification of a round, on the samples since the loop began. */
  ghost function Decided(cpuBound: Option<real>, cpus: seq<real>, memoryBound: Option<real>,
                         memories: seq<real>): Decision {
    if Exceeded(cpuBound, Last(cpus, WINDOW)) || Exceeded(memoryBound, Last(memories, WINDOW)) then Increase
    else if (cpuBound.Some? || memoryBound.Some?) && Calm(cpuBound, Last(cpus, WINDOW))
      && Calm(memoryBound, Last(memories, WINDOW)) then Decrease
    else Keep
  }

  /** What the decisions mean on the windows: up when some sample of an enabled metric is above its bound
      (or the bound is negative), down when all samples of all enabled metrics are below theirs. */
  ghost predicate Means(d: Decision, cpuBound: Option<real>, cpus: seq<real>, memoryBound: Option<real>,
                        memories: seq<real>) {
    var above := || (cpuBound.Some? && (cpuBound.value < 0.0 || exists x :: x in cpus && x > cpuBound.value))
                 || (memoryBound.Some?
                   && (memoryBound.value < 0.0 || exists x :: x in memories && x > memoryBound.value));
    var below := && (cpuBound.Some? || memoryBound.Some?)
                 && (cpuBound.Some? ==> cpuBound.value > 0.0 && forall x :: x in cpus ==> x < cpuBound.value)
                 && (memoryBound.Some? ==> memoryBound.value > 0.0 && forall x :: x in memories ==>
                    x < memoryBound.value);
    (d == Increase <==> above) && (d == Decrease <==> below) && (d == Keep <==> !above && !below)
  }

  lemma DecidedMeans(cpuBound: Option<real>, cpus: seq<real>, memoryBound: Option<real>, memories: seq<real>)
    ensures Means(Decided(cpuBound, cpus, memoryBound, memories), cpuBound, Last(cpus, 5), memoryBound,
            Last(memories, 5))
  {
    hide Last;
  }

  lemma SameMembers(s: seq<real>, t: seq<real>, bound: Option<real>)
    requires multiset(s) == multiset(t)
    ensures Exceeded(bound, s) <==> Exceeded(bound, t)
    ensures Calm(bound, s) <==> Calm(bound, t)
  {
    forall x
      ensures x in s <==> x in t
    {
      assert x in multiset(s) <==> x in multiset(t);
    }
  }

  /** The maximum the loop computes, from zero up. */
  method Peak(elements: seq<real>) returns (peak: real)
    ensures peak >= 0.0 && forall i :: 0 <= i < |elements| ==> peak >= elements[i]
    ensures peak == 0.0 || peak in elements
    ensures forall bound: real :: peak > bound <==> Exceeded(Some(bound), elements)
    ensures forall bound: real :: peak < bound <==> Calm(Some(bound), elements)
  {
    peak := 0.0;
    for k := 0 to |elements|
      invariant peak >= 0.0 && forall i :: 0 <= i < k ==> peak >= elements[i]
      invariant peak == 0.0 || peak in elements
    {
      peak := if peak >= elements[k] then peak else elements[k];
    }
  }

  /** The counts an increase publishes, or a decrease. */
  function Ascent(lo: int, hi: int): (s: seq<int>)
    decreases hi - lo
  {
    if lo >= hi then [] else [lo + 1] + Ascent(lo + 1, hi)
  }

  function Descent(hi: int, lo: int): (s: seq<int>)
    decreases hi - lo
  {
    if hi <= lo then [] else [hi - 1] + Descent(hi - 1, lo)
  }

  /** Within the limits, and one apart from the count before. */
  ghost predicate Gentle(start: int, counts: seq<int>, lo: int, hi: int)
    decreases |counts|
  {
    counts == [] ||
    (lo <= counts[0] <= hi && (counts[0] == start + 1 || counts[0] == start - 1)
      && Gentle(counts[0], counts[1..], lo, hi))
  }

  function Final(start: int, counts: seq<int>): int {
    if counts == [] then start else counts[|counts| - 1]
  }

  lemma {:induction false} AscentGentle(r: int, min: int, max: int)
    requires min <= r <= max
    ensures Gentle(r, Ascent(r, max), min, max) && Final(r, Ascent(r, max)) == max
    decreases max - r
  {
    if r < max {
      AscentGentle(r + 1, min, max);
      assert Ascent(r, max)[1..] == Ascent(r + 1, max);
    }
  }

  lemma {:induction false} DescentGentle(r: int, min: int, max: int)
    requires min <= r <= max
    ensures Gentle(r, Descent(r, min), min, max) && Final(r, Descent(r, min)) == min
    decreases r - min
  {
    if min < r {
      DescentGentle(r - 1, min, max);
      assert Descent(r, min)[1..] == Descent(r - 1, min);
    }
  }

  lemma {:induction false} GentleAppend(start: int, p: seq<int>, q: seq<int>, lo: int, hi: int)
    requires Gentle(start, p, lo, hi) && Gentle(Final(start, p), q, lo, hi)
    ensures Gentle(start, p + q, lo, hi) && Final(start, p + q) == Final(Final(start, p), q)
    decreases |p|
  {
    if p == [] {
      assert p + q == q;
    } else {
      assert (p + q)[1..] == p[1..] + q;
      GentleAppend(p[0], p[1..], q, lo, hi);
    }
  }

  lemma AscentFirst(r: int, max: int, was: seq<int>)
    requires r <= max
    ensures was + Ascent(r - 1, max) == was + [r] + Ascent(r, max)
  {
  }

  lemma DescentFirst(r: int, min: int, was: seq<int>)
    requires r >= min
    ensures was + Descent(r + 1, min) == was + [r] + Descent(r, min)
  {
  }

  lemma NoneToGo(r: int, limit: int, was: seq<int>)
    ensures r >= limit ==> was + Ascent(r, limit) == was
    ensures r <= limit ==> was + Descent(r, limit) == was
  {
  }

  /** The published counts, and which of the coming writes fail; once that list is used up, none does. */
  class ReplicaStore {
    var published: seq<int>
    var fails: seq<bool>

    constructor (fails: seq<bool>)
      ensures published == [] && this.fails == fails
    {
      published := [];
      this.fails := fails;
    }

    method Put(replicas: int) returns (ok: bool)
      modifies this
      ensures ok == (old(fails) == [] || !old(fails)[0])
      ensures fails == if old(fails) == [] then [] else old(fails)[1..]
      ensures published == if ok then old(published) + [replicas] else old(published)
    {
      ok := fails == [] || !fails[0];
      if fails != [] {
        fails := fails[1..];
      }
      if ok {
        published := published + [replicas];
      }
    }
  }

  /** Whatever writes fail, every count up to the maximum is published once, in order. */
  method ScaleUp(store: ReplicaStore, replicas: int, max: int) returns (r: int)
    modifies store
    ensures r == if replicas < max then max else replicas
    ensures store.published == old(store.published) + Ascent(replicas, max)
  {
    hide Ascent;
    r := replicas;
    while r < max
      invariant replicas < max ==> r <= max
      invariant replicas >= max ==> r == replicas
      invariant store.published + Ascent(r, max) == old(store.published) + Ascent(replicas, max)
      decreases max - r, |store.fails|
    {
      ghost var was := store.published;
      r := r + 1;
      var ok := store.Put(r);
      AscentFirst(r, max, was);
      if !ok {
        r := r - 1;
      }
    }
    NoneToGo(r, max, store.published);
  }

  method ScaleDown(store: ReplicaStore, replicas: int, min: int) returns (r: int)
    modifies store
    ensures r == if replicas > min then min else replicas
    ensures store.published == old(store.published) + Descent(replicas, min)
  {
    hide Descent;
    r := replicas;
    while r > min
      invariant replicas > min ==> r >= min
      invariant replicas <= min ==> r == replicas
      invariant store.published + Descent(r, min) == old(store.published) + Descent(replicas, min)
      decreases r - min, |store.fails|
    {
      ghost var was := store.published;
      r := r - 1;
      var ok := store.Put(r);
      DescentFirst(r, min, was);
      if !ok {
        r := r + 1;
      }
    }
    NoneToGo(r, min, store.published);
  }

  /** One loop; the bounds are there for the metrics the autoscaler names. */
  class Monitor {
    const cpuBound: Option<real>
    const memoryBound: Option<real>
    const cpuRingQ: RingQueue<real>
    const memRingQ: RingQueue<real>

    ghost predicate Valid()
      reads this, cpuRingQ, memRingQ, cpuRingQ.list, memRingQ.list
    {
      && cpuRingQ != memRingQ && cpuRingQ.list != memRingQ.list
      && cpuRingQ.Valid() && memRingQ.Valid() && cpuRingQ.capacity == memRingQ.capacity == WINDOW
    }

    constructor (cpuBound: Option<real>, memoryBound: Option<real>)
      ensures Valid() && fresh(cpuRingQ) && fresh(memRingQ) && fresh(cpuRingQ.list) && fresh(memRingQ.list)
      ensures cpuRingQ.pushed == [] && memRingQ.pushed == []
      ensures this.cpuBound == cpuBound && this.memoryBound == memoryBound
    {
      this.cpuBound := cpuBound;
      this.memoryBound := memoryBound;
      memRingQ := new RingQueue<real>(WINDOW);
      cpuRingQ := new RingQueue<real>(WINDOW);
    }

    /** The samples are what the metric handlers computed from the pods of this round. */
    method Decide(cpuSample: real, memorySample: real) returns (d: Decision)
      requires Valid()
      modifies cpuRingQ, memRingQ, cpuRingQ.list, memRingQ.list
      ensures Valid()
      ensures cpuRingQ.pushed == if cpuBound.Some? then old(cpuRingQ.pushed) + [cpuSample] else old(cpuRingQ.pushed)
      ensures memRingQ.pushed == if memoryBound.Some? then old(memRingQ.pushed) + [memorySample]
              else old(memRingQ.pushed)
      ensures d == Decided(cpuBound, cpuRingQ.pushed, memoryBound, memRingQ.pushed)
      ensures Means(d, cpuBound, Last(cpuRingQ.pushed, 5), memoryBound, Last(memRingQ.pushed, 5))
    {
      hide Exceeded, Calm, Last, Means;
      var cpu, memory := 0.0, 0.0;
      if cpuBound.Some? {
        cpuRingQ.Push(cpuSample);
        var elements := cpuRingQ.GetElements();
        cpu := Peak(elements);
        SameMembers(elements, Last(cpuRingQ.pushed, WINDOW), cpuBound);
      }
      if memoryBound.Some? {
        memRingQ.Push(memorySample);
        var elements := memRingQ.GetElements();
        memory := Peak(elements);
        SameMembers(elements, Last(memRingQ.pushed, WINDOW), memoryBound);
      }
      NoMetric(Last(cpuRingQ.pushed, WINDOW));
      NoMetric(Last(memRingQ.pushed, WINDOW));
      if (cpuBound.Some? && cpu > cpuBound.value) || (memoryBound.Some? && memory > memoryBound.value) {
        d := Increase;
      } else if (cpuBound.Some? && memoryBound.Some? && cpu < cpuBound.value && memory < memoryBound.value) ||
        (cpuBound.Some? && memoryBound.None? && cpu < cpuBound.value) ||
        (memoryBound.Some? && cpuBound.None? && memory < memoryBound.value)
      {
        d := Decrease;
      } else {
        d := Keep;
      }
      DecidedMeans(cpuBound, cpuRingQ.pushed, memoryBound, memRingQ.pushed);
    }

    /** One round, from whatever count is read back: the decision, and all the counts it publishes. */
    method Scale(store: ReplicaStore, read: int, min: int, max: int, cpuSample: real,
                 memorySample: real) returns (replicas: int)
      requires Valid()
      modifies cpuRingQ, memRingQ, cpuRingQ.list, memRingQ.list, store
      ensures Valid()
      ensures cpuRingQ.pushed == if cpuBound.Some? then old(cpuRingQ.pushed) + [cpuSample] else old(cpuRingQ.pushed)
      ensures memRingQ.pushed == if memoryBound.Some? then old(memRingQ.pushed) + [memorySample]
              else old(memRingQ.pushed)
      ensures var d := Decided(cpuBound, cpuRingQ.pushed, memoryBound, memRingQ.pushed);
              && store.published == old(store.published) + Steps(d, read, min, max)
              && replicas == Final(read, Steps(d, read, min, max))
      ensures exists d :: && Means(d, cpuBound, Last(cpuRingQ.pushed, 5), memoryBound, Last(memRingQ.pushed, 5))
                          && (d == Increase ==> store.published == old(store.published) + Ascent(read, max))
                          && (d == Decrease ==> store.published == old(store.published) + Descent(read, min))
                          && (d == Keep ==> store.published == old(store.published))
    {
      hide Decided, Ascent, Descent, Means, Last;
      var d := Decide(cpuSample, memorySample);
      assert store.published + [] == store.published;
      EndOfSteps(read, min, max);
      match d
      case Increase => replicas := ScaleUp(store, read, max);
      case Decrease => replicas := ScaleDown(store, read, min);
      case Keep => replicas := read;
    }

    /** Rounds one after the other, from whatever counts are read back: the published ones are within
        the limits exactly when every round stays there, and one apart when each round reads back the
        count last published. */
    method Loop(store: ReplicaStore, start: int, min: int, max: int, rounds: seq<Round>)
      requires Valid() && store.published == [] && cpuRingQ.pushed == [] && memRingQ.pushed == []
      modifies cpuRingQ, memRingQ, cpuRingQ.list, memRingQ.list, store
      ensures Valid()
      ensures var setup := Setup(cpuBound, memoryBound, min, max);
              && store.published == Published(setup, rounds)
              && (Within(store.published, min, max) <==> AllStay(setup, rounds))
              && (min <= start <= max && Follows(setup, start, rounds) ==> Gentle(start, store.published, min, max))
    {
      hide Decided, Steps, Gentle, Within, AllStay, Follows;
      ghost var setup := Setup(cpuBound, memoryBound, min, max);
      for i := 0 to |rounds|
        invariant Valid()
        invariant cpuRingQ.pushed == Samples(cpuBound, rounds[..i], true)
        invariant memRingQ.pushed == Samples(memoryBound, rounds[..i], false)
        invariant store.published == Published(setup, rounds[..i])
      {
        assert rounds[..i + 1][..i] == rounds[..i];
        match rounds[i]
        case Skipped =>
        case Sampled(read, cpuSample, memorySample) =>
          var _ := Scale(store, read, min, max, cpuSample, memorySample);
      }
      assert rounds[..|rounds|] == rounds;
      PublishedWithin(setup, rounds);
      if min <= start <= max && Follows(setup, start, rounds) {
        PublishedGentle(setup, start, rounds);
      }
    }
  }

  /** What the autoscaler object sets. */
  datatype Setup = Setup(cpuBound: Option<real>, memoryBound: Option<real>, min: int, max: int)

  /** The samples of a metric so far. */
  ghost function Samples(bound: Option<real>, rounds: seq<Round>, cpu: bool): seq<real> {
    if rounds == [] then []
    else
      var last := rounds[|rounds| - 1];
      Samples(bound, rounds[..|rounds| - 1], cpu) +
      if bound.None? || last.Skipped? then [] else [if cpu then last.cpu else last.memory]
  }

  /** What the last of these rounds decides, on all samples so far. */
  ghost function LastDecision(setup: Setup, rounds: seq<Round>): Decision {
    Decided(setup.cpuBound, Samples(setup.cpuBound, rounds, true), setup.memoryBound,
      Samples(setup.memoryBound, rounds, false))
  }

  /** What it publishes. */
  ghost function LastSteps(setup: Setup, rounds: seq<Round>): seq<int>
    requires rounds != []
  {
    var last := rounds[|rounds| - 1];
    if last.Skipped? then [] else Steps(LastDecision(setup, rounds), last.read, setup.min, setup.max)
  }

  ghost function Published(setup: Setup, rounds: seq<Round>): seq<int> {
    if rounds == [] then [] else Published(setup, rounds[..|rounds| - 1]) + LastSteps(setup, rounds)
  }

  /** Where only the processor is watched, memory samples change nothing, and the other way round. */
  lemma {:induction false} OtherIgnored(setup: Setup, rounds: seq<Round>, others: seq<Round>)
    requires |others| == |rounds|
    requires forall i :: 0 <= i < |rounds| ==> Alike(setup, rounds[i], others[i])
    ensures Published(setup, rounds) == Published(setup, others)
    ensures Samples(setup.cpuBound, rounds, true) == Samples(setup.cpuBound, others, true)
    ensures Samples(setup.memoryBound, rounds, false) == Samples(setup.memoryBound, others, false)
  {
    if rounds != [] {
      hide Decided, Steps;
      var n := |rounds| - 1;
      OtherIgnored(setup, rounds[..n], others[..n]);
      assert Alike(setup, rounds[n], others[n]);
    }
  }

  ghost predicate Alike(setup: Setup, r: Round, o: Round) {
    && (r.Sampled? <==> o.Sampled?)
    && (r.Sampled? ==> r.read == o.read && (setup.cpuBound.Some? ==> r.cpu == o.cpu))
    && (r.Sampled? ==> setup.memoryBound.Some? ==> r.memory == o.memory)
  }

  /** What the last round publishes: every count up to the maximum, down to the minimum, or none. */
  lemma LastRoundMeans(setup: Setup, rounds: seq<Round>)
    requires rounds != []
    ensures var last, counts := rounds[|rounds| - 1], LastSteps(setup, rounds);
            if last.Skipped? then counts == []
            else exists d :: && Means(d, setup.cpuBound, Last(Samples(setup.cpuBound, rounds, true), 5),
                                      setup.memoryBound, Last(Samples(setup.memoryBound, rounds, false), 5))
                             && (d == Increase ==> counts == Ascent(last.read, setup.max))
                             && (d == Decrease ==> counts == Descent(last.read, setup.min))
                             && (d == Keep ==> counts == [])
  {
    hide Decided, Means, Last, Ascent, Descent;
    DecidedMeans(setup.cpuBound, Samples(setup.cpuBound, rounds, true), setup.memoryBound,
      Samples(setup.memoryBound, rounds, false));
  }

  ghost predicate Within(counts: seq<int>, lo: int, hi: int) {
    forall i :: 0 <= i < |counts| ==> lo <= counts[i] <= hi
  }

  /** A round that publishes nothing outside the limits: it has nothing to do, or starts at most one off. */
  predicate Stays(d: Decision, read: int, min: int, max: int) {
    match d
    case Increase => read >= max || read >= min - 1
    case Decrease => read <= min || read <= max + 1
    case Keep => true
  }

  ghost predicate AllStay(setup: Setup, rounds: seq<Round>) {
    rounds == [] ||
    var last := rounds[|rounds| - 1];
    && AllStay(setup, rounds[..|rounds| - 1])
    && (last.Sampled? ==> Stays(LastDecision(setup, rounds), last.read, setup.min, setup.max))
  }

  /** Every round reads back the count last published. */
  ghost predicate Follows(setup: Setup, start: int, rounds: seq<Round>) {
    rounds == [] ||
    var front, last := rounds[..|rounds| - 1], rounds[|rounds| - 1];
    && Follows(setup, start, front)
    && (last.Sampled? ==> last.read == Final(start, Published(setup, front)))
  }

  lemma WithinAppend(p: seq<int>, q: seq<int>, lo: int, hi: int)
    ensures Within(p + q, lo, hi) <==> Within(p, lo, hi) && Within(q, lo, hi)
  {
    if Within(p + q, lo, hi) {
      assert forall i :: 0 <= i < |p| ==> p[i] == (p + q)[i];
      assert forall i :: 0 <= i < |q| ==> q[i] == (p + q)[|p| + i];
    }
  }

  lemma {:induction false} AscentWithin(read: int, min: int, max: int)
    ensures Within(Ascent(read, max), min, max) <==> read >= max || read >= min - 1
    decreases max - read
  {
    if read < max {
      AscentWithin(read + 1, min, max);
      WithinAppend([read + 1], Ascent(read + 1, max), min, max);
      assert Within([read + 1], min, max) <==> min <= [read + 1][0] <= max;
    }
  }

  lemma {:induction false} DescentWithin(read: int, min: int, max: int)
    ensures Within(Descent(read, min), min, max) <==> read <= min || read <= max + 1
    decreases read - min
  {
    if read > min {
      DescentWithin(read - 1, min, max);
      WithinAppend([read - 1], Descent(read - 1, min), min, max);
      assert Within([read - 1], min, max) <==> min <= [read - 1][0] <= max;
    }
  }

  lemma StepsWithin(d: Decision, read: int, min: int, max: int)
    ensures Within(Steps(d, read, min, max), min, max) <==> Stays(d, read, min, max)
  {
    AscentWithin(read, min, max);
    DescentWithin(read, min, max);
  }

  /** Over any rounds, the published counts are within the limits exactly when every round stays there. */
  lemma {:induction false} PublishedWithin(setup: Setup, rounds: seq<Round>)
    ensures Within(Published(setup, rounds), setup.min, setup.max) <==> AllStay(setup, rounds)
  {
    if rounds != [] {
      hide Within, Stays, Steps, LastDecision;
      var front, last := rounds[..|rounds| - 1], rounds[|rounds| - 1];
      PublishedWithin(setup, front);
      WithinAppend(Published(setup, front), LastSteps(setup, rounds), setup.min, setup.max);
      if last.Sampled? {
        StepsWithin(LastDecision(setup, rounds), last.read, setup.min, setup.max);
      } else {
        assert Published(setup, front) + [] == Published(setup, front);
      }
    }
  }

  lemma {:induction false} GentleFinal(start: int, counts: seq<int>, lo: int, hi: int)
    requires lo <= start <= hi && Gentle(start, counts, lo, hi)
    ensures lo <= Final(start, counts) <= hi
    decreases |counts|
  {
    if counts != [] {
      GentleFinal(counts[0], counts[1..], lo, hi);
    }
  }

  lemma {:induction false} PublishedGentle(setup: Setup, start: int, rounds: seq<Round>)
    requires setup.min <= start <= setup.max && Follows(setup, start, rounds)
    ensures Gentle(start, Published(setup, rounds), setup.min, setup.max)
  {
    hide Gentle, Steps, LastDecision;
    if rounds == [] {
      NoSteps(start, setup.min, setup.max);
    } else {
      var front, last := rounds[..|rounds| - 1], rounds[|rounds| - 1];
      PublishedGentle(setup, start, front);
      var before := Published(setup, front);
      if last.Sampled? {
        GentleFinal(start, before, setup.min, setup.max);
        StepsGentle(LastDecision(setup, rounds), last.read, setup.min, setup.max);
        GentleAppend(start, before, LastSteps(setup, rounds), setup.min, setup.max);
      } else {
        assert before + [] == before;
      }
    }
  }

  /** The count is not known or the pods cannot be listed, or the count read back and two samples. */
  datatype Round = Skipped | Sampled(read: int, cpu: real, memory: real)

  function Steps(d: Decision, read: int, min: int, max: int): seq<int> {
    match d
    case Increase => Ascent(read, max)
    case Decrease => Descent(read, min)
    case Keep => []
  }

  lemma StepsGentle(d: Decision, read: int, min: int, max: int)
    requires min <= read <= max
    ensures Gentle(read, Steps(d, read, min, max), min, max)
  {
    hide Ascent, Descent;
    AscentGentle(read, min, max);
    DescentGentle(read, min, max);
  }

  lemma {:induction false} EndOfSteps(read: int, min: int, max: int)
    ensures Final(read, Ascent(read, max)) == if read < max then max else read
    ensures Final(read, Descent(read, min)) == if read > min then min else read
  {
    if read < max {
      AscentGentle(read, read, max);
    }
    if read > min {
      DescentGentle(read, min, read);
    }
  }

  lemma NoMetric(samples: seq<real>)
    ensures !Exceeded(None, samples) && Calm(None, samples)
  {
  }

  lemma NoSteps(start: int, lo: int, hi: int)
    ensures Gentle(start, [], lo, hi) && Final(start, []) == start
  {
  }
}
