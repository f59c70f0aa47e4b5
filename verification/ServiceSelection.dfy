/** The pods behind one service: which are selected on each poll, and when the stored service and
    its copy in etcd follow. */
module ServiceSelection {
  import opened Objects
  import opened Options

  datatype Phase = Pending | Running | Failed | Exited | Delete

  datatype Pod = Pod(name: string, phase: Phase, ip: string, labels: map<string, string>)

  datatype Config = Config(podNameAndIps: seq<PodNameAndIp>, phase: Phase, err: string)

  /** What `GetRuntimePod` says of a pod: an error, no such pod, or its phase. */
  datatype Reply = Unreachable | Gone | Reported(phase: Phase)

  const MAX_PODS: nat := 5

  const NoPodsError := "NoPodsError"

  predicate Matches(selector: map<string, string>, pod: Pod) {
    pod.phase == Running && forall k :: k in selector ==> k in pod.labels && pod.labels[k] == selector[k]
  }

  /** The running pods of a listing that the selector matches, in order. */
  function Candidates(selector: map<string, string>, listing: seq<Pod>): seq<Pod> {
    if listing == [] then []
    else
      var last := listing[|listing| - 1];
      Candidates(selector, listing[..|listing| - 1]) + if Matches(selector, last) then [last] else []
  }

  function StillRunning(pods: seq<Pod>): seq<Pod> {
    if pods == [] then []
    else
      var last := pods[|pods| - 1];
      StillRunning(pods[..|pods| - 1]) + if last.phase == Running then [last] else []
  }

  function NamesOf(pods: seq<Pod>): (names: seq<string>)
    ensures |names| == |pods| && forall i :: 0 <= i < |pods| ==> names[i] == pods[i].name
  {
    seq(|pods|, i requires 0 <= i < |pods| => pods[i].name)
  }

  function StoredNames(stored: seq<PodNameAndIp>): (names: seq<string>)
    ensures |names| == |stored| && forall i :: 0 <= i < |stored| ==> names[i] == stored[i].name
  {
    seq(|stored|, i requires 0 <= i < |stored| => stored[i].name)
  }

  function Stored(pods: seq<Pod>): (stored: seq<PodNameAndIp>)
    ensures |stored| == |pods| && forall i :: 0 <= i < |pods| ==> stored[i] == PodNameAndIp(pods[i].name, pods[i].ip)
  {
    seq(|pods|, i requires 0 <= i < |pods| => PodNameAndIp(pods[i].name, pods[i].ip))
  }

  /** Candidates join in order while there is room and their name is new. */
  function Fill(pods: seq<Pod>, candidates: seq<Pod>): seq<Pod>
    decreases |candidates|
  {
    if candidates == [] then pods
    else Fill(if |pods| < MAX_PODS && candidates[0].name !in NamesOf(pods) then pods + [candidates[0]]
      else pods, candidates[1..])
  }

  predicate Distinct(names: seq<string>) {
    forall i, j :: 0 <= i < j < |names| ==> names[i] != names[j]
  }

  /** Members stay in front; at most five with distinct names; each newcomer is a candidate; and
      five are reached unless every candidate is there. */
  lemma {:induction false} FillFacts(pods: seq<Pod>, candidates: seq<Pod>)
    requires |pods| <= MAX_PODS && Distinct(NamesOf(pods))
    ensures var r := Fill(pods, candidates);
            && |pods| <= |r| <= MAX_PODS && Distinct(NamesOf(r)) && r[..|pods|] == pods
            && (forall i :: |pods| <= i < |r| ==> r[i] in candidates)
            && (|r| == MAX_PODS || forall c :: c in candidates ==> c.name in NamesOf(r))
    decreases |candidates|
  {
    hide Distinct, NamesOf;
    if candidates != [] {
      var grown := if |pods| < MAX_PODS && candidates[0].name !in NamesOf(pods) then pods + [candidates[0]] else pods;
      Joins(pods, candidates[0]);
      FillFacts(grown, candidates[1..]);
      var r := Fill(grown, candidates[1..]);
      assert r == Fill(pods, candidates);
      assert r[..|pods|] == r[..|grown|][..|pods|] == pods;
      forall i | |pods| <= i < |r|
        ensures r[i] in candidates
      {
        if i < |grown| {
          assert r[i] == r[..|grown|][i] == candidates[0];
        }
      }
      NamesPrefix(grown, r);
      assert forall c :: c in candidates ==> c == candidates[0] || c in candidates[1..];
    }
  }

  lemma Joins(pods: seq<Pod>, pod: Pod)
    requires Distinct(NamesOf(pods))
    ensures pod.name !in NamesOf(pods) ==> Distinct(NamesOf(pods + [pod]))
    ensures pod.name in NamesOf(pods + [pod])
  {
    assert NamesOf(pods + [pod])[|pods|] == pod.name;
  }

  lemma NamesPrefix(p: seq<Pod>, r: seq<Pod>)
    requires |p| <= |r| && r[..|p|] == p
    ensures forall n :: n in NamesOf(p) ==> n in NamesOf(r)
  {
    forall n | n in NamesOf(p)
      ensures n in NamesOf(r)
    {
      var i :| 0 <= i < |p| && NamesOf(p)[i] == n;
      assert r[i] == r[..|p|][i];
      assert NamesOf(r)[i] == n;
    }
  }

  lemma {:induction false} StillRunningFacts(pods: seq<Pod>)
    requires Distinct(NamesOf(pods))
    ensures var r := StillRunning(pods);
            && |r| <= |pods| && Distinct(NamesOf(r)) && (forall i :: 0 <= i < |r| ==> r[i].phase == Running)
            && (forall p :: p in r <==> p in pods && p.phase == Running)
  {
    if pods != [] {
      hide Distinct;
      var front, last := pods[..|pods| - 1], pods[|pods| - 1];
      assert pods == front + [last];
      DistinctFront(front, last);
      StillRunningFacts(front);
      if last.phase == Running {
        assert last.name !in NamesOf(StillRunning(front)) by {
          assert forall i :: 0 <= i < |StillRunning(front)| ==> StillRunning(front)[i] in front;
          NamesWithin(StillRunning(front), front);
        }
        Joins(StillRunning(front), last);
      }
    }
  }

  lemma DistinctFront(front: seq<Pod>, last: Pod)
    requires Distinct(NamesOf(front + [last]))
    ensures Distinct(NamesOf(front)) && last.name !in NamesOf(front)
  {
    var names := NamesOf(front + [last]);
    assert names[|front|] == last.name;
    assert forall i :: 0 <= i < |front| ==> names[i] == NamesOf(front)[i];
  }

  lemma NamesWithin(p: seq<Pod>, q: seq<Pod>)
    requires forall i :: 0 <= i < |p| ==> p[i] in q
    ensures forall n :: n in NamesOf(p) ==> n in NamesOf(q)
  {
    forall n | n in NamesOf(p)
      ensures n in NamesOf(q)
    {
      var i :| 0 <= i < |p| && NamesOf(p)[i] == n;
      var j :| 0 <= j < |q| && q[j] == p[i];
      assert NamesOf(q)[j] == n;
    }
  }

  function Elements(names: seq<string>): set<string> {
    set n | n in names
  }

  lemma {:induction false} DistinctCount(names: seq<string>)
    requires Distinct(names)
    ensures |Elements(names)| == |names|
    ensures forall n :: multiset(names)[n] == if n in names then 1 else 0
  {
    if names == [] {
      assert Elements(names) == {};
    } else {
      var front, last := names[..|names| - 1], names[|names| - 1];
      DistinctCount(front);
      assert names == front + [last];
      assert last !in front;
      assert Elements(names) == Elements(front) + {last};
    }
  }

  lemma {:induction false} SubsetOfSize<T>(s: set<T>, t: set<T>)
    requires s <= t && |s| == |t|
    ensures s == t
  {
    assert t == s + (t - s);
    assert |t - s| == 0;
  }

  /** Equally many distinct names, the old all among the new: nothing but the order can differ. */
  lemma Pigeonhole(olds: seq<string>, news: seq<string>)
    requires Distinct(olds) && Distinct(news)
    ensures (|olds| == |news| && forall n :: n in olds ==> n in news) <==> multiset(olds) == multiset(news)
    ensures multiset(olds) == multiset(news) <==> Elements(olds) == Elements(news)
  {
    DistinctCount(olds);
    DistinctCount(news);
    if |olds| == |news| && forall n :: n in olds ==> n in news {
      SubsetOfSize(Elements(olds), Elements(news));
      assert forall n :: n in news ==> n in Elements(news);
      assert forall n :: multiset(olds)[n] == multiset(news)[n];
    }
    if multiset(olds) == multiset(news) {
      assert |multiset(olds)| == |olds| && |multiset(news)| == |news|;
      assert forall n :: n in olds <==> multiset(olds)[n] > 0;
      assert forall n :: n in news <==> multiset(news)[n] > 0;
    }
    if Elements(olds) == Elements(news) {
      assert forall n :: n in olds ==> n in Elements(olds);
      assert forall n :: n in news ==> n in Elements(news);
      assert forall n :: multiset(olds)[n] == multiset(news)[n];
    }
  }

  /** True when the pods differ by name; addresses and phases are not looked at. */
  method CompareOldAndNew(oldPods: seq<Pod>, newPods: seq<Pod>) returns (different: bool)
    ensures different <==> |oldPods| != |newPods| || exists n :: n in NamesOf(oldPods) && n !in NamesOf(newPods)
    ensures Distinct(NamesOf(oldPods)) && Distinct(NamesOf(newPods)) ==>
              (different <==> multiset(NamesOf(oldPods)) != multiset(NamesOf(newPods)))
  {
    ghost var olds, news := NamesOf(oldPods), NamesOf(newPods);
    if Distinct(olds) && Distinct(news) {
      Pigeonhole(olds, news);
    }
    if |oldPods| != |newPods| {
      return true;
    }
    for i := 0 to |oldPods|
      invariant forall k :: 0 <= k < i ==> olds[k] in news
    {
      var founded := false;
      for j := 0 to |newPods|
        invariant !founded
        invariant forall k :: 0 <= k < j ==> news[k] != olds[i]
      {
        if oldPods[i].name == newPods[j].name {
          founded := true;
          assert news[j] == olds[i];
          break;
        }
      }
      if !founded {
        assert olds[i] !in news;
        return true;
      }
    }
    return false;
  }

  /** The label loop: the selector is visited in any order. */
  method CanChoose(selector: map<string, string>, pod: Pod) returns (canChoose: bool)
    ensures canChoose <==> Matches(selector, pod)
  {
    if pod.phase != Running {
      return false;
    }
    var unseen := selector.Keys;
    while unseen != {}
      invariant unseen <= selector.Keys
      invariant forall k :: k in selector && k !in unseen ==> k in pod.labels && pod.labels[k] == selector[k]
    {
      var k :| k in unseen;
      if k !in pod.labels || pod.labels[k] != selector[k] {
        return false;
      }
      unseen := unseen - {k};
    }
    return true;
  }

  method Filter(selector: map<string, string>, listing: seq<Pod>) returns (filter: seq<Pod>)
    ensures filter == Candidates(selector, listing)
  {
    filter := [];
    for i := 0 to |listing|
      invariant filter == Candidates(selector, listing[..i])
    {
      var canChoose := CanChoose(selector, listing[i]);
      assert listing[..i + 1][..i] == listing[..i];
      if canChoose {
        filter := filter + [listing[i]];
      }
    }
    assert listing[..|listing|] == listing;
  }

  method DropStopped(pods: seq<Pod>) returns (okPods: seq<Pod>)
    ensures okPods == StillRunning(pods)
  {
    okPods := [];
    for i := 0 to |pods|
      invariant okPods == StillRunning(pods[..i])
    {
      assert pods[..i + 1][..i] == pods[..i];
      if pods[i].phase == Running {
        okPods := okPods + [pods[i]];
      }
    }
    assert pods[..|pods|] == pods;
  }

  method IsSelected(name: string, pods: seq<Pod>) returns (isExist: bool)
    ensures isExist <==> name in NamesOf(pods)
  {
    for i := 0 to |pods|
      invariant forall k :: 0 <= k < i ==> NamesOf(pods)[k] != name
    {
      if pods[i].name == name {
        assert NamesOf(pods)[i] == name;
        return true;
      }
    }
    return false;
  }

  lemma {:induction false} FillFull(pods: seq<Pod>, candidates: seq<Pod>)
    requires |pods| >= MAX_PODS
    ensures Fill(pods, candidates) == pods
    decreases |candidates|
  {
    if candidates != [] {
      FillFull(pods, candidates[1..]);
    }
  }

  method TopUp(okPods: seq<Pod>, filter: seq<Pod>) returns (pods: seq<Pod>)
    ensures pods == Fill(okPods, filter)
  {
    hide NamesOf;
    pods := okPods;
    for i := 0 to |filter|
      invariant Fill(pods, filter[i..]) == Fill(okPods, filter)
    {
      if |pods| >= MAX_PODS {
        FillFull(pods, filter[i..]);
        return;
      }
      assert filter[i..][1..] == filter[i + 1..];
      var isExist := IsSelected(filter[i].name, pods);
      if !isExist {
        pods := pods + [filter[i]];
      }
    }
  }

  /** What a poll learns of one pod. */
  function Marked(pod: Pod, reply: Reply): Pod {
    match reply
    case Unreachable => pod
    case Gone => pod.(phase := Delete)
    case Reported(phase) => if phase == Running then pod else pod.(phase := phase)
  }

  predicate Bad(reply: Reply) {
    reply.Gone? || (reply.Reported? && reply.phase != Running)
  }

  function ReplyOf(replies: map<string, Reply>, pod: Pod): Reply {
    if pod.name in replies then replies[pod.name] else Unreachable
  }

  function MarkAll(pods: seq<Pod>, replies: map<string, Reply>): (r: seq<Pod>)
    ensures |r| == |pods| && NamesOf(r) == NamesOf(pods)
    ensures forall i :: 0 <= i < |pods| ==> r[i] == Marked(pods[i], ReplyOf(replies, pods[i]))
  {
    seq(|pods|, i requires 0 <= i < |pods| => Marked(pods[i], ReplyOf(replies, pods[i])))
  }

  /** The selection after `selectPods`. */
  function Selected(pods: seq<Pod>, selector: map<string, string>, listing: Option<seq<Pod>>): seq<Pod> {
    if listing.None? then pods else Fill(StillRunning(pods), Candidates(selector, listing.value))
  }

  /** The stored service after `selectPods` moved the selection. */
  ghost function Recorded(config: Config, olds: seq<Pod>, news: seq<Pod>, isInit: bool): Config {
    if news == [] then
      if config.podNameAndIps != [] || isInit then Config([], Failed, NoPodsError) else config
    else if multiset(NamesOf(olds)) != multiset(NamesOf(news)) then
      Config(Stored(news), Running, if config.err == NoPodsError then "" else config.err)
    else config
  }

  /** What the stored service says of the selection. */
  ghost predicate Mirrors(config: Config, pods: seq<Pod>) {
    && multiset(StoredNames(config.podNameAndIps)) == multiset(NamesOf(pods))
    && (config.phase == Running <==> pods != [])
    && (pods == [] ==> config.phase == Failed && config.err == NoPodsError)
    && (pods != [] ==> config.err != NoPodsError)
  }

  lemma EmptyNames(names: seq<string>)
    ensures multiset(names) == multiset{} <==> names == []
  {
    assert |multiset(names)| == |names|;
  }

  /** Once the stored service mirrors the selection it always will; and it starts to as soon as
      there is something to store or to clear. */
  lemma RecordedMirrors(config: Config, olds: seq<Pod>, news: seq<Pod>, isInit: bool)
    requires Mirrors(config, olds) || (olds == [] && (isInit || news != [] || config.podNameAndIps != []))
    ensures Mirrors(Recorded(config, olds, news, isInit), news)
  {
    EmptyNames(NamesOf(olds));
    EmptyNames(NamesOf(news));
    EmptyNames(StoredNames(config.podNameAndIps));
    assert StoredNames(Stored(news)) == NamesOf(news);
    assert StoredNames([]) == [] && (news == [] ==> NamesOf(news) == []);
    assert olds == [] ==> NamesOf(olds) == [];
  }

  /** Whether `selectPods` uploads. */
  ghost predicate Uploads(config: Config, olds: seq<Pod>, news: seq<Pod>, isInit: bool) {
    isInit || if news == [] then config.podNameAndIps != [] else multiset(NamesOf(olds)) != multiset(NamesOf(news))
  }

  /** A mirroring service is uploaded exactly when the names change, and otherwise left alone. */
  lemma UploadsIffMoved(config: Config, olds: seq<Pod>, news: seq<Pod>)
    requires Mirrors(config, olds)
    ensures Uploads(config, olds, news, false) <==> multiset(NamesOf(olds)) != multiset(NamesOf(news))
    ensures !Uploads(config, olds, news, false) ==> Recorded(config, olds, news, false) == config
  {
    EmptyNames(NamesOf(olds));
    EmptyNames(NamesOf(news));
    EmptyNames(StoredNames(config.podNameAndIps));
  }

  lemma SelectedFacts(pods: seq<Pod>, selector: map<string, string>, listing: seq<Pod>)
    requires |pods| <= MAX_PODS && Distinct(NamesOf(pods))
    ensures var kept, r := StillRunning(pods), Selected(pods, selector, Some(listing));
            && |kept| <= |r| <= MAX_PODS && Distinct(NamesOf(r)) && r[..|kept|] == kept
            && (forall i :: |kept| <= i < |r| ==> r[i] in listing && Matches(selector, r[i]))
            && (|r| == MAX_PODS || forall p :: p in listing && Matches(selector, p) ==> p.name in NamesOf(r))
  {
    hide Distinct, NamesOf, Matches;
    StillRunningFacts(pods);
    FillFacts(StillRunning(pods), Candidates(selector, listing));
    CandidatesAre(selector, listing);
  }

  lemma {:induction false} CandidatesAre(selector: map<string, string>, listing: seq<Pod>)
    ensures forall p :: p in Candidates(selector, listing) <==> p in listing && Matches(selector, p)
  {
    if listing != [] {
      hide Matches;
      CandidatesAre(selector, listing[..|listing| - 1]);
      assert listing == listing[..|listing| - 1] + [listing[|listing| - 1]];
    }
  }

  lemma NoNames(pods: seq<Pod>)
    ensures multiset(NamesOf(pods)) == multiset{} <==> pods == []
  {
    EmptyNames(NamesOf(pods));
  }

  /** The stored service speaks of names only. */
  lemma NamesKept(was: seq<Pod>, now: seq<Pod>)
    ensures Distinct(NamesOf([]))
    ensures NamesOf(was) == NamesOf(now) ==> forall config :: Mirrors(config, was) <==> Mirrors(config, now)
  {
    assert NamesOf(was) == NamesOf(now) ==> |was| == |now|;
  }

  lemma Moves(config: Config, olds: seq<Pod>, news: seq<Pod>, isInit: bool, mirrored: bool)
    requires if mirrored then Mirrors(config, olds) else olds == []
    requires isInit ==> olds == []
    ensures if mirrored || Uploads(config, olds, news, isInit)
            then Mirrors(Recorded(config, olds, news, isInit), news) else news == []
    ensures !Uploads(config, olds, news, isInit) ==> Recorded(config, olds, news, isInit) == config
  {
    NoNames(olds);
    NoNames(news);
    if mirrored || Uploads(config, olds, news, isInit) {
      RecordedMirrors(config, olds, news, isInit);
    }
  }

  /** The branches of `selectPods` on the stored service. */
  method Record(config: Config, oldPods: seq<Pod>, pods: seq<Pod>, isInit: bool) returns (serviceConfig: Config,
                updateEtcd: bool)
    requires Distinct(NamesOf(oldPods)) && Distinct(NamesOf(pods))
    ensures serviceConfig == Recorded(config, oldPods, pods, isInit)
    ensures isInit || updateEtcd <==> Uploads(config, oldPods, pods, isInit)
  {
    hide Distinct, NamesOf;
    serviceConfig := config;
    updateEtcd := false;
    if pods == [] {
      if serviceConfig.podNameAndIps != [] {
        serviceConfig := Config([], Failed, NoPodsError);
        updateEtcd := true;
      } else if isInit {
        serviceConfig := Config([], Failed, NoPodsError);
      }
    } else {
      var different := CompareOldAndNew(oldPods, pods);
      if different {
        var replace := Stored(pods);
        serviceConfig := serviceConfig.(podNameAndIps := replace, phase := Running);
        if serviceConfig.err == NoPodsError {
          serviceConfig := serviceConfig.(err := "");
        }
        updateEtcd := true;
      }
    }
  }

  /** Running members stay, then matching pods of the listing join. */
  method Choose(selector: map<string, string>, listing: seq<Pod>, pods: seq<Pod>) returns (chosen: seq<Pod>)
    requires |pods| <= MAX_PODS && Distinct(NamesOf(pods))
    ensures chosen == Selected(pods, selector, Some(listing))
    ensures |chosen| <= MAX_PODS && Distinct(NamesOf(chosen))
  {
    hide Distinct, NamesOf;
    SelectedFacts(pods, selector, listing);
    var filter := Filter(selector, listing);
    var okPods := DropStopped(pods);
    chosen := TopUp(okPods, filter);
  }

  /** What mirrors a selection names no pod twice. */
  lemma NamedOnce(config: Config, pods: seq<Pod>)
    requires Mirrors(config, pods) && Distinct(NamesOf(pods))
    ensures Distinct(StoredNames(config.podNameAndIps))
  {
    var names := StoredNames(config.podNameAndIps);
    DistinctCount(NamesOf(pods));
    forall i, j | 0 <= i < j < |names|
      ensures names[i] != names[j]
    {
      assert names == names[..j] + [names[j]] + names[j + 1..];
      assert multiset(names)[names[j]] <= 1;
      assert names[i] in names[..j];
    }
  }

  /** The cluster did not say that the pod is gone or no longer runs. */
  predicate NotLost(replies: map<string, Reply>, name: string) {
    name in replies ==> replies[name] == Unreachable || replies[name] == Reported(Running)
  }

  /** What stays of the selected pods: those that ran and were not lost, and no others. */
  lemma StaysIff(pods: seq<Pod>, replies: map<string, Reply>)
    ensures forall p :: p in StillRunning(MarkAll(pods, replies)) <==>
                        p in pods && p.phase == Running && NotLost(replies, p.name)
  {
    hide StillRunning, NotLost;
    var marked := MarkAll(pods, replies);
    RunningAre(marked);
    forall p
      ensures p in marked && p.phase == Running <==> p in pods && p.phase == Running && NotLost(replies, p.name)
    {
      if p in marked && p.phase == Running {
        var i :| 0 <= i < |marked| && marked[i] == p;
        MarkedRuns(pods[i], replies);
        assert pods[i] in pods;
      }
      if p in pods && p.phase == Running && NotLost(replies, p.name) {
        var i :| 0 <= i < |pods| && pods[i] == p;
        MarkedRuns(pods[i], replies);
        assert marked[i] == p;
      }
    }
  }

  lemma MarkedRuns(pod: Pod, replies: map<string, Reply>)
    ensures var m := Marked(pod, ReplyOf(replies, pod));
            if pod.phase == Running && NotLost(replies, pod.name) then m == pod else m.phase != Running
  {
  }

  lemma {:induction false} RunningAre(pods: seq<Pod>)
    ensures forall p :: p in StillRunning(pods) <==> p in pods && p.phase == Running
  {
    if pods != [] {
      RunningAre(pods[..|pods| - 1]);
      assert pods == pods[..|pods| - 1] + [pods[|pods| - 1]];
    }
  }

  /** The pod runs and has every label of the selector. */
  predicate Selectable(selector: map<string, string>, pod: Pod) {
    pod.phase == Running && (forall k :: k in selector ==> k in pod.labels) && selector.Items <= pod.labels.Items
  }

  lemma SelectorMeans(selector: map<string, string>, pod: Pod)
    ensures Matches(selector, pod) <==> Selectable(selector, pod)
  {
    if selector.Items <= pod.labels.Items {
      forall k | k in selector
        ensures k in pod.labels && pod.labels[k] == selector[k]
      {
        assert (k, selector[k]) in selector.Items;
      }
    }
  }

  /** Who is selected after a poll: five at most; newcomers from the listing that can be selected; and of
      the old ones those not lost. */
  ghost predicate PolledFrom(olds: seq<Pod>, news: seq<Pod>, selector: map<string, string>, listing: seq<Pod>,
                             replies: map<string, Reply>) {
    && |news| <= 5
    && (forall p :: p in news ==> (p in listing && Selectable(selector, p)) || (p in olds && NotLost(replies, p.name)))
    && (forall p :: p in olds && p.phase == Running && NotLost(replies, p.name) ==> p in news)
  }

  lemma SelectedPolled(olds: seq<Pod>, selector: map<string, string>, listing: seq<Pod>, replies: map<string, Reply>)
    requires |olds| <= MAX_PODS && Distinct(NamesOf(olds))
    ensures PolledFrom(olds, Selected(MarkAll(olds, replies), selector, Some(listing)), selector, listing, replies)
  {
    hide Distinct, NamesOf, Matches, Selectable, NotLost, StillRunning, Selected;
    var marked := MarkAll(olds, replies);
    var kept, news := StillRunning(marked), Selected(marked, selector, Some(listing));
    StaysIff(olds, replies);
    SelectedFacts(marked, selector, listing);
    forall p | p in news
      ensures (p in listing && Selectable(selector, p)) || (p in olds && NotLost(replies, p.name))
    {
      var i :| 0 <= i < |news| && news[i] == p;
      if i < |kept| {
        assert p == kept[i];
      } else {
        SelectorMeans(selector, p);
      }
    }
    forall p | p in kept
      ensures p in news
    {
      var i :| 0 <= i < |kept| && kept[i] == p;
      assert news[..|kept|][i] == news[i];
    }
  }

  /** A poll that finds nothing lost among five pods leaves them. */
  lemma UnlostPolled(olds: seq<Pod>, selector: map<string, string>, listing: seq<Pod>, replies: map<string, Reply>)
    requires |olds| <= MAX_PODS && forall i :: 0 <= i < |olds| ==> !Bad(ReplyOf(replies, olds[i]))
    ensures PolledFrom(olds, olds, selector, listing, replies)
  {
  }

  lemma NoneLost(pods: seq<Pod>, replies: map<string, Reply>)
    ensures (forall p :: p in pods ==> NotLost(replies, p.name)) ==>
              forall i :: 0 <= i < |pods| ==> !Bad(ReplyOf(replies, pods[i]))
  {
    assert forall i :: 0 <= i < |pods| ==> pods[i] in pods;
  }

  class RuntimeService {
    const selector: map<string, string>
    var serviceConfig: Config
    var pods: seq<Pod>
    /** The copy in etcd, and whether the last upload tried reached it. */
    var uploaded: Option<Config>
    ghost var lastUploadOk: bool
    /** Set by the first listing that succeeds, unless that comes after the first and finds neither
        pods to select nor stored ones to clear. */
    ghost var mirrored: bool
    /** The stored service the poll loop was started with. */
    ghost const initial: Config

    ghost predicate Valid()
      reads this
    {
      && |pods| <= MAX_PODS && Distinct(NamesOf(pods))
      && (if mirrored then Mirrors(serviceConfig, pods) else pods == [] && serviceConfig == initial)
      && (lastUploadOk ==> uploaded == Some(serviceConfig))
      && (uploaded.Some? ==> Distinct(StoredNames(uploaded.value.podNameAndIps)))
    }

    constructor (selector: map<string, string>, serviceConfig: Config, listing: Option<seq<Pod>>, uploadOk: bool)
      ensures Valid() && this.selector == selector && initial == serviceConfig && mirrored == listing.Some?
              && lastUploadOk == (listing.Some? && uploadOk)
      ensures pods == Selected([], selector, listing)
      ensures listing.Some? ==> this.serviceConfig == Recorded(serviceConfig, [], pods, true)
      ensures listing.None? ==> this.serviceConfig == serviceConfig
    {
      this.selector := selector;
      this.initial := serviceConfig;
      this.serviceConfig := serviceConfig;
      this.pods := [];
      this.uploaded := None;
      this.lastUploadOk, this.mirrored := false, false;
      new;
      assert StillRunning([]) == [];
      NamesKept([], []);
      var _ := SelectPods(true, listing, uploadOk);
    }

    /** `listing` and `uploadOk` are what the apiserver answers to the list and to the upload. */
    method SelectPods(isInit: bool, listing: Option<seq<Pod>>, uploadOk: bool) returns (ok: bool)
      requires Valid() && (isInit ==> pods == [])
      modifies this
      ensures Valid()
      ensures pods == Selected(old(pods), selector, listing)
      ensures serviceConfig == if listing.Some? then Recorded(old(serviceConfig), old(pods), pods, isInit)
              else old(serviceConfig)
      ensures var tried := listing.Some? && Uploads(old(serviceConfig), old(pods), pods, isInit);
              && uploaded == (if tried && uploadOk then Some(serviceConfig) else old(uploaded))
              && lastUploadOk == (if tried then uploadOk else old(lastUploadOk))
              && mirrored == (old(mirrored) || tried)
              && ok == (listing.Some? && (tried ==> uploadOk))
    {
      hide Distinct, NamesOf, Mirrors, Recorded, Uploads, Fill, StillRunning, Candidates;
      if listing.None? {
        return false;
      }
      var oldPods := pods;
      pods := Choose(selector, listing.value, pods);
      Moves(serviceConfig, oldPods, pods, isInit, mirrored);
      var updateEtcd;
      serviceConfig, updateEtcd := Record(serviceConfig, oldPods, pods, isInit);
      ok := true;
      if isInit || updateEtcd {
        ok := uploadOk;
        lastUploadOk := uploadOk;
        mirrored := true;
        if uploadOk {
          uploaded := Some(serviceConfig);
          NamedOnce(serviceConfig, pods);
        }
      }
    }

    /** One poll; `replies` are the answers of `GetRuntimePod`. */
    method Poll(replies: map<string, Reply>, listing: Option<seq<Pod>>, uploadOk: bool)
      requires Valid()
      modifies this
      ensures Valid()
      ensures var marked := MarkAll(old(pods), replies);
              var asks := |old(pods)| < MAX_PODS || exists i :: 0 <= i < |old(pods)|
                                                                && Bad(ReplyOf(replies, old(pods)[i]));
              && pods == (if asks then Selected(marked, selector, listing) else old(pods))
              && serviceConfig == if asks && listing.Some? then Recorded(old(serviceConfig), marked, pods, false)
                 else old(serviceConfig)
      ensures listing.Some? ==> |pods| == 5 || forall p :: p in listing.value && Matches(selector, p) ==>
              p.name in NamesOf(pods)
      ensures listing.Some? ==> PolledFrom(old(pods), pods, selector, listing.value, replies)
      ensures listing.None? ==> NamesOf(pods) == NamesOf(old(pods)) && serviceConfig == old(serviceConfig)
      ensures |old(pods)| == 5 && (forall p :: p in old(pods) ==> NotLost(replies, p.name)) ==>
                pods == old(pods) && serviceConfig == old(serviceConfig) && uploaded == old(uploaded)
      ensures mirrored && pods == [] ==> serviceConfig == Config([], Failed, "NoPodsError")
      ensures mirrored && pods != [] ==> serviceConfig.phase == Running && serviceConfig.err != "NoPodsError"
      ensures mirrored <==> old(mirrored) || Wakes(selector, initial, listing)
      ensures old(mirrored) && multiset(NamesOf(pods)) == multiset(NamesOf(old(pods))) ==>
                serviceConfig == old(serviceConfig) && uploaded == old(uploaded)
      ensures lastUploadOk ==> uploaded == Some(serviceConfig)
      ensures old(lastUploadOk) && uploadOk ==> lastUploadOk
    {
      hide Distinct, NamesOf, Mirrors, Matches, PolledFrom, Fill, StillRunning, Candidates, NotLost, Bad, Marked;
      ghost var was, before := pods, serviceConfig;
      ghost var marked := MarkAll(was, replies);
      if listing.Some? {
        SelectedFacts(marked, selector, listing.value);
        SelectedPolled(was, selector, listing.value, replies);
      }
      if pods == [] {
        assert marked == [];
        FoundSome(selector, listing);
        var _ := SelectPods(false, listing, uploadOk);
        Settled(before, marked, pods, old(mirrored));
      } else {
        var callSelect := CheckPods(replies);
        if callSelect || |pods| < MAX_PODS {
          var _ := SelectPods(false, listing, uploadOk);
          Settled(before, marked, pods, old(mirrored));
        } else {
          assert pods == was;
          if listing.Some? {
            UnlostPolled(was, selector, listing.value, replies);
          }
        }
      }
      if mirrored {
        MirrorsSays(serviceConfig, pods);
      }
      NoneLost(was, replies);
    }

    /** Phases that are no longer Running are noted on the selected pods. */
    method CheckPods(replies: map<string, Reply>) returns (callSelect: bool)
      requires Valid()
      modifies this`pods
      ensures Valid()
      ensures pods == MarkAll(old(pods), replies)
      ensures callSelect <==> exists i :: 0 <= i < |old(pods)| && Bad(ReplyOf(replies, old(pods)[i]))
      ensures !callSelect ==> pods == old(pods)
    {
      hide Distinct, Mirrors;
      callSelect := false;
      ghost var was := pods;
      for i := 0 to |pods|
        invariant |pods| == |was|
        invariant forall k :: 0 <= k < i ==> pods[k] == Marked(was[k], ReplyOf(replies, was[k]))
        invariant forall k :: i <= k < |was| ==> pods[k] == was[k]
        invariant callSelect <==> exists k :: 0 <= k < i && Bad(ReplyOf(replies, was[k]))
      {
        var reply := ReplyOf(replies, pods[i]);
        if reply.Gone? {
          pods := pods[i := pods[i].(phase := Delete)];
          callSelect := true;
        } else if reply.Reported? && reply.phase != Running {
          pods := pods[i := pods[i].(phase := reply.phase)];
          callSelect := true;
        }
      }
      assert pods == MarkAll(was, replies);
      NamesKept(was, pods);
    }
  }

  /** An error that is not about missing pods stays as long as there are pods. */
  lemma ErrorKept(config: Config, olds: seq<Pod>, news: seq<Pod>, isInit: bool)
    requires news != [] && config.err != "NoPodsError"
    ensures Recorded(config, olds, news, isInit).err == config.err
  {
  }

  lemma MirrorsSays(config: Config, pods: seq<Pod>)
    requires Mirrors(config, pods)
    ensures pods == [] ==> config == Config([], Failed, "NoPodsError")
    ensures pods != [] ==> config.phase == Running && config.err != "NoPodsError"
  {
    NoNames(pods);
    EmptyNames(StoredNames(config.podNameAndIps));
  }

  lemma Settled(config: Config, olds: seq<Pod>, news: seq<Pod>, mirrored: bool)
    requires if mirrored then Mirrors(config, olds) else olds == []
    ensures mirrored ==> (Uploads(config, olds, news, false) <==> multiset(NamesOf(olds)) != multiset(NamesOf(news)))
    ensures mirrored && !Uploads(config, olds, news, false) ==> Recorded(config, olds, news, false) == config
    ensures !mirrored ==> (Uploads(config, olds, news, false) <==> news != [] || config.podNameAndIps != [])
  {
    NoNames(olds);
    NoNames(news);
    if mirrored {
      UploadsIffMoved(config, olds, news);
    }
  }

  /** A listing after which the stored service mirrors the selection: there is a pod to select or
      a stored one to clear. */
  ghost predicate Wakes(selector: map<string, string>, initial: Config, listing: Option<seq<Pod>>) {
    listing.Some? && (initial.podNameAndIps != [] || exists p :: p in listing.value && Matches(selector, p))
  }

  /** From nothing selected, a listing leaves nothing selected exactly when nothing matches. */
  lemma FoundSome(selector: map<string, string>, listing: Option<seq<Pod>>)
    ensures listing.Some? ==>
            (Selected([], selector, listing) != [] <==> exists p :: p in listing.value && Matches(selector, p))
  {
    if listing.Some? {
      NamesKept([], []);
      SelectedFacts([], selector, listing.value);
      hide Matches, Distinct, Fill, Candidates;
      var r := Selected([], selector, listing);
      if r != [] {
        assert r[0] in listing.value && Matches(selector, r[0]);
      } else {
        assert NamesOf(r) == [];
      }
    }
  }

  datatype Round = Round(replies: map<string, Reply>, listing: Option<seq<Pod>>, uploadOk: bool)

  /** Any sequence of polls. Where the first listing failed, the stored service mirrors the selection
      from the first listing that wakes it on; until then only if it did so by itself. */
  method Watch(selector: map<string, string>, config: Config, first: Option<seq<Pod>>, firstOk: bool,
               rounds: seq<Round>)
      returns (service: RuntimeService)
    ensures fresh(service) && service.Valid()
    ensures Mirrors(service.serviceConfig, service.pods) <==>
              || first.Some? || Mirrors(config, [])
              || exists i :: 0 <= i < |rounds| && Wakes(selector, config, rounds[i].listing)
    ensures first.Some? && firstOk && (forall i :: 0 <= i < |rounds| ==> rounds[i].uploadOk) ==>
              service.uploaded == Some(service.serviceConfig)
    ensures rounds != [] && rounds[|rounds| - 1].listing.Some? ==>
              || |service.pods| == 5
              || forall p :: p in rounds[|rounds| - 1].listing.value && Matches(selector, p) ==>
                p.name in NamesOf(service.pods)
  {
    hide Mirrors, Distinct, Matches, Wakes;
    service := new RuntimeService(selector, config, first, firstOk);
    for i := 0 to |rounds|
      invariant fresh(service) && service.Valid() && service.selector == selector
      invariant service.initial == config
      invariant service.mirrored <==> first.Some? || exists k :: 0 <= k < i
                                                                 && Wakes(selector, config, rounds[k].listing)
      invariant first.Some? && firstOk && (forall k :: 0 <= k < i ==> rounds[k].uploadOk) ==> service.lastUploadOk
      invariant i > 0 && rounds[i - 1].listing.Some? ==>
              || |service.pods| == 5
              || forall p :: p in rounds[i - 1].listing.value && Matches(selector, p) ==>
                p.name in NamesOf(service.pods)
    {
      service.Poll(rounds[i].replies, rounds[i].listing, rounds[i].uploadOk);
    }
  }

  /** A service that was stored as running without pods goes on saying so after a failed listing. */
  lemma StillSaysRunning()
    ensures !Mirrors(Config([], Running, ""), []) && !Wakes(map[], Config([], Running, ""), Some([]))
  {
  }
}
