/** When the addresses a service stores are those its pods have now. Pods are told apart by name only,
    so a pod that comes back elsewhere is easily missed. */
module ServiceAddresses {
  import opened Objects
  import opened Options
  import opened ServiceSelection
  import Proxy = ProxySpec

  /** The stored service gives the addresses of the selected pods. */
  ghost predicate Current(config: Config, pods: seq<Pod>) {
    multiset(config.podNameAndIps) == multiset(Stored(pods))
  }

  ghost predicate SameAddresses(olds: seq<Pod>, news: seq<Pod>) {
    forall i, j :: 0 <= i < |olds| && 0 <= j < |news| && olds[i].name == news[j].name ==> olds[i].ip == news[j].ip
  }

  lemma StoredOnce(pods: seq<Pod>, e: PodNameAndIp)
    requires Distinct(NamesOf(pods))
    ensures multiset(Stored(pods))[e] == if e in Stored(pods) then 1 else 0
  {
    StoredDistinct(pods, Stored(pods), e);
  }

  lemma {:induction false} StoredDistinct(pods: seq<Pod>, stored: seq<PodNameAndIp>, e: PodNameAndIp)
    requires Distinct(NamesOf(pods)) && |stored| <= |pods| && stored == Stored(pods)[..|stored|]
    ensures multiset(stored)[e] == if e in stored then 1 else 0
  {
    if stored != [] {
      var front, last := stored[..|stored| - 1], stored[|stored| - 1];
      assert stored == front + [last];
      StoredDistinct(pods, front, e);
      forall i | 0 <= i < |front|
        ensures front[i] != last
      {
        assert NamesOf(pods)[i] != NamesOf(pods)[|front|];
      }
    }
  }

  lemma NamedIn(pods: seq<Pod>, name: string) returns (i: nat)
    requires name in NamesOf(pods)
    ensures i < |pods| && pods[i].name == name
  {
    i :| 0 <= i < |pods| && NamesOf(pods)[i] == name;
  }

  /** Pods with the same names are stored alike exactly when they have the same addresses. */
  lemma StoredAlike(olds: seq<Pod>, news: seq<Pod>)
    requires Distinct(NamesOf(olds)) && Distinct(NamesOf(news)) && multiset(NamesOf(olds)) == multiset(NamesOf(news))
    ensures multiset(Stored(olds)) == multiset(Stored(news)) <==> SameAddresses(olds, news)
  {
    hide Distinct;
    if SameAddresses(olds, news) {
      forall e
        ensures multiset(Stored(olds))[e] == multiset(Stored(news))[e]
      {
        StoredOnce(olds, e);
        StoredOnce(news, e);
        StoredIn(olds, news, e);
        StoredIn(news, olds, e);
      }
    }
    if multiset(Stored(olds)) == multiset(Stored(news)) {
      forall i, j | 0 <= i < |olds| && 0 <= j < |news| && olds[i].name == news[j].name
        ensures olds[i].ip == news[j].ip
      {
        assert Stored(olds)[i] in multiset(Stored(news));
        var k :| 0 <= k < |news| && Stored(news)[k] == Stored(olds)[i];
        SamePlace(news, j, k);
      }
    }
  }

  lemma SamePlace(pods: seq<Pod>, j: nat, k: nat)
    requires Distinct(NamesOf(pods)) && j < |pods| && k < |pods| && pods[j].name == pods[k].name
    ensures j == k
  {
    assert NamesOf(pods)[j] == NamesOf(pods)[k];
  }

  lemma StoredIn(olds: seq<Pod>, news: seq<Pod>, e: PodNameAndIp)
    requires SameAddresses(olds, news) && multiset(NamesOf(olds)) == multiset(NamesOf(news))
    ensures e in Stored(olds) ==> e in Stored(news)
  {
    if e in Stored(olds) {
      var i :| 0 <= i < |olds| && Stored(olds)[i] == e;
      assert NamesOf(olds)[i] in multiset(NamesOf(news));
      var j := NamedIn(news, olds[i].name);
      assert Stored(news)[j] == e;
    }
  }

  /** After a selection the stored addresses are the selected pods' exactly when the names moved, or
      no name changed its address. */
  lemma CurrentIff(config: Config, olds: seq<Pod>, news: seq<Pod>)
    requires Distinct(NamesOf(olds)) && Distinct(NamesOf(news)) && Mirrors(config, olds) && Current(config, olds)
    ensures Current(Recorded(config, olds, news, false), news) <==>
            multiset(NamesOf(olds)) != multiset(NamesOf(news)) || SameAddresses(olds, news)
  {
    hide Distinct;
    NoNames(olds);
    NoNames(news);
    UploadsIffMoved(config, olds, news);
    if multiset(NamesOf(olds)) == multiset(NamesOf(news)) {
      StoredAlike(olds, news);
    } else if news == [] {
      assert Stored(news) == [];
    }
  }

  /** The stored addresses are those the listing gives its running pods. */
  ghost predicate Agrees(stored: seq<PodNameAndIp>, listing: seq<Pod>) {
    forall i, j :: 0 <= i < |stored| && 0 <= j < |listing| && listing[j].phase == Running
                   && stored[i].name == listing[j].name ==>
      stored[i].ip == listing[j].ip
  }

  /** So are the addresses of these pods. */
  ghost predicate UpToDate(pods: seq<Pod>, listing: seq<Pod>) {
    forall i, j :: 0 <= i < |pods| && 0 <= j < |listing| && listing[j].phase == Running
                   && pods[i].name == listing[j].name ==>
      pods[i].ip == listing[j].ip
  }

  lemma AgreesStored(pods: seq<Pod>, listing: seq<Pod>)
    ensures Agrees(Stored(pods), listing) <==> UpToDate(pods, listing)
  {
    if Agrees(Stored(pods), listing) {
      assert forall i :: 0 <= i < |pods| ==> Stored(pods)[i].name == pods[i].name && Stored(pods)[i].ip == pods[i].ip;
    }
  }

  /** Pods taken from a listing are up to date with it, so the others decide. */
  lemma TakenUpToDate(kept: seq<Pod>, r: seq<Pod>, listing: seq<Pod>)
    requires |kept| <= |r| && r[..|kept|] == kept && Distinct(NamesOf(listing))
    requires forall i :: |kept| <= i < |r| ==> r[i] in listing
    ensures UpToDate(r, listing) <==> UpToDate(kept, listing)
  {
    hide Distinct, NamesOf;
    assert forall i :: 0 <= i < |kept| ==> kept[i] == r[i];
    forall i, j | |kept| <= i < |r| && 0 <= j < |listing| && r[i].name == listing[j].name
      ensures r[i].ip == listing[j].ip
    {
      var k :| 0 <= k < |listing| && listing[k] == r[i];
      SamePlace(listing, j, k);
    }
  }

  /** A selection is up to date with its listing exactly when the pods it kept were. */
  lemma SelectedUpToDate(pods: seq<Pod>, selector: map<string, string>, listing: seq<Pod>)
    requires |pods| <= MAX_PODS && Distinct(NamesOf(pods)) && Distinct(NamesOf(listing))
    ensures UpToDate(Selected(pods, selector, Some(listing)), listing) <==> UpToDate(StillRunning(pods), listing)
  {
    hide Matches, Distinct, UpToDate, Selected, StillRunning, NamesOf;
    SelectedFacts(pods, selector, listing);
    TakenUpToDate(StillRunning(pods), Selected(pods, selector, Some(listing)), listing);
  }

  /** What a selection from a listing stores agrees with that listing exactly when, the names having
      moved, the pods it kept were up to date, or, the names being the same, all that was stored was.
      So a pod that restarted between two polls, or came back under its name, goes unnoticed as
      long as the names stay. */
  lemma AgreesIff(config: Config, pods: seq<Pod>, selector: map<string, string>, listing: seq<Pod>)
    requires |pods| <= MAX_PODS && Distinct(NamesOf(pods)) && Distinct(NamesOf(listing)) && Mirrors(config, pods)
    ensures var news := Selected(pods, selector, Some(listing));
            Agrees(Recorded(config, pods, news, false).podNameAndIps, listing) <==>
            if multiset(NamesOf(pods)) != multiset(NamesOf(news)) then UpToDate(StillRunning(pods), listing)
            else Agrees(config.podNameAndIps, listing)
  {
    hide Distinct, Matches, StillRunning, Selected, Agrees, UpToDate;
    var news := Selected(pods, selector, Some(listing));
    NoNames(pods);
    NoNames(news);
    UploadsIffMoved(config, pods, news);
    SelectedUpToDate(pods, selector, listing);
    AgreesStored(news, listing);
    if multiset(NamesOf(pods)) != multiset(NamesOf(news)) && news == [] {
      assert Stored(news) == [];
    }
  }

  /** Each name has one address for good, and these pods have it. */
  ghost predicate AtHome(pods: seq<Pod>, home: string -> string) {
    forall i :: 0 <= i < |pods| ==> pods[i].ip == home(pods[i].name)
  }

  ghost predicate StoredAtHome(stored: seq<PodNameAndIp>, home: string -> string) {
    forall i :: 0 <= i < |stored| ==> stored[i].ip == home(stored[i].name)
  }

  lemma SelectedAtHome(pods: seq<Pod>, selector: map<string, string>, listing: seq<Pod>, home: string -> string)
    requires |pods| <= MAX_PODS && Distinct(NamesOf(pods)) && AtHome(pods, home) && AtHome(listing, home)
    ensures AtHome(Selected(pods, selector, Some(listing)), home)
  {
    hide Distinct, Matches, Selected, NamesOf, StillRunning;
    StillRunningFacts(pods);
    SelectedFacts(pods, selector, listing);
    var kept, news := StillRunning(pods), Selected(pods, selector, Some(listing));
    forall i | 0 <= i < |news|
      ensures news[i].ip == home(news[i].name)
    {
      if i < |kept| {
        assert news[i] == kept[i] && kept[i] in pods;
      } else {
        assert news[i] in listing;
      }
    }
  }

  /** As long as no name changes its address, what is stored is right. */
  lemma HomeKept(config: Config, pods: seq<Pod>, replies: map<string, Reply>, selector: map<string, string>,
                 listing: seq<Pod>,
                 home: string -> string)
    requires |pods| <= MAX_PODS && Distinct(NamesOf(pods)) && AtHome(pods, home) && AtHome(listing, home)
    ensures var marked := MarkAll(pods, replies);
            var news := Selected(marked, selector, Some(listing));
            && AtHome(marked, home) && AtHome(news, home)
            && (StoredAtHome(config.podNameAndIps, home) ==>
               StoredAtHome(Recorded(config, marked, news, false).podNameAndIps, home))
            && (pods == [] ==> StoredAtHome(Recorded(config, [], news, true).podNameAndIps, home))
  {
    hide Distinct, Selected, NamesOf;
    var marked := MarkAll(pods, replies);
    var news := Selected(marked, selector, Some(listing));
    SelectedAtHome(marked, selector, listing, home);
    NoNames([]);
    NoNames(news);
  }

  /** Any sequence of polls over a cluster in which no name changes its address. Where the first
      listing fails, the service has to be stored with the right addresses from the start. */
  method WatchAtHome(selector: map<string, string>, config: Config, first: Option<seq<Pod>>, firstOk: bool,
                     rounds: seq<Round>, ghost home: string -> string)
    returns (service: RuntimeService)
    requires if first.Some? then AtHome(first.value, home) else StoredAtHome(config.podNameAndIps, home)
    requires forall i :: 0 <= i < |rounds| && rounds[i].listing.Some? ==> AtHome(rounds[i].listing.value, home)
    ensures fresh(service) && service.Valid()
    ensures AtHome(service.pods, home) && StoredAtHome(service.serviceConfig.podNameAndIps, home)
  {
    hide Distinct, Mirrors, Matches, Wakes, Fill, StillRunning, Candidates, Recorded, AtHome, StoredAtHome;
    NobodyAtHome(home);
    NamesKept([], []);
    HomeKept(config, [], map[], selector, if first.Some? then first.value else [], home);
    assert MarkAll([], map[]) == [];
    service := new RuntimeService(selector, config, first, firstOk);
    for i := 0 to |rounds|
      invariant fresh(service) && service.Valid() && service.selector == selector
      invariant AtHome(service.pods, home) && StoredAtHome(service.serviceConfig.podNameAndIps, home)
    {
      var r := rounds[i];
      ghost var listing := if r.listing.Some? then r.listing.value else [];
      HomeKept(service.serviceConfig, service.pods, r.replies, selector, listing, home);
      service.Poll(r.replies, r.listing, r.uploadOk);
    }
  }

  lemma NobodyAtHome(home: string -> string)
    ensures AtHome([], home)
  {
  }

  /** A pod deleted and created again under its name, between or during polls, whatever the selector. */
  lemma StaleAddress(selector: map<string, string>, was: Pod, now: Pod)
    requires was.name == now.name && Matches(selector, now) && was.ip != now.ip
    ensures var config := Config(Stored([was]), Running, "");
            && Mirrors(config, [was]) && Current(config, [was])
            && Selected([was.(phase := Delete)], selector, Some([now])) == [now]
            && !Current(Recorded(config, [was.(phase := Delete)], [now], false), [now])
            && !Agrees(Recorded(config, [was.(phase := Delete)], [now], false).podNameAndIps, [now])
  {
    var config, gone := Config(Stored([was]), Running, ""), was.(phase := Delete);
    assert NamesOf([was]) == NamesOf([gone]) == NamesOf([now]) == StoredNames(Stored([was])) == [was.name];
    assert Stored([gone]) == Stored([was]);
    Reselected(selector, gone, now);
    CurrentIff(config, [gone], [now]);
    assert Recorded(config, [gone], [now], false) == config;
    assert config.podNameAndIps[0].ip != [now][0].ip;
  }

  /** A pod that restarted elsewhere and is reported running keeps its old object, stale address and all. */
  lemma StaleMember(selector: map<string, string>, was: Pod, now: Pod)
    requires was.name == now.name && was.phase == now.phase == Running && was.ip != now.ip
    ensures Selected(MarkAll([was], map[was.name := Reported(Running)]), selector, Some([now])) == [was]
    ensures !UpToDate([was], [now])
  {
    var marked := MarkAll([was], map[was.name := Reported(Running)]);
    assert marked == [was];
    RunsAlone(was);
    NotAgain(selector, was, now);
    assert [was][0].ip != [now][0].ip;
  }

  lemma RunsAlone(pod: Pod)
    requires pod.phase == Running
    ensures StillRunning([pod]) == [pod]
  {
    assert [pod][..0] == [];
  }

  lemma NotAgain(selector: map<string, string>, was: Pod, now: Pod)
    requires was.name == now.name
    ensures Fill([was], Candidates(selector, [now])) == [was]
  {
    hide Matches;
    assert [now][..0] == [] && Candidates(selector, []) == [] && Fill([was], []) == [was];
    var c := Candidates(selector, [now]);
    assert NamesOf([was])[0] == now.name;
    if Matches(selector, now) {
      assert c == [now] && c[1..] == [];
    } else {
      assert c == [];
    }
  }

  lemma Reselected(selector: map<string, string>, gone: Pod, now: Pod)
    requires gone.phase == Delete && Matches(selector, now)
    ensures Selected([gone], selector, Some([now])) == [now]
  {
    assert [gone][..0] == [] && [now][..0] == [];
    assert StillRunning([gone]) == [];
    assert Candidates(selector, [now]) == [now];
    assert NamesOf([]) == [];
    assert [] + [now] == [now];
    assert Fill([now], [now][1..]) == [now];
  }

  /** The events kube-proxy sees of what was uploaded never name a pod twice. */
  lemma EventsNameOnce(config: Config, key: string, spec: Proxy.ServiceSpec)
    requires Distinct(StoredNames(config.podNameAndIps)) && spec.pods == config.podNameAndIps
    ensures Proxy.PodsDiffer(Proxy.Put(key, spec))
  {
    assert forall i :: 0 <= i < |spec.pods| ==> StoredNames(config.podNameAndIps)[i] == spec.pods[i].name;
  }
}
