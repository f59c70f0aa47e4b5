/** The cluster IP allocator: a cursor over 10.10.0.1, 10.10.0.2, ... that skips held addresses, and
    one table of names and addresses shared by chosen and requested addresses. */
module ClusterIp {
  import opened Collections
  import opened Decimal
  import Dotted

  const BASE := "10.10"

  function Address(third: nat, fourth: nat): string {
    Dotted.WithDot(BASE, Dotted.WithDot(Render(third), Render(fourth)))
  }

  /** The address of a position of the cursor. */
  function At(p: nat): string {
    Address(p / 256, p % 256)
  }

  lemma AtInjective(p: nat, q: nat)
    requires At(p) == At(q)
    ensures p == q
  {
    hide Dotted.WithDot, Render;
    Dotted.WithDotParts(BASE, Dotted.WithDot(Render(p / 256), Render(p % 256)));
    Dotted.WithDotParts(BASE, Dotted.WithDot(Render(q / 256), Render(q % 256)));
    Dotted.NumeralHasNoDot(p / 256);
    Dotted.NumeralHasNoDot(q / 256);
    Dotted.SameHead(Render(p / 256), Render(p % 256), Render(q / 256), Render(q % 256));
    RenderInjective(p / 256, q / 256);
    RenderInjective(p % 256, q % 256);
  }

  /** The address of a position reads 10, 10, and the two digits of the position to base 256. */
  lemma ReadsBack(p: nat, f: Dotted.Fields)
    requires Dotted.Split(f) && f.a + "." + f.b + "." + f.c + "." + f.d == At(p)
    ensures f.a == "10" && f.b == "10" && Numeral(f.c) && Numeral(f.d)
    ensures Value(f.c) == p / 256 && Value(f.d) == p % 256
  {
    var g := Dotted.Fields("10", "10", Render(p / 256), Render(p % 256));
    ValueOfRender(p / 256);
    ValueOfRender(p % 256);
    TwoFields(Dotted.WithDot(g.c, g.d));
    hide Dotted.WithDot, Render;
    Dotted.Joined(f);
    Dotted.NumeralHasNoDot(p / 256);
    Dotted.SplitUnique(f, g);
  }

  lemma TwoFields(rest: string)
    ensures Dotted.WithDot("10.10", rest) == Dotted.WithDot("10", Dotted.WithDot("10", rest))
  {
    assert "10.10" == "10" + "." + "10";
    assert "10" + "." + "10" + "." + rest == "10" + "." + ("10" + "." + rest);
  }

  /** Taking a chosen address apart gives that. */
  method FieldsOf(p: nat) returns (f: Dotted.Fields)
    ensures f.a == "10" && f.b == "10" && Numeral(f.c) && Numeral(f.d)
    ensures Value(f.c) == p / 256 && Value(f.d) == p % 256
  {
    hide Dotted.Dots, Dotted.WithDot, Render, At;
    AtHasDots(p);
    var r := Dotted.GetFourField(At(p));
    f := r.value;
    ReadsBack(p, f);
  }

  lemma AtHasDots(p: nat)
    ensures Dotted.Dots(At(p)) >= 3
  {
    TwoFields(Dotted.WithDot(Render(p / 256), Render(p % 256)));
    Dotted.ThreeDots(Dotted.Fields("10", "10", Render(p / 256), Render(p % 256)));
  }

  /** Taken addresses the cursor has still before it. */
  ghost function Ahead(taken: set<string>, cursor: nat): set<string> {
    set v | v in taken && exists p :: p >= cursor && v == At(p)
  }

  lemma AheadSkips(taken: set<string>, cursor: nat)
    ensures Ahead(taken, cursor + 1) == Ahead(taken, cursor) - {At(cursor)}
    ensures At(cursor) in Ahead(taken, cursor) <==> At(cursor) in taken
    ensures |Ahead(taken, cursor + 1)| == |Ahead(taken, cursor)| - if At(cursor) in taken then 1 else 0
  {
    hide At;
    var here, next := Ahead(taken, cursor), Ahead(taken, cursor + 1);
    forall v
      ensures v in next <==> v in here && v != At(cursor)
    {
      if p :| p >= cursor + 1 && v == At(p) {
        if v == At(cursor) {
          AtInjective(p, cursor);
        }
      } else if v != At(cursor) {
        assert forall p :: p >= cursor && v == At(p) ==> p >= cursor + 1;
      }
    }
    assert next == here - {At(cursor)};
  }

  /** The first position from the cursor on whose address nobody holds. */
  ghost function FirstFree(taken: set<string>, cursor: nat): nat
    decreases |Ahead(taken, cursor)|
  {
    AheadSkips(taken, cursor);
    if At(cursor) in taken then FirstFree(taken, cursor + 1) else cursor
  }

  lemma {:induction false} FirstFreeIsFirst(taken: set<string>, cursor: nat)
    ensures var p := FirstFree(taken, cursor);
            && p >= cursor && At(p) !in taken && (forall q :: cursor <= q < p ==> At(q) in taken)
            && p + |Ahead(taken, p + 1)| == cursor + |Ahead(taken, cursor)|
    decreases |Ahead(taken, cursor)|
  {
    hide At, Ahead;
    AheadSkips(taken, cursor);
    if At(cursor) in taken {
      FirstFreeIsFirst(taken, cursor + 1);
    }
  }

  datatype Request = Request(name: string, clusterIp: string)

  datatype Answer = Answer(ok: bool, clusterIp: string)

  datatype Store = Store(held: map<string, string>, cursor: nat)

  /** What the store is after a request. */
  ghost function Judge(s: Store, r: Request): Store {
    if r.clusterIp == "" then
      if r.name in s.held then s
      else
        var p := FirstFree(s.held.Values, s.cursor);
        Store(s.held[r.name := At(p)], p + 1)
    else if r.clusterIp in s.held.Values then s
    else Store(s.held[r.name := r.clusterIp], s.cursor)
  }

  /** What the caller is told. */
  ghost function Told(s: Store, r: Request): Answer {
    if r.clusterIp == "" then Answer(true, Judge(s, r).held[r.name])
    else Answer(r.name in Judge(s, r).held && Judge(s, r).held[r.name] == r.clusterIp, r.clusterIp)
  }

  /** `isExist`: the map is visited in any order. */
  method IsExist(m: map<string, string>, val: string) returns (found: bool)
    ensures found <==> val in m.Values
  {
    var unseen := m.Keys;
    while unseen != {}
      invariant unseen <= m.Keys
      invariant forall k :: k in m.Keys && k !in unseen ==> m[k] != val
    {
      var k :| k in unseen;
      if m[k] == val {
        return true;
      }
      unseen := unseen - {k};
    }
    return false;
  }

  class ServiceConfigStore {
    var name2ClusterIp: map<string, string>
    var thirdField: nat
    var fourthField: nat

    ghost predicate Valid()
      reads this
    {
      fourthField < 256
    }

    ghost function Contents(): Store
      reads this
    {
      Store(name2ClusterIp, 256 * thirdField + fourthField)
    }

    constructor ()
      ensures Valid() && Contents() == Store(map[], 1)
    {
      name2ClusterIp := map[];
      thirdField := 0;
      fourthField := 1;
    }

    method AllocClusterIp() returns (clusterIp: string)
      requires Valid()
      modifies this`thirdField, this`fourthField
      ensures Valid()
      ensures var p := FirstFree(name2ClusterIp.Values, old(Contents().cursor));
              clusterIp == At(p) && Contents().cursor == p + 1
    {
      hide At, Ahead;
      while true
        invariant Valid()
        invariant FirstFree(name2ClusterIp.Values, Contents().cursor) ==
                  FirstFree(name2ClusterIp.Values, old(Contents().cursor))
        decreases |Ahead(name2ClusterIp.Values, Contents().cursor)|
      {
        ghost var cursor := Contents().cursor;
        clusterIp := Dotted.WithDot(BASE, Dotted.WithDot(Render(thirdField), Render(fourthField)));
        IsAt(thirdField, fourthField);
        fourthField := fourthField + 1;
        if fourthField == 256 {
          thirdField := thirdField + 1;
          fourthField := 0;
        }
        AheadSkips(name2ClusterIp.Values, cursor);
        var exist := IsExist(name2ClusterIp, clusterIp);
        if !exist {
          return;
        }
      }
    }

    method JudgeAndAllocClusterIp(name: string, clusterIp: string) returns (ok: bool, ip: string)
      requires Valid()
      modifies this
      ensures Valid()
      ensures Contents() == Judge(old(Contents()), Request(name, clusterIp))
      ensures Answer(ok, ip) == Told(old(Contents()), Request(name, clusterIp))
    {
      hide At, FirstFree;
      if clusterIp == "" {
        if name !in name2ClusterIp {
          ip := AllocClusterIp();
          name2ClusterIp := name2ClusterIp[name := ip];
          return true, ip;
        } else {
          return true, name2ClusterIp[name];
        }
      } else if name !in name2ClusterIp {
        var exist := IsExist(name2ClusterIp, clusterIp);
        if exist {
          return false, clusterIp;
        }
        name2ClusterIp := name2ClusterIp[name := clusterIp];
        return true, clusterIp;
      } else if name2ClusterIp[name] == clusterIp {
        return true, clusterIp;
      } else {
        var exist := IsExist(name2ClusterIp, clusterIp);
        if exist {
          return false, clusterIp;
        }
        name2ClusterIp := name2ClusterIp[name := clusterIp];
        return true, clusterIp;
      }
    }
  }

  lemma IsAt(third: nat, fourth: nat)
    requires fourth < 256
    ensures Address(third, fourth) == At(256 * third + fourth)
  {
  }

  /** The store after any sequence of requests to a new store. */
  ghost function After(requests: seq<Request>): Store {
    if requests == [] then Store(map[], 1)
    else Judge(After(requests[..|requests| - 1]), requests[|requests| - 1])
  }

  lemma UpdateInjective<K, V>(m: map<K, V>, k: K, v: V)
    requires Injective(m) && v !in m.Values
    ensures Injective(m[k := v])
  {
  }

  /** No address is held by two names. */
  lemma {:induction false} NeverShared(requests: seq<Request>)
    ensures Injective(After(requests).held)
  {
    if requests != [] {
      hide At, FirstFree, Injective;
      var s := After(requests[..|requests| - 1]);
      var r := requests[|requests| - 1];
      NeverShared(requests[..|requests| - 1]);
      if r.clusterIp == "" && r.name !in s.held {
        FirstFreeIsFirst(s.held.Values, s.cursor);
        UpdateInjective(s.held, r.name, At(FirstFree(s.held.Values, s.cursor)));
      } else if r.clusterIp != "" && r.clusterIp !in s.held.Values {
        UpdateInjective(s.held, r.name, r.clusterIp);
      }
    } else {
      assert Injective<string, string>(map[]);
    }
  }

  lemma HeldMore<K, V>(m: map<K, V>, k: K, v: V)
    ensures m[k := v].Values <= m.Values + {v}
  {
  }

  lemma AheadMore(small: set<string>, big: set<string>, v: string, cursor: nat)
    requires small <= big + {v}
    ensures |Ahead(small, cursor)| <= |Ahead(big, cursor)| + 1
    ensures (forall p :: p >= cursor ==> v != At(p)) ==> |Ahead(small, cursor)| <= |Ahead(big, cursor)|
  {
    hide At;
    var s, b := Ahead(small, cursor), Ahead(big, cursor);
    assert s <= b + {v};
    Smaller(s, b + {v});
    if forall p :: p >= cursor ==> v != At(p) {
      assert s <= b;
      Smaller(s, b);
    }
  }

  lemma {:induction false} Smaller<T>(s: set<T>, t: set<T>)
    requires s <= t
    ensures |s| <= |t|
  {
    assert t == s + (t - s);
  }

  /** The amortised bound: the cursor together with the held addresses before it grows by at most
      one a call, however requested addresses are interleaved. */
  lemma {:induction false} Amortised(requests: seq<Request>)
    ensures var s := After(requests); s.cursor + |Ahead(s.held.Values, s.cursor)| <= |requests| + 1
  {
    hide At, Ahead, FirstFree;
    if requests == [] {
      NothingAhead();
      assert After(requests).held.Values == {};
    } else {
      var s := After(requests[..|requests| - 1]);
      var r := requests[|requests| - 1];
      Amortised(requests[..|requests| - 1]);
      if r.clusterIp == "" && r.name !in s.held {
        var p := FirstFree(s.held.Values, s.cursor);
        FirstFreeIsFirst(s.held.Values, s.cursor);
        HeldMore(s.held, r.name, At(p));
        forall q | q >= p + 1
          ensures At(p) != At(q)
        {
          if At(p) == At(q) {
            AtInjective(p, q);
          }
        }
        AheadMore(s.held[r.name := At(p)].Values, s.held.Values, At(p), p + 1);
      } else if r.clusterIp != "" && r.clusterIp !in s.held.Values {
        HeldMore(s.held, r.name, r.clusterIp);
        AheadMore(s.held[r.name := r.clusterIp].Values, s.held.Values, r.clusterIp, s.cursor);
      }
    }
  }

  lemma NothingAhead()
    ensures |Ahead({}, 1)| == 0
  {
    assert Ahead({}, 1) == {};
  }

  /** Whether call number `i` (from 0) chooses an address, and at which position. */
  ghost predicate Chooses(requests: seq<Request>, i: nat)
    requires i < |requests|
  {
    requests[i].clusterIp == "" && requests[i].name !in After(requests[..i]).held
  }

  ghost function Choice(requests: seq<Request>, i: nat): nat
    requires i < |requests|
  {
    var s := After(requests[..i]);
    FirstFree(s.held.Values, s.cursor)
  }

  lemma CursorGrows(s: Store, r: Request)
    ensures Judge(s, r).cursor >= s.cursor
  {
    FirstFreeIsFirst(s.held.Values, s.cursor);
  }

  lemma {:induction false} CursorOnward(requests: seq<Request>, i: nat)
    requires i <= |requests|
    ensures After(requests[..i]).cursor <= After(requests).cursor
  {
    hide Judge;
    if i == |requests| {
      assert requests[..i] == requests;
    } else {
      var shorter := requests[..|requests| - 1];
      assert shorter[..i] == requests[..i];
      CursorOnward(shorter, i);
      CursorGrows(After(shorter), requests[|requests| - 1]);
    }
  }

  lemma ChoiceMoves(requests: seq<Request>, i: nat)
    requires i < |requests| && Chooses(requests, i)
    ensures After(requests[..i + 1]).cursor == Choice(requests, i) + 1
            && Choice(requests, i) >= After(requests[..i]).cursor
    ensures After(requests[..i + 1]).held == After(requests[..i]).held[requests[i].name := At(Choice(requests, i))]
  {
    hide At, FirstFree;
    assert requests[..i + 1][..i] == requests[..i];
    var s := After(requests[..i]);
    FirstFreeIsFirst(s.held.Values, s.cursor);
  }

  /** Chosen addresses strictly ascend, so none is ever chosen twice, even after its holder moved
      away from it; the m-th call chooses no position past m, and until call 65535 both fields fit. */
  lemma ChoicesAscend(requests: seq<Request>, i: nat, j: nat)
    requires i < j < |requests| && Chooses(requests, i) && Chooses(requests, j)
    ensures Choice(requests, i) < Choice(requests, j) && At(Choice(requests, i)) != At(Choice(requests, j))
  {
    hide Chooses, At, After, FirstFree;
    ChoiceMoves(requests, i);
    ChoiceMoves(requests, j);
    assert requests[..j][..i + 1] == requests[..i + 1];
    CursorOnward(requests[..j], i + 1);
    if At(Choice(requests, i)) == At(Choice(requests, j)) {
      AtInjective(Choice(requests, i), Choice(requests, j));
    }
  }

  lemma ChoiceBound(requests: seq<Request>, m: nat)
    requires 1 <= m <= |requests| && Chooses(requests, m - 1)
    ensures Choice(requests, m - 1) <= m
    ensures m <= 65535 ==> Choice(requests, m - 1) / 256 <= 255 && Choice(requests, m - 1) % 256 <= 255
  {
    hide Chooses, After, Ahead, Choice;
    ChoiceMoves(requests, m - 1);
    Amortised(requests[..m]);
  }

  /** The same on the text of the answer: its last two fields are bytes up to call 65535. */
  lemma AnswerBound(requests: seq<Request>, m: nat, f: Dotted.Fields)
    requires 1 <= m <= |requests| && Chooses(requests, m - 1) && Dotted.Split(f)
    requires var answer := Told(After(requests[..m - 1]), requests[m - 1]);
             f.a + "." + f.b + "." + f.c + "." + f.d == answer.clusterIp
    ensures f.a == "10" && f.b == "10" && Numeral(f.c) && Numeral(f.d)
    ensures 1 <= 256 * Value(f.c) + Value(f.d) <= m && Value(f.d) <= 255
    ensures m <= 65535 ==> Value(f.c) <= 255
  {
    hide FirstFree, At, After, Value, Numeral, Dotted.Split;
    var s := After(requests[..m - 1]);
    ReadsBack(Choice(requests, m - 1), f);
    ChoiceBound(requests, m);
    ChoiceMoves(requests, m - 1);
    CursorOnward(requests[..m - 1], 0);
    StartsAtOne(requests[..m - 1]);
  }

  lemma StartsAtOne(requests: seq<Request>)
    ensures After(requests[..0]) == Store(map[], 1)
  {
  }

  /** A new store's first choice is 10.10.0.1. */
  lemma FirstAnswer(name: string)
    ensures Told(After([]), Request(name, "")) == Answer(true, "10.10.0.1")
  {
    FirstFreeIsFirst({}, 1);
    assert Render(0) == "0" && Render(1) == "1";
    assert At(1) == "10.10" + "." + ("0" + "." + "1");
    assert "10.10" + "." + ("0" + "." + "1") == "10.10.0.1";
    var none: map<string, string> := map[];
    assert none.Values == {};
  }

  /** Afterwards the name holds what it was answered, or, refused, everything is as before; and nobody
      else's address moves. */
  lemma AnswerHeld(requests: seq<Request>, r: Request)
    ensures var s, t := After(requests), After(requests + [r]);
            && (Told(s, r).ok ==> r.name in t.held && t.held[r.name] == Told(s, r).clusterIp)
            && (!Told(s, r).ok ==> t == s)
            && (r.clusterIp != "" ==> Told(s, r).clusterIp == r.clusterIp && t.cursor == s.cursor)
            && forall n | n != r.name :: (n in t.held <==> n in s.held) && (n in s.held ==> t.held[n] == s.held[n])
  {
    hide FirstFree, At;
    assert (requests + [r])[..|requests|] == requests;
    NeverShared(requests);
  }

  /** A name keeps its address until a request for that name names another free one; asking again
      without an address returns it. */
  lemma {:induction false} KeptUntilMoved(requests: seq<Request>, i: nat, name: string)
    requires i <= |requests| && name in After(requests[..i]).held
    requires forall j :: i <= j < |requests| ==> requests[j].name != name || requests[j].clusterIp == ""
    ensures name in After(requests).held && After(requests).held[name] == After(requests[..i]).held[name]
    ensures Told(After(requests), Request(name, "")) == Answer(true, After(requests[..i]).held[name])
  {
    hide FirstFree, At;
    if i == |requests| {
      assert requests[..i] == requests;
    } else {
      var shorter := requests[..|requests| - 1];
      assert shorter[..i] == requests[..i];
      KeptUntilMoved(shorter, i, name);
    }
  }

  /** A requested address is granted iff it is this name's own or nobody's. */
  lemma GrantedIff(requests: seq<Request>, name: string, ip: string)
    requires ip != ""
    ensures var s := After(requests);
            Told(s, Request(name, ip)).ok <==> forall other :: other in s.held && s.held[other] == ip ==> other == name
  {
    hide FirstFree;
    var s := After(requests);
    NeverShared(requests);
    if ip in s.held.Values {
      var holder :| holder in s.held && s.held[holder] == ip;
      assert Judge(s, Request(name, ip)) == s;
    }
  }

  /** Any sequence of requests against the store itself. */
  method Serve(requests: seq<Request>) returns (store: ServiceConfigStore, answers: seq<Answer>)
    ensures fresh(store) && store.Valid() && store.Contents() == After(requests)
    ensures |answers| == |requests|
    ensures forall i :: 0 <= i < |requests| ==> answers[i] == Told(After(requests[..i]), requests[i])
  {
    hide Judge, Told, At;
    store := new ServiceConfigStore();
    answers := [];
    for i := 0 to |requests|
      invariant fresh(store) && store.Valid() && store.Contents() == After(requests[..i])
      invariant |answers| == i
      invariant forall j :: 0 <= j < i ==> answers[j] == Told(After(requests[..j]), requests[j])
    {
      var ok, ip := store.JudgeAndAllocClusterIp(requests[i].name, requests[i].clusterIp);
      answers := answers + [Answer(ok, ip)];
      assert requests[..i + 1][..i] == requests[..i];
      assert requests[i] == Request(requests[i].name, requests[i].clusterIp);
    }
    assert requests[..|requests|] == requests;
  }
}
