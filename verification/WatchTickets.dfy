/** The apiserver's watches: tickets are sold by the handlers, entered by the daemon and withdrawn by
    the handlers; one store watch serves all tickets of a key and is cancelled with the last. */
module WatchTickets {
  import opened Options
  import opened Decimal

  datatype WatchOpt = WatchOpt(key: string, withPrefix: bool, ticket: nat)

  /** `watch` is the store watch that `cancel` ends. */
  datatype Watcher = Watcher(tickets: set<nat>, watch: nat)

  datatype StoreWatch = StoreWatch(key: string, withPrefix: bool, cancels: nat)

  /** A ticket under a key. */
  datatype Pair = Pair(key: string, ticket: nat)

  /** Critical sections of the watcher lock, in the order they happened. */
  datatype Event = Inserted(p: Pair) | Withdrawn(p: Pair)

  /** The tickets the critical sections so far leave in the sets. */
  ghost function LiveAfter(trace: seq<Event>): set<Pair> {
    if trace == [] then {}
    else
      var s := LiveAfter(trace[..|trace| - 1]);
      match trace[|trace| - 1]
      case Inserted(p) => s + {p}
      case Withdrawn(p) => s - {p}
  }

  /** Inserted with no withdrawal after it. */
  ghost predicate LastInserted(trace: seq<Event>, p: Pair) {
    exists j :: 0 <= j < |trace| && trace[j] == Inserted(p) && forall k :: j < k < |trace| ==> trace[k] != Withdrawn(p)
  }

  lemma {:induction false} LiveIff(trace: seq<Event>, p: Pair)
    ensures p in LiveAfter(trace) <==> LastInserted(trace, p)
  {
    if trace != [] {
      var front, last := trace[..|trace| - 1], trace[|trace| - 1];
      LiveIff(front, p);
      if last == Inserted(p) {
        assert trace[|trace| - 1] == Inserted(p);
      } else if LastInserted(front, p) && last != Withdrawn(p) {
        var j :| 0 <= j < |front| && front[j] == Inserted(p) && forall k :: j < k < |front| ==>
          front[k] != Withdrawn(p);
        assert trace[j] == Inserted(p);
      }
    }
  }

  /** The insertion comes only after the last withdrawal of the ticket. */
  ghost predicate Overtaken(trace: seq<Event>, p: Pair) {
    Withdrawn(p) in trace && LastInserted(trace, p)
  }

  /** No withdrawal comes before the insertion of its ticket. */
  ghost predicate InOrder(trace: seq<Event>) {
    forall i, j :: 0 <= i < j < |trace| && trace[i].Withdrawn? && trace[j].Inserted? ==> trace[i].p != trace[j].p
  }

  /** The sets hold what was inserted and not withdrawn, together with what a withdrawal overtook. */
  lemma LiveExactly(trace: seq<Event>)
    ensures forall p :: p in LiveAfter(trace) <==> (Inserted(p) in trace && Withdrawn(p) !in trace)
                                                   || Overtaken(trace, p)
  {
    hide LiveAfter;
    forall p
      ensures p in LiveAfter(trace) <==> (Inserted(p) in trace && Withdrawn(p) !in trace) || Overtaken(trace, p)
    {
      LiveIff(trace, p);
    }
  }

  /** In order, nothing leaks: the sets are exactly inserted minus withdrawn. */
  lemma InOrderExact(trace: seq<Event>)
    requires InOrder(trace)
    ensures forall p :: p in LiveAfter(trace) <==> Inserted(p) in trace && Withdrawn(p) !in trace
  {
    hide LiveAfter, Overtaken;
    LiveExactly(trace);
    NoneOvertaken(trace);
  }

  lemma NoneOvertaken(trace: seq<Event>)
    requires InOrder(trace)
    ensures forall p :: !Overtaken(trace, p)
  {
  }

  /** A ticket in a set stays there exactly until it is withdrawn; it is not inserted again. */
  lemma {:induction false} StaysUntilWithdrawn(trace: seq<Event>, more: seq<Event>, p: Pair)
    requires p in LiveAfter(trace) && Inserted(p) !in more
    ensures p in LiveAfter(trace + more) <==> Withdrawn(p) !in more
  {
    if more == [] {
      assert trace + more == trace;
    } else {
      var front, last := more[..|more| - 1], more[|more| - 1];
      assert more == front + [last];
      StaysUntilWithdrawn(trace, front, p);
      assert (trace + more)[..|trace + more| - 1] == trace + front;
    }
  }

  /** A leak: the withdrawal of a ticket takes the lock before the daemon does. Whatever follows, the
      ticket stays until it is withdrawn a second time. */
  lemma Leak(before: seq<Event>, p: Pair, more: seq<Event>)
    requires Inserted(p) !in more
    ensures var trace := before + [Withdrawn(p), Inserted(p)];
            && Overtaken(trace, p) && !InOrder(trace)
            && (p in LiveAfter(trace + more) <==> Withdrawn(p) !in more)
  {
    var trace := before + [Withdrawn(p), Inserted(p)];
    assert trace[|before|] == Withdrawn(p) && trace[|before| + 1] == Inserted(p);
    LiveIff(trace, p);
    StaysUntilWithdrawn(trace, more, p);
  }

  const MAX_UINT64: nat := 0xFFFF_FFFF_FFFF_FFFF

  /** strconv.ParseUint in base 10 with 64 bits. */
  function ParseUint(s: string): Option<nat> {
    if Numeral(s) && Value(s) <= MAX_UINT64 then Some(Value(s)) else None
  }

  /** A ticket survives being sent as a form field. */
  lemma TicketParses(ticket: nat)
    requires ticket <= MAX_UINT64
    ensures ParseUint(Render(ticket)) == Some(ticket)
  {
    ValueOfRender(ticket);
  }

  /** What is accepted is the one way to write a 64-bit number, but for leading zeros; an empty field,
      a sign or a letter is not. */
  lemma TicketForms(form: string)
    ensures ParseUint(form).Some? ==> form != [] && ParseUint(form).value < 0x1_0000_0000_0000_0000
    ensures ParseUint(form).Some? && (|form| > 1 ==> form[0] != '0') ==> form == Render(ParseUint(form).value)
    ensures forall i :: 0 <= i < |form| && !('0' <= form[i] <= '9') ==> ParseUint(form).None?
  {
    if Numeral(form) && (|form| > 1 ==> form[0] != '0') {
      RenderOfValue(form);
    }
  }

  function Tickets(m: map<string, Option<Watcher>>, key: string): set<nat> {
    if key in m && m[key].Some? then m[key].value.tickets else {}
  }

  /** A watcher entry is non-nil exactly while its store watch runs, and then holds a ticket. */
  ghost predicate Watched(m: map<string, Option<Watcher>>, watches: seq<StoreWatch>) {
    && (forall k :: k in m && m[k].Some? ==> m[k].value.tickets != {} && Serves(watches, m[k].value.watch, k))
    && (forall i :: 0 <= i < |watches| ==> watches[i].cancels <= 1)
    && (forall i :: 0 <= i < |watches| && watches[i].cancels == 0 ==>
          watches[i].key in m && m[watches[i].key].Some? && m[watches[i].key].value.watch == i)
  }

  ghost predicate Serves(watches: seq<StoreWatch>, i: nat, key: string) {
    i < |watches| && watches[i].key == key && watches[i].cancels == 0
  }

  ghost predicate Tracked(m: map<string, Option<Watcher>>, trace: seq<Event>) {
    forall k, t :: t in Tickets(m, k) <==> Pair(k, t) in LiveAfter(trace)
  }

  /** Each ticket is sold once and inserted at most once. */
  ghost predicate Sold(trace: seq<Event>, waiting: set<WatchOpt>, seller: nat) {
    && (forall o :: o in waiting ==> o.ticket <= seller)
    && (forall o, q :: o in waiting && q in waiting && o.ticket == q.ticket ==> o == q)
    && (forall i :: 0 <= i < |trace| && trace[i].Inserted? ==> trace[i].p.ticket <= seller)
    && (forall i, o :: 0 <= i < |trace| && trace[i].Inserted? && o in waiting ==> trace[i].p.ticket != o.ticket)
    && (forall i, j :: 0 <= i < j < |trace| && trace[i].Inserted? && trace[j].Inserted? ==>
       trace[i].p.ticket != trace[j].p.ticket)
  }

  ghost predicate Running(watches: seq<StoreWatch>, key: string) {
    exists i :: Serves(watches, i, key)
  }

  /** Some ticket of the key was inserted and not withdrawn. */
  ghost predicate Awaited(trace: seq<Event>, key: string) {
    exists t :: Inserted(Pair(key, t)) in trace && Withdrawn(Pair(key, t)) !in trace
  }

  /** The withdrawal of some ticket of the key was overtaken. */
  ghost predicate Leaked(trace: seq<Event>, key: string) {
    exists t :: Overtaken(trace, Pair(key, t))
  }

  /** The kind of a store watch. */
  datatype Kind = Kind(key: string, withPrefix: bool)

  ghost predicate HasTicket(live: set<Pair>, key: string) {
    exists t :: Pair(key, t) in live
  }

  /** The store watches opened so far: one for each insertion under a key without tickets, of the kind
      that insertion asked for. */
  ghost function Opened(trace: seq<Event>, prefixes: seq<bool>): seq<Kind>
    requires |trace| == |prefixes|
  {
    if trace == [] then []
    else
      var n := |trace| - 1;
      var front := Opened(trace[..n], prefixes[..n]);
      if trace[n].Inserted? && !HasTicket(LiveAfter(trace[..n]), trace[n].p.key)
      then front + [Kind(trace[n].p.key, prefixes[n])] else front
  }

  ghost predicate AsOpened(watches: seq<StoreWatch>, kinds: seq<Kind>) {
    |watches| == |kinds| &&
    forall i :: 0 <= i < |kinds| ==> watches[i].key == kinds[i].key && watches[i].withPrefix == kinds[i].withPrefix
  }

  lemma OpenedNext(trace: seq<Event>, prefixes: seq<bool>, e: Event, withPrefix: bool)
    requires |trace| == |prefixes|
    ensures Opened(trace + [e], prefixes + [withPrefix]) ==
            Opened(trace, prefixes) +
            if e.Inserted? && !HasTicket(LiveAfter(trace), e.p.key) then [Kind(e.p.key, withPrefix)] else []
  {
    hide LiveAfter, HasTicket;
    assert (trace + [e])[..|trace|] == trace && (prefixes + [withPrefix])[..|trace|] == prefixes;
  }

  lemma TicketOf(m: map<string, Option<Watcher>>, trace: seq<Event>, key: string)
    requires Tracked(m, trace)
    ensures HasTicket(LiveAfter(trace), key) <==> Tickets(m, key) != {}
  {
    hide LiveAfter;
    assert Tickets(m, key) != {} <==> exists t :: t in Tickets(m, key);
  }

  lemma TicketHeld(m: map<string, Option<Watcher>>, watches: seq<StoreWatch>, key: string)
    requires Watched(m, watches)
    ensures key in m && m[key].Some? <==> Tickets(m, key) != {}
  {
  }

  lemma TrackInsert(m: map<string, Option<Watcher>>, trace: seq<Event>, key: string, ticket: nat, watch: nat)
    requires Tracked(m, trace)
    ensures Tracked(m[key := Some(Watcher(Tickets(m, key) + {ticket}, watch))], trace + [Inserted(Pair(key, ticket))])
  {
    assert (trace + [Inserted(Pair(key, ticket))])[..|trace|] == trace;
  }

  lemma TrackWithdraw(m: map<string, Option<Watcher>>, trace: seq<Event>, key: string, ticket: nat,
                      entry: Option<Watcher>)
    requires Tracked(m, trace)
    requires (if entry.Some? then entry.value.tickets else {}) == Tickets(m, key) - {ticket}
    ensures Tracked(m[key := entry], trace + [Withdrawn(Pair(key, ticket))])
  {
    assert (trace + [Withdrawn(Pair(key, ticket))])[..|trace|] == trace;
  }

  lemma WithdrawNothing(m: map<string, Option<Watcher>>, trace: seq<Event>, key: string, ticket: nat)
    requires Tracked(m, trace) && Tickets(m, key) == {}
    ensures Tracked(m, trace + [Withdrawn(Pair(key, ticket))])
  {
    assert (trace + [Withdrawn(Pair(key, ticket))])[..|trace|] == trace;
  }

  /** A new store watch for a key that has none. */
  lemma WatchNew(m: map<string, Option<Watcher>>, watches: seq<StoreWatch>, key: string, withPrefix: bool, ticket: nat)
    requires Watched(m, watches) && (key in m ==> m[key].None?)
    ensures Watched(m[key := Some(Watcher({ticket}, |watches|))], watches + [StoreWatch(key, withPrefix, 0)])
  {
  }

  lemma WatchMore(m: map<string, Option<Watcher>>, watches: seq<StoreWatch>, key: string, tickets: set<nat>)
    requires Watched(m, watches) && key in m && m[key].Some? && tickets != {}
    ensures Watched(m[key := Some(Watcher(tickets, m[key].value.watch))], watches)
  {
  }

  /** The last ticket's withdrawal cancels the key's watch and no other. */
  lemma WatchEnd(m: map<string, Option<Watcher>>, watches: seq<StoreWatch>, key: string)
    requires Watched(m, watches) && key in m && m[key].Some?
    ensures var i := m[key].value.watch;
            i < |watches| && Watched(m[key := None], watches[i := watches[i].(cancels := watches[i].cancels + 1)])
  {
    var i := m[key].value.watch;
    assert Serves(watches, i, key);
    var ended := watches[i := watches[i].(cancels := watches[i].cancels + 1)];
    forall k | k in m && m[k].Some? && k != key
      ensures Serves(ended, m[k].value.watch, k)
    {
      assert Serves(watches, m[k].value.watch, k);
    }
  }

  datatype Status = OK | BadRequest

  class Server {
    var ticketSeller: nat
    var watcherMap: map<string, Option<Watcher>>
    /** Sold tickets whose insertion is still to come. */
    var waiting: set<WatchOpt>
    /** The store's watches, each with how often it was cancelled. */
    var watches: seq<StoreWatch>
    ghost var trace: seq<Event>
    /** For each insertion of the trace, whether it asked for a prefix watch. */
    ghost var prefixes: seq<bool>

    ghost predicate Valid()
      reads this
    {
      && Watched(watcherMap, watches) && Tracked(watcherMap, trace) && Sold(trace, waiting, ticketSeller)
      && |prefixes| == |trace| && AsOpened(watches, Opened(trace, prefixes))
    }

    ghost function Booked(): Book
      reads this
    {
      Book(ticketSeller, waiting, trace, prefixes)
    }

    constructor ()
      ensures Valid() && Booked() == Book(0, {}, [], [])
    {
      ticketSeller := 0;
      watcherMap := map[];
      waiting := {};
      watches := [];
      trace, prefixes := [], [];
    }

    /** What the invariant says of the watches. */
    lemma Facts()
      requires Valid()
      ensures forall i :: 0 <= i < |watches| ==> watches[i].cancels <= 1
      ensures |prefixes| == |trace| && AsOpened(watches, Opened(trace, prefixes))
      ensures forall key :: Running(watches, key) <==> Awaited(trace, key) || Leaked(trace, key)
      ensures InOrder(trace) ==> forall key :: !Leaked(trace, key)
    {
      hide Opened, AsOpened, Running, Awaited, Leaked, InOrder, Tracked, Sold;
      NoLeak(watcherMap, watches, trace, waiting, ticketSeller);
    }

    /** A handler without a ticket: it sells one and offers it to the daemon. */
    method Sell(key: string, withPrefix: bool) returns (ticket: nat)
      requires Valid()
      modifies this`ticketSeller, this`waiting
      ensures Valid()
      ensures ticket == ticketSeller == old(ticketSeller) + 1
      ensures waiting == old(waiting) + {WatchOpt(key, withPrefix, ticket)}
      ensures forall o :: o in old(waiting) ==> o.ticket != ticket
    {
      hide Watched, Tracked, Opened, AsOpened;
      ticketSeller := ticketSeller + 1;
      ticket := ticketSeller;
      waiting := waiting + {WatchOpt(key, withPrefix, ticket)};
    }

    /** The daemon's critical section. */
    method Insert(opt: WatchOpt)
      requires Valid() && opt in waiting
      modifies this`watcherMap, this`waiting, this`watches, this`trace, this`prefixes
      ensures Valid()
      ensures trace == old(trace) + [Inserted(Pair(opt.key, opt.ticket))] && waiting == old(waiting) - {opt}
      ensures prefixes == old(prefixes) + [opt.withPrefix]
      ensures Tickets(watcherMap, opt.key) == old(Tickets(watcherMap, opt.key)) + {opt.ticket}
      ensures watches == if old(Tickets(watcherMap, opt.key)) == {}
              then old(watches) + [StoreWatch(opt.key, opt.withPrefix, 0)]
                         else old(watches)
    {
      hide Watched, Tracked, Opened, LiveAfter, HasTicket;
      TicketOf(watcherMap, trace, opt.key);
      TicketHeld(watcherMap, watches, opt.key);
      OpenedNext(trace, prefixes, Inserted(Pair(opt.key, opt.ticket)), opt.withPrefix);
      SoldInsert(trace, waiting, ticketSeller, opt);
      hide Sold;
      var key := opt.key;
      var m := watcherMap;
      if key !in watcherMap || watcherMap[key].None? {
        var watch := |watches|;
        assert Tickets(m, key) + {opt.ticket} == {opt.ticket};
        TrackInsert(m, trace, key, opt.ticket, watch);
        WatchNew(m, watches, key, opt.withPrefix, opt.ticket);
        watches := watches + [StoreWatch(key, opt.withPrefix, 0)];
        watcherMap := watcherMap[key := Some(Watcher({opt.ticket}, watch))];
      } else {
        TrackInsert(m, trace, key, opt.ticket, m[key].value.watch);
        WatchMore(m, watches, key, m[key].value.tickets + {opt.ticket});
        var w := watcherMap[key].value;
        watcherMap := watcherMap[key := Some(w.(tickets := w.tickets + {opt.ticket}))];
      }
      waiting := waiting - {opt};
      trace, prefixes := trace + [Inserted(Pair(key, opt.ticket))], prefixes + [opt.withPrefix];
    }

    /** A handler with a ticket. */
    method Withdraw(key: string, form: string) returns (status: Status)
      requires Valid()
      modifies this`watcherMap, this`watches, this`trace, this`prefixes
      ensures Valid()
      ensures status == OK <==> ParseUint(form).Some?
      ensures trace == if status == OK then old(trace) + [Withdrawn(Pair(key, ParseUint(form).value))] else old(trace)
      ensures prefixes == if status == OK then old(prefixes) + [false] else old(prefixes)
      ensures status == OK ==> Tickets(watcherMap, key) == old(Tickets(watcherMap, key)) - {ParseUint(form).value}
      ensures status == BadRequest ==> watcherMap == old(watcherMap) && watches == old(watches)
      ensures |watches| == |old(watches)| && forall i :: 0 <= i < |watches| && watches[i] != old(watches)[i] ==>
              watches[i].key == key
    {
      hide Watched, Tracked, ParseUint, Opened, LiveAfter;
      var parsed := ParseUint(form);
      if parsed.None? {
        return BadRequest;
      }
      var ticket := parsed.value;
      OpenedNext(trace, prefixes, Withdrawn(Pair(key, ticket)), false);
      SoldWithdraw(trace, waiting, ticketSeller, Pair(key, ticket));
      hide Sold;
      var m := watcherMap;
      if key in watcherMap && watcherMap[key].Some? {
        var w := watcherMap[key].value;
        watcherMap := watcherMap[key := Some(w.(tickets := w.tickets - {ticket}))];
        if watcherMap[key].value.tickets == {} {
          WatchEnd(m, watches, key);
          Cancels(m, watches, key);
          var i := watcherMap[key].value.watch;
          watches := watches[i := watches[i].(cancels := watches[i].cancels + 1)];
          watcherMap := watcherMap[key := None];
          assert watcherMap == m[key := None];
        } else {
          WatchMore(m, watches, key, watcherMap[key].value.tickets);
        }
        TrackWithdraw(m, trace, key, ticket, watcherMap[key]);
      } else {
        WithdrawNothing(m, trace, key, ticket);
      }
      trace, prefixes := trace + [Withdrawn(Pair(key, ticket))], prefixes + [false];
      return OK;
    }
  }

  lemma Cancels(m: map<string, Option<Watcher>>, watches: seq<StoreWatch>, key: string)
    requires Watched(m, watches) && key in m && m[key].Some?
    ensures Serves(watches, m[key].value.watch, key)
  {
  }

  lemma SoldInsert(trace: seq<Event>, waiting: set<WatchOpt>, seller: nat, opt: WatchOpt)
    requires Sold(trace, waiting, seller) && opt in waiting
    ensures Sold(trace + [Inserted(Pair(opt.key, opt.ticket))], waiting - {opt}, seller)
  {
  }

  lemma SoldWithdraw(trace: seq<Event>, waiting: set<WatchOpt>, seller: nat, p: Pair)
    requires Sold(trace, waiting, seller)
    ensures Sold(trace + [Withdrawn(p)], waiting, seller)
  {
  }

  /** While the lock is free: a key has a running store watch exactly when its entry is non-nil and
      exactly when it holds a ticket; it never has two; and no ticket sits under two keys. */
  lemma WatchIffTicket(m: map<string, Option<Watcher>>, watches: seq<StoreWatch>, trace: seq<Event>,
                       waiting: set<WatchOpt>, seller: nat, key: string)
    requires Watched(m, watches) && Tracked(m, trace) && Sold(trace, waiting, seller)
    ensures Running(watches, key) <==> key in m && m[key].Some?
    ensures key in m && m[key].Some? <==> Tickets(m, key) != {}
    ensures forall i, j :: Serves(watches, i, key) && Serves(watches, j, key) ==> i == j
    ensures forall other, t :: t in Tickets(m, key) && t in Tickets(m, other) ==> other == key
  {
    assert key in m && m[key].Some? ==> Serves(watches, m[key].value.watch, key);
    forall other, t | t in Tickets(m, key) && t in Tickets(m, other)
      ensures other == key
    {
      LiveIff(trace, Pair(key, t));
      LiveIff(trace, Pair(other, t));
      var i :| 0 <= i < |trace| && trace[i] == Inserted(Pair(key, t));
      var j :| 0 <= j < |trace| && trace[j] == Inserted(Pair(other, t));
      assert i == j;
    }
  }

  datatype Request = Sell(key: string, withPrefix: bool) | Insert(opt: WatchOpt) | Withdraw(key: string, form: string)

  /** The tickets sold, those not yet inserted, and the critical sections, without the watcher map. */
  datatype Book = Book(seller: nat, waiting: set<WatchOpt>, trace: seq<Event>, prefixes: seq<bool>)

  /** What a request does to the book. */
  ghost function Entered(b: Book, r: Request): Book {
    match r
    case Sell(key, withPrefix) =>
      b.(seller := b.seller + 1, waiting := b.waiting + {WatchOpt(key, withPrefix, b.seller + 1)})
    case Insert(opt) =>
      if opt !in b.waiting then b
      else b.(waiting := b.waiting - {opt}, trace := b.trace + [Inserted(Pair(opt.key, opt.ticket))],
              prefixes := b.prefixes + [opt.withPrefix])
    case Withdraw(key, form) =>
      if ParseUint(form).None? then b
      else b.(trace := b.trace + [Withdrawn(Pair(key, ParseUint(form).value))], prefixes := b.prefixes + [false])
  }

  ghost function BookOf(requests: seq<Request>): Book {
    if requests == [] then Book(0, {}, [], [])
    else Entered(BookOf(requests[..|requests| - 1]), requests[|requests| - 1])
  }

  /** Any interleaving of handlers and daemon. A key's store watch runs exactly when some ticket of it
      was inserted and not withdrawn, or the withdrawal of one was overtaken; and every store watch
      is of the kind the insertion that opened it asked for. */
  method Serve(requests: seq<Request>) returns (server: Server)
    ensures fresh(server) && server.Valid() && server.Booked() == BookOf(requests)
    ensures forall i :: 0 <= i < |server.watches| ==> server.watches[i].cancels <= 1
    ensures |server.prefixes| == |server.trace| && AsOpened(server.watches, Opened(server.trace, server.prefixes))
    ensures forall key :: Running(server.watches, key) <==> Awaited(server.trace, key) || Leaked(server.trace, key)
    ensures InOrder(server.trace) ==> forall key :: !Leaked(server.trace, key)
  {
    hide Server.Valid, BookOf, ParseUint, Opened, AsOpened, Running, Awaited, Leaked, InOrder;
    server := new Server();
    BookNone();
    for i := 0 to |requests|
      invariant fresh(server) && server.Valid() && server.Booked() == BookOf(requests[..i])
    {
      BookNext(requests[..i], requests[i]);
      assert requests[..i + 1] == requests[..i] + [requests[i]];
      match requests[i]
      case Sell(key, withPrefix) =>
        var _ := server.Sell(key, withPrefix);
      case Insert(opt) =>
        if opt in server.waiting {
          server.Insert(opt);
        }
      case Withdraw(key, form) =>
        var _ := server.Withdraw(key, form);
    }
    assert requests[..|requests|] == requests;
    server.Facts();
  }

  lemma BookNone()
    ensures BookOf([]) == Book(0, {}, [], [])
  {
  }

  lemma BookNext(requests: seq<Request>, r: Request)
    ensures BookOf(requests + [r]) == Entered(BookOf(requests), r)
  {
    hide Entered;
    assert (requests + [r])[..|requests|] == requests;
  }

  lemma NoLeak(m: map<string, Option<Watcher>>, watches: seq<StoreWatch>, trace: seq<Event>, waiting: set<WatchOpt>,
               seller: nat)
    requires Watched(m, watches) && Tracked(m, trace) && Sold(trace, waiting, seller)
    ensures forall key :: Running(watches, key) <==> Awaited(trace, key) || Leaked(trace, key)
    ensures InOrder(trace) ==> forall key :: !Leaked(trace, key)
  {
    hide Watched, Sold, LiveAfter, Running, Overtaken, InOrder;
    LiveExactly(trace);
    forall key
      ensures Running(watches, key) <==> Awaited(trace, key) || Leaked(trace, key)
    {
      WatchIffTicket(m, watches, trace, waiting, seller, key);
      assert Tickets(m, key) != {} <==> exists t :: t in Tickets(m, key);
    }
    if InOrder(trace) {
      NoneOvertaken(trace);
    }
  }
}
