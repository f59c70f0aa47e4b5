/** The subscriber's redo log: subscriptions, the stop goroutine of each, a connection that can be
    lost and dialled again, and the recovery that subscribes everything anew. A subscription is
    named by its stop channel, which fixes its exchange and handler. */
module RedoLog {
  import opened Collections
  import opened Options

  /** A stop goroutine: the slot it deletes when `stop` closes, the connection it leaves with. */
  datatype Guard = Guard(stop: nat, slot: nat, conn: nat)

  /** `recoveries` counts the dials whose `recover` has not yet begun; `pending` is what a recovery
      under way has still to redo; `resetConn` is the connection at the last reset of the slots. */
  datatype State = State(redoLogs: map<nat, nat>, nextSlot: nat, subscribed: set<nat>, closed: set<nat>,
                         guards: set<Guard>, conn: nat, open: bool, recoveries: nat,
                         pending: Option<map<nat, nat>>, resetConn: nat)
  {
    /** The entry and the goroutine of a subscription on the current connection. */
    function Log(stop: nat): State {
      this.(redoLogs := redoLogs[nextSlot := stop], nextSlot := nextSlot + 1,
        guards := guards + {Guard(stop, nextSlot, conn)})
    }

    function Pending(): map<nat, nat> {
      if pending.Some? then pending.value else map[]
    }

    /** Subscriptions not yet unsubscribed. */
    function Live(): set<nat> {
      subscribed - closed
    }
  }

  datatype Action =
    | Subscribe(stop: nat)
    | Unsubscribe(stop: nat)
    | GuardStop(g: Guard)
    | GuardExit(g: Guard)
    | ConnClose
    | Dial
    | RecoverBegin
    | RecoverOne(slot: nat, ok: bool)

  const Init := State(map[], 0, {}, {}, {}, 0, true, 0, None, 0)

  function Hold(pending: map<nat, nat>): Option<map<nat, nat>> {
    if pending == map[] then None else Some(pending)
  }

  /** `Unsubscribe` and `recover` share a lock; `Subscribe` takes no part in it. A stop goroutine
      with both its channels ready may do either. */
  function Next(s: State, a: Action): Option<State> {
    match a
    case Subscribe(stop) =>
      if stop !in s.subscribed && s.open then Some(s.Log(stop).(subscribed := s.subscribed + {stop})) else None
    case Unsubscribe(stop) =>
      if stop in s.Live() && s.pending.None? then Some(s.(closed := s.closed + {stop})) else None
    case GuardStop(g) =>
      if g in s.guards && g.stop in s.closed
        then Some(s.(redoLogs := s.redoLogs - {g.slot}, guards := s.guards - {g})) else None
    case GuardExit(g) =>
      if g in s.guards && (g.conn != s.conn || !s.open) then Some(s.(guards := s.guards - {g})) else None
    case ConnClose => if s.open then Some(s.(open := false)) else None
    case Dial => if s.open then None else Some(s.(open := true, conn := s.conn + 1, recoveries := s.recoveries + 1))
    case RecoverBegin =>
      if s.recoveries > 0 && s.pending.None?
      then Some(s.(redoLogs := map[], nextSlot := 0, pending := Hold(s.redoLogs), recoveries := s.recoveries - 1,
        resetConn := s.conn))
      else None
    case RecoverOne(slot, ok) =>
      if s.pending.None? || slot !in s.pending.value then None
      else
        var t := s.(pending := Hold(s.pending.value - {slot}));
        if !ok then Some(t) else if s.open then Some(t.Log(s.pending.value[slot])) else None
  }

  function Run(s: State, actions: seq<Action>): Option<State> {
    if actions == [] then Some(s)
    else
      var t := Run(s, actions[..|actions| - 1]);
      if t.None? then None else Next(t.value, actions[|actions| - 1])
  }

  function Times(actions: seq<Action>, a: Action): nat {
    if actions == [] then 0
    else Times(actions[..|actions| - 1], a) + if actions[|actions| - 1] == a then 1 else 0
  }

  /** Every dial brings one recovery: one can begin exactly when there were more dials than recoveries
      and none is under way, and while one is, nothing is unsubscribed. */
  lemma {:induction false} OneRecoveryPerDial(actions: seq<Action>)
    requires Run(Init, actions).Some?
    ensures var s := Run(Init, actions).value;
            && s.recoveries == Times(actions, Dial) - Times(actions, RecoverBegin)
            && s.conn == Times(actions, Dial)
            && s.open == (Times(actions, ConnClose) == Times(actions, Dial))
            && Times(actions, Dial) <= Times(actions, ConnClose) <= Times(actions, Dial) + 1
            && (Next(s, RecoverBegin).Some? <==> Times(actions, Dial) > Times(actions, RecoverBegin) && s.pending.None?)
            && (forall stop :: Next(s, Unsubscribe(stop)).Some? <==> stop in s.Live() && s.pending.None?)
  {
    if actions != [] {
      OneRecoveryPerDial(actions[..|actions| - 1]);
    }
  }

  /** Subscribing, anew or again, takes an open connection and nothing else. */
  lemma SubscribesWhen(s: State, stop: nat, slot: nat)
    ensures Next(s, Subscribe(stop)).Some? <==> s.open && stop !in s.subscribed
    ensures s.pending.Some? && slot in s.pending.value ==> (Next(s, RecoverOne(slot, true)).Some? <==> s.open)
    ensures s.pending.Some? && slot in s.pending.value ==> Next(s, RecoverOne(slot, false)).Some?
    ensures Next(s, ConnClose).Some? <==> s.open
    ensures Next(s, Dial).Some? <==> !s.open
  {
  }

  /** A stop goroutine leaves with its connection, or when its channel is closed, and not before. */
  lemma GuardWaits(s: State, g: Guard)
    requires g in s.guards
    ensures Next(s, GuardStop(g)).Some? <==> g.stop in s.closed
    ensures Next(s, GuardExit(g)).Some? <==> !(s.open && g.conn == s.conn)
  {
  }

  ghost predicate SlotsBelow(s: State) {
    forall k :: k in s.redoLogs ==> k < s.nextSlot
  }

  /** Whatever happens, the next slot is free: no subscription overwrites another. */
  lemma {:induction false} NeverOverwrites(actions: seq<Action>)
    requires Run(Init, actions).Some?
    ensures var s := Run(Init, actions).value; SlotsBelow(s) && s.nextSlot !in s.redoLogs
  {
    if actions != [] {
      NeverOverwrites(actions[..|actions| - 1]);
    }
  }

  /** Every stop goroutine has exited before the slots are reset, and re-subscriptions succeed. */
  ghost predicate Proper(s: State, a: Action) {
    (a == RecoverBegin ==> s.guards == {}) && (a.RecoverOne? ==> a.ok)
  }

  ghost predicate ProperRun(s: State, actions: seq<Action>) {
    actions == [] ||
    var front := actions[..|actions| - 1];
    ProperRun(s, front) && (Run(s, front).Some? ==> Proper(Run(s, front).value, actions[|actions| - 1]))
  }

  ghost predicate GuardsFit(s: State) {
    && (forall g :: g in s.guards ==> g.slot < s.nextSlot && g.stop in s.subscribed)
    && (forall g :: g in s.guards && g.slot in s.redoLogs ==> s.redoLogs[g.slot] == g.stop)
    && (forall g, h :: g in s.guards && h in s.guards && g.slot == h.slot ==> g == h)
  }

  /** Each live subscription is logged or about to be redone, each only once. */
  ghost predicate Accounted(s: State) {
    && Injective(s.redoLogs) && Injective(s.Pending()) && s.redoLogs.Values !! s.Pending().Values
    && s.redoLogs.Values + s.Pending().Values <= s.subscribed
    && AllLogged(s)
  }

  ghost predicate AllLogged(s: State) {
    s.Live() <= s.redoLogs.Values + s.Pending().Values
  }

  /** On the connection the slots were reset for, every entry has its goroutine. */
  ghost predicate Guarded(s: State) {
    && s.resetConn <= s.conn
    && (s.resetConn == s.conn && s.open ==> forall k :: k in s.redoLogs ==> Guard(s.redoLogs[k], k, s.conn) in s.guards)
  }

  ghost predicate Inv(s: State) {
    SlotsBelow(s) && GuardsFit(s) && Accounted(s) && Guarded(s)
  }

  lemma LogKeeps(s: State, stop: nat)
    requires SlotsBelow(s) && GuardsFit(s) && Guarded(s) && stop in s.subscribed
    ensures SlotsBelow(s.Log(stop)) && GuardsFit(s.Log(stop)) && Guarded(s.Log(stop))
  {
  }

  lemma LogAccounts(s: State, stop: nat)
    requires SlotsBelow(s) && Injective(s.redoLogs) && stop !in s.redoLogs.Values
    ensures Injective(s.Log(stop).redoLogs)
    ensures s.Log(stop).redoLogs.Values == s.redoLogs.Values + {stop}
  {
    ExtendAccounts(s.redoLogs, s.nextSlot, stop);
  }

  lemma RemoveAccounts(m: map<nat, nat>, k: nat)
    requires Injective(m) && k in m
    ensures Injective(m - {k}) && (m - {k}).Values == m.Values - {m[k]}
  {
    forall v | v in m.Values && v != m[k]
      ensures v in (m - {k}).Values
    {
      var j :| j in m && m[j] == v;
      assert (m - {k})[j] == v;
    }
  }

  lemma StepSubscribe(s: State, stop: nat)
    requires Inv(s) && Next(s, Subscribe(stop)).Some?
    ensures Inv(Next(s, Subscribe(stop)).value)
  {
    var t := s.(subscribed := s.subscribed + {stop});
    assert SlotsBelow(t) && GuardsFit(t) && Guarded(t);
    LogKeeps(t, stop);
    LogAccounts(t, stop);
  }

  lemma StepGuardStop(s: State, g: Guard)
    requires Inv(s) && Next(s, GuardStop(g)).Some?
    ensures Inv(Next(s, GuardStop(g)).value)
  {
    if g.slot in s.redoLogs {
      RemoveAccounts(s.redoLogs, g.slot);
    } else {
      assert s.redoLogs - {g.slot} == s.redoLogs;
    }
  }

  lemma StepRecoverOne(s: State, slot: nat)
    requires Inv(s) && Next(s, RecoverOne(slot, true)).Some?
    ensures Inv(Next(s, RecoverOne(slot, true)).value)
  {
    var stop := s.pending.value[slot];
    var t := s.(pending := Hold(s.pending.value - {slot}));
    RemoveAccounts(s.pending.value, slot);
    assert t.Pending() == s.pending.value - {slot};
    assert stop in s.Pending().Values;
    LogKeeps(t, stop);
    LogAccounts(t, stop);
    assert t.Log(stop).Pending() == t.Pending();
  }

  lemma StepKeeps(s: State, a: Action)
    requires Inv(s) && Next(s, a).Some? && Proper(s, a)
    ensures Inv(Next(s, a).value)
  {
    match a
    case Subscribe(stop) => StepSubscribe(s, stop);
    case Unsubscribe(stop) =>
    case GuardStop(g) => StepGuardStop(s, g);
    case GuardExit(g) =>
    case ConnClose =>
    case Dial =>
    case RecoverBegin =>
      assert Next(s, a).value.Pending() == s.redoLogs;
    case RecoverOne(slot, ok) => StepRecoverOne(s, slot);
  }

  lemma {:induction false} Keeps(s: State, actions: seq<Action>)
    requires Inv(s) && ProperRun(s, actions) && Run(s, actions).Some?
    ensures Inv(Run(s, actions).value)
  {
    if actions != [] {
      hide Inv, Next;
      Keeps(s, actions[..|actions| - 1]);
      StepKeeps(Run(s, actions[..|actions| - 1]).value, actions[|actions| - 1]);
    }
  }

  lemma InitKeeps()
    ensures Inv(Init)
  {
  }

  /** A re-subscription that fails loses its subscription: `recover` only logs the error. */
  lemma RefusedLost(s: State, slot: nat)
    requires Inv(s) && Next(s, RecoverOne(slot, false)).Some?
    ensures var t := Next(s, RecoverOne(slot, false)).value;
            var stop := s.pending.value[slot];
            && stop !in t.redoLogs.Values && stop !in t.Pending().Values
            && (stop in s.Live() ==> !AllLogged(t))
  {
    RemoveAccounts(s.pending.value, slot);
    var t := Next(s, RecoverOne(slot, false)).value;
    assert t.Pending() == s.pending.value - {slot};
    assert s.pending.value[slot] in s.Pending().Values;
  }

  /** Recovered, with the goroutines of closed stop channels gone. */
  predicate Settled(s: State) {
    && s.open && s.resetConn == s.conn && s.pending.None?
    && forall g :: g in s.guards ==> g.stop !in s.closed
  }

  /** After any proper run, a settled log holds exactly the live subscriptions, each in one slot:
      those unsubscribed during the outage are gone. */
  lemma RecoversExactly(actions: seq<Action>)
    requires ProperRun(Init, actions) && Run(Init, actions).Some? && Settled(Run(Init, actions).value)
    ensures var s := Run(Init, actions).value;
            s.redoLogs.Values == s.Live() && Injective(s.redoLogs) && SlotsBelow(s)
  {
    hide Next, Run;
    InitKeeps();
    Keeps(Init, actions);
    var s := Run(Init, actions).value;
    forall v | v in s.redoLogs.Values
      ensures v in s.Live()
    {
      var k :| k in s.redoLogs && s.redoLogs[k] == v;
      assert Guard(v, k, s.conn) in s.guards;
    }
  }

  /** Continuations without another recovery in which every re-subscription succeeds. */
  predicate Careful(a: Action) {
    a != RecoverBegin && (a.RecoverOne? ==> a.ok)
  }

  ghost predicate CanLose(s: State) {
    exists rest :: Run(s, rest).Some? && (forall i :: 0 <= i < |rest| ==> Careful(rest[i]))
                                                                          && !AllLogged(Run(s, rest).value)
  }

  lemma {:induction false} RunFrom(s: State, a: Action, rest: seq<Action>)
    requires Next(s, a).Some?
    ensures Run(s, [a] + rest) == Run(Next(s, a).value, rest)
  {
    hide Next;
    if rest == [] {
      assert [a] + rest == [a] && [a][..0] == [];
    } else {
      assert ([a] + rest)[..|rest|] == [a] + rest[..|rest| - 1];
      RunFrom(s, a, rest[..|rest| - 1]);
    }
  }

  lemma LoseLater(s: State, a: Action)
    requires Next(s, a).Some? && Careful(a) && CanLose(Next(s, a).value)
    ensures CanLose(s)
  {
    hide Next, AllLogged;
    var t := Next(s, a).value;
    var rest :| Run(t, rest).Some? && (forall i :: 0 <= i < |rest| ==> Careful(rest[i]))
                                                                       && !AllLogged(Run(t, rest).value);
    RunFrom(s, a, rest);
    assert forall i :: 0 <= i < |[a] + rest| ==> Careful(([a] + rest)[i]);
  }

  /** A live subscription logged in this slot only. */
  ghost predicate OnlyAt(s: State, k: nat, stop: nat) {
    && stop in s.Live() && k in s.redoLogs && s.redoLogs[k] == stop
    && (forall j :: j in s.redoLogs && s.redoLogs[j] == stop ==> j == k)
    && stop !in s.Pending().Values
  }

  /** A stop goroutine from before the reset deletes the slot of another subscription. */
  lemma {:induction false} LoseByGuard(s: State, g: Guard, stop: nat)
    requires SlotsBelow(s) && s.open && s.pending != Some(map[]) && g in s.guards && OnlyAt(s, g.slot, stop)
             && stop != g.stop && g.stop in s.subscribed
    ensures CanLose(s)
    decreases s.Pending().Keys, if g.stop in s.closed then 0 else 1
  {
    hide CanLose;
    if s.pending.Some? {
      var slot :| slot in s.pending.value;
      var a := RecoverOne(slot, true);
      var t := Next(s, a).value;
      assert t.Pending() == s.pending.value - {slot};
      assert slot in s.pending.value.Keys && s.pending.value[slot] in s.pending.value.Values;
      assert s.Pending().Keys > t.Pending().Keys;
      LoseByGuard(t, g, stop);
      LoseLater(s, a);
    } else if g.stop !in s.closed {
      LoseByGuard(Next(s, Unsubscribe(g.stop)).value, g, stop);
      LoseLater(s, Unsubscribe(g.stop));
    } else {
      var t := Next(s, GuardStop(g)).value;
      assert stop !in t.redoLogs.Values;
      LostNow(t);
      LoseLater(s, GuardStop(g));
    }
  }

  lemma LostNow(s: State)
    requires !AllLogged(s)
    ensures CanLose(s)
  {
    assert Run(s, []) == Some(s);
  }

  lemma {:induction false} Fresh(used: set<nat>) returns (n: nat)
    ensures forall m :: m in used ==> m < n
  {
    if used == {} {
      n := 0;
    } else {
      var m :| m in used;
      n := Fresh(used - {m});
      if n <= m {
        n := m + 1;
      }
      assert forall x :: x in used ==> x == m || x in used - {m};
    }
  }

  /** New subscriptions take the slots up to the goroutine's while the recovery is still to begin its work. */
  lemma {:induction false} LoseBySubscribing(s: State, g: Guard)
    requires SlotsBelow(s) && s.open && s.pending != Some(map[]) && g in s.guards && s.nextSlot <= g.slot
    requires s.redoLogs.Values + s.Pending().Values + {g.stop} <= s.subscribed && s.closed <= s.subscribed
    ensures CanLose(s)
    decreases g.slot - s.nextSlot
  {
    hide CanLose;
    var stop := Fresh(s.subscribed);
    var t := Next(s, Subscribe(stop)).value;
    forall v | v in t.redoLogs.Values
      ensures v in t.subscribed
    {
      assert v == stop || v in s.redoLogs.Values;
    }
    if s.nextSlot == g.slot {
      assert forall j :: j in s.redoLogs ==> s.redoLogs[j] in s.redoLogs.Values;
      LoseByGuard(t, g, stop);
    } else {
      LoseBySubscribing(t, g);
    }
    LoseLater(s, Subscribe(stop));
  }

  lemma {:induction false} ClosedSubscribed(actions: seq<Action>)
    requires Run(Init, actions).Some?
    ensures var s := Run(Init, actions).value; s.closed <= s.subscribed && s.pending != Some(map[])
  {
    if actions != [] {
      ClosedSubscribed(actions[..|actions| - 1]);
    }
  }

  lemma {:induction false} CarefulIsProper(s: State, rest: seq<Action>)
    requires forall i :: 0 <= i < |rest| ==> Careful(rest[i])
    ensures ProperRun(s, rest)
  {
    if rest != [] {
      hide Run;
      CarefulIsProper(s, rest[..|rest| - 1]);
      assert Careful(rest[|rest| - 1]);
    }
  }

  /** A recovery about to reset the slots keeps every live subscription through all that can follow
      exactly when no stop goroutine is left; one left behind, of whatever connection, can delete
      the slot of another subscription. */
  lemma SafeIffNoGuard(actions: seq<Action>)
    requires ProperRun(Init, actions) && Run(Init, actions).Some?
    requires Next(Run(Init, actions).value, RecoverBegin).Some?
    ensures var s := Run(Init, actions).value; !CanLose(Next(s, RecoverBegin).value) <==> s.guards == {}
  {
    hide Run, CanLose;
    InitKeeps();
    Keeps(Init, actions);
    ClosedSubscribed(actions);
    var s := Run(Init, actions).value;
    var t := Next(s, RecoverBegin).value;
    assert t.Pending() == s.redoLogs;
    if s.guards != {} {
      var g :| g in s.guards;
      assert t.redoLogs.Values == {};
      if s.open {
        LoseBySubscribing(t, g);
      } else {
        LoseBySubscribing(Next(t, Dial).value, g);
        LoseLater(t, Dial);
      }
    } else {
      StepKeeps(s, RecoverBegin);
      NeverLoses(t);
    }
  }

  lemma NeverLoses(t: State)
    requires Inv(t)
    ensures !CanLose(t)
  {
    hide Next;
    forall rest | Run(t, rest).Some? && forall i :: 0 <= i < |rest| ==> Careful(rest[i])
      ensures AllLogged(Run(t, rest).value)
    {
      hide Run;
      CarefulIsProper(t, rest);
      Keeps(t, rest);
    }
  }

  /** The log's own code, where no other goroutine comes between. */
  class Subscriber {
    var redoLogs: map<nat, nat>
    var nextSlot: nat

    ghost predicate Valid()
      reads this
    {
      forall k :: k in redoLogs ==> k < nextSlot
    }

    constructor ()
      ensures Valid() && redoLogs == map[]
    {
      redoLogs := map[];
      nextSlot := 0;
    }

    /** `accepted` tells whether the broker did its part. */
    method Subscribe(stop: nat, accepted: bool) returns (ok: bool)
      requires Valid()
      modifies this
      ensures Valid() && ok == accepted
      ensures if accepted then old(nextSlot) !in old(redoLogs) && redoLogs == old(redoLogs)[old(nextSlot) := stop]
              && nextSlot == old(nextSlot) + 1
              else redoLogs == old(redoLogs) && nextSlot == old(nextSlot)
    {
      if !accepted {
        return false;
      }
      var index := nextSlot;
      nextSlot := nextSlot + 1;
      redoLogs := redoLogs[index := stop];
      return true;
    }

    /** The entries the broker takes again move to the slots 0, 1, 2, ... in some order. */
    method Recover(refused: set<nat>)
      requires Valid() && Injective(redoLogs)
      modifies this
      ensures Valid() && Injective(redoLogs)
      ensures redoLogs.Values == old(redoLogs).Values - refused
      ensures forall k: nat :: k in redoLogs <==> k < nextSlot
    {
      hide Injective;
      NoneTwice();
      var redoCopy := redoLogs;
      redoLogs := map[];
      nextSlot := 0;
      while redoCopy != map[]
        invariant Valid() && Injective(redoLogs) && Injective(redoCopy)
        invariant redoLogs.Values !! redoCopy.Values
        invariant redoLogs.Values + (redoCopy.Values - refused) == old(redoLogs).Values - refused
        invariant forall k: nat :: k in redoLogs <==> k < nextSlot
        decreases redoCopy.Keys
      {
        var slot :| slot in redoCopy;
        var stop := redoCopy[slot];
        assert stop in redoCopy.Values;
        RemoveAccounts(redoCopy, slot);
        ghost var before := redoLogs;
        var _ := Subscribe(stop, stop !in refused);
        if stop !in refused {
          ExtendAccounts(before, nextSlot - 1, stop);
        }
        redoCopy := redoCopy - {slot};
      }
    }
  }

  lemma NoneTwice()
    ensures Injective<nat, nat>(map[])
  {
  }

  lemma ExtendAccounts(m: map<nat, nat>, k: nat, stop: nat)
    requires Injective(m) && stop !in m.Values && k !in m
    ensures Injective(m[k := stop]) && m[k := stop].Values == m.Values + {stop}
  {
    assert m[k := stop][k] == stop;
    forall v | v in m.Values
      ensures v in m[k := stop].Values
    {
      var j :| j in m && m[j] == v;
      assert m[k := stop][j] == v;
    }
  }
}
