/** The goroutines of one kubelet pod - prober, worker, response listener, deleter - as an
    interleaving of their steps over two FIFO channels, a lock and the `canProbeWork` token. */
module PodProtocol {
  import opened Options

  datatype Command = ADD_POD | PROBE_POD | DELETE_POD

  datatype Status = Pending | Failed | Running | Exited | Created | Deleted

  datatype Lock = Free | HeldByProber | HeldByListener | HeldByDeleter

  /** `Checking` and `Sent` are inside the prober's critical section, before and after the send. */
  datatype Prober = Selecting | Ticked | Checking | Sent | Stopped

  /** `Handling`, `Stopping` and `Closing` are inside the listener's critical sections. */
  datatype Listener = Receiving | Got(r: Command) | Handling(r: Command) | Releasing | Stopping | Closing | Ended

  datatype Deleter = NotCalled | Marked | Returned

  datatype Worker = Idle | Working(c: Command) | Gone

  /** `sent` and `answered` record all commands sent and all answers the listener is done with;
      `clean` tells that the ADD answer had been handled when `DeletePod` took the lock. */
  datatype State = State(commands: seq<Command>, responses: seq<Command>, closed: bool, canProbeWork: bool,
                         status: Status, lock: Lock, prober: Prober, listener: Listener, deleter: Deleter,
                           worker: Worker,
                         created: bool, addHandled: bool, clean: bool, panicked: bool,
                         sent: seq<Command>, answered: seq<Command>)
  {
    /** A send on the command channel; on a closed channel it panics. */
    function Send(c: Command): State {
      if closed then this.(panicked := true) else this.(commands := commands + [c], sent := sent + [c])
    }
  }

  datatype Action =
    | SendAdd
    | Tick | ProbeLock | ProbeSend | ProbeSkip | ProbeClear
    | WorkerTake | WorkerExit | WorkerRespond
    | ListenTake | ListenLock | ListenHandle(outcome: Status)
    | ReleaseLock | ReleaseStop | ReleaseClose
    | DeleteLock | DeleteSend

  /** A pod whose goroutines have just been started; the volumes may already have failed. */
  function Init(volumesFailed: bool): State {
    State([], [], false, true, if volumesFailed then Failed else Pending, Free, Selecting, Receiving, NotCalled, Idle,
          false, false, false, false, [], [])
  }

  predicate MayProbe(s: State) {
    s.canProbeWork && s.status !in {Pending, Failed, Deleted, Exited}
  }

  /** The listener's critical section on an answer, with the outcome the worker reports. */
  function HandleAnswer(s: State, r: Command, outcome: Status): Option<State> {
    var t := s.(listener := Receiving, lock := Free, answered := s.answered + [r]);
    match r
    case ADD_POD =>
      if outcome == Failed || outcome == Running then Some(t.(status := outcome, addHandled := true)) else None
    case PROBE_POD =>
      if s.status == Deleted then Some(t.(canProbeWork := false))
      else if outcome == Pending || outcome == Deleted then None
      else Some(t.(status := outcome, canProbeWork := true))
    case DELETE_POD => None
  }

  /** The step of an action, or None where the goroutine is elsewhere or blocked. */
  function Next(s: State, a: Action): Option<State> {
    if s.panicked then None
    else match a
    case SendAdd => if s.created then None else Some(s.Send(ADD_POD).(created := true))
    case Tick => if s.prober == Selecting then Some(s.(prober := Ticked)) else None
    case ProbeLock =>
      if s.prober == Ticked && s.lock == Free then Some(s.(prober := Checking, lock := HeldByProber)) else None
    case ProbeSend => if s.prober == Checking && MayProbe(s) then Some(s.Send(PROBE_POD).(prober := Sent)) else None
    case ProbeSkip => if s.prober == Checking && !MayProbe(s) then Some(s.(prober := Selecting, lock := Free)) else None
    case ProbeClear =>
      if s.prober == Sent then Some(s.(canProbeWork := false, prober := Selecting, lock := Free)) else None
    case WorkerTake =>
      if s.worker == Idle && s.commands != []
        then Some(s.(worker := Working(s.commands[0]), commands := s.commands[1..])) else None
    case WorkerExit => if s.worker == Idle && s.commands == [] && s.closed then Some(s.(worker := Gone)) else None
    case WorkerRespond =>
      if !s.worker.Working? then None
      else if s.closed then Some(s.(panicked := true))
      else Some(s.(worker := Idle, responses := s.responses + [s.worker.c]))
    case ListenTake =>
      if s.listener != Receiving || s.responses == [] then None
      else if s.responses[0] == DELETE_POD then
        Some(s.(listener := Releasing, responses := s.responses[1..], answered := s.answered + [DELETE_POD]))
      else Some(s.(listener := Got(s.responses[0]), responses := s.responses[1..]))
    case ListenLock =>
      if s.listener.Got? && s.lock == Free
      then Some(s.(listener := Handling(s.listener.r), lock := HeldByListener)) else None
    case ListenHandle(outcome) =>
      if !s.listener.Handling? then None
      else HandleAnswer(s, s.listener.r, outcome)
    case ReleaseLock =>
      if s.listener == Releasing && s.lock == Free
      then Some(s.(listener := Stopping, lock := HeldByListener, canProbeWork := false)) else None
    case ReleaseStop =>
      if s.listener == Stopping && s.prober == Selecting then Some(s.(listener := Closing, prober := Stopped)) else None
    case ReleaseClose =>
      if s.listener == Closing then Some(s.(listener := Ended, closed := true, lock := Free)) else None
    case DeleteLock =>
      if s.deleter == NotCalled && s.created && s.lock == Free
      then Some(s.(deleter := Marked, lock := HeldByDeleter, status := Deleted, clean := s.addHandled)) else None
    case DeleteSend =>
      if s.deleter == Marked then Some(s.Send(DELETE_POD).(deleter := Returned, lock := Free)) else None
  }

  function Run(s: State, actions: seq<Action>): Option<State> {
    if actions == [] then Some(s)
    else
      var t := Run(s, actions[..|actions| - 1]);
      if t.None? then None else Next(t.value, actions[|actions| - 1])
  }

  function Count(q: seq<Command>, c: Command): nat {
    if q == [] then 0 else Count(q[..|q| - 1], c) + if q[|q| - 1] == c then 1 else 0
  }

  lemma {:induction false} CountAppend(p: seq<Command>, q: seq<Command>, c: Command)
    ensures Count(p + q, c) == Count(p, c) + Count(q, c)
  {
    if q == [] {
      assert p + q == p;
    } else {
      assert (p + q)[..|p + q| - 1] == p + q[..|q| - 1];
      CountAppend(p, q[..|q| - 1], c);
    }
  }

  lemma {:induction false} CountLength(q: seq<Command>)
    ensures |q| == Count(q, ADD_POD) + Count(q, PROBE_POD) + Count(q, DELETE_POD)
  {
    if q != [] {
      CountLength(q[..|q| - 1]);
    }
  }

  /** Commands on their way, oldest first: at the listener, in the response channel, at the
      worker, in the command channel. */
  function Flow(s: State): seq<Command> {
    Line(AtListener(s), s.responses, AtWorker(s), s.commands)
  }

  function AtListener(s: State): seq<Command> {
    if s.listener.Got? || s.listener.Handling? then [s.listener.r] else []
  }

  function AtWorker(s: State): seq<Command> {
    if s.worker.Working? then [s.worker.c] else []
  }

  /** Who holds the lock, and where the goroutines can be relative to each other. */
  predicate Control(s: State) {
    && (s.lock == HeldByProber <==> s.prober in {Checking, Sent})
    && (s.lock == HeldByListener <==> s.listener.Handling? || s.listener in {Stopping, Closing})
    && (s.lock == HeldByDeleter <==> s.deleter == Marked)
    && (s.listener.Got? || s.listener.Handling? ==> s.listener.r != DELETE_POD)
    && (s.listener in {Releasing, Stopping, Closing, Ended} ==> s.deleter == Returned)
    && (s.deleter != NotCalled ==> s.created)
    && (s.deleter == NotCalled ==> s.status != Deleted)
    && (s.closed <==> s.listener == Ended)
    && (s.prober == Stopped <==> s.listener in {Closing, Ended})
    && (s.worker == Gone ==> s.closed && s.commands == [])
    && (!s.addHandled ==> s.status in {Pending, Failed, Deleted} && s.prober != Sent)
    && (!s.addHandled && s.deleter == NotCalled ==> s.canProbeWork)
    && (s.clean ==> s.addHandled && s.status == Deleted)
    && (s.listener in {Stopping, Closing, Ended} ==> !s.canProbeWork)
  }

  /** How many of each command were sent, are on their way and have been answered. */
  ghost predicate Ledger(s: State) {
    && s.sent == s.answered + Flow(s)
    && Count(Flow(s), PROBE_POD) <= 1
    && (Count(Flow(s), PROBE_POD) == 1 ==> !s.canProbeWork || s.prober == Sent)
    && (s.prober == Sent ==> Count(Flow(s), PROBE_POD) == 1)
    && (s.deleter == NotCalled && s.prober != Sent && Count(Flow(s), PROBE_POD) == 0 ==> s.canProbeWork)
    && Count(s.sent, ADD_POD) == (if s.created then 1 else 0)
    && Count(s.sent, DELETE_POD) == (if s.deleter == Returned then 1 else 0)
    && Count(s.answered, DELETE_POD) == (if s.listener in {Releasing, Stopping, Closing, Ended} then 1 else 0)
    && Count(s.answered, ADD_POD) == (if s.addHandled then 1 else 0)
    && (!s.addHandled ==> Count(s.sent, PROBE_POD) == 0)
  }

  ghost predicate Inv(s: State) {
    Control(s) && Ledger(s)
  }

  /** Commands the action puts on their way. */
  function Emits(a: Action): seq<Command> {
    match a
    case SendAdd => [ADD_POD]
    case ProbeSend => [PROBE_POD]
    case DeleteSend => [DELETE_POD]
    case _ => []
  }

  /** Answers the action finishes with. */
  function Retires(s: State, a: Action): seq<Command> {
    if a.ListenTake? && s.responses != [] && s.responses[0] == DELETE_POD then [DELETE_POD]
    else if a.ListenHandle? && s.listener.Handling? then [s.listener.r] else []
  }

  /** The pipeline as its four sections. */
  function Line(l: seq<Command>, r: seq<Command>, w: seq<Command>, c: seq<Command>): seq<Command> {
    l + r + w + c
  }

  lemma Enters(l: seq<Command>, r: seq<Command>, w: seq<Command>, c: seq<Command>, x: Command)
    ensures Line(l, r, w, c + [x]) == Line(l, r, w, c) + [x]
  {
  }

  lemma Taken(l: seq<Command>, r: seq<Command>, c: seq<Command>)
    requires c != []
    ensures Line(l, r, [c[0]], c[1..]) == Line(l, r, [], c)
  {
  }

  lemma Responded(l: seq<Command>, r: seq<Command>, c: seq<Command>, x: Command)
    ensures Line(l, r + [x], [], c) == Line(l, r, [x], c)
  {
  }

  lemma Received(r: seq<Command>, w: seq<Command>, c: seq<Command>)
    requires r != []
    ensures Line([r[0]], r[1..], w, c) == Line([], r, w, c)
    ensures Line([], r, w, c) == [r[0]] + Line([], r[1..], w, c)
  {
  }

  lemma Handled(r: seq<Command>, w: seq<Command>, c: seq<Command>, x: Command)
    ensures Line([x], r, w, c) == [x] + Line([], r, w, c)
  {
  }

  lemma Unit(q: seq<Command>)
    ensures q + [] == q && [] + q == q
  {
  }

  /** What a step moves along the pipeline: `Emits` enter at the back, `Retires` leave in front. */
  ghost predicate Moves(s: State, a: Action, t: State) {
    && Flow(s) + Emits(a) == Retires(s, a) + Flow(t)
    && t.answered == s.answered + Retires(s, a) && t.sent == s.sent + Emits(a)
  }

  lemma MovesNothing(s: State, a: Action, t: State)
    requires Emits(a) == [] && Retires(s, a) == [] && t.answered == s.answered && t.sent == s.sent && Flow(s) == Flow(t)
    ensures Moves(s, a, t)
  {
    hide Flow;
    Unit(Flow(s)); Unit(s.sent); Unit(s.answered);
  }

  lemma ConveysSend(s: State, a: Action)
    requires Next(s, a).Some? && a in {SendAdd, ProbeSend, DeleteSend} && !s.closed
    ensures Moves(s, a, Next(s, a).value)
  {
    hide Line;
    var t := Next(s, a).value;
    var x := Emits(a)[0];
    assert t.commands == s.commands + [x] && t.responses == s.responses && AtListener(t) == AtListener(s)
           && AtWorker(t) == AtWorker(s);
    Enters(AtListener(s), s.responses, AtWorker(s), s.commands, x);
    assert Flow(t) == Flow(s) + Emits(a);
    Unit(Flow(t)); Unit(s.answered);
  }

  lemma ConveysWork(s: State, a: Action)
    requires Next(s, a).Some? && a in {WorkerTake, WorkerRespond}
    ensures Moves(s, a, Next(s, a).value)
  {
    hide Line;
    var t := Next(s, a).value;
    assert AtListener(t) == AtListener(s);
    if a == WorkerTake {
      Taken(AtListener(s), s.responses, s.commands);
      assert AtWorker(s) == [] && AtWorker(t) == [s.commands[0]];
    } else if !s.closed {
      Responded(AtListener(s), s.responses, s.commands, s.worker.c);
      assert AtWorker(t) == [] && AtWorker(s) == [s.worker.c];
    }
    MovesNothing(s, a, t);
  }

  lemma ConveysTake(s: State)
    requires Next(s, ListenTake).Some?
    ensures Moves(s, ListenTake, Next(s, ListenTake).value)
  {
    hide Line;
    var t := Next(s, ListenTake).value;
    assert AtWorker(t) == AtWorker(s) && AtListener(s) == [];
    Received(s.responses, AtWorker(s), s.commands);
    if s.responses[0] == DELETE_POD {
      assert AtListener(t) == [];
      Leaves(s, ListenTake, t);
    } else {
      assert AtListener(t) == [s.responses[0]];
      MovesNothing(s, ListenTake, t);
    }
  }

  lemma ConveysHandle(s: State, a: Action)
    requires Next(s, a).Some? && a.ListenHandle?
    ensures Moves(s, a, Next(s, a).value)
  {
    hide Line;
    var t := Next(s, a).value;
    assert AtWorker(t) == AtWorker(s) && t.commands == s.commands && t.responses == s.responses;
    assert AtListener(s) == [s.listener.r] && AtListener(t) == [];
    Handled(s.responses, AtWorker(s), s.commands, s.listener.r);
    Leaves(s, a, t);
  }

  lemma Leaves(s: State, a: Action, t: State)
    requires Emits(a) == [] && t.sent == s.sent && t.answered == s.answered + Retires(s, a)
             && Flow(s) == Retires(s, a) + Flow(t)
    ensures Moves(s, a, t)
  {
    hide Flow, Retires;
    Unit(Flow(s)); Unit(s.sent);
  }

  /** First in, first out across both channels and the goroutines between them. */
  lemma Conveys(s: State, a: Action)
    requires Next(s, a).Some? && (a in {SendAdd, ProbeSend, DeleteSend} ==> !s.closed)
    ensures Moves(s, a, Next(s, a).value)
  {
    hide Line, Moves;
    if a in {SendAdd, ProbeSend, DeleteSend} {
      ConveysSend(s, a);
    } else if a in {WorkerTake, WorkerRespond} {
      ConveysWork(s, a);
    } else if a.ListenTake? {
      ConveysTake(s);
    } else if a.ListenHandle? {
      ConveysHandle(s, a);
    } else {
      var t := Next(s, a).value;
      assert AtListener(t) == AtListener(s) && AtWorker(t) == AtWorker(s);
      MovesNothing(s, a, t);
    }
  }

  lemma OneOf(c: Command, d: Command)
    ensures Count([c], d) == if c == d then 1 else 0
  {
    assert [c][..0] == [];
  }

  /** The counts of a command along the pipeline before and after a step. */
  lemma Counts(s: State, a: Action, c: Command)
    requires Next(s, a).Some? && (a in {SendAdd, ProbeSend, DeleteSend} ==> !s.closed)
    requires s.sent == s.answered + Flow(s)
    ensures var t := Next(s, a).value;
            && Count(t.sent, c) == Count(s.sent, c) + Count(Emits(a), c)
            && Count(t.answered, c) == Count(s.answered, c) + Count(Retires(s, a), c)
            && Count(Flow(t), c) == Count(Flow(s), c) + Count(Emits(a), c) - Count(Retires(s, a), c)
            && t.sent == t.answered + Flow(t)
    ensures Count(s.sent, c) == Count(s.answered, c) + Count(Flow(s), c)
  {
    hide Next, Count, Flow, Emits, Retires;
    Conveys(s, a);
    var t := Next(s, a).value;
    CountAppend(s.sent, Emits(a), c);
    CountAppend(s.answered, Retires(s, a), c);
    CountAppend(Flow(s), Emits(a), c);
    CountAppend(Retires(s, a), Flow(t), c);
    CountAppend(s.answered, Flow(s), c);
    assert s.answered + Flow(s) + Emits(a) == s.answered + (Flow(s) + Emits(a));
    assert s.answered + (Retires(s, a) + Flow(t)) == s.answered + Retires(s, a) + Flow(t);
  }

  lemma ProberKeepsControl(s: State, a: Action)
    requires Control(s) && Next(s, a).Some?
             && (a.Tick? || a.ProbeLock? || a.ProbeSend? || a.ProbeSkip? || a.ProbeClear?)
    ensures Control(Next(s, a).value)
  {
  }

  lemma WorkerKeepsControl(s: State, a: Action)
    requires Control(s) && Next(s, a).Some? && (a.WorkerTake? || a.WorkerExit? || a.WorkerRespond?)
    ensures Control(Next(s, a).value)
  {
  }

  lemma ListenerKeepsControl(s: State, a: Action)
    requires Control(s) && Next(s, a).Some? && (a.ListenTake? || a.ListenLock? || a.ListenHandle?)
    requires s.responses != [] && s.responses[0] == DELETE_POD ==> s.deleter == Returned
    requires s.listener.Handling? && s.listener.r != DELETE_POD ==> (s.listener.r == PROBE_POD <==> s.addHandled)
    ensures Control(Next(s, a).value)
  {
  }

  lemma ReleaseKeepsControl(s: State, a: Action)
    requires Control(s) && Next(s, a).Some? && (a.ReleaseLock? || a.ReleaseStop? || a.ReleaseClose?)
    ensures Control(Next(s, a).value)
  {
  }

  lemma DeleterKeepsControl(s: State, a: Action)
    requires Control(s) && Next(s, a).Some? && (a.SendAdd? || a.DeleteLock? || a.DeleteSend?)
    ensures Control(Next(s, a).value)
  {
  }

  lemma StepKeepsControl(s: State, a: Action)
    requires Control(s) && Next(s, a).Some?
    requires s.responses != [] && s.responses[0] == DELETE_POD ==> s.deleter == Returned
    requires s.listener.Handling? && s.listener.r != DELETE_POD ==> (s.listener.r == PROBE_POD <==> s.addHandled)
    ensures Control(Next(s, a).value)
  {
    hide Next, Control;
    if a.Tick? || a.ProbeLock? || a.ProbeSend? || a.ProbeSkip? || a.ProbeClear? {
      ProberKeepsControl(s, a);
    } else if a.WorkerTake? || a.WorkerExit? || a.WorkerRespond? {
      WorkerKeepsControl(s, a);
    } else if a.ListenTake? || a.ListenLock? || a.ListenHandle? {
      ListenerKeepsControl(s, a);
    } else if a.ReleaseLock? || a.ReleaseStop? || a.ReleaseClose? {
      ReleaseKeepsControl(s, a);
    } else {
      DeleterKeepsControl(s, a);
    }
  }

  lemma {:induction false} Counted(q: seq<Command>, i: nat)
    requires i < |q|
    ensures Count(q, q[i]) >= 1
  {
    if i < |q| - 1 {
      Counted(q[..|q| - 1], i);
    }
  }

  /** The head of the response channel has been sent; a probe being handled is on its way. */
  lemma OnItsWay(s: State)
    requires Ledger(s)
    ensures s.responses != [] && s.responses[0] == DELETE_POD ==> s.deleter == Returned
    ensures s.listener.Handling? ==> Count(Flow(s), s.listener.r) >= 1
    ensures s.listener.Handling? && s.listener.r != DELETE_POD ==> (s.listener.r == PROBE_POD <==> s.addHandled)
  {
    hide Count;
    var f := Flow(s);
    CountAppend(s.answered, f, DELETE_POD);
    CountAppend(s.answered, f, PROBE_POD);
    CountAppend(s.answered, f, ADD_POD);
    if s.responses != [] {
      assert f[|AtListener(s)|] == s.responses[0];
      Counted(f, |AtListener(s)|);
    }
    if s.listener.Handling? {
      assert f[0] == s.listener.r;
      Counted(f, 0);
    }
  }

  /** The counters of the ledger after a step, from those before it. */
  lemma StepTally(s: State, a: Action, c: Command)
    requires Inv(s) && Next(s, a).Some?
    ensures var t := Next(s, a).value;
            && Count(t.sent, c) == Count(s.sent, c) + Count(Emits(a), c)
            && Count(t.answered, c) == Count(s.answered, c) + Count(Retires(s, a), c)
            && Count(Flow(t), c) == Count(Flow(s), c) + Count(Emits(a), c) - Count(Retires(s, a), c)
            && t.sent == t.answered + Flow(t)
    ensures Count(s.sent, c) == Count(s.answered, c) + Count(Flow(s), c)
  {
    hide Count, Flow;
    assert a in {SendAdd, ProbeSend, DeleteSend} ==> !s.closed;
    Counts(s, a, c);
  }

  lemma StepKeepsLedger(s: State, a: Action)
    requires Inv(s) && Next(s, a).Some? && Control(Next(s, a).value)
    ensures Ledger(Next(s, a).value)
  {
    hide Count, Flow, Next, Control;
    StepTally(s, a, ADD_POD);
    StepTally(s, a, PROBE_POD);
    StepTally(s, a, DELETE_POD);
    Empty(ADD_POD);
    Empty(PROBE_POD);
    Empty(DELETE_POD);
    OnItsWay(s);
    StepFlags(s, a);
  }

  /** What a step does to the flags the ledger speaks of. */
  lemma StepFlags(s: State, a: Action)
    requires Control(s) && Next(s, a).Some?
    ensures var t := Next(s, a).value;
            && (t.created <==> s.created || a == SendAdd)
            && (a == SendAdd ==> !s.created)
            && (a == DeleteSend ==> s.deleter != Returned)
            && (t.deleter == Returned <==> s.deleter == Returned || a == DeleteSend)
            && (s.deleter != NotCalled ==> t.deleter != NotCalled)
            && (a == ProbeSend ==> s.canProbeWork && s.prober == Checking && t.prober == Sent && s.addHandled)
            && (t.canProbeWork && !s.canProbeWork ==> a.ListenHandle? && s.listener == Handling(PROBE_POD))
            && (s.prober == Sent && t.prober != Sent ==> !t.canProbeWork)
            && (t.prober == Sent && s.prober != Sent ==> a == ProbeSend)
            && (a.ListenHandle? ==> s.prober != Sent)
            && (s.canProbeWork && !t.canProbeWork && t.deleter == NotCalled ==> s.prober == Sent)
            && (a.ListenHandle? && s.listener == Handling(PROBE_POD) && t.deleter == NotCalled ==> t.canProbeWork)
            && (t.addHandled <==> s.addHandled || (a.ListenHandle? && s.listener == Handling(ADD_POD)))
            && (t.listener in {Releasing, Stopping, Closing, Ended} <==>
                s.listener in {Releasing, Stopping, Closing, Ended}
                  || (a == ListenTake && s.responses != [] && s.responses[0] == DELETE_POD))
            && (a == ListenTake ==> s.listener == Receiving)
            && (a.ListenHandle? ==> s.listener.Handling? && s.listener.r != DELETE_POD)
  {
    match a
    case SendAdd =>
    case Tick =>
    case ProbeLock =>
    case ProbeSend =>
    case ProbeSkip =>
    case ProbeClear =>
    case WorkerTake =>
    case WorkerExit =>
    case WorkerRespond =>
    case ListenTake =>
    case ListenLock =>
    case ListenHandle(_) =>
    case ReleaseLock =>
    case ReleaseStop =>
    case ReleaseClose =>
    case DeleteLock =>
    case DeleteSend =>
  }

  lemma Empty(d: Command)
    ensures Count([], d) == 0
    ensures Count([ADD_POD], d) == if d == ADD_POD then 1 else 0
    ensures Count([PROBE_POD], d) == if d == PROBE_POD then 1 else 0
    ensures Count([DELETE_POD], d) == if d == DELETE_POD then 1 else 0
  {
    OneOf(ADD_POD, d);
    OneOf(PROBE_POD, d);
    OneOf(DELETE_POD, d);
  }

  lemma StepKeepsInv(s: State, a: Action)
    requires Inv(s) && Next(s, a).Some?
    ensures Inv(Next(s, a).value)
  {
    hide Next, Control, Ledger;
    OnItsWay(s);
    StepKeepsControl(s, a);
    StepKeepsLedger(s, a);
  }

  lemma {:induction false} Reaches(volumesFailed: bool, actions: seq<Action>)
    requires Run(Init(volumesFailed), actions).Some?
    ensures Inv(Run(Init(volumesFailed), actions).value)
  {
    hide Next, Inv;
    if actions == [] {
      Begins(volumesFailed);
    } else {
      Reaches(volumesFailed, actions[..|actions| - 1]);
      StepKeepsInv(Run(Init(volumesFailed), actions[..|actions| - 1]).value, actions[|actions| - 1]);
    }
  }

  lemma Begins(volumesFailed: bool)
    ensures Inv(Init(volumesFailed))
  {
    assert Flow(Init(volumesFailed)) == [];
  }

  /** Every interleaving, at every moment: a probe on its way excludes another and withholds the
      token (or its sender still is in the critical section); until the pod is deleted, the token is
      there exactly when no probe is on its way, so a running pod is probed again and again; and at
      most two commands are on their way, so a send to either channel never meets a full buffer. */
  lemma OneProbe(volumesFailed: bool, actions: seq<Action>)
    requires Run(Init(volumesFailed), actions).Some?
    ensures var s := Run(Init(volumesFailed), actions).value;
            && Count(Flow(s), PROBE_POD) <= 1
            && (Count(Flow(s), PROBE_POD) == 1 ==> !s.canProbeWork || (s.prober == Sent && s.lock == HeldByProber))
            && (s.deleter == NotCalled && s.prober != Sent ==> (s.canProbeWork <==> Count(Flow(s), PROBE_POD) == 0))
            && (s.listener in {Stopping, Closing, Ended} ==> !s.canProbeWork)
            && |Flow(s)| <= 2 && |s.commands| <= 2 && |s.responses| <= 2
            && s.sent == s.answered + Flow(s)
            && (s.panicked ==> s.deleter == Returned)
  {
    hide Next, Count;
    Reaches(volumesFailed, actions);
    var s := Run(Init(volumesFailed), actions).value;
    CountLength(Flow(s));
    CountAppend(s.answered, Flow(s), ADD_POD);
    CountAppend(s.answered, Flow(s), PROBE_POD);
    CountAppend(s.answered, Flow(s), DELETE_POD);
    Panics(volumesFailed, actions);
  }

  /** The prober sends exactly when it holds the token and the pod runs or has just been created. */
  lemma ProbesWhen(s: State)
    requires !s.panicked && s.prober == Checking
    ensures Next(s, ProbeSend).Some? <==> s.canProbeWork && (s.status == Running || s.status == Created)
    ensures Next(s, ProbeSkip).Some? <==> Next(s, ProbeSend).None?
  {
  }

  /** What each goroutine waits for: a tick, the lock, a command, an answer, or nothing. */
  lemma WaitsFor(s: State)
    requires !s.panicked
    ensures Next(s, Tick).Some? <==> s.prober == Selecting
    ensures Next(s, ProbeLock).Some? <==> s.prober == Ticked && s.lock == Free
    ensures Next(s, ProbeClear).Some? <==> s.prober == Sent
    ensures Next(s, WorkerTake).Some? <==> s.worker == Idle && s.commands != []
    ensures Next(s, WorkerExit).Some? <==> s.worker == Idle && s.commands == [] && s.closed
    ensures Next(s, WorkerRespond).Some? <==> s.worker.Working?
    ensures Next(s, ListenTake).Some? <==> s.listener == Receiving && s.responses != []
    ensures Next(s, ListenLock).Some? <==> s.listener.Got? && s.lock == Free
    ensures Next(s, ReleaseLock).Some? <==> s.listener == Releasing && s.lock == Free
    ensures Next(s, ReleaseClose).Some? <==> s.listener == Closing
    ensures Next(s, DeleteLock).Some? <==> s.deleter == NotCalled && s.created && s.lock == Free
    ensures Next(s, DeleteSend).Some? <==> s.deleter == Marked
    ensures Next(s, SendAdd).Some? <==> !s.created
  {
  }

  /** A pod is reported added or failed; a probe finds it running, created, exited or failing, and after
      the deletion whatever it finds is dropped. */
  lemma AnswersHandled(s: State, outcome: Status)
    requires !s.panicked && s.listener.Handling?
    ensures s.listener.r == ADD_POD ==>
            (Next(s, ListenHandle(outcome)).Some? <==> outcome == Running || outcome == Failed)
    ensures s.listener.r == PROBE_POD ==>
              (Next(s, ListenHandle(outcome)).Some? <==> s.status == Deleted
                                                         || (outcome != Pending && outcome != Deleted))
  {
  }

  /** The status is what was last reported: by the answer being handled, or by the deletion, after which
      only the ADD answer still counts. */
  lemma StatusReported(s: State, a: Action)
    requires Next(s, a).Some?
    ensures Next(s, a).value.status ==
            if a == DeleteLock then Deleted
            else if a.ListenHandle? && (s.listener == Handling(ADD_POD) || s.status != Deleted) then a.outcome
            else s.status
  {
    match a
    case ListenHandle(_) =>
    case DeleteLock =>
    case SendAdd =>
    case ProbeSend =>
    case DeleteSend =>
    case _ =>
  }

  /** `releaseResource` and a prober whose tick has come wait for each other. */
  predicate Deadlocked(s: State) {
    s.listener == Stopping && s.lock == HeldByListener && s.prober == Ticked
  }

  lemma {:induction false} DeadlockStays(s: State, actions: seq<Action>)
    requires Inv(s) && Deadlocked(s) && Run(s, actions).Some?
    ensures Deadlocked(Run(s, actions).value) && Inv(Run(s, actions).value)
  {
    if actions != [] {
      hide Inv;
      DeadlockStays(s, actions[..|actions| - 1]);
      var t := Run(s, actions[..|actions| - 1]).value;
      StepKeepsInv(t, actions[|actions| - 1]);
      StaysDeadlocked(t, actions[|actions| - 1]);
    }
  }

  lemma StaysDeadlocked(s: State, a: Action)
    requires Inv(s) && Deadlocked(s) && Next(s, a).Some?
    ensures Deadlocked(Next(s, a).value)
  {
    hide Ledger;
  }

  /** With the lock taken, `releaseResource` can go on exactly when the prober waits for a tick; and a
      tick that comes first stops both for good. */
  lemma ReleaseWaits(volumesFailed: bool, actions: seq<Action>)
    requires Run(Init(volumesFailed), actions).Some?
    ensures var s := Run(Init(volumesFailed), actions).value;
            !s.panicked && s.listener == Stopping ==>
              && (Next(s, ReleaseStop).Some? <==> s.prober == Selecting)
              && (s.prober != Selecting <==> Deadlocked(s))
              && (s.prober == Selecting ==> Next(s, Tick).Some? && Deadlocked(Next(s, Tick).value))
  {
    hide Ledger, Run;
    Reaches(volumesFailed, actions);
  }

  /** Only the worker can panic, answering into the closed channel; never when the deletion was clean. */
  ghost predicate Orderly(s: State) {
    && (s.panicked ==> s.deleter == Returned && !s.clean)
    && (s.clean && s.deleter == Returned ==> s.sent != [] && s.sent[|s.sent| - 1] == DELETE_POD)
  }

  /** After a clean deletion the channels close on an empty pipeline. */
  lemma ClosesEmpty(s: State)
    requires Inv(s) && Orderly(s) && s.clean && s.closed
    ensures Flow(s) == []
  {
    hide Count;
    var f := Flow(s);
    if f != [] {
      assert s.sent[|s.sent| - 1] == f[|f| - 1];
      Counted(f, |f| - 1);
      CountAppend(s.answered, f, DELETE_POD);
    }
  }

  /** Where a panic comes from. */
  lemma PanicSource(s: State, a: Action)
    requires Control(s) && Next(s, a).Some? && Next(s, a).value.panicked
    ensures s.worker.Working? && s.closed
    ensures var t := Next(s, a).value; t.deleter == Returned && t.clean == s.clean
  {
    match a
    case SendAdd =>
    case ProbeSend =>
    case WorkerRespond =>
    case DeleteSend =>
    case _ =>
  }

  /** After a clean deletion nothing more is sent. */
  lemma LastWord(s: State, a: Action)
    requires Control(s) && Next(s, a).Some? && Next(s, a).value.clean && Next(s, a).value.deleter == Returned
    ensures var t := Next(s, a).value;
            if a == DeleteSend then !s.closed && t.sent == s.sent + [DELETE_POD]
            else s.clean && s.deleter == Returned && t.sent == s.sent
  {
  }

  lemma StepKeepsOrder(s: State, a: Action)
    requires Inv(s) && Orderly(s) && Next(s, a).Some?
    ensures Orderly(Next(s, a).value)
  {
    hide Ledger, Flow, Next, Control;
    var t := Next(s, a).value;
    if t.panicked {
      PanicSource(s, a);
      if s.clean {
        ClosesEmpty(s);
        Idles(s);
      }
    }
    if t.clean && t.deleter == Returned {
      LastWord(s, a);
    }
  }

  lemma Idles(s: State)
    requires Flow(s) == []
    ensures !s.worker.Working? && s.commands == [] && s.responses == []
  {
    assert |Flow(s)| == 0;
  }

  lemma {:induction false} Panics(volumesFailed: bool, actions: seq<Action>)
    requires Run(Init(volumesFailed), actions).Some?
    ensures Orderly(Run(Init(volumesFailed), actions).value)
  {
    if actions != [] {
      hide Next, Inv, Orderly;
      Panics(volumesFailed, actions[..|actions| - 1]);
      Reaches(volumesFailed, actions[..|actions| - 1]);
      StepKeepsOrder(Run(Init(volumesFailed), actions[..|actions| - 1]).value, actions[|actions| - 1]);
    }
  }

  /** Some schedule from here sends on a closed channel. */
  ghost predicate CanPanic(s: State) {
    exists actions :: Run(s, actions).Some? && Run(s, actions).value.panicked
  }

  lemma {:induction false} RunFrom(s: State, a: Action, rest: seq<Action>)
    requires Next(s, a).Some?
    ensures Run(s, [a] + rest) == Run(Next(s, a).value, rest)
  {
    hide Next;
    if rest == [] {
      assert [a] + rest == [a] && [a][..0] == [];
    } else {
      assert ([a] + rest)[..|rest|] == [a] + rest[..|rest| - 1];
      RunFrom(s, a, rest[..|rest| - 1]);
    }
  }

  lemma PanicLater(s: State, a: Action)
    requires Next(s, a).Some? && CanPanic(Next(s, a).value)
    ensures CanPanic(s)
  {
    hide Next;
    var t := Next(s, a).value;
    var rest :| Run(t, rest).Some? && Run(t, rest).value.panicked;
    RunFrom(s, a, rest);
  }

  lemma PanicNow(s: State)
    requires s.panicked
    ensures CanPanic(s)
  {
    assert Run(s, []) == Some(s);
  }

  /** The worker still has a probe while the listener gives the channels up. */
  lemma PanicClosing(s: State)
    requires !s.panicked && !s.closed && s.listener == Releasing && s.lock == Free && s.prober == Selecting
             && s.worker.Working?
    ensures CanPanic(s)
  {
    hide CanPanic;
    var s1 := Next(s, ReleaseLock).value;
    var s2 := Next(s1, ReleaseStop).value;
    var s3 := Next(s2, ReleaseClose).value;
    PanicNow(Next(s3, WorkerRespond).value);
    PanicLater(s3, WorkerRespond);
    PanicLater(s2, ReleaseClose);
    PanicLater(s1, ReleaseStop);
    PanicLater(s, ReleaseLock);
  }

  /** A probe queued behind the DELETE. */
  lemma PanicProbing(s: State)
    requires !s.panicked && !s.closed && s.listener == Receiving && s.lock == Free && s.prober == Selecting
    requires s.worker == Idle && s.commands == [DELETE_POD, PROBE_POD] && s.responses == []
    ensures CanPanic(s)
  {
    hide CanPanic;
    var s1 := Next(s, WorkerTake).value;
    assert s1.commands == [PROBE_POD];
    var s2 := Next(s1, WorkerRespond).value;
    assert s2.responses == [DELETE_POD];
    var s3 := Next(s2, WorkerTake).value;
    var s4 := Next(s3, ListenTake).value;
    PanicClosing(s4);
    PanicLater(s3, ListenTake);
    PanicLater(s2, WorkerTake);
    PanicLater(s1, WorkerRespond);
    PanicLater(s, WorkerTake);
  }

  /** The ADD answer turns the status from Deleted to Running while the DELETE is queued. */
  lemma PanicRevived(s: State)
    requires !s.panicked && !s.closed && s.listener == Got(ADD_POD) && s.lock == Free && s.prober == Ticked
             && s.canProbeWork
    requires s.worker == Idle && s.commands == [DELETE_POD] && s.responses == []
    ensures CanPanic(s)
  {
    hide CanPanic;
    var s1 := Next(s, ListenLock).value;
    var s2 := Next(s1, ListenHandle(Running)).value;
    var s3 := Next(s2, ProbeLock).value;
    var s4 := Next(s3, ProbeSend).value;
    var s5 := Next(s4, ProbeClear).value;
    PanicProbing(s5);
    PanicLater(s4, ProbeClear);
    PanicLater(s3, ProbeSend);
    PanicLater(s2, ProbeLock);
    PanicLater(s1, ListenHandle(Running));
    PanicLater(s, ListenLock);
  }

  /** The sections of the pipeline: at the listener, answered, at the worker, queued. */
  predicate Shape(s: State, l: seq<Command>, r: seq<Command>, w: seq<Command>, c: seq<Command>) {
    AtListener(s) == l && s.responses == r && AtWorker(s) == w && s.commands == c
  }

  /** The marked pod's DELETE is sent, the ADD before it is on its way to the listener and a tick has come. */
  predicate Poised(s: State) {
    && !s.panicked && !s.closed && s.lock == Free && s.prober == Ticked && s.canProbeWork && s.worker != Gone
    && (s.listener == Receiving || s.listener.Got?)
  }

  lemma PanicGot(s: State)
    requires Poised(s) && Shape(s, [ADD_POD], [], [], [DELETE_POD])
    ensures CanPanic(s)
  {
    hide CanPanic;
    assert [s.listener.r][0] == ADD_POD;
    PanicRevived(s);
  }

  lemma PanicAnswered(s: State)
    requires Poised(s) && Shape(s, [], [ADD_POD], [], [DELETE_POD])
    ensures CanPanic(s)
  {
    hide CanPanic;
    PanicGot(Next(s, ListenTake).value);
    PanicLater(s, ListenTake);
  }

  lemma PanicWorking(s: State)
    requires Poised(s) && Shape(s, [], [], [ADD_POD], [DELETE_POD])
    ensures CanPanic(s)
  {
    hide CanPanic;
    assert [s.worker.c][0] == ADD_POD;
    PanicAnswered(Next(s, WorkerRespond).value);
    PanicLater(s, WorkerRespond);
  }

  lemma PanicQueued(s: State)
    requires Poised(s) && Shape(s, [], [], [], [ADD_POD, DELETE_POD])
    ensures CanPanic(s)
  {
    hide CanPanic;
    PanicWorking(Next(s, WorkerTake).value);
    PanicLater(s, WorkerTake);
  }

  /** A single command on its way is in one of four places. */
  lemma Somewhere(s: State, x: Command)
    requires Flow(s) == [x]
    ensures Shape(s, [x], [], [], []) || Shape(s, [], [x], [], []) || Shape(s, [], [], [x], [])
            || Shape(s, [], [], [], [x])
  {
    var l, r, w, c := AtListener(s), s.responses, AtWorker(s), s.commands;
    assert |l| + |r| + |w| + |c| == 1 && Flow(s)[0] == x;
    if |l| == 1 {
    } else if |r| == 1 {
      assert r == [x];
    } else if |w| == 1 {
      assert w == [x];
    } else {
      assert c == [x];
    }
  }

  /** Before the ADD answer is handled, the ADD is all there is. */
  lemma OnlyAdd(s: State)
    requires Inv(s) && !s.addHandled && s.created && s.deleter == NotCalled
    ensures Flow(s) == [ADD_POD]
  {
    hide Count;
    var f := Flow(s);
    CountLength(f);
    CountLength(s.answered);
    CountAppend(s.answered, f, ADD_POD);
    CountAppend(s.answered, f, PROBE_POD);
    CountAppend(s.answered, f, DELETE_POD);
    assert |f| == 1;
    Counted(f, 0);
    assert f[0] == PROBE_POD || f[0] == DELETE_POD || f[0] == ADD_POD;
    assert f == [f[0]];
  }

  lemma PanicDeleted(s: State)
    requires Inv(s) && !s.addHandled && !s.panicked && s.lock == HeldByDeleter && s.prober in {Selecting, Ticked}
             && s.canProbeWork
    requires Flow(s) == [ADD_POD]
    ensures CanPanic(s)
  {
    hide CanPanic, Ledger, Flow;
    var t := Next(s, DeleteSend).value;
    var u := if t.prober == Selecting then Next(t, Tick).value else t;
    Somewhere(s, ADD_POD);
    if Shape(s, [ADD_POD], [], [], []) {
      PanicGot(u);
    } else if Shape(s, [], [ADD_POD], [], []) {
      PanicAnswered(u);
    } else if Shape(s, [], [], [ADD_POD], []) {
      PanicWorking(u);
    } else {
      PanicQueued(u);
    }
    if t.prober == Selecting {
      PanicLater(t, Tick);
    }
    PanicLater(s, DeleteSend);
  }

  /** A run that deletes the pod cleanly never panics afterwards. */
  lemma {:induction false} CleanRun(s: State, actions: seq<Action>)
    requires Inv(s) && Orderly(s) && s.clean && Run(s, actions).Some?
    ensures var t := Run(s, actions).value; Inv(t) && Orderly(t) && t.clean
  {
    if actions != [] {
      hide Next, Inv, Orderly;
      CleanRun(s, actions[..|actions| - 1]);
      var t := Run(s, actions[..|actions| - 1]).value;
      StepKeepsInv(t, actions[|actions| - 1]);
      StepKeepsOrder(t, actions[|actions| - 1]);
      StaysClean(t, actions[|actions| - 1]);
    }
  }

  lemma StaysClean(s: State, a: Action)
    requires Inv(s) && s.clean && Next(s, a).Some?
    ensures Next(s, a).value.clean
  {
    hide Ledger;
    assert a == DeleteLock ==> s.addHandled;
  }

  /** `DeletePod` can lead to a send on a closed channel exactly when it takes the lock before the
      ADD answer has been handled. */
  lemma PanicIffEarly(volumesFailed: bool, actions: seq<Action>)
    requires Run(Init(volumesFailed), actions + [DeleteLock]).Some?
    ensures var s := Run(Init(volumesFailed), actions);
            s.Some? && (CanPanic(Run(Init(volumesFailed), actions + [DeleteLock]).value) <==> !s.value.addHandled)
  {
    hide CanPanic, Next, Inv, Orderly;
    assert (actions + [DeleteLock])[..|actions|] == actions;
    Reaches(volumesFailed, actions);
    Panics(volumesFailed, actions);
    Reaches(volumesFailed, actions + [DeleteLock]);
    Panics(volumesFailed, actions + [DeleteLock]);
    DeleteMarks(Run(Init(volumesFailed), actions).value);
    var t := Run(Init(volumesFailed), actions + [DeleteLock]).value;
    if t.clean {
      CleanNever(t);
    } else {
      PanicDeleted(t);
    }
  }

  lemma CleanNever(t: State)
    requires Inv(t) && Orderly(t) && t.clean
    ensures !CanPanic(t)
  {
    hide Next, Inv;
    forall rest | Run(t, rest).Some?
      ensures !Run(t, rest).value.panicked
    {
      CleanRun(t, rest);
    }
  }

  lemma DeleteMarks(s: State)
    requires Inv(s) && Next(s, DeleteLock).Some?
    ensures var t := Next(s, DeleteLock).value;
            && (t.clean <==> s.addHandled) && t.addHandled == s.addHandled && t.lock == HeldByDeleter && !t.panicked
            && (!s.addHandled ==> t.prober in {Selecting, Ticked} && t.canProbeWork && Flow(t) == [ADD_POD])
  {
    hide Count;
    if !s.addHandled {
      OnlyAdd(s);
    }
  }
}
