/**
 A client endpoint: its connection states, what it reports and the input it hands over
 (TransportInfra/TransportEndpoint.hpp, TransportInfra/Policies/ClientCallbackPolicy.hpp,
 TransportInfra/Policies/DispatcherPolicy.hpp, TransportInfra/Policies/EventHandlingPolicy.hpp).
 */
module ClientEndpoint {
  import opened Options
  import opened Events
  import opened LinuxIOUtilities

  type SubscriberId = nat
  const NULL_SUBSCRIBER_ID: SubscriberId := 0

  /** The name of a function the user registered; None is an empty std::function. */
  type Callback = nat

  datatype ConnectionState =
    Available | Connecting | Connected | Disconnecting | Disconnected | Bound | Listening

  datatype Endpoint = Endpoint(
    states: seq<ConnectionState>,             // every value the connection state has been given; the last is current
    inProgress: bool,                         // m_connectionInProgress
    subId: SubscriberId,                      // m_listener_sub_id
    hasHandle: bool,                          // m_optional_handle_ref
    inputCallback: Option<Callback>,
    disconnectionCallback: Option<Callback>,
    buffer: string,                           // m_local_buffer
    delivered: seq<string>,                   // what the input callback was given
    reports: seq<Option<Callback>>)           // the calls of ProcessDisconnection, with the callback of the moment

  function Fresh(initial: ConnectionState): Endpoint {
    Endpoint([initial], false, NULL_SUBSCRIBER_ID, false, None, None, "", [], [])
  }

  predicate Valid(p: Endpoint) {
    p.states != []
  }

  function Current(p: Endpoint): ConnectionState
    requires Valid(p)
  {
    p.states[|p.states| - 1]
  }

  // ---------- the specification of the single operations ----------

  function Report(p: Endpoint): Endpoint {
    p.(reports := p.reports + [p.disconnectionCallback])
  }

  function WithState(p: Endpoint, state: ConnectionState): Endpoint
    requires Valid(p)
  {
    var q := p.(states := p.states + [state]);
    if state == Disconnected && Current(p) != Disconnected then Report(q) else q
  }

  function Connect(p: Endpoint, reached: bool, nonBlocking: bool): Endpoint
    requires Valid(p)
  {
    if nonBlocking && reached then WithState(p.(inProgress := true), Connecting) else p
  }

  function Disconnect(p: Endpoint, closes: bool): Endpoint
    requires Valid(p)
  {
    if closes then WithState(p, Disconnected) else p
  }

  function OnConnected(p: Endpoint): Endpoint
    requires Valid(p)
  {
    if p.inProgress then WithState(p.(inProgress := false), Connected) else p
  }

  /** Only an established connection is torn down by an error. */
  function OnError(p: Endpoint, closes: bool): Endpoint
    requires Valid(p)
  {
    if Current(p) == Connected then Disconnect(WithState(p, Disconnecting), closes) else p
  }

  /** A failed read leaves what it had already read in the buffer, for the next one to hand over. */
  function OnInput(p: Endpoint, script: seq<ReadResult>, closes: bool): Endpoint
    requires Valid(p)
  {
    var q := p.(buffer := p.buffer + Got(script));
    if ReadAnswer(script) == -1 then OnError(q, closes)
    else q.(buffer := "", delivered := if p.inputCallback.Some? then p.delivered + [q.buffer] else p.delivered)
  }

  function OnDisconnection(p: Endpoint): Endpoint
    requires Valid(p)
  {
    var q := Report(p);
    if Current(p) != Disconnected then WithState(q, Disconnected) else q
  }

  function Dispatched(p: Endpoint, id: SubscriberId, event: Event, script: seq<ReadResult>, closes: bool):
    (Endpoint, EventResult)
    requires Valid(p)
  {
    if p.subId != id then (p, InvalidReference)
    else
      match event
      case Err => (OnError(p, closes), if Current(p) == Connected && !closes then Failure else Success)
      case Hup => (p, Success)
      case In => (OnInput(p, script, closes), Success)
      case Out => (if Current(p) == Connecting then OnConnected(p) else p, Success)
      case Shutdown => (OnDisconnection(p), Success)
      case _ => (p, MethodNotImplemented)
  }

  /** One thing that happens to the endpoint; `closes`, `reached` and the script are what the system answers. */
  datatype Step =
    | DoConnect(reached: bool, nonBlocking: bool)
    | DoDisconnect(closes: bool)
    | TellConnected
    | Dispatch(id: SubscriberId, event: Event, script: seq<ReadResult>, closes: bool)
    | SetHandle
    | Subscribe(answer: SubscriberId)
    | Unsubscribe(accepted: bool)
    | RegisterInput(callback: Option<Callback>)
    | RegisterDisconnection(callback: Option<Callback>)

  function After(p: Endpoint, step: Step): (q: Endpoint)
    requires Valid(p)
    ensures Valid(q)
  {
    match step
    case DoConnect(reached, nonBlocking) => Connect(p, reached, nonBlocking)
    case DoDisconnect(closes) => Disconnect(p, closes)
    case TellConnected => OnConnected(p)
    case Dispatch(id, event, script, closes) => Dispatched(p, id, event, script, closes).0
    case SetHandle => p.(hasHandle := true)
    case Subscribe(answer) => if p.hasHandle && answer != NULL_SUBSCRIBER_ID then p.(subId := answer) else p
    case Unsubscribe(accepted) => if accepted then p.(subId := NULL_SUBSCRIBER_ID) else p
    case RegisterInput(callback) => p.(inputCallback := callback)
    case RegisterDisconnection(callback) => p.(disconnectionCallback := callback)
  }

  function Run(p: Endpoint, steps: seq<Step>): (q: Endpoint)
    requires Valid(p)
    ensures Valid(q)
    decreases |steps|
  {
    if steps == [] then p else Run(After(p, steps[0]), steps[1..])
  }

  // ---------- the endpoint itself ----------

  class TransportEndpoint {
    var states: seq<ConnectionState>
    var inProgress: bool
    var subId: SubscriberId
    var hasHandle: bool
    var inputCallback: Option<Callback>
    var disconnectionCallback: Option<Callback>
    var buffer: string
    var delivered: seq<string>
    var reports: seq<Option<Callback>>

    function Value(): Endpoint
      reads this
    {
      Endpoint(states, inProgress, subId, hasHandle, inputCallback, disconnectionCallback, buffer, delivered, reports)
    }

    constructor (initial: ConnectionState)
      ensures Value() == Fresh(initial)
    {
      states, inProgress, subId, hasHandle := [initial], false, NULL_SUBSCRIBER_ID, false;
      inputCallback, disconnectionCallback, buffer, delivered, reports := None, None, "", [], [];
    }

    method ProcessDisconnection()
      modifies this`reports
      ensures Value() == Report(old(Value()))
    {
      reports := reports + [disconnectionCallback];
    }

    method SetState(state: ConnectionState)
      requires Valid(Value())
      modifies this`states, this`reports
      ensures Value() == WithState(old(Value()), state)
    {
      var oldState := states[|states| - 1];
      states := states + [state];
      if state == Disconnected && oldState != Disconnected {
        ProcessDisconnection();
      }
    }

    method ConnectTo(reached: bool, nonBlocking: bool) returns (ok: bool)
      requires Valid(Value())
      modifies this
      ensures Value() == Connect(old(Value()), reached, nonBlocking) && ok == reached
    {
      ok := reached;
      if nonBlocking && ok {
        inProgress := true;
        SetState(Connecting);
      }
    }

    method DisconnectDevice(closes: bool) returns (ok: bool)
      requires Valid(Value())
      modifies this
      ensures Value() == Disconnect(old(Value()), closes) && ok == closes
    {
      if closes {
        SetState(Disconnected);
        return true;
      }
      return false;
    }

    method ConnectionDone()
      requires Valid(Value())
      modifies this
      ensures Value() == OnConnected(old(Value()))
    {
      if inProgress {
        inProgress := false;
        SetState(Connected);
      }
    }

    method ProcessErrorEvent(closes: bool) returns (ok: bool)
      requires Valid(Value())
      modifies this
      ensures Value() == OnError(old(Value()), closes)
      ensures ok <==> old(Current(Value())) != Connected || closes
    {
      if states[|states| - 1] == Connected {
        SetState(Disconnecting);
        ok := DisconnectDevice(closes);
        return;
      }
      return true;
    }

    method ProcessInputEvent(script: seq<ReadResult>, closes: bool) returns (ok: bool)
      requires Valid(Value())
      modifies this
      ensures Value() == OnInput(old(Value()), script, closes) && ok == (ReadAnswer(script) != -1)
    {
      var sizeRead, used;
      sizeRead, buffer, used := Read(script, buffer);
      if sizeRead == -1 {
        var _ := ProcessErrorEvent(closes);
        return false;
      }
      if inputCallback.Some? {
        delivered := delivered + [buffer];
      }
      buffer := "";
      return true;
    }

    method ProcessShutdown()
      requires Valid(Value())
      modifies this
      ensures Value() == OnDisconnection(old(Value()))
    {
      ProcessDisconnection();
      if states[|states| - 1] != Disconnected {
        SetState(Disconnected);
      }
    }

    method HandleEvent(id: SubscriberId, event: Event, script: seq<ReadResult>, closes: bool)
      returns (result: EventResult)
      requires Valid(Value())
      modifies this
      ensures (Value(), result) == Dispatched(old(Value()), id, event, script, closes)
    {
      if subId != id {
        return InvalidReference;
      }
      match event {
        case Err =>
          var ok := ProcessErrorEvent(closes);
          return if ok then Success else Failure;
        case Hup => return Success;
        case In =>
          var _ := ProcessInputEvent(script, closes);
          return Success;
        case Out =>
          if states[|states| - 1] == Connecting {
            ConnectionDone();
          }
          return Success;
        case Shutdown =>
          ProcessShutdown();
          return Success;
        case _ => return MethodNotImplemented;
      }
    }

    method ListenerSubscribe(answer: SubscriberId) returns (ok: bool)
      requires Valid(Value())
      modifies this`subId
      ensures Value() == After(old(Value()), Subscribe(answer))
      ensures ok <==> hasHandle && answer != NULL_SUBSCRIBER_ID
    {
      if !hasHandle {
        return false;
      }
      if answer != NULL_SUBSCRIBER_ID {
        subId := answer;
        return true;
      }
      return false;
    }

    method ListenerUnsubscribe(accepted: bool) returns (ok: bool)
      requires Valid(Value())
      modifies this`subId
      ensures Value() == After(old(Value()), Unsubscribe(accepted)) && ok == accepted
    {
      if accepted {
        subId := NULL_SUBSCRIBER_ID;
      }
      ok := accepted;
    }
  }

  // ---------- counting a run ----------

  /** How often the state became x from another state. */
  function Entries(states: seq<ConnectionState>, x: ConnectionState): nat {
    if |states| < 2 then 0
    else
      var last := |states| - 1;
      Entries(states[..last], x) + if states[last] == x && states[last - 1] != x then 1 else 0
  }

  lemma EntriesSnoc(states: seq<ConnectionState>, y: ConnectionState, x: ConnectionState)
    requires states != []
    ensures Entries(states + [y], x) == Entries(states, x) + if y == x && states[|states| - 1] != x then 1 else 0
  {
    assert (states + [y])[..|states|] == states;
  }

  predicate IsShutdown(p: Endpoint, step: Step) {
    step.Dispatch? && step.event == Shutdown && step.id == p.subId
  }

  predicate IsConnect(step: Step) {
    step.DoConnect? && step.reached && step.nonBlocking
  }

  /** SHUTDOWN events that reach the endpoint. */
  function Shutdowns(p: Endpoint, steps: seq<Step>): nat
    requires Valid(p)
    decreases |steps|
  {
    if steps == [] then 0
    else (if IsShutdown(p, steps[0]) then 1 else 0) + Shutdowns(After(p, steps[0]), steps[1..])
  }

  /** Non-blocking connects that the device accepted. */
  function Connects(steps: seq<Step>): nat {
    if steps == [] then 0 else (if IsConnect(steps[0]) then 1 else 0) + Connects(steps[1..])
  }

  // ---------- what one step does to the counts ----------

  /**
   From p to q: as many reports as entries into DISCONNECTED and `extra` ones; no more entries into CONNECTED than the
   flag and `credit` allow; CONNECTING only with the flag.
   */
  predicate Moves(p: Endpoint, q: Endpoint, extra: nat, credit: nat)
    requires Valid(p) && Valid(q)
  {
    && |q.reports| - |p.reports| == Entries(q.states, Disconnected) - Entries(p.states, Disconnected) + extra
    && Entries(q.states, Connected) + (if q.inProgress then 1 else 0) <=
         Entries(p.states, Connected) + (if p.inProgress then 1 else 0) + credit
    && (Current(q) == Connecting && (Current(p) == Connecting ==> p.inProgress) ==> q.inProgress)
  }

  lemma LeavingMoves(p: Endpoint, state: ConnectionState)
    requires Valid(p) && state != Connected && state != Connecting
    ensures Moves(p, WithState(p, state), 0, 0)
  {
    EntriesSnoc(p.states, state, Disconnected);
    EntriesSnoc(p.states, state, Connected);
  }

  lemma ConnectedMoves(p: Endpoint)
    requires Valid(p)
    ensures Moves(p, OnConnected(p), 0, 0)
  {
    EntriesSnoc(p.states, Connected, Disconnected);
    EntriesSnoc(p.states, Connected, Connected);
  }

  lemma ConnectingMoves(p: Endpoint)
    requires Valid(p)
    ensures Moves(p, WithState(p.(inProgress := true), Connecting), 0, 1)
  {
    EntriesSnoc(p.states, Connecting, Disconnected);
    EntriesSnoc(p.states, Connecting, Connected);
  }

  lemma ShutdownMoves(p: Endpoint)
    requires Valid(p)
    ensures Moves(p, OnDisconnection(p), 1, 0)
  {
    LeavingMoves(Report(p), Disconnected);
  }

  lemma ErrorMoves(p: Endpoint, closes: bool)
    requires Valid(p)
    ensures Moves(p, OnError(p, closes), 0, 0)
  {
    if Current(p) == Connected {
      LeavingMoves(p, Disconnecting);
      LeavingMoves(WithState(p, Disconnecting), Disconnected);
    }
  }

  lemma InputMoves(p: Endpoint, script: seq<ReadResult>, closes: bool)
    requires Valid(p)
    ensures Moves(p, OnInput(p, script, closes), 0, 0)
  {
    ErrorMoves(p.(buffer := p.buffer + Got(script)), closes);
  }

  lemma DispatchMoves(p: Endpoint, id: SubscriberId, event: Event, script: seq<ReadResult>, closes: bool)
    requires Valid(p)
    ensures Moves(p, Dispatched(p, id, event, script, closes).0, if id == p.subId && event == Shutdown then 1 else 0, 0)
  {
    match event {
      case Err => ErrorMoves(p, closes);
      case In => InputMoves(p, script, closes);
      case Out => ConnectedMoves(p);
      case Shutdown => ShutdownMoves(p);
      case _ =>
    }
  }

  lemma StepMoves(p: Endpoint, step: Step)
    requires Valid(p)
    ensures Moves(p, After(p, step), if IsShutdown(p, step) then 1 else 0, if IsConnect(step) then 1 else 0)
  {
    match step {
      case DoConnect(reached, nonBlocking) => ConnectingMoves(p);
      case DoDisconnect(closes) => LeavingMoves(p, Disconnected);
      case TellConnected => ConnectedMoves(p);
      case Dispatch(id, event, script, closes) => DispatchMoves(p, id, event, script, closes);
      case _ =>
    }
  }

  // ---------- over every run ----------

  /**
   Disconnections: ProcessDisconnection is called once for every time the endpoint becomes disconnected, and once more
   for every SHUTDOWN event that reaches it; so none goes unreported.
   */
  lemma {:induction false} DisconnectionsAreReported(p: Endpoint, steps: seq<Step>)
    requires Valid(p)
    ensures var q := Run(p, steps);
      |q.reports| - |p.reports| ==
        Entries(q.states, Disconnected) - Entries(p.states, Disconnected) + Shutdowns(p, steps)
    decreases |steps|
  {
    if steps != [] {
      StepMoves(p, steps[0]);
      DisconnectionsAreReported(After(p, steps[0]), steps[1..]);
    }
  }

  /** Connections: the endpoint becomes connected at most once for every non-blocking connect the device accepted. */
  lemma {:induction false} ConnectionsNeedConnects(p: Endpoint, steps: seq<Step>)
    requires Valid(p)
    ensures var q := Run(p, steps);
      Entries(q.states, Connected) + (if q.inProgress then 1 else 0) <=
        Entries(p.states, Connected) + (if p.inProgress then 1 else 0) + Connects(steps)
    decreases |steps|
  {
    if steps != [] {
      StepMoves(p, steps[0]);
      ConnectionsNeedConnects(After(p, steps[0]), steps[1..]);
    }
  }

  lemma {:induction false} ConnectingIsInProgress(p: Endpoint, steps: seq<Step>)
    requires Valid(p) && (Current(p) == Connecting ==> p.inProgress)
    ensures var q := Run(p, steps); Current(q) == Connecting ==> q.inProgress
    decreases |steps|
  {
    if steps != [] {
      StepMoves(p, steps[0]);
      ConnectingIsInProgress(After(p, steps[0]), steps[1..]);
    }
  }

  /** The three laws for an endpoint as it is made, in any state but CONNECTING. */
  lemma EveryRun(initial: ConnectionState, steps: seq<Step>)
    requires initial != Connecting
    ensures var q := Run(Fresh(initial), steps);
      && |q.reports| == Entries(q.states, Disconnected) + Shutdowns(Fresh(initial), steps)
      && Entries(q.states, Connected) <= Connects(steps)
      && (Current(q) == Connecting ==> q.inProgress)
  {
    DisconnectionsAreReported(Fresh(initial), steps);
    ConnectionsNeedConnects(Fresh(initial), steps);
    ConnectingIsInProgress(Fresh(initial), steps);
  }

  /**
   The flag outlives the attempt it belongs to: a connect that is broken off leaves it set, and whoever then says that
   the connection is done finds the endpoint CONNECTED again.
   */
  lemma BrokenOffAttemptCanConnect(initial: ConnectionState)
    ensures var p := Run(Fresh(initial), [DoConnect(true, true), DoDisconnect(true)]);
      Current(p) == Disconnected && p.inProgress && Current(OnConnected(p)) == Connected
  {
    var steps := [DoConnect(true, true), DoDisconnect(true)];
    assert steps[1..] == [DoDisconnect(true)] && steps[1..][1..] == [];
  }

  /** Nothing but becoming connected uses the flag up: disconnecting, errors and SHUTDOWN all leave it. */
  lemma FlagSetExactlyWhen(p: Endpoint, step: Step)
    requires Valid(p)
    ensures After(p, step).inProgress <==>
      || IsConnect(step)
      || (p.inProgress && !step.TellConnected?
          && !(step.Dispatch? && step.event == Out && step.id == p.subId && Current(p) == Connecting))
  {
  }

  // ---------- the state after every step ----------

  /** The endpoint's own event: the one dispatched under the identifier it is subscribed with. */
  predicate Own(p: Endpoint, step: Step, event: Event) {
    step.Dispatch? && step.id == p.subId && step.event == event
  }

  /** An error: ERR, or a read that fails. */
  predicate Errs(p: Endpoint, step: Step) {
    Own(p, step, Err) || (Own(p, step, In) && ReadAnswer(step.script) == -1)
  }

  /** The step tells an attempt that it is connected. */
  predicate Establishes(p: Endpoint, step: Step)
    requires Valid(p)
  {
    p.inProgress && (step.TellConnected? || (Own(p, step, Out) && Current(p) == Connecting))
  }

  /** The step breaks the connection off: an accepted disconnect, SHUTDOWN, or an error met with an open device. */
  predicate BreaksOff(p: Endpoint, step: Step)
    requires Valid(p)
  {
    || (step.DoDisconnect? && step.closes)
    || Own(p, step, Shutdown)
    || (Current(p) == Connected && Errs(p, step) && step.closes)
  }

  lemma ErrorState(p: Endpoint, closes: bool)
    requires Valid(p)
    ensures Current(OnError(p, closes)) ==
      if Current(p) == Connected then (if closes then Disconnected else Disconnecting) else Current(p)
  {
  }

  lemma InputState(p: Endpoint, script: seq<ReadResult>, closes: bool)
    requires Valid(p)
    ensures Current(OnInput(p, script, closes)) ==
      if Current(p) == Connected && ReadAnswer(script) == -1 then (if closes then Disconnected else Disconnecting)
      else Current(p)
  {
    ErrorState(p.(buffer := p.buffer + Got(script)), closes);
  }

  lemma ConnectionDoneState(p: Endpoint)
    requires Valid(p)
    ensures Current(OnConnected(p)) == if p.inProgress then Connected else Current(p)
  {
  }

  lemma ShutdownState(p: Endpoint)
    requires Valid(p)
    ensures Current(OnDisconnection(p)) == Disconnected
  {
  }

  /** An event reaches one operation, or none. */
  lemma EventOperation(p: Endpoint, step: Step)
    requires Valid(p) && step.Dispatch?
    ensures After(p, step) ==
      if step.id != p.subId then p
      else if step.event == Err then OnError(p, step.closes)
      else if step.event == In then OnInput(p, step.script, step.closes)
      else if step.event == Shutdown then OnDisconnection(p)
      else if step.event == Out && Current(p) == Connecting then OnConnected(p)
      else p
  {
  }

  lemma DispatchState(p: Endpoint, step: Step)
    requires Valid(p) && step.Dispatch?
    ensures Current(After(p, step)) ==
      if Establishes(p, step) then Connected
      else if BreaksOff(p, step) then Disconnected
      else if Current(p) == Connected && Errs(p, step) then Disconnecting
      else Current(p)
  {
    EventOperation(p, step);
    ErrorState(p, step.closes);
    InputState(p, step.script, step.closes);
    ConnectionDoneState(p);
    ShutdownState(p);
  }

  /** The state after any step. */
  lemma StateAfter(p: Endpoint, step: Step)
    requires Valid(p)
    ensures Current(After(p, step)) ==
      if IsConnect(step) then Connecting
      else if Establishes(p, step) then Connected
      else if BreaksOff(p, step) then Disconnected
      else if Current(p) == Connected && Errs(p, step) then Disconnecting
      else Current(p)
  {
    if step.Dispatch? {
      DispatchState(p, step);
    }
  }

  /** Which step tears the connection down: one that breaks it off, and none else. */
  lemma BecomesDisconnectedExactlyWhen(p: Endpoint, step: Step)
    requires Valid(p) && Current(p) != Disconnected
    ensures Current(After(p, step)) == Disconnected <==> BreaksOff(p, step)
  {
    StateAfter(p, step);
  }

  lemma BecomesDisconnectingExactlyWhen(p: Endpoint, step: Step)
    requires Valid(p) && Current(p) != Disconnecting
    ensures Current(After(p, step)) == Disconnecting <==> Current(p) == Connected && Errs(p, step) && !step.closes
  {
    StateAfter(p, step);
  }

  lemma BecomesConnectingExactlyWhen(p: Endpoint, step: Step)
    requires Valid(p) && Current(p) != Connecting
    ensures Current(After(p, step)) == Connecting <==> IsConnect(step)
  {
    StateAfter(p, step);
  }

  /** The only ways to become connected: an OUT event while connecting, or being told with the flag set. */
  lemma BecomesConnectedExactlyWhen(p: Endpoint, step: Step)
    requires Valid(p) && Current(p) != Connected && (Current(p) == Connecting ==> p.inProgress)
    ensures Current(After(p, step)) == Connected <==>
      || (step.TellConnected? && p.inProgress)
      || (step.Dispatch? && step.event == Out && step.id == p.subId && Current(p) == Connecting)
  {
    StateAfter(p, step);
  }

  // ---------- whom a report goes to ----------

  /** The reports so far stay, a new one goes to the callback of p, and that stays registered. */
  predicate ReportsTo(p: Endpoint, q: Endpoint) {
    && q.disconnectionCallback == p.disconnectionCallback
    && p.reports <= q.reports
    && forall i :: |p.reports| <= i < |q.reports| ==> q.reports[i] == p.disconnectionCallback
  }

  lemma WithStateReportsTo(p: Endpoint, state: ConnectionState)
    requires Valid(p)
    ensures ReportsTo(p, WithState(p, state))
  {
  }

  lemma ErrorReportsTo(p: Endpoint, closes: bool)
    requires Valid(p)
    ensures ReportsTo(p, OnError(p, closes))
  {
    if Current(p) == Connected {
      WithStateReportsTo(p, Disconnecting);
      WithStateReportsTo(WithState(p, Disconnecting), Disconnected);
    }
  }

  lemma InputReportsTo(p: Endpoint, script: seq<ReadResult>, closes: bool)
    requires Valid(p)
    ensures ReportsTo(p, OnInput(p, script, closes))
  {
    ErrorReportsTo(p.(buffer := p.buffer + Got(script)), closes);
  }

  lemma ShutdownReportsTo(p: Endpoint)
    requires Valid(p)
    ensures ReportsTo(p, OnDisconnection(p))
  {
    WithStateReportsTo(Report(p), Disconnected);
  }

  lemma ConnectedReportsTo(p: Endpoint)
    requires Valid(p)
    ensures ReportsTo(p, OnConnected(p))
  {
    WithStateReportsTo(p.(inProgress := false), Connected);
  }

  lemma DispatchReportsTo(p: Endpoint, id: SubscriberId, event: Event, script: seq<ReadResult>, closes: bool)
    requires Valid(p)
    ensures ReportsTo(p, Dispatched(p, id, event, script, closes).0)
  {
    match event {
      case Err => ErrorReportsTo(p, closes);
      case In => InputReportsTo(p, script, closes);
      case Out => ConnectedReportsTo(p);
      case Shutdown => ShutdownReportsTo(p);
      case _ =>
    }
  }

  /** The reports so far stay, and a new one goes to the callback registered at that moment. */
  lemma ReportsGoToTheRegistered(p: Endpoint, step: Step)
    requires Valid(p)
    ensures var q := After(p, step);
      && p.reports <= q.reports
      && forall i :: |p.reports| <= i < |q.reports| ==> q.reports[i] == p.disconnectionCallback
  {
    match step {
      case DoConnect(reached, nonBlocking) => WithStateReportsTo(p.(inProgress := true), Connecting);
      case DoDisconnect(closes) => WithStateReportsTo(p, Disconnected);
      case TellConnected => ConnectedReportsTo(p);
      case Dispatch(id, event, script, closes) => DispatchReportsTo(p, id, event, script, closes);
      case _ =>
    }
  }

  /** What an event is answered, and that one for another subscriber, or an event of no use, changes nothing. */
  lemma AnswersExactlyWhen(p: Endpoint, id: SubscriberId, event: Event, script: seq<ReadResult>, closes: bool)
    requires Valid(p)
    ensures var (q, result) := Dispatched(p, id, event, script, closes);
      && (result == InvalidReference <==> id != p.subId)
      && (result == MethodNotImplemented <==> id == p.subId && event in {NullEvent, PrioIn})
      && (result == Failure <==> id == p.subId && event == Err && Current(p) == Connected && !closes)
      && result != Default
      && (id != p.subId || event in {NullEvent, PrioIn, Hup} ==> q == p)
  {
  }

  lemma OperationsKeepSubscription(p: Endpoint, script: seq<ReadResult>, closes: bool)
    requires Valid(p)
    ensures OnError(p, closes).(states := p.states, reports := p.reports) == p
    ensures var q := OnInput(p, script, closes);
      q.(states := p.states, reports := p.reports, buffer := p.buffer, delivered := p.delivered) == p
    ensures OnDisconnection(p).(states := p.states, reports := p.reports) == p
    ensures OnConnected(p).(states := p.states, inProgress := p.inProgress) == p
  {
  }

  /** Only the listener's answers change the identifier, and only a handle lets one be given. */
  lemma SubscriptionChangesExactlyWhen(p: Endpoint, step: Step)
    requires Valid(p)
    ensures After(p, step).subId ==
      if step.Subscribe? && p.hasHandle && step.answer != NULL_SUBSCRIBER_ID then step.answer
      else if step.Unsubscribe? && step.accepted then NULL_SUBSCRIBER_ID
      else p.subId
    ensures After(p, step).hasHandle <==> p.hasHandle || step.SetHandle?
  {
    if step.Dispatch? {
      EventOperation(p, step);
      OperationsKeepSubscription(p, step.script, step.closes);
    }
  }

  // ---------- input ----------

  function Joined(pieces: seq<string>): string {
    if pieces == [] then "" else Joined(pieces[..|pieces| - 1]) + pieces[|pieces| - 1]
  }

  function TakenBy(p: Endpoint, step: Step): string {
    if step.Dispatch? && step.event == In && step.id == p.subId then Got(step.script) else ""
  }

  function Taken(p: Endpoint, steps: seq<Step>): string
    requires Valid(p)
    decreases |steps|
  {
    if steps == [] then "" else TakenBy(p, steps[0]) + Taken(After(p, steps[0]), steps[1..])
  }

  /** A read that succeeds without a callback throws its text away. */
  predicate Drops(p: Endpoint, step: Step) {
    && step.Dispatch? && step.event == In && step.id == p.subId
    && p.inputCallback.None? && ReadAnswer(step.script) != -1 && p.buffer + Got(step.script) != ""
  }

  predicate NeverDrops(p: Endpoint, steps: seq<Step>)
    requires Valid(p)
    decreases |steps|
  {
    steps != [] ==> !Drops(p, steps[0]) && NeverDrops(After(p, steps[0]), steps[1..])
  }

  function Input(p: Endpoint): string {
    Joined(p.delivered) + p.buffer
  }

  lemma JoinedSnoc(pieces: seq<string>, piece: string)
    ensures Joined(pieces + [piece]) == Joined(pieces) + piece
  {
    assert (pieces + [piece])[..|pieces|] == pieces;
  }

  lemma OnInputTakes(p: Endpoint, script: seq<ReadResult>, closes: bool)
    requires Valid(p)
    ensures var q, text := OnInput(p, script, closes), p.buffer + Got(script);
      if ReadAnswer(script) == -1 then q.delivered == p.delivered && q.buffer == text
      else q.buffer == "" && q.delivered == if p.inputCallback.Some? then p.delivered + [text] else p.delivered
  {
  }

  lemma StepInput(p: Endpoint, step: Step)
    requires Valid(p)
    ensures var q := After(p, step);
      if Drops(p, step) then |Input(q)| < |Input(p)| + |TakenBy(p, step)| else Input(q) == Input(p) + TakenBy(p, step)
  {
    if step.Dispatch? && step.event == In && step.id == p.subId {
      var text, sofar := p.buffer + Got(step.script), Joined(p.delivered);
      OnInputTakes(p, step.script, step.closes);
      Regroup(sofar, p.buffer, Got(step.script));
      JoinedSnoc(p.delivered, text);
      assert (sofar + text) + "" == sofar + text;
      assert text == "" ==> sofar + "" == sofar + text;
    } else {
      InputUntouched(p, step);
      assert Input(p) + "" == Input(p);
    }
  }

  lemma InputUntouched(p: Endpoint, step: Step)
    requires Valid(p) && !(step.Dispatch? && step.event == In && step.id == p.subId)
    ensures After(p, step).delivered == p.delivered && After(p, step).buffer == p.buffer
  {
  }

  /** A read that succeeds hands over, at once and in one piece, all that has been read since the last such. */
  lemma HandedOverExactlyWhen(p: Endpoint, step: Step)
    requires Valid(p)
    ensures var q := After(p, step);
      if Own(p, step, In) && ReadAnswer(step.script) != -1 then
        q.buffer == "" && q.delivered == p.delivered + if p.inputCallback.Some? then [p.buffer + Got(step.script)]
            else []
      else
        q.delivered == p.delivered && q.buffer == p.buffer + if Own(p, step, In) then Got(step.script) else ""
  {
    if Own(p, step, In) {
      OnInputTakes(p, step.script, step.closes);
    } else {
      InputUntouched(p, step);
      assert p.buffer + "" == p.buffer;
    }
    assert p.delivered + [] == p.delivered;
  }

  /**
   Over every run: what the callback was given, with what waits after a failed read, is what was read, in order, exactly
   when no read succeeded without a callback.
   */
  lemma {:induction false} InputIsConserved(p: Endpoint, steps: seq<Step>)
    requires Valid(p)
    ensures var q := Run(p, steps);
      if NeverDrops(p, steps) then Input(q) == Input(p) + Taken(p, steps)
          else |Input(q)| < |Input(p)| + |Taken(p, steps)|
    decreases |steps|
  {
    if steps == [] {
      assert Input(p) + "" == Input(p);
    } else {
      var t := After(p, steps[0]);
      StepInput(p, steps[0]);
      InputIsConserved(t, steps[1..]);
      Regroup(Input(p), TakenBy(p, steps[0]), Taken(t, steps[1..]));
    }
  }
}
