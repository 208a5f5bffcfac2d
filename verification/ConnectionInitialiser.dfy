/**
 Connecting and accepting endpoints asynchronously: the table of attempts, their completion callbacks and the endpoints
 they own (TransportInfra/EndpointConnectionInitialiserBase.hpp, TransportInfra/Connector.hpp,
 TransportInfra/Acceptor.hpp).
 */
module ConnectionInitialiser {
  import opened Options
  import opened Events

  type SubscriberId = nat
  const NULL_SUBSCRIBER_ID: SubscriberId := 0

  /** Endpoints are numbered in the order of the calls of setup that made them; that number also names the attempt. */
  type EndpointRef = nat
  type CallbackRef = nat

  datatype Role = Connector | Acceptor

  datatype Entry = Entry(attempt: EndpointRef, endpoint: Option<EndpointRef>, callback: CallbackRef)

  /** One call of a completion callback. */
  datatype Completion = Completion(attempt: EndpointRef, callback: CallbackRef, endpoint: Option<EndpointRef>)

  datatype State = State(
    role: Role,
    active: map<SubscriberId, Entry>,   // m_active_subscriptions
    watched: set<SubscriberId>,         // what the demultiplexer watches for this initialiser
    attempts: seq<CallbackRef>,         // the callback each attempt came with
    fired: seq<Completion>,
    destroyed: seq<EndpointRef>)

  function Fresh(role: Role): State {
    State(role, map[], {}, [], [], [])
  }

  // ---------- which events decide an attempt ----------

  predicate HasBit(n: nat, weight: nat)
    requires weight > 0
  {
    n / weight % 2 == 1
  }

  /** enum_flag's `a & (b | c)` is not zero, for numbers below eight. */
  predicate SharesBit(a: nat, b: nat, c: nat) {
    || (HasBit(a, 1) && (HasBit(b, 1) || HasBit(c, 1)))
    || (HasBit(a, 2) && (HasBit(b, 2) || HasBit(c, 2)))
    || (HasBit(a, 4) && (HasBit(b, 4) || HasBit(c, 4)))
  }

  function HandleEventImpl(role: Role, event: Event): EventResult {
    match role
    case Connector =>
      if event == Out then Success
      else if SharesBit(Ordinal(event), Ordinal(Err), Ordinal(Hup)) then Failure
      else Default
    case Acceptor =>
      if event == In then Success else if event == Err then Failure else Default
  }

  /**
   The connector asks whether the event is ERR or HUP by intersecting enumerators as if they were flags. They are
   consecutive numbers: IN and SHUTDOWN share a bit with ERR|HUP too and fail the attempt; of the real events only
   PRIO_IN leaves it undecided.
   */
  lemma ConnectorFailsOn(event: Event)
    ensures HandleEventImpl(Connector, event) == Failure <==> event in {In, Err, Hup, Shutdown}
    ensures HandleEventImpl(Connector, event) == Success <==> event == Out
  {
    match event {
      case NullEvent =>
      case In => assert HasBit(1, 1) && HasBit(5, 1);
      case PrioIn =>
      case Out =>
      case Err => assert HasBit(4, 4);
      case Hup => assert HasBit(5, 4) && HasBit(4, 4);
      case Shutdown => assert HasBit(6, 4) && HasBit(4, 4);
    }
  }

  // ---------- the specification of the single operations ----------

  /** The endpoint that assigning to the entry destroys: the one an older entry under the same key still owned. */
  function Overwritten(s: State, id: SubscriberId): seq<EndpointRef> {
    if id in s.active && s.active[id].endpoint.Some? then [s.active[id].endpoint.value] else []
  }

  /** subscribe(): `id` is what the demultiplexer answers. A refused endpoint is destroyed, its callback forgotten. */
  function Subscribed(s: State, endpoint: EndpointRef, callback: CallbackRef, id: SubscriberId): State {
    if id == NULL_SUBSCRIBER_ID then s.(destroyed := s.destroyed + [endpoint])
    else s.(
      active := s.active[id := Entry(endpoint, Some(endpoint), callback)],
      watched := s.watched + {id},
      destroyed := s.destroyed + Overwritten(s, id))
  }

  /** setup(): `reachable` is what connect answers, or bind and listen. */
  function SetUp(s: State, callback: CallbackRef, reachable: bool, id: SubscriberId): State {
    var endpoint := |s.attempts|;
    var t := s.(attempts := s.attempts + [callback]);
    if reachable then Subscribed(t, endpoint, callback, id) else t.(destroyed := s.destroyed + [endpoint])
  }

  /** A connector's setup for a named pipe completes at once, and reports a failure too. */
  function SetUpPipe(s: State, callback: CallbackRef, reachable: bool): State {
    var endpoint := |s.attempts|;
    var t := s.(attempts := s.attempts + [callback]);
    if reachable then t.(fired := s.fired + [Completion(endpoint, callback, Some(endpoint))])
    else t.(destroyed := s.destroyed + [endpoint], fired := s.fired + [Completion(endpoint, callback, None)])
  }

  function Complete(s: State, id: SubscriberId): State
    requires id in s.active
  {
    var entry := s.active[id];
    s.(active := s.active - {id}, fired := s.fired + [Completion(entry.attempt, entry.callback, entry.endpoint)])
  }

  function Failed(s: State, id: SubscriberId): State
    requires id in s.active
  {
    Complete(s.(
      watched := s.watched - {id},
      destroyed := s.destroyed + Overwritten(s, id),
      active := s.active[id := s.active[id].(endpoint := None)]), id)
  }

  /** `accepts` is what accept answers; a connector's action after connecting cannot fail. */
  function Succeeded(s: State, id: SubscriberId, accepts: bool): State
    requires id in s.active
  {
    var t := s.(watched := s.watched - {id});
    if s.role.Connector? || accepts then Complete(t, id) else t
  }

  function Handled(s: State, id: SubscriberId, event: Event, accepts: bool): (State, EventResult) {
    if id !in s.active then (s, InvalidReference)
    else
      var result := HandleEventImpl(s.role, event);
      if result == Success then (Succeeded(s, id, accepts), result)
      else if result == Failure then (Failed(s, id), result)
      else (s, result)
  }

  /** The event completes the entry: with its endpoint after success, with null after failure; and then it is gone. */
  predicate Decides(s: State, event: Event, accepts: bool) {
    HandleEventImpl(s.role, event) == Failure ||
    (HandleEventImpl(s.role, event) == Success && (s.role.Connector? || accepts))
  }

  datatype Step =
    | Setup(callback: CallbackRef, reachable: bool, id: SubscriberId)
    | SetupPipe(callback: CallbackRef, reachable: bool)  // by a connector
    | Handle(id: SubscriberId, event: Event, accepts: bool)

  function After(s: State, step: Step): State {
    match step
    case Setup(callback, reachable, id) => SetUp(s, callback, reachable, id)
    case SetupPipe(callback, reachable) => SetUpPipe(s, callback, reachable)
    case Handle(id, event, accepts) => Handled(s, id, event, accepts).0
  }

  function Run(s: State, steps: seq<Step>): State
    decreases |steps|
  {
    if steps == [] then s else Run(After(s, steps[0]), steps[1..])
  }

  // ---------- the initialiser itself ----------

  class Initialiser {
    const role: Role
    var active: map<SubscriberId, Entry>
    var watched: set<SubscriberId>
    var attempts: seq<CallbackRef>
    var fired: seq<Completion>
    var destroyed: seq<EndpointRef>

    function Value(): State
      reads this
    {
      State(role, active, watched, attempts, fired, destroyed)
    }

    constructor (role: Role)
      ensures Value() == Fresh(role)
    {
      this.role := role;
      active, watched, attempts, fired, destroyed := map[], {}, [], [], [];
    }

    method DestroyEndpoint(endpoint: Option<EndpointRef>)
      modifies this`destroyed
      ensures destroyed == old(destroyed) + (if endpoint.Some? then [endpoint.value] else [])
    {
      if endpoint.Some? {
        destroyed := destroyed + [endpoint.value];
      }
    }

    method Subscribe(endpoint: EndpointRef, callback: CallbackRef, id: SubscriberId) returns (ok: bool)
      modifies this
      ensures Value() == Subscribed(old(Value()), endpoint, callback, id)
      ensures ok <==> id != NULL_SUBSCRIBER_ID
    {
      if id != NULL_SUBSCRIBER_ID {
        watched := watched + {id};
        if id in active {
          DestroyEndpoint(active[id].endpoint);
        }
        active := active[id := Entry(endpoint, Some(endpoint), callback)];
        return true;
      }
      DestroyEndpoint(Some(endpoint));
      return false;
    }

    method SetupEndpoint(callback: CallbackRef, reachable: bool, id: SubscriberId) returns (ok: bool)
      modifies this
      ensures Value() == SetUp(old(Value()), callback, reachable, id)
      ensures ok <==> reachable && id != NULL_SUBSCRIBER_ID
    {
      var endpoint := |attempts|;
      attempts := attempts + [callback];
      if reachable {
        ok := Subscribe(endpoint, callback, id);
        return;
      }
      DestroyEndpoint(Some(endpoint));
      return false;
    }

    method SetupPipeEndpoint(callback: CallbackRef, reachable: bool) returns (ok: bool)
      modifies this
      ensures Value() == SetUpPipe(old(Value()), callback, reachable) && ok == reachable
    {
      var endpoint := |attempts|;
      attempts := attempts + [callback];
      var wrapper: Option<EndpointRef> := None;
      if reachable {
        wrapper := Some(endpoint);
      } else {
        DestroyEndpoint(Some(endpoint));
      }
      fired := fired + [Completion(endpoint, callback, wrapper)];
      ok := reachable;
    }

    method CompleteClientService(id: SubscriberId)
      requires id in active
      modifies this
      ensures Value() == Complete(old(Value()), id)
    {
      var entry := active[id];
      fired := fired + [Completion(entry.attempt, entry.callback, entry.endpoint)];
      active := active - {id};
    }

    method HandleConnectionSuccess(id: SubscriberId, accepts: bool)
      requires id in active
      modifies this
      ensures Value() == Succeeded(old(Value()), id, accepts)
    {
      watched := watched - {id};
      if role.Connector? || accepts {
        CompleteClientService(id);
      }
    }

    method HandleConnectionFailure(id: SubscriberId)
      requires id in active
      modifies this
      ensures Value() == Failed(old(Value()), id)
    {
      watched := watched - {id};
      DestroyEndpoint(active[id].endpoint);
      active := active[id := active[id].(endpoint := None)];
      CompleteClientService(id);
    }

    method HandleEvent(id: SubscriberId, event: Event, accepts: bool) returns (result: EventResult)
      modifies this
      ensures (Value(), result) == Handled(old(Value()), id, event, accepts)
    {
      if id !in active {
        return InvalidReference;
      }
      result := HandleEventImpl(role, event);
      match result {
        case Success => HandleConnectionSuccess(id, accepts);
        case Failure => HandleConnectionFailure(id);
        case _ =>
      }
    }
  }

  // ---------- every endpoint is somewhere, and in one place only ----------

  function HandedOver(fired: seq<Completion>, e: EndpointRef): nat {
    if fired == [] then 0
    else HandedOver(fired[..|fired| - 1], e) + if fired[|fired| - 1].endpoint == Some(e) then 1 else 0
  }

  function Fired(fired: seq<Completion>, e: EndpointRef): nat {
    if fired == [] then 0
    else Fired(fired[..|fired| - 1], e) + if fired[|fired| - 1].attempt == e then 1 else 0
  }

  function Destroyed(destroyed: seq<EndpointRef>, e: EndpointRef): nat {
    if destroyed == [] then 0
    else Destroyed(destroyed[..|destroyed| - 1], e) + if destroyed[|destroyed| - 1] == e then 1 else 0
  }

  lemma FiredSnoc(fired: seq<Completion>, c: Completion, e: EndpointRef)
    ensures HandedOver(fired + [c], e) == HandedOver(fired, e) + if c.endpoint == Some(e) then 1 else 0
    ensures Fired(fired + [c], e) == Fired(fired, e) + if c.attempt == e then 1 else 0
  {
    assert (fired + [c])[..|fired|] == fired;
  }

  lemma DestroyedSnoc(destroyed: seq<EndpointRef>, d: EndpointRef, e: EndpointRef)
    ensures Destroyed(destroyed + [d], e) == Destroyed(destroyed, e) + if d == e then 1 else 0
  {
    assert (destroyed + [d])[..|destroyed|] == destroyed;
  }

  ghost predicate Active(s: State, e: EndpointRef) {
    exists id :: id in s.active && s.active[id].attempt == e
  }

  /** Where an attempt's endpoint is, counted: in the table, handed over, destroyed. */
  ghost function Places(s: State, e: EndpointRef): nat {
    (if Active(s, e) then 1 else 0) + HandedOver(s.fired, e) + Destroyed(s.destroyed, e)
  }

  /** An entry owns the endpoint it was made with; no two entries belong to one attempt. */
  ghost predicate Owned(s: State) {
    && (forall id :: id in s.active ==>
          var entry := s.active[id];
          entry.endpoint == Some(entry.attempt) && entry.attempt < |s.attempts| &&
              entry.callback == s.attempts[entry.attempt])
    && (forall i, j :: i in s.active && j in s.active && s.active[i].attempt == s.active[j].attempt ==> i == j)
  }

  /** The endpoint is in one place, and only there; its attempt fired at most once, and not while it is in the table. */
  ghost predicate Settled(s: State, e: EndpointRef) {
    && Places(s, e) == (if e < |s.attempts| then 1 else 0)
    && Fired(s.fired, e) <= (if e < |s.attempts| && !Active(s, e) then 1 else 0)
  }

  /** A callback is the one the attempt came with, and gets that attempt's endpoint or null. */
  ghost predicate FiresRight(s: State) {
    forall i :: 0 <= i < |s.fired| ==>
      var c := s.fired[i];
      c.attempt < |s.attempts| && c.callback == s.attempts[c.attempt] &&
          (c.endpoint == Some(c.attempt) || c.endpoint == None)
  }

  ghost predicate Invariant(s: State) {
    Owned(s) && FiresRight(s) && forall e: EndpointRef :: Settled(s, e)
  }

  lemma SetUpSettles(s: State, callback: CallbackRef, reachable: bool, id: SubscriberId, e: EndpointRef)
    requires Owned(s) && Settled(s, e)
    ensures Settled(SetUp(s, callback, reachable, id), e)
  {
    var made, t := |s.attempts|, SetUp(s, callback, reachable, id);
    if !reachable || id == NULL_SUBSCRIBER_ID {
      DestroyedSnoc(s.destroyed, made, e);
      assert Active(t, e) == Active(s, e);
    } else {
      SubscribeActive(s, t, callback, id, e);
      if id in s.active {
        DestroyedSnoc(s.destroyed, s.active[id].attempt, e);
      } else {
        assert t.destroyed == s.destroyed;
      }
    }
  }

  lemma SubscribeActive(s: State, t: State, callback: CallbackRef, id: SubscriberId, e: EndpointRef)
    requires Owned(s) && t.active == s.active[id := Entry(|s.attempts|, Some(|s.attempts|), callback)]
    ensures Active(t, e) <==> e == |s.attempts| || (Active(s, e) && !(id in s.active && s.active[id].attempt == e))
    ensures id in s.active ==> Active(s, s.active[id].attempt)
  {
    if e == |s.attempts| {
      assert t.active[id].attempt == e;
    } else if Active(s, e) && !(id in s.active && s.active[id].attempt == e) {
      var i :| i in s.active && s.active[i].attempt == e;
      assert t.active[i].attempt == e;
    }
  }

  lemma SetUpPipeSettles(s: State, callback: CallbackRef, reachable: bool, e: EndpointRef)
    requires Owned(s) && Settled(s, e)
    ensures Settled(SetUpPipe(s, callback, reachable), e)
  {
    var made, t := |s.attempts|, SetUpPipe(s, callback, reachable);
    FiredSnoc(s.fired, Completion(made, callback, if reachable then Some(made) else None), e);
    DestroyedSnoc(s.destroyed, made, e);
    assert Active(t, e) == Active(s, e);
  }

  /** Completing an entry with its endpoint, or with null once the endpoint is destroyed. */
  ghost predicate Completed(s: State, id: SubscriberId, t: State)
    requires id in s.active
  {
    var entry := s.active[id];
    && t.attempts == s.attempts && t.active == s.active - {id}
    && (|| (t.fired == s.fired + [Completion(entry.attempt, entry.callback, Some(entry.attempt))] &&
        t.destroyed == s.destroyed)
        || (t.fired == s.fired + [Completion(entry.attempt, entry.callback, None)] &&
            t.destroyed == s.destroyed + [entry.attempt]))
  }

  lemma CompletedActive(s: State, id: SubscriberId, t: State, e: EndpointRef)
    requires Owned(s) && id in s.active && t.active == s.active - {id}
    ensures Active(t, e) <==> Active(s, e) && e != s.active[id].attempt
    ensures Active(s, s.active[id].attempt)
  {
    if Active(s, e) && e != s.active[id].attempt {
      var i :| i in s.active && s.active[i].attempt == e;
      assert i in t.active;
    }
  }

  lemma CompletedSettles(s: State, id: SubscriberId, t: State, e: EndpointRef)
    requires Owned(s) && id in s.active && Completed(s, id, t) && Settled(s, e)
    ensures Settled(t, e)
  {
    var entry := s.active[id];
    FiredSnoc(s.fired, Completion(entry.attempt, entry.callback, Some(entry.attempt)), e);
    FiredSnoc(s.fired, Completion(entry.attempt, entry.callback, None), e);
    DestroyedSnoc(s.destroyed, entry.attempt, e);
    CompletedActive(s, id, t, e);
  }

  /** An event either completes the entry or leaves table, callbacks and endpoints as they are. */
  lemma HandledCompletes(s: State, id: SubscriberId, event: Event, accepts: bool)
    requires Owned(s)
    ensures var t := Handled(s, id, event, accepts).0;
      if id in s.active && Decides(s, event, accepts) then Completed(s, id, t)
      else t == s.(watched := t.watched)
  {
  }

  lemma HandledSettles(s: State, id: SubscriberId, event: Event, accepts: bool, e: EndpointRef)
    requires Owned(s) && Settled(s, e)
    ensures Settled(Handled(s, id, event, accepts).0, e)
  {
    var t := Handled(s, id, event, accepts).0;
    HandledCompletes(s, id, event, accepts);
    if id in s.active && Decides(s, event, accepts) {
      CompletedSettles(s, id, t, e);
    } else {
      assert Active(t, e) == Active(s, e);
    }
  }

  lemma StepSettles(s: State, step: Step, e: EndpointRef)
    requires Owned(s) && Settled(s, e)
    ensures Settled(After(s, step), e)
  {
    match step {
      case Setup(callback, reachable, id) => SetUpSettles(s, callback, reachable, id, e);
      case SetupPipe(callback, reachable) => SetUpPipeSettles(s, callback, reachable, e);
      case Handle(id, event, accepts) => HandledSettles(s, id, event, accepts, e);
    }
  }

  lemma SetUpOwns(s: State, callback: CallbackRef, reachable: bool, id: SubscriberId)
    requires Owned(s) && FiresRight(s)
    ensures Owned(SetUp(s, callback, reachable, id)) && FiresRight(SetUp(s, callback, reachable, id))
  {
  }

  lemma SetUpPipeOwns(s: State, callback: CallbackRef, reachable: bool)
    requires Owned(s) && FiresRight(s)
    ensures Owned(SetUpPipe(s, callback, reachable)) && FiresRight(SetUpPipe(s, callback, reachable))
  {
  }

  lemma HandledOwns(s: State, id: SubscriberId, event: Event, accepts: bool)
    requires Owned(s) && FiresRight(s)
    ensures Owned(Handled(s, id, event, accepts).0) && FiresRight(Handled(s, id, event, accepts).0)
  {
    HandledCompletes(s, id, event, accepts);
  }

  lemma StepOwns(s: State, step: Step)
    requires Owned(s) && FiresRight(s)
    ensures Owned(After(s, step)) && FiresRight(After(s, step))
  {
    match step {
      case Setup(callback, reachable, id) => SetUpOwns(s, callback, reachable, id);
      case SetupPipe(callback, reachable) => SetUpPipeOwns(s, callback, reachable);
      case Handle(id, event, accepts) => HandledOwns(s, id, event, accepts);
    }
  }

  lemma StepKeepsInvariant(s: State, step: Step)
    requires Invariant(s)
    ensures Invariant(After(s, step))
  {
    StepOwns(s, step);
    forall e: EndpointRef
      ensures Settled(After(s, step), e)
    {
      StepSettles(s, step, e);
    }
  }

  lemma {:induction false} RunKeepsInvariant(s: State, steps: seq<Step>)
    requires Invariant(s)
    ensures Invariant(Run(s, steps))
    decreases |steps|
  {
    if steps != [] {
      StepKeepsInvariant(s, steps[0]);
      RunKeepsInvariant(After(s, steps[0]), steps[1..]);
    }
  }

  /**
   Over every run: every endpoint made is in the table, handed over or destroyed, in exactly one of them and there once;
   every attempt calls back at most once and is then gone; the callback is its own, and gets its own endpoint or null.
   */
  lemma EndpointsAreConserved(role: Role, steps: seq<Step>)
    ensures var s := Run(Fresh(role), steps); Invariant(s)
  {
    var s := Fresh(role);
    forall e: EndpointRef
      ensures Settled(s, e)
    {
      assert !Active(s, e);
    }
    RunKeepsInvariant(s, steps);
  }

  // ---------- when an attempt is decided ----------

  lemma DecidedExactlyWhen(s: State, id: SubscriberId, event: Event, accepts: bool)
    requires Owned(s)
    ensures var t := Handled(s, id, event, accepts).0;
      if id in s.active && Decides(s, event, accepts) then
        && id !in t.active && id !in t.watched
        && t.fired == s.fired + [Completion(s.active[id].attempt, s.active[id].callback,
             if HandleEventImpl(s.role, event) == Success then Some(s.active[id].attempt) else None)]
      else t.fired == s.fired && t.active == s.active && t.destroyed == s.destroyed
  {
  }

  /** The acceptor's two events. */
  lemma AcceptorDecidesOn(event: Event)
    ensures HandleEventImpl(Acceptor, event) == Success <==> event == In
    ensures HandleEventImpl(Acceptor, event) == Failure <==> event == Err
  {
  }

  /**
   A setup stores its own endpoint with its own callback, is watched, and fires nothing, exactly when it gets as far as
   an identifier. Then only the entry stored under it before is destroyed, and otherwise only the new endpoint.
   */
  lemma StoredExactlyWhen(s: State, callback: CallbackRef, reachable: bool, id: SubscriberId)
    requires Owned(s)
    ensures var made, t := |s.attempts|, After(s, Setup(callback, reachable, id));
      && t.attempts == s.attempts + [callback] && t.fired == s.fired && t.role == s.role
      && (reachable && id != NULL_SUBSCRIBER_ID <==>
            id in t.active && t.active[id] == Entry(made, Some(made), callback))
      && (forall other :: other != id ==>
            && (other in t.active <==> other in s.active) && (other in t.watched <==> other in s.watched)
            && (other in t.active ==> t.active[other] == s.active[other]))
      && if reachable && id != NULL_SUBSCRIBER_ID then
           && id in t.watched
           && t.destroyed == s.destroyed + (if id in s.active then [s.active[id].attempt] else [])
         else
           && t.active == s.active && t.watched == s.watched && t.destroyed == s.destroyed + [made]
  {
  }

  /** The steps that leave an entry alone: setups answered another identifier, events of another, and undecided ones. */
  predicate LeavesAlone(s: State, step: Step, id: SubscriberId) {
    match step
    case Setup(_, reachable, other) => !reachable || other != id
    case SetupPipe(_, _) => true
    case Handle(other, event, accepts) => other != id || !Decides(s, event, accepts)
  }

  predicate AllLeaveAlone(s: State, steps: seq<Step>, id: SubscriberId)
    decreases |steps|
  {
    steps != [] ==> LeavesAlone(s, steps[0], id) && AllLeaveAlone(After(s, steps[0]), steps[1..], id)
  }

  lemma {:induction false} EntryStays(s: State, steps: seq<Step>, id: SubscriberId)
    requires id in s.active && AllLeaveAlone(s, steps, id)
    ensures var t := Run(s, steps); t.role == s.role && id in t.active && t.active[id] == s.active[id]
    decreases |steps|
  {
    if steps != [] {
      EntryStays(After(s, steps[0]), steps[1..], id);
    }
  }

  /**
   The life of an attempt: set up, left alone for however long, and decided. Its own callback is then given its own
   endpoint after success, and null after failure, and the entry is gone.
   */
  lemma AttemptCompletes(
      s: State, callback: CallbackRef, id: SubscriberId, steps: seq<Step>, event: Event, accepts: bool)
    requires Owned(s) && id != NULL_SUBSCRIBER_ID && Decides(s, event, accepts)
    requires AllLeaveAlone(After(s, Setup(callback, true, id)), steps, id)
    ensures var made, before := |s.attempts|, Run(After(s, Setup(callback, true, id)), steps);
      var t := After(before, Handle(id, event, accepts));
      && t.fired == before.fired + [Completion(made, callback,
           if event == (if s.role == Connector then Out else In) then Some(made) else None)]
      && id !in t.active && id !in t.watched
  {
    var stored := After(s, Setup(callback, true, id));
    StoredExactlyWhen(s, callback, true, id);
    EntryStays(stored, steps, id);
    ConnectorFailsOn(event);
    AcceptorDecidesOn(event);
  }

  /** A named pipe's attempt is over when its setup is: its callback has been given its endpoint, or null. */
  lemma PipeCompletesAtOnce(s: State, callback: CallbackRef, reachable: bool)
    ensures var made, t := |s.attempts|, After(s, SetupPipe(callback, reachable));
      && t.attempts == s.attempts + [callback] && t.active == s.active && t.watched == s.watched
      && t.fired == s.fired + [Completion(made, callback, if reachable then Some(made) else None)]
      && t.destroyed == s.destroyed + (if reachable then [] else [made])
  {
  }

  /** What is answered to an event, and that an undecided or an unknown one changes nothing. */
  lemma AnswersExactlyWhen(s: State, id: SubscriberId, event: Event, accepts: bool)
    ensures var (t, result) := Handled(s, id, event, accepts);
      && (result == InvalidReference <==> id !in s.active)
      && (id in s.active && s.role == Connector ==>
            && (result == Success <==> event == Out) && (result == Failure <==> event in {In, Err, Hup, Shutdown}))
      && (id in s.active && s.role == Acceptor ==>
            && (result == Success <==> event == In) && (result == Failure <==> event == Err))
      && (result != Success && result != Failure ==> t == s)
  {
    ConnectorFailsOn(event);
    AcceptorDecidesOn(event);
  }

  /** An attempt leaves the table without a word only when a later setup is answered the same identifier. */
  lemma OnlyOverwritingSilences(s: State, step: Step, id: SubscriberId)
    requires Owned(s) && id in s.active
    ensures var t := After(s, step);
      !(id in t.active && t.active[id] == s.active[id]) ==>
        || (step.Setup? && step.reachable && step.id == id && t.fired == s.fired)
        || (|t.fired| == |s.fired| + 1 && t.fired[|s.fired|].attempt == s.active[id].attempt)
  {
  }

  /** An accept that fails strands the entry: still in the table, but no longer watched. */
  lemma FailedAcceptStrands(s: State, id: SubscriberId)
    requires s.role == Acceptor && id in s.active
    ensures var t := Handled(s, id, In, false).0;
      t.active == s.active && id !in t.watched && t.fired == s.fired
  {
  }

  /** The step is an accept that fails, for an entry of an acceptor's table. */
  predicate Strands(s: State, step: Step) {
    s.role == Acceptor && step.Handle? && step.id in s.active && step.event == In && !step.accepts
  }

  /** What is in the table stays exactly what is watched, unless the step is such a failed accept. */
  lemma TableStaysWatchedExactlyWhen(s: State, step: Step)
    requires s.active.Keys == s.watched
    ensures After(s, step).active.Keys == After(s, step).watched <==> !Strands(s, step)
  {
    if Strands(s, step) {
      FailedAcceptStrands(s, step.id);
      assert step.id in s.active.Keys;
    }
  }

  predicate NeverStrands(s: State, steps: seq<Step>)
    decreases |steps|
  {
    steps != [] ==> !Strands(s, steps[0]) && NeverStrands(After(s, steps[0]), steps[1..])
  }

  /** Over every run of connector or acceptor in which no accept fails, the table is exactly what is watched. */
  lemma {:induction false} TableIsWatched(s: State, steps: seq<Step>)
    requires s.active.Keys == s.watched && NeverStrands(s, steps)
    ensures Run(s, steps).active.Keys == Run(s, steps).watched
    decreases |steps|
  {
    if steps != [] {
      TableStaysWatchedExactlyWhen(s, steps[0]);
      TableIsWatched(After(s, steps[0]), steps[1..]);
    }
  }

  /** A stranded entry stays so until its identifier is set up again or an event decides it after all. */
  lemma StrandedStays(s: State, step: Step, id: SubscriberId)
    requires id in s.active && id !in s.watched
    ensures var t := After(s, step);
      (id in t.active && id !in t.watched) <==>
        !(step.Setup? && step.reachable && step.id == id && id != NULL_SUBSCRIBER_ID)
        && !(step.Handle? && step.id == id && Decides(s, step.event, step.accepts))
  {
  }

  /** A connector never strands one: what is in its table is exactly what the demultiplexer watches for it. */
  lemma {:induction false} ConnectorTableIsWatched(s: State, steps: seq<Step>)
    requires s.role == Connector && s.active.Keys == s.watched
    ensures var t := Run(s, steps); t.role == Connector && t.active.Keys == t.watched
    decreases |steps|
  {
    if steps != [] {
      TableStaysWatchedExactlyWhen(s, steps[0]);
      ConnectorTableIsWatched(After(s, steps[0]), steps[1..]);
    }
  }
}
