/**
 Input of a named-pipe server: what is read from the pipe waits in one of two buffers until a callback takes it
 (TransportInfra/Policies/DispatcherPolicy.hpp, TransportInfra/Policies/ServerCallbackPolicy.hpp).
 A callback is a name for the function that the user of the class registered; None is an empty std::function.
 */
module NamedPipeServer {
  import opened Options
  import opened LinuxIOUtilities

  const DEFAULT_KEY: int := -1

  type Callback = nat

  /** One call of a callback. */
  datatype Delivery = Delivery(callback: Callback, key: int, data: string)

  /** Everything the two policies keep for the pipe, and the calls of callbacks so far. */
  datatype Pipe = Pipe(
    descriptorKey: int,
    retained: string,
    localKey: int,
    local: string,
    callback: Option<Callback>,
    delivered: seq<Delivery>)

  const FRESH: Pipe := Pipe(DEFAULT_KEY, "", DEFAULT_KEY, "", None, [])

  // ---------- the specification of the single operations ----------

  /** The first-message buffer takes data of the first key it meets only. */
  function Stored(p: Pipe, key: int, data: string): Pipe {
    if p.localKey == DEFAULT_KEY || p.localKey == key then p.(localKey := key, local := p.local + data) else p
  }

  function ClientInput(p: Pipe, key: int, data: string): Pipe {
    match p.callback
    case Some(cb) => p.(delivered := p.delivered + [Delivery(cb, key, data)])
    case None => Stored(p, key, data)
  }

  /** Only the first callback is given what waits in the first-message buffer. */
  function Registered(p: Pipe, callback: Option<Callback>): Pipe {
    var q := p.(callback := callback);
    if p.callback.Some? then q
    else ClientInput(q, q.localKey, q.local).(local := "", localKey := DEFAULT_KEY)
  }

  function KeyAfter(p: Pipe, handle: int): int {
    if p.descriptorKey == DEFAULT_KEY then handle else p.descriptorKey
  }

  /** An input event: read, and hand over everything read since the last successful read. */
  function InputEvent(p: Pipe, handle: int, script: seq<ReadResult>): Pipe {
    var q := p.(descriptorKey := KeyAfter(p, handle), retained := p.retained + Got(script));
    if ReadAnswer(script) > 0 then ClientInput(q, q.descriptorKey, q.retained).(retained := "") else q
  }

  /** One thing that happens to the server. */
  datatype Step =
    | Register(callback: Option<Callback>)
    | Input(handle: int, script: seq<ReadResult>)
    | Accept(handle: int, script: seq<ReadResult>)

  function After(p: Pipe, step: Step): Pipe {
    match step
    case Register(callback) => Registered(p, callback)
    case Input(handle, script) => InputEvent(p, handle, script)
    case Accept(handle, script) => InputEvent(p.(descriptorKey := handle), handle, script)
  }

  function Run(p: Pipe, steps: seq<Step>): Pipe
    decreases |steps|
  {
    if steps == [] then p else Run(After(p, steps[0]), steps[1..])
  }

  // ---------- the server itself ----------

  class Server {
    var descriptorKey: int
    var retained: string
    var localKey: int
    var localBuffer: string
    var callback: Option<Callback>
    var delivered: seq<Delivery>

    function State(): Pipe
      reads this
    {
      Pipe(descriptorKey, retained, localKey, localBuffer, callback, delivered)
    }

    constructor ()
      ensures State() == FRESH
    {
      descriptorKey, retained, localKey, localBuffer, callback, delivered := DEFAULT_KEY, "", DEFAULT_KEY, "", None, [];
    }

    method Store(key: int, data: string)
      modifies this`localKey, this`localBuffer
      ensures State() == Stored(old(State()), key, data)
    {
      if localKey == DEFAULT_KEY {
        localKey := key;
      }
      if key != localKey {
        return;
      }
      localBuffer := localBuffer + data;
    }

    method ProcessClientInput(key: int, data: string)
      modifies this`localKey, this`localBuffer, this`delivered
      ensures State() == ClientInput(old(State()), key, data)
    {
      if callback.Some? {
        delivered := delivered + [Delivery(callback.value, key, data)];
        return;
      }
      Store(key, data);
    }

    method RegisterClientInputCallback(cb: Option<Callback>) returns (ok: bool)
      modifies this
      ensures State() == Registered(old(State()), cb) && ok
    {
      var alreadySet := callback.Some?;
      callback := cb;
      if !alreadySet {
        ProcessClientInput(localKey, localBuffer);
        localBuffer := "";
        localKey := DEFAULT_KEY;
      }
      ok := true;
    }

    method ProcessInputEvent(handle: int, script: seq<ReadResult>) returns (ok: bool)
      modifies this
      ensures State() == InputEvent(old(State()), handle, script) && ok
    {
      if descriptorKey == DEFAULT_KEY {
        descriptorKey := handle;
      }
      var sizeRead, used;
      sizeRead, retained, used := Read(script, retained);
      if sizeRead > 0 {
        ProcessClientInput(descriptorKey, retained);
        retained := "";
      }
      ok := true;
    }

    method AcceptClient(handle: int, script: seq<ReadResult>) returns (ok: bool)
      modifies this
      ensures State() == After(old(State()), Accept(handle, script)) && ok
    {
      descriptorKey := handle;
      ok := ProcessInputEvent(handle, script);
    }
  }

  // ---------- who is given what ----------

  /**
   The callback is the one registered last, a first one as much as one that replaces another. It is called once for a
   first registration, with what the first-message buffer holds, and once for every read that gets something, with all
   that has waited since the last such; nothing else calls it, and earlier deliveries stay.
   */
  lemma StepDelivers(p: Pipe, step: Step)
    ensures var q := After(p, step);
      && q.callback == (if step.Register? then step.callback else p.callback)
      && q.delivered == p.delivered +
           if q.callback.None? then []
           else if step.Register? then
             if p.callback.None? then [Delivery(q.callback.value, p.localKey, p.local)] else []
           else if ReadAnswer(step.script) > 0 then
             [Delivery(q.callback.value, q.descriptorKey, p.retained + Got(step.script))]
           else []
  {
    assert p.delivered + [] == p.delivered;
  }

  /** The key is that of the client accepted last, or of the first input before any. */
  lemma StepKey(p: Pipe, step: Step)
    ensures After(p, step).descriptorKey ==
      if step.Accept? then step.handle
      else if step.Input? && p.descriptorKey == -1 then step.handle
      else p.descriptorKey
  {
  }

  lemma {:induction false} LastRegisteredIsCalled(p: Pipe, steps: seq<Step>, k: nat)
    requires k < |steps| && steps[k].Register? && forall i :: k < i < |steps| ==> !steps[i].Register?
    ensures Run(p, steps).callback == steps[k].callback
    decreases |steps|
  {
    StepDelivers(p, steps[0]);
    if k > 0 {
      LastRegisteredIsCalled(After(p, steps[0]), steps[1..], k - 1);
    } else {
      CallbackStays(After(p, steps[0]), steps[1..]);
    }
  }

  lemma {:induction false} CallbackStays(p: Pipe, steps: seq<Step>)
    requires forall i :: 0 <= i < |steps| ==> !steps[i].Register?
    ensures Run(p, steps).callback == p.callback
    decreases |steps|
  {
    if steps != [] {
      StepDelivers(p, steps[0]);
      CallbackStays(After(p, steps[0]), steps[1..]);
    }
  }

  // ---------- conservation ----------

  /** The text of all the deliveries, one behind the other. */
  function Texts(log: seq<Delivery>): string {
    if log == [] then "" else log[0].data + Texts(log[1..])
  }

  lemma {:induction false} TextsSnoc(log: seq<Delivery>, d: Delivery)
    ensures Texts(log + [d]) == Texts(log) + d.data
  {
    if log == [] {
      assert Texts([d]) == d.data + Texts([]);
    } else {
      assert (log + [d])[1..] == log[1..] + [d];
      TextsSnoc(log[1..], d);
    }
  }

  /** Delivered, then waiting for a first callback, then waiting for a successful read. */
  function Everything(p: Pipe): string {
    Texts(p.delivered) + p.local + p.retained
  }

  /** What a step takes from the kernel. */
  function TakenBy(step: Step): string {
    if step.Register? then "" else Got(step.script)
  }

  function Taken(steps: seq<Step>): string {
    if steps == [] then "" else TakenBy(steps[0]) + Taken(steps[1..])
  }

  /** A set callback has been given the first-message buffer. */
  predicate Invariant(p: Pipe) {
    p.callback.Some? ==> p.local == "" && p.localKey == DEFAULT_KEY
  }

  function KeyOf(p: Pipe, step: Step): int
    requires !step.Register?
  {
    if step.Accept? then step.handle else KeyAfter(p, step.handle)
  }

  /**
   The two ways to lose input: an empty callback registered where none was set, with data waiting; and, without a
   callback, data of a key other than the one the waiting data came under.
   */
  predicate Loses(p: Pipe, step: Step) {
    p.callback.None? &&
    if step.Register? then step.callback.None? && p.local != ""
    else ReadAnswer(step.script) > 0 && p.localKey != DEFAULT_KEY && p.localKey != KeyOf(p, step)
  }

  lemma StepKeepsInvariant(p: Pipe, step: Step)
    requires Invariant(p)
    ensures Invariant(After(p, step))
  {
  }

  /** Handing data over moves it from the server's own buffer to the deliveries or to the first-message buffer. */
  lemma ClientInputConserves(p: Pipe, key: int, data: string)
    requires Invariant(p)
    ensures var q := ClientInput(p, key, data);
      if p.callback.Some? || p.localKey == DEFAULT_KEY || p.localKey == key
      then Texts(q.delivered) + q.local == Texts(p.delivered) + p.local + data
      else Texts(q.delivered) + q.local == Texts(p.delivered) + p.local
  {
    if p.callback.Some? {
      TextsSnoc(p.delivered, Delivery(p.callback.value, key, data));
      assert Texts(p.delivered) + "" == Texts(p.delivered);
    } else {
      assert Texts(p.delivered) + (p.local + data) == Texts(p.delivered) + p.local + data;
    }
  }

  lemma RegisterConserves(p: Pipe, callback: Option<Callback>)
    requires Invariant(p)
    ensures var q := Registered(p, callback);
      if Loses(p, Register(callback)) then |Everything(q)| < |Everything(p)| else Everything(q) == Everything(p)
  {
    var q := Registered(p, callback);
    if p.callback.None? {
      if callback.Some? {
        TextsSnoc(p.delivered, Delivery(callback.value, p.localKey, p.local));
        assert Everything(q) == Texts(p.delivered) + p.local + "" + p.retained;
      } else {
        assert |Everything(q)| == |Everything(p)| - |p.local|;
      }
    }
  }

  lemma InputConserves(p: Pipe, handle: int, script: seq<ReadResult>)
    requires Invariant(p)
    ensures var q := InputEvent(p, handle, script);
      if Loses(p, Input(handle, script)) then |Everything(q)| < |Everything(p)| + |Got(script)|
      else Everything(q) == Everything(p) + Got(script)
  {
    var text, got := Texts(p.delivered) + p.local, Got(script);
    var q := p.(descriptorKey := KeyAfter(p, handle), retained := p.retained + got);
    assert text + (p.retained + got) == text + p.retained + got;
    if ReadAnswer(script) > 0 {
      ClientInputConserves(q, q.descriptorKey, q.retained);
      var r := InputEvent(p, handle, script);
      assert Everything(r) == Texts(r.delivered) + r.local;
    }
  }

  /** One step keeps every byte, in order, exactly when it is not one of the losing ones; those really lose. */
  lemma StepConserves(p: Pipe, step: Step)
    requires Invariant(p)
    ensures var q := After(p, step);
      if Loses(p, step) then |Everything(q)| < |Everything(p)| + |TakenBy(step)|
      else Everything(q) == Everything(p) + TakenBy(step)
  {
    match step {
      case Register(callback) =>
        RegisterConserves(p, callback);
        assert Everything(p) + "" == Everything(p);
      case Input(handle, script) => InputConserves(p, handle, script);
      case Accept(handle, script) => InputConserves(p.(descriptorKey := handle), handle, script);
    }
  }

  predicate NeverLoses(p: Pipe, steps: seq<Step>)
    decreases |steps|
  {
    steps != [] ==> !Loses(p, steps[0]) && NeverLoses(After(p, steps[0]), steps[1..])
  }

  /** Over every run: nothing is lost, duplicated or reordered exactly when no step of it is a losing one. */
  lemma {:induction false} RunConserves(p: Pipe, steps: seq<Step>)
    requires Invariant(p)
    ensures var q := Run(p, steps);
      && Invariant(q)
      && if NeverLoses(p, steps) then Everything(q) == Everything(p) + Taken(steps)
         else |Everything(q)| < |Everything(p)| + |Taken(steps)|
    decreases |steps|
  {
    if steps == [] {
      assert Everything(p) + "" == Everything(p);
    } else {
      StepConserves(p, steps[0]);
      StepKeepsInvariant(p, steps[0]);
      RunConserves(After(p, steps[0]), steps[1..]);
      Regroup(Everything(p), TakenBy(steps[0]), Taken(steps[1..]));
    }
  }

  // ---------- one descriptor, callbacks that can be called ----------

  /** A step of a server that keeps its descriptor, and whose user registers callbacks that are not empty. */
  predicate Ordinary(step: Step, handle: int) {
    if step.Register? then step.callback.Some? else step.handle == handle
  }

  predicate OneKey(p: Pipe, handle: int) {
    && (p.descriptorKey == DEFAULT_KEY || p.descriptorKey == handle)
    && (p.localKey == DEFAULT_KEY || p.localKey == handle)
  }

  /** Whatever is delivered, unless it is nothing at all, comes under the key of the descriptor. */
  predicate KeysRight(p: Pipe, handle: int) {
    && (p.local != "" ==> p.localKey == handle)
    && forall i :: 0 <= i < |p.delivered| && p.delivered[i].data != "" ==> p.delivered[i].key == handle
  }

  lemma OrdinaryStep(p: Pipe, step: Step, handle: int)
    requires Invariant(p) && OneKey(p, handle) && KeysRight(p, handle) && Ordinary(step, handle)
    ensures !Loses(p, step)
    ensures OneKey(After(p, step), handle) && KeysRight(After(p, step), handle)
  {
  }

  lemma {:induction false} OrdinaryRun(p: Pipe, steps: seq<Step>, handle: int)
    requires Invariant(p) && OneKey(p, handle) && KeysRight(p, handle)
    requires forall i :: 0 <= i < |steps| ==> Ordinary(steps[i], handle)
    ensures NeverLoses(p, steps) && KeysRight(Run(p, steps), handle)
    decreases |steps|
  {
    if steps != [] {
      OrdinaryStep(p, steps[0], handle);
      StepKeepsInvariant(p, steps[0]);
      OrdinaryRun(After(p, steps[0]), steps[1..], handle);
    }
  }

  /**
   Every run of a new server on one descriptor whose callbacks are not empty: what was delivered, then what waits for
   the first callback, then what waits for a successful read, is exactly what was read - failing reads included - and
   it came under the descriptor's key.
   */
  lemma InputIsConserved(steps: seq<Step>, handle: int)
    requires forall i :: 0 <= i < |steps| ==> Ordinary(steps[i], handle)
    ensures var p := Run(FRESH, steps);
      && Texts(p.delivered) + p.local + p.retained == Taken(steps)
      && KeysRight(p, handle)
  {
    OrdinaryRun(FRESH, steps, handle);
    RunConserves(FRESH, steps);
    assert "" + Taken(steps) == Taken(steps);
  }

  /** With a callback set, a successful read hands over all that has ever been read. */
  lemma SuccessfulReadDeliversAll(steps: seq<Step>, handle: int, script: seq<ReadResult>)
    requires forall i :: 0 <= i < |steps| ==> Ordinary(steps[i], handle)
    requires Run(FRESH, steps).callback.Some? && ReadAnswer(script) > 0
    ensures Texts(InputEvent(Run(FRESH, steps), handle, script).delivered) == Taken(steps) + Got(script)
  {
    OrdinaryRun(FRESH, steps, handle);
    RunConserves(FRESH, steps);
    var p := Run(FRESH, steps);
    InputConserves(p, handle, script);
    assert "" + Taken(steps) == Taken(steps);
    var q := InputEvent(p, handle, script);
    assert Texts(q.delivered) + "" + "" == Texts(q.delivered);
  }
}
