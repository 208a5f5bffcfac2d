/**
 The reactor as its threads really interleave: one step is one lock-protected section of one thread. Any number of
 threads run public calls (a handler that calls back into the reactor counts as one more of them), the monitor thread
 pushes notifications, and the event thread consumes them with an explicit program counter.
 */
module InterleavedReactor {
  import opened Options
  import opened Events
  import opened ReactorTables

  type ThreadId = nat

  datatype Request = Request(h: Handle, mask: Mask, ref: HandlerRef)

  /** What a public call goes on to do once its cleanupExpired is over. */
  datatype Continuation = ThenSubscribe(req: Request) | ThenUnsubscribe(target: SubscriberId) | ThenReturn

  /** Where a thread stands in its public call: each constructor names the section about to be executed. */
  datatype CallPc =
    | StartingCleanup(next: Continuation)
    | Collecting(next: Continuation, pending: set<SubscriberId>, removed: seq<SubscriberId>)  // holds the table's lock
    | Erasing(next: Continuation, removed: seq<SubscriberId>)
    // subscribe
    | GettingKey(req: Request)
    | SearchingKey(req: Request, id: SubscriberId)
    | TestingProgress(req: Request, id: SubscriberId)
    | Adding(req: Request, id: SubscriberId, already: bool)
    | Updating(req: Request, id: SubscriberId)
    | Registering(req: Request, id: SubscriberId)
    | Mapping(req: Request, id: SubscriberId)
    | Confirming(req: Request, id: SubscriberId)
    | AddingHandler(req: Request, id: SubscriberId)
    | RollingBack(req: Request, id: SubscriberId)
    // unsubscribe
    | FindingEntry(target: SubscriberId)
    | Unmapping(target: SubscriberId, ctx: SubscriberContext)
    | Unwatching(target: SubscriberId, ctx: SubscriberContext)
    | Forgetting(target: SubscriberId)
    | DroppingHandler(target: SubscriberId)
    | Returned(answer: SubscriberId, ok: bool)

  datatype EventPc =
    | Waiting
    | Popped(n: Notification)
    | Keyed(n: Notification, id: SubscriberId)
    | Entering(n: Notification, id: SubscriberId, ctx: SubscriberContext)
    | MarkingAbsent(id: SubscriberId, ctx: SubscriberContext)
    | Dispatching(id: SubscriberId, ctx: SubscriberContext, todo: seq<Event>)
    | MarkingInvalid(id: SubscriberId, ctx: SubscriberContext)
    | Leaving(id: SubscriberId)
    | Stopped

  /** One call of a handler. A wrapper without a handler answers INVALID_REFERENCE itself. */
  datatype Delivery = Delivery(id: SubscriberId, handler: Option<HandlerRef>, event: Event, result: EventResult)

  datatype Outcome = InHand | LastOne | Ignored | HandlerGone | Handled

  /** What became of one consumed notification: what the two lookups found, and the calls of the handler. */
  datatype Record = Record(
    n: Notification,
    outcome: Outcome,
    entry: Option<SubscriberContext>,  // value_for in the subscribers table
    wrapper: Option<HandlerWrapper>,   // find in the handlers table
    deliveries: seq<Delivery>)

  datatype State = State(
    t: Tables,
    tableLock: Option<ThreadId>,       // the subscribers table's lock, held across the collect pass of remove_if
    calls: map<ThreadId, CallPc>,
    queue: seq<Notification>,
    event: EventPc,
    pushed: seq<Notification>,         // everything ever pushed
    history: seq<Record>,              // everything ever consumed
    undefined: bool)                   // an end iterator has been erased

  const INITIAL := State(EMPTY_TABLES, None, map[], [], Waiting, [], [], false)

  datatype Action =
    | Invoke(tid: ThreadId, next: Continuation)
    | Advance(tid: ThreadId, pick: SubscriberId, accepts: bool)
    | Ready(h: Handle, mask: Mask)
    | RequestStop
    | EventAdvance(order: seq<Event>, answer: EventResult)

  // ---------- steps of a public call ----------

  function At(s: State, tid: ThreadId, pc: CallPc): State {
    s.(calls := s.calls[tid := pc])
  }

  function AfterCleanup(next: Continuation): CallPc {
    match next
    case ThenSubscribe(req) => GettingKey(req)
    case ThenUnsubscribe(target) => FindingEntry(target)
    case ThenReturn => Returned(NULL_SUBSCRIBER_ID, true)
  }

  /** The section works on the subscribers table, so it waits while another thread holds that table's lock. */
  predicate NeedsTable(pc: CallPc) {
    || pc.StartingCleanup? || (pc.Erasing? && pc.removed != []) || pc.SearchingKey? || pc.Adding? || pc.Confirming?
    || pc.RollingBack? || pc.FindingEntry? || pc.Forgetting?
  }

  function CleanupStep(s: State, tid: ThreadId, pc: CallPc, pick: SubscriberId): State
    requires pc.StartingCleanup? || pc.Collecting? || pc.Erasing?
  {
    match pc
    case StartingCleanup(next) =>
      At(s, tid, Collecting(next, s.t.subs.Keys, [])).(tableLock := Some(tid))
    case Collecting(next, pending, removed) =>
      if pending == {} then
        At(s, tid, Erasing(next, removed)).(tableLock := None)
      else if pick in s.t.subs && Stale(s.t.subs[pick]) && Removable(s.t.handlers, pick) then
        At(s, tid, Collecting(next, pending - {pick}, removed + [pick])).(t := s.t.(handlers := s.t.handlers - {pick}))
      else
        At(s, tid, Collecting(next, pending - {pick}, removed))
    case Erasing(next, removed) =>
      if removed == [] then At(s, tid, AfterCleanup(next))
      else At(s, tid, Erasing(next, removed[1..])).(t := s.t.(subs := s.t.subs - {removed[0]}))
  }

  function SubscribeStep(s: State, tid: ThreadId, pc: CallPc, accepts: bool): State {
    match pc
    case GettingKey(req) =>
      At(s, tid, SearchingKey(req, KeyFor(s.t.handleIds, req.h)))
    case SearchingKey(req, id) =>
      if id !in s.t.subs then At(s, tid, Adding(req, id, false))
      else if s.t.subs[id].handle == req.h then At(s, tid, TestingProgress(req, id))
      else At(s, tid, GettingKey(req))
    case TestingProgress(req, id) =>
      if id in s.t.handlers && s.t.handlers[id].inProgress then At(s, tid, Returned(NULL_SUBSCRIBER_ID, false))
      else At(s, tid, Adding(req, id, true))
    case Adding(req, id, already) =>
      At(s, tid,
         if id in s.t.subs then Returned(NULL_SUBSCRIBER_ID, false)
         else if already then Updating(req, id)
         else Registering(req, id)).(t := s.t.(subs := s.t.subs[id := FreshContext(req.h, req.mask, id)]))
    case Updating(req, id) =>
      At(s, tid, if accepts && req.h in s.t.epoll then AddingHandler(req, id) else Returned(NULL_SUBSCRIBER_ID, false))
    case Registering(req, id) =>
      if accepts && req.h !in s.t.epoll then
        At(s, tid, Mapping(req, id)).(t := s.t.(epoll := s.t.epoll + {req.h}))
      else
        At(s, tid, RollingBack(req, id))
    case Mapping(req, id) =>
      At(s, tid, Confirming(req, id)).(t := s.t.(handleIds := s.t.handleIds[req.h := id]))
    case Confirming(req, id) =>
      At(s, tid, AddingHandler(req, id)).(
        t := s.t.(subs := s.t.subs[id := FreshContext(req.h, req.mask, id).(registered := true)]))
    case AddingHandler(req, id) =>
      if id == NULL_SUBSCRIBER_ID then At(s, tid, Returned(id, false))
      else At(s, tid, Returned(id, true)).(t := s.t.(handlers := WithHandler(s.t.handlers, id, req.ref)))
    case RollingBack(req, id) =>
      At(s, tid, Returned(NULL_SUBSCRIBER_ID, false)).(t := s.t.(subs := s.t.subs - {id}))
    case _ => s
  }

  function UnsubscribeStep(s: State, tid: ThreadId, pc: CallPc): State {
    match pc
    case FindingEntry(target) =>
      if target !in s.t.subs then At(s, tid, Returned(target, false))
      else if s.t.subs[target].registered then At(s, tid, Unmapping(target, s.t.subs[target]))
      else At(s, tid, Forgetting(target))
    case Unmapping(target, ctx) =>
      if CanUnmap(s.t.handleIds, ctx.handle) then
        At(s, tid, Unwatching(target, ctx)).(t := s.t.(handleIds := s.t.handleIds - {ctx.handle}))
      else
        s.(undefined := true)
    case Unwatching(target, ctx) =>
      At(s, tid, Forgetting(target)).(t := s.t.(epoll := s.t.epoll - {ctx.handle}))
    case Forgetting(target) =>
      At(s, tid, DroppingHandler(target)).(t := s.t.(subs := s.t.subs - {target}))
    case DroppingHandler(target) =>
      At(s, tid, Returned(target, true)).(t := s.t.(handlers := WithoutHandler(s.t.handlers, target)))
    case _ => s
  }

  // ---------- steps of the event thread ----------

  function Noted(history: seq<Record>, r: Record): seq<Record>
    requires history != []
  {
    history[|history| - 1 := r]
  }

  function Last(history: seq<Record>): Record
    requires history != []
  {
    history[|history| - 1]
  }

  function Lookup<V>(table: map<SubscriberId, V>, id: SubscriberId): Option<V> {
    if id in table then Some(table[id]) else None
  }

  /** m_handlers_table[id]: operator[] inserts an empty wrapper under a key that is not there. */
  function Subscripted(handlers: map<SubscriberId, HandlerWrapper>, id: SubscriberId):
    map<SubscriberId, HandlerWrapper>
  {
    if id in handlers then handlers else handlers[id := HandlerWrapper(None, false)]
  }

  predicate EventNeedsTable(pc: EventPc) {
    pc.Keyed? || pc.MarkingAbsent? || pc.MarkingInvalid?
  }

  predicate EventEnabled(s: State, order: seq<Event>) {
    && !s.event.Stopped?
    && (s.event.Waiting? ==> s.queue != [])
    && (!s.event.Waiting? ==> s.history != [])
    && (EventNeedsTable(s.event) ==> s.tableLock.None?)
    && (s.event.Entering? ==> multiset(order) == multiset(EventsFromMask(s.event.n.mask)))
  }

  function EventStep(s: State, order: seq<Event>, answer: EventResult): State
    requires EventEnabled(s, order)
  {
    match s.event
    case Waiting =>
      var n := s.queue[0];
      s.(queue := s.queue[1..],
         event := if n.last then Stopped else Popped(n),
         history := s.history + [Record(n, if n.last then LastOne else InHand, None, None, [])])
    case Popped(n) =>
      s.(event := Keyed(n, KeyFor(s.t.handleIds, n.handle)))
    case Keyed(n, id) =>
      var r := Last(s.history).(entry := Lookup(s.t.subs, id));
      if id in s.t.subs && !s.t.subs[id].expired then
        s.(event := Entering(n, id, s.t.subs[id]), history := Noted(s.history, r))
      else s.(event := Waiting, history := Noted(s.history, r.(outcome := Ignored)))
    case Entering(n, id, ctx) =>
      var history := Noted(s.history, Last(s.history).(wrapper := Lookup(s.t.handlers, id)));
      if id in s.t.handlers then
        s.(event := Dispatching(id, ctx, NonNull(order)),
           t := s.t.(handlers := s.t.handlers[id := s.t.handlers[id].(inProgress := true)]),
           history := history)
      else
        s.(event := MarkingAbsent(id, ctx), history := history)
    case MarkingAbsent(id, ctx) =>
      s.(event := Waiting,
         t := s.t.(subs := s.t.subs[id := ctx.(expired := true)]),
         history := Noted(s.history, Last(s.history).(outcome := HandlerGone)))
    case Dispatching(id, ctx, todo) =>
      if todo == [] then s.(event := Leaving(id))
      else
        var handlers := Subscripted(s.t.handlers, id);
        var result := if handlers[id].handler.None? then InvalidReference else answer;
        var r := Last(s.history);
        s.(event := if result == InvalidReference then MarkingInvalid(id, ctx) else Dispatching(id, ctx, todo[1..]),
           t := s.t.(handlers := handlers),
           history := Noted(s.history,
             r.(deliveries := r.deliveries + [Delivery(id, handlers[id].handler, todo[0], result)])))
    case MarkingInvalid(id, ctx) =>
      s.(event := Leaving(id), t := s.t.(subs := s.t.subs[id := ctx.(expired := true)]))
    case Leaving(id) =>
      var handlers := Subscripted(s.t.handlers, id);
      s.(event := Waiting,
         t := s.t.(handlers := handlers[id := handlers[id].(inProgress := false)]),
         history := Noted(s.history, Last(s.history).(outcome := Handled)))
    case Stopped => s
  }

  // ---------- the step relation and runs ----------

  predicate Enabled(s: State, a: Action) {
    && !s.undefined
    && match a
       case Invoke(tid, next) => tid in s.calls ==> s.calls[tid].Returned?
       case Advance(tid, pick, accepts) =>
         && tid in s.calls && !s.calls[tid].Returned?
         && (NeedsTable(s.calls[tid]) ==> s.tableLock.None?)
         && (s.calls[tid].Collecting? && s.calls[tid].pending != {} ==> pick in s.calls[tid].pending)
       case Ready(h, mask) => true
       case RequestStop => true
       case EventAdvance(order, answer) => EventEnabled(s, order)
  }

  function Push(s: State, n: Notification): State {
    s.(queue := s.queue + [n], pushed := s.pushed + [n])
  }

  /** monitorWaitThread: a hang-up reported together with input is held back. */
  function PassedMask(mask: Mask): Mask {
    if EPOLLHUP <= mask && EPOLLIN <= mask then mask - EPOLLHUP else mask
  }

  function Step(s: State, a: Action): State
    requires Enabled(s, a)
  {
    match a
    case Invoke(tid, next) => At(s, tid, StartingCleanup(next))
    case Advance(tid, pick, accepts) =>
      var pc := s.calls[tid];
      if pc.StartingCleanup? || pc.Collecting? || pc.Erasing? then CleanupStep(s, tid, pc, pick)
      else if pc.FindingEntry? || pc.Unmapping? || pc.Unwatching? || pc.Forgetting? || pc.DroppingHandler? then
        UnsubscribeStep(s, tid, pc)
      else SubscribeStep(s, tid, pc, accepts)
    case Ready(h, mask) => Push(s, Notification(h, PassedMask(mask), false))
    case RequestStop => Push(s, Notification(DEFAULT_HANDLE, {}, true))
    case EventAdvance(order, answer) => EventStep(s, order, answer)
  }

  /** Every action is enabled in its turn. */
  predicate Allowed(s: State, actions: seq<Action>)
    decreases |actions|
  {
    actions == [] || (Enabled(s, actions[0]) && Allowed(Step(s, actions[0]), actions[1..]))
  }

  function Exec(s: State, actions: seq<Action>): State
    requires Allowed(s, actions)
    decreases |actions|
  {
    if actions == [] then s else Exec(Step(s, actions[0]), actions[1..])
  }

  // ---------- the handler being dispatched ----------

  predicate BeingDispatched(event: EventPc, id: SubscriberId) {
    (event.Dispatching? || event.MarkingInvalid? || event.Leaving?) && event.id == id
  }

  /** The handlers in progress are exactly the one being dispatched, it is in the table, and no wrapper is empty. */
  ghost predicate ProgressInvariant(s: State) {
    && (forall id :: id in s.t.handlers ==> s.t.handlers[id].handler.Some?)
    && (forall id :: id in s.t.handlers ==> (s.t.handlers[id].inProgress <==> BeingDispatched(s.event, id)))
    && (forall id :: BeingDispatched(s.event, id) ==> id in s.t.handlers)
  }

  /** The handlers a public call's section can touch: one added with its flag kept, or one not in progress erased. */
  lemma CallTouchesHandlersSafely(s: State, tid: ThreadId, pc: CallPc, pick: SubscriberId, accepts: bool)
    ensures var s' := SubscribeStep(s, tid, pc, accepts);
      s'.event == s.event && (s'.t.handlers == s.t.handlers
        || (pc.AddingHandler? && s'.t.handlers == WithHandler(s.t.handlers, pc.id, pc.req.ref)))
    ensures var s' := UnsubscribeStep(s, tid, pc);
      s'.event == s.event && (s'.t.handlers == s.t.handlers
        || (pc.DroppingHandler? && s'.t.handlers == WithoutHandler(s.t.handlers, pc.target)))
    ensures pc.StartingCleanup? || pc.Collecting? || pc.Erasing? ==>
      var s' := CleanupStep(s, tid, pc, pick);
      s'.event == s.event && (s'.t.handlers == s.t.handlers || s'.t.handlers == WithoutHandler(s.t.handlers, pick))
  {
  }

  /**
   A subscribe goes on to add its handler behind a confirmed registration; or, where the entry had been there before,
   exactly when epoll watches the descriptor and accepts the new mask, and that section leaves the tables alone.
   */
  lemma HandlerNeedsWatching(s: State, a: Action)
    requires Enabled(s, a) && a.Advance? && !s.calls[a.tid].AddingHandler?
    ensures var (pc, s') := (s.calls[a.tid], Step(s, a));
      && (s'.calls[a.tid].AddingHandler? <==>
            pc.Confirming? || (pc.Updating? && a.accepts && pc.req.h in s.t.epoll))
      && (pc.Updating? ==> s'.t == s.t)
  {
  }

  /** The sections in which a subscribe is refused, each with its reason. */
  lemma RefusedExactlyWhen(s: State, a: Action)
    requires Enabled(s, a) && a.Advance? && !s.calls[a.tid].FindingEntry?
    ensures var pc := s.calls[a.tid];
      Step(s, a).calls[a.tid] == Returned(0, false) <==>
        || (pc.TestingProgress? && pc.id in s.t.handlers && s.t.handlers[pc.id].inProgress)
        || (pc.Adding? && pc.id in s.t.subs)
        || (pc.Updating? && !(a.accepts && pc.req.h in s.t.epoll))
        || pc.RollingBack?
        || (pc.AddingHandler? && pc.id == 0)
  {
  }

  lemma CallKeepsProgress(s: State, a: Action)
    requires ProgressInvariant(s) && Enabled(s, a) && !a.EventAdvance?
    ensures ProgressInvariant(Step(s, a))
  {
    if a.Advance? {
      CallTouchesHandlersSafely(s, a.tid, s.calls[a.tid], a.pick, a.accepts);
    }
  }

  /** Outside a dispatch the event thread leaves the handlers alone. */
  lemma UndispatchedKeepsProgress(s: State, order: seq<Event>, answer: EventResult)
    requires ProgressInvariant(s) && EventEnabled(s, order)
    requires !s.event.Entering? && !s.event.Dispatching? && !s.event.Leaving?
    ensures ProgressInvariant(EventStep(s, order, answer))
  {
  }

  lemma EnteringKeepsProgress(s: State, order: seq<Event>, answer: EventResult)
    requires ProgressInvariant(s) && EventEnabled(s, order) && s.event.Entering?
    ensures ProgressInvariant(EventStep(s, order, answer))
  {
  }

  lemma DispatchingKeepsProgress(s: State, order: seq<Event>, answer: EventResult)
    requires ProgressInvariant(s) && EventEnabled(s, order) && s.event.Dispatching?
    ensures ProgressInvariant(EventStep(s, order, answer))
  {
    assert BeingDispatched(s.event, s.event.id);
  }

  lemma LeavingKeepsProgress(s: State, order: seq<Event>, answer: EventResult)
    requires ProgressInvariant(s) && EventEnabled(s, order) && s.event.Leaving?
    ensures ProgressInvariant(EventStep(s, order, answer))
  {
    assert BeingDispatched(s.event, s.event.id);
  }

  lemma EventKeepsProgress(s: State, order: seq<Event>, answer: EventResult)
    requires ProgressInvariant(s) && EventEnabled(s, order)
    ensures ProgressInvariant(EventStep(s, order, answer))
  {
    match s.event {
      case Entering(_, _, _) => EnteringKeepsProgress(s, order, answer);
      case Dispatching(_, _, _) => DispatchingKeepsProgress(s, order, answer);
      case Leaving(_) => LeavingKeepsProgress(s, order, answer);
      case _ => UndispatchedKeepsProgress(s, order, answer);
    }
  }

  // ---------- keys ----------

  ghost predicate CallKeyAgrees(pc: CallPc) {
    match pc
    case SearchingKey(req, id) => id == HashedKey(req.h)
    case TestingProgress(req, id) => id == HashedKey(req.h)
    case Adding(req, id, _) => id == HashedKey(req.h)
    case Updating(req, id) => id == HashedKey(req.h)
    case Registering(req, id) => id == HashedKey(req.h)
    case Mapping(req, id) => id == HashedKey(req.h)
    case Confirming(req, id) => id == HashedKey(req.h)
    case AddingHandler(req, id) => id == HashedKey(req.h)
    case RollingBack(req, id) => id == HashedKey(req.h)
    case Unmapping(target, ctx) => ctx.id == target == HashedKey(ctx.handle)
    case Unwatching(target, ctx) => ctx.id == target == HashedKey(ctx.handle)
    case _ => true
  }

  ghost predicate EventKeyAgrees(pc: EventPc) {
    match pc
    case Keyed(n, id) => id == HashedKey(n.handle)
    case Entering(n, id, ctx) => ctx.id == id == HashedKey(ctx.handle) && ctx.handle == n.handle && !ctx.expired
    case MarkingAbsent(id, ctx) => ctx.id == id == HashedKey(ctx.handle)
    case Dispatching(id, ctx, _) => ctx.id == id == HashedKey(ctx.handle)
    case MarkingInvalid(id, ctx) => ctx.id == id == HashedKey(ctx.handle)
    case _ => true
  }

  /**
   In the tables, and in every copy a thread still holds, an entry's key is its identifier and its descriptor's hash.
   */
  ghost predicate KeysInvariant(s: State) {
    && KeysAgree(s.t)
    && (forall tid :: tid in s.calls ==> CallKeyAgrees(s.calls[tid]))
    && EventKeyAgrees(s.event)
  }

  lemma CleanupKeepsKeys(s: State, tid: ThreadId, pc: CallPc, pick: SubscriberId)
    requires KeysInvariant(s) && (pc.StartingCleanup? || pc.Collecting? || pc.Erasing?)
    ensures KeysInvariant(CleanupStep(s, tid, pc, pick))
  {
  }

  lemma SubscribeKeepsKeys(s: State, tid: ThreadId, pc: CallPc, accepts: bool)
    requires KeysInvariant(s) && CallKeyAgrees(pc)
    ensures KeysInvariant(SubscribeStep(s, tid, pc, accepts))
  {
    SubscribeKeepsTableKeys(s, tid, pc, accepts);
    if BeforeRegistering(pc) {
      EarlySubscribeKeepsCallKeys(s, tid, pc, accepts);
    } else {
      LateSubscribeKeepsCallKeys(s, tid, pc, accepts);
    }
  }

  lemma SubscribeKeepsTableKeys(s: State, tid: ThreadId, pc: CallPc, accepts: bool)
    requires KeysAgree(s.t) && CallKeyAgrees(pc)
    ensures KeysAgree(SubscribeStep(s, tid, pc, accepts).t)
    ensures SubscribeStep(s, tid, pc, accepts).event == s.event
  {
  }

  ghost predicate CallKeysStay(s: State, tid: ThreadId, s': State) {
    s'.calls == s.calls ||
        (tid in s'.calls && s'.calls == s.calls[tid := s'.calls[tid]] && CallKeyAgrees(s'.calls[tid]))
  }

  predicate BeforeRegistering(pc: CallPc) {
    pc.GettingKey? || pc.SearchingKey? || pc.TestingProgress? || pc.Adding?
  }

  lemma EarlySubscribeKeepsCallKeys(s: State, tid: ThreadId, pc: CallPc, accepts: bool)
    requires KeysAgree(s.t) && CallKeyAgrees(pc) && BeforeRegistering(pc)
    ensures CallKeysStay(s, tid, SubscribeStep(s, tid, pc, accepts))
  {
  }

  lemma LateSubscribeKeepsCallKeys(s: State, tid: ThreadId, pc: CallPc, accepts: bool)
    requires KeysAgree(s.t) && CallKeyAgrees(pc) && !BeforeRegistering(pc)
    ensures CallKeysStay(s, tid, SubscribeStep(s, tid, pc, accepts))
  {
  }

  lemma UnsubscribeKeepsKeys(s: State, tid: ThreadId, pc: CallPc)
    requires KeysInvariant(s) && CallKeyAgrees(pc)
    ensures KeysInvariant(UnsubscribeStep(s, tid, pc))
  {
  }

  lemma CallKeepsKeys(s: State, a: Action)
    requires KeysInvariant(s) && Enabled(s, a) && !a.EventAdvance?
    ensures KeysInvariant(Step(s, a))
  {
    if a.Advance? {
      var pc := s.calls[a.tid];
      if pc.StartingCleanup? || pc.Collecting? || pc.Erasing? {
        CleanupKeepsKeys(s, a.tid, pc, a.pick);
      } else if pc.FindingEntry? || pc.Unmapping? || pc.Unwatching? || pc.Forgetting? || pc.DroppingHandler? {
        UnsubscribeKeepsKeys(s, a.tid, pc);
      } else {
        SubscribeKeepsKeys(s, a.tid, pc, a.accepts);
      }
    }
  }

  /** The section writes the event thread's copy of an entry back. */
  predicate WritesBack(event: EventPc) {
    event.MarkingAbsent? || event.MarkingInvalid?
  }

  lemma ReadingKeepsKeys(s: State, order: seq<Event>, answer: EventResult)
    requires KeysInvariant(s) && EventEnabled(s, order)
    requires s.event.Waiting? || s.event.Popped? || s.event.Keyed? || s.event.Entering?
    ensures KeysInvariant(EventStep(s, order, answer))
  {
    if s.event.Keyed? && s.event.id in s.t.subs {
      HashedKeyIsInjective(s.t.subs[s.event.id].handle, s.event.n.handle);
    }
  }

  lemma WritingBackKeepsKeys(s: State, order: seq<Event>, answer: EventResult)
    requires KeysInvariant(s) && EventEnabled(s, order) && WritesBack(s.event)
    ensures KeysInvariant(EventStep(s, order, answer))
  {
  }

  lemma ServingKeepsKeys(s: State, order: seq<Event>, answer: EventResult)
    requires KeysInvariant(s) && EventEnabled(s, order) && (s.event.Dispatching? || s.event.Leaving?)
    ensures KeysInvariant(EventStep(s, order, answer))
  {
  }

  lemma EventKeepsKeys(s: State, order: seq<Event>, answer: EventResult)
    requires KeysInvariant(s) && EventEnabled(s, order)
    ensures KeysInvariant(EventStep(s, order, answer))
  {
    match s.event {
      case MarkingAbsent(_, _) => WritingBackKeepsKeys(s, order, answer);
      case MarkingInvalid(_, _) => WritingBackKeepsKeys(s, order, answer);
      case Dispatching(_, _, _) => ServingKeepsKeys(s, order, answer);
      case Leaving(_) => ServingKeepsKeys(s, order, answer);
      case _ => ReadingKeepsKeys(s, order, answer);
    }
  }

  /** The key-search loop of subscribe never goes round again. */
  lemma KeySearchNeverRepeats(s: State, tid: ThreadId, pick: SubscriberId, accepts: bool)
    requires KeysInvariant(s) && Enabled(s, Advance(tid, pick, accepts)) && s.calls[tid].SearchingKey?
    ensures !Step(s, Advance(tid, pick, accepts)).calls[tid].GettingKey?
  {
    var pc := s.calls[tid];
    if pc.id in s.t.subs {
      HashedKeyIsInjective(s.t.subs[pc.id].handle, pc.req.h);
    }
  }

  // ---------- notifications ----------

  function EventsOf(ds: seq<Delivery>): (r: seq<Event>)
    ensures |r| == |ds|
    ensures forall i :: 0 <= i < |ds| ==> r[i] == ds[i].event
  {
    seq(|ds|, i requires 0 <= i < |ds| => ds[i].event)
  }

  /** How often a handler must be given event e for this mask. */
  function Due(mask: Mask, e: Event): nat {
    if InMask(e, mask) then 1 else 0
  }

  predicate Uncut(ds: seq<Delivery>) {
    forall i :: 0 <= i < |ds| ==> ds[i].result != InvalidReference
  }

  /** Each delivery went to the descriptor's own identifier, and to a real handler. */
  predicate WellAddressed(r: Record) {
    forall i :: 0 <= i < |r.deliveries| ==> r.deliveries[i].id == HashedKey(r.n.handle) && r.deliveries[i].handler.Some?
  }

  /** Every reported event has been delivered once. */
  ghost predicate Whole(r: Record) {
    && WellAddressed(r) && Uncut(r.deliveries)
    && (forall e: Event :: multiset(EventsOf(r.deliveries))[e] == Due(r.n.mask, e))
  }

  /** No event has been delivered twice, and only the last answer was INVALID_REFERENCE. */
  ghost predicate CutOff(r: Record) {
    && WellAddressed(r) && r.deliveries != []
    && r.deliveries[|r.deliveries| - 1].result == InvalidReference
    && Uncut(r.deliveries[..|r.deliveries| - 1])
    && (forall e: Event :: multiset(EventsOf(r.deliveries))[e] <= Due(r.n.mask, e))
  }

  /** The first lookup found the descriptor's own entry, not expired. */
  predicate FoundLive(r: Record) {
    r.entry.Some? && !r.entry.value.expired && r.entry.value.handle == r.n.handle
  }

  /**
   Handled exactly when a live entry and a handler were found, and then every event delivered once or cut short; one
   without an entry, or with an expired one, is ignored; a live one without a handler reaches nobody.
   */
  ghost predicate Settled(r: Record) {
    && (r.outcome == LastOne <==> r.n.last)
    && (r.outcome != Handled ==> r.deliveries == [])
    && match r.outcome
       case InHand => false
       case LastOne => true
       case Ignored => r.entry.None? || r.entry.value.expired
       case HandlerGone => FoundLive(r) && r.wrapper.None?
       case Handled => FoundLive(r) && r.wrapper.Some? && (Whole(r) || CutOff(r))
  }

  /** The record of the notification in hand agrees with where the event thread stands. */
  ghost predicate InStep(pc: EventPc, r: Record) {
    && r.outcome == InHand && !r.n.last
    && match pc
       case Popped(n) => n == r.n && r.deliveries == []
       case Keyed(n, id) => n == r.n && r.deliveries == []
       case Entering(n, id, ctx) => n == r.n && r.deliveries == [] && FoundLive(r)
       case MarkingAbsent(id, ctx) => r.deliveries == [] && FoundLive(r) && r.wrapper.None?
       case Dispatching(id, ctx, todo) =>
         && FoundLive(r) && r.wrapper.Some?
         && id == HashedKey(r.n.handle) && WellAddressed(r) && Uncut(r.deliveries)
         && (forall e: Event :: multiset(EventsOf(r.deliveries))[e] + multiset(todo)[e] == Due(r.n.mask, e))
       case MarkingInvalid(id, ctx) => FoundLive(r) && r.wrapper.Some? && CutOff(r)
       case Leaving(id) => FoundLive(r) && r.wrapper.Some? && (Whole(r) || CutOff(r))
       case _ => false
  }

  predicate Busy(pc: EventPc) {
    !pc.Waiting? && !pc.Stopped?
  }

  /**
   Notifications are consumed in the order they were pushed, and none after the first last one; all but the one in
   hand are settled.
   */
  ghost predicate HistoryAgrees(history: seq<Record>, event: EventPc, pushed: seq<Notification>,
      queue: seq<Notification>) {
    && |history| <= |pushed|
    && queue == pushed[|history|..]
    && (forall i :: 0 <= i < |history| ==> history[i].n == pushed[i])
    && (forall i :: 0 <= i < |history| - 1 ==> Settled(history[i]) && !history[i].n.last)
    && (history == [] ==> event.Waiting?)
    && (history != [] ==>
          && (event.Stopped? <==> Last(history).n.last)
          && (if Busy(event) then InStep(event, Last(history)) else Settled(Last(history))))
  }

  ghost predicate HistoryInvariant(s: State) {
    HistoryAgrees(s.history, s.event, s.pushed, s.queue)
  }

  ghost predicate ReactorInvariant(s: State) {
    ProgressInvariant(s) && KeysInvariant(s) && HistoryInvariant(s)
  }

  predicate SameEventSide(s: State, s': State) {
    s'.history == s.history && s'.event == s.event && s'.pushed == s.pushed && s'.queue == s.queue
  }

  lemma SubscribeLeavesTheEventThread(s: State, tid: ThreadId, pc: CallPc, accepts: bool)
    ensures SameEventSide(s, SubscribeStep(s, tid, pc, accepts))
  {
  }

  lemma UnsubscribeLeavesTheEventThread(s: State, tid: ThreadId, pc: CallPc)
    ensures SameEventSide(s, UnsubscribeStep(s, tid, pc))
  {
  }

  /** Public calls never touch what belongs to the event thread. */
  lemma CallsLeaveTheEventThread(s: State, a: Action)
    requires Enabled(s, a) && (a.Invoke? || a.Advance?)
    ensures SameEventSide(s, Step(s, a))
  {
    if a.Advance? {
      SubscribeLeavesTheEventThread(s, a.tid, s.calls[a.tid], a.accepts);
      UnsubscribeLeavesTheEventThread(s, a.tid, s.calls[a.tid]);
    }
  }

  lemma PushKeepsHistory(s: State, n: Notification)
    requires HistoryInvariant(s)
    ensures HistoryInvariant(Push(s, n))
  {
  }

  lemma CallKeepsHistory(s: State, a: Action)
    requires HistoryInvariant(s) && Enabled(s, a) && !a.EventAdvance?
    ensures HistoryInvariant(Step(s, a))
  {
    if a.Invoke? || a.Advance? {
      CallsLeaveTheEventThread(s, a);
    } else {
      PushKeepsHistory(s, if a.RequestStop? then Notification(DEFAULT_HANDLE, {}, true)
                          else Notification(a.h, PassedMask(a.mask), false));
    }
  }

  lemma DeliveryCounts(ds: seq<Delivery>, d: Delivery, todo: seq<Event>, e: Event)
    requires todo != [] && d.event == todo[0]
    ensures multiset(EventsOf(ds + [d]))[e] + multiset(todo[1..])[e] == multiset(EventsOf(ds))[e] + multiset(todo)[e]
  {
    assert EventsOf(ds + [d]) == EventsOf(ds) + [d.event];
    assert todo == [todo[0]] + todo[1..];
  }

  lemma EnteringCounts(mask: Mask, order: seq<Event>, e: Event)
    requires multiset(order) == multiset(EventsFromMask(mask))
    ensures multiset(NonNull(order))[e] == Due(mask, e)
  {
    NonNullCounts(order, e);
    if e != NullEvent {
      EachReportedEventOnce(mask, e);
    }
  }

  lemma PoppingKeepsHistory(s: State, order: seq<Event>, answer: EventResult)
    requires ReactorInvariant(s) && EventEnabled(s, order) && s.event.Waiting?
    ensures HistoryInvariant(EventStep(s, order, answer))
  {
  }

  /** Rewriting the record in hand, in step with the event thread's new position, keeps the rest of the history. */
  lemma NotingKeepsHistory(s: State, pc: EventPc, r: Record, t: Tables)
    requires HistoryInvariant(s) && Busy(s.event) && s.history != []
    requires r.n == Last(s.history).n
    requires InStep(pc, r) || (pc.Waiting? && Settled(r) && !r.n.last)
    ensures HistoryInvariant(s.(event := pc, history := Noted(s.history, r), t := t))
  {
  }

  lemma HistoryGoesOn(s: State, order: seq<Event>, answer: EventResult)
    requires EventEnabled(s, order) && Busy(s.event)
    ensures var s' := EventStep(s, order, answer); s'.history == Noted(s.history, Last(s'.history))
  {
  }

  lemma EnteringKeepsHistory(s: State, order: seq<Event>, answer: EventResult)
    requires ReactorInvariant(s) && EventEnabled(s, order) && s.event.Entering?
    ensures HistoryInvariant(EventStep(s, order, answer))
  {
    forall e: Event
      ensures multiset(NonNull(order))[e] == Due(s.event.n.mask, e)
    {
      EnteringCounts(s.event.n.mask, order, e);
    }
    assert EventsOf([]) == [];
    var s' := EventStep(s, order, answer);
    HistoryGoesOn(s, order, answer);
    NotingKeepsHistory(s, s'.event, Last(s'.history), s'.t);
  }

  lemma DeliveryKeepsStep(r: Record, id: SubscriberId, ctx: SubscriberContext, todo: seq<Event>, d: Delivery)
    requires InStep(Dispatching(id, ctx, todo), r)
    requires todo != [] && d.event == todo[0] && d.id == id && d.handler.Some?
    ensures var r' := r.(deliveries := r.deliveries + [d]);
      InStep(if d.result == InvalidReference then MarkingInvalid(id, ctx) else Dispatching(id, ctx, todo[1..]), r')
  {
    var r' := r.(deliveries := r.deliveries + [d]);
    forall e: Event
      ensures multiset(EventsOf(r'.deliveries))[e] + multiset(todo[1..])[e] == Due(r.n.mask, e)
    {
      DeliveryCounts(r.deliveries, d, todo, e);
    }
    assert r'.deliveries[..|r'.deliveries| - 1] == r.deliveries;
  }

  lemma DispatchingKeepsHistory(s: State, order: seq<Event>, answer: EventResult)
    requires ReactorInvariant(s) && EventEnabled(s, order) && s.event.Dispatching?
    ensures HistoryInvariant(EventStep(s, order, answer))
  {
    var id, todo, r := s.event.id, s.event.todo, Last(s.history);
    assert BeingDispatched(s.event, id);
    var s' := EventStep(s, order, answer);
    if todo == [] {
      assert InStep(Leaving(id), r);
      assert s'.history == Noted(s.history, r);
      NotingKeepsHistory(s, Leaving(id), r, s.t);
    } else {
      var d := Delivery(id, s.t.handlers[id].handler, todo[0], answer);
      DeliveryKeepsStep(r, id, s.event.ctx, todo, d);
      NotingKeepsHistory(s, s'.event, r.(deliveries := r.deliveries + [d]), s.t);
    }
  }

  lemma OtherEventKeepsHistory(s: State, order: seq<Event>, answer: EventResult)
    requires ReactorInvariant(s) && EventEnabled(s, order)
    requires !s.event.Waiting? && !s.event.Entering? && !s.event.Dispatching?
    ensures HistoryInvariant(EventStep(s, order, answer))
  {
    var s' := EventStep(s, order, answer);
    HistoryGoesOn(s, order, answer);
    NotingKeepsHistory(s, s'.event, Last(s'.history), s.t);
  }

  lemma StepKeepsInvariant(s: State, a: Action)
    requires ReactorInvariant(s) && Enabled(s, a)
    ensures ReactorInvariant(Step(s, a))
  {
    if !a.EventAdvance? {
      CallKeepsProgress(s, a);
      CallKeepsKeys(s, a);
      CallKeepsHistory(s, a);
    } else {
      EventKeepsProgress(s, a.order, a.answer);
      EventKeepsKeys(s, a.order, a.answer);
      if s.event.Waiting? {
        PoppingKeepsHistory(s, a.order, a.answer);
      } else if s.event.Entering? {
        EnteringKeepsHistory(s, a.order, a.answer);
      } else if s.event.Dispatching? {
        DispatchingKeepsHistory(s, a.order, a.answer);
      } else {
        OtherEventKeepsHistory(s, a.order, a.answer);
      }
    }
  }

  /** The invariant of every interleaving. */
  lemma {:induction false} EveryInterleaving(s: State, actions: seq<Action>)
    requires ReactorInvariant(s) && Allowed(s, actions)
    ensures ReactorInvariant(Exec(s, actions))
    decreases |actions|
  {
    if actions != [] {
      StepKeepsInvariant(s, actions[0]);
      EveryInterleaving(Step(s, actions[0]), actions[1..]);
    }
  }

  /** Runs that start with an empty reactor. */
  lemma EveryInterleavingFromEmpty(actions: seq<Action>)
    requires Allowed(INITIAL, actions)
    ensures ReactorInvariant(Exec(INITIAL, actions))
  {
    EveryInterleaving(INITIAL, actions);
  }

  /**
   Whatever the other threads do, while a handler is dispatched its wrapper stays in the table, and the event
   thread's own subscripting adds no key to it.
   */
  lemma DispatchedHandlerStays(s: State, a: Action, id: SubscriberId)
    requires ReactorInvariant(s) && Enabled(s, a) && BeingDispatched(s.event, id)
    ensures id in Step(s, a).t.handlers
    ensures a.EventAdvance? ==> Step(s, a).t.handlers.Keys == s.t.handlers.Keys
  {
    if a.EventAdvance? {
      EventKeepsHandlerKeys(s, a.order, a.answer);
    } else {
      CallKeepsProgress(s, a);
      CallLeavesDispatch(s, a);
    }
  }

  lemma EventKeepsHandlerKeys(s: State, order: seq<Event>, answer: EventResult)
    requires ProgressInvariant(s) && EventEnabled(s, order)
    ensures EventStep(s, order, answer).t.handlers.Keys == s.t.handlers.Keys
  {
    assert forall id :: BeingDispatched(s.event, id) ==> id in s.t.handlers;
    if s.event.Dispatching? || s.event.Leaving? {
      assert BeingDispatched(s.event, s.event.id);
    }
  }

  lemma CallLeavesDispatch(s: State, a: Action)
    requires Enabled(s, a) && !a.EventAdvance?
    ensures Step(s, a).event == s.event
  {
  }

  // ---------- what the lookups found, and who is called ----------

  /** The record in hand holds what the tables held in the very sections that looked, and nothing changes it later. */
  lemma LookupsAreRecorded(s: State, order: seq<Event>, answer: EventResult)
    requires EventEnabled(s, order) && Busy(s.event)
    ensures var r, r' := Last(s.history), Last(EventStep(s, order, answer).history);
      && r'.n == r.n
      && r'.entry == (if s.event.Keyed? then Lookup(s.t.subs, s.event.id) else r.entry)
      && r'.wrapper == (if s.event.Entering? then Lookup(s.t.handlers, s.event.id) else r.wrapper)
  {
  }

  /** The last section of a subscribe, about to put another handler under the identifier. */
  predicate Replaces(s: State, a: Action, id: SubscriberId)
    requires Enabled(s, a)
  {
    && a.Advance? && s.calls[a.tid].AddingHandler? && s.calls[a.tid].id == id && id != NULL_SUBSCRIBER_ID
    && id in s.t.handlers && s.t.handlers[id].handler != Some(s.calls[a.tid].req.ref)
  }

  /** While a handler is dispatched, another one takes its place exactly when a subscribe adds it. */
  lemma DispatchedHandlerChangesExactlyWhen(s: State, a: Action, id: SubscriberId)
    requires ReactorInvariant(s) && Enabled(s, a) && BeingDispatched(s.event, id)
    ensures id in s.t.handlers && id in Step(s, a).t.handlers
    ensures Step(s, a).t.handlers[id].handler != s.t.handlers[id].handler <==> Replaces(s, a, id)
  {
    DispatchedHandlerStays(s, a, id);
    if a.Advance? {
      CallTouchesHandlersSafely(s, a.tid, s.calls[a.tid], a.pick, a.accepts);
    }
  }

  /** The deliveries went to the handler found on entering. */
  predicate ToTheFound(r: Record) {
    r.deliveries != [] ==>
      r.wrapper.Some? && forall i :: 0 <= i < |r.deliveries| ==> r.deliveries[i].handler == r.wrapper.value.handler
  }

  ghost predicate ServesTheFound(s: State) {
    && (forall i :: 0 <= i < |s.history| ==> ToTheFound(s.history[i]))
    && (s.event.Dispatching? ==>
          && s.history != [] && Last(s.history).wrapper.Some? && s.event.id in s.t.handlers
          && s.t.handlers[s.event.id].handler == Last(s.history).wrapper.value.handler)
  }

  lemma RecordServesTheFound(s: State, order: seq<Event>, answer: EventResult)
    requires ReactorInvariant(s) && EventEnabled(s, order) && ServesTheFound(s) && Busy(s.event)
    ensures ToTheFound(Last(EventStep(s, order, answer).history))
  {
    var r := Last(s.history);
    LookupsAreRecorded(s, order, answer);
    assert ToTheFound(r) && InStep(s.event, r);
  }

  lemma DispatchServesTheFound(s: State, order: seq<Event>, answer: EventResult)
    requires EventEnabled(s, order) && ServesTheFound(s) && EventStep(s, order, answer).event.Dispatching?
    ensures var s' := EventStep(s, order, answer); var id := s'.event.id;
      && s'.history != [] && Last(s'.history).wrapper.Some? && id in s'.t.handlers
      && s'.t.handlers[id].handler == Last(s'.history).wrapper.value.handler
  {
  }

  lemma EventServesTheFound(s: State, order: seq<Event>, answer: EventResult)
    requires ReactorInvariant(s) && EventEnabled(s, order) && ServesTheFound(s)
    ensures ServesTheFound(EventStep(s, order, answer))
  {
    var s' := EventStep(s, order, answer);
    if s'.event.Dispatching? {
      DispatchServesTheFound(s, order, answer);
    }
    if Busy(s.event) {
      RecordServesTheFound(s, order, answer);
      HistoryGoesOn(s, order, answer);
    }
  }

  lemma StepServesTheFound(s: State, a: Action)
    requires ReactorInvariant(s) && Enabled(s, a) && ServesTheFound(s)
    requires s.event.Dispatching? ==> !Replaces(s, a, s.event.id)
    ensures ServesTheFound(Step(s, a))
  {
    if a.EventAdvance? {
      EventServesTheFound(s, a.order, a.answer);
    } else {
      CallLeavesDispatch(s, a);
      if a.Invoke? || a.Advance? {
        CallsLeaveTheEventThread(s, a);
      }
      if s.event.Dispatching? {
        DispatchedHandlerChangesExactlyWhen(s, a, s.event.id);
      }
    }
  }

  ghost predicate NeverReplaces(s: State, actions: seq<Action>)
    requires Allowed(s, actions)
    decreases |actions|
  {
    actions != [] ==>
      && (s.event.Dispatching? ==> !Replaces(s, actions[0], s.event.id))
      && NeverReplaces(Step(s, actions[0]), actions[1..])
  }

  /**
   Unless a subscribe puts another handler in the place of the one being dispatched, every call goes to the one found.
   */
  lemma {:induction false} FoundHandlerIsServed(s: State, actions: seq<Action>)
    requires ReactorInvariant(s) && ServesTheFound(s) && Allowed(s, actions) && NeverReplaces(s, actions)
    ensures ServesTheFound(Exec(s, actions))
    decreases |actions|
  {
    if actions != [] {
      StepKeepsInvariant(s, actions[0]);
      StepServesTheFound(s, actions[0]);
      FoundHandlerIsServed(Step(s, actions[0]), actions[1..]);
    }
  }

  // ---------- expired identifiers ----------

  /** The step marks the identifier expired. */
  predicate Marks(s: State, a: Action, id: SubscriberId)
    requires Enabled(s, a)
  {
    a.EventAdvance? && (s.event.MarkingAbsent? || s.event.MarkingInvalid?) && s.event.id == id
  }

  /** The step is a subscribe writing the identifier's entry. */
  predicate Writes(s: State, a: Action, id: SubscriberId)
    requires Enabled(s, a)
  {
    a.Advance? && (s.calls[a.tid].Adding? || s.calls[a.tid].Confirming?) && s.calls[a.tid].id == id
  }

  /** The step hands an event to the identifier's handler. */
  predicate Delivers(s: State, a: Action, id: SubscriberId)
    requires Enabled(s, a)
  {
    a.EventAdvance? && s.event.Dispatching? && s.event.id == id && s.event.todo != []
  }

  /** The entry, if there is one, is expired, and the event thread is not about to serve it. */
  ghost predicate Quiet(s: State, id: SubscriberId) {
    && (id in s.t.subs ==> s.t.subs[id].expired)
    && !((s.event.Entering? || s.event.Dispatching?) && s.event.id == id)
  }

  lemma MarkingSilences(s: State, a: Action, id: SubscriberId)
    requires Enabled(s, a) && Marks(s, a, id)
    ensures Quiet(Step(s, a), id)
  {
  }

  /** A section that is not a subscribe's write leaves every entry as it was, or removes it. */
  lemma OnlySubscribeWrites(s: State, tid: ThreadId, pc: CallPc, pick: SubscriberId, accepts: bool, id: SubscriberId)
    requires !((pc.Adding? || pc.Confirming?) && pc.id == id)
    ensures var s' := SubscribeStep(s, tid, pc, accepts);
      s'.event == s.event && (id in s'.t.subs ==> id in s.t.subs && s'.t.subs[id] == s.t.subs[id])
    ensures var s' := UnsubscribeStep(s, tid, pc);
      s'.event == s.event && (id in s'.t.subs ==> id in s.t.subs && s'.t.subs[id] == s.t.subs[id])
    ensures pc.StartingCleanup? || pc.Collecting? || pc.Erasing? ==>
      var s' := CleanupStep(s, tid, pc, pick);
      s'.event == s.event && (id in s'.t.subs ==> id in s.t.subs && s'.t.subs[id] == s.t.subs[id])
  {
  }

  lemma SilenceStepsOn(s: State, a: Action, id: SubscriberId)
    requires Enabled(s, a) && Quiet(s, id) && !Writes(s, a, id)
    ensures !Delivers(s, a, id) && Quiet(Step(s, a), id)
  {
    if a.Advance? {
      OnlySubscribeWrites(s, a.tid, s.calls[a.tid], a.pick, a.accepts, id);
    }
  }

  ghost predicate NeverWrites(s: State, actions: seq<Action>, id: SubscriberId)
    requires Allowed(s, actions)
    decreases |actions|
  {
    actions != [] ==> !Writes(s, actions[0], id) && NeverWrites(Step(s, actions[0]), actions[1..], id)
  }

  ghost predicate NeverDelivers(s: State, actions: seq<Action>, id: SubscriberId)
    requires Allowed(s, actions)
    decreases |actions|
  {
    actions != [] ==> !Delivers(s, actions[0], id) && NeverDelivers(Step(s, actions[0]), actions[1..], id)
  }

  lemma {:induction false} SilenceLasts(s: State, actions: seq<Action>, id: SubscriberId)
    requires Allowed(s, actions) && Quiet(s, id) && NeverWrites(s, actions, id)
    ensures NeverDelivers(s, actions, id)
    decreases |actions|
  {
    if actions != [] {
      SilenceStepsOn(s, actions[0], id);
      SilenceLasts(Step(s, actions[0]), actions[1..], id);
    }
  }

  /** Once marked expired, an identifier gets no event until a subscribe writes its entry again. */
  lemma ExpiredGetsNothing(s: State, actions: seq<Action>, id: SubscriberId)
    requires actions != [] && Allowed(s, actions) && Marks(s, actions[0], id)
    requires NeverWrites(Step(s, actions[0]), actions[1..], id)
    ensures NeverDelivers(Step(s, actions[0]), actions[1..], id)
  {
    MarkingSilences(s, actions[0], id);
    SilenceLasts(Step(s, actions[0]), actions[1..], id);
  }
}
