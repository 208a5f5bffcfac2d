/**
 The reactor's shared tables and what one public call, run on its own, does to them
 (TransportInfra/Reactor/Reactor.hpp, TransportInfra/Reactor/EpollDemultiplexer.h).
 */
module ReactorTables {
  import opened Options
  import opened Events

  type Handle = h: int | -0x8000_0000 <= h < 0x8000_0000
  type SubscriberId = nat
  /** The object a handler wrapper points to. */
  type HandlerRef = nat

  const NULL_SUBSCRIBER_ID: SubscriberId := 0
  const DEFAULT_HANDLE: Handle := -1

  datatype SubscriberContext = SubscriberContext(
    registered: bool, expired: bool, handle: Handle, mask: Mask, id: SubscriberId)

  /** A wrapper that operator[] has just made holds no handler. */
  datatype HandlerWrapper = HandlerWrapper(handler: Option<HandlerRef>, inProgress: bool)

  datatype Notification = Notification(handle: Handle, mask: Mask, last: bool)

  datatype Tables = Tables(
    subs: map<SubscriberId, SubscriberContext>,   // m_subscribers_table
    handlers: map<SubscriberId, HandlerWrapper>,  // m_handlers_table
    handleIds: map<Handle, SubscriberId>,         // m_handle_id_map
    epoll: set<Handle>)                           // descriptors in the kernel's interest list

  const EMPTY_TABLES := Tables(map[], map[], map[], {})

  /** std::hash<uint32_t> of the descriptor: the descriptor itself as an unsigned 32-bit number. */
  function HashedKey(h: Handle): SubscriberId {
    if h < 0 then h + 0x1_0000_0000 else h
  }

  lemma HashedKeyIsInjective(a: Handle, b: Handle)
    ensures HashedKey(a) == HashedKey(b) <==> a == b
    ensures HashedKey(a) == NULL_SUBSCRIBER_ID <==> a == 0
    ensures HashedKey(a) < 0x1_0000_0000 && (HashedKey(a) - a) % 0x1_0000_0000 == 0
  {
  }

  function KeyFor(handleIds: map<Handle, SubscriberId>, h: Handle): SubscriberId {
    if h in handleIds then handleIds[h] else HashedKey(h)
  }

  function FreshContext(h: Handle, mask: Mask, id: SubscriberId): SubscriberContext {
    SubscriberContext(false, false, h, mask, id)
  }

  /** removeHandler(id) would erase the handler and answer true. */
  predicate Removable(handlers: map<SubscriberId, HandlerWrapper>, id: SubscriberId) {
    id in handlers && !handlers[id].inProgress
  }

  function WithoutHandler(handlers: map<SubscriberId, HandlerWrapper>, id: SubscriberId):
    map<SubscriberId, HandlerWrapper>
  {
    if Removable(handlers, id) then handlers - {id} else handlers
  }

  /** addHandlerInTable: the wrapper's move assignment takes the pointer and leaves in_progress alone. */
  function WithHandler(handlers: map<SubscriberId, HandlerWrapper>, id: SubscriberId, ref: HandlerRef):
    map<SubscriberId, HandlerWrapper>
  {
    handlers[id := HandlerWrapper(Some(ref), id in handlers && handlers[id].inProgress)]
  }

  /** The entry is no longer of use: expired, or never registered with the demultiplexer. */
  predicate Stale(ctx: SubscriberContext) {
    ctx.expired || !ctx.registered
  }

  function Victims(t: Tables): set<SubscriberId> {
    set id | id in t.subs && Stale(t.subs[id]) && Removable(t.handlers, id)
  }

  function Cleanup(t: Tables): Tables {
    t.(subs := t.subs - Victims(t), handlers := t.handlers - Victims(t))
  }

  /** Every key agrees with the descriptor's hash, cached or stored. */
  ghost predicate KeysAgree(t: Tables) {
    && (forall h :: h in t.handleIds ==> t.handleIds[h] == HashedKey(h))
    && (forall id :: id in t.subs ==> t.subs[id].id == id == HashedKey(t.subs[id].handle))
  }

  /** What epoll watches is mapped, and so is every context marked registered. */
  ghost predicate RegisteredAreMapped(t: Tables) {
    && t.epoll <= t.handleIds.Keys
    && (forall id :: id in t.subs && t.subs[id].registered ==> t.subs[id].handle in t.handleIds)
  }

  ghost predicate Idle(t: Tables) {
    forall id :: id in t.handlers ==> !t.handlers[id].inProgress && t.handlers[id].handler.Some?
  }

  ghost predicate Invariant(t: Tables) {
    KeysAgree(t) && RegisteredAreMapped(t) && Idle(t)
  }

  /** subscribe(): the tables it leaves and the identifier it answers. */
  function Subscribe(t: Tables, h: Handle, mask: Mask, ref: HandlerRef, accepts: bool): (Tables, SubscriberId) {
    var c := Cleanup(t);
    var id := KeyFor(c.handleIds, h);
    if id in c.subs then
      if id in c.handlers && c.handlers[id].inProgress then (c, NULL_SUBSCRIBER_ID)
      else (c.(subs := c.subs[id := FreshContext(h, mask, id)]), NULL_SUBSCRIBER_ID)
    else if accepts && h !in c.epoll then
      var registered := c.(
        subs := c.subs[id := FreshContext(h, mask, id).(registered := true)],
        handleIds := c.handleIds[h := id],
        epoll := c.epoll + {h});
      if id == NULL_SUBSCRIBER_ID then (registered, id)
      else (registered.(handlers := WithHandler(c.handlers, id, ref)), id)
    else
      (c, NULL_SUBSCRIBER_ID)
  }

  /** The vector table's remove_mapping is defined: the key is there, or the table is empty. */
  predicate CanUnmap(handleIds: map<Handle, SubscriberId>, h: Handle) {
    handleIds == map[] || h in handleIds
  }

  /** unsubscribe(id) never erases at the end iterator. */
  predicate UnsubscribeDefined(t: Tables, id: SubscriberId) {
    var c := Cleanup(t);
    id in c.subs && c.subs[id].registered ==> CanUnmap(c.handleIds, c.subs[id].handle)
  }

  function Unsubscribe(t: Tables, id: SubscriberId): (Tables, bool) {
    var c := Cleanup(t);
    if id !in c.subs then (c, false)
    else
      var h := c.subs[id].handle;
      var handlers := WithoutHandler(c.handlers, id);
      if c.subs[id].registered then
        (Tables(c.subs - {id}, handlers, c.handleIds - {h}, c.epoll - {h}), true)
      else
        (c.(subs := c.subs - {id}, handlers := handlers), true)
  }

  /** The events handed over before the loop ends: all of them, or up to the first answered INVALID_REFERENCE. */
  function Delivered(events: seq<Event>, answer: Event -> EventResult): (r: seq<Event>)
    ensures r <= events
  {
    if events == [] then []
    else if answer(events[0]) == InvalidReference then [events[0]]
    else [events[0]] + Delivered(events[1..], answer)
  }

  /** Some event was answered INVALID_REFERENCE. */
  predicate CutShort(events: seq<Event>, answer: Event -> EventResult) {
    events != [] && (answer(events[0]) == InvalidReference || CutShort(events[1..], answer))
  }

  /** A handler is given all the events, or stops being given any right after its first INVALID_REFERENCE. */
  lemma {:induction false} DeliveryStopsExactlyWhen(events: seq<Event>, answer: Event -> EventResult)
    ensures var r := Delivered(events, answer);
      && (forall i :: 0 <= i < |r| - 1 ==> answer(r[i]) != InvalidReference)
      && (CutShort(events, answer) <==> r != [] && answer(r[|r| - 1]) == InvalidReference)
      && (CutShort(events, answer) || r == events)
  {
    if events != [] && answer(events[0]) != InvalidReference {
      var rest := Delivered(events[1..], answer);
      DeliveryStopsExactlyWhen(events[1..], answer);
      assert Delivered(events, answer) == [events[0]] + rest;
    }
  }

  /**
   One notification taken from the queue and handled without interruption. `order` is what the sort makes of the
   events array, `answer` what the handler answers.
   */
  function Notify(t: Tables, n: Notification, order: seq<Event>, answer: Event -> EventResult):
    (Tables, seq<(SubscriberId, Event)>)
  {
    var id := KeyFor(t.handleIds, n.handle);
    if n.last || id !in t.subs || t.subs[id].expired then (t, [])
    else
      var marked := t.(subs := t.subs[id := t.subs[id].(expired := true)]);
      if id !in t.handlers then (marked, [])
      else
        var events := NonNull(order);
        (if CutShort(events, answer) then marked else t, Addressed(id, Delivered(events, answer)))
  }

  function Addressed(id: SubscriberId, events: seq<Event>): (r: seq<(SubscriberId, Event)>)
    ensures |r| == |events|
    ensures forall i :: 0 <= i < |r| ==> r[i] == (id, events[i])
  {
    seq(|events|, i requires 0 <= i < |events| => (id, events[i]))
  }

  // ---------- what cleanup removes ----------

  /**
   cleanupExpired removes exactly the stale subscribers that own a handler not in progress, and exactly those
   handlers; running it again removes nothing more.
   */
  lemma CleanupIsExact(t: Tables)
    ensures var c := Cleanup(t);
      && (forall id :: id in c.subs <==> id in t.subs && !(Stale(t.subs[id]) && Removable(t.handlers, id)))
      && (forall id :: id in c.subs ==> c.subs[id] == t.subs[id])
      && (forall id :: id in c.handlers <==>
            id in t.handlers && (t.handlers[id].inProgress || id !in t.subs || !Stale(t.subs[id])))
      && (forall id :: id in c.handlers ==> c.handlers[id] == t.handlers[id])
      && Cleanup(c) == c
  {
    var c := Cleanup(t);
    assert Victims(c) == {};
  }

  /** Beside what its cleanup removes, unsubscribe takes exactly the entry, its handler if idle, and its descriptor. */
  lemma UnsubscribeTakesExactly(t: Tables, id: SubscriberId, other: SubscriberId, h: Handle)
    requires id in Cleanup(t).subs
    ensures var (c, (u, ok)) := (Cleanup(t), Unsubscribe(t, id));
      && ok
      && (other in u.subs <==> other in c.subs && other != id)
      && (other in u.subs ==> u.subs[other] == c.subs[other])
      && (other in u.handlers <==> other in c.handlers && !(other == id && !c.handlers[id].inProgress))
      && (other in u.handlers ==> u.handlers[other] == c.handlers[other])
      && (h in u.epoll <==> h in c.epoll && !(c.subs[id].registered && h == c.subs[id].handle))
      && (h in u.handleIds <==> h in c.handleIds && !(c.subs[id].registered && h == c.subs[id].handle))
      && (h in u.handleIds ==> u.handleIds[h] == c.handleIds[h])
  {
  }

  /** A live subscription and a handler in progress both survive. */
  lemma CleanupSparesTheLiving(t: Tables, id: SubscriberId)
    ensures id in t.subs && !Stale(t.subs[id]) ==>
      && id in Cleanup(t).subs
      && (id in t.handlers ==> id in Cleanup(t).handlers)
    ensures id in t.handlers && t.handlers[id].inProgress ==>
      && id in Cleanup(t).handlers
      && (id in t.subs ==> id in Cleanup(t).subs)
  {
  }
}
