/**
 The reactor and its demultiplexer as objects whose methods update their tables in place
 (TransportInfra/Reactor/Reactor.hpp, TransportInfra/Reactor/EpollDemultiplexer.h, UtilitiesInfra/shared_queue.hpp).
 Each public method is proved to do to the tables what the one-step model says.
 */
module Reactor {
  import opened Options
  import opened Events
  import opened ReactorTables
  import SerialReactor
  import VectorTable

  /** shared_queue, without its locking. */
  class SharedQueue<T> {
    var items: seq<T>

    constructor ()
      ensures items == []
    {
      items := [];
    }

    method Push(value: T)
      modifies this
      ensures items == old(items) + [value]
    {
      items := items + [value];
    }

    /** wait_and_pop, past its wait: the queue is not empty. */
    method WaitAndPop() returns (value: T)
      requires items != []
      modifies this
      ensures [value] + items == old(items)
    {
      value := items[0];
      items := items[1..];
    }

    method TryPop() returns (value: Option<T>)
      modifies this
      ensures value.None? ==> old(items) == [] && items == []
      ensures value.Some? ==> [value.value] + items == old(items)
    {
      if items == [] {
        value := None;
      } else {
        value := Some(items[0]);
        items := items[1..];
      }
    }
  }

  class EpollDemultiplexer {
    var epoll: set<Handle>
    const handleIdMap: VectorTable.VectorTable<SubscriberId>

    ghost predicate Valid()
      reads this, handleIdMap
    {
      handleIdMap.Valid() && forall h :: h in handleIdMap.Table() ==> -0x8000_0000 <= h < 0x8000_0000
    }

    ghost function HandleIds(): map<Handle, SubscriberId>
      requires Valid()
      reads this, handleIdMap
    {
      handleIdMap.Table()
    }

    constructor ()
      ensures Valid() && fresh(handleIdMap) && HandleIds() == map[] && epoll == {}
    {
      epoll := {};
      handleIdMap := new VectorTable.VectorTable();
    }

    method GetKeyFor(h: Handle) returns (id: SubscriberId)
      requires Valid()
      ensures id == KeyFor(HandleIds(), h)
    {
      var cached := handleIdMap.ValueFor(h);
      match cached
      case Some(key) => id := key;
      case None => id := HashedKey(h);
    }

    /** registerImpl: the kernel refuses a descriptor it watches already, and may refuse any other. */
    method RegisterListener(ctx: SubscriberContext, accepts: bool) returns (res: bool)
      requires Valid()
      modifies this, handleIdMap
      ensures Valid()
      ensures res == (accepts && ctx.handle !in old(epoll))
      ensures res ==> epoll == old(epoll) + {ctx.handle} && HandleIds() == old(HandleIds())[ctx.handle := ctx.id]
      ensures !res ==> epoll == old(epoll) && HandleIds() == old(HandleIds())
    {
      res := accepts && ctx.handle !in epoll;
      if res {
        epoll := epoll + {ctx.handle};
        var _ := handleIdMap.AddOrUpdate(ctx.handle, ctx.id);
      }
    }

    /** unregisterImpl: the handle's mapping has to be there, unless the map is empty. */
    method UnregisterListener(ctx: SubscriberContext) returns (res: bool)
      requires Valid() && CanUnmap(HandleIds(), ctx.handle)
      modifies this, handleIdMap
      ensures Valid() && res == (ctx.handle in old(epoll))
      ensures epoll == old(epoll) - {ctx.handle} && HandleIds() == old(HandleIds()) - {ctx.handle}
    {
      if |handleIdMap.container| != 0 {
        VectorTable.ValueLookup(handleIdMap.container, 0);
      }
      handleIdMap.Remove(ctx.handle);
      res := ctx.handle in epoll;
      epoll := epoll - {ctx.handle};
    }
  }

  class Reactor {
    const demux: EpollDemultiplexer
    const queue: SharedQueue<Notification>
    var subscribers: map<SubscriberId, SubscriberContext>
    var handlers: map<SubscriberId, HandlerWrapper>
    var delivered: seq<(SubscriberId, Event)>  // the handler calls made so far

    ghost predicate Linked()
      reads this, demux, demux.handleIdMap
    {
      demux.Valid()
    }

    ghost function T(): Tables
      requires Linked()
      reads this, demux, demux.handleIdMap
    {
      Tables(subscribers, handlers, demux.HandleIds(), demux.epoll)
    }

    ghost predicate Valid()
      reads this, demux, demux.handleIdMap
    {
      Linked() && Invariant(T())
    }

    constructor ()
      ensures Valid() && T() == EMPTY_TABLES && delivered == [] && queue.items == []
      ensures fresh(demux) && fresh(demux.handleIdMap) && fresh(queue)
    {
      demux := new EpollDemultiplexer();
      queue := new SharedQueue();
      subscribers := map[];
      handlers := map[];
      delivered := [];
    }

    method RemoveHandler(id: SubscriberId) returns (res: bool)
      modifies this`handlers
      ensures res == Removable(old(handlers), id)
      ensures handlers == WithoutHandler(old(handlers), id)
    {
      res := false;
      if id in handlers && !handlers[id].inProgress {
        handlers := handlers - {id};
        res := true;
      }
    }

    method SetHandlerInProgress(id: SubscriberId, inProgress: bool) returns (res: bool)
      modifies this`handlers
      ensures res == (id in old(handlers))
      ensures handlers == if res then old(handlers)[id := old(handlers)[id].(inProgress := inProgress)]
        else old(handlers)
    {
      res := id in handlers;
      if res {
        handlers := handlers[id := handlers[id].(inProgress := inProgress)];
      }
    }

    method AddHandlerInTable(id: SubscriberId, ref: HandlerRef)
      modifies this`handlers
      ensures handlers == WithHandler(old(handlers), id, ref)
    {
      handlers := handlers[id := HandlerWrapper(Some(ref), id in handlers && handlers[id].inProgress)];
    }

    /** add_or_update_mapping of the unordered_map table: false when the key was there already. */
    method AddOrUpdate(id: SubscriberId, ctx: SubscriberContext) returns (added: bool)
      modifies this`subscribers
      ensures added == (id !in old(subscribers))
      ensures subscribers == old(subscribers)[id := ctx]
    {
      added := id !in subscribers;
      subscribers := subscribers[id := ctx];
    }

    /** remove_if with a predicate that erases handlers while it collects the keys, and then one erase a key. */
    method CleanupExpired()
      requires Linked()
      modifies this`subscribers, this`handlers
      ensures Linked() && T() == Cleanup(old(T()))
    {
      ghost var victims := Victims(T());
      var removed: seq<SubscriberId> := [];
      var pending := subscribers.Keys;
      while pending != {}
        invariant pending <= subscribers.Keys && subscribers == old(subscribers)
        invariant handlers == old(handlers) - (victims - pending)
        invariant forall id :: id in removed <==> id in victims && id !in pending
        decreases pending
      {
        var id :| id in pending;
        if Stale(subscribers[id]) {
          var erased := RemoveHandler(id);
          if erased {
            removed := removed + [id];
          }
        }
        pending := pending - {id};
      }
      for i := 0 to |removed|
        invariant subscribers == old(subscribers) - (set id | id in removed[..i])
        invariant handlers == old(handlers) - victims
      {
        subscribers := subscribers - {removed[i]};
      }
      assert (set id | id in removed[..|removed|]) == victims;
    }

    method Subscribe(h: Handle, mask: Mask, ref: HandlerRef, accepts: bool) returns (id: SubscriberId)
      requires Valid()
      modifies this, demux, demux.handleIdMap
      ensures Valid() && delivered == old(delivered)
      ensures (T(), id) == ReactorTables.Subscribe(old(T()), h, mask, ref, accepts)
    {
      ghost var t := T();
      SerialReactor.SubscribeKeepsInvariant(t, h, mask, ref, accepts);
      SerialReactor.CleanupKeepsInvariant(t);
      id := SubscribeImpl(h, mask, accepts, ref);
      if id != NULL_SUBSCRIBER_ID {
        AddHandlerInTable(id, ref);
      }
    }

    /** The key-search loop of subscribeImpl: with keys that are hashes it finds the descriptor's own entry, or none. */
    method SearchKey(h: Handle) returns (id: SubscriberId, alreadySubscribed: bool)
      requires Linked() && KeysAgree(T())
      ensures id == HashedKey(h) && alreadySubscribed == (id in subscribers)
    {
      SerialReactor.KeySearchEndsAtOnce(T(), h);
      id, alreadySubscribed := NULL_SUBSCRIBER_ID, false;
      var again := true;
      while again
        invariant !again ==> id == HashedKey(h) && alreadySubscribed == (id in subscribers)
        invariant again ==> !alreadySubscribed
        decreases again
      {
        id := demux.GetKeyFor(h);
        if id in subscribers && h == subscribers[id].handle {
          alreadySubscribed := true;
          break;
        }
        again := id in subscribers;
      }
    }

    /** subscribeImpl: all of subscribe but the handler, whichever that is going to be. */
    method SubscribeImpl(h: Handle, mask: Mask, accepts: bool, ghost ref: HandlerRef) returns (answer: SubscriberId)
      requires Valid()
      modifies this`subscribers, this`handlers, demux, demux.handleIdMap
      ensures Linked() && handlers == Cleanup(old(T())).handlers
      ensures var (t', id) := ReactorTables.Subscribe(old(T()), h, mask, ref, accepts);
        answer == id && subscribers == t'.subs && demux.HandleIds() == t'.handleIds && demux.epoll == t'.epoll
    {
      SerialReactor.CleanupKeepsInvariant(T());
      SubscribeOutcome(T(), h, mask, ref, accepts);
      CleanupExpired();
      var id, alreadySubscribed := SearchKey(h);
      if alreadySubscribed && id in handlers && handlers[id].inProgress {
        return NULL_SUBSCRIBER_ID;
      }
      var ctx := FreshContext(h, mask, id);
      var added := AddOrUpdate(id, ctx);
      if !added {
        return NULL_SUBSCRIBER_ID;
      }
      // An entry that was found has been overwritten above, so updating a listener is never reached.
      assert !alreadySubscribed;
      answer := RegisterSubscriber(ctx, accepts);
    }

    /** The end of subscribeImpl: the fresh entry is registered and marked so, or taken back. */
    method RegisterSubscriber(ctx: SubscriberContext, accepts: bool) returns (answer: SubscriberId)
      requires Linked() && ctx.id in subscribers && subscribers[ctx.id] == ctx
      modifies this`subscribers, demux, demux.handleIdMap
      ensures Linked()
      ensures var t := old(T());
        if accepts && ctx.handle !in t.epoll then
          && answer == ctx.id
          && subscribers == t.subs[ctx.id := ctx.(registered := true)]
          && demux.HandleIds() == t.handleIds[ctx.handle := ctx.id]
          && demux.epoll == t.epoll + {ctx.handle}
        else
          && answer == NULL_SUBSCRIBER_ID
          && subscribers == t.subs - {ctx.id} && demux.HandleIds() == t.handleIds && demux.epoll == t.epoll
    {
      var registered := demux.RegisterListener(ctx, accepts);
      if registered {
        var _ := AddOrUpdate(ctx.id, ctx.(registered := true));
        answer := ctx.id;
      } else {
        subscribers := subscribers - {ctx.id};
        answer := NULL_SUBSCRIBER_ID;
      }
    }

    /** unsubscribe: on a valid reactor the listener's mapping is always there to be removed. */
    method Unsubscribe(id: SubscriberId) returns (res: bool)
      requires Valid()
      modifies this`subscribers, this`handlers, demux, demux.handleIdMap
      ensures Valid()
      ensures (T(), res) == ReactorTables.Unsubscribe(old(T()), id)
    {
      SerialReactor.UnsubscribeKeepsInvariant(T(), id);
      SerialReactor.CleanupKeepsInvariant(T());
      CleanupExpired();
      if id in subscribers {
        if subscribers[id].registered {
          var _ := demux.UnregisterListener(subscribers[id]);
        }
        subscribers := subscribers - {id};
        var _ := RemoveHandler(id);
        return true;
      }
      return false;
    }

    /**
     One turn of eventProcessingThread. `order` is what the sort made of the events array, `answer` what the handler
     answers, `due` whether the cleanup interval is over; the handler itself makes no call back into the reactor.
     A turn that finds no handler goes on to the next without the cleanup.
     */
    method ProcessNext(order: seq<Event>, answer: Event -> EventResult, due: bool) returns (stopped: bool)
      requires Valid() && queue.items != []
      modifies this, queue
      ensures Valid()
      ensures queue.items == old(queue.items)[1..] && stopped == old(queue.items)[0].last
      ensures var n, t := old(queue.items)[0], old(T());
        && T() == (if due && ReachesEnd(t, n) then Cleanup(Notify(t, n, order, answer).0)
            else Notify(t, n, order, answer).0)
        && delivered == old(delivered) + Notify(t, n, order, answer).1
      ensures var n, t := old(queue.items)[0], old(T()); var id := HashedKey(n.handle);
        if due && !n.last && !(id in t.subs && !t.subs[id].expired && id !in t.handlers) then Victims(T()) == {}
        else T().subs.Keys == t.subs.Keys && T().handlers.Keys == t.handlers.Keys
    {
      ghost var t := T();
      NotifyKeepsKeys(t, queue.items[0], order, answer);
      NothingLeftToClean(Notify(t, queue.items[0], order, answer).0);
      SerialReactor.KeySearchEndsAtOnce(t, queue.items[0].handle);
      SerialReactor.NotifyKeepsInvariant(T(), queue.items[0], order, answer);
      SerialReactor.CleanupKeepsInvariant(Notify(T(), queue.items[0], order, answer).0);
      ghost var notified := Notify(T(), queue.items[0], order, answer).0;
      var n := queue.WaitAndPop();
      if n.last {
        return true;
      }
      var found := HandleNotification(n, order, answer);
      assert T() == notified;
      if found && due {
        CleanupExpired();
      }
      return false;
    }

    /** The part of the turn between the queue and the cleanup; false when there is an entry but no handler. */
    method HandleNotification(n: Notification, order: seq<Event>, answer: Event -> EventResult) returns (found: bool)
      requires Valid() && !n.last
      modifies this`subscribers, this`handlers, this`delivered
      ensures Linked() && found == ReachesEnd(old(T()), n)
      ensures var t, id := old(T()), HashedKey(n.handle);
        !found <==> id in t.subs && !t.subs[id].expired && id !in t.handlers
      ensures T() == Notify(old(T()), n, order, answer).0
      ensures delivered == old(delivered) + Notify(old(T()), n, order, answer).1
    {
      SerialReactor.KeySearchEndsAtOnce(T(), n.handle);
      var id := demux.GetKeyFor(n.handle);
      if id in subscribers && !subscribers[id].expired {
        var ctx := subscribers[id];
        var entered := SetHandlerInProgress(id, true);
        if !entered {
          subscribers := subscribers[id := ctx.(expired := true)];
          return false;
        }
        DispatchAll(id, ctx, order, answer);
        handlers := handlers[id := handlers[id].(inProgress := false)];
        assert handlers == old(handlers);
      }
      return true;
    }

    /** The dispatch loop over the events array: null slots are skipped, INVALID_REFERENCE ends it. */
    method DispatchAll(id: SubscriberId, ctx: SubscriberContext, order: seq<Event>, answer: Event -> EventResult)
      modifies this`subscribers, this`delivered
      ensures delivered == old(delivered) + Addressed(id, Delivered(NonNull(order), answer))
      ensures subscribers == if CutShort(NonNull(order), answer) then old(subscribers)[id := ctx.(expired := true)]
                             else old(subscribers)
    {
      ghost var done: seq<Event> := [];
      var i := 0;
      assert order[0..] == order;
      while i < |order|
        invariant 0 <= i <= |order| && subscribers == old(subscribers)
        invariant delivered == old(delivered) + Addressed(id, done)
        invariant Remaining(order, i, done, answer)
      {
        var event := order[i];
        if event == NullEvent {
          RemainingSkips(order, i, done, answer);
        } else {
          RemainingDelivers(order, i, done, answer);
          delivered := delivered + [(id, event)];
          AddressedAppend(old(delivered), id, done, event);
          done := done + [event];
          if answer(event) == InvalidReference {
            subscribers := subscribers[id := ctx.(expired := true)];
            return;
          }
        }
        i := i + 1;
      }
      assert order[i..] == [];
    }
  }

  /** The one-step subscribe, case by case, in terms of the tables its cleanup leaves. */
  lemma SubscribeOutcome(t: Tables, h: Handle, mask: Mask, ref: HandlerRef, accepts: bool)
    requires Invariant(t)
    ensures var (t', answer) := ReactorTables.Subscribe(t, h, mask, ref, accepts);
      var c, id := Cleanup(t), HashedKey(h);
      var context := FreshContext(h, mask, id);
      if id in c.subs then
        && answer == NULL_SUBSCRIBER_ID && t'.handleIds == c.handleIds && t'.epoll == c.epoll
        && t'.subs == (if id in c.handlers && c.handlers[id].inProgress then c.subs else c.subs[id := context])
      else if accepts && h !in c.epoll then
        && answer == id && t'.handleIds == c.handleIds[h := id] && t'.epoll == c.epoll + {h}
        && t'.subs == c.subs[id := context][id := context.(registered := true)]
      else
        && answer == NULL_SUBSCRIBER_ID && t'.handleIds == c.handleIds && t'.epoll == c.epoll
        && t'.subs == c.subs[id := context] - {id}
  {
    SerialReactor.CleanupKeepsInvariant(t);
    SerialReactor.KeySearchEndsAtOnce(Cleanup(t), h);
    var c, id := Cleanup(t), HashedKey(h);
    if id !in c.subs {
      assert c.subs[id := FreshContext(h, mask, id)] - {id} == c.subs;
    }
  }

  /** A notification may mark an entry, but neither adds nor removes an entry or a handler. */
  lemma NotifyKeepsKeys(t: Tables, n: Notification, order: seq<Event>, answer: Event -> EventResult)
    ensures var t' := Notify(t, n, order, answer).0;
      t'.subs.Keys == t.subs.Keys && t'.handlers == t.handlers && t'.handleIds == t.handleIds && t'.epoll == t.epoll
  {
    var id := KeyFor(t.handleIds, n.handle);
    if id in t.subs {
      assert t.subs[id := t.subs[id].(expired := true)].Keys == t.subs.Keys;
    }
  }

  lemma NothingLeftToClean(t: Tables)
    ensures Victims(Cleanup(t)) == {}
  {
  }

  /**
   The turn comes to its end, where the cleanup is: it is not the last one, nor one that finds an entry without a
   handler.
   */
  predicate ReachesEnd(t: Tables, n: Notification) {
    var id := KeyFor(t.handleIds, n.handle);
    !n.last && !(id in t.subs && !t.subs[id].expired && id !in t.handlers)
  }

  /** From slot i on, the dispatch loop still has to do what the whole loop does beyond the events done. */
  ghost predicate Remaining(order: seq<Event>, i: nat, done: seq<Event>, answer: Event -> EventResult) {
    && i <= |order|
    && Delivered(NonNull(order), answer) == done + Delivered(NonNull(order[i..]), answer)
    && (CutShort(NonNull(order), answer) <==> CutShort(NonNull(order[i..]), answer))
  }

  lemma RemainingSkips(order: seq<Event>, i: nat, done: seq<Event>, answer: Event -> EventResult)
    requires i < |order| && Remaining(order, i, done, answer) && order[i] == NullEvent
    ensures Remaining(order, i + 1, done, answer)
  {
    assert order[i..][1..] == order[i + 1..];
    assert NonNull(order[i..]) == NonNull(order[i + 1..]);
  }

  lemma RemainingDelivers(order: seq<Event>, i: nat, done: seq<Event>, answer: Event -> EventResult)
    requires i < |order| && Remaining(order, i, done, answer) && order[i] != NullEvent
    ensures answer(order[i]) != InvalidReference ==> Remaining(order, i + 1, done + [order[i]], answer)
    ensures answer(order[i]) == InvalidReference ==>
      Delivered(NonNull(order), answer) == done + [order[i]] && CutShort(NonNull(order), answer)
  {
    assert order[i..][1..] == order[i + 1..];
    var rest := NonNull(order[i + 1..]);
    assert NonNull(order[i..]) == [order[i]] + rest;
    DeliveredHead(order[i], rest, answer);
    ConcatAssociates(done, order[i], Delivered(rest, answer));
  }

  lemma ConcatAssociates<T>(a: seq<T>, x: T, b: seq<T>)
    ensures a + ([x] + b) == a + [x] + b
  {
  }

  lemma AddressedAppend(made: seq<(SubscriberId, Event)>, id: SubscriberId, events: seq<Event>, event: Event)
    ensures (made + Addressed(id, events)) + [(id, event)] == made + Addressed(id, events + [event])
  {
    assert Addressed(id, events + [event]) == Addressed(id, events) + [(id, event)];
  }

  lemma DeliveredHead(event: Event, rest: seq<Event>, answer: Event -> EventResult)
    ensures answer(event) == InvalidReference ==>
      Delivered([event] + rest, answer) == [event] && CutShort([event] + rest, answer)
    ensures answer(event) != InvalidReference ==>
      && Delivered([event] + rest, answer) == [event] + Delivered(rest, answer)
      && (CutShort([event] + rest, answer) <==> CutShort(rest, answer))
  {
    var all := [event] + rest;
    assert all[0] == event && all[1..] == rest;
  }
}
