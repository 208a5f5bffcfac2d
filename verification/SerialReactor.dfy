/**
 Runs of the reactor in which each public call and each notification is one uninterrupted step.
 */
module SerialReactor {
  import opened Options
  import opened Events
  import opened ReactorTables

  datatype Call =
    | Subscribing(h: Handle, mask: Mask, ref: HandlerRef, accepts: bool)
    | Unsubscribing(id: SubscriberId)
    | Cleaning
    | Notifying(n: Notification, order: seq<Event>, answer: Event -> EventResult)
    | Closing(fd: Handle)  // the process closes a descriptor: the kernel forgets it, the tables do not

  function After(t: Tables, call: Call): Tables {
    match call
    case Subscribing(h, mask, ref, accepts) => Subscribe(t, h, mask, ref, accepts).0
    case Unsubscribing(id) => Unsubscribe(t, id).0
    case Cleaning => Cleanup(t)
    case Notifying(n, order, answer) => Notify(t, n, order, answer).0
    case Closing(fd) => t.(epoll := t.epoll - {fd})
  }

  function Run(t: Tables, calls: seq<Call>): Tables
    decreases |calls|
  {
    if calls == [] then t else Run(After(t, calls[0]), calls[1..])
  }

  ghost predicate NoneCloses(calls: seq<Call>) {
    forall i :: 0 <= i < |calls| ==> !calls[i].Closing?
  }

  // ---------- the invariant of every run ----------

  /** A cached key is the hash, and an entry found under it is the descriptor's own: the key search stops at once. */
  lemma KeySearchEndsAtOnce(t: Tables, h: Handle)
    requires KeysAgree(t)
    ensures KeyFor(t.handleIds, h) == HashedKey(h)
    ensures KeyFor(t.handleIds, h) in t.subs ==> t.subs[KeyFor(t.handleIds, h)].handle == h
  {
    if HashedKey(h) in t.subs {
      HashedKeyIsInjective(t.subs[HashedKey(h)].handle, h);
    }
  }

  lemma CleanupKeepsInvariant(t: Tables)
    requires Invariant(t)
    ensures Invariant(Cleanup(t))
    ensures t.epoll == Cleanup(t).epoll && t.handleIds == Cleanup(t).handleIds
  {
  }

  lemma OverwritingKeepsInvariant(c: Tables, h: Handle, mask: Mask)
    requires Invariant(c)
    ensures Invariant(c.(subs := c.subs[HashedKey(h) := FreshContext(h, mask, HashedKey(h))]))
  {
  }

  lemma RegisteringKeepsInvariant(c: Tables, h: Handle, mask: Mask)
    requires Invariant(c)
    ensures var id := HashedKey(h);
      Invariant(c.(subs := c.subs[id := FreshContext(h, mask, id).(registered := true)],
                   handleIds := c.handleIds[h := id], epoll := c.epoll + {h}))
  {
  }

  lemma AddingHandlerKeepsInvariant(c: Tables, id: SubscriberId, ref: HandlerRef)
    requires Invariant(c)
    ensures Invariant(c.(handlers := WithHandler(c.handlers, id, ref)))
  {
  }

  lemma SubscribeKeepsInvariant(t: Tables, h: Handle, mask: Mask, ref: HandlerRef, accepts: bool)
    requires Invariant(t)
    ensures Invariant(Subscribe(t, h, mask, ref, accepts).0)
  {
    var c, id := Cleanup(t), HashedKey(h);
    CleanupKeepsInvariant(t);
    KeySearchEndsAtOnce(c, h);
    OverwritingKeepsInvariant(c, h, mask);
    if id !in c.subs && accepts && h !in c.epoll {
      var registered := c.(subs := c.subs[id := FreshContext(h, mask, id).(registered := true)],
                           handleIds := c.handleIds[h := id], epoll := c.epoll + {h});
      RegisteringKeepsInvariant(c, h, mask);
      AddingHandlerKeepsInvariant(registered, id, ref);
    }
  }

  lemma UnsubscribeKeepsInvariant(t: Tables, id: SubscriberId)
    requires Invariant(t)
    ensures Invariant(Unsubscribe(t, id).0)
    ensures UnsubscribeDefined(t, id)
  {
    CleanupKeepsInvariant(t);
    var c := Cleanup(t);
    var u := Unsubscribe(t, id).0;
    if id in c.subs {
      forall other | other in u.subs && u.subs[other].registered
        ensures u.subs[other].handle in u.handleIds
      {
        HashedKeyIsInjective(c.subs[other].handle, c.subs[id].handle);
      }
    }
  }

  lemma NotifyKeepsInvariant(t: Tables, n: Notification, order: seq<Event>, answer: Event -> EventResult)
    requires Invariant(t)
    ensures Invariant(Notify(t, n, order, answer).0)
  {
  }

  lemma StepKeepsInvariant(t: Tables, call: Call)
    requires Invariant(t)
    ensures Invariant(After(t, call))
  {
    match call
    case Subscribing(h, mask, ref, accepts) => SubscribeKeepsInvariant(t, h, mask, ref, accepts);
    case Unsubscribing(id) => UnsubscribeKeepsInvariant(t, id);
    case Cleaning => CleanupKeepsInvariant(t);
    case Notifying(n, order, answer) => NotifyKeepsInvariant(t, n, order, answer);
    case Closing(fd) =>
  }

  lemma StepKeepsEpollMapped(t: Tables, call: Call)
    requires Invariant(t) && t.epoll == t.handleIds.Keys && !call.Closing?
    ensures After(t, call).epoll == After(t, call).handleIds.Keys
  {
  }

  /**
   In every run the keys agree with the hash, what epoll watches is mapped, every registered context is mapped, and
   unsubscribing any identifier next is defined. While no descriptor is closed under the reactor, the epoll set is
   exactly the domain of the handle map.
   */
  lemma {:induction false} RunKeepsInvariant(t: Tables, calls: seq<Call>)
    requires Invariant(t)
    ensures Invariant(Run(t, calls))
    ensures forall id :: UnsubscribeDefined(Run(t, calls), id)
    ensures t.epoll == t.handleIds.Keys && NoneCloses(calls) ==> Run(t, calls).epoll == Run(t, calls).handleIds.Keys
    decreases |calls|
  {
    if calls == [] {
      forall id
        ensures UnsubscribeDefined(t, id)
      {
        UnsubscribeKeepsInvariant(t, id);
      }
    } else {
      StepKeepsInvariant(t, calls[0]);
      if t.epoll == t.handleIds.Keys && NoneCloses(calls) {
        StepKeepsEpollMapped(t, calls[0]);
      }
      RunKeepsInvariant(After(t, calls[0]), calls[1..]);
    }
  }

  /** The lemma above for a reactor that starts empty. */
  lemma EveryRunFromEmpty(calls: seq<Call>)
    ensures Invariant(Run(EMPTY_TABLES, calls))
    ensures forall id :: UnsubscribeDefined(Run(EMPTY_TABLES, calls), id)
    ensures NoneCloses(calls) ==> Run(EMPTY_TABLES, calls).epoll == Run(EMPTY_TABLES, calls).handleIds.Keys
  {
    RunKeepsInvariant(EMPTY_TABLES, calls);
  }

  // ---------- what subscribe answers ----------

  /** Descriptor h has an entry that the next cleanup will not remove. */
  predicate Held(t: Tables, h: Handle) {
    var id := HashedKey(h);
    id in t.subs && !(Stale(t.subs[id]) && Removable(t.handlers, id))
  }

  /**
   subscribe answers an identifier exactly when the descriptor is not 0, has no entry after the cleanup, is not
   watched already, and the kernel takes it. The identifier is then the hash, and leads to a live context and handler.
   */
  lemma SubscribeSucceedsExactlyWhen(t: Tables, h: Handle, mask: Mask, ref: HandlerRef, accepts: bool)
    requires Invariant(t)
    ensures var (t', id) := Subscribe(t, h, mask, ref, accepts);
      && (id != NULL_SUBSCRIBER_ID <==> h != 0 && !Held(t, h) && h !in t.epoll && accepts)
      && (id != NULL_SUBSCRIBER_ID ==>
            && id == HashedKey(h)
            && id in t'.subs && t'.subs[id] == SubscriberContext(true, false, h, mask, id)
            && id in t'.handlers && t'.handlers[id] == HandlerWrapper(Some(ref), false)
            && h in t'.epoll && h in t'.handleIds)
  {
    CleanupIsExact(t);
    KeySearchEndsAtOnce(Cleanup(t), h);
  }

  lemma SubscribedIsClean(t: Tables, h: Handle, mask: Mask, ref: HandlerRef)
    requires Invariant(t) && h != 0 && !Held(t, h) && h !in t.handleIds
    ensures var (t', id) := Subscribe(t, h, mask, ref, true);
      && id == HashedKey(h) && id !in Cleanup(t).subs
      && Cleanup(t') == t'
  {
    CleanupIsExact(t);
    var t' := Subscribe(t, h, mask, ref, true).0;
    assert Victims(t') == {};
  }

  /** A successful subscribe is undone by unsubscribe: the tables are those that cleanup alone would have left. */
  lemma UnsubscribeUndoesSubscribe(t: Tables, h: Handle, mask: Mask, ref: HandlerRef)
    requires Invariant(t) && h != 0 && !Held(t, h) && h !in t.handleIds
    ensures var (t', id) := Subscribe(t, h, mask, ref, true);
      && id == HashedKey(h)
      && Unsubscribe(t', id).1
      && Unsubscribe(t', id).0 == Cleanup(t).(handlers := Cleanup(t).handlers - {id})
  {
    SubscribedIsClean(t, h, mask, ref);
    var c, id := Cleanup(t), HashedKey(h);
    assert c.subs[id := FreshContext(h, mask, id).(registered := true)] - {id} == c.subs;
    assert c.handleIds[h := id] - {h} == c.handleIds;
    assert c.epoll + {h} - {h} == c.epoll;
    assert WithHandler(c.handlers, id, ref) - {id} == c.handlers - {id};
  }

  // ---------- what becomes of a watched descriptor's entry ----------

  /** Epoll watches h, but no entry of the reactor belongs to it. */
  predicate Orphaned(t: Tables, h: Handle) {
    h in t.epoll && HashedKey(h) !in t.subs
  }

  /**
   The call takes a watched descriptor's entry away and leaves epoll watching: its cleanup finds the entry stale with an
   idle handler, or it unsubscribes an entry that is not marked registered.
   */
  predicate Orphans(t: Tables, call: Call, h: Handle) {
    var id := HashedKey(h);
    && h in t.epoll && id in t.subs && !call.Notifying? && !call.Closing?
    && (!Held(t, h) || (call == Unsubscribing(id) && !t.subs[id].registered))
  }

  lemma SubscribeOrphansExactlyWhen(t: Tables, h: Handle, call: Call)
    requires Invariant(t) && !Orphaned(t, h) && call.Subscribing?
    ensures Orphaned(After(t, call), h) <==> h in t.epoll && HashedKey(h) in t.subs && !Held(t, h)
  {
    CleanupIsExact(t);
    KeySearchEndsAtOnce(Cleanup(t), call.h);
    HashedKeyIsInjective(call.h, h);
  }

  lemma UnsubscribeOrphansExactlyWhen(t: Tables, h: Handle, id: SubscriberId)
    requires Invariant(t) && !Orphaned(t, h)
    ensures Orphaned(After(t, Unsubscribing(id)), h) <==>
      h in t.epoll && HashedKey(h) in t.subs && (!Held(t, h) || (id == HashedKey(h) && !t.subs[id].registered))
  {
    CleanupIsExact(t);
    if id in t.subs {
      HashedKeyIsInjective(t.subs[id].handle, h);
    }
  }

  /** A descriptor is orphaned by a call exactly when the call finds it watched and its entry so. */
  lemma OrphanedExactlyWhen(t: Tables, h: Handle, call: Call)
    requires Invariant(t) && !Orphaned(t, h)
    ensures Orphaned(After(t, call), h) <==> Orphans(t, call, h)
  {
    match call {
      case Subscribing(_, _, _, _) => SubscribeOrphansExactlyWhen(t, h, call);
      case Unsubscribing(id) => UnsubscribeOrphansExactlyWhen(t, h, id);
      case _ => CleanupIsExact(t);
    }
  }

  predicate EverOrphans(t: Tables, calls: seq<Call>, h: Handle)
    decreases |calls|
  {
    calls != [] && (Orphans(t, calls[0], h) || EverOrphans(After(t, calls[0]), calls[1..], h))
  }

  /** Over a run that does not close the descriptor: it ends orphaned exactly when some call of the run orphaned it. */
  lemma {:induction false} RunOrphansExactlyWhen(t: Tables, h: Handle, calls: seq<Call>)
    requires Invariant(t) && !Orphaned(t, h)
    requires forall i :: 0 <= i < |calls| ==> calls[i] != Closing(h)
    ensures Orphaned(Run(t, calls), h) <==> EverOrphans(t, calls, h)
    decreases |calls|
  {
    if calls != [] {
      OrphanedExactlyWhen(t, h, calls[0]);
      StepKeepsInvariant(t, calls[0]);
      if Orphaned(After(t, calls[0]), h) {
        OrphanStaysLost(After(t, calls[0]), h, calls[1..], Cleaning);
      } else {
        RunOrphansExactlyWhen(After(t, calls[0]), h, calls[1..]);
      }
    }
  }

  /** One way to get there: subscribing a live descriptor again answers null, and marks its entry not registered. */
  lemma ResubscribingOrphans(t: Tables, h: Handle, mask: Mask, ref: HandlerRef, accepts: bool)
    requires Invariant(t) && h in t.epoll && Held(t, h) && HashedKey(h) in t.handlers
    ensures Subscribe(t, h, mask, ref, accepts).1 == NULL_SUBSCRIBER_ID
    ensures Orphans(Subscribe(t, h, mask, ref, accepts).0, Cleaning, h)
    ensures HashedKey(h) !in Cleanup(Subscribe(t, h, mask, ref, accepts).0).handlers
  {
    CleanupIsExact(t);
    KeySearchEndsAtOnce(Cleanup(t), h);
  }

  /** The ordinary way: a handler answers INVALID_REFERENCE, and its subscriber expires. */
  lemma ExpiringOrphans(t: Tables, n: Notification, order: seq<Event>, answer: Event -> EventResult)
    requires Invariant(t) && n.handle in t.epoll && !n.last && Held(t, n.handle) && !t.subs[HashedKey(n.handle)].expired
    requires HashedKey(n.handle) in t.handlers && CutShort(NonNull(order), answer)
    ensures Orphans(Notify(t, n, order, answer).0, Cleaning, n.handle)
  {
    KeySearchEndsAtOnce(t, n.handle);
  }

  /** From an empty reactor: one descriptor subscribed once, its handler answering INVALID_REFERENCE, and a cleanup. */
  lemma ExpiredIsOrphaned(h: Handle, mask: Mask, ref: HandlerRef, order: seq<Event>, answer: Event -> EventResult)
    requires h != 0 && CutShort(NonNull(order), answer)
    ensures var calls := [Subscribing(h, mask, ref, true), Notifying(Notification(h, mask, false), order, answer),
      Cleaning];
      Orphaned(Run(EMPTY_TABLES, calls), h)
  {
    var n := Notification(h, mask, false);
    var t1 := After(EMPTY_TABLES, Subscribing(h, mask, ref, true));
    var t2 := After(t1, Notifying(n, order, answer));
    SubscribeKeepsInvariant(EMPTY_TABLES, h, mask, ref, true);
    SubscribeSucceedsExactlyWhen(EMPTY_TABLES, h, mask, ref, true);
    NotifyKeepsInvariant(t1, n, order, answer);
    ExpiringOrphans(t1, n, order, answer);
    OrphanedExactlyWhen(t2, h, Cleaning);
    ThreeCalls(EMPTY_TABLES, Subscribing(h, mask, ref, true), Notifying(n, order, answer), Cleaning);
  }

  lemma ThreeCalls(t: Tables, a: Call, b: Call, c: Call)
    ensures Run(t, [a, b, c]) == After(After(After(t, a), b), c)
  {
    assert [a, b, c][1..] == [b, c] && [b, c][1..] == [c] && [c][1..] == [];
    assert Run(t, [a, b, c]) == Run(After(t, a), [b, c]);
    assert Run(After(t, a), [b, c]) == Run(After(After(t, a), b), [c]);
  }

  lemma OrphanStaysOneStep(t: Tables, h: Handle, call: Call)
    requires Invariant(t) && Orphaned(t, h) && call != Closing(h)
    ensures Orphaned(After(t, call), h)
  {
    if call.Subscribing? {
      KeySearchEndsAtOnce(Cleanup(t), call.h);
    } else if call.Unsubscribing? {
      CleanupIsExact(t);
      var c := Cleanup(t);
      if call.id in c.subs {
        HashedKeyIsInjective(c.subs[call.id].handle, h);
      }
    }
  }

  /** The calls of a run that a given descriptor's events or subscribers could notice. */
  predicate AnswersHandle(t: Tables, call: Call, h: Handle) {
    match call
    case Subscribing(h', mask, ref, accepts) => h' == h && Subscribe(t, h', mask, ref, accepts).1 != NULL_SUBSCRIBER_ID
    case Unsubscribing(id) => id == HashedKey(h) && Unsubscribe(t, id).1
    case Notifying(n, order, answer) => n.handle == h && Notify(t, n, order, answer).1 != []
    case _ => false
  }

  /**
   An orphaned descriptor stays lost for as long as it is open: whatever is called, it cannot be subscribed or
   unsubscribed, and none of its notifications reaches a handler.
   */
  lemma {:induction false} OrphanStaysLost(t: Tables, h: Handle, calls: seq<Call>, last: Call)
    requires Invariant(t) && Orphaned(t, h)
    requires forall i :: 0 <= i < |calls| ==> calls[i] != Closing(h)
    ensures Invariant(Run(t, calls)) && Orphaned(Run(t, calls), h)
    ensures !AnswersHandle(Run(t, calls), last, h)
    decreases |calls|
  {
    if calls == [] {
      CleanupIsExact(t);
      KeySearchEndsAtOnce(t, h);
      KeySearchEndsAtOnce(Cleanup(t), h);
    } else {
      StepKeepsInvariant(t, calls[0]);
      OrphanStaysOneStep(t, h, calls[0]);
      OrphanStaysLost(After(t, calls[0]), h, calls[1..], last);
    }
  }
}
