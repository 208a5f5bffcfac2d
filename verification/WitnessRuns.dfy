/**
 Runs of the interleaved reactor, each from an empty one: a handler that unsubscribes itself and is tolerated, and those
 in which the serial guarantees break. The descriptors are 5 and 6.
 */
module WitnessRuns {
  import opened Options
  import opened Events
  import opened ReactorTables
  import opened InterleavedReactor
  import opened OrderlyReactor
  import opened Reachability
  import opened TolerantReactor
  import opened UninterruptedCalls

  predicate AllReturned(s: State) {
    forall tid :: tid in s.calls ==> s.calls[tid].Returned?
  }

  lemma ReturnedRemoveNothing(s: State)
    requires AllReturned(s)
    ensures RemovedByOne(s) && forall tid :: OthersRemoveNothing(s, tid)
  {
  }

  const FIRST: Handle := 5
  const SECOND: Handle := 6

  function Live(h: Handle): SubscriberContext {
    SubscriberContext(true, false, h, EPOLLIN, HashedKey(h))
  }

  // ---------- two descriptors subscribed ----------

  function TwoSubscribed(): Tables {
    Tables(map[5 := Live(FIRST), 6 := Live(SECOND)],
           map[5 := HandlerWrapper(Some(0), false), 6 := HandlerWrapper(Some(0), false)],
           map[FIRST := 5, SECOND := 6],
           {FIRST, SECOND})
  }

  function OneSubscribed(): Tables {
    Tables(map[5 := Live(FIRST)], map[5 := HandlerWrapper(Some(0), false)], map[FIRST := 5], {FIRST})
  }

  lemma SubscribingFirst()
    ensures Subscribe(EMPTY_TABLES, FIRST, EPOLLIN, 0, true) == (OneSubscribed(), 5)
  {
    var t := Subscribe(EMPTY_TABLES, FIRST, EPOLLIN, 0, true).0;
    assert Cleanup(EMPTY_TABLES) == EMPTY_TABLES;
    assert t.subs == OneSubscribed().subs && t.handlers == OneSubscribed().handlers;
    assert t.handleIds == OneSubscribed().handleIds && t.epoll == OneSubscribed().epoll;
  }

  lemma SubscribingSecond()
    ensures Subscribe(OneSubscribed(), SECOND, EPOLLIN, 0, true) == (TwoSubscribed(), 6)
  {
    var t := Subscribe(OneSubscribed(), SECOND, EPOLLIN, 0, true).0;
    assert Victims(OneSubscribed()) == {};
    assert Cleanup(OneSubscribed()) == OneSubscribed();
    assert t.subs == TwoSubscribed().subs && t.handlers == TwoSubscribed().handlers;
    assert t.handleIds == TwoSubscribed().handleIds && t.epoll == TwoSubscribed().epoll;
  }

  lemma ReachOneSubscribed() returns (s: State)
    ensures ReachesTolerantly(INITIAL, s) && KeysInvariant(s)
    ensures s == Local(INITIAL, 1, Returned(5, true), OneSubscribed())
  {
    SubscribingFirst();
    SubscribeAlone(INITIAL, 1, Request(FIRST, EPOLLIN, 0), true);
    s := Local(INITIAL, 1, Returned(5, true), OneSubscribed());
    AloneTolerantly(INITIAL, s, 1);
    ReachableKeepsInvariant(INITIAL, s);
  }

  lemma ReachTwoSubscribed() returns (s: State)
    ensures ReachesTolerantly(INITIAL, s) && CanInvoke(s, 3) && CanInvoke(s, 4) && AllReturned(s)
    ensures s.t == TwoSubscribed() && s.queue == [] && s.event.Waiting?
  {
    var s1 := ReachOneSubscribed();
    SubscribingSecond();
    SubscribeAlone(s1, 2, Request(SECOND, EPOLLIN, 0), true);
    s := Local(s1, 2, Returned(6, true), TwoSubscribed());
    AloneTolerantly(s1, s, 2);
    TolerantlyThrough(INITIAL, s1, s);
  }

  lemma TwoSubscribedIsClean()
    ensures Cleanup(TwoSubscribed()) == TwoSubscribed()
  {
    assert Victims(TwoSubscribed()) == {};
  }

  // ---------- two removals at once ----------

  /** A thread's unsubscribe of the first descriptor, run alone up to the removal from the handle map. */
  lemma ReachUnmapping(s: State, tid: ThreadId)
    requires CanInvoke(s, tid) && s.t == TwoSubscribed()
    ensures ReachesAlone(Caller(tid), s, Local(s, tid, Unmapping(5, Live(FIRST)), s.t))
  {
    TwoSubscribedIsClean();
    UnsubscribeToUnmapping(s, tid, 5);
  }

  lemma ReachBothUnmapping() returns (s: State)
    ensures Reaches(INITIAL, s) && s.t == TwoSubscribed() && !s.undefined && 3 in s.calls && 4 in s.calls
    ensures s.calls[3] == s.calls[4] == Unmapping(5, Live(FIRST))
  {
    var s0 := ReachTwoSubscribed();
    var s1 := Local(s0, 3, Unmapping(5, Live(FIRST)), s0.t);
    s := Local(s1, 4, Unmapping(5, Live(FIRST)), s0.t);
    ReachUnmapping(s0, 3);
    ReachUnmapping(s1, 4);
    ReachesThrough(INITIAL, s0, s1);
    ReachesThrough(INITIAL, s1, s);
  }

  /**
   Two threads unsubscribe the same identifier at once: both find it registered, so that two calls remove one
   subscriber. The first unmaps and unwatches its descriptor, and then the second erases the end iterator.
   */
  lemma TwoUnsubscribersAreUndefined()
    ensures exists s, s' :: (Reaches(INITIAL, s) && !RemovedByOne(s) && Reaches(s, s') && s'.undefined)
  {
    var s := ReachBothUnmapping();
    assert Removing(s.calls[3], 5) && Removing(s.calls[4], 5);
    var s' := BothUnmap(s);
  }

  lemma BothUnmap(s: State) returns (s': State)
    requires s.t == TwoSubscribed() && !s.undefined && 3 in s.calls && 4 in s.calls
    requires s.calls[3] == s.calls[4] == Unmapping(5, Live(FIRST))
    ensures Reaches(s, s') && s'.undefined
  {
    UnmappingTwice(s, 3, 4, 5, Live(FIRST));
    assert SECOND in s.t.handleIds.Keys;
    s' := Exec(s, [Advance(3, 0, true), Advance(3, 0, true), Advance(4, 0, true)]);
  }

  // ---------- a notification for the first descriptor ----------

  /** A step that is none of a removing call, while no call is going on. */
  lemma Goes(s: State, a: Action)
    requires ReachesTolerantly(INITIAL, s) && Enabled(s, a) && AllReturned(s) && !a.Advance? && !a.Invoke?
    requires a.EventAdvance? ==> !WritesBack(s.event)
    ensures ReachesTolerantly(INITIAL, Step(s, a)) && AllReturned(Step(s, a)) && Step(s, a).calls == s.calls
  {
    if a.EventAdvance? {
      EventLeavesCalls(s, a.order, a.answer);
    }
    ReturnedRemoveNothing(s);
    ReturnedRemoveNothing(Step(s, a));
    TolerantlyThen(INITIAL, s, a);
  }

  lemma ReachPopped(mask: Mask) returns (s: State)
    requires PassedMask(mask) == mask
    ensures ReachesTolerantly(INITIAL, s) && CanInvoke(s, 3) && CanInvoke(s, 4) && AllReturned(s)
    ensures s.t == TwoSubscribed() && s.history != [] && Last(s.history).deliveries == []
    ensures s.event == Popped(Notification(FIRST, mask, false))
  {
    var s0 := ReachTwoSubscribed();
    Goes(s0, Ready(FIRST, mask));
    var s1 := Step(s0, Ready(FIRST, mask));
    assert s1.queue == [Notification(FIRST, mask, false)];
    Goes(s1, EventAdvance([], Success));
    s := Step(s1, EventAdvance([], Success));
  }

  /** Taken up to the search for its entry. */
  lemma ReachKeyed(mask: Mask) returns (s: State)
    requires PassedMask(mask) == mask
    ensures ReachesTolerantly(INITIAL, s) && CanInvoke(s, 3) && CanInvoke(s, 4) && AllReturned(s)
    ensures s.t == TwoSubscribed() && s.history != [] && Last(s.history).deliveries == []
    ensures s.event == Keyed(Notification(FIRST, mask, false), 5)
  {
    var s0 := ReachPopped(mask);
    Goes(s0, EventAdvance([], Success));
    s := Step(s0, EventAdvance([], Success));
  }

  /** And on to the section that sets in_progress. */
  lemma ReachEntering(mask: Mask) returns (s: State)
    requires PassedMask(mask) == mask
    ensures ReachesTolerantly(INITIAL, s) && CanInvoke(s, 3) && CanInvoke(s, 4) && AllReturned(s)
    ensures s.t == TwoSubscribed() && s.history != []
    ensures s.event == Entering(Notification(FIRST, mask, false), 5, Live(FIRST)) && Last(s.history).deliveries == []
  {
    var s0 := ReachKeyed(mask);
    var a := EventAdvance([], Success);
    Goes(s0, a);
    s := Step(s0, a);
  }

  /** The first descriptor's handler is in progress. */
  function FirstInProgress(): Tables {
    TwoSubscribed().(handlers := TwoSubscribed().handlers[5 := HandlerWrapper(Some(0), true)])
  }

  lemma ReachDispatching(mask: Mask) returns (s: State)
    requires PassedMask(mask) == mask
    ensures ReachesTolerantly(INITIAL, s) && CanInvoke(s, 3) && CanInvoke(s, 4) && AllReturned(s)
    ensures s.t == FirstInProgress() && s.history != []
    ensures s.event == Dispatching(5, Live(FIRST), NonNull(EventsFromMask(mask)))
    ensures Last(s.history).wrapper == Some(HandlerWrapper(Some(0), false)) && Last(s.history).deliveries == []
  {
    var s0 := ReachEntering(mask);
    var a := EventAdvance(EventsFromMask(mask), Success);
    Goes(s0, a);
    s := Step(s0, a);
  }

  // ---------- the events a mask makes due ----------

  lemma {:induction false} FirstEvent(events: seq<Event>, k: nat)
    requires k < |events| && events[k] != NullEvent && forall i :: 0 <= i < k ==> events[i] == NullEvent
    ensures NonNull(events) == [events[k]] + NonNull(events[k + 1..])
  {
    if k > 0 {
      FirstEvent(events[1..], k - 1);
      assert events[1..][k..] == events[k + 1..];
    }
  }

  lemma {:induction false} NoEvent(events: seq<Event>)
    requires forall i :: 0 <= i < |events| ==> events[i] == NullEvent
    ensures NonNull(events) == []
  {
    if events != [] {
      NoEvent(events[1..]);
    }
  }

  lemma OneDue(mask: Mask, e: Event)
    requires e != NullEvent && forall f: Event :: InMask(f, mask) <==> f == e
    ensures NonNull(EventsFromMask(mask)) == [e]
  {
    var events, k := EventsFromMask(mask), Ordinal(e) - 1;
    assert FromOrdinal(Ordinal(e)) == e;
    FirstEvent(events, k);
    NoEvent(events[k + 1..]);
  }

  lemma OutIsDue()
    ensures NonNull(EventsFromMask(EPOLLOUT)) == [Out]
  {
    forall f: Event
      ensures InMask(f, EPOLLOUT) <==> f == Out
    {
      FlagsAreDisjoint(Out, f);
    }
    OneDue(EPOLLOUT, Out);
  }

  lemma InIsDue()
    ensures NonNull(EventsFromMask(EPOLLIN)) == [In]
  {
    forall f: Event
      ensures InMask(f, EPOLLIN) <==> f == In
    {
      FlagsAreDisjoint(In, f);
    }
    OneDue(EPOLLIN, In);
  }

  /** What epoll reports of a connection that has been refused. */
  const REFUSED: Mask := EPOLLERR + EPOLLHUP

  lemma RefusalIsDue()
    ensures NonNull(EventsFromMask(REFUSED)) == [Err, Hup] && PassedMask(REFUSED) == REFUSED
  {
    forall f: Event
      ensures InMask(f, REFUSED) <==> f == Err || f == Hup
    {
      FlagsAreDisjoint(Err, f);
      AddingFlag(EPOLLERR, Hup, f);
    }
    var events := EventsFromMask(REFUSED);
    assert 0 !in REFUSED;
    FirstEvent(events, 3);
    FirstEvent(events[4..], 0);
    NoEvent(events[4..][1..]);
  }

  // ---------- a handler that unsubscribes itself ----------

  /** A thread about to unmap the first descriptor while the event thread holds its entry. */
  lemma RemovesWhileHeld(s: State)
    requires Holding(s.event, 5)
    ensures !NotRemovedWhileHeld(Local(s, 3, Unmapping(5, Live(FIRST)), s.t))
  {
    var s' := Local(s, 3, Unmapping(5, Live(FIRST)), s.t);
    assert 3 in s'.calls && Removing(s'.calls[3], 5);
  }

  /**
   What a whole unsubscribe of the first descriptor leaves while its handler is in progress: the handler stays behind.
   */
  function SelfUnsubscribed(): Tables {
    var t := FirstInProgress();
    Tables(t.subs - {5}, t.handlers, t.handleIds - {FIRST}, t.epoll - {FIRST})
  }

  lemma UnsubscribedInProgress()
    ensures UnsubscribeDefined(FirstInProgress(), 5) && Cleanup(FirstInProgress()) == FirstInProgress()
    ensures Unsubscribe(FirstInProgress(), 5) == (SelfUnsubscribed(), true)
  {
    var t := FirstInProgress();
    assert Victims(t) == {};
    assert Cleanup(t) == t;
  }

  /** Up to the unmapping, where the removal overlaps the hold, and from there to the end. */
  lemma ReachSelfUnsubscribed(s: State)
    requires CanInvoke(s, 3) && AllReturned(s) && s.t == FirstInProgress()
    ensures var unmapping := Local(s, 3, Unmapping(5, Live(FIRST)), s.t);
      ReachesTolerantly(s, unmapping) &&
          ReachesTolerantly(unmapping, Local(s, 3, Returned(5, true), SelfUnsubscribed()))
  {
    var unmapping := Local(s, 3, Unmapping(5, Live(FIRST)), s.t);
    UnsubscribedInProgress();
    UnsubscribeToUnmapping(s, 3, 5);
    UnsubscribeFromUnmapping(s, 3, 5);
    ReturnedRemoveNothing(s);
    AloneTolerantly(s, unmapping, 3);
    AloneTolerantly(unmapping, Local(s, 3, Returned(5, true), SelfUnsubscribed()), 3);
  }

  // ---------- and is tolerated ----------

  /** The first descriptor subscribed again, for another handler, while the old one is still in progress. */
  function SubscribedAgain(): Tables {
    var t := SelfUnsubscribed();
    Tables(t.subs[5 := Live(FIRST)], t.handlers[5 := HandlerWrapper(Some(9), true)], t.handleIds[FIRST := 5],
        t.epoll + {FIRST})
  }

  lemma SubscribingAgain()
    ensures Subscribe(SelfUnsubscribed(), FIRST, EPOLLIN, 9, true) == (SubscribedAgain(), 5)
  {
    var t := SelfUnsubscribed();
    assert Victims(t) == {};
    assert Cleanup(t) == t;
    assert Subscribe(t, FIRST, EPOLLIN, 9, true).0.subs == SubscribedAgain().subs;
  }

  lemma ReachSubscribedAgain(s: State)
    requires CanInvoke(s, 3) && AllReturned(s) && s.t == SelfUnsubscribed() && KeysInvariant(s)
    ensures ReachesTolerantly(s, Local(s, 3, Returned(5, true), SubscribedAgain()))
  {
    SubscribingAgain();
    SubscribeAlone(s, 3, Request(FIRST, EPOLLIN, 9), true);
    ReturnedRemoveNothing(s);
    AloneTolerantly(s, Local(s, 3, Returned(5, true), SubscribedAgain()), 3);
  }

  /** Nothing in progress, and the new handler in its place. */
  function HandedOver(): Tables {
    TwoSubscribed().(handlers := TwoSubscribed().handlers[5 := HandlerWrapper(Some(9), false)])
  }

  lemma HandedOverIsSound()
    ensures Invariant(HandedOver()) && HandedOver().epoll == HandedOver().handleIds.Keys
  {
  }

  /** The answer to the one event due, the end of the loop, and the flag taken back. */
  lemma SuccessEndsDispatch(s: State) returns (s': State)
    requires AllReturned(s) && !s.undefined && s.tableLock.None? && s.history != []
    requires s.event == Dispatching(5, Live(FIRST), [Out]) && s.t == SubscribedAgain()
    ensures ReachesTolerantly(s, s') && AllReturned(s') && s'.event.Waiting? && s'.t == HandedOver()
  {
    var a := EventAdvance([], Success);
    var s1 := Step(s, a);
    assert s1.event == Dispatching(5, Live(FIRST), []) && s1.t == s.t && s1.calls == s.calls;
    var s2 := Step(s1, a);
    assert s2.event == Leaving(5) && s2.t == s.t && s2.calls == s.calls;
    s' := Step(s2, a);
    LeavingHandsOver(s2, a);
    ThreeTolerantSteps(s, s1, s2, a);
  }

  lemma FlagTakenBack()
    ensures var t := SubscribedAgain(); t.(handlers := t.handlers[5 := HandlerWrapper(Some(9), false)]) == HandedOver()
  {
    var t, h := SubscribedAgain(), HandedOver();
    assert t.subs == h.subs && t.handleIds == h.handleIds && t.epoll == h.epoll;
    assert t.handlers[5 := HandlerWrapper(Some(9), false)] == h.handlers;
  }

  lemma LeavingHandsOver(s: State, a: Action)
    requires Enabled(s, a) && a.EventAdvance? && s.event == Leaving(5) && s.t == SubscribedAgain()
    ensures Step(s, a).t == HandedOver() && Step(s, a).event.Waiting? && Step(s, a).calls == s.calls
  {
    assert s.t.handlers[5] == HandlerWrapper(Some(9), true);
    FlagTakenBack();
  }

  lemma ThreeTolerantSteps(s: State, s1: State, s2: State, a: Action)
    requires AllReturned(s) && AllReturned(s1) && AllReturned(s2) && a.EventAdvance?
    requires Enabled(s, a) && Step(s, a) == s1 && Enabled(s1, a) && Step(s1, a) == s2 && Enabled(s2, a)
    requires !WritesBack(s.event) && !WritesBack(s1.event) && !WritesBack(s2.event)
    ensures ReachesTolerantly(s, Step(s2, a))
  {
    ReturnedRemoveNothing(s);
    ReturnedRemoveNothing(s1);
    ReturnedRemoveNothing(s2);
    EventLeavesCalls(s2, a.order, a.answer);
    ReturnedRemoveNothing(Step(s2, a));
    assert Exec(s, []) == s && Tolerant(s, [], false);
    TolerantlyThen(s, s, a);
    TolerantlyThen(s, s1, a);
    TolerantlyThen(s, s2, a);
  }

  /**
   A connector's completion: on OUT its handler unsubscribes itself, though the event thread holds its entry, the
   endpoint subscribes the descriptor again, and the answer is SUCCESS. No such run is orderly; it is tolerated, and
   ends with everything registered mapped and watched.
   */
  lemma CompletionIsTolerated()
    ensures exists u, s :: (
      && ReachesTolerantly(INITIAL, u) && !NotRemovedWhileHeld(u) && ReachesTolerantly(u, s)
      && ReachesTolerantly(INITIAL, s) && Sound(s) && AllReturned(s) && s.event.Waiting?
      && Invariant(s.t) && s.t.epoll == s.t.handleIds.Keys && s.t == HandedOver())
  {
    OutIsDue();
    var d := ReachDispatching(EPOLLOUT);
    var u := Local(d, 3, Unmapping(5, Live(FIRST)), d.t);
    var again := ReachCompleted(d, u);
    var s := SuccessEndsDispatch(again);
    RemovesWhileHeld(d);
    TolerantlyThrough(INITIAL, d, u);
    TolerantlyThrough(u, again, s);
    TolerantlyThrough(INITIAL, u, s);
    TolerantlyReachedIsSound(s);
    HandedOverIsSound();
  }

  lemma ReachCompleted(d: State, u: State) returns (s: State)
    requires ReachesTolerantly(INITIAL, d) && CanInvoke(d, 3) && AllReturned(d) && d.t == FirstInProgress()
    requires u == Local(d, 3, Unmapping(5, Live(FIRST)), d.t)
    ensures ReachesTolerantly(d, u) && ReachesTolerantly(u, s) && s == Local(d, 3, Returned(5, true), SubscribedAgain())
  {
    var removed := ReachRemoved(d, u);
    s := Local(d, 3, Returned(5, true), SubscribedAgain());
    LocalTwice(d, 3, Returned(5, true), SelfUnsubscribed(), Returned(5, true), SubscribedAgain());
    ReachSubscribedAgain(removed);
    TolerantlyThrough(u, removed, s);
  }

  lemma ReachRemoved(d: State, u: State) returns (s: State)
    requires ReachesTolerantly(INITIAL, d) && CanInvoke(d, 3) && AllReturned(d) && d.t == FirstInProgress()
    requires u == Local(d, 3, Unmapping(5, Live(FIRST)), d.t)
    ensures ReachesTolerantly(d, u) && ReachesTolerantly(u, s) && KeysInvariant(s) && AllReturned(s) && CanInvoke(s, 3)
    ensures s == Local(d, 3, Returned(5, true), SelfUnsubscribed())
  {
    s := Local(d, 3, Returned(5, true), SelfUnsubscribed());
    ReachSelfUnsubscribed(d);
    TolerantlyThrough(d, u, s);
    TolerantlyThrough(INITIAL, d, s);
    ReachableKeepsInvariant(INITIAL, s);
  }

  // ---------- a copy written back after a removal ----------

  /** Every call has returned, and yet a context is registered whose descriptor is not mapped. */
  ghost predicate Broken(s: State) {
    AllReturned(s) && exists id :: RegisteredEntry(s.t, id) && s.t.subs[id].handle !in s.t.handleIds
  }

  /** No tolerant run ends so. */
  lemma BrokenIsIntolerant(actions: seq<Action>)
    requires Allowed(INITIAL, actions) && Broken(Exec(INITIAL, actions))
    ensures !Tolerant(INITIAL, actions, true)
  {
    var s := Exec(INITIAL, actions);
    assert NoneFinishing(s);
    UnsoundIsIntolerant(actions);
  }

  /** What an unsubscribe of the first descriptor has left, with the event thread about to write its old copy back. */
  predicate AboutToWriteBack(s: State) {
    && !s.undefined && s.tableLock.None? && s.history != []
    && WritesBack(s.event) && s.event.id == 5 && s.event.ctx == Live(FIRST)
    && FIRST !in s.t.handleIds && SECOND in s.t.handleIds && !Removable(s.t.handlers, 5)
  }

  lemma WritingBackBreaks(s: State) returns (s': State)
    requires AboutToWriteBack(s) && AllReturned(s)
    ensures Reaches(s, s') && Broken(s') && exists s'' :: Reaches(s', s'') && s''.undefined
  {
    var a := EventAdvance([], Success);
    WriteBackEffect(s, [], Success);
    EventLeavesCalls(s, [], Success);
    ReachesOne(s, a);
    s' := Step(s, a);
    assert s'.t.subs[5] == Live(FIRST).(expired := true);
    assert RegisteredEntry(s'.t, 5);
    WrittenBackIsUndefined(s, s');
    UnsubscribeAloneUndefined(s', 4, 5);
    var s'' :| ReachesAlone(Caller(4), s', s'') && s''.undefined;
    AloneReaches(Caller(4), s', s'');
  }

  lemma WrittenBackIsUndefined(s: State, s': State)
    requires AboutToWriteBack(s) && s' == Step(s, EventAdvance([], Success))
    ensures s'.tableLock.None? && !s'.undefined && !UnsubscribeDefined(s'.t, 5)
  {
    assert s'.t.subs[5] == Live(FIRST).(expired := true) && s'.t.handlers == s.t.handlers;
    assert 5 !in Victims(s'.t);
  }

  /**
   After the removal, a refused connection's handler answers FAILURE to the first event and no longer knows the second.
   */
  lemma RefusalWritesBack(s: State) returns (s': State)
    requires !s.undefined && s.tableLock.None? && s.history != [] && AllReturned(s)
    requires s.event == Dispatching(5, Live(FIRST), [Err, Hup]) && s.t == SelfUnsubscribed()
    ensures Reaches(s, s') && AllReturned(s') && AboutToWriteBack(s')
  {
    var first, second := EventAdvance([], Failure), EventAdvance([], InvalidReference);
    ReachesOne(s, first);
    var s1 := Step(s, first);
    assert s1.event == Dispatching(5, Live(FIRST), [Hup]) && s1.t == s.t && s1.calls == s.calls;
    ReachesOne(s1, second);
    s' := Step(s1, second);
    assert s'.event == MarkingInvalid(5, Live(FIRST)) && s'.t == s.t && s'.calls == s.calls;
    ReachesThrough(s, s1, s');
  }

  /**
   A refused connection: on ERR the connector's handler unsubscribes itself and answers FAILURE, and to HUP of the same
   notification it answers INVALID_REFERENCE. The removal has overlapped the hold, and the old copy is written back:
   with every call returned a context is registered and not mapped, and unsubscribing it erases the end iterator.
   */
  lemma RefusedConnectionBreaksMapping()
    ensures exists u, s :: (
      && ReachesTolerantly(INITIAL, u) && !NotRemovedWhileHeld(u) && Reaches(u, s)
      && Broken(s) && exists s' :: Reaches(s, s') && s'.undefined)
  {
    RefusalIsDue();
    var d := ReachDispatching(REFUSED);
    var u, removed := Local(d, 3, Unmapping(5, Live(FIRST)), d.t), Local(d, 3, Returned(5, true), SelfUnsubscribed());
    ReachSelfUnsubscribed(d);
    RemovesWhileHeld(d);
    TolerantlyThrough(INITIAL, d, u);
    var w := RefusalWritesBack(removed);
    var s := WritingBackBreaks(w);
    ReachesThrough(u, removed, w);
    ReachesThrough(u, w, s);
  }

  /** What a whole unsubscribe of the first descriptor leaves. */
  function FirstUnsubscribed(): Tables {
    var t := TwoSubscribed();
    Tables(t.subs - {5}, t.handlers - {5}, t.handleIds - {FIRST}, t.epoll - {FIRST})
  }

  lemma UnsubscribedIdle()
    ensures UnsubscribeDefined(TwoSubscribed(), 5) && Unsubscribe(TwoSubscribed(), 5) == (FirstUnsubscribed(), true)
  {
    TwoSubscribedIsClean();
  }

  lemma ReachFirstUnsubscribed(s: State)
    requires CanInvoke(s, 3) && AllReturned(s) && s.t == TwoSubscribed()
    ensures var unmapping := Local(s, 3, Unmapping(5, Live(FIRST)), s.t);
      ReachesTolerantly(s, unmapping) && Reaches(unmapping, Local(s, 3, Returned(5, true), FirstUnsubscribed()))
  {
    TwoSubscribedIsClean();
    UnsubscribedIdle();
    UnsubscribeToUnmapping(s, 3, 5);
    UnsubscribeFromUnmapping(s, 3, 5);
    ReturnedRemoveNothing(s);
    AloneTolerantly(s, Local(s, 3, Unmapping(5, Live(FIRST)), s.t), 3);
  }

  /** The event thread finds no handler any more. */
  lemma AbsenceWritesBack(s: State) returns (s': State)
    requires !s.undefined && s.tableLock.None? && s.history != [] && AllReturned(s)
    requires s.event == Entering(Notification(FIRST, EPOLLIN, false), 5, Live(FIRST)) && s.t == FirstUnsubscribed()
    ensures Reaches(s, s') && AllReturned(s') && AboutToWriteBack(s')
  {
    var a := EventAdvance(EventsFromMask(EPOLLIN), Success);
    ReachesOne(s, a);
    s' := Step(s, a);
    assert s'.event == MarkingAbsent(5, Live(FIRST)) && s'.t == s.t && s'.calls == s.calls;
  }

  /**
   One thread, one unsubscribe that is not interrupted - between the event thread's reading of the entry and its search
   for the handler. No handler is called; the event thread finds none, and writes its copy back.
   */
  lemma UnsubscribeDuringLookupBreaksMapping()
    ensures exists u, s :: (
      && ReachesTolerantly(INITIAL, u) && !NotRemovedWhileHeld(u) && Reaches(u, s)
      && Broken(s) && exists s' :: Reaches(s, s') && s'.undefined)
  {
    var d := ReachEntering(EPOLLIN);
    var u, removed := Local(d, 3, Unmapping(5, Live(FIRST)), d.t), Local(d, 3, Returned(5, true), FirstUnsubscribed());
    ReachFirstUnsubscribed(d);
    RemovesWhileHeld(d);
    TolerantlyThrough(INITIAL, d, u);
    var w := AbsenceWritesBack(removed);
    var s := WritingBackBreaks(w);
    ReachesThrough(u, removed, w);
    ReachesThrough(u, w, s);
  }

  // ---------- a handler replaced while it is dispatched ----------

  /**
   The descriptor is unsubscribed, and subscribed for another handler, between the lookup and the call: the event goes
   to the new handler, which no lookup of this notification found. The run is tolerated all the same.
   */
  lemma ReplacedHandlerIsServed()
    ensures exists s :: (ReachesTolerantly(INITIAL, s) && s.history != [] && !ToTheFound(Last(s.history)))
  {
    InIsDue();
    var d := ReachDispatching(EPOLLIN);
    var u := Local(d, 3, Unmapping(5, Live(FIRST)), d.t);
    var again := ReachCompleted(d, u);
    TolerantlyThrough(INITIAL, d, u);
    TolerantlyThrough(INITIAL, u, again);
    Goes(again, EventAdvance([], Success));
    AnotherIsServed(again);
  }

  lemma AnotherIsServed(s: State)
    requires !s.undefined && s.history != [] && s.event == Dispatching(5, Live(FIRST), [In]) && s.t == SubscribedAgain()
    requires Last(s.history).wrapper == Some(HandlerWrapper(Some(0), false)) && Last(s.history).deliveries == []
    ensures var s' := Step(s, EventAdvance([], Success)); s'.history != [] && !ToTheFound(Last(s'.history))
  {
    var s' := Step(s, EventAdvance([], Success));
    assert Last(s'.history).deliveries[0].handler == Some(9);
  }
}
