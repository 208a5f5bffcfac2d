/**
 The bridge between the two reactor models for the event thread: a notification whose sections happen to run without
 interruption does to the tables, and calls of the handler, what the one-step model says.
 */
module UninterruptedNotifications {
  import opened Options
  import opened Events
  import opened ReactorTables
  import opened InterleavedReactor
  import opened Reachability

  /** Nobody holds the event thread up. */
  predicate Free(s: State) {
    !s.undefined && s.tableLock.None?
  }

  /** Nothing but the event thread's own part of the state, and the tables, differs. */
  predicate OnlyEvent(s: State, s': State) {
    s' == s.(t := s'.t, event := s'.event, queue := s'.queue, history := s'.history)
  }

  /** The calls of one handler, one for each event. */
  function CallsOf(id: SubscriberId, handler: Option<HandlerRef>, events: seq<Event>, answer: Event -> EventResult):
    (calls: seq<Delivery>)
    ensures |calls| == |events|
    ensures forall i :: 0 <= i < |calls| ==> calls[i] == Delivery(id, handler, events[i], answer(events[i]))
  {
    seq(|events|, i requires 0 <= i < |events| => Delivery(id, handler, events[i], answer(events[i])))
  }

  /** The record in hand, with further calls. */
  function Called(s: State, calls: seq<Delivery>): seq<Record>
    requires s.history != []
  {
    Noted(s.history, Last(s.history).(deliveries := Last(s.history).deliveries + calls))
  }

  lemma CallsHead(id: SubscriberId, handler: Option<HandlerRef>, e: Event, rest: seq<Event>,
      answer: Event -> EventResult)
    ensures CallsOf(id, handler, [e] + rest, answer) ==
      [Delivery(id, handler, e, answer(e))] + CallsOf(id, handler, rest, answer)
  {
  }

  lemma OneCall(id: SubscriberId, handler: Option<HandlerRef>, e: Event, answer: Event -> EventResult)
    ensures CallsOf(id, handler, [e], answer) == [Delivery(id, handler, e, answer(e))]
  {
  }

  lemma CalledTwice(s: State, s1: State, d: Delivery, calls: seq<Delivery>)
    requires s.history != [] && s1.history == Called(s, [d])
    ensures Called(s1, calls) == Called(s, [d] + calls)
  {
    var ds := Last(s.history).deliveries;
    assert ds + [d] + calls == ds + ([d] + calls);
  }

  /** What the dispatch loop leaves, from the events still due. */
  ghost predicate Dispatched(s: State, todo: seq<Event>, answer: Event -> EventResult, s': State)
    requires s.event.Dispatching? && s.history != [] && s.event.id in s.t.handlers
  {
    var id, ctx := s.event.id, s.event.ctx;
    && OnlyEvent(s, s') && s'.queue == s.queue && s'.event == Leaving(id)
    && s'.t == (if CutShort(todo, answer) then s.t.(subs := s.t.subs[id := ctx.(expired := true)]) else s.t)
    && s'.history == Called(s, CallsOf(id, s.t.handlers[id].handler, Delivered(todo, answer), answer))
  }

  /** One call of the handler. */
  lemma DeliverOne(s: State, answer: EventResult)
    requires Free(s) && s.history != [] && s.event.Dispatching? && s.event.todo != []
    requires s.event.id in s.t.handlers && s.t.handlers[s.event.id].handler.Some?
    ensures var a := EventAdvance([], answer); var id, ctx := s.event.id, s.event.ctx;
      && Enabled(s, a)
      && Step(s, a) == s.(
           event := if answer == InvalidReference then MarkingInvalid(id, ctx)
               else Dispatching(id, ctx, s.event.todo[1..]),
           history := Called(s, [Delivery(id, s.t.handlers[id].handler, s.event.todo[0], answer)]))
  {
  }

  lemma LastDelivery(s: State, answer: Event -> EventResult) returns (s': State)
    requires Free(s) && s.history != [] && s.event.Dispatching? && s.event.todo != []
    requires s.event.id in s.t.handlers && s.t.handlers[s.event.id].handler.Some?
    requires answer(s.event.todo[0]) == InvalidReference
    ensures ReachesAlone(EventThread, s, s') && Dispatched(s, s.event.todo, answer, s')
  {
    var a := EventAdvance([], InvalidReference);
    DeliverOne(s, InvalidReference);
    var s1 := Step(s, a);
    AloneOne(EventThread, s, a);
    AloneOne(EventThread, s1, a);
    s' := Step(s1, a);
    AloneThrough(EventThread, s, s1, s');
    var e := s.event.todo[0];
    assert Delivered(s.event.todo, answer) == [e];
    OneCall(s.event.id, s.t.handlers[s.event.id].handler, e, answer);
  }

  lemma {:induction false} DispatchAlone(s: State, answer: Event -> EventResult) returns (s': State)
    requires Free(s) && s.history != [] && s.event.Dispatching?
    requires s.event.id in s.t.handlers && s.t.handlers[s.event.id].handler.Some?
    ensures ReachesAlone(EventThread, s, s') && Dispatched(s, s.event.todo, answer, s')
    decreases |s.event.todo|
  {
    var id, todo := s.event.id, s.event.todo;
    var handler := s.t.handlers[id].handler;
    if todo == [] {
      AloneOne(EventThread, s, EventAdvance([], Success));
      s' := Step(s, EventAdvance([], Success));
      assert Last(s.history).deliveries + [] == Last(s.history).deliveries;
    } else if answer(todo[0]) == InvalidReference {
      s' := LastDelivery(s, answer);
    } else {
      var a := EventAdvance([], answer(todo[0]));
      DeliverOne(s, answer(todo[0]));
      var s1 := Step(s, a);
      AloneOne(EventThread, s, a);
      s' := DispatchAlone(s1, answer);
      AloneThrough(EventThread, s, s1, s');
      var rest := Delivered(todo[1..], answer);
      CallsHead(id, handler, todo[0], rest, answer);
      CalledTwice(s, s1, Delivery(id, handler, todo[0], answer(todo[0])), CallsOf(id, handler, rest, answer));
    }
  }

  // ---------- the whole turn ----------

  /** The calls a record shows, as the one-step model lists them. */
  function Made(r: Record): (made: seq<(SubscriberId, Event)>)
    ensures |made| == |r.deliveries|
    ensures forall i :: 0 <= i < |made| ==> made[i] == (r.deliveries[i].id, r.deliveries[i].event)
  {
    seq(|r.deliveries|, i requires 0 <= i < |r.deliveries| => (r.deliveries[i].id, r.deliveries[i].event))
  }

  predicate Answered(r: Record, answer: Event -> EventResult) {
    forall i :: 0 <= i < |r.deliveries| ==> r.deliveries[i].result == answer(r.deliveries[i].event)
  }

  lemma CallsAreMade(r: Record, id: SubscriberId, handler: Option<HandlerRef>, events: seq<Event>,
      answer: Event -> EventResult)
    requires r.deliveries == CallsOf(id, handler, events, answer)
    ensures Made(r) == Addressed(id, events) && Answered(r, answer)
  {
  }

  /** The notification at the head of the queue has been taken: everything of the turn is behind the event thread. */
  ghost predicate Turned(s: State, order: seq<Event>, answer: Event -> EventResult, s': State)
    requires s.queue != []
  {
    var n := s.queue[0];
    var (t, made) := Notify(s.t, n, order, answer);
    && OnlyEvent(s, s') && s'.t == t && s'.queue == s.queue[1..]
    && s'.event == (if n.last then Stopped else Waiting)
    && |s'.history| == |s.history| + 1 && s'.history[..|s.history|] == s.history
    && Last(s'.history).n == n && Made(Last(s'.history)) == made && Answered(Last(s'.history), answer)
  }

  /** From the queue to the search for the entry. */
  lemma TakeOne(s: State) returns (s': State)
    requires Free(s) && s.event.Waiting? && s.queue != [] && !s.queue[0].last
    ensures ReachesAlone(EventThread, s, s')
    ensures s' == s.(queue := s.queue[1..], event := Keyed(s.queue[0], KeyFor(s.t.handleIds, s.queue[0].handle)),
                     history := s.history + [Record(s.queue[0], InHand, None, None, [])])
  {
    var a := EventAdvance([], Success);
    AloneOne(EventThread, s, a);
    var s1 := Step(s, a);
    AloneOne(EventThread, s1, a);
    s' := Step(s1, a);
    AloneThrough(EventThread, s, s1, s');
  }

  lemma IgnoreAlone(s: State, id: SubscriberId) returns (s': State)
    requires Free(s) && s.history != [] && s.event.Keyed? && s.event.id == id
    requires (id !in s.t.subs || s.t.subs[id].expired)
    ensures ReachesAlone(EventThread, s, s')
    ensures s' == s.(event := Waiting, history := s'.history)
    ensures s'.history == Noted(s.history, Last(s.history).(entry := Lookup(s.t.subs, id), outcome := Ignored))
  {
    AloneOne(EventThread, s, EventAdvance([], Success));
    s' := Step(s, EventAdvance([], Success));
  }

  lemma EnterAlone(s: State, id: SubscriberId) returns (s': State)
    requires Free(s) && s.history != [] && s.event.Keyed? && s.event.id == id && id in s.t.subs && !s.t.subs[id].expired
    ensures ReachesAlone(EventThread, s, s')
    ensures s' == s.(event := Entering(s.event.n, id, s.t.subs[id]), history := s'.history)
    ensures s'.history == Noted(s.history, Last(s.history).(entry := Lookup(s.t.subs, id)))
  {
    AloneOne(EventThread, s, EventAdvance([], Success));
    s' := Step(s, EventAdvance([], Success));
  }

  /** A live entry without a handler. */
  lemma AbsentAlone(s: State, order: seq<Event>) returns (s': State)
    requires Free(s) && s.history != [] && s.event.Entering? && s.event.id !in s.t.handlers
    requires multiset(order) == multiset(EventsFromMask(s.event.n.mask)) && Last(s.history).deliveries == []
    ensures ReachesAlone(EventThread, s, s')
    ensures s' == s.(t := s.t.(subs := s.t.subs[s.event.id := s.event.ctx.(expired := true)]),
                     event := Waiting, history := s'.history)
    ensures |s'.history| == |s.history| && s'.history[..|s.history| - 1] == s.history[..|s.history| - 1]
    ensures Last(s'.history).n == Last(s.history).n && Last(s'.history).deliveries == []
  {
    var a := EventAdvance(order, Success);
    AloneOne(EventThread, s, a);
    var s1 := Step(s, a);
    AloneOne(EventThread, s1, a);
    s' := Step(s1, a);
    AloneThrough(EventThread, s, s1, s');
  }

  function WithFlag(t: Tables, id: SubscriberId, flag: bool): Tables
    requires id in t.handlers
  {
    t.(handlers := t.handlers[id := t.handlers[id].(inProgress := flag)])
  }

  lemma EnterDispatch(s: State, order: seq<Event>) returns (s': State)
    requires Free(s) && s.history != [] && s.event.Entering? && s.event.id in s.t.handlers
    requires multiset(order) == multiset(EventsFromMask(s.event.n.mask))
    ensures ReachesAlone(EventThread, s, s')
    ensures var id := s.event.id;
      s' == s.(t := WithFlag(s.t, id, true), event := Dispatching(id, s.event.ctx, NonNull(order)),
               history := Noted(s.history, Last(s.history).(wrapper := Lookup(s.t.handlers, id))))
  {
    AloneOne(EventThread, s, EventAdvance(order, Success));
    s' := Step(s, EventAdvance(order, Success));
  }

  lemma LeaveDispatch(s: State) returns (s': State)
    requires Free(s) && s.history != [] && s.event.Leaving? && s.event.id in s.t.handlers
    ensures ReachesAlone(EventThread, s, s')
    ensures s' == s.(t := WithFlag(s.t, s.event.id, false), event := Waiting,
                     history := Noted(s.history, Last(s.history).(outcome := Handled)))
  {
    AloneOne(EventThread, s, EventAdvance([], Success));
    s' := Step(s, EventAdvance([], Success));
  }

  lemma FlagTwice(t: Tables, id: SubscriberId, subs: map<SubscriberId, SubscriberContext>)
    requires id in t.handlers && !t.handlers[id].inProgress
    ensures WithFlag(WithFlag(t, id, true).(subs := subs), id, false) == t.(subs := subs)
  {
    assert WithFlag(WithFlag(t, id, true), id, false).handlers == t.handlers;
  }

  /** The record in hand rewritten three times: one record longer, and nothing else. */
  lemma NotedOnly(history: seq<Record>, r: Record)
    requires history != []
    ensures |Noted(history, r)| == |history| && Noted(history, r)[..|history| - 1] == history[..|history| - 1]
    ensures Last(Noted(history, r)) == r
  {
  }

  lemma NotedAgain(history: seq<Record>, r: Record, r': Record)
    requires history != []
    ensures Noted(Noted(history, r), r') == Noted(history, r')
  {
  }

  lemma ServedHistory(s: State, s1: State, s2: State, calls: seq<Delivery>)
    requires s.history != [] && Last(s.history).deliveries == []
    requires s1.history != [] && s1.history == Noted(s.history, Last(s1.history))
    requires Last(s1.history).n == Last(s.history).n && Last(s1.history).deliveries == []
    requires s2.history == Called(s1, calls)
    ensures s2.history != []
    ensures var h := Noted(s2.history, Last(s2.history).(outcome := Handled));
      && |h| == |s.history| && h[..|s.history| - 1] == s.history[..|s.history| - 1]
      && Last(h).n == Last(s.history).n && Last(h).deliveries == calls
  {
    var r := Last(s2.history).(outcome := Handled);
    assert [] + calls == calls;
    NotedAgain(s.history, Last(s1.history), Last(s2.history));
    NotedAgain(s.history, Last(s2.history), r);
    NotedOnly(s.history, r);
  }

  /** The flag is set, the loop run, and the flag taken back: the handlers are as they were. */
  lemma ServeAlone(s: State, order: seq<Event>, answer: Event -> EventResult) returns (s': State)
    requires Free(s) && s.history != [] && s.event.Entering? && s.event.id in s.t.handlers
    requires s.t.handlers[s.event.id].handler.Some? && !s.t.handlers[s.event.id].inProgress
    requires multiset(order) == multiset(EventsFromMask(s.event.n.mask)) && Last(s.history).deliveries == []
    ensures ReachesAlone(EventThread, s, s')
    ensures s'.event.Waiting? && OnlyEvent(s, s') && s'.queue == s.queue
    ensures s'.t == if CutShort(NonNull(order), answer)
                    then s.t.(subs := s.t.subs[s.event.id := s.event.ctx.(expired := true)]) else s.t
    ensures |s'.history| == |s.history| && s'.history[..|s.history| - 1] == s.history[..|s.history| - 1]
    ensures Last(s'.history).n == Last(s.history).n
    ensures Made(Last(s'.history)) == Addressed(s.event.id, Delivered(NonNull(order), answer))
    ensures Answered(Last(s'.history), answer)
  {
    var id, todo := s.event.id, NonNull(order);
    var s1 := EnterDispatch(s, order);
    var s2 := DispatchAlone(s1, answer);
    s' := LeaveDispatch(s2);
    AloneThrough(EventThread, s, s1, s2);
    AloneThrough(EventThread, s, s2, s');
    FlagTwice(s.t, id, s2.t.subs);
    var calls := CallsOf(id, s.t.handlers[id].handler, Delivered(todo, answer), answer);
    ServedHistory(s, s1, s2, calls);
    CallsAreMade(Last(s'.history), id, s.t.handlers[id].handler, Delivered(todo, answer), answer);
  }

  /** The rest of the turn once a live entry has been found. */
  lemma FoundAlone(s: State, s2: State, id: SubscriberId, order: seq<Event>, answer: Event -> EventResult)
    returns (s': State)
    requires ProgressInvariant(s) && Free(s) && s.event.Waiting? && s.queue != [] && !s.queue[0].last
    requires multiset(order) == multiset(EventsFromMask(s.queue[0].mask))
    requires id == KeyFor(s.t.handleIds, s.queue[0].handle) && id in s.t.subs && !s.t.subs[id].expired
    requires s2 == s.(queue := s.queue[1..], event := Entering(s.queue[0], id, s.t.subs[id]), history := s2.history)
    requires |s2.history| == |s.history| + 1 && s2.history[..|s.history|] == s.history
    requires Last(s2.history).n == s.queue[0] && Last(s2.history).deliveries == []
    ensures ReachesAlone(EventThread, s2, s') && Turned(s, order, answer, s')
  {
    if id !in s.t.handlers {
      s' := AbsentAlone(s2, order);
    } else {
      s' := ServeAlone(s2, order, answer);
    }
  }

  /**
   A turn of the event thread that is not interrupted: the tables, and the calls of the handler, are those of the one-
   step notification, and the queue has lost its head.
   */
  lemma NotifyAlone(s: State, order: seq<Event>, answer: Event -> EventResult) returns (s': State)
    requires ProgressInvariant(s) && Free(s) && s.event.Waiting? && s.queue != []
    requires multiset(order) == multiset(EventsFromMask(s.queue[0].mask))
    ensures ReachesAlone(EventThread, s, s') && Turned(s, order, answer, s')
  {
    var n := s.queue[0];
    if n.last {
      AloneOne(EventThread, s, EventAdvance([], Success));
      s' := Step(s, EventAdvance([], Success));
    } else {
      var id := KeyFor(s.t.handleIds, n.handle);
      var s1 := TakeOne(s);
      if id !in s.t.subs || s.t.subs[id].expired {
        s' := IgnoreAlone(s1, id);
        AloneThrough(EventThread, s, s1, s');
      } else {
        var s2 := EnterAlone(s1, id);
        AloneThrough(EventThread, s, s1, s2);
        s' := FoundAlone(s, s2, id, order, answer);
        AloneThrough(EventThread, s, s2, s');
      }
    }
  }
}
