/**
 When the guarantees of the serial reactor survive interleaving: over every run in which no two calls remove one
 subscriber at once, and the event thread never writes back a registered copy that a removal has overlapped. A handler
 may unsubscribe itself, as connector and acceptor do, as long as no INVALID_REFERENCE follows for that notification.
 */
module TolerantReactor {
  import opened Options
  import opened Events
  import opened ReactorTables
  import opened InterleavedReactor
  import opened OrderlyReactor
  import opened Reachability

  // ---------- the condition on a run ----------

  predicate HoldsAny(event: EventPc) {
    event.Entering? || event.MarkingAbsent? || event.Dispatching? || event.MarkingInvalid?
  }

  /** After the step: no removal has overlapped the hold the event thread is in, if it is in one. */
  ghost predicate StillClean(s: State, a: Action, clean: bool)
    requires Enabled(s, a)
  {
    (clean || !HoldsAny(s.event)) && NotRemovedWhileHeld(Step(s, a))
  }

  /** A registered copy is written back only after a clean hold. */
  predicate Tolerable(s: State, a: Action, clean: bool) {
    a.EventAdvance? && WritesBack(s.event) && s.event.ctx.registered ==> clean
  }

  ghost predicate Tolerant(s: State, actions: seq<Action>, clean: bool)
    requires Allowed(s, actions)
    decreases |actions|
  {
    && RemovedByOne(s)
    && (actions != [] ==>
          && Tolerable(s, actions[0], clean)
          && Tolerant(Step(s, actions[0]), actions[1..], StillClean(s, actions[0], clean)))
  }

  // ---------- the invariant ----------

  /** The state without what the event thread holds. */
  function Blind(s: State): State {
    s.(event := Waiting)
  }

  ghost predicate TolerantInvariant(s: State, clean: bool) {
    && LinkInvariant(Blind(s))
    && (clean ==> LinkInvariant(s) && NotRemovedWhileHeld(s))
  }

  lemma BlindSubscribe(s: State, tid: ThreadId, pc: CallPc, accepts: bool)
    ensures Blind(SubscribeStep(s, tid, pc, accepts)) == SubscribeStep(Blind(s), tid, pc, accepts)
  {
  }

  lemma BlindUnsubscribe(s: State, tid: ThreadId, pc: CallPc)
    ensures Blind(UnsubscribeStep(s, tid, pc)) == UnsubscribeStep(Blind(s), tid, pc)
  {
  }

  lemma BlindCleanup(s: State, tid: ThreadId, pc: CallPc, pick: SubscriberId)
    requires pc.StartingCleanup? || pc.Collecting? || pc.Erasing?
    ensures Blind(CleanupStep(s, tid, pc, pick)) == CleanupStep(Blind(s), tid, pc, pick)
  {
  }

  /** What is not a section of the event thread does not look at it. */
  lemma BlindStep(s: State, a: Action)
    requires Enabled(s, a) && !a.EventAdvance?
    ensures Enabled(Blind(s), a) && Blind(Step(s, a)) == Step(Blind(s), a)
  {
    if a.Advance? {
      var pc := s.calls[a.tid];
      BlindSubscribe(s, a.tid, pc, a.accepts);
      BlindUnsubscribe(s, a.tid, pc);
      if pc.StartingCleanup? || pc.Collecting? || pc.Erasing? {
        BlindCleanup(s, a.tid, pc, a.pick);
      }
    }
  }

  lemma CallKeepsBlindLinks(s: State, a: Action)
    requires LinkInvariant(Blind(s)) && KeysInvariant(s) && Enabled(s, a) && !a.EventAdvance?
    requires RemovedByOne(s) && RemovedByOne(Step(s, a))
    ensures LinkInvariant(Blind(Step(s, a)))
  {
    BlindStep(s, a);
    assert KeysInvariant(Blind(s));
    assert Orderly(Blind(s)) && Orderly(Blind(Step(s, a)));
    StepKeepsLinks(Blind(s), a);
  }

  /** A copy that is not registered links nothing, wherever it is written. */
  lemma UnregisteredWriteKeeps(s: State, s': State)
    requires LinkInvariant(s) && s'.calls == s.calls && SameLinks(s.t, s'.t) && NoNewRegistered(s.t, s'.t)
    requires !HoldsAny(s'.event) && !s'.undefined
    ensures LinkInvariant(s')
  {
    forall i | i in s'.calls
      ensures CallLinked(s'.t, s'.calls[i])
    {
      assert CallLinked(s.t, s.calls[i]);
    }
    forall i, h | i in s'.calls && Linking(s'.calls[i], h)
      ensures AloneWith(s'.t, s'.calls, s'.event, i, h)
    {
      assert AloneWith(s.t, s.calls, s.event, i, h);
    }
  }

  lemma WriteBackEffect(s: State, order: seq<Event>, answer: EventResult)
    requires EventEnabled(s, order) && WritesBack(s.event)
    ensures var s' := EventStep(s, order, answer);
      && SameLinks(s.t, s'.t) && !HoldsAny(s'.event)
      && s'.t.subs == s.t.subs[s.event.id := s.event.ctx.(expired := true)]
  {
  }

  lemma EventKeepsBlindLinks(s: State, order: seq<Event>, answer: EventResult, clean: bool)
    requires TolerantInvariant(s, clean) && KeysInvariant(s) && EventEnabled(s, order)
    requires Tolerable(s, EventAdvance(order, answer), clean)
    ensures LinkInvariant(Blind(EventStep(s, order, answer)))
  {
    var s' := EventStep(s, order, answer);
    EventLeavesCalls(s, order, answer);
    if !WritesBack(s.event) {
      OtherEventSection(s, order, answer);
      SameEntriesKeep(Blind(s), Blind(s'));
    } else {
      WriteBackEffect(s, order, answer);
      if s.event.ctx.registered {
        assert NotRemovedWhileHeld(s');
        EventSectionKeeps(s, order, answer);
        SameEntriesKeep(s', Blind(s'));
      } else {
        UnregisteredWriteKeeps(Blind(s), Blind(s'));
      }
    }
  }

  /** Between two holds the whole invariant is back. */
  lemma NothingHeldIsClean(s: State)
    requires LinkInvariant(Blind(s)) && !HoldsAny(s.event)
    ensures LinkInvariant(s) && NotRemovedWhileHeld(s)
  {
    SameEntriesKeep(Blind(s), s);
  }

  lemma StepTolerates(s: State, a: Action, clean: bool)
    requires TolerantInvariant(s, clean) && KeysInvariant(s) && Enabled(s, a) && Tolerable(s, a, clean)
    requires RemovedByOne(s) && RemovedByOne(Step(s, a))
    ensures TolerantInvariant(Step(s, a), StillClean(s, a, clean))
  {
    if a.EventAdvance? {
      EventKeepsBlindLinks(s, a.order, a.answer, clean);
    } else {
      CallKeepsBlindLinks(s, a);
    }
    if StillClean(s, a, clean) {
      if !HoldsAny(s.event) {
        NothingHeldIsClean(s);
      }
      StepKeepsLinks(s, a);
    }
  }

  // ---------- over every tolerant run ----------

  lemma {:induction false} RunTolerates(s: State, actions: seq<Action>, clean: bool) returns (end: bool)
    requires ReactorInvariant(s) && TolerantInvariant(s, clean) && Allowed(s, actions) && Tolerant(s, actions, clean)
    ensures ReactorInvariant(Exec(s, actions)) && TolerantInvariant(Exec(s, actions), end)
    decreases |actions|
  {
    if actions == [] {
      end := clean;
    } else {
      var a, clean' := actions[0], StillClean(s, actions[0], clean);
      assert Tolerant(Step(s, a), actions[1..], clean');
      StepTolerates(s, a, clean);
      StepKeepsInvariant(s, a);
      end := RunTolerates(Step(s, a), actions[1..], clean');
    }
  }

  /** No call is about to remove an entry it has already unmapped. */
  ghost predicate NoneFinishing(s: State) {
    forall i, id :: i in s.calls ==> !Finishing(s.calls[i], id)
  }

  /**
   No end iterator has been erased; and when no call is about to remove an entry, every registered context is mapped and
   watched, and unsubscribing any identifier is defined - what the serial reactor guarantees.
   */
  ghost predicate Sound(s: State) {
    && !s.undefined
    && (NoneFinishing(s) ==>
          && (forall id :: RegisteredEntry(s.t, id) ==> Linked(s.t, s.t.subs[id].handle))
          && (forall id :: UnsubscribeDefined(s.t, id)))
  }

  lemma LinkedIsSound(s: State)
    requires LinkInvariant(Blind(s))
    ensures Sound(s)
  {
  }

  /** Every tolerant interleaving, of any number of threads, from an empty reactor. */
  lemma TolerantInterleaving(actions: seq<Action>)
    requires Allowed(INITIAL, actions) && Tolerant(INITIAL, actions, true)
    ensures Sound(Exec(INITIAL, actions))
  {
    var _ := RunTolerates(INITIAL, actions, true);
    LinkedIsSound(Exec(INITIAL, actions));
  }

  /** So whatever run is not sound has two calls remove one subscriber, or a removal and a write-back in one hold. */
  lemma UnsoundIsIntolerant(actions: seq<Action>)
    requires Allowed(INITIAL, actions) && !Sound(Exec(INITIAL, actions))
    ensures !Tolerant(INITIAL, actions, true)
  {
    if Tolerant(INITIAL, actions, true) {
      TolerantInterleaving(actions);
    }
  }

  // ---------- orderly runs ----------

  ghost predicate StaysOrderly(s: State, actions: seq<Action>)
    requires Allowed(s, actions)
    decreases |actions|
  {
    Orderly(s) && (actions != [] ==> StaysOrderly(Step(s, actions[0]), actions[1..]))
  }

  /** Where no removal ever overlaps a hold, there is nothing to tolerate. */
  lemma {:induction false} OrderlyIsTolerant(s: State, actions: seq<Action>)
    requires Allowed(s, actions) && StaysOrderly(s, actions)
    ensures Tolerant(s, actions, true)
    decreases |actions|
  {
    if actions != [] {
      OrderlyIsTolerant(Step(s, actions[0]), actions[1..]);
      assert StaysOrderly(Step(s, actions[0]), actions[1..]);
    }
  }

  /** Every run that is orderly in each of its states. */
  lemma OrderlyInterleaving(actions: seq<Action>)
    requires Allowed(INITIAL, actions) && StaysOrderly(INITIAL, actions)
    ensures Sound(Exec(INITIAL, actions))
  {
    OrderlyIsTolerant(INITIAL, actions);
    TolerantInterleaving(actions);
  }

  // ---------- tolerant runs as a relation between states ----------

  /** However the event thread's hold began, the run from s to s' writes nothing back that it may not. */
  ghost predicate ReachesTolerantly(s: State, s': State) {
    exists actions :: Allowed(s, actions) && Tolerant(s, actions, false) && Exec(s, actions) == s'
  }

  lemma {:induction false} CleanTolerates(s: State, actions: seq<Action>, clean: bool, cleaner: bool)
    requires Allowed(s, actions) && Tolerant(s, actions, clean) && (clean ==> cleaner)
    ensures Tolerant(s, actions, cleaner)
    decreases |actions|
  {
    if actions != [] {
      var a := actions[0];
      CleanTolerates(Step(s, a), actions[1..], StillClean(s, a, clean), StillClean(s, a, cleaner));
    }
  }

  lemma {:induction false} TolerantAppend(s: State, a: seq<Action>, b: seq<Action>, clean: bool)
    requires Allowed(s, a) && Tolerant(s, a, clean) && Allowed(Exec(s, a), b) && Tolerant(Exec(s, a), b, false)
    ensures Allowed(s, a + b) && Tolerant(s, a + b, clean) && Exec(s, a + b) == Exec(Exec(s, a), b)
    decreases |a|
  {
    ExecAppend(s, a, b);
    if a == [] {
      assert a + b == b;
      CleanTolerates(s, b, false, clean);
    } else {
      TolerantAppend(Step(s, a[0]), a[1..], b, StillClean(s, a[0], clean));
      assert (a + b)[1..] == a[1..] + b;
    }
  }

  lemma TolerantlyThrough(s: State, middle: State, s': State)
    requires ReachesTolerantly(s, middle) && ReachesTolerantly(middle, s')
    ensures ReachesTolerantly(s, s')
  {
    var a :| Allowed(s, a) && Tolerant(s, a, false) && Exec(s, a) == middle;
    var b :| Allowed(middle, b) && Tolerant(middle, b, false) && Exec(middle, b) == s';
    TolerantAppend(s, a, b, false);
  }

  lemma TolerantlyThen(s0: State, s: State, a: Action)
    requires ReachesTolerantly(s0, s) && Enabled(s, a) && Tolerable(s, a, false) && RemovedByOne(s)
    requires RemovedByOne(Step(s, a))
    ensures ReachesTolerantly(s0, Step(s, a))
  {
    ExecOne(s, a);
    assert [a][1..] == [];
    assert Tolerant(Step(s, a), [], StillClean(s, a, false));
    assert Tolerant(s, [a], false);
    TolerantlyThrough(s0, s, Step(s, a));
  }

  lemma TolerantlyReachedIsSound(s: State)
    requires ReachesTolerantly(INITIAL, s)
    ensures Sound(s)
  {
    var a :| Allowed(INITIAL, a) && Tolerant(INITIAL, a, false) && Exec(INITIAL, a) == s;
    CleanTolerates(INITIAL, a, false, true);
    TolerantInterleaving(a);
  }

  // ---------- one thread alone ----------

  ghost predicate OthersRemoveNothing(s: State, tid: ThreadId) {
    forall i, id :: i in s.calls && i != tid ==> !Removing(s.calls[i], id)
  }

  lemma CallMovesItself(s: State, a: Action, i: ThreadId)
    requires Enabled(s, a) && (a.Invoke? || a.Advance?) && i != a.tid
    ensures i in Step(s, a).calls <==> i in s.calls
    ensures i in s.calls ==> Step(s, a).calls[i] == s.calls[i]
  {
    if a.Advance? {
      OthersStay(s, a.tid, s.calls[a.tid], a.pick, a.accepts, i);
    }
  }

  ghost predicate SameCall(s: State, s': State, i: ThreadId) {
    (i in s'.calls <==> i in s.calls) && (i in s.calls ==> s'.calls[i] == s.calls[i])
  }

  lemma OthersStay(s: State, tid: ThreadId, pc: CallPc, pick: SubscriberId, accepts: bool, i: ThreadId)
    requires i != tid
    ensures SameCall(s, SubscribeStep(s, tid, pc, accepts), i) && SameCall(s, UnsubscribeStep(s, tid, pc), i)
    ensures pc.StartingCleanup? || pc.Collecting? || pc.Erasing? ==> SameCall(s, CleanupStep(s, tid, pc, pick), i)
  {
  }

  /** A thread that moves alone, while no other is in the middle of a removal, does nothing that is not tolerated. */
  lemma {:induction false} AloneTolerates(s: State, actions: seq<Action>, tid: ThreadId, clean: bool)
    requires Allowed(s, actions) && OnlyBy(actions, Caller(tid)) && OthersRemoveNothing(s, tid)
    ensures Tolerant(s, actions, clean)
    decreases |actions|
  {
    if actions != [] {
      var a := actions[0];
      assert ActsFor(a, Caller(tid));
      forall i, id | i in Step(s, a).calls && i != tid
        ensures !Removing(Step(s, a).calls[i], id)
      {
        CallMovesItself(s, a, i);
      }
      AloneTolerates(Step(s, a), actions[1..], tid, StillClean(s, a, clean));
    }
  }

  lemma AloneTolerantly(s: State, s': State, tid: ThreadId)
    requires ReachesAlone(Caller(tid), s, s') && OthersRemoveNothing(s, tid)
    ensures ReachesTolerantly(s, s')
  {
    var a :| OnlyBy(a, Caller(tid)) && Allowed(s, a) && Exec(s, a) == s';
    AloneTolerates(s, a, tid, false);
  }
}
