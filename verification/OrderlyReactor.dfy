/**
 What keeps the links of the interleaved reactor - registered entries mapped and watched - section by section: no two
 calls take the same subscriber apart at once, and none does so while the event thread holds a copy of its entry.
 */
module OrderlyReactor {
  import opened Options
  import opened Events
  import opened ReactorTables
  import opened InterleavedReactor
  import opened Reachability
  import SerialReactor

  // ---------- the two conditions on the callers ----------

  /** The call has found the subscriber's entry and has not yet removed it. */
  predicate Removing(pc: CallPc, id: SubscriberId) {
    (pc.Unmapping? || pc.Unwatching? || pc.Forgetting?) && pc.target == id
  }

  /** The event thread holds a copy of the subscriber's entry that it may yet write back. */
  predicate Holding(event: EventPc, id: SubscriberId) {
    (event.Entering? || event.MarkingAbsent? || event.Dispatching? || event.MarkingInvalid?) && event.id == id
  }

  /** No two calls remove one subscriber at once. */
  ghost predicate RemovedByOne(s: State) {
    forall i, j, id :: i in s.calls && j in s.calls && Removing(s.calls[i], id) && Removing(s.calls[j], id) ==> i == j
  }

  /** No call removes a subscriber whose entry the event thread holds. */
  ghost predicate NotRemovedWhileHeld(s: State) {
    forall i, id :: i in s.calls && Removing(s.calls[i], id) ==> !Holding(s.event, id)
  }

  ghost predicate Orderly(s: State) {
    RemovedByOne(s) && NotRemovedWhileHeld(s)
  }

  // ---------- the invariant ----------

  predicate Linked(t: Tables, h: Handle) {
    h in t.handleIds && h in t.epoll
  }

  predicate RegisteredEntry(t: Tables, id: SubscriberId) {
    id in t.subs && t.subs[id].registered
  }

  /** The call has unmapped the subscriber, or found it unregistered, and goes on to remove the entry. */
  predicate Finishing(pc: CallPc, id: SubscriberId) {
    (pc.Unwatching? || pc.Forgetting?) && pc.target == id
  }

  predicate Forgets(pc: CallPc, id: SubscriberId) {
    pc.Forgetting? && pc.target == id
  }

  ghost predicate BeingFinished(calls: map<ThreadId, CallPc>, id: SubscriberId) {
    exists i :: i in calls && Finishing(calls[i], id)
  }

  ghost predicate BeingForgotten(calls: map<ThreadId, CallPc>, id: SubscriberId) {
    exists i :: i in calls && Forgets(calls[i], id)
  }

  /** Between the kernel's registration and the entry marked registered. */
  predicate Linking(pc: CallPc, h: Handle) {
    (pc.Mapping? || pc.Confirming?) && pc.req.h == h
  }

  predicate Unlinking(pc: CallPc, h: Handle) {
    (pc.Unmapping? || pc.Unwatching?) && pc.ctx.handle == h
  }

  /** The event thread's copy is of an entry registered for h. */
  predicate HoldsRegistered(event: EventPc, h: Handle) {
    (event.Entering? || event.MarkingAbsent? || event.Dispatching? || event.MarkingInvalid?)
    && event.ctx.registered && event.ctx.handle == h
  }

  /** A registered entry is mapped and watched, unless a call is about to remove it. */
  ghost predicate EntriesLinked(t: Tables, calls: map<ThreadId, CallPc>) {
    forall id :: RegisteredEntry(t, id) ==> Linked(t, t.subs[id].handle) || BeingFinished(calls, id)
  }

  predicate CallLinked(t: Tables, pc: CallPc) {
    match pc
    case Mapping(req, _) => req.h in t.epoll
    case Confirming(req, _) => Linked(t, req.h)
    case Unmapping(_, ctx) => Linked(t, ctx.handle)
    case Unwatching(_, ctx) => ctx.handle in t.epoll
    case _ => true
  }

  ghost predicate CallsLinked(t: Tables, calls: map<ThreadId, CallPc>) {
    forall i :: i in calls ==> CallLinked(t, calls[i])
  }

  ghost predicate EventLinked(t: Tables, event: EventPc) {
    forall h :: HoldsRegistered(event, h) ==> Linked(t, h)
  }

  /** No other call links or unlinks the descriptor. */
  ghost predicate OnlyLinker(calls: map<ThreadId, CallPc>, i: ThreadId, h: Handle) {
    forall j :: j in calls && j != i ==> !Linking(calls[j], h) && !Unlinking(calls[j], h)
  }

  /**
   A call that links a descriptor is alone with it: no other links or unlinks it, the event thread holds no registered
   copy, and an entry still marked registered under the key is being forgotten.
   */
  ghost predicate AloneWith(t: Tables, calls: map<ThreadId, CallPc>, event: EventPc, i: ThreadId, h: Handle) {
    && OnlyLinker(calls, i, h)
    && !HoldsRegistered(event, h)
    && (RegisteredEntry(t, HashedKey(h)) ==> BeingForgotten(calls, HashedKey(h)))
  }

  ghost predicate LinkingAlone(t: Tables, calls: map<ThreadId, CallPc>, event: EventPc) {
    forall i, h :: i in calls && Linking(calls[i], h) ==> AloneWith(t, calls, event, i, h)
  }

  ghost predicate LinkInvariant(s: State) {
    && !s.undefined
    && EntriesLinked(s.t, s.calls) && CallsLinked(s.t, s.calls) && EventLinked(s.t, s.event)
    && LinkingAlone(s.t, s.calls, s.event)
  }

  // ---------- sections that leave links alone ----------

  /** No section of the calls that link, unlink or remove. */
  predicate Neutral(pc: CallPc) {
    !pc.Mapping? && !pc.Confirming? && !pc.Unmapping? && !pc.Unwatching? && !pc.Forgetting?
  }

  /** The registered entries of t' are among those of t. */
  ghost predicate NoNewRegistered(t: Tables, t': Tables) {
    forall id :: RegisteredEntry(t', id) ==> RegisteredEntry(t, id) && t'.subs[id] == t.subs[id]
  }

  ghost predicate SameLinks(t: Tables, t': Tables) {
    t'.handleIds == t.handleIds && t'.epoll == t.epoll
  }

  lemma FinishedStays(calls: map<ThreadId, CallPc>, tid: ThreadId, pc: CallPc, id: SubscriberId)
    requires tid in calls ==> !Finishing(calls[tid], id)
    ensures BeingFinished(calls, id) ==> BeingFinished(calls[tid := pc], id)
  {
    if BeingFinished(calls, id) {
      var i :| i in calls && Finishing(calls[i], id);
      assert calls[tid := pc][i] == calls[i];
    }
  }

  lemma ForgottenStays(calls: map<ThreadId, CallPc>, tid: ThreadId, pc: CallPc, id: SubscriberId)
    requires tid in calls ==> !Forgets(calls[tid], id)
    ensures BeingForgotten(calls, id) ==> BeingForgotten(calls[tid := pc], id)
  {
    if BeingForgotten(calls, id) {
      var i :| i in calls && Forgets(calls[i], id);
      assert calls[tid := pc][i] == calls[i];
    }
  }

  /** A thread between two sections that neither link, unlink nor remove, and register nothing. */
  lemma NeutralKeeps(s: State, s': State, tid: ThreadId, pc: CallPc)
    requires LinkInvariant(s) && (tid in s.calls ==> Neutral(s.calls[tid]))
    requires s'.calls == s.calls[tid := pc] && (Neutral(pc) || pc.Forgetting?) && s'.event == s.event && !s'.undefined
    requires SameLinks(s.t, s'.t) && NoNewRegistered(s.t, s'.t)
    ensures LinkInvariant(s')
  {
    forall id | RegisteredEntry(s'.t, id)
      ensures Linked(s'.t, s'.t.subs[id].handle) || BeingFinished(s'.calls, id)
    {
      FinishedStays(s.calls, tid, pc, id);
    }
    forall i, h | i in s'.calls && Linking(s'.calls[i], h)
      ensures AloneWith(s'.t, s'.calls, s'.event, i, h)
    {
      assert i in s.calls && s.calls[i] == s'.calls[i];
      ForgottenStays(s.calls, tid, pc, HashedKey(h));
    }
  }

  // ---------- sections of subscribe ----------

  /** The kernel takes the descriptor: nobody else had a link to it. */
  lemma RegisteringKeeps(s: State, s': State, tid: ThreadId, req: Request, id: SubscriberId)
    requires LinkInvariant(s) && KeysInvariant(s) && tid in s.calls && s.calls[tid] == Registering(req, id)
    requires req.h !in s.t.epoll
    requires s' == At(s, tid, Mapping(req, id)).(t := s.t.(epoll := s.t.epoll + {req.h}))
    ensures LinkInvariant(s')
  {
    forall x | RegisteredEntry(s'.t, x)
      ensures Linked(s'.t, s'.t.subs[x].handle) || BeingFinished(s'.calls, x)
    {
      FinishedStays(s.calls, tid, Mapping(req, id), x);
    }
    NobodyElseLinks(s, req.h);
    forall i, h | i in s'.calls && Linking(s'.calls[i], h)
      ensures AloneWith(s'.t, s'.calls, s'.event, i, h)
    {
      ForgottenStays(s.calls, tid, Mapping(req, id), HashedKey(h));
    }
  }

  /**
   A descriptor that is not watched: no call links or unlinks it, no copy is registered, a registered entry is
   forgotten.
   */
  lemma NobodyElseLinks(s: State, h: Handle)
    requires LinkInvariant(s) && KeysInvariant(s) && h !in s.t.epoll
    ensures forall i :: i in s.calls ==> !Linking(s.calls[i], h) && !Unlinking(s.calls[i], h)
    ensures !HoldsRegistered(s.event, h)
    ensures RegisteredEntry(s.t, HashedKey(h)) ==> BeingForgotten(s.calls, HashedKey(h))
  {
    forall i | i in s.calls
      ensures !Linking(s.calls[i], h) && !Unlinking(s.calls[i], h)
    {
      assert CallLinked(s.t, s.calls[i]);
    }
    var id := HashedKey(h);
    if RegisteredEntry(s.t, id) {
      HashedKeyIsInjective(s.t.subs[id].handle, h);
      var i :| i in s.calls && Finishing(s.calls[i], id);
      assert CallLinked(s.t, s.calls[i]) && CallKeyAgrees(s.calls[i]);
      if s.calls[i].Unwatching? {
        HashedKeyIsInjective(s.calls[i].ctx.handle, h);
      }
      assert Forgets(s.calls[i], id);
    }
  }

  lemma MappingKeeps(s: State, s': State, tid: ThreadId, req: Request, id: SubscriberId)
    requires LinkInvariant(s) && tid in s.calls && s.calls[tid] == Mapping(req, id)
    requires s' == At(s, tid, Confirming(req, id)).(t := s.t.(handleIds := s.t.handleIds[req.h := id]))
    ensures LinkInvariant(s')
  {
    forall x | RegisteredEntry(s'.t, x)
      ensures Linked(s'.t, s'.t.subs[x].handle) || BeingFinished(s'.calls, x)
    {
      FinishedStays(s.calls, tid, Confirming(req, id), x);
    }
    assert CallLinked(s.t, s.calls[tid]);
    forall i, h | i in s'.calls && Linking(s'.calls[i], h)
      ensures AloneWith(s'.t, s'.calls, s'.event, i, h)
    {
      assert Linking(s.calls[i], h);
      ForgottenStays(s.calls, tid, Confirming(req, id), HashedKey(h));
    }
  }

  lemma ConfirmingKeeps(s: State, s': State, tid: ThreadId, req: Request, id: SubscriberId)
    requires LinkInvariant(s) && KeysInvariant(s) && tid in s.calls && s.calls[tid] == Confirming(req, id)
    requires var ctx := FreshContext(req.h, req.mask, id).(registered := true);
      s' == At(s, tid, AddingHandler(req, id)).(t := s.t.(subs := s.t.subs[id := ctx]))
    ensures LinkInvariant(s')
  {
    assert CallLinked(s.t, s.calls[tid]) && CallKeyAgrees(s.calls[tid]) && Linking(s.calls[tid], req.h);
    forall x | RegisteredEntry(s'.t, x)
      ensures Linked(s'.t, s'.t.subs[x].handle) || BeingFinished(s'.calls, x)
    {
      FinishedStays(s.calls, tid, AddingHandler(req, id), x);
    }
    forall i, h | i in s'.calls && Linking(s'.calls[i], h)
      ensures AloneWith(s'.t, s'.calls, s'.event, i, h)
    {
      assert i != tid && Linking(s.calls[i], h);
      HashedKeyIsInjective(h, req.h);
      ForgottenStays(s.calls, tid, AddingHandler(req, id), HashedKey(h));
    }
  }

  // ---------- sections of unsubscribe ----------

  /** A registered entry is found: it is linked, since nobody else is removing it. */
  lemma FindingKeeps(s: State, s': State, tid: ThreadId, id: SubscriberId)
    requires LinkInvariant(s) && KeysInvariant(s) && tid in s.calls && s.calls[tid] == FindingEntry(id)
    requires RegisteredEntry(s.t, id) && s' == At(s, tid, Unmapping(id, s.t.subs[id])) && RemovedByOne(s')
    ensures LinkInvariant(s')
  {
    var pc := Unmapping(id, s.t.subs[id]);
    assert Removing(s'.calls[tid], id);
    NotFinishedByOthers(s, s', tid, id);
    forall x | RegisteredEntry(s'.t, x)
      ensures Linked(s'.t, s'.t.subs[x].handle) || BeingFinished(s'.calls, x)
    {
      FinishedStays(s.calls, tid, pc, x);
    }
    forall i, h | i in s'.calls && Linking(s'.calls[i], h)
      ensures AloneWith(s'.t, s'.calls, s'.event, i, h)
    {
      assert i != tid && Linking(s.calls[i], h);
      ForgottenStays(s.calls, tid, pc, HashedKey(h));
    }
  }

  lemma NotFinishedByOthers(s: State, s': State, tid: ThreadId, id: SubscriberId)
    requires tid in s.calls && s.calls[tid] == FindingEntry(id) && RemovedByOne(s')
    requires tid in s'.calls && s'.calls == s.calls[tid := s'.calls[tid]] && Removing(s'.calls[tid], id)
    ensures !BeingFinished(s.calls, id) && !BeingForgotten(s.calls, id)
  {
    forall i | i in s.calls
      ensures !Finishing(s.calls[i], id)
    {
      if i != tid {
        assert s'.calls[i] == s.calls[i];
        assert Removing(s'.calls[i], id) ==> i == tid;
      }
    }
  }

  /** Whoever unlinks a descriptor is the only one whose links to it matter. */
  lemma UnlinkingAlone(s: State, tid: ThreadId, h: Handle)
    requires LinkInvariant(s) && KeysInvariant(s) && Orderly(s) && tid in s.calls && Unlinking(s.calls[tid], h)
    ensures s.calls[tid].target == HashedKey(h)
    ensures forall i :: i in s.calls && i != tid ==> !Linking(s.calls[i], h) && !Unlinking(s.calls[i], h)
    ensures !HoldsRegistered(s.event, h)
  {
    var id := HashedKey(h);
    assert CallKeyAgrees(s.calls[tid]) && Removing(s.calls[tid], id);
    forall i | i in s.calls && i != tid
      ensures !Linking(s.calls[i], h) && !Unlinking(s.calls[i], h)
    {
      assert CallKeyAgrees(s.calls[i]);
      if Unlinking(s.calls[i], h) {
        assert Removing(s.calls[i], id);
      }
    }
    assert !Holding(s.event, id);
  }

  lemma UnmappingKeeps(s: State, s': State, tid: ThreadId, id: SubscriberId, ctx: SubscriberContext)
    requires LinkInvariant(s) && KeysInvariant(s) && Orderly(s) && tid in s.calls && s.calls[tid] == Unmapping(id, ctx)
    requires s' == At(s, tid, Unwatching(id, ctx)).(t := s.t.(handleIds := s.t.handleIds - {ctx.handle}))
    ensures LinkInvariant(s')
  {
    UnlinkingAlone(s, tid, ctx.handle);
    assert CallLinked(s.t, s.calls[tid]);
    UnlinkedEntries(s, s', tid, Unwatching(id, ctx), ctx.handle);
    UnlinkedCalls(s, s', tid, Unwatching(id, ctx), ctx.handle);
  }

  lemma UnwatchingKeeps(s: State, s': State, tid: ThreadId, id: SubscriberId, ctx: SubscriberContext)
    requires LinkInvariant(s) && KeysInvariant(s) && Orderly(s) && tid in s.calls && s.calls[tid] == Unwatching(id, ctx)
    requires s' == At(s, tid, Forgetting(id)).(t := s.t.(epoll := s.t.epoll - {ctx.handle}))
    ensures LinkInvariant(s')
  {
    UnlinkingAlone(s, tid, ctx.handle);
    UnlinkedEntries(s, s', tid, Forgetting(id), ctx.handle);
    UnlinkedCalls(s, s', tid, Forgetting(id), ctx.handle);
  }

  ghost predicate LinksWithout(t: Tables, t': Tables, h: Handle) {
    && t'.subs == t.subs
    && (forall x: Handle :: x != h ==> (x in t'.handleIds <==> x in t.handleIds) && (x in t'.epoll <==> x in t.epoll))
  }

  /** The entry of the descriptor just unlinked is being finished; those of others have their links. */
  lemma UnlinkedEntries(s: State, s': State, tid: ThreadId, pc: CallPc, h: Handle)
    requires LinkInvariant(s) && KeysInvariant(s) && tid in s.calls && Unlinking(s.calls[tid], h)
    requires s'.calls == s.calls[tid := pc] && Finishing(pc, HashedKey(h)) && LinksWithout(s.t, s'.t, h)
    requires s.calls[tid].target == HashedKey(h)
    ensures EntriesLinked(s'.t, s'.calls)
  {
    assert Finishing(s'.calls[tid], HashedKey(h));
    forall x | RegisteredEntry(s'.t, x)
      ensures Linked(s'.t, s'.t.subs[x].handle) || BeingFinished(s'.calls, x)
    {
      if x != HashedKey(h) {
        FinishedStays(s.calls, tid, pc, x);
        assert s.t.subs[x].handle != h;
      }
    }
  }

  lemma UnlinkedCalls(s: State, s': State, tid: ThreadId, pc: CallPc, h: Handle)
    requires LinkInvariant(s) && tid in s.calls && Unlinking(s.calls[tid], h)
    requires forall i :: i in s.calls && i != tid ==> !Linking(s.calls[i], h) && !Unlinking(s.calls[i], h)
    requires s'.calls == s.calls[tid := pc] && LinksWithout(s.t, s'.t, h) && s'.event == s.event
    requires (pc.Forgetting? || (pc.Unwatching? && pc.ctx.handle == h)) && CallLinked(s'.t, pc)
    requires !HoldsRegistered(s.event, h)
    ensures CallsLinked(s'.t, s'.calls) && EventLinked(s'.t, s'.event) && LinkingAlone(s'.t, s'.calls, s'.event)
  {
    forall i | i in s'.calls
      ensures CallLinked(s'.t, s'.calls[i])
    {
      if i != tid {
        assert CallLinked(s.t, s.calls[i]);
      }
    }
    forall i, k | i in s'.calls && Linking(s'.calls[i], k)
      ensures AloneWith(s'.t, s'.calls, s'.event, i, k)
    {
      assert i != tid && Linking(s.calls[i], k);
      ForgottenStays(s.calls, tid, pc, HashedKey(k));
    }
  }

  lemma ForgettingKeeps(s: State, s': State, tid: ThreadId, id: SubscriberId)
    requires LinkInvariant(s) && tid in s.calls && s.calls[tid] == Forgetting(id)
    requires s' == At(s, tid, DroppingHandler(id)).(t := s.t.(subs := s.t.subs - {id}))
    ensures LinkInvariant(s')
  {
    forall x | RegisteredEntry(s'.t, x)
      ensures Linked(s'.t, s'.t.subs[x].handle) || BeingFinished(s'.calls, x)
    {
      FinishedStays(s.calls, tid, DroppingHandler(id), x);
    }
    forall i, h | i in s'.calls && Linking(s'.calls[i], h)
      ensures AloneWith(s'.t, s'.calls, s'.event, i, h)
    {
      assert i != tid && Linking(s.calls[i], h);
      if RegisteredEntry(s'.t, HashedKey(h)) {
        ForgottenStays(s.calls, tid, DroppingHandler(id), HashedKey(h));
      }
    }
  }

  /**
   Two calls that stand before unmapping one descriptor: once the first has unmapped and unwatched it, the second erases
   the end iterator, unless that mapping was the only one.
   */
  lemma UnmappingTwice(s: State, i: ThreadId, j: ThreadId, id: SubscriberId, ctx: SubscriberContext)
    requires !s.undefined && i in s.calls && j in s.calls && i != j && ctx.handle in s.t.handleIds
    requires s.calls[i] == Unmapping(id, ctx) && s.calls[j] == Unmapping(id, ctx)
    ensures Allowed(s, [Advance(i, 0, true), Advance(i, 0, true), Advance(j, 0, true)])
    ensures Exec(s, [Advance(i, 0, true), Advance(i, 0, true), Advance(j, 0, true)]).undefined
      <==> s.t.handleIds.Keys != {ctx.handle}
  {
    var first, second := Advance(i, 0, true), Advance(j, 0, true);
    var s1 := Step(s, first);
    assert s1.t.handleIds == s.t.handleIds - {ctx.handle};
    assert s1.t.handleIds.Keys == s.t.handleIds.Keys - {ctx.handle};
    assert s1.t.handleIds == map[] <==> s1.t.handleIds.Keys == {};
    var s2 := Step(s1, first);
    ExecThree(s, first, first, second);
  }

  lemma ExecThree(s: State, a: Action, b: Action, c: Action)
    requires Enabled(s, a) && Enabled(Step(s, a), b) && Enabled(Step(Step(s, a), b), c)
    ensures Allowed(s, [a, b, c]) && Exec(s, [a, b, c]) == Step(Step(Step(s, a), b), c)
  {
    var s2 := Step(Step(s, a), b);
    ExecOne(s2, c);
    assert [b, c][1..] == [c] && [a, b, c][1..] == [b, c];
    assert Allowed(Step(s, a), [b, c]) && Exec(Step(s, a), [b, c]) == Step(s2, c);
  }

  // ---------- one section of a call ----------

  lemma CleanupSectionKeeps(s: State, tid: ThreadId, pc: CallPc, pick: SubscriberId)
    requires LinkInvariant(s) && (pc.StartingCleanup? || pc.Collecting? || pc.Erasing?)
    requires tid in s.calls && s.calls[tid] == pc
    ensures LinkInvariant(CleanupStep(s, tid, pc, pick))
  {
    var s' := CleanupStep(s, tid, pc, pick);
    NeutralKeeps(s, s', tid, s'.calls[tid]);
  }

  predicate AddsLink(s: State, pc: CallPc, accepts: bool) {
    (pc.Registering? && accepts && pc.req.h !in s.t.epoll) || pc.Mapping? || pc.Confirming?
  }

  lemma PlainSubscribeTables(s: State, tid: ThreadId, pc: CallPc, accepts: bool)
    requires !AddsLink(s, pc, accepts)
    ensures var s' := SubscribeStep(s, tid, pc, accepts);
      SameLinks(s.t, s'.t) && NoNewRegistered(s.t, s'.t) && s'.event == s.event && s'.undefined == s.undefined
  {
    PlainSubscribeEntries(s, tid, pc, accepts);
  }

  lemma PlainSubscribeEntries(s: State, tid: ThreadId, pc: CallPc, accepts: bool)
    requires !pc.Confirming?
    ensures NoNewRegistered(s.t, SubscribeStep(s, tid, pc, accepts).t)
  {
  }

  lemma PlainSubscribeMoves(s: State, tid: ThreadId, pc: CallPc, accepts: bool)
    requires !AddsLink(s, pc, accepts) && Neutral(pc) && tid in s.calls && s.calls[tid] == pc
    ensures var s' := SubscribeStep(s, tid, pc, accepts);
      tid in s'.calls && s'.calls == s.calls[tid := s'.calls[tid]] && Neutral(s'.calls[tid])
  {
    assert s.calls[tid := pc] == s.calls;
  }

  lemma SubscribeSectionKeeps(s: State, tid: ThreadId, pc: CallPc, accepts: bool)
    requires LinkInvariant(s) && KeysInvariant(s) && tid in s.calls && s.calls[tid] == pc
    requires !pc.Unmapping? && !pc.Unwatching? && !pc.Forgetting?
    ensures LinkInvariant(SubscribeStep(s, tid, pc, accepts))
  {
    var s' := SubscribeStep(s, tid, pc, accepts);
    if pc.Mapping? {
      MappingKeeps(s, s', tid, pc.req, pc.id);
    } else if pc.Confirming? {
      ConfirmingKeeps(s, s', tid, pc.req, pc.id);
    } else if AddsLink(s, pc, accepts) {
      RegisteringKeeps(s, s', tid, pc.req, pc.id);
    } else {
      PlainSubscribeTables(s, tid, pc, accepts);
      PlainSubscribeMoves(s, tid, pc, accepts);
      NeutralKeeps(s, s', tid, s'.calls[tid]);
    }
  }

  lemma UnsubscribeSectionKeeps(s: State, tid: ThreadId, pc: CallPc)
    requires LinkInvariant(s) && KeysInvariant(s) && Orderly(s) && tid in s.calls && s.calls[tid] == pc
    requires pc.FindingEntry? || pc.Unmapping? || pc.Unwatching? || pc.Forgetting? || pc.DroppingHandler?
    requires RemovedByOne(UnsubscribeStep(s, tid, pc))
    ensures LinkInvariant(UnsubscribeStep(s, tid, pc))
  {
    var s' := UnsubscribeStep(s, tid, pc);
    match pc {
      case FindingEntry(id) =>
        if RegisteredEntry(s.t, id) {
          FindingKeeps(s, s', tid, id);
        } else {
          NeutralKeeps(s, s', tid, s'.calls[tid]);
        }
      case Unmapping(id, ctx) =>
        assert CallLinked(s.t, pc);
        UnmappingKeeps(s, s', tid, id, ctx);
      case Unwatching(id, ctx) => UnwatchingKeeps(s, s', tid, id, ctx);
      case Forgetting(id) => ForgettingKeeps(s, s', tid, id);
      case DroppingHandler(id) => NeutralKeeps(s, s', tid, s'.calls[tid]);
    }
  }

  lemma CallSectionKeeps(s: State, a: Action)
    requires LinkInvariant(s) && KeysInvariant(s) && Orderly(s) && Enabled(s, a) && a.Advance?
    requires RemovedByOne(Step(s, a))
    ensures LinkInvariant(Step(s, a))
  {
    var pc := s.calls[a.tid];
    if pc.StartingCleanup? || pc.Collecting? || pc.Erasing? {
      CleanupSectionKeeps(s, a.tid, pc, a.pick);
    } else if pc.FindingEntry? || pc.Unmapping? || pc.Unwatching? || pc.Forgetting? || pc.DroppingHandler? {
      UnsubscribeSectionKeeps(s, a.tid, pc);
    } else {
      SubscribeSectionKeeps(s, a.tid, pc, a.accepts);
    }
  }

  // ---------- one section of the event thread ----------

  /** The entry has been read while nobody removes it, so a registered copy is linked. */
  lemma ReadingKeeps(s: State, s': State, n: Notification, id: SubscriberId)
    requires LinkInvariant(s) && KeysInvariant(s) && s.event == Keyed(n, id) && id in s.t.subs
    requires s'.event == Entering(n, id, s.t.subs[id]) && s'.t == s.t && s'.calls == s.calls && !s'.undefined
    requires NotRemovedWhileHeld(s')
    ensures LinkInvariant(s')
  {
    assert Holding(s'.event, id);
    assert !BeingFinished(s.calls, id) && !BeingForgotten(s.calls, id) by {
      forall i | i in s.calls
        ensures !Finishing(s.calls[i], id)
      {
        assert !Removing(s'.calls[i], id);
      }
    }
    forall i, h | i in s'.calls && Linking(s'.calls[i], h)
      ensures AloneWith(s'.t, s'.calls, s'.event, i, h)
    {
      assert AloneWith(s.t, s.calls, s.event, i, h);
    }
  }

  lemma WritingBackKeeps(s: State, s': State)
    requires LinkInvariant(s) && KeysInvariant(s) && WritesBack(s.event) && !s'.undefined
    requires s'.event.Waiting? || s'.event.Leaving?
    requires s'.calls == s.calls && SameLinks(s.t, s'.t)
    requires s'.t.subs == s.t.subs[s.event.id := s.event.ctx.(expired := true)]
    ensures LinkInvariant(s')
  {
    var ctx := s.event.ctx;
    if ctx.registered {
      assert HoldsRegistered(s.event, ctx.handle);
    }
    forall i | i in s'.calls
      ensures CallLinked(s'.t, s'.calls[i])
    {
      assert CallLinked(s.t, s.calls[i]);
    }
    forall i, h | i in s'.calls && Linking(s'.calls[i], h)
      ensures AloneWith(s'.t, s'.calls, s'.event, i, h)
    {
      assert AloneWith(s.t, s.calls, s.event, i, h);
      HashedKeyIsInjective(h, ctx.handle);
    }
  }

  /** Every other section leaves entries and links alone, and holds no other copy than before. */
  lemma OtherEventSection(s: State, order: seq<Event>, answer: EventResult)
    requires EventEnabled(s, order) && !WritesBack(s.event)
    ensures EventStep(s, order, answer).t.subs == s.t.subs && SameLinks(s.t, EventStep(s, order, answer).t)
  {
    EventKeepsLinks(s, order, answer);
  }

  lemma EventKeepsLinks(s: State, order: seq<Event>, answer: EventResult)
    requires EventEnabled(s, order)
    ensures SameLinks(s.t, EventStep(s, order, answer).t)
  {
  }

  lemma EventLeavesCalls(s: State, order: seq<Event>, answer: EventResult)
    requires EventEnabled(s, order)
    ensures EventStep(s, order, answer).calls == s.calls && EventStep(s, order, answer).undefined == s.undefined
  {
  }

  predicate Reads(s: State, event: EventPc) {
    && s.event.Keyed? && s.event.id in s.t.subs
    && event == Entering(s.event.n, s.event.id, s.t.subs[s.event.id])
  }

  lemma OtherEventCopies(s: State, order: seq<Event>, answer: EventResult)
    requires EventEnabled(s, order) && !WritesBack(s.event)
    ensures var s' := EventStep(s, order, answer);
      && (s'.event.Entering? ==> Reads(s, s'.event) && s'.t == s.t)
      && (!s'.event.Entering? ==> forall h :: HoldsRegistered(s'.event, h) ==> HoldsRegistered(s.event, h))
  {
  }

  lemma SameEntriesKeep(s: State, s': State)
    requires LinkInvariant(s) && s'.t.subs == s.t.subs && SameLinks(s.t, s'.t) && s'.calls == s.calls && !s'.undefined
    requires forall h :: HoldsRegistered(s'.event, h) ==> HoldsRegistered(s.event, h)
    ensures LinkInvariant(s')
  {
    forall i | i in s'.calls
      ensures CallLinked(s'.t, s'.calls[i])
    {
      assert CallLinked(s.t, s.calls[i]);
    }
    forall i, h | i in s'.calls && Linking(s'.calls[i], h)
      ensures AloneWith(s'.t, s'.calls, s'.event, i, h)
    {
      assert AloneWith(s.t, s.calls, s.event, i, h);
    }
  }

  lemma EventSectionKeeps(s: State, order: seq<Event>, answer: EventResult)
    requires LinkInvariant(s) && KeysInvariant(s) && EventEnabled(s, order)
    requires NotRemovedWhileHeld(EventStep(s, order, answer))
    ensures LinkInvariant(EventStep(s, order, answer))
  {
    var s' := EventStep(s, order, answer);
    EventLeavesCalls(s, order, answer);
    if WritesBack(s.event) {
      WritingBackKeeps(s, s');
    } else {
      OtherEventSection(s, order, answer);
      OtherEventCopies(s, order, answer);
      if s'.event.Entering? {
        ReadingKeeps(s, s', s.event.n, s.event.id);
      } else {
        SameEntriesKeep(s, s');
      }
    }
  }

  lemma StepKeepsLinks(s: State, a: Action)
    requires LinkInvariant(s) && KeysInvariant(s) && Enabled(s, a) && Orderly(s) && Orderly(Step(s, a))
    ensures LinkInvariant(Step(s, a))
  {
    match a {
      case Invoke(tid, next) => NeutralKeeps(s, Step(s, a), tid, StartingCleanup(next));
      case Advance(_, _, _) => CallSectionKeeps(s, a);
      case EventAdvance(order, answer) => EventSectionKeeps(s, order, answer);
      case _ => SameEntriesKeep(s, Step(s, a));
    }
  }
}
