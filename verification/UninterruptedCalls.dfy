/**
 The bridge between the two reactor models: a public call whose sections happen to run without interruption does to
 the tables what the one-step model says.
 */
module UninterruptedCalls {
  import opened Options
  import opened Events
  import opened ReactorTables
  import opened InterleavedReactor
  import opened Reachability
  import SerialReactor

  /** The state in which only thread tid has moved: it stands at pc and has made the tables t. */
  function Local(s: State, tid: ThreadId, pc: CallPc, t: Tables): State {
    s.(calls := s.calls[tid := pc], t := t)
  }

  lemma LocalTwice(s: State, tid: ThreadId, pc: CallPc, t: Tables, pc': CallPc, t': Tables)
    ensures Local(Local(s, tid, pc, t), tid, pc', t') == Local(s, tid, pc', t')
  {
    assert s.calls[tid := pc][tid := pc'] == s.calls[tid := pc'];
  }

  /** One section run by the thread that has been running alone. */
  lemma Moves(s: State, tid: ThreadId, pc: CallPc, t: Tables, accepts: bool, pc': CallPc, t': Tables)
    requires !s.undefined && s.tableLock.None? && !pc.Returned? && !pc.StartingCleanup? && !pc.Collecting?
    requires Step(Local(s, tid, pc, t), Advance(tid, 0, accepts)) == Local(Local(s, tid, pc, t), tid, pc', t')
    ensures ReachesAlone(Caller(tid), Local(s, tid, pc, t), Local(s, tid, pc', t'))
  {
    LocalTwice(s, tid, pc, t, pc', t');
    AloneOne(Caller(tid), Local(s, tid, pc, t), Advance(tid, 0, accepts));
  }

  // ---------- cleanupExpired ----------

  function Selected(t: Tables, pending: set<SubscriberId>): set<SubscriberId> {
    set id | id in pending && id in t.subs && Stale(t.subs[id]) && Removable(t.handlers, id)
  }

  function Elements(s: seq<SubscriberId>): set<SubscriberId> {
    set x | x in s
  }

  lemma ElementsPrepend(x: SubscriberId, s: seq<SubscriberId>)
    ensures Elements([x] + s) == {x} + Elements(s)
  {
  }

  predicate Chosen(t: Tables, id: SubscriberId) {
    id in t.subs && Stale(t.subs[id]) && Removable(t.handlers, id)
  }

  /** The tables and the key list after the predicate has looked at one entry. */
  function Picked(t: Tables, id: SubscriberId): Tables {
    if Chosen(t, id) then t.(handlers := t.handlers - {id}) else t
  }

  function PickedKeys(t: Tables, id: SubscriberId): seq<SubscriberId> {
    if Chosen(t, id) then [id] else []
  }

  /** The predicate erases handlers as it goes, yet the entries it will select stay the same. */
  lemma PickingKeepsSelection(t: Tables, pending: set<SubscriberId>, pick: SubscriberId, rest: seq<SubscriberId>)
    requires pick in pending
    requires Elements(rest) == Selected(Picked(t, pick), pending - {pick})
    ensures Elements(PickedKeys(t, pick) + rest) == Selected(t, pending)
    ensures Picked(t, pick).handlers - Selected(Picked(t, pick), pending - {pick}) == t.handlers - Selected(t, pending)
  {
    ElementsPrepend(pick, rest);
    assert [] + rest == rest;
    assert Selected(Picked(t, pick), pending - {pick}) == Selected(t, pending) - {pick};
    assert Chosen(t, pick) <==> pick in Selected(t, pending);
  }

  function CollectingState(s: State, tid: ThreadId, pc: CallPc, t: Tables): State {
    Local(s, tid, pc, t).(tableLock := Some(tid))
  }

  lemma CollectOne(
      s: State, tid: ThreadId, next: Continuation, t: Tables, pending: set<SubscriberId>, removed: seq<SubscriberId>,
      pick: SubscriberId)
    requires !s.undefined && pick in pending
    ensures ReachesAlone(Caller(tid), CollectingState(s, tid, Collecting(next, pending, removed), t),
                    CollectingState(s, tid, Collecting(next, pending - {pick}, removed + PickedKeys(t, pick)),
                        Picked(t, pick)))
  {
    var here := CollectingState(s, tid, Collecting(next, pending, removed), t);
    var pc' := Collecting(next, pending - {pick}, removed + PickedKeys(t, pick));
    LocalTwice(s, tid, Collecting(next, pending, removed), t, pc', Picked(t, pick));
    assert removed + [] == removed;
    assert Step(here, Advance(tid, pick, true)) == CollectingState(s, tid, pc', Picked(t, pick));
    AloneOne(Caller(tid), here, Advance(tid, pick, true));
  }

  lemma CollectNone(s: State, tid: ThreadId, next: Continuation, t: Tables, removed: seq<SubscriberId>)
    requires !s.undefined && s.tableLock.None?
    ensures ReachesAlone(Caller(tid), CollectingState(s, tid, Collecting(next, {}, removed), t),
      Local(s, tid, Erasing(next, removed), t))
  {
    var here := CollectingState(s, tid, Collecting(next, {}, removed), t);
    LocalTwice(s, tid, Collecting(next, {}, removed), t, Erasing(next, removed), t);
    AloneOne(Caller(tid), here, Advance(tid, 0, true));
  }

  lemma {:induction false} CollectAlone(
      s: State, tid: ThreadId, next: Continuation, t: Tables, pending: set<SubscriberId>, removed: seq<SubscriberId>)
    returns (more: seq<SubscriberId>)
    requires !s.undefined && s.tableLock.None?
    ensures Elements(more) == Selected(t, pending)
    ensures ReachesAlone(Caller(tid), CollectingState(s, tid, Collecting(next, pending, removed), t),
                    Local(s, tid, Erasing(next, removed + more), t.(handlers := t.handlers - Selected(t, pending))))
    decreases pending
  {
    if pending == {} {
      more := [];
      assert removed + more == removed && t.handlers - Selected(t, {}) == t.handlers;
      CollectNone(s, tid, next, t, removed);
    } else {
      var pick :| pick in pending;
      var t', removed' := Picked(t, pick), removed + PickedKeys(t, pick);
      CollectOne(s, tid, next, t, pending, removed, pick);
      var rest := CollectAlone(s, tid, next, t', pending - {pick}, removed');
      PickingKeepsSelection(t, pending, pick, rest);
      more := PickedKeys(t, pick) + rest;
      assert removed' + rest == removed + more;
      AloneThrough(Caller(tid), CollectingState(s, tid, Collecting(next, pending, removed), t),
                     CollectingState(s, tid, Collecting(next, pending - {pick}, removed'), t'),
                     Local(s, tid, Erasing(next, removed + more), t.(handlers := t.handlers - Selected(t, pending))));
    }
  }

  lemma {:induction false} EraseAlone(s: State, tid: ThreadId, next: Continuation, t: Tables,
      removed: seq<SubscriberId>)
    requires !s.undefined && s.tableLock.None?
    ensures ReachesAlone(Caller(tid), Local(s, tid, Erasing(next, removed), t),
                    Local(s, tid, AfterCleanup(next), t.(subs := t.subs - Elements(removed))))
    decreases |removed|
  {
    if removed == [] {
      assert t.subs - Elements(removed) == t.subs;
      Moves(s, tid, Erasing(next, removed), t, true, AfterCleanup(next), t);
    } else {
      var t' := t.(subs := t.subs - {removed[0]});
      Moves(s, tid, Erasing(next, removed), t, true, Erasing(next, removed[1..]), t');
      EraseAlone(s, tid, next, t', removed[1..]);
      assert t'.subs - Elements(removed[1..]) == t.subs - Elements(removed);
      AloneThrough(Caller(tid), Local(s, tid, Erasing(next, removed), t),
          Local(s, tid, Erasing(next, removed[1..]), t'),
                     Local(s, tid, AfterCleanup(next), t.(subs := t.subs - Elements(removed))));
    }
  }

  predicate CanInvoke(s: State, tid: ThreadId) {
    !s.undefined && s.tableLock.None? && (tid in s.calls ==> s.calls[tid].Returned?)
  }

  /** The cleanup every call begins with. */
  lemma CleanupAlone(s: State, tid: ThreadId, next: Continuation)
    requires CanInvoke(s, tid)
    ensures ReachesAlone(Caller(tid), s, Local(s, tid, AfterCleanup(next), Cleanup(s.t)))
  {
    var started := Local(s, tid, StartingCleanup(next), s.t);
    var collecting := CollectingState(s, tid, Collecting(next, s.t.subs.Keys, []), s.t);
    AloneOne(Caller(tid), s, Invoke(tid, next));
    AloneOne(Caller(tid), started, Advance(tid, 0, true));
    assert started.calls[tid := Collecting(next, s.t.subs.Keys, [])] == collecting.calls;
    AloneThrough(Caller(tid), s, started, collecting);
    var removed := CollectAlone(s, tid, next, s.t, s.t.subs.Keys, []);
    assert [] + removed == removed;
    assert Selected(s.t, s.t.subs.Keys) == Victims(s.t);
    var t' := s.t.(handlers := s.t.handlers - Victims(s.t));
    EraseAlone(s, tid, next, t', removed);
    assert t'.(subs := t'.subs - Elements(removed)) == Cleanup(s.t);
    AloneThrough(Caller(tid), s, collecting, Local(s, tid, Erasing(next, removed), t'));
    AloneThrough(Caller(tid), s, Local(s, tid, Erasing(next, removed), t'),
        Local(s, tid, AfterCleanup(next), Cleanup(s.t)));
  }

  // ---------- subscribe and unsubscribe ----------

  /** A subscribe that is not interrupted leaves the tables, and answers the identifier, of the one-step model. */
  lemma SubscribeAlone(s: State, tid: ThreadId, req: Request, accepts: bool)
    requires CanInvoke(s, tid) && KeysInvariant(s)
    ensures var (t', id) := Subscribe(s.t, req.h, req.mask, req.ref, accepts);
      ReachesAlone(Caller(tid), s, Local(s, tid, Returned(id, id != NULL_SUBSCRIBER_ID), t'))
  {
    CleanupAlone(s, tid, ThenSubscribe(req));
    var c := Cleanup(s.t);
    SerialReactor.KeySearchEndsAtOnce(c, req.h);
    var id := HashedKey(req.h);
    Moves(s, tid, GettingKey(req), c, true, SearchingKey(req, id), c);
    AloneThrough(Caller(tid), s, Local(s, tid, GettingKey(req), c), Local(s, tid, SearchingKey(req, id), c));
    var (t', answer) := Subscribe(s.t, req.h, req.mask, req.ref, accepts);
    if id in c.subs {
      ResubscribeAlone(s, tid, req, c, id);
    } else {
      FreshAlone(s, tid, req, c, id, accepts);
    }
    AloneThrough(Caller(tid), s, Local(s, tid, SearchingKey(req, id), c),
        Local(s, tid, Returned(answer, answer != NULL_SUBSCRIBER_ID), t'));
  }

  /** No entry has been found under the key. */
  lemma FreshAlone(s: State, tid: ThreadId, req: Request, c: Tables, id: SubscriberId, accepts: bool)
    requires !s.undefined && s.tableLock.None? && id !in c.subs
    ensures ReachesAlone(Caller(tid), Local(s, tid, SearchingKey(req, id), c),
                    if accepts && req.h !in c.epoll then
                      Local(s, tid, Returned(id, id != NULL_SUBSCRIBER_ID), Registered(c, req, id))
                    else
                      Local(s, tid, Returned(NULL_SUBSCRIBER_ID, false), c))
  {
    var start := Local(s, tid, SearchingKey(req, id), c);
    var added := c.(subs := c.subs[id := FreshContext(req.h, req.mask, id)]);
    var registering := Local(s, tid, Registering(req, id), added);
    Moves(s, tid, SearchingKey(req, id), c, true, Adding(req, id, false), c);
    Moves(s, tid, Adding(req, id, false), c, true, Registering(req, id), added);
    AloneThrough(Caller(tid), start, Local(s, tid, Adding(req, id, false), c), registering);
    if accepts && req.h !in c.epoll {
      RegisterAlone(s, tid, req, c, id);
      AloneThrough(Caller(tid), start, registering,
          Local(s, tid, Returned(id, id != NULL_SUBSCRIBER_ID), Registered(c, req, id)));
    } else {
      RefusedAlone(s, tid, req, c, id, accepts);
      AloneThrough(Caller(tid), start, registering, Local(s, tid, Returned(NULL_SUBSCRIBER_ID, false), c));
    }
  }

  /** The entry found is the descriptor's own: the call ends with the null identifier either way. */
  lemma ResubscribeAlone(s: State, tid: ThreadId, req: Request, c: Tables, id: SubscriberId)
    requires !s.undefined && s.tableLock.None? && id in c.subs && c.subs[id].handle == req.h
    ensures ReachesAlone(Caller(tid), Local(s, tid, SearchingKey(req, id), c),
                    Local(s, tid, Returned(NULL_SUBSCRIBER_ID, false),
                          if id in c.handlers && c.handlers[id].inProgress then c
                          else c.(subs := c.subs[id := FreshContext(req.h, req.mask, id)])))
  {
    Moves(s, tid, SearchingKey(req, id), c, true, TestingProgress(req, id), c);
    var t' := c;
    if id in c.handlers && c.handlers[id].inProgress {
      Moves(s, tid, TestingProgress(req, id), c, true, Returned(NULL_SUBSCRIBER_ID, false), c);
    } else {
      t' := c.(subs := c.subs[id := FreshContext(req.h, req.mask, id)]);
      OverwriteAlone(s, tid, req, c, id);
    }
    AloneThrough(Caller(tid), Local(s, tid, SearchingKey(req, id), c), Local(s, tid, TestingProgress(req, id), c),
                   Local(s, tid, Returned(NULL_SUBSCRIBER_ID, false), t'));
  }

  lemma OverwriteAlone(s: State, tid: ThreadId, req: Request, c: Tables, id: SubscriberId)
    requires !s.undefined && s.tableLock.None? && id in c.subs
    requires !(id in c.handlers && c.handlers[id].inProgress)
    ensures ReachesAlone(Caller(tid), Local(s, tid, TestingProgress(req, id), c),
                    Local(s, tid, Returned(NULL_SUBSCRIBER_ID, false),
                          c.(subs := c.subs[id := FreshContext(req.h, req.mask, id)])))
  {
    var t' := c.(subs := c.subs[id := FreshContext(req.h, req.mask, id)]);
    Moves(s, tid, TestingProgress(req, id), c, true, Adding(req, id, true), c);
    Moves(s, tid, Adding(req, id, true), c, true, Returned(NULL_SUBSCRIBER_ID, false), t');
    AloneThrough(Caller(tid), Local(s, tid, TestingProgress(req, id), c), Local(s, tid, Adding(req, id, true), c),
                   Local(s, tid, Returned(NULL_SUBSCRIBER_ID, false), t'));
  }

  /** From the kernel's registration to the end of the call, for a descriptor whose entry has just been added. */
  lemma RegisterAlone(s: State, tid: ThreadId, req: Request, c: Tables, id: SubscriberId)
    requires !s.undefined && s.tableLock.None? && id !in c.subs && req.h !in c.epoll
    ensures var added := c.(subs := c.subs[id := FreshContext(req.h, req.mask, id)]);
      ReachesAlone(Caller(tid), Local(s, tid, Registering(req, id), added),
              Local(s, tid, Returned(id, id != NULL_SUBSCRIBER_ID), Registered(c, req, id)))
  {
    var added := c.(subs := c.subs[id := FreshContext(req.h, req.mask, id)]);
    var t1 := added.(epoll := c.epoll + {req.h});
    var t2 := t1.(handleIds := c.handleIds[req.h := id]);
    Moves(s, tid, Registering(req, id), added, true, Mapping(req, id), t1);
    Moves(s, tid, Mapping(req, id), t1, true, Confirming(req, id), t2);
    AloneThrough(Caller(tid), Local(s, tid, Registering(req, id), added), Local(s, tid, Mapping(req, id), t1),
                   Local(s, tid, Confirming(req, id), t2));
    ConfirmAlone(s, tid, req, c, id, t2);
    AloneThrough(Caller(tid), Local(s, tid, Registering(req, id), added), Local(s, tid, Confirming(req, id), t2),
                   Local(s, tid, Returned(id, id != NULL_SUBSCRIBER_ID), Registered(c, req, id)));
  }

  lemma ConfirmAlone(s: State, tid: ThreadId, req: Request, c: Tables, id: SubscriberId, t: Tables)
    requires !s.undefined && s.tableLock.None?
    requires t == Tables(c.subs[id := FreshContext(req.h, req.mask, id)], c.handlers, c.handleIds[req.h := id],
                         c.epoll + {req.h})
    ensures ReachesAlone(Caller(tid), Local(s, tid, Confirming(req, id), t),
                    Local(s, tid, Returned(id, id != NULL_SUBSCRIBER_ID), Registered(c, req, id)))
  {
    var confirmed := FreshContext(req.h, req.mask, id).(registered := true);
    var t' := t.(subs := c.subs[id := confirmed]);
    assert t.subs[id := confirmed] == t'.subs;
    Moves(s, tid, Confirming(req, id), t, true, AddingHandler(req, id), t');
    Moves(s, tid, AddingHandler(req, id), t', true, Returned(id, id != NULL_SUBSCRIBER_ID), Registered(c, req, id));
    AloneThrough(Caller(tid), Local(s, tid, Confirming(req, id), t), Local(s, tid, AddingHandler(req, id), t'),
                   Local(s, tid, Returned(id, id != NULL_SUBSCRIBER_ID), Registered(c, req, id)));
  }

  /** What the tables become when the kernel takes the descriptor. */
  function Registered(c: Tables, req: Request, id: SubscriberId): Tables {
    Tables(
      c.subs[id := FreshContext(req.h, req.mask, id).(registered := true)],
      if id == NULL_SUBSCRIBER_ID then c.handlers else WithHandler(c.handlers, id, req.ref),
      c.handleIds[req.h := id],
      c.epoll + {req.h})
  }

  lemma RefusedAlone(s: State, tid: ThreadId, req: Request, c: Tables, id: SubscriberId, accepts: bool)
    requires !s.undefined && s.tableLock.None? && id !in c.subs && !(accepts && req.h !in c.epoll)
    ensures var added := c.(subs := c.subs[id := FreshContext(req.h, req.mask, id)]);
      ReachesAlone(Caller(tid), Local(s, tid, Registering(req, id), added),
          Local(s, tid, Returned(NULL_SUBSCRIBER_ID, false), c))
  {
    var added := c.(subs := c.subs[id := FreshContext(req.h, req.mask, id)]);
    assert added.subs - {id} == c.subs;
    Moves(s, tid, Registering(req, id), added, accepts, RollingBack(req, id), added);
    Moves(s, tid, RollingBack(req, id), added, true, Returned(NULL_SUBSCRIBER_ID, false), c);
    AloneThrough(Caller(tid), Local(s, tid, Registering(req, id), added), Local(s, tid, RollingBack(req, id), added),
                   Local(s, tid, Returned(NULL_SUBSCRIBER_ID, false), c));
  }

  /** The entry of a registered subscriber has been found: up to its removal from both of the demultiplexer's sets. */
  lemma UnregisterAlone(s: State, tid: ThreadId, c: Tables, id: SubscriberId)
    requires !s.undefined && s.tableLock.None? && id in c.subs && c.subs[id].registered
    requires CanUnmap(c.handleIds, c.subs[id].handle)
    ensures var h := c.subs[id].handle;
      ReachesAlone(Caller(tid), Local(s, tid, Unmapping(id, c.subs[id]), c),
              Local(s, tid, Forgetting(id), c.(handleIds := c.handleIds - {h}, epoll := c.epoll - {h})))
  {
    var ctx := c.subs[id];
    var t1 := c.(handleIds := c.handleIds - {ctx.handle});
    var t2 := t1.(epoll := c.epoll - {ctx.handle});
    Moves(s, tid, Unmapping(id, ctx), c, true, Unwatching(id, ctx), t1);
    Moves(s, tid, Unwatching(id, ctx), t1, true, Forgetting(id), t2);
    AloneThrough(Caller(tid), Local(s, tid, Unmapping(id, ctx), c), Local(s, tid, Unwatching(id, ctx), t1),
                   Local(s, tid, Forgetting(id), t2));
  }

  /** Up to the section that unmaps the descriptor of a registered entry. */
  lemma UnsubscribeToUnmapping(s: State, tid: ThreadId, id: SubscriberId)
    requires CanInvoke(s, tid) && id in Cleanup(s.t).subs && Cleanup(s.t).subs[id].registered
    ensures ReachesAlone(Caller(tid), s, Local(s, tid, Unmapping(id, Cleanup(s.t).subs[id]), Cleanup(s.t)))
  {
    var c := Cleanup(s.t);
    CleanupAlone(s, tid, ThenUnsubscribe(id));
    Moves(s, tid, FindingEntry(id), c, true, Unmapping(id, c.subs[id]), c);
    AloneThrough(Caller(tid), s, Local(s, tid, FindingEntry(id), c), Local(s, tid, Unmapping(id, c.subs[id]), c));
  }

  /** And from there to the end. */
  lemma UnsubscribeFromUnmapping(s: State, tid: ThreadId, id: SubscriberId)
    requires CanInvoke(s, tid) && id in Cleanup(s.t).subs && Cleanup(s.t).subs[id].registered
    requires UnsubscribeDefined(s.t, id)
    ensures ReachesAlone(Caller(tid), Local(s, tid, Unmapping(id, Cleanup(s.t).subs[id]), Cleanup(s.t)),
                    Local(s, tid, Returned(id, true), Unsubscribe(s.t, id).0))
  {
    var c := Cleanup(s.t);
    var t' := c.(handleIds := c.handleIds - {c.subs[id].handle}, epoll := c.epoll - {c.subs[id].handle});
    UnregisterAlone(s, tid, c, id);
    ForgetAlone(s, tid, t', id);
    AloneThrough(Caller(tid), Local(s, tid, Unmapping(id, c.subs[id]), c), Local(s, tid, Forgetting(id), t'),
                   Local(s, tid, Returned(id, true), Unsubscribe(s.t, id).0));
  }

  /** An unsubscribe that is not interrupted leaves the tables of the one-step model, where that model is defined. */
  lemma UnsubscribeAlone(s: State, tid: ThreadId, id: SubscriberId)
    requires CanInvoke(s, tid) && UnsubscribeDefined(s.t, id)
    ensures ReachesAlone(Caller(tid), s, Local(s, tid, Returned(id, Unsubscribe(s.t, id).1), Unsubscribe(s.t, id).0))
  {
    var c := Cleanup(s.t);
    var found, end := Local(s, tid, FindingEntry(id), c), Local(s, tid, Returned(id, true), Unsubscribe(s.t, id).0);
    CleanupAlone(s, tid, ThenUnsubscribe(id));
    if id !in c.subs {
      Moves(s, tid, FindingEntry(id), c, true, Returned(id, false), c);
      AloneThrough(Caller(tid), s, found, Local(s, tid, Returned(id, false), c));
    } else if c.subs[id].registered {
      UnsubscribeToUnmapping(s, tid, id);
      UnsubscribeFromUnmapping(s, tid, id);
      AloneThrough(Caller(tid), s, Local(s, tid, Unmapping(id, c.subs[id]), c), end);
    } else {
      Moves(s, tid, FindingEntry(id), c, true, Forgetting(id), c);
      ForgetAlone(s, tid, c, id);
      AloneThrough(Caller(tid), s, found, Local(s, tid, Forgetting(id), c));
      AloneThrough(Caller(tid), s, Local(s, tid, Forgetting(id), c), end);
    }
  }

  /** Where the one-step model is not defined, the same call comes to erase an end iterator. */
  lemma UnsubscribeAloneUndefined(s: State, tid: ThreadId, id: SubscriberId)
    requires CanInvoke(s, tid) && !UnsubscribeDefined(s.t, id)
    ensures exists s' :: ReachesAlone(Caller(tid), s, s') && s'.undefined
  {
    var unmapping := Local(s, tid, Unmapping(id, Cleanup(s.t).subs[id]), Cleanup(s.t));
    UnsubscribeToUnmapping(s, tid, id);
    AloneOne(Caller(tid), unmapping, Advance(tid, 0, true));
    AloneThrough(Caller(tid), s, unmapping, Step(unmapping, Advance(tid, 0, true)));
  }

  lemma ForgetAlone(s: State, tid: ThreadId, t: Tables, id: SubscriberId)
    requires !s.undefined && s.tableLock.None?
    ensures ReachesAlone(Caller(tid), Local(s, tid, Forgetting(id), t),
                    Local(s, tid, Returned(id, true),
                        t.(subs := t.subs - {id}, handlers := WithoutHandler(t.handlers, id))))
  {
    var t1 := t.(subs := t.subs - {id});
    var t2 := t1.(handlers := WithoutHandler(t.handlers, id));
    Moves(s, tid, Forgetting(id), t, true, DroppingHandler(id), t1);
    Moves(s, tid, DroppingHandler(id), t1, true, Returned(id, true), t2);
    AloneThrough(Caller(tid), Local(s, tid, Forgetting(id), t), Local(s, tid, DroppingHandler(id), t1),
        Local(s, tid, Returned(id, true), t2));
  }
}
