/** Observers of a state, and the identifiers they are removed by (UtilitiesInfra/ObservableStatePublisher.hpp). */
module ObservableStatePublisher {
  import opened StdAlgorithms

  type SubscriberId = nat
  type Callback = nat
  type PublisherRef = nat

  datatype Delegate = Delegate(id: SubscriberId, callback: Callback)

  ghost predicate Increasing(list: seq<Delegate>, current: SubscriberId) {
    && (forall i, j :: 0 <= i < j < |list| ==> list[i].id < list[j].id)
    && (forall i :: 0 <= i < |list| ==> 0 < list[i].id <= current)
  }

  ghost predicate Has(list: seq<Delegate>, id: SubscriberId) {
    exists i :: 0 <= i < |list| && list[i].id == id
  }

  function Without(list: seq<Delegate>, id: SubscriberId): seq<Delegate> {
    Kept(list, (d: Delegate) => d.id == id)
  }

  /** Under increasing identifiers the one named is at one place only, and removing it is taking that place out. */
  lemma WithoutIsOnePlace(list: seq<Delegate>, id: SubscriberId, current: SubscriberId)
    requires Increasing(list, current)
    ensures !Has(list, id) ==> Without(list, id) == list
    ensures forall at :: 0 <= at < |list| && list[at].id == id ==> Without(list, id) == EraseAt(list, at)
  {
    var drop := (d: Delegate) => d.id == id;
    if !Has(list, id) {
      KeptAll(list, drop);
    }
    forall at | 0 <= at < |list| && list[at].id == id
      ensures Without(list, id) == EraseAt(list, at)
    {
      KeptWithoutOne(list, drop, at);
    }
  }

  lemma WithoutKeepsIncreasing(list: seq<Delegate>, id: SubscriberId, current: SubscriberId)
    requires Increasing(list, current)
    ensures Increasing(Without(list, id), current) && !Has(Without(list, id), id)
    ensures forall other :: other != id ==> (Has(Without(list, id), other) <==> Has(list, other))
  {
    WithoutIsOnePlace(list, id, current);
    if Has(list, id) {
      var at :| 0 <= at < |list| && list[at].id == id;
      ErasingOne(list, at, current);
    }
  }

  lemma ErasingOne(list: seq<Delegate>, at: nat, current: SubscriberId)
    requires Increasing(list, current) && at < |list|
    ensures var r := EraseAt(list, at);
      && Increasing(r, current)
      && (forall other :: Has(r, other) <==> Has(list, other) && other != list[at].id)
  {
    var r := EraseAt(list, at);
    ErasedAt(list, at);
    forall other | Has(list, other) && other != list[at].id
      ensures Has(r, other)
    {
      var i :| 0 <= i < |list| && list[i].id == other;
      assert r[if i < at then i else i - 1].id == other;
    }
  }

  lemma ErasedAt(list: seq<Delegate>, at: nat)
    requires at < |list|
    ensures var r := EraseAt(list, at);
      && (forall i :: 0 <= i < at ==> r[i] == list[i])
      && (forall i :: at <= i < |r| ==> r[i] == list[i + 1])
  {
    var r := EraseAt(list, at);
    forall i | at <= i < |r|
      ensures r[i] == list[i + 1]
    {
      assert r[i] == list[at + 1..][i - at];
    }
  }

  // ---------- the publisher ----------

  /** The function-local static counter: one for all publishers of a type. */
  class Counter {
    var current: SubscriberId

    constructor ()
      ensures current == 0
    {
      current := 0;
    }
  }

  class Publisher {
    const ids: Counter
    var delegates: seq<Delegate>

    ghost predicate Valid()
      reads this, ids
    {
      Increasing(delegates, ids.current)
    }

    constructor (ids: Counter)
      ensures this.ids == ids && Valid() && delegates == []
    {
      this.ids := ids;
      delegates := [];
    }

    method AddObserver(callback: Callback) returns (id: SubscriberId)
      requires Valid()
      modifies this`delegates, ids`current
      ensures Valid() && ids.current == old(ids.current) + 1 && id == ids.current
      ensures delegates == old(delegates) + [Delegate(id, callback)]
    {
      ids.current := ids.current + 1;
      id := ids.current;
      delegates := delegates + [Delegate(id, callback)];
    }

    /** remove_if, and then one erase at the position it answers: enough, because the name stands for one observer. */
    method RemoveObserver(id: SubscriberId) returns (ok: bool)
      requires Valid()
      modifies this`delegates
      ensures Valid() && delegates == Without(old(delegates), id)
      ensures ok <==> Has(old(delegates), id)
    {
      WithoutIsOnePlace(delegates, id, ids.current);
      WithoutKeepsIncreasing(delegates, id, ids.current);
      var moved, newEnd := RemoveIf(delegates, (d: Delegate) => d.id == id);
      if newEnd != |delegates| {
        ghost var was := delegates;
        assert Has(was, id);
        ghost var at :| 0 <= at < |was| && was[at].id == id;
        assert moved[..newEnd] == EraseAt(was, at);
        delegates := EraseAt(moved, newEnd);
        return true;
      }
      assert moved[..newEnd] == moved;
      return false;
    }

    method DelegatesCopy() returns (copy: seq<Delegate>)
      ensures copy == delegates
    {
      copy := [];
      for i := 0 to |delegates|
        invariant copy == delegates[..i]
      {
        copy := copy + [delegates[i]];
      }
    }

    /** Every observer present when the state changes is told the state, once, in the order of registration. */
    method Notify<S>(state: S) returns (calls: seq<(Callback, S)>)
      ensures |calls| == |delegates|
      ensures forall i :: 0 <= i < |calls| ==> calls[i] == (delegates[i].callback, state)
    {
      var copy := DelegatesCopy();
      calls := [];
      for i := 0 to |copy|
        invariant |calls| == i
        invariant forall k :: 0 <= k < i ==> calls[k] == (copy[k].callback, state)
      {
        calls := calls + [(copy[i].callback, state)];
      }
    }
  }

  // ---------- runs over several publishers ----------

  datatype Publishers = Publishers(current: SubscriberId, lists: map<PublisherRef, seq<Delegate>>)

  datatype Step = Add(publisher: PublisherRef, callback: Callback) | Remove(publisher: PublisherRef, id: SubscriberId)

  function ListOf(s: Publishers, p: PublisherRef): seq<Delegate> {
    if p in s.lists then s.lists[p] else []
  }

  function After(s: Publishers, step: Step): Publishers {
    var list := ListOf(s, step.publisher);
    match step
    case Add(p, callback) => Publishers(s.current + 1, s.lists[p := list + [Delegate(s.current + 1, callback)]])
    case Remove(p, id) => s.(lists := s.lists[p := Without(list, id)])
  }

  function Run(s: Publishers, steps: seq<Step>): Publishers
    decreases |steps|
  {
    if steps == [] then s else Run(After(s, steps[0]), steps[1..])
  }

  /** No identifier is used twice, in one publisher or in two. */
  ghost predicate Invariant(s: Publishers) {
    && (forall p :: Increasing(ListOf(s, p), s.current))
    && (forall p, q, id :: Has(ListOf(s, p), id) && Has(ListOf(s, q), id) ==> p == q)
  }

  lemma ListAfter(s: Publishers, step: Step, p: PublisherRef)
    requires Invariant(s)
    ensures var list, next := ListOf(s, p), ListOf(After(s, step), p);
      && Increasing(next, After(s, step).current)
      && (forall id :: Has(next, id) <==>
            if step.publisher != p then Has(list, id)
            else if step.Add? then Has(list, id) || id == s.current + 1
            else Has(list, id) && id != step.id)
  {
    var list, next := ListOf(s, p), ListOf(After(s, step), p);
    if step.publisher == p {
      match step {
        case Add(_, callback) =>
          assert next == list + [Delegate(s.current + 1, callback)];
          forall id
            ensures Has(next, id) <==> Has(list, id) || id == s.current + 1
          {
            if Has(list, id) {
              var i :| 0 <= i < |list| && list[i].id == id;
              assert next[i].id == id;
            }
            assert next[|list|].id == s.current + 1;
          }
        case Remove(_, id) => WithoutKeepsIncreasing(list, id, s.current);
      }
    }
  }

  lemma StepKeepsInvariant(s: Publishers, step: Step)
    requires Invariant(s)
    ensures Invariant(After(s, step))
  {
    var t := After(s, step);
    forall p
      ensures Increasing(ListOf(t, p), t.current)
    {
      ListAfter(s, step, p);
    }
    forall p, q, id | Has(ListOf(t, p), id) && Has(ListOf(t, q), id)
      ensures p == q
    {
      ListAfter(s, step, p);
      ListAfter(s, step, q);
      NewIdIsNew(s, p);
      NewIdIsNew(s, q);
    }
  }

  lemma NewIdIsNew(s: Publishers, p: PublisherRef)
    requires Invariant(s)
    ensures !Has(ListOf(s, p), s.current + 1)
  {
    assert Increasing(ListOf(s, p), s.current);
  }

  /** Over every run of additions and removals, in any number of publishers, an identifier names one observer. */
  lemma {:induction false} RunKeepsInvariant(s: Publishers, steps: seq<Step>)
    requires Invariant(s)
    ensures Invariant(Run(s, steps)) && Run(s, steps).current >= s.current
    decreases |steps|
  {
    if steps != [] {
      StepKeepsInvariant(s, steps[0]);
      RunKeepsInvariant(After(s, steps[0]), steps[1..]);
    }
  }

  /** An identifier that has been given out and removed is never seen again: whoever was removed is not called back. */
  lemma {:induction false} RemovedStaysRemoved(s: Publishers, steps: seq<Step>, id: SubscriberId, p: PublisherRef)
    requires Invariant(s) && id <= s.current && !Has(ListOf(s, p), id)
    ensures !Has(ListOf(Run(s, steps), p), id)
    decreases |steps|
  {
    if steps != [] {
      ListAfter(s, steps[0], p);
      StepKeepsInvariant(s, steps[0]);
      RemovedStaysRemoved(After(s, steps[0]), steps[1..], id, p);
    }
  }

  /** Removing the observer just added gives back the observers as they were, in their order. */
  lemma RemovingUndoesAdding(s: Publishers, p: PublisherRef, callback: Callback)
    requires Invariant(s)
    ensures ListOf(After(After(s, Add(p, callback)), Remove(p, s.current + 1)), p) == ListOf(s, p)
  {
    var t := After(s, Add(p, callback));
    StepKeepsInvariant(s, Add(p, callback));
    WithoutIsOnePlace(ListOf(t, p), s.current + 1, t.current);
    assert EraseAt(ListOf(t, p), |ListOf(s, p)|) == ListOf(s, p);
  }
}
