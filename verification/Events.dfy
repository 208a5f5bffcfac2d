/**
 The event vocabulary of the reactor and its translation to and from epoll masks
 (TransportInfra/Reactor/EventTypes.h, TransportInfra/Reactor/EpollDemultiplexer.cpp).
 */
module Events {

  datatype Event = NullEvent | In | PrioIn | Out | Err | Hup | Shutdown

  datatype EventResult = MethodNotImplemented | InvalidReference | Failure | Default | Success

  const MAX_EVENTS_NO: nat := 6

  /** A 32-bit mask, as the set of the positions of its one bits: `|` is union, `&` intersection, `& ~` difference. */
  newtype Bit = b: int | 0 <= b < 32
  type Mask = set<Bit>

  const EPOLLIN: Mask := {0}
  const EPOLLPRI: Mask := {1}
  const EPOLLOUT: Mask := {2}
  const EPOLLERR: Mask := {3}
  const EPOLLHUP: Mask := {4}
  const EPOLLRDHUP: Mask := {13}

  /** The table `handleEventToEpollFlag`, indexed by the enumerator's value. */
  function Flag(e: Event): Mask {
    match e
    case NullEvent => {}
    case In => EPOLLIN
    case PrioIn => EPOLLPRI
    case Out => EPOLLOUT
    case Err => EPOLLERR
    case Hup => EPOLLHUP
    case Shutdown => EPOLLRDHUP
  }

  /** The enumerator's numeric value. */
  function Ordinal(e: Event): nat {
    match e
    case NullEvent => 0
    case In => 1
    case PrioIn => 2
    case Out => 3
    case Err => 4
    case Hup => 5
    case Shutdown => 6
  }

  function FromOrdinal(n: nat): (e: Event)
    requires n <= MAX_EVENTS_NO
    ensures Ordinal(e) == n
  {
    if n == 0 then NullEvent
    else if n == 1 then In
    else if n == 2 then PrioIn
    else if n == 3 then Out
    else if n == 4 then Err
    else if n == 5 then Hup
    else Shutdown
  }

  /** Event e is reported by the mask. */
  predicate InMask(e: Event, mask: Mask) {
    mask * Flag(e) != {}
  }

  /** getEventsMask: the mask reports exactly the events listed, and has no bit outside the table. */
  method GetEventsMask(events: seq<Event>) returns (mask: Mask)
    ensures forall e: Event :: InMask(e, mask) <==> e in events && e != NullEvent
    ensures mask <= EPOLLIN + EPOLLPRI + EPOLLOUT + EPOLLERR + EPOLLHUP + EPOLLRDHUP
    ensures var bits: seq<Bit>, named := [0, 1, 2, 3, 4, 13], [In, PrioIn, Out, Err, Hup, Shutdown];
      forall b: Bit :: b in mask <==> exists k :: 0 <= k < |bits| && bits[k] == b && named[k] in events
  {
    mask := {};
    for i := 0 to |events|
      invariant forall e: Event :: InMask(e, mask) <==> e in events[..i] && e != NullEvent
      invariant mask <= EPOLLIN + EPOLLPRI + EPOLLOUT + EPOLLERR + EPOLLHUP + EPOLLRDHUP
    {
      if events[i] != NullEvent {
        ghost var before := mask;
        mask := mask + Flag(events[i]);
        forall e: Event
          ensures InMask(e, mask) <==> InMask(e, before) || (e == events[i] && e != NullEvent)
        {
          AddingFlag(before, events[i], e);
        }
      }
      assert events[..i + 1] == events[..i] + [events[i]];
    }
    assert events[..|events|] == events;
    MaskIsItsEvents(events, mask);
  }

  /** The kernel's bit for each event, in the order of the enumerators. */
  lemma NamedBit(k: nat, mask: Mask)
    requires k < MAX_EVENTS_NO
    ensures var bits: seq<Bit>, named := [0, 1, 2, 3, 4, 13], [In, PrioIn, Out, Err, Hup, Shutdown];
      (InMask(named[k], mask) <==> bits[k] in mask) && FromOrdinal(k + 1) == named[k]
  {
    var bits: seq<Bit>, named := [0, 1, 2, 3, 4, 13], [In, PrioIn, Out, Err, Hup, Shutdown];
    assert Flag(named[k]) == {bits[k]};
    assert bits[k] in mask ==> bits[k] in mask * Flag(named[k]);
  }

  lemma MaskIsItsEvents(events: seq<Event>, mask: Mask)
    requires forall e: Event :: InMask(e, mask) <==> e in events && e != NullEvent
    requires mask <= EPOLLIN + EPOLLPRI + EPOLLOUT + EPOLLERR + EPOLLHUP + EPOLLRDHUP
    ensures var bits: seq<Bit>, named := [0, 1, 2, 3, 4, 13], [In, PrioIn, Out, Err, Hup, Shutdown];
      forall b: Bit :: b in mask <==> exists k :: 0 <= k < |bits| && bits[k] == b && named[k] in events
  {
    var bits: seq<Bit>, named := [0, 1, 2, 3, 4, 13], [In, PrioIn, Out, Err, Hup, Shutdown];
    forall k | 0 <= k < |bits|
      ensures bits[k] in mask <==> named[k] in events
    {
      NamedBit(k, mask);
    }
    forall b: Bit | b in mask
      ensures exists k :: 0 <= k < |bits| && bits[k] == b
    {
      assert b in {0, 1, 2, 3, 4, 13};
      assert bits[0] == 0 && bits[1] == 1 && bits[2] == 2 && bits[3] == 3 && bits[4] == 4 && bits[5] == 13;
    }
  }

  lemma AddingFlag(mask: Mask, added: Event, e: Event)
    ensures InMask(e, mask + Flag(added)) <==> InMask(e, mask) || (e == added && e != NullEvent)
  {
    FlagsAreDisjoint(added, e);
    assert (mask + Flag(added)) * Flag(e) == mask * Flag(e) + Flag(added) * Flag(e);
  }

  lemma FlagsAreDisjoint(e: Event, f: Event)
    ensures Flag(e) * Flag(f) != {} <==> e == f && e != NullEvent
  {
    if e == f && e != NullEvent {
      var b :| Flag(e) == {b};
      assert b in Flag(e) * Flag(f);
    }
  }

  function Reported(mask: Mask): set<Event> {
    set e: Event | InMask(e, mask)
  }

  /** Slot k holds the event numbered k + 1 when it is reported, and the null event otherwise. */
  function Slots(reported: set<Event>): (events: seq<Event>)
    ensures |events| == MAX_EVENTS_NO
    ensures forall k :: 0 <= k < MAX_EVENTS_NO ==>
      events[k] == if FromOrdinal(k + 1) in reported then FromOrdinal(k + 1) else NullEvent
  {
    seq(MAX_EVENTS_NO, k requires 0 <= k < MAX_EVENTS_NO =>
      if FromOrdinal(k + 1) in reported then FromOrdinal(k + 1) else NullEvent)
  }

  /** The array getEventsFromMask fills. */
  function EventsFromMask(mask: Mask): seq<Event> {
    Slots(Reported(mask))
  }

  /** getEventsFromMask: one slot for each of the kernel's bits, holding its event or the null event. */
  method GetEventsFromMask(mask: Mask) returns (events: seq<Event>)
    ensures events == EventsFromMask(mask)
    ensures var bits: seq<Bit>, named := [0, 1, 2, 3, 4, 13], [In, PrioIn, Out, Err, Hup, Shutdown];
      |events| == 6 && forall k :: 0 <= k < 6 ==> events[k] == if bits[k] in mask then named[k] else NullEvent
  {
    BitsDecideSlots(mask);
    var arr := new Event[MAX_EVENTS_NO](_ => NullEvent);
    for index := 1 to MAX_EVENTS_NO + 1
      invariant forall k :: 0 <= k < MAX_EVENTS_NO ==>
        arr[k] == if k + 1 < index && InMask(FromOrdinal(k + 1), mask) then FromOrdinal(k + 1) else NullEvent
    {
      if InMask(FromOrdinal(index), mask) {
        arr[index - 1] := FromOrdinal(index);
      }
    }
    events := arr[..];
  }

  lemma BitsDecideSlots(mask: Mask)
    ensures var bits: seq<Bit>, named := [0, 1, 2, 3, 4, 13], [In, PrioIn, Out, Err, Hup, Shutdown];
      forall k :: 0 <= k < 6 ==> EventsFromMask(mask)[k] == if bits[k] in mask then named[k] else NullEvent
  {
    var bits: seq<Bit>, named := [0, 1, 2, 3, 4, 13], [In, PrioIn, Out, Err, Hup, Shutdown];
    forall k | 0 <= k < 6
      ensures EventsFromMask(mask)[k] == if bits[k] in mask then named[k] else NullEvent
    {
      NamedBit(k, mask);
    }
  }

  /** An event found in one slot only is counted once. */
  lemma {:induction false} CountSingleSlot(events: seq<Event>, e: Event, slot: nat)
    requires slot < |events|
    requires forall k :: 0 <= k < |events| && k != slot ==> events[k] != e
    ensures multiset(events)[e] == if events[slot] == e then 1 else 0
  {
    var before, after := events[..slot], events[slot + 1..];
    assert events == before + [events[slot]] + after;
    assert e !in before && e !in after;
  }

  lemma SlotsHoldEachOnce(reported: set<Event>, e: Event)
    requires e != NullEvent
    ensures multiset(Slots(reported))[e] == if e in reported then 1 else 0
  {
    assert FromOrdinal(Ordinal(e)) == e;
    CountSingleSlot(Slots(reported), e, Ordinal(e) - 1);
  }

  /** Every reported event occupies exactly one slot. */
  lemma EachReportedEventOnce(mask: Mask, e: Event)
    requires e != NullEvent
    ensures multiset(EventsFromMask(mask))[e] == if InMask(e, mask) then 1 else 0
  {
    SlotsHoldEachOnce(Reported(mask), e);
  }

  /** The non-null events, in order: what the dispatch loop hands to a handler. */
  function NonNull(events: seq<Event>): seq<Event> {
    if events == [] then []
    else if events[0] == NullEvent then NonNull(events[1..])
    else [events[0]] + NonNull(events[1..])
  }

  /** Skipping the null slots loses no other event, and repeats none. */
  lemma {:induction false} NonNullKeepsOrder(a: seq<Event>, e: Event, b: seq<Event>)
    ensures NonNull(a + [e] + b) == NonNull(a) + (if e == NullEvent then [] else [e]) + NonNull(b)
    decreases |a|
  {
    if a == [] {
      assert (a + [e] + b)[1..] == b;
    } else {
      assert (a + [e] + b)[1..] == a[1..] + [e] + b;
      NonNullKeepsOrder(a[1..], e, b);
    }
  }

  lemma {:induction false} NonNullCounts(events: seq<Event>, e: Event)
    ensures multiset(NonNull(events))[e] == if e == NullEvent then 0 else multiset(events)[e]
  {
    if events != [] {
      NonNullCounts(events[1..], e);
      assert events == [events[0]] + events[1..];
    }
  }
}
