/**
 What reaches the event thread's queue, and how a stop request ends its turns (TransportInfra/Reactor/Reactor.hpp,
 TransportInfra/Reactor/EpollDemultiplexer.h).
 */
module MonitorThread {
  import opened Events
  import opened ReactorTables
  import opened InterleavedReactor

  /** Everything epoll reports is passed on but a hang-up (4) together with input (0): that waits for the input. */
  lemma HangUpWaitsForInput(mask: Mask, b: Bit)
    ensures b in PassedMask(mask) <==> b in mask && !(b == 4 && 0 in mask)
  {
  }

  /** So a handler is never given a hang-up with input, and a hang-up alone always. */
  lemma HangUpComesAlone(mask: Mask)
    ensures var events := EventsFromMask(PassedMask(mask));
      && (Hup in events <==> 4 in mask && 0 !in mask)
      && (In in events <==> 0 in mask)
      && (Err in events <==> 3 in mask)
  {
    var passed, events := PassedMask(mask), EventsFromMask(PassedMask(mask));
    HangUpWaitsForInput(mask, 0);
    HangUpWaitsForInput(mask, 3);
    HangUpWaitsForInput(mask, 4);
    BitsDecideSlots(passed);
    assert events[0] == if 0 in passed then In else NullEvent;
    assert events[3] == if 3 in passed then Err else NullEvent;
    assert events[4] == if 4 in passed then Hup else NullEvent;
  }

  /** The bits passed on. */
  function Passed(mask: Mask): Mask {
    set b | b in mask && !(b == 4 && 0 in mask)
  }

  lemma PassedIsAll(mask: Mask)
    ensures PassedMask(mask) == Passed(mask)
  {
    forall b: Bit
      ensures b in PassedMask(mask) <==> b in Passed(mask)
    {
      HangUpWaitsForInput(mask, b);
    }
  }

  /** What a section pushes: a ready descriptor one notification of its own, a stop request the last one. */
  lemma PushesExactly(s: State, a: Action)
    requires Enabled(s, a)
    ensures Step(s, a).pushed == s.pushed +
      (match a
       case Ready(h, mask) => [Notification(h, Passed(mask), false)]
       case RequestStop => [Notification(-1, {}, true)]
       case _ => [])
    ensures a.Ready? || a.RequestStop? ==> |Step(s, a).queue| == |s.queue| + 1
  {
    assert s.pushed + [] == s.pushed;
    if a.Ready? {
      PassedIsAll(a.mask);
    } else if !a.RequestStop? {
      KeepsPushed(s, a);
    }
  }

  lemma KeepsPushed(s: State, a: Action)
    requires Enabled(s, a) && !a.Ready? && !a.RequestStop?
    ensures Step(s, a).pushed == s.pushed
  {
    if a.Invoke? || a.Advance? {
      CallsLeaveTheEventThread(s, a);
    }
  }

  /** A last notification among those pushed: none behind it is ever consumed. */
  lemma NoTurnBehindTheLast(s: State, j: nat)
    requires HistoryInvariant(s) && j < |s.pushed| && s.pushed[j].last
    ensures |s.history| <= j + 1 && (|s.history| == j + 1 ==> s.event == Stopped)
  {
    if |s.history| > j {
      assert s.history[j].n.last;
    }
  }


  lemma {:induction false} PushedStays(s: State, actions: seq<Action>)
    requires Allowed(s, actions)
    ensures s.pushed <= Exec(s, actions).pushed
    decreases |actions|
  {
    if actions != [] {
      PushesExactly(s, actions[0]);
      PushedStays(Step(s, actions[0]), actions[1..]);
    }
  }

  /**
   A stop request takes its place behind everything pushed before it: the event thread still consumes that, in every
   interleaving consumes nothing pushed later, and has stopped once it has consumed the request.
   */
  lemma {:induction false} StopRequestEndsTheTurns(s: State, actions: seq<Action>)
    requires ReactorInvariant(s) && Enabled(s, RequestStop) && Allowed(Step(s, RequestStop), actions)
    ensures var q := Exec(Step(s, RequestStop), actions);
      |q.history| <= |s.pushed| + 1 && (|q.history| == |s.pushed| + 1 ==> q.event == Stopped)
  {
    var t := Step(s, RequestStop);
    PushesExactly(s, RequestStop);
    StepKeepsInvariant(s, RequestStop);
    EveryInterleaving(t, actions);
    PushedStays(t, actions);
    var q := Exec(t, actions);
    assert q.pushed[|s.pushed|] == t.pushed[|s.pushed|];
    NoTurnBehindTheLast(q, |s.pushed|);
  }

  /** The event thread, once stopped, takes no further step; before that only an empty queue or a lock holds it up. */
  lemma HeldUpExactlyWhen(s: State)
    requires ReactorInvariant(s) && !s.undefined
    ensures (forall order, answer :: !Enabled(s, EventAdvance(order, answer))) <==>
      || s.event == Stopped
      || (s.event == Waiting && s.queue == [])
      || (EventNeedsTable(s.event) && s.tableLock.Some?)
  {
    if s.event != Stopped && (s.event == Waiting ==> s.queue != [])
       && (EventNeedsTable(s.event) ==> s.tableLock.None?) {
      var order := if s.event.Entering? then EventsFromMask(s.event.n.mask) else [];
      assert Enabled(s, EventAdvance(order, Success));
    }
  }
}
