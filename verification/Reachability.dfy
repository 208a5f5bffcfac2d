/** Runs of the interleaved reactor as a relation between states, and those in which one thread moves alone. */
module Reachability {
  import opened InterleavedReactor

  ghost predicate Reaches(s: State, s': State) {
    exists actions :: Allowed(s, actions) && Exec(s, actions) == s'
  }

  /** Who takes a step: a thread in a public call, or the event thread. */
  datatype Agent = Caller(tid: ThreadId) | EventThread

  predicate ActsFor(a: Action, who: Agent) {
    match who
    case Caller(tid) => (a.Invoke? || a.Advance?) && a.tid == tid
    case EventThread => a.EventAdvance?
  }

  predicate OnlyBy(actions: seq<Action>, who: Agent) {
    forall i :: 0 <= i < |actions| ==> ActsFor(actions[i], who)
  }

  /** The state is reached while nobody else moves. */
  ghost predicate ReachesAlone(who: Agent, s: State, s': State) {
    exists actions :: OnlyBy(actions, who) && Allowed(s, actions) && Exec(s, actions) == s'
  }

  lemma {:induction false} ExecAppend(s: State, a: seq<Action>, b: seq<Action>)
    requires Allowed(s, a) && Allowed(Exec(s, a), b)
    ensures Allowed(s, a + b) && Exec(s, a + b) == Exec(Exec(s, a), b)
    decreases |a|
  {
    if a == [] {
      assert a + b == b;
    } else {
      ExecAppend(Step(s, a[0]), a[1..], b);
      assert (a + b)[1..] == a[1..] + b;
    }
  }

  lemma ExecOne(s: State, a: Action)
    requires Enabled(s, a)
    ensures Allowed(s, [a]) && Exec(s, [a]) == Step(s, a)
  {
    var s' := Step(s, a);
    assert Allowed(s', []) && Exec(s', []) == s';
    assert [a][1..] == [];
  }

  lemma ReachesOne(s: State, a: Action)
    requires Enabled(s, a)
    ensures Reaches(s, Step(s, a))
  {
    ExecOne(s, a);
  }

  lemma ReachesThrough(s: State, middle: State, s': State)
    requires Reaches(s, middle) && Reaches(middle, s')
    ensures Reaches(s, s')
  {
    var a :| Allowed(s, a) && Exec(s, a) == middle;
    var b :| Allowed(middle, b) && Exec(middle, b) == s';
    ExecAppend(s, a, b);
  }

  lemma AloneOne(who: Agent, s: State, a: Action)
    requires Enabled(s, a) && ActsFor(a, who)
    ensures ReachesAlone(who, s, Step(s, a))
  {
    ExecOne(s, a);
    assert OnlyBy([a], who);
  }

  lemma AloneThrough(who: Agent, s: State, middle: State, s': State)
    requires ReachesAlone(who, s, middle) && ReachesAlone(who, middle, s')
    ensures ReachesAlone(who, s, s')
  {
    var a :| OnlyBy(a, who) && Allowed(s, a) && Exec(s, a) == middle;
    var b :| OnlyBy(b, who) && Allowed(middle, b) && Exec(middle, b) == s';
    ExecAppend(s, a, b);
    assert OnlyBy(a + b, who);
  }

  lemma AloneReaches(who: Agent, s: State, s': State)
    requires ReachesAlone(who, s, s')
    ensures Reaches(s, s')
  {
  }

  lemma ReachableKeepsInvariant(s: State, s': State)
    requires ReactorInvariant(s) && Reaches(s, s')
    ensures ReactorInvariant(s')
  {
    var a :| Allowed(s, a) && Exec(s, a) == s';
    EveryInterleaving(s, a);
  }
}
