/** The child-process executor of the ARM64 runner: how many children are pending, when a
    callback is delivered, and what `drained` means, for every order of events. */
module Executor {
  import opened Sequences

  /** `troubled` records a kill, a signal or an error after the child had a pid. */
  datatype Child = Child(closed: bool, answered: bool, troubled: bool)

  datatype State = State(pending: int, uncertain: bool, children: map<nat, Child>, delivered: seq<nat>)

  const EMPTY: State := State(0, false, map[], [])

  /** Events of Node's child processes; an unknown or repeated id is ignored. */
  datatype Event =
    | Started(id: nat)
    | StartThrew
    | Callback(id: nat, killedOrSignalled: bool)
    | Closed(id: nat)
    | Errored(id: nat, hasPid: bool)

  predicate Ready(children: map<nat, Child>, id: nat) {
    id in children && children[id].closed && children[id].answered
  }

  /** Calls back a child that is closed, answered and was not called back before. */
  function Deliver(s: State, id: nat): (t: State) {
    if Ready(s.children, id) && id !in s.delivered then s.(delivered := s.delivered + [id]) else s
  }

  function Apply(s: State, e: Event): (t: State) {
    match e
    case Started(id) =>
      if id in s.children then s
      else s.(pending := s.pending + 1, children := s.children[id := Child(false, false, false)])
    case StartThrew => s
    case Callback(id, bad) =>
      if id !in s.children then s
      else
        var child := s.children[id].(answered := true, troubled := s.children[id].troubled || bad);
        Deliver(s.(uncertain := s.uncertain || bad, children := s.children[id := child]), id)
    case Closed(id) =>
      if id !in s.children || s.children[id].closed then s
      else Deliver(s.(pending := s.pending - 1, children := s.children[id := s.children[id].(closed := true)]), id)
    case Errored(id, hasPid) =>
      if id !in s.children || !hasPid then s
      else s.(uncertain := true, children := s.children[id := s.children[id].(troubled := true)])
  }

  function Run(s: State, events: seq<Event>): (t: State)
    decreases |events|
  {
    if events == [] then s else Run(Apply(s, events[0]), events[1..])
  }

  predicate Drained(s: State) {
    s.pending == 0 && !s.uncertain
  }

  // ----- what every event keeps -----

  ghost function Open(children: map<nat, Child>): (s: set<nat>) {
    set id | id in children && !children[id].closed
  }

  ghost predicate SomeTroubled(children: map<nat, Child>) {
    exists id :: id in children && children[id].troubled
  }

  /** Every callback was delivered exactly once, for exactly the children that are ready. */
  ghost predicate Settled(s: State) {
    NoDuplicates(s.delivered) && forall id :: id in s.delivered <==> Ready(s.children, id)
  }

  /** Pending counts the open children and uncertainty means some child's trouble. */
  ghost predicate Inv(s: State) {
    && s.pending == |Open(s.children)|
    && (s.uncertain <==> SomeTroubled(s.children))
    && Settled(s)
  }

  lemma OpenAfter(children: map<nat, Child>, id: nat, child: Child)
    ensures |Open(children[id := child])|
         == |Open(children)| - (if id in Open(children) then 1 else 0) + (if child.closed then 0 else 1)
  {
    var others := Open(children) - {id};
    assert Open(children[id := child]) == if child.closed then others else others + {id};
    assert Open(children) == if id in Open(children) then others + {id} else others;
  }

  lemma TroubleAfter(children: map<nat, Child>, id: nat, child: Child)
    requires id in children && children[id].troubled ==> child.troubled
    ensures SomeTroubled(children[id := child]) <==> SomeTroubled(children) || child.troubled
  {
    var updated := children[id := child];
    assert updated[id] == child;
    if SomeTroubled(children) {
      var k :| k in children && children[k].troubled;
      assert k in updated && updated[k].troubled;
    }
  }

  lemma DeliverSettles(s: State, id: nat)
    requires NoDuplicates(s.delivered)
    requires forall k | k != id :: k in s.delivered <==> Ready(s.children, k)
    requires id in s.delivered ==> Ready(s.children, id)
    ensures Settled(Deliver(s, id))
    ensures Deliver(s, id).(delivered := s.delivered) == s
  {
  }

  lemma UpdateKeeps(s: State, id: nat, child: Child, pending: int, uncertain: bool)
    requires Inv(s) && (id in s.children ==>
               && (s.children[id].troubled ==> child.troubled)
               && (s.children[id].closed ==> child.closed) && (s.children[id].answered ==> child.answered))
    requires pending == s.pending - (if id in Open(s.children) then 1 else 0) + (if child.closed then 0 else 1)
    requires uncertain <==> s.uncertain || child.troubled
    ensures Inv(Deliver(State(pending, uncertain, s.children[id := child], s.delivered), id))
  {
    OpenAfter(s.children, id, child);
    TroubleAfter(s.children, id, child);
    var t := State(pending, uncertain, s.children[id := child], s.delivered);
    forall k | k != id
      ensures k in t.delivered <==> Ready(t.children, k)
    {
      assert Ready(t.children, k) <==> Ready(s.children, k);
    }
    DeliverSettles(t, id);
  }

  lemma ApplyKeeps(s: State, e: Event)
    requires Inv(s)
    ensures Inv(Apply(s, e))
  {
    match e {
      case Started(id) =>
        if id !in s.children {
          UpdateKeeps(s, id, Child(false, false, false), s.pending + 1, s.uncertain);
        }
      case StartThrew =>
      case Callback(id, bad) =>
        if id in s.children {
          var child := s.children[id].(answered := true, troubled := s.children[id].troubled || bad);
          UpdateKeeps(s, id, child, s.pending, s.uncertain || bad);
        }
      case Closed(id) =>
        if id in s.children && !s.children[id].closed {
          UpdateKeeps(s, id, s.children[id].(closed := true), s.pending - 1, s.uncertain);
        }
      case Errored(id, hasPid) =>
        if id in s.children && hasPid {
          UpdateKeeps(s, id, s.children[id].(troubled := true), s.pending, true);
        }
    }
  }

  lemma {:induction false} RunKeeps(s: State, events: seq<Event>)
    requires Inv(s)
    ensures Inv(Run(s, events))
    decreases |events|
  {
    if events != [] {
      ApplyKeeps(s, events[0]);
      RunKeeps(Apply(s, events[0]), events[1..]);
    }
  }

  /** For every order of events: pending is the number of started children not yet closed,
      each child that closed and answered was called back exactly once and no other child
      was, and the executor is drained exactly when every child
      closed and none was killed, signalled or errored after it had a pid. */
  lemma DrainedExactlyWhen(events: seq<Event>)
    ensures var s := Run(EMPTY, events);
            && s.pending == |Open(s.children)|
            && Settled(s)
            && (Drained(s) <==> forall id | id in s.children :: s.children[id].closed && !s.children[id].troubled)
  {
    RunKeeps(EMPTY, events);
    var s := Run(EMPTY, events);
    if s.pending != 0 {
      assert Open(s.children) != {};
      var id :| id in Open(s.children);
    } else {
      assert Open(s.children) == {};
      forall id | id in s.children
        ensures s.children[id].closed
      {
        assert id !in Open(s.children);
      }
    }
    if s.uncertain {
      var id :| id in s.children && s.children[id].troubled;
    }
  }

  // ----- what a run of events means for one child -----

  /** One of the first `n` events starts the child. */
  ghost predicate Born(events: seq<Event>, id: nat, n: nat) {
    exists i :: 0 <= i < n <= |events| && events[i] == Started(id)
  }

  /** After its start the child closed. */
  ghost predicate DidClose(events: seq<Event>, id: nat) {
    exists j :: 0 <= j < |events| && events[j] == Closed(id) && Born(events, id, j)
  }

  /** After its start its result came. */
  ghost predicate DidAnswer(events: seq<Event>, id: nat) {
    exists j :: 0 <= j < |events| && events[j].Callback? && events[j].id == id && Born(events, id, j)
  }

  /** After its start it was killed or signalled, or it errored with a pid. */
  ghost predicate HadTrouble(events: seq<Event>, id: nat) {
    exists j :: 0 <= j < |events| && (events[j] == Callback(id, true) || events[j] == Errored(id, true)) && Born(events, id, j)
  }

  /** The recorded child is what the events say about it. */
  ghost predicate Told(children: map<nat, Child>, events: seq<Event>, id: nat) {
    && (id in children <==> Born(events, id, |events|))
    && (id in children ==>
        && (children[id].closed <==> DidClose(events, id))
        && (children[id].answered <==> DidAnswer(events, id))
        && (children[id].troubled <==> HadTrouble(events, id)))
  }

  lemma BornAppend(front: seq<Event>, e: Event, id: nat, n: nat)
    requires n <= |front|
    ensures Born(front + [e], id, n) <==> Born(front, id, n)
    ensures Born(front + [e], id, |front| + 1) <==> Born(front, id, |front|) || e == Started(id)
  {
    var events := front + [e];
    if Born(front, id, n) {
      var i :| 0 <= i < n && front[i] == Started(id);
      assert events[i] == Started(id);
    }
    if Born(events, id, n) {
      var i :| 0 <= i < n && events[i] == Started(id);
      assert front[i] == Started(id);
    }
    if Born(front, id, |front|) {
      var i :| 0 <= i < |front| && front[i] == Started(id);
      assert events[i] == Started(id);
    }
    if e == Started(id) {
      assert events[|front|] == Started(id);
    }
  }

  lemma BornLater(events: seq<Event>, id: nat, n: nat)
    requires n <= |events|
    ensures Born(events, id, n) ==> Born(events, id, |events|)
  {
  }

  lemma ClosedAppend(front: seq<Event>, e: Event, id: nat)
    ensures DidClose(front + [e], id) <==> DidClose(front, id) || (e == Closed(id) && Born(front, id, |front|))
  {
    var events := front + [e];
    forall j | 0 <= j <= |front|
      ensures Born(events, id, j) <==> Born(front, id, j)
    {
      BornAppend(front, e, id, j);
    }
    if DidClose(front, id) {
      var j :| 0 <= j < |front| && front[j] == Closed(id) && Born(front, id, j);
      assert events[j] == Closed(id) && Born(events, id, j);
    }
    if e == Closed(id) && Born(front, id, |front|) {
      assert events[|front|] == Closed(id) && Born(events, id, |front|);
    }
  }

  lemma AnsweredAppend(front: seq<Event>, e: Event, id: nat)
    ensures DidAnswer(front + [e], id) <==>
              DidAnswer(front, id) || (e.Callback? && e.id == id && Born(front, id, |front|))
  {
    var events := front + [e];
    forall j | 0 <= j <= |front|
      ensures Born(events, id, j) <==> Born(front, id, j)
    {
      BornAppend(front, e, id, j);
    }
    if DidAnswer(front, id) {
      var j :| 0 <= j < |front| && front[j].Callback? && front[j].id == id && Born(front, id, j);
      assert events[j] == front[j] && Born(events, id, j);
    }
    if e.Callback? && e.id == id && Born(front, id, |front|) {
      assert events[|front|] == e && Born(events, id, |front|);
    }
  }

  lemma TroubledAppend(front: seq<Event>, e: Event, id: nat)
    ensures HadTrouble(front + [e], id) <==>
              HadTrouble(front, id) || ((e == Callback(id, true) || e == Errored(id, true)) && Born(front, id, |front|))
  {
    var events := front + [e];
    forall j | 0 <= j <= |front|
      ensures Born(events, id, j) <==> Born(front, id, j)
    {
      BornAppend(front, e, id, j);
    }
    if HadTrouble(front, id) {
      var j :| 0 <= j < |front| && (front[j] == Callback(id, true) || front[j] == Errored(id, true)) && Born(front, id, j);
      assert events[j] == front[j] && Born(events, id, j);
    }
    if (e == Callback(id, true) || e == Errored(id, true)) && Born(front, id, |front|) {
      assert events[|front|] == e && Born(events, id, |front|);
    }
  }

  lemma {:induction false} RunAppend(s: State, front: seq<Event>, e: Event)
    ensures Run(s, front + [e]) == Apply(Run(s, front), e)
    decreases |front|
  {
    var events := front + [e];
    if front == [] {
      assert events[1..] == [];
      assert Run(s, events) == Run(Apply(s, e), []);
    } else {
      assert events[1..] == front[1..] + [e];
      RunAppend(Apply(s, front[0]), front[1..], e);
    }
  }

  lemma {:induction false} EventsTold(events: seq<Event>, id: nat)
    ensures Told(Run(EMPTY, events).children, events, id)
    decreases |events|
  {
    if events != [] {
      var front, e := events[..|events| - 1], events[|events| - 1];
      assert events == front + [e];
      EventsTold(front, id);
      RunAppend(EMPTY, front, e);
      BornAppend(front, e, id, |front|);
      ClosedAppend(front, e, id);
      AnsweredAppend(front, e, id);
      TroubledAppend(front, e, id);
      if !Born(front, id, |front|) {
        NothingBefore(front, id);
      }
    }
  }

  /** Nothing happens to a child before its start. */
  lemma NothingBefore(events: seq<Event>, id: nat)
    requires !Born(events, id, |events|)
    ensures !DidClose(events, id) && !DidAnswer(events, id) && !HadTrouble(events, id)
  {
    forall j: nat | j < |events|
      ensures !Born(events, id, j)
    {
      BornLater(events, id, j);
    }
  }

  /** For every order of events the executor is drained exactly when every child that was
      started closed afterwards, and after no start came a kill, a signal, or an error of a
      child that had a pid. */
  lemma DrainedByEvents(events: seq<Event>)
    ensures Drained(Run(EMPTY, events)) <==>
              forall id | Born(events, id, |events|) :: DidClose(events, id) && !HadTrouble(events, id)
  {
    DrainedExactlyWhen(events);
    var s := Run(EMPTY, events);
    forall id
      ensures id in s.children <==> Born(events, id, |events|)
      ensures id in s.children ==>
                (s.children[id].closed <==> DidClose(events, id)) && (s.children[id].troubled <==> HadTrouble(events, id))
    {
      EventsTold(events, id);
    }
    if forall id | Born(events, id, |events|) :: DidClose(events, id) && !HadTrouble(events, id) {
      assert forall id | id in s.children :: s.children[id].closed && !s.children[id].troubled;
    }
    if Drained(s) {
      forall id | Born(events, id, |events|)
        ensures DidClose(events, id) && !HadTrouble(events, id)
      {
        assert id in s.children;
      }
    }
  }

  /** And a child is called back exactly when it closed and its result came, both after its
      start. */
  lemma DeliveredByEvents(events: seq<Event>, id: nat)
    ensures id in Run(EMPTY, events).delivered <==> DidClose(events, id) && DidAnswer(events, id)
  {
    DrainedExactlyWhen(events);
    EventsTold(events, id);
    if !Born(events, id, |events|) {
      NothingBefore(events, id);
    }
  }

  // ----- the executor -----

  class NodeExecutor {
    var pending: int
    var uncertain: bool
    var children: map<nat, Child>
    var delivered: seq<nat>

    ghost function View(): State
      reads this
    {
      State(pending, uncertain, children, delivered)
    }

    constructor ()
      ensures View() == EMPTY
    {
      pending, uncertain, children, delivered := 0, false, map[], [];
    }

    /** `execFile`: the count goes up first and comes down again if the spawn throws. */
    method ExecFile(id: nat, throws: bool)
      requires id !in children
      modifies this
      ensures View() == Apply(old(View()), if throws then StartThrew else Started(id))
    {
      pending := pending + 1;
      if throws {
        pending := pending - 1;
        return;
      }
      children := children[id := Child(false, false, false)];
    }

    method TryDeliver(id: nat)
      requires id in children
      modifies this`delivered
      ensures View() == Deliver(old(View()), id)
    {
      if id !in delivered && children[id].closed && children[id].answered {
        delivered := delivered + [id];
      }
    }

    method OnCallback(id: nat, killedOrSignalled: bool)
      requires id in children
      modifies this
      ensures View() == Apply(old(View()), Callback(id, killedOrSignalled))
    {
      if killedOrSignalled {
        uncertain := true;
      }
      children := children[id := children[id].(answered := true, troubled := children[id].troubled || killedOrSignalled)];
      TryDeliver(id);
    }

    method OnClose(id: nat)
      requires id in children && !children[id].closed
      modifies this
      ensures View() == Apply(old(View()), Closed(id))
    {
      children := children[id := children[id].(closed := true)];
      pending := pending - 1;
      TryDeliver(id);
    }

    method OnError(id: nat, hasPid: bool)
      requires id in children
      modifies this
      ensures View() == Apply(old(View()), Errored(id, hasPid))
    {
      if hasPid {
        uncertain := true;
        children := children[id := children[id].(troubled := true)];
      }
    }

    method IsDrained() returns (drained: bool)
      ensures drained <==> Drained(View())
    {
      drained := pending == 0 && !uncertain;
    }
  }
}
