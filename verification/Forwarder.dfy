/** The UDP forwarder between a resolver and an owned DNS server: one upstream socket per
    query, responses passed on unchanged after they were verified against their query. */
module Forwarder {
  import opened Wrappers
  import opened Sequences
  import opened DnsQuestion

  /** A socket waits for its one response, refuses it, or passes it on; `sent` says how the
      send towards the resolver ended. */
  datatype Phase = Waiting | Refused | Sending(response: seq<byte>) | Answered(response: seq<byte>, sent: bool)

  datatype Socket = Socket(query: seq<byte>, name: string, phase: Phase, closeRequested: bool)

  /** `sockets` are all sockets ever created and `clients` those whose close event is still
      to come. */
  datatype Pool = Pool(sockets: map<nat, Socket>, clients: set<nat>)

  datatype Counters = Counters(requests: nat, forwarded: nat)

  /** `replies` logs the sockets whose response was handed to `server.send`, in order. */
  datatype State = State(closing: bool, failed: bool, counters: Counters, pool: Pool, replies: seq<nat>)

  const EMPTY: State := State(false, false, Counters(0, 0), Pool(map[], {}), [])

  datatype Event =
    | Query(id: nat, query: seq<byte>, loopback: bool, allowedName: string)
    | Response(id: nat, response: seq<byte>)
    | SendDone(id: nat, error: bool)
    | Trouble(id: nat)
    | SocketClosed(id: nat)
    | ServerError
    | CloseCalled

  /** A query is accepted from the loopback for exactly the allowed name. */
  predicate AcceptsQuery(query: seq<byte>, loopback: bool, allowedName: string) {
    Question(query) == Some(allowedName) && loopback && query[2] < 128
  }

  function Put(s: State, id: nat, k: Socket): (t: State) {
    s.(pool := s.pool.(sockets := s.pool.sockets[id := k]))
  }

  function Open(s: State, id: nat, query: seq<byte>, name: string): (t: State) {
    s.(counters := s.counters.(requests := s.counters.requests + 1),
       pool := Pool(s.pool.sockets[id := Socket(query, name, Waiting, false)], s.pool.clients + {id}))
  }

  function Pass(s: State, id: nat, response: seq<byte>): (t: State)
    requires id in s.pool.sockets
  {
    Put(s.(replies := s.replies + [id]), id, s.pool.sockets[id].(phase := Sending(response)))
  }

  function Refuse(s: State, id: nat): (t: State)
    requires id in s.pool.sockets
  {
    Put(s.(failed := true), id, s.pool.sockets[id].(phase := Phase.Refused, closeRequested := true))
  }

  function Finish(s: State, id: nat, error: bool): (t: State)
    requires id in s.pool.sockets && s.pool.sockets[id].phase.Sending?
  {
    var k := s.pool.sockets[id];
    var done := k.(phase := Answered(k.phase.response, !error), closeRequested := true);
    if error then Put(s.(failed := true), id, done)
    else Put(s.(counters := s.counters.(forwarded := s.counters.forwarded + 1)), id, done)
  }

  function Fail(s: State, id: nat): (t: State)
    requires id in s.pool.sockets
  {
    Put(s.(failed := true), id, s.pool.sockets[id].(closeRequested := true))
  }

  /** `closeOwned` on the given clients. */
  function CloseOwned(sockets: map<nat, Socket>, which: set<nat>): (closed: map<nat, Socket>) {
    map id | id in sockets :: if id in which then sockets[id].(closeRequested := true) else sockets[id]
  }

  function BeginClose(s: State): (t: State) {
    s.(closing := true, pool := s.pool.(sockets := CloseOwned(s.pool.sockets, s.pool.clients)))
  }

  function Remove(s: State, id: nat): (t: State) {
    s.(pool := s.pool.(clients := s.pool.clients - {id}))
  }

  predicate Awaits(s: State, id: nat) {
    id in s.pool.sockets && s.pool.sockets[id].phase.Waiting? && !s.pool.sockets[id].closeRequested
  }

  function Apply(s: State, e: Event): (t: State) {
    match e
    case Query(id, query, loopback, allowedName) =>
      if s.closing || id in s.pool.sockets then s
      else if AcceptsQuery(query, loopback, allowedName) then Open(s, id, query, allowedName)
      else s.(failed := true)
    case Response(id, response) =>
      // A closed socket delivers nothing, and only the first message is listened for.
      if !Awaits(s, id) then s
      else if VerifyDatagrams(s.pool.sockets[id].query, response, s.pool.sockets[id].name)
      then Pass(s, id, response) else Refuse(s, id)
    case SendDone(id, error) =>
      if id in s.pool.sockets && s.pool.sockets[id].phase.Sending? then Finish(s, id, error) else s
    case Trouble(id) =>
      // Its timer, a socket error or a failed query send.
      if id in s.pool.sockets then Fail(s, id) else s
    case SocketClosed(id) =>
      if id in s.pool.sockets && s.pool.sockets[id].closeRequested then Remove(s, id) else s
    case ServerError => s.(failed := true)
    case CloseCalled => BeginClose(s)
  }

  function Run(s: State, events: seq<Event>): (t: State)
    decreases |events|
  {
    if events == [] then s else Run(Apply(s, events[0]), events[1..])
  }

  /** `close()` succeeds once every client socket closed, unless something failed. */
  predicate CloseSucceeds(s: State) {
    s.closing && s.pool.clients == {} && !s.failed
  }

  // ----- the invariant -----

  predicate Forwarded(k: Socket) {
    k.phase.Answered? && k.phase.sent
  }

  predicate Replied(k: Socket) {
    k.phase.Sending? || k.phase.Answered?
  }

  ghost function Done(sockets: map<nat, Socket>): (s: set<nat>) {
    set id | id in sockets && Forwarded(sockets[id])
  }

  ghost function Incomplete(sockets: map<nat, Socket>): (s: set<nat>) {
    set id | id in sockets && !Forwarded(sockets[id])
  }

  /** The counters count. */
  ghost predicate Counted(s: State) {
    && s.counters.requests == |s.pool.sockets.Keys|
    && s.counters.forwarded == |Done(s.pool.sockets)|
  }

  /** The log names each replied socket once. */
  ghost predicate Logged(s: State) {
    NoDuplicates(s.replies)
    && forall id :: id in s.replies <==> id in s.pool.sockets && Replied(s.pool.sockets[id])
  }

  /** While nothing failed an incomplete socket of an open forwarder is still a client. */
  predicate Attached(s: State, id: nat)
    requires id in s.pool.sockets
  {
    var k := s.pool.sockets[id];
    && (id !in s.pool.clients ==> k.closeRequested)
    && (s.closing && k.phase.Waiting? ==> k.closeRequested)
    && (!s.failed ==> !k.phase.Refused? && (k.phase.Answered? ==> k.phase.sent))
    && (!s.failed && !s.closing && !Forwarded(k) ==> !k.closeRequested)
  }

  ghost predicate AllAttached(s: State) {
    s.pool.clients <= s.pool.sockets.Keys && forall id | id in s.pool.sockets :: Attached(s, id)
  }

  /** A socket passes on only a response that was verified against its own query. */
  predicate Verified(k: Socket) {
    Replied(k) ==> VerifyDatagrams(k.query, k.phase.response, k.name)
  }

  ghost predicate AllVerified(sockets: map<nat, Socket>) {
    forall id | id in sockets :: Verified(sockets[id])
  }

  ghost predicate Inv(s: State) {
    Counted(s) && Logged(s) && AllAttached(s) && AllVerified(s.pool.sockets)
  }

  // ----- what every event does -----

  /** A datagram is a query of the loopback for exactly the allowed name. */
  predicate RightQuery(query: seq<byte>, loopback: bool, allowedName: string) {
    loopback && Question(query) == Some(allowedName) && U16(query, 2) / 0x8000 == 0
  }

  lemma QueryBit(query: seq<byte>)
    requires |query| >= 4
    ensures U16(query, 2) / 0x8000 == 0 <==> query[2] < 128
  {
  }

  /** The failure flag is raised exactly by a listener error, a wrong query, a response that
      does not verify against its socket's query, a send that fails, and a socket in trouble;
      it is never lowered. */
  lemma FailsExactlyWhen(s: State, e: Event)
    ensures Apply(s, e).failed <==>
              || s.failed || e.ServerError?
              || (e.Query? && !s.closing && e.id !in s.pool.sockets && !RightQuery(e.query, e.loopback, e.allowedName))
              || (e.Response? && Awaits(s, e.id)
                  && !VerifyDatagrams(s.pool.sockets[e.id].query, e.response, s.pool.sockets[e.id].name))
              || (e.SendDone? && e.error && e.id in s.pool.sockets && s.pool.sockets[e.id].phase.Sending?)
              || (e.Trouble? && e.id in s.pool.sockets)
  {
    if e.Query? && Question(e.query) == Some(e.allowedName) {
      QueryBit(e.query);
    }
  }

  /** A right query of an open forwarder is counted once, and waits on a client of its own;
      nothing else is counted. */
  lemma RequestsExactly(s: State, e: Event)
    ensures var t := Apply(s, e);
            var counted := e.Query? && !s.closing && e.id !in s.pool.sockets && RightQuery(e.query, e.loopback, e.allowedName);
            && t.counters.requests == s.counters.requests + (if counted then 1 else 0)
            && (counted ==> e.id in t.pool.clients
                            && t.pool.sockets == s.pool.sockets[e.id := Socket(e.query, e.allowedName, Waiting, false)])
            && (!counted ==> t.pool.sockets.Keys == s.pool.sockets.Keys)
  {
    if e.Query? && Question(e.query) == Some(e.allowedName) {
      QueryBit(e.query);
    }
  }

  /** A response is handed on, unchanged, exactly if it is the first of its open socket and
      verifies; it counts as forwarded exactly when that send ends without an error. */
  lemma RepliesExactly(s: State, e: Event)
    ensures var t := Apply(s, e);
            var passed := e.Response? && Awaits(s, e.id)
                          && VerifyDatagrams(s.pool.sockets[e.id].query, e.response, s.pool.sockets[e.id].name);
            && t.replies == s.replies + (if passed then [e.id] else [])
            && (passed ==> t.pool.sockets[e.id] == s.pool.sockets[e.id].(phase := Sending(e.response)))
            && t.counters.forwarded == s.counters.forwarded
               + (if e.SendDone? && !e.error && e.id in s.pool.sockets && s.pool.sockets[e.id].phase.Sending? then 1 else 0)
  {
  }

  /** The sockets an event asks to close: a refused one, one whose send ended, one in trouble,
      and on `close` every client. */
  ghost function AskedToClose(s: State, e: Event): (ids: set<nat>) {
    if e.CloseCalled? then s.pool.clients * s.pool.sockets.Keys
    else if e.Response? && Awaits(s, e.id)
            && !VerifyDatagrams(s.pool.sockets[e.id].query, e.response, s.pool.sockets[e.id].name) then {e.id}
    else if e.SendDone? && e.id in s.pool.sockets && s.pool.sockets[e.id].phase.Sending? then {e.id}
    else if e.Trouble? && e.id in s.pool.sockets then {e.id}
    else {}
  }

  lemma ClosesExactly(s: State, e: Event)
    ensures forall id | id in s.pool.sockets && id in Apply(s, e).pool.sockets ::
              Apply(s, e).pool.sockets[id].closeRequested <==> s.pool.sockets[id].closeRequested || id in AskedToClose(s, e)
  {
  }

  /** A client goes exactly when the close event of a socket comes that was asked to close. */
  lemma ClientsExactly(s: State, e: Event)
    ensures var t := Apply(s, e);
            && (t.closing <==> s.closing || e.CloseCalled?)
            && (!e.Query? ==>
                t.pool.clients == s.pool.clients
                  - (if e.SocketClosed? && e.id in s.pool.sockets && s.pool.sockets[e.id].closeRequested then {e.id} else {}))
  {
  }

  // ----- what every event keeps -----

  lemma DoneAfter(sockets: map<nat, Socket>, id: nat, k: Socket)
    ensures |Done(sockets[id := k])|
         == |Done(sockets)| - (if id in Done(sockets) then 1 else 0) + (if Forwarded(k) then 1 else 0)
  {
    var others := Done(sockets) - {id};
    assert Done(sockets[id := k]) == if Forwarded(k) then others + {id} else others;
    assert Done(sockets) == if id in Done(sockets) then others + {id} else others;
  }

  lemma CountAfter(s: State, t: State, id: nat)
    requires Counted(s) && id in t.pool.sockets
    requires t.pool.sockets == s.pool.sockets[id := t.pool.sockets[id]]
    requires t.counters.requests == s.counters.requests + (if id in s.pool.sockets then 0 else 1)
    requires t.counters.forwarded == s.counters.forwarded
           - (if id in Done(s.pool.sockets) then 1 else 0) + (if Forwarded(t.pool.sockets[id]) then 1 else 0)
    ensures Counted(t)
  {
    DoneAfter(s.pool.sockets, id, t.pool.sockets[id]);
    assert t.pool.sockets.Keys == s.pool.sockets.Keys + {id};
    assert id in s.pool.sockets ==> t.pool.sockets.Keys == s.pool.sockets.Keys;
  }

  lemma EventKeepsCount(s: State, e: Event)
    requires Counted(s)
    ensures Counted(Apply(s, e))
  {
    var t := Apply(s, e);
    if e.CloseCalled? {
      assert t.pool.sockets.Keys == s.pool.sockets.Keys;
      assert Done(t.pool.sockets) == Done(s.pool.sockets);
    } else if t.pool.sockets != s.pool.sockets {
      CountAfter(s, t, e.id);
    }
  }

  lemma LogAfter(s: State, t: State, id: nat)
    requires Logged(s) && id in t.pool.sockets
    requires t.pool.sockets == s.pool.sockets[id := t.pool.sockets[id]]
    requires || (t.replies == s.replies && (Replied(t.pool.sockets[id]) <==> id in s.replies))
             || (t.replies == s.replies + [id] && id !in s.replies && Replied(t.pool.sockets[id]))
    ensures Logged(t)
  {
  }

  lemma EventKeepsLog(s: State, e: Event)
    requires Logged(s)
    ensures Logged(Apply(s, e))
  {
    var t := Apply(s, e);
    if !e.CloseCalled? && t.pool.sockets != s.pool.sockets {
      LogAfter(s, t, e.id);
    }
  }

  lemma EventKeepsAttached(s: State, e: Event)
    requires AllAttached(s)
    ensures AllAttached(Apply(s, e))
  {
    var t := Apply(s, e);
    forall id | id in t.pool.sockets
      ensures Attached(t, id)
    {
      if id in s.pool.sockets {
        assert Attached(s, id);
      }
    }
  }

  lemma EventKeepsVerified(s: State, e: Event)
    requires AllVerified(s.pool.sockets)
    ensures AllVerified(Apply(s, e).pool.sockets)
  {
    var t := Apply(s, e);
    forall id | id in t.pool.sockets
      ensures Verified(t.pool.sockets[id])
    {
      if id in s.pool.sockets {
        assert Verified(s.pool.sockets[id]);
      }
    }
  }

  lemma EventKeeps(s: State, e: Event)
    requires Inv(s)
    ensures Inv(Apply(s, e))
  {
    EventKeepsCount(s, e);
    EventKeepsLog(s, e);
    EventKeepsAttached(s, e);
    EventKeepsVerified(s, e);
  }

  lemma {:induction false} RunKeeps(s: State, events: seq<Event>)
    requires Inv(s)
    ensures Inv(Run(s, events))
    decreases |events|
  {
    if events != [] {
      EventKeeps(s, events[0]);
      RunKeeps(Apply(s, events[0]), events[1..]);
    }
  }

  lemma EmptyInv()
    ensures Inv(EMPTY)
  {
  }

  lemma Partition(sockets: map<nat, Socket>)
    ensures |sockets.Keys| == |Done(sockets)| + |Incomplete(sockets)|
  {
    assert sockets.Keys == Done(sockets) + Incomplete(sockets);
  }

  lemma AttachedIncomplete(s: State)
    requires AllAttached(s) && !s.failed && !s.closing
    ensures Incomplete(s.pool.sockets) <= s.pool.clients
  {
    forall id | id in Incomplete(s.pool.sockets)
      ensures id in s.pool.clients
    {
      assert Attached(s, id);
    }
  }

  /** Conservation, in every reachable state: no more is forwarded than was requested; a
      socket replies at most once, and only with a response verified against its own query;
      and while nothing failed and no close began, the requests are the forwarded ones and
      the incomplete sockets, each still a client. */
  lemma Conservation(events: seq<Event>)
    ensures var s := Run(EMPTY, events);
            && s.counters.forwarded <= s.counters.requests
            && NoDuplicates(s.replies)
            && AllVerified(s.pool.sockets)
            && s.counters.requests == s.counters.forwarded + |Incomplete(s.pool.sockets)|
            && (!s.failed && !s.closing ==> Incomplete(s.pool.sockets) <= s.pool.clients)
  {
    EmptyInv();
    RunKeeps(EMPTY, events);
    var s := Run(EMPTY, events);
    Partition(s.pool.sockets);
    if !s.failed && !s.closing {
      AttachedIncomplete(s);
    }
  }

  // ----- what a successful close means -----

  /** The sockets that still wait for a response or for the end of their send. */
  ghost function Unsent(sockets: map<nat, Socket>): (s: set<nat>) {
    set id | id in sockets && sockets[id].phase.Sending?
  }

  ghost function Unanswered(sockets: map<nat, Socket>): (s: set<nat>) {
    set id | id in sockets && sockets[id].phase.Waiting?
  }

  /** From `s` to `t` no query was accepted, no waiting socket answered, no failure undone. */
  ghost predicate Frozen(s: State, t: State) {
    && t.closing
    && Unanswered(t.pool.sockets) == Unanswered(s.pool.sockets)
    && t.counters.requests == s.counters.requests
    && (s.failed ==> t.failed)
  }

  lemma WaitingAfter(sockets: map<nat, Socket>, id: nat, k: Socket)
    requires id in sockets && (sockets[id].phase.Waiting? <==> k.phase.Waiting?)
    ensures Unanswered(sockets[id := k]) == Unanswered(sockets)
  {
  }

  lemma ClosingStep(s: State, e: Event)
    requires AllAttached(s) && s.closing
    ensures Frozen(s, Apply(s, e))
  {
    var t := Apply(s, e);
    if !e.CloseCalled? && t.pool.sockets != s.pool.sockets {
      assert Attached(s, e.id);
      WaitingAfter(s.pool.sockets, e.id, t.pool.sockets[e.id]);
    }
  }

  lemma {:induction false} ClosingRun(s: State, events: seq<Event>)
    requires Inv(s) && s.closing
    ensures Frozen(s, Run(s, events))
    decreases |events|
  {
    if events != [] {
      ClosingStep(s, events[0]);
      EventKeeps(s, events[0]);
      ClosingRun(Apply(s, events[0]), events[1..]);
    }
  }

  lemma IncompleteWithoutFailure(u: State)
    requires AllAttached(u) && !u.failed
    ensures Incomplete(u.pool.sockets) == Unanswered(u.pool.sockets) + Unsent(u.pool.sockets)
  {
    forall id | id in u.pool.sockets
      ensures Forwarded(u.pool.sockets[id]) || id in Unanswered(u.pool.sockets) || id in Unsent(u.pool.sockets)
    {
      assert Attached(u, id);
    }
  }

  lemma ClosedStillWait(sockets: map<nat, Socket>, which: set<nat>)
    ensures Unanswered(CloseOwned(sockets, which)) == Unanswered(sockets)
  {
  }

  lemma BeginCloseKeeps(s: State)
    requires Inv(s)
    ensures Inv(BeginClose(s))
    ensures Unanswered(BeginClose(s).pool.sockets) == Unanswered(s.pool.sockets)
  {
    EventKeeps(s, CloseCalled);
    ClosedStillWait(s.pool.sockets, s.pool.clients);
    assert BeginClose(s).pool.sockets == CloseOwned(s.pool.sockets, s.pool.clients);
  }

  lemma FrozenByClose(s: State, events: seq<Event>)
    requires Inv(s)
    ensures Inv(Run(BeginClose(s), events)) && Frozen(s, Run(BeginClose(s), events))
  {
    BeginCloseKeeps(s);
    ClosingRun(BeginClose(s), events);
    RunKeeps(BeginClose(s), events);
  }

  /** What a successful close leaves, whatever happened since it was called in state `s`:
      no client, no failure, and exactly the sockets that were waiting then, together with
      those whose send never ended, short of a forwarded response. */
  lemma SuccessfulClose(s: State, events: seq<Event>)
    requires Inv(s)
    ensures var u := Run(BeginClose(s), events);
            CloseSucceeds(u) ==>
              && u.pool.clients == {} && !u.failed && !s.failed
              && u.counters.requests == s.counters.requests
              && Incomplete(u.pool.sockets) == Unanswered(s.pool.sockets) + Unsent(u.pool.sockets)
  {
    FrozenByClose(s, events);
    var u := Run(BeginClose(s), events);
    if CloseSucceeds(u) {
      IncompleteWithoutFailure(u);
    }
  }

  // ----- when a successful close means that everything was forwarded -----

  /** `events` close every client, one after the other. */
  lemma {:induction false} ClosingEvents(s: State) returns (events: seq<Event>)
    requires Inv(s) && s.closing && !s.failed
    requires forall id | id in s.pool.clients :: s.pool.sockets[id].closeRequested
    ensures Run(s, events) == s.(pool := s.pool.(clients := {}))
    decreases |s.pool.clients|
  {
    if s.pool.clients == {} {
      events := [];
    } else {
      var id :| id in s.pool.clients;
      var t := Apply(s, SocketClosed(id));
      EventKeeps(s, SocketClosed(id));
      var rest := ClosingEvents(t);
      events := [SocketClosed(id)] + rest;
    }
  }

  /** A successful close promises that every request was forwarded for exactly those states
      in which everything already was: a close that is called earlier can succeed with
      requests that were never answered. */
  lemma CloseIsCompleteExactlyWhen(s: State)
    requires Inv(s)
    ensures (forall events {:trigger Run(BeginClose(s), events)} :: var u := Run(BeginClose(s), events);
               CloseSucceeds(u) ==> u.counters.requests == u.counters.forwarded)
       <==> (s.failed || s.counters.requests == s.counters.forwarded)
  {
    Partition(s.pool.sockets);
    if !s.failed && s.counters.requests != s.counters.forwarded {
      var t := BeginClose(s);
      EventKeeps(s, CloseCalled);
      var events := ClosingEvents(t);
      var u := Run(BeginClose(s), events);
      assert CloseSucceeds(u) && u.counters == s.counters;
    } else {
      forall events
        ensures CloseSucceeds(Run(BeginClose(s), events)) ==>
          Run(BeginClose(s), events).counters.requests == Run(BeginClose(s), events).counters.forwarded
      {
        CompleteCloseStays(s, events);
      }
    }
  }

  lemma ForwardedGrows(s: State, e: Event)
    ensures s.counters.forwarded <= Apply(s, e).counters.forwarded
  {
  }

  lemma {:induction false} RunForwards(s: State, events: seq<Event>)
    ensures s.counters.forwarded <= Run(s, events).counters.forwarded
    decreases |events|
  {
    if events != [] {
      ForwardedGrows(s, events[0]);
      RunForwards(Apply(s, events[0]), events[1..]);
    }
  }

  lemma CompleteCloseStays(s: State, events: seq<Event>)
    requires Inv(s) && (s.failed || s.counters.requests == s.counters.forwarded)
    ensures var u := Run(BeginClose(s), events);
            CloseSucceeds(u) ==> u.counters.requests == u.counters.forwarded
  {
    FrozenByClose(s, events);
    RunForwards(BeginClose(s), events);
    Partition(Run(BeginClose(s), events).pool.sockets);
  }

  // ----- the forwarder -----

  class UdpForwarder {
    var closing: bool
    var failed: bool
    var requests: nat
    var forwarded: nat
    var sockets: map<nat, Socket>
    var clients: set<nat>
    ghost var replies: seq<nat>

    ghost function View(): State
      reads this
    {
      State(closing, failed, Counters(requests, forwarded), Pool(sockets, clients), replies)
    }

    constructor ()
      ensures View() == EMPTY
    {
      closing, failed, requests, forwarded := false, false, 0, 0;
      sockets, clients, replies := map[], {}, [];
    }

    /** A datagram on the listener; `id` names the socket it may create. */
    method OnQuery(id: nat, query: seq<byte>, loopback: bool, allowedName: string)
      requires id !in sockets
      modifies this
      ensures View() == Apply(old(View()), Query(id, query, loopback, allowedName))
    {
      if closing {
        return;
      }
      var asked := ParseQuestion(query);
      if asked.None? || !loopback || asked.value != allowedName || query[2] >= 128 {
        failed := true;
        return;
      }
      requests := requests + 1;
      clients := clients + {id};
      sockets := sockets[id := Socket(query, asked.value, Waiting, false)];
    }

    method CloseSocket(id: nat)
      requires id in sockets
      modifies this`sockets
      ensures sockets == old(sockets)[id := old(sockets[id]).(closeRequested := true)]
    {
      sockets := sockets[id := sockets[id].(closeRequested := true)];
    }

    /** The first message of a socket that was not closed. */
    method OnResponse(id: nat, response: seq<byte>)
      requires id in sockets && sockets[id].phase.Waiting? && !sockets[id].closeRequested
      modifies this
      ensures View() == Apply(old(View()), Response(id, response))
    {
      var k := sockets[id];
      if !VerifyDatagrams(k.query, response, k.name) {
        failed := true;
        sockets := sockets[id := k.(phase := Phase.Refused)];
        CloseSocket(id);
        return;
      }
      sockets := sockets[id := k.(phase := Sending(response))];
      replies := replies + [id];
    }

    method OnSendDone(id: nat, error: bool)
      requires id in sockets && sockets[id].phase.Sending?
      modifies this
      ensures View() == Apply(old(View()), SendDone(id, error))
    {
      if error {
        failed := true;
      } else {
        forwarded := forwarded + 1;
      }
      sockets := sockets[id := sockets[id].(phase := Answered(sockets[id].phase.response, !error))];
      CloseSocket(id);
    }

    method OnTrouble(id: nat)
      requires id in sockets
      modifies this
      ensures View() == Apply(old(View()), Trouble(id))
    {
      failed := true;
      CloseSocket(id);
    }

    method OnSocketClose(id: nat)
      requires id in sockets && sockets[id].closeRequested
      modifies this
      ensures View() == Apply(old(View()), SocketClosed(id))
    {
      clients := clients - {id};
    }

    method OnServerError()
      modifies this
      ensures View() == Apply(old(View()), ServerError)
    {
      failed := true;
    }

    method CloseClients()
      requires clients <= sockets.Keys
      modifies this`sockets
      ensures sockets == CloseOwned(old(sockets), clients)
    {
      var left := clients;
      while left != {}
        invariant left <= clients <= sockets.Keys
        invariant sockets == CloseOwned(old(sockets), clients - left)
        decreases |left|
      {
        var id :| id in left;
        CloseSocket(id);
        left := left - {id};
      }
      assert clients - left == clients;
    }

    /** `close` up to its waits. */
    method Close()
      requires clients <= sockets.Keys
      modifies this
      ensures View() == Apply(old(View()), CloseCalled)
    {
      closing := true;
      CloseClients();
    }
  }
}
