/** The controller's reading of its control pipe, byte by byte: lines split out of
    arbitrary chunks, `stop()`, and the signals sent through the retained pidfd. */
module OwnedCommands {
  import opened LineFraming

  const BUFFER_LIMIT: nat := 8192

  datatype Signal = TERM | CONT

  /** Running, stopped gracefully, or thrown out of the loop by a bad command. */
  datatype Mode = Open | Stopping | Raised

  /** The flags of the loop, the signals sent so far and the unread text. */
  datatype Reader = Reader(started: bool, mode: Mode, signals: seq<Signal>, buffer: string)

  const FRESH: Reader := Reader(false, Open, [], "")

  function StopSignals(started: bool): (signals: seq<Signal>) {
    if started then [TERM] else [TERM, CONT]
  }

  /** `stop()` is idempotent; TERM precedes the CONT that a stopped child needs. */
  function Stop(r: Reader): (q: Reader) {
    if r.mode.Open? then r.(mode := Stopping, signals := r.signals + StopSignals(r.started)) else r
  }

  /** Leaving the loop by an exception: the recovery code signals once more. */
  function Raise(r: Reader): (q: Reader) {
    r.(mode := Raised, signals := r.signals + [TERM, CONT])
  }

  /** One complete line of the control pipe. */
  function Obey(r: Reader, line: string, nonce: string): (q: Reader) {
    if line == "start:" + nonce && !r.started && r.mode.Open? then r.(started := true, signals := r.signals + [CONT])
    else if line == "stop:" + nonce then Stop(r)
    else Raise(Stop(r))
  }

  ghost function ObeyAll(r: Reader, nonce: string): (q: Reader)
    decreases |r.buffer|
  {
    var at := NewlineAt(r.buffer);
    if at == |r.buffer| || r.mode.Raised? then r
    else
      var next := Obey(r.(buffer := r.buffer[at + 1..]), r.buffer[..at], nonce);
      ObeyAll(next, nonce)
  }

  /** What the loop reacts to; a chunk is only read while neither stopping nor raised. */
  datatype Event = Chunk(text: string) | Deadline

  ghost function React(r: Reader, e: Event, nonce: string): (q: Reader) {
    if !r.mode.Open? then r
    else match e
      case Deadline => Stop(r)
      case Chunk(text) =>
        if text == "" then Stop(r)
        else if |r.buffer + text| > BUFFER_LIMIT then Raise(r.(buffer := r.buffer + text))
        else ObeyAll(r.(buffer := r.buffer + text), nonce)
  }

  ghost function Run(r: Reader, events: seq<Event>, nonce: string): (q: Reader)
    decreases |events|
  {
    if events == [] then r else Run(React(r, events[0], nonce), events[1..], nonce)
  }

  function Piece(e: Event): (text: string) {
    if e.Chunk? then e.text else ""
  }

  /** All bytes offered to the loop. */
  function Text(events: seq<Event>): (text: string) {
    if events == [] then "" else Piece(events[0]) + Text(events[1..])
  }

  // ----- signal safety -----

  /** Every CONT follows a TERM, except one at the front once the child was started. */
  ghost predicate Ordered(signals: seq<Signal>, started: bool) {
    && (forall i | 0 <= i < |signals| && signals[i].CONT? :: (started && i == 0) || TERM in signals[..i])
    && (started ==> signals != [] && signals[0] == CONT)
  }

  /** The signals sent, to the last one: a started child was continued once and gets a TERM
      alone when the loop stops; any other gets TERM and then CONT; an exception adds both,
      after a stop or, for an oversized buffer, without one. */
  ghost predicate Exactly(r: Reader) {
    var begun := if r.started then [CONT] else [];
    var stopped := if r.started then [CONT, TERM] else [TERM, CONT];
    match r.mode
    case Open => r.signals == begun
    case Stopping => r.signals == stopped
    case Raised => r.signals == stopped + [TERM, CONT] || r.signals == begun + [TERM, CONT]
  }

  ghost predicate Safe(r: Reader) {
    Ordered(r.signals, r.started) && (r.mode.Open? && !r.started ==> r.signals == [])
  }

  lemma AppendKeepsOrder(signals: seq<Signal>, more: seq<Signal>, started: bool)
    requires Ordered(signals, started) && more != [] && more[0] == TERM
    ensures Ordered(signals + more, started)
  {
    var all := signals + more;
    forall i | 0 <= i < |all| && all[i].CONT?
      ensures (started && i == 0) || TERM in all[..i]
    {
      if i < |signals| {
        assert all[..i] == signals[..i];
      } else {
        assert all[..i][|signals|] == TERM;
      }
    }
  }

  lemma ObeyKeepsSafe(r: Reader, line: string, nonce: string)
    requires Safe(r)
    ensures Safe(Stop(r)) && Safe(Raise(r)) && Safe(Obey(r, line, nonce))
  {
    AppendKeepsOrder(r.signals, StopSignals(r.started), r.started);
    AppendKeepsOrder(r.signals, [TERM, CONT], r.started);
    AppendKeepsOrder(Stop(r).signals, [TERM, CONT], r.started);
  }

  lemma {:induction false} ObeyAllKeepsSafe(r: Reader, nonce: string)
    requires Safe(r)
    ensures Safe(ObeyAll(r, nonce))
    decreases |r.buffer|
  {
    var at := NewlineAt(r.buffer);
    if at < |r.buffer| && !r.mode.Raised? {
      var rest := r.(buffer := r.buffer[at + 1..]);
      ObeyKeepsSafe(rest, r.buffer[..at], nonce);
      ObeyAllKeepsSafe(Obey(rest, r.buffer[..at], nonce), nonce);
    }
  }

  lemma {:induction false} RunKeepsSafe(r: Reader, events: seq<Event>, nonce: string)
    requires Safe(r)
    ensures Safe(Run(r, events, nonce))
    decreases |events|
  {
    if events != [] {
      var e := events[0];
      ObeyKeepsSafe(r, "", nonce);
      if e.Chunk? {
        ObeyKeepsSafe(r.(buffer := r.buffer + e.text), "", nonce);
        ObeyAllKeepsSafe(r.(buffer := r.buffer + e.text), nonce);
      }
      RunKeepsSafe(React(r, e, nonce), events[1..], nonce);
    }
  }

  // ----- the signals, exactly -----

  lemma ObeyKeepsExactly(r: Reader, line: string, nonce: string)
    requires Exactly(r) && !r.mode.Raised?
    ensures Exactly(Stop(r)) && Exactly(Raise(r)) && Exactly(Obey(r, line, nonce))
  {
  }

  lemma {:induction false} ObeyAllKeepsExactly(r: Reader, nonce: string)
    requires Exactly(r)
    ensures Exactly(ObeyAll(r, nonce))
    decreases |r.buffer|
  {
    var at := NewlineAt(r.buffer);
    if at < |r.buffer| && !r.mode.Raised? {
      var rest := r.(buffer := r.buffer[at + 1..]);
      ObeyKeepsExactly(rest, r.buffer[..at], nonce);
      ObeyAllKeepsExactly(Obey(rest, r.buffer[..at], nonce), nonce);
    }
  }

  lemma {:induction false} RunKeepsExactly(r: Reader, events: seq<Event>, nonce: string)
    requires Exactly(r)
    ensures Exactly(Run(r, events, nonce))
    decreases |events|
  {
    if events != [] {
      var e := events[0];
      if r.mode.Open? {
        ObeyKeepsExactly(r, "", nonce);
        if e.Chunk? {
          ObeyKeepsExactly(r.(buffer := r.buffer + e.text), "", nonce);
          ObeyAllKeepsExactly(r.(buffer := r.buffer + e.text), nonce);
        }
      }
      RunKeepsExactly(React(r, e, nonce), events[1..], nonce);
    }
  }

  /** For every chunking and every deadline the signals are exactly those of the final mode;
      in particular a child that was never started is continued last whenever the loop is no
      longer open. */
  lemma SignalsExactly(events: seq<Event>, nonce: string)
    ensures var q := Run(FRESH, events, nonce);
            && Exactly(q)
            && (!q.mode.Open? && !q.started ==> q.signals != [] && q.signals[|q.signals| - 1] == CONT)
            && (!q.mode.Open? ==> TERM in q.signals)
  {
    RunKeepsExactly(FRESH, events, nonce);
  }

  /** A deadline, the end of input and an oversized buffer close an open loop. */
  lemma ClosingEvents(r: Reader, chunk: string, nonce: string)
    requires r.mode.Open?
    ensures React(r, Deadline, nonce).mode.Stopping? && React(r, Chunk(""), nonce).mode.Stopping?
    ensures |r.buffer + chunk| > 8192 && chunk != "" ==> React(r, Chunk(chunk), nonce).mode.Raised?
  {
  }

  // ----- only the exact line starts the child -----

  ghost predicate Asked(text: string, nonce: string) {
    ("start:" + nonce) in Lines(text)
  }

  /** The start line is among the lines of `text`, or the child was not started; while the
      loop is open the unread text is the remainder of `text`. */
  ghost predicate Traced(r: Reader, text: string, nonce: string) {
    && (r.started ==> Asked(text, nonce))
    && (r.mode.Open? ==> r.buffer == Rest(text))
  }

  lemma {:induction false} ObeyAllTraced(r: Reader, nonce: string)
    ensures var q := ObeyAll(r, nonce);
            && (q.started && !r.started ==> Asked(r.buffer, nonce))
            && (r.started ==> q.started)
            && (q.mode.Open? ==> r.mode.Open? && q.buffer == Rest(r.buffer))
    decreases |r.buffer|
  {
    var at := NewlineAt(r.buffer);
    if at < |r.buffer| && !r.mode.Raised? {
      var line, rest := r.buffer[..at], r.(buffer := r.buffer[at + 1..]);
      assert Lines(r.buffer) == [line] + Lines(rest.buffer);
      ObeyAllTraced(Obey(rest, line, nonce), nonce);
    }
  }

  lemma AskedLater(text: string, more: string, nonce: string)
    ensures Asked(text, nonce) || Asked(Rest(text) + more, nonce) ==> Asked(text + more, nonce)
  {
    FramingIsIncremental(text, more);
  }

  lemma ChunkTraced(r: Reader, chunk: string, text: string, nonce: string)
    requires Traced(r, text, nonce) && r.mode.Open?
    ensures Traced(ObeyAll(r.(buffer := r.buffer + chunk), nonce), text + chunk, nonce)
  {
    ObeyAllTraced(r.(buffer := r.buffer + chunk), nonce);
    AskedLater(text, chunk, nonce);
    FramingIsIncremental(text, chunk);
  }

  lemma ReactTraced(r: Reader, e: Event, text: string, nonce: string)
    requires Traced(r, text, nonce)
    ensures Traced(React(r, e, nonce), text + Piece(e), nonce)
  {
    AskedLater(text, Piece(e), nonce);
    if r.mode.Open? && e.Chunk? {
      ChunkTraced(r, e.text, text, nonce);
    }
  }

  lemma {:induction false} RunTraced(r: Reader, events: seq<Event>, text: string, nonce: string)
    requires Traced(r, text, nonce)
    ensures Traced(Run(r, events, nonce), text + Text(events), nonce)
    decreases |events|
  {
    if events == [] {
      ConcatEmpty(text);
    } else {
      ReactTraced(r, events[0], text, nonce);
      RunTraced(React(r, events[0], nonce), events[1..], text + Piece(events[0]), nonce);
      ConcatAssociates(text, Piece(events[0]), Text(events[1..]));
    }
  }

  /** However the control bytes are cut into chunks and whenever deadlines fire: a CONT
      without a TERM before it is sent at most once, first, and only if the exact line
      `start:` with the nonce was received. */
  lemma OnlyExactStartContinues(events: seq<Event>, nonce: string)
    ensures var q := Run(FRESH, events, nonce);
            && Ordered(q.signals, q.started)
            && (q.started ==> Asked(Text(events), nonce))
            && (q.signals != [] && q.signals[0] == CONT ==> q.started)
  {
    RunKeepsSafe(FRESH, events, nonce);
    NewlineAtUnique("", 0);
    RunTraced(FRESH, events, "", nonce);
    ConcatEmpty(Text(events));
  }

  // ----- what chunking decides -----

  lemma ObeyFirst(r: Reader, line: string, rest: string, nonce: string)
    requires '\n' !in line && !r.mode.Raised? && r.buffer == line + "\n" + rest
    ensures ObeyAll(r, nonce) == ObeyAll(Obey(r.(buffer := rest), line, nonce), nonce)
  {
    NewlineAtUnique(r.buffer, |line|);
    assert r.buffer[..|line|] == line && r.buffer[|line| + 1..] == rest;
  }

  lemma ObeyNothing(r: Reader, nonce: string)
    requires r.buffer == ""
    ensures ObeyAll(r, nonce) == r
  {
    NewlineAtUnique("", 0);
  }

  /** What follows a stop line is never read in a later chunk; in the same chunk it is, and
      a start line there makes the loop raise. */
  lemma StartAfterStop(nonce: string, stop: string, start: string)
    requires '\n' !in nonce && |nonce| <= 1000
    requires stop == "stop:" + nonce && start == "start:" + nonce
    ensures Run(FRESH, [Chunk(stop + "\n"), Chunk(start + "\n")], nonce).mode.Stopping?
    ensures Run(FRESH, [Chunk(stop + "\n" + (start + "\n"))], nonce).mode.Raised?
  {
    assert stop[0] == 's' && stop[2] == 'o' && start[2] == 'a';
    OneChunk(FRESH, Chunk(stop + "\n" + (start + "\n")), nonce);
    TwoChunks(FRESH, Chunk(stop + "\n"), Chunk(start + "\n"), nonce);
    StopLine(stop, "", nonce);
    ConcatEmpty(stop + "\n");
    ObeyNothing(Stop(FRESH), nonce);
    StopLine(stop, start + "\n", nonce);
    ConcatEmpty(start + "\n");
    var q := Stop(FRESH).(buffer := start + "\n");
    ObeyFirst(q, start, "", nonce);
    ObeyNothing(Obey(q.(buffer := ""), start, nonce), nonce);
  }

  lemma OneChunk(r: Reader, e: Event, nonce: string)
    ensures Run(r, [e], nonce) == React(r, e, nonce)
  {
    assert [e][1..] == [];
  }

  lemma TwoChunks(r: Reader, e: Event, f: Event, nonce: string)
    ensures Run(r, [e, f], nonce) == React(React(r, e, nonce), f, nonce)
  {
    assert [e, f][1..] == [f];
    OneChunk(React(r, e, nonce), f, nonce);
  }

  lemma StopLine(stop: string, rest: string, nonce: string)
    requires '\n' !in nonce && stop == "stop:" + nonce && |stop| + 1 + |rest| <= BUFFER_LIMIT
    ensures React(FRESH, Chunk(stop + "\n" + rest), nonce) == ObeyAll(Stop(FRESH).(buffer := rest), nonce)
  {
    var text := stop + "\n" + rest;
    ConcatEmpty(text);
    assert stop[2] == 'o' && ("start:" + nonce)[2] == 'a';
    ObeyFirst(FRESH.(buffer := text), stop, rest, nonce);
  }

  // ----- the loop itself -----

  class CommandReader {
    const nonce: string
    var started: bool
    var mode: Mode
    var signals: seq<Signal>
    var buffer: string

    ghost function View(): Reader
      reads this
    {
      Reader(started, mode, signals, buffer)
    }

    constructor (nonce: string)
      ensures View() == FRESH && this.nonce == nonce
    {
      this.nonce := nonce;
      started, mode, signals, buffer := false, Open, [], "";
    }

    method RequestStop()
      modifies this
      ensures View() == Stop(old(View()))
    {
      if mode.Open? {
        mode := Stopping;
        signals := signals + [TERM];
        if !started {
          signals := signals + [CONT];
        }
        assert signals == old(signals) + StopSignals(started);
      }
    }

    method Fail()
      modifies this
      ensures View() == Raise(old(View()))
    {
      mode := Raised;
      signals := signals + [TERM, CONT];
    }

    /** One complete line, taken off the buffer. */
    method ObeyLine(at: nat)
      requires at == NewlineAt(buffer) && at < |buffer|
      modifies this
      ensures View() == Obey(old(View()).(buffer := old(buffer)[at + 1..]), old(buffer)[..at], nonce)
    {
      var command := buffer[..at];
      buffer := buffer[at + 1..];
      if command == "start:" + nonce && !started && mode.Open? {
        started := true;
        signals := signals + [CONT];
      } else if command == "stop:" + nonce {
        RequestStop();
      } else {
        RequestStop();
        Fail();
      }
    }

    method ObeyLines()
      modifies this
      ensures View() == ObeyAll(old(View()), nonce)
    {
      var at := IndexOfNewline(buffer);
      while at < |buffer| && !mode.Raised?
        invariant at == NewlineAt(buffer)
        invariant ObeyAll(View(), nonce) == ObeyAll(old(View()), nonce)
        decreases |buffer|
      {
        ObeyLine(at);
        at := IndexOfNewline(buffer);
      }
    }

    /** One readable event of the control pipe; the empty chunk is the end of input. */
    method OnReadable(chunk: string)
      modifies this
      ensures View() == React(old(View()), Chunk(chunk), nonce)
    {
      if !mode.Open? {
        return;
      }
      if chunk == "" {
        RequestStop();
        return;
      }
      buffer := buffer + chunk;
      if |buffer| > BUFFER_LIMIT {
        Fail();
        return;
      }
      ObeyLines();
    }
  }
}
